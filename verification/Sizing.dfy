/** The two passes of labelcomp.c over an encodings file: the first counts the space that the second fills.
    Here are both as functions of the file, and a bound on what the second takes beyond what the first counted. */
module Sizing {
  import opened CTypes
  import opened Options
  import opened Words
  import opened WordIndex
  import opened Scanner
  import opened Constraints

  const VERSION: KeywordList := ["VERSION="]
  const CLASSIFICATIONS: KeywordList := ["CLASSIFICATIONS:"]
  const CLASS_KEYWORDS: KeywordList := ["VALUE=", "NAME=", "SNAME=", "INITIAL COMPARTMENTS=", "INITIAL MARKINGS="]
  const INFORMATION_LABELS: KeywordList := ["INFORMATION LABELS:"]
  const WORDS: KeywordList := ["WORDS:"]
  const NAME: KeywordList := ["NAME="]
  const LABEL_KEYWORDS: KeywordList :=
    ["SNAME=", "MINCLASS=", "OMINCLASS=", "MAXCLASS=", "COMPARTMENTS=", "MARKINGS=", "PREFIX=", "SUFFIX=", "PREFIX",
     "SUFFIX", "ACCESS RELATED", "FLAGS="]
  const REQUIRED_COMBINATIONS: KeywordList := ["REQUIRED COMBINATIONS:"]
  const COMBINATION_CONSTRAINTS: KeywordList := ["COMBINATION CONSTRAINTS:"]
  const SENSITIVITY_LABELS: KeywordList := ["SENSITIVITY LABELS:"]
  const CLEARANCES: KeywordList := ["CLEARANCES:"]
  const CHANNELS: KeywordList := ["CHANNELS:"]
  const PRINTER_BANNERS: KeywordList := ["PRINTER BANNERS:"]
  const ACCREDITATION_RANGE: KeywordList := ["ACCREDITATION RANGE:"]
  const MIN_CLEARANCE: KeywordList := ["MINIMUM CLEARANCE=", "CLASSIFICATION="]
  const CLASSIFICATION: KeywordList := ["CLASSIFICATION="]
  const ALL_VALID_EXCEPT: Keyword := "ALL COMPARTMENT COMBINATIONS VALID EXCEPT:"
  const ALL_VALID: Keyword := "ALL COMPARTMENT COMBINATIONS VALID"
  const ONLY_VALID: Keyword := "ONLY VALID COMPARTMENT COMBINATIONS:"
  const AR_TYPES: KeywordList := [ALL_VALID_EXCEPT, ALL_VALID, ONLY_VALID]
  const MIN_SENSITIVITY_LABEL: KeywordList := ["MINIMUM SENSITIVITY LABEL="]
  const MIN_PROTECT_AS: KeywordList := ["MINIMUM PROTECT AS CLASSIFICATION="]

  /** The sizes of the two kinds of bit string and the greatest classification, as the system is configured. */
  const COMPARTMENTS_SIZE: nat
  const MARKINGS_SIZE: nat
  const MAX_CLASS: nat

  /** The sizes of the table entries. */
  const PAIR_SIZE := 4
  const CONSTRAINT_SIZE := 32
  const WORD_SIZE := 88
  const CLASS_SIZE := 56
  const FIXED_SIZE := 216

  /** L_ALIGN: up to the next even number. */
  function Align(z: int): int {
    z + z % 2
  }

  // ---------------------------------------------------------------- lists of entries

  function Max(a: nat, b: nat): nat {
    if a > b then a else b
  }

  datatype Decimal = Decimal(value: int, rest: string)

  /** CONVERT_TO_DECIMAL into a signed 64-bit variable. */
  function ToDecimal(s: string, d: int): Decimal
    decreases |s|
  {
    if s != [] && '0' <= s[0] <= '9' then ToDecimal(s[1..], WrapLong(10 * d + (s[0] as int - '0' as int)))
    else Decimal(d, s)
  }

  /** The classifications: the strings they take, the greatest value and the longest name. */
  datatype Classes = Classes(ok: bool, s: Scan, strings: int, top: nat, longest: nat)

  function ClassStep(c: Classes, r: Token): Classes {
    match r.code
    case 0 =>
      var d := ToDecimal(r.data, 0);
      if d.rest == [] && 0 <= d.value <= MAX_CLASS then c.(s := r.next, top := Max(c.top, d.value))
      else c.(ok := false, s := r.next)
    case 1 =>
      c.(s := r.next, strings := Align(c.strings) + COMPARTMENTS_SIZE + MARKINGS_SIZE + |r.data| + 1,
         longest := Max(c.longest, |r.data|))
    case 2 => c.(s := r.next, strings := c.strings + |r.data| + 1, longest := Max(c.longest, |r.data|))
    case _ => c.(s := r.next)
  }

  function ClassList(c: Classes): Classes
    decreases Left(c.s)
  {
    var r := Next(c.s, CLASS_KEYWORDS);
    if !c.ok then c
    else if r.code < 0 then c.(s := r.next)
    else ClassList(ClassStep(c, r))
  }

  /** Some entries read: where scanning goes on, the strings they take, and their number. */
  datatype Entries = Entries(s: Scan, strings: int, n: nat)

  /** The keywords behind a word's name. */
  function Attributes(s: Scan, z: int): (e: Entries)
    ensures Left(e.s) <= Left(s)
    decreases Left(s)
  {
    var r := Next(s, LABEL_KEYWORDS);
    if r.code < 0 then Entries(r.next, z, 0) else Attributes(r.next, if r.code == 0 then z + |r.data| + 1 else z)
  }

  /** The strings behind a word's name and its four bit strings.  A name with a slash is stored twice, unless
      the words are for output only. */
  function NameStored(name: string, z: int, outputOnly: bool): int {
    Align(z + (|name| + 1) * (if !outputOnly && '/' in name then 2 else 1)) + 2 * COMPARTMENTS_SIZE + 2 * MARKINGS_SIZE
  }

  function WordList(s: Scan, z: int, outputOnly: bool): Entries
    decreases Left(s)
  {
    var r := Next(s, NAME);
    if r.code != 0 then Entries(r.next, z, 0)
    else
      var a := Attributes(r.next, NameStored(r.data, z, outputOnly));
      var e := WordList(a.s, a.strings, outputOnly);
      e.(n := e.n + 1)
  }

  /** The required combinations: whether all are in order, the keyword that ends them, and their number. */
  datatype Pairs = Pairs(ok: bool, code: int, s: Scan, n: nat)

  /** A line of exactly two words. */
  predicate IsPair(words: seq<Word>, text: string) {
    var first := Index(words, text);
    && first.Found?
    && var second := Index(words, first.rest); second.Found? && second.rest == []
  }

  /** Without a table the lines are counted, with one they are converted. */
  function PairList(s: Scan, table: Option<seq<Word>>): Pairs
    decreases Left(s)
  {
    var r := Next(s, COMBINATION_CONSTRAINTS);
    if r.code != -1 then Pairs(true, r.code, r.next, 0)
    else if table.Some? && !IsPair(table.value, r.next.cur) then Pairs(false, r.code, r.next, 0)
    else var p := PairList(Scan("", r.next.file), table); p.(n := p.n + 1)
  }

  /** What a 16-bit variable that counts words falls short of their number. */
  function Lost(words: nat): nat {
    words - WrapShort(words)
  }

  /** Nothing is lost exactly in a number that fits. */
  lemma {:induction false} NothingLostIff(words: nat)
    ensures Lost(words) == 0 <==> words <= 0x7fff
  {
  }

  /** The constraints of a section: their number, the strings they take, how many words were lost in counting
      them in 16 bits, and how many conversions ended early. */
  datatype Section = Section(ok: bool, s: Scan, strings: int, n: nat, lost: nat, cutOffs: nat)

  /** The counting pass. */
  function Reserve(s: Scan, section: KeywordList, z: int): Section
    decreases Left(s)
  {
    var r := Next(s, section);
    if r.code != -1 then Section(true, r.next, z, 0, 0, 0)
    else
      var l := FromLine(r.next.cur, r.next.file, section);
      if !l.ok then Section(false, Scan("", l.file), z, 0, 0, 0)
      else
        var rest := Reserve(Scan("", l.file), section, Align(z) + 2 * WrapShort(1 + l.n));
        rest.(n := rest.n + 1, lost := rest.lost + Lost(1 + l.n))
  }

  /** The conversion pass. */
  function Store(words: seq<Word>, s: Scan, section: KeywordList, z: int): Section
    decreases Left(s)
  {
    var r := Next(s, section);
    if r.code != -1 then Section(true, r.next, z, 0, 0, 0)
    else
      var v := Convert(words, Loaded(r.next.cur, r.next.file), section, true);
      var z' := Align(z) + 2 * |v.list|;
      if !v.ok then Section(false, v.next, z', 0, 0, 0)
      else
        var rest := Store(words, v.next, section, z');
        rest.(n := rest.n + 1, cutOffs := rest.cutOffs + (if v.cutOff then 1 else 0))
  }

  /** The sensitivity labels listed for one classification, and the keyword that ends them. */
  datatype Labels = Labels(code: int, s: Scan, strings: int)

  function LabelList(s: Scan, z: int): (l: Labels)
    ensures l.code >= 0 ==> Left(l.s) < Left(s)
    ensures l.code >= -2 && l.code != -1
    decreases Left(s)
  {
    var r := Next(s, MIN_CLEARANCE);
    if r.code != -1 then Labels(r.code, r.next, z) else LabelList(Scan("", r.next.file), z + COMPARTMENTS_SIZE)
  }

  datatype Ranges = Ranges(ok: bool, s: Scan, strings: int)

  function RangeList(s: Scan, z: int): Ranges
    decreases Left(s)
  {
    var r := Next(s, AR_TYPES);
    if r.code < 0 then Ranges(false, r.next, z)
    else
      var l := LabelList(r.next, z);
      if l.code == -2 then Ranges(false, l.s, l.strings)
      else if l.code == 0 then Ranges(true, l.s, l.strings)
      else RangeList(l.s, l.strings)
  }

  // ---------------------------------------------------------------- the sections of the file

  /** A pass so far: whether no error has occurred, the scanner, the bytes of strings and of combinations, the
      number of classifications, their longest name, the number of words in each table, and as in Section. */
  datatype Tally = Tally(ok: bool, s: Scan, strings: int, combos: int, classes: nat, longest: nat, words: seq<nat>,
                         lost: nat, cutOffs: nat)

  function Heading(t: Tally, kws: KeywordList): Tally {
    if !t.ok then t else var r := Next(t.s, kws); t.(ok := r.code >= 0, s := r.next)
  }

  function VersionSection(t: Tally): Tally {
    if !t.ok then t
    else
      var r := Next(t.s, VERSION);
      if r.code < 0 then t.(ok := false) else t.(s := r.next, strings := t.strings + |r.data| + 1)
  }

  function ClassSection(t: Tally): Tally {
    var h := Heading(t, CLASSIFICATIONS);
    if !h.ok then h
    else
      var c := ClassList(Classes(true, h.s, h.strings, 0, 0));
      h.(ok := c.ok && c.longest != 0, s := c.s, strings := c.strings, classes := c.top + 1, longest := c.longest)
  }

  function WordSection(t: Tally, outputOnly: bool): Tally {
    var h := Heading(t, WORDS);
    if !h.ok then h
    else
      var e := WordList(h.s, h.strings, outputOnly);
      h.(s := e.s, strings := e.strings, words := h.words + [e.n])
  }

  /** The required combinations and their end mark; the keyword behind them must have been found. */
  function PairSection(t: Tally, table: Option<seq<Word>>): Tally {
    var h := Heading(t, REQUIRED_COMBINATIONS);
    if !h.ok then h
    else
      var p := PairList(h.s, table);
      h.(ok := p.ok && p.code == 0, s := p.s, combos := h.combos + PAIR_SIZE * p.n + (if p.ok then PAIR_SIZE else 0))
  }

  /** The constraints and their end mark.  Conversion never moves on from the slot of one constraint. */
  function ConstraintSection(t: Tally, section: KeywordList, table: Option<seq<Word>>): Tally {
    if !t.ok then t
    else
      match table
      case None =>
        var c := Reserve(t.s, section, t.strings);
        t.(ok := c.ok, s := c.s, strings := c.strings, lost := t.lost + c.lost,
           combos := t.combos + CONSTRAINT_SIZE * c.n + (if c.ok then CONSTRAINT_SIZE else 0))
      case Some(words) =>
        var c := Store(words, t.s, section, t.strings);
        t.(ok := c.ok, s := c.s, strings := c.strings, cutOffs := t.cutOffs + c.cutOffs,
           combos := t.combos + CONSTRAINT_SIZE)
  }

  function RangeSection(t: Tally): Tally {
    var h := Heading(t, ACCREDITATION_RANGE);
    if !h.ok then h
    else
      var k := Heading(h.(strings := Align(h.strings)), CLASSIFICATION);
      if !k.ok then k
      else
        var r := RangeList(k.s, k.strings);
        k.(ok := r.ok, s := r.s, strings := r.strings)
  }

  function LastSection(t: Tally): Tally {
    var h := Heading(Heading(t, MIN_SENSITIVITY_LABEL), MIN_PROTECT_AS);
    h.(ok := h.ok && h.s.file == [])
  }

  /** The words and combinations of one kind of label. */
  function LabelSection(t: Tally, section: KeywordList, table: Option<seq<Word>>): Tally {
    ConstraintSection(PairSection(WordSection(t, false), table), section, table)
  }

  /** The word tables in use, none while counting. */
  datatype Tables = Tables(il: Option<seq<Word>>, sl: Option<seq<Word>>, cl: Option<seq<Word>>)

  const COUNTING := Tables(None, None, None)

  function Start(file: string): Tally {
    Tally(true, Scan("", file), 6 * COMPARTMENTS_SIZE + 4 * MARKINGS_SIZE, 0, 0, 0, [], 0, 0)
  }

  /** The part of a pass before any combinations. */
  function FirstPart(file: string): Tally {
    Heading(ClassSection(VersionSection(Start(file))), INFORMATION_LABELS)
  }

  /** The words for output only and the two headings, which both passes treat alike. */
  function OutputPart(t: Tally): Tally {
    WordSection(Heading(WordSection(t, true), PRINTER_BANNERS), true)
  }

  /** A pass up to the accreditation range. */
  function WordTables(file: string, tables: Tables): Tally {
    var il := LabelSection(FirstPart(file), SENSITIVITY_LABELS, tables.il);
    var sl := LabelSection(il, CLEARANCES, tables.sl);
    var cl := LabelSection(sl, CHANNELS, tables.cl);
    OutputPart(cl)
  }

  /** A pass over the whole file. */
  function Pass(file: string, tables: Tables): Tally {
    LastSection(RangeSection(WordTables(file, tables)))
  }

  /** An error ends a pass. */
  lemma {:induction false} FailedStays(t: Tally, section: KeywordList, table: Option<seq<Word>>, outputOnly: bool)
    requires !t.ok
    ensures Heading(t, section) == t && ClassSection(t) == t && WordSection(t, outputOnly) == t
            && PairSection(t, table) == t
    ensures ConstraintSection(t, section, table) == t && LabelSection(t, section, table) == t
    ensures OutputPart(t) == t && RangeSection(t) == t && LastSection(t) == t
  {
    hide Next;
  }

  // ---------------------------------------------------------------- both passes over the same entries

  /** `a` exceeds `b` by no more than two bytes for each of `d` early ends. */
  predicate AtMost(a: int, b: int, d: nat) {
    a <= b + 2 * d
  }

  /** Passes that read the same entries from `z1` and from `z2` on keep their distance. */
  ghost predicate Parallel(s: Scan, z1: int, a: Entries, z2: int, b: Entries, d: nat) {
    && a.s == b.s && a.n == b.n && z1 <= a.strings && z2 <= b.strings && AtMost(a.strings, b.strings, d)
    && (z1 == z2 + 2 * d ==> a.strings == b.strings + 2 * d)
    && (NoLoneBackslash(s.file) ==> NoLoneBackslash(a.s.file))
  }

  lemma {:induction false} NextClean(s: Scan, kws: KeywordList)
    ensures NoLoneBackslash(s.file) ==> NoLoneBackslash(Next(s, kws).next.file)
  {
    if NoLoneBackslash(s.file) {
      NextKeepsNoLone(s, kws);
    }
  }

  lemma {:induction false} AttributesParallel(s: Scan, z1: int, z2: int, d: nat)
    requires AtMost(z1, z2, d)
    ensures Parallel(s, z1, Attributes(s, z1), z2, Attributes(s, z2), d)
    decreases Left(s)
  {
    hide Next;
    NextClean(s, LABEL_KEYWORDS);
    var r := Next(s, LABEL_KEYWORDS);
    if r.code >= 0 {
      var k := if r.code == 0 then |r.data| + 1 else 0;
      AttributesParallel(r.next, z1 + k, z2 + k, d);
    }
  }

  lemma {:induction false} NameParallel(name: string, z1: int, z2: int, outputOnly: bool, d: nat)
    requires AtMost(z1, z2, d)
    ensures AtMost(NameStored(name, z1, outputOnly), NameStored(name, z2, outputOnly), d)
    ensures z1 <= NameStored(name, z1, outputOnly) && z2 <= NameStored(name, z2, outputOnly)
    ensures z1 == z2 + 2 * d ==> NameStored(name, z1, outputOnly) == NameStored(name, z2, outputOnly) + 2 * d
  {
  }

  lemma {:induction false} WordsParallel(s: Scan, z1: int, z2: int, outputOnly: bool, d: nat)
    requires AtMost(z1, z2, d)
    ensures Parallel(s, z1, WordList(s, z1, outputOnly), z2, WordList(s, z2, outputOnly), d)
    decreases Left(s)
  {
    hide Next;
    NextClean(s, NAME);
    var r := Next(s, NAME);
    if r.code == 0 {
      NameParallel(r.data, z1, z2, outputOnly, d);
      var y1, y2 := NameStored(r.data, z1, outputOnly), NameStored(r.data, z2, outputOnly);
      AttributesParallel(r.next, y1, y2, d);
      var a := Attributes(r.next, y1);
      WordsParallel(a.s, a.strings, Attributes(r.next, y2).strings, outputOnly, d);
    }
  }

  lemma {:induction false} LabelsParallel(s: Scan, z1: int, z2: int, d: nat)
    requires AtMost(z1, z2, d)
    ensures var a, b := LabelList(s, z1), LabelList(s, z2);
            && a.s == b.s && a.code == b.code && z2 <= b.strings && AtMost(a.strings, b.strings, d)
            && (z1 == z2 + 2 * d ==> a.strings == b.strings + 2 * d)
    decreases Left(s)
  {
    hide Next;
    var r := Next(s, MIN_CLEARANCE);
    if r.code == -1 {
      LabelsParallel(Scan("", r.next.file), z1 + COMPARTMENTS_SIZE, z2 + COMPARTMENTS_SIZE, d);
    }
  }

  lemma {:induction false} RangesParallel(s: Scan, z1: int, z2: int, d: nat)
    requires AtMost(z1, z2, d)
    ensures var a, b := RangeList(s, z1), RangeList(s, z2);
            && a.s == b.s && a.ok == b.ok && z2 <= b.strings && AtMost(a.strings, b.strings, d)
            && (z1 == z2 + 2 * d ==> a.strings == b.strings + 2 * d)
    decreases Left(s)
  {
    hide Next;
    var r := Next(s, AR_TYPES);
    if r.code >= 0 {
      LabelsParallel(r.next, z1, z2, d);
      var l := LabelList(r.next, z1);
      if l.code > 0 {
        RangesParallel(l.s, l.strings, LabelList(r.next, z2).strings, d);
      }
    }
  }

  /** The lines converted are those that were counted. */
  lemma {:induction false} PairsParallel(s: Scan, words: seq<Word>)
    ensures var c, k := PairList(s, Some(words)), PairList(s, None);
            && k.ok && c.n <= k.n && (c.ok ==> c == k)
            && (NoLoneBackslash(s.file) ==> NoLoneBackslash(c.s.file))
    decreases Left(s)
  {
    hide Next;
    NextClean(s, COMBINATION_CONSTRAINTS);
    var r := Next(s, COMBINATION_CONSTRAINTS);
    if r.code == -1 {
      PairsParallel(Scan("", r.next.file), words);
    }
  }

  /** Where the keywords behind a name end does not depend on the space taken. */
  lemma {:induction false} AttributesSame(s: Scan, y: int, z: int)
    ensures Attributes(s, y).s == Attributes(s, z).s
  {
    var d := if y > z then y - z else 0;
    AttributesParallel(s, y, z, d);
  }

  lemma {:induction false} ClassListGrows(c: Classes)
    ensures c.strings <= ClassList(c).strings
    decreases Left(c.s)
  {
    hide Next;
    var r := Next(c.s, CLASS_KEYWORDS);
    if c.ok && r.code >= 0 {
      ClassListGrows(ClassStep(c, r));
    }
  }

  // ---------------------------------------------------------------- the constraints of a section

  lemma {:induction false} ReserveGrows(s: Scan, section: KeywordList, z: int)
    ensures var k := Reserve(s, section, z); z <= k.strings + 2 * k.lost
    decreases Left(s)
  {
    hide Next;
    var r := Next(s, section);
    if r.code == -1 {
      var l := FromLine(r.next.cur, r.next.file, section);
      if l.ok {
        ReserveGrows(Scan("", l.file), section, Align(z) + 2 * WrapShort(1 + l.n));
      }
    }
  }

  /** What conversion stored in one section, against what was reserved, when it began `d` early ends ahead. */
  ghost predicate Held(c: Section, k: Section, d: nat) {
    AtMost(c.strings, k.strings, d + c.cutOffs + k.lost) && (c.ok ==> c.s == k.s)
  }

  /** From the first line of a constraint on, which is the first line for both passes. */
  lemma {:induction false} StoreFromStart(words: seq<Word>, s: Scan, section: KeywordList, z1: int, z2: int, d: nat)
    requires AtMost(z1, z2, d) && Reserve(s, section, z2).ok
    ensures Held(Store(words, s, section, z1), Reserve(s, section, z2), d)
    decreases Left(s)
  {
    hide Next, Convert, FromLine, NoLoneBackslash;
    ReserveGrows(s, section, z2);
    var r := Next(s, section);
    if r.code == -1 {
      var l := FromLine(r.next.cur, r.next.file, section);
      var v := Convert(words, Loaded(r.next.cur, r.next.file), section, true);
      LineCovered(words, r.next.cur, r.next.file, section);
      var y1, y2 := Align(z1) + 2 * |v.list|, Align(z2) + 2 * WrapShort(1 + l.n);
      if !v.ok {
        ReserveGrows(Scan("", l.file), section, y2);
      } else if v.cutOff {
        StoreFromMiddle(words, v.next.file, section, y1, y2, d + Lost(1 + l.n));
      } else {
        StoreFromStart(words, v.next, section, y1, y2, d + Lost(1 + l.n));
      }
    }
  }

  /** From a line on that the counting pass took for the continuation of the constraint before. */
  lemma {:induction false} StoreFromMiddle(words: seq<Word>, file: string, section: KeywordList, z1: int, z2: int,
                                           d: nat)
    requires z1 % 2 == 0 && More(file, section).ok && AtMost(z1 + 2 * More(file, section).n, z2, d)
    requires Reserve(Scan("", More(file, section).file), section, z2).ok
    ensures Held(Store(words, Scan("", file), section, z1), Reserve(Scan("", More(file, section).file), section, z2),
                 d + 1)
    decreases |file|
  {
    hide Next, Convert, FromLine, NoLoneBackslash;
    var m := More(file, section);
    ReserveGrows(Scan("", m.file), section, z2);
    var r := Next(Scan("", file), section);
    var v := Convert(words, Loaded(r.next.cur, r.next.file), section, true);
    LineCovered(words, r.next.cur, r.next.file, section);
    var y1 := z1 + 2 * |v.list|;
    if v.ok {
      if v.cutOff {
        StoreFromMiddle(words, v.next.file, section, y1, z2, d + 1);
      } else {
        StoreFromStart(words, v.next, section, y1, z2, d + 1);
      }
    }
  }

  /** Where the conversion begins a constraint, the counting pass has seen lines up to the next heading. */
  ghost predicate LinesCounted(s: Scan, section: KeywordList) {
    || Reserve(s, section, 0).ok
    || (s.cur == "" && var m := More(s.file, section); m.ok && Reserve(Scan("", m.file), section, 0).ok)
  }

  lemma {:induction false} ReserveSame(s: Scan, section: KeywordList, y: int, z: int)
    ensures Reserve(s, section, y).ok == Reserve(s, section, z).ok
    decreases Left(s)
  {
    hide Next, FromLine;
    var r := Next(s, section);
    if r.code == -1 {
      var l := FromLine(r.next.cur, r.next.file, section);
      if l.ok {
        ReserveSame(Scan("", l.file), section, Align(y) + 2 * WrapShort(1 + l.n), Align(z) + 2 * WrapShort(1 + l.n));
      }
    }
  }

  lemma {:induction false} LinesCountedStep(words: seq<Word>, s: Scan, section: KeywordList)
    requires LinesCounted(s, section) && Next(s, section).code == -1
    ensures var t := Next(s, section).next;
            var v := Convert(words, Loaded(t.cur, t.file), section, true);
            FromLine(t.cur, t.file, section).ok && (v.ok ==> LinesCounted(v.next, section))
  {
    hide Next, Convert, FromLine;
    var t := Next(s, section).next;
    var l := FromLine(t.cur, t.file, section);
    if l.ok {
      LineCovered(words, t.cur, t.file, section);
      if Reserve(s, section, 0).ok {
        ReserveSame(Scan("", l.file), section, 0, Align(0) + 2 * WrapShort(1 + l.n));
      }
    }
  }

  // ---------------------------------------------------------------- lines that are a backslash alone

  /** How many lines read from the file for a section are a backslash alone. */
  function Lone(s: Scan, section: KeywordList): nat
    decreases Left(s)
  {
    var r := Next(s, section);
    if r.code != -1 then 0
    else (if SkipBlank(s.cur) == [] && r.next.cur == "\\" then 1 else 0) + Lone(Scan("", r.next.file), section)
  }

  /** A cursor at which nothing is left to read of a line that continues. */
  predicate Stuck(d: Cursor) {
    d.text == [] && d.continues
  }

  /** Loading a line that is a backslash alone leaves the conversion stuck, and only that. */
  lemma {:induction false} LoneLoaded(c: Cursor, section: KeywordList)
    requires Ahead(c, section, 0).ok
    ensures var d := CheckContinuation(c, section);
            Lone(Scan("", c.file), section) == (if Stuck(d) then 1 else 0) + Lone(Scan("", d.file), section)
  {
    hide Next;
    LoadedNothingIff(c, section);
  }

  lemma {:induction false} StuckFails(words: seq<Word>, d: Cursor, section: KeywordList, firstHalf: bool)
    requires d.text == []
    ensures !Convert(words, d, section, firstHalf).ok
  {
  }

  lemma {:induction false} FoundIfOk(words: seq<Word>, c: Cursor, section: KeywordList, firstHalf: bool)
    requires Convert(words, c, section, firstHalf).ok
    ensures Index(words, SkipBlank(c.text)).Found?
  {
  }

  /** A constraint in order has come upon such a line exactly if it ended early, on that line. */
  lemma {:induction false} LoneConverted(words: seq<Word>, c: Cursor, section: KeywordList, firstHalf: bool)
    requires Ahead(c, section, 0).ok
    ensures var v := Convert(words, c, section, firstHalf);
            v.ok ==> Lone(Scan("", c.file), section) == (if v.cutOff then 1 else 0) + Lone(v.next, section)
    decreases Size(c)
  {
    hide Index, Next, Lone;
    if Convert(words, c, section, firstHalf).ok {
      FoundIfOk(words, c, section, firstHalf);
      WordTaken(words, c, section);
      AheadOfRest(words, c, section);
      LoneLoaded(Cursor(Index(words, SkipBlank(c.text)).rest, c.continues, c.file), section);
      var d := CheckContinuation(Cursor(Index(words, SkipBlank(c.text)).rest, c.continues, c.file), section);
      if GoesOn(d, firstHalf) {
        var e := CheckContinuation(Opened(d), section);
        assert Size(e) <= Size(d);
        if e.text == [] {
          StuckFails(words, e, section, d.text[0] == '|' && firstHalf);
        }
        DelimTaken(d, section);
        assert Ahead(Opened(d), section, 0).ok;
        LoneLoaded(Opened(d), section);
        LoneConverted(words, e, section, d.text[0] == '|' && firstHalf);
      }
    }
  }

  lemma {:induction false} AheadOfRest(words: seq<Word>, c: Cursor, section: KeywordList)
    requires Ahead(c, section, 0).ok
    ensures Ahead(Cursor(Index(words, SkipBlank(c.text)).rest, c.continues, c.file), section, 0).ok
  {
    hide Index, Next;
  }

  /** Every conversion that ended early has come upon one such line, and if all are in order each of these lines
      has ended one. */
  lemma {:induction false} LoneStored(words: seq<Word>, s: Scan, section: KeywordList, z: int)
    requires LinesCounted(s, section)
    ensures var c := Store(words, s, section, z);
            c.cutOffs <= Lone(s, section) && (c.ok ==> c.cutOffs == Lone(s, section))
    decreases Left(s)
  {
    hide Next, Convert, FromLine, LinesCounted;
    var r := Next(s, section);
    if r.code == -1 {
      var c := Loaded(r.next.cur, r.next.file);
      var v := Convert(words, c, section, true);
      LinesCountedStep(words, s, section);
      LoadedAhead(r.next.cur, r.next.file, section);
      LoneConverted(words, c, section, true);
      if v.ok {
        LoneFirst(words, r.next.cur, r.next.file, section);
        LoneStored(words, v.next, section, Align(z) + 2 * |v.list|);
      }
    }
  }

  /** A constraint does not begin with such a line. */
  lemma {:induction false} LoneFirst(words: seq<Word>, t: string, file: string, section: KeywordList)
    requires Convert(words, Loaded(t, file), section, true).ok
    ensures t != "\\"
  {
    if t == "\\" {
      assert Loaded(t, file).text == "";
      StuckFails(words, Loaded(t, file), section, true);
    }
  }

  // ---------------------------------------------------------------- the sections

  /** Those among the constraints of one kind of label, where the counting pass reads them. */
  function LoneAmong(k: Tally, section: KeywordList): nat {
    Lone(PairSection(WordSection(k, false), None).s, section)
  }

  /** How many lines of constraints in the file are a backslash alone. */
  function LoneLines(file: string): nat {
    var k0 := FirstPart(file);
    var k1 := LabelSection(k0, SENSITIVITY_LABELS, None);
    var k2 := LabelSection(k1, CLEARANCES, None);
    LoneAmong(k0, SENSITIVITY_LABELS) + LoneAmong(k1, CLEARANCES) + LoneAmong(k2, CHANNELS)
  }

  /** Conversion so far against counting so far, when `lone` lines of constraints were a backslash alone. */
  ghost predicate WithinCount(c: Tally, k: Tally, lone: nat) {
    && AtMost(c.strings, k.strings, c.cutOffs + k.lost) && c.combos <= k.combos
    && (c.ok ==> k.ok && c.s == k.s && c.words == k.words && c.classes == k.classes && c.cutOffs == lone)
    && c.cutOffs <= lone
  }

  lemma {:induction false} HeadingWithin(c: Tally, k: Tally, lone: nat, kws: KeywordList)
    requires WithinCount(c, k, lone) && Heading(k, kws).ok
    ensures WithinCount(Heading(c, kws), Heading(k, kws), lone) && k.ok
  {
    hide Next;
  }

  lemma {:induction false} WordsWithin(c: Tally, k: Tally, lone: nat, outputOnly: bool)
    requires WithinCount(c, k, lone) && WordSection(k, outputOnly).ok
    ensures WithinCount(WordSection(c, outputOnly), WordSection(k, outputOnly), lone) && k.ok
  {
    hide Next, WordList;
    HeadingWithin(c, k, lone, WORDS);
    var a, b := Heading(c, WORDS), Heading(k, WORDS);
    WordsParallel(b.s, if a.ok then a.strings else b.strings, b.strings, outputOnly, a.cutOffs + b.lost);
  }

  lemma {:induction false} PairsWithin(c: Tally, k: Tally, lone: nat, words: seq<Word>)
    requires WithinCount(c, k, lone) && PairSection(k, None).ok
    ensures WithinCount(PairSection(c, Some(words)), PairSection(k, None), lone) && k.ok
  {
    hide Next, PairList;
    HeadingWithin(c, k, lone, REQUIRED_COMBINATIONS);
    PairsParallel(Heading(k, REQUIRED_COMBINATIONS).s, words);
  }

  lemma {:induction false} SectionWasCounted(k: Tally, section: KeywordList)
    requires k.ok && ConstraintSection(k, section, None).ok
    ensures LinesCounted(k.s, section)
  {
    hide Next;
    ReserveSame(k.s, section, 0, k.strings);
  }

  lemma {:induction false} ConstraintsWithin(c: Tally, k: Tally, lone: nat, section: KeywordList, words: seq<Word>)
    requires WithinCount(c, k, lone)
    requires ConstraintSection(k, section, None).ok
    ensures WithinCount(ConstraintSection(c, section, Some(words)), ConstraintSection(k, section, None),
                        lone + Lone(k.s, section)) && k.ok
  {
    hide Next, Reserve, Store, Lone;
    ReserveGrows(k.s, section, k.strings);
    if c.ok {
      StoreFromStart(words, k.s, section, c.strings, k.strings, c.cutOffs + k.lost);
      SectionWasCounted(k, section);
      LoneStored(words, k.s, section, c.strings);
    }
  }

  lemma {:induction false} LabelsWithin(c: Tally, k: Tally, lone: nat, section: KeywordList, words: seq<Word>)
    requires WithinCount(c, k, lone)
    requires LabelSection(k, section, None).ok
    ensures WithinCount(LabelSection(c, section, Some(words)), LabelSection(k, section, None),
                        lone + LoneAmong(k, section)) && k.ok
  {
    hide Next, WordSection, PairSection, ConstraintSection;
    var k1 := WordSection(k, false);
    var k2 := PairSection(k1, None);
    var c1 := WordSection(c, false);
    SectionsPassOn(k2, section, None);
    SectionsPassOn(k1, section, None);
    SectionsPassOn(k, section, None);
    WordsWithin(c, k, lone, false);
    PairsWithin(c1, k1, lone, words);
    ConstraintsWithin(PairSection(c1, Some(words)), k2, lone, section, words);
  }

  /** An error is never forgotten. */
  lemma {:induction false} SectionsPassOn(k: Tally, section: KeywordList, table: Option<seq<Word>>)
    ensures WordSection(k, false).ok ==> k.ok
    ensures PairSection(k, table).ok ==> k.ok
    ensures ConstraintSection(k, section, table).ok ==> k.ok
  {
    hide Next, WordList, PairList, Reserve;
  }

  lemma {:induction false} RangesWithin(c: Tally, k: Tally, lone: nat)
    requires WithinCount(c, k, lone) && RangeSection(k).ok
    ensures var c', k' := RangeSection(c), RangeSection(k);
            && k.ok && k'.lost == k.lost && c'.cutOffs == c.cutOffs
               && AtMost(c'.strings, k'.strings, c.cutOffs + k.lost)
            && c'.combos <= k'.combos
               && (c'.ok ==> c.ok && c'.s == k'.s && c'.words == k'.words && c'.classes == k'.classes)
  {
    hide Next, RangeList;
    var k1 := Heading(k, ACCREDITATION_RANGE);
    HeadingWithin(c, k, lone, ACCREDITATION_RANGE);
    var c1 := Heading(c, ACCREDITATION_RANGE);
    var k2 := Heading(k1.(strings := Align(k1.strings)), CLASSIFICATION);
    var z := if c1.ok then Align(c1.strings) else k2.strings;
    RangesParallel(k2.s, z, k2.strings, c.cutOffs + k.lost);
  }

  /** The last section takes no space. */
  lemma {:induction false} LastSectionTakesNothing(t: Tally)
    ensures var r := LastSection(t);
            && r.strings == t.strings && r.combos == t.combos && r.cutOffs == t.cutOffs && r.lost == t.lost
            && r.words == t.words && r.classes == t.classes && (r.ok ==> t.ok)
  {
    hide Next;
  }

  // ---------------------------------------------------------------- the whole file

  lemma {:induction false} ClassListClean(c: Classes)
    requires NoLoneBackslash(c.s.file)
    ensures NoLoneBackslash(ClassList(c).s.file)
    decreases Left(c.s)
  {
    hide Next, NoLoneBackslash;
    NextClean(c.s, CLASS_KEYWORDS);
    var r := Next(c.s, CLASS_KEYWORDS);
    if c.ok && r.code >= 0 {
      ClassListClean(ClassStep(c, r));
    }
  }

  lemma {:induction false} FirstPartWithin(file: string)
    ensures WithinCount(FirstPart(file), FirstPart(file), 0)
  {
    hide Next, ClassList;
  }

  lemma {:induction false} OutputWithin(c: Tally, k: Tally, lone: nat)
    requires WithinCount(c, k, lone) && OutputPart(k).ok
    ensures WithinCount(OutputPart(c), OutputPart(k), lone) && k.ok
  {
    hide Next, WordList;
    assert Heading(WordSection(k, true), PRINTER_BANNERS).ok;
    WordsWithin(c, k, lone, true);
    HeadingWithin(WordSection(c, true), WordSection(k, true), lone, PRINTER_BANNERS);
    WordsWithin(Heading(WordSection(c, true), PRINTER_BANNERS), Heading(WordSection(k, true), PRINTER_BANNERS), lone,
                true);
  }

  lemma {:induction false} PartsPassOn(k: Tally, section: KeywordList, table: Option<seq<Word>>)
    ensures RangeSection(k).ok ==> k.ok
    ensures OutputPart(k).ok ==> k.ok
    ensures LabelSection(k, section, table).ok ==> k.ok
  {
    hide Next, WordList, RangeList, PairSection, ConstraintSection;
    SectionsPassOn(k, section, table);
    SectionsPassOn(WordSection(k, false), section, table);
    SectionsPassOn(PairSection(WordSection(k, false), table), section, table);
  }

  /** A pass that went well went well in every part. */
  lemma {:induction false} WellThroughout(file: string, tables: Tables)
    requires Pass(file, tables).ok
    ensures var t0 := FirstPart(file);
            var t1 := LabelSection(t0, SENSITIVITY_LABELS, tables.il);
            var t2 := LabelSection(t1, CLEARANCES, tables.sl);
            var t3 := LabelSection(t2, CHANNELS, tables.cl);
            var t4 := OutputPart(t3);
            t0.ok && t1.ok && t2.ok && t3.ok && t4.ok && RangeSection(t4).ok
  {
    hide Next, LabelSection, OutputPart, RangeSection, LastSection, FirstPart;
    var t0 := FirstPart(file);
    var t1 := LabelSection(t0, SENSITIVITY_LABELS, tables.il);
    var t2 := LabelSection(t1, CLEARANCES, tables.sl);
    var t3 := LabelSection(t2, CHANNELS, tables.cl);
    var t4 := OutputPart(t3);
    LastSectionTakesNothing(RangeSection(t4));
    PartsPassOn(t4, CHANNELS, None);
    PartsPassOn(t3, CHANNELS, None);
    PartsPassOn(t2, CHANNELS, tables.cl);
    PartsPassOn(t1, CLEARANCES, tables.sl);
    PartsPassOn(t0, SENSITIVITY_LABELS, tables.il);
  }

  /** Whatever the word tables hold, the conversion of a file that has been counted, up to its end or to an
      error, takes no more bytes of combinations than were counted, and of strings no more than were counted,
      two for every line of a constraint that is a backslash alone and two for every word lost in counting.
      Each of those lines has ended a constraint early if the conversion ends well. */
  lemma {:induction false} ConversionFits(file: string, il: seq<Word>, sl: seq<Word>, cl: seq<Word>)
    ensures var k, c := Pass(file, COUNTING), Pass(file, Tables(Some(il), Some(sl), Some(cl)));
            k.ok ==>
              && c.combos <= k.combos && c.strings <= k.strings + 2 * (c.cutOffs + k.lost)
              && (c.ok ==> c.words == k.words && c.classes == k.classes && c.cutOffs == LoneLines(file))
              && c.cutOffs <= LoneLines(file)
              && (NoLoneBackslash(file) ==> c.cutOffs == LoneLines(file) == 0)
  {
    hide Next, LabelSection, OutputPart, RangeSection, LastSection, FirstPart, NoLoneBackslash, LoneAmong;
    if Pass(file, COUNTING).ok {
      var k0 := FirstPart(file);
      var k1, c1 := LabelSection(k0, SENSITIVITY_LABELS, None), LabelSection(k0, SENSITIVITY_LABELS, Some(il));
      var k2, c2 := LabelSection(k1, CLEARANCES, None), LabelSection(c1, CLEARANCES, Some(sl));
      var k3, c3 := LabelSection(k2, CHANNELS, None), LabelSection(c2, CHANNELS, Some(cl));
      var k4, c4 := OutputPart(k3), OutputPart(c3);
      var l1 := LoneAmong(k0, SENSITIVITY_LABELS);
      var l2 := l1 + LoneAmong(k1, CLEARANCES);
      WellThroughout(file, COUNTING);
      LastSectionTakesNothing(RangeSection(k4));
      LastSectionTakesNothing(RangeSection(c4));
      FirstPartWithin(file);
      LabelsWithin(k0, k0, 0, SENSITIVITY_LABELS, il);
      LabelsWithin(c1, k1, l1, CLEARANCES, sl);
      LabelsWithin(c2, k2, l2, CHANNELS, cl);
      OutputWithin(c3, k3, LoneLines(file));
      RangesWithin(c4, k4, LoneLines(file));
      CleanFile(file);
    }
  }

  // ---------------------------------------------------------------- files without such lines

  lemma {:induction false} FirstPartClean(file: string)
    requires NoLoneBackslash(file)
    ensures NoLoneBackslash(FirstPart(file).s.file)
  {
    hide Next, ClassList, NoLoneBackslash;
    var v := VersionSection(Start(file));
    NextClean(Start(file).s, VERSION);
    var h := Heading(v, CLASSIFICATIONS);
    NextClean(v.s, CLASSIFICATIONS);
    if h.ok {
      ClassListClean(Classes(true, h.s, h.strings, 0, 0));
    }
    NextClean(ClassSection(v).s, INFORMATION_LABELS);
  }

  lemma {:induction false} LinesClean(t: string, file: string, section: KeywordList)
    requires NoLoneBackslash(file)
    ensures NoLoneBackslash(FromLine(t, file, section).file)
    decreases |file|
  {
    hide Next, NoLoneBackslash;
    if Constraints.Continues(t) {
      NextClean(Scan("", file), section);
      var r := Next(Scan("", file), section);
      if r.code == -1 {
        LinesClean(r.next.cur, r.next.file, section);
      }
    }
  }

  lemma {:induction false} ReserveClean(s: Scan, section: KeywordList, z: int)
    requires NoLoneBackslash(s.file)
    ensures NoLoneBackslash(Reserve(s, section, z).s.file)
    decreases Left(s)
  {
    hide Next, FromLine, NoLoneBackslash;
    NextClean(s, section);
    var r := Next(s, section);
    if r.code == -1 {
      var l := FromLine(r.next.cur, r.next.file, section);
      LinesClean(r.next.cur, r.next.file, section);
      if l.ok {
        ReserveClean(Scan("", l.file), section, Align(z) + 2 * WrapShort(1 + l.n));
      }
    }
  }

  lemma {:induction false} NoneLone(s: Scan, section: KeywordList)
    requires NoLoneBackslash(s.file)
    ensures Lone(s, section) == 0
    decreases Left(s)
  {
    hide Next, NoLoneBackslash;
    NextKeepsNoLone(s, section);
    var r := Next(s, section);
    if r.code == -1 {
      NoneLone(Scan("", r.next.file), section);
    }
  }

  /** Nor do the sections bring any. */
  lemma {:induction false} LabelsClean(k: Tally, section: KeywordList)
    requires NoLoneBackslash(k.s.file)
    ensures NoLoneBackslash(LabelSection(k, section, None).s.file) && LoneAmong(k, section) == 0
  {
    hide NoLoneBackslash, WordSection, PairSection, ConstraintSection;
    WordsClean(k);
    PairsClean(WordSection(k, false));
    ConstraintsClean(PairSection(WordSection(k, false), None), section);
    NoneLone(PairSection(WordSection(k, false), None).s, section);
  }

  lemma {:induction false} WordsClean(k: Tally)
    requires NoLoneBackslash(k.s.file)
    ensures NoLoneBackslash(WordSection(k, false).s.file)
  {
    hide Next, WordList, NoLoneBackslash;
    NextClean(k.s, WORDS);
    var h := Heading(k, WORDS);
    WordsParallel(h.s, h.strings, h.strings, false, 0);
  }

  lemma {:induction false} PairsClean(k: Tally)
    requires NoLoneBackslash(k.s.file)
    ensures NoLoneBackslash(PairSection(k, None).s.file)
  {
    hide Next, PairList, NoLoneBackslash;
    NextClean(k.s, REQUIRED_COMBINATIONS);
    CountedPairsClean(Heading(k, REQUIRED_COMBINATIONS).s);
  }

  lemma {:induction false} CountedPairsClean(s: Scan)
    requires NoLoneBackslash(s.file)
    ensures NoLoneBackslash(PairList(s, None).s.file)
    decreases Left(s)
  {
    hide Next, NoLoneBackslash;
    NextClean(s, COMBINATION_CONSTRAINTS);
    var r := Next(s, COMBINATION_CONSTRAINTS);
    if r.code == -1 {
      CountedPairsClean(Scan("", r.next.file));
    }
  }

  lemma {:induction false} ConstraintsClean(k: Tally, section: KeywordList)
    requires NoLoneBackslash(k.s.file)
    ensures NoLoneBackslash(ConstraintSection(k, section, None).s.file)
  {
    hide Next, Reserve, NoLoneBackslash;
    ReserveClean(k.s, section, k.strings);
  }

  /** A file without a line that is a backslash alone has none among its constraints. */
  lemma {:induction false} CleanFile(file: string)
    ensures NoLoneBackslash(file) ==> LoneLines(file) == 0
  {
    hide NoLoneBackslash, FirstPart, LabelSection, LoneAmong;
    if NoLoneBackslash(file) {
      var k0 := FirstPart(file);
      var k1 := LabelSection(k0, SENSITIVITY_LABELS, None);
      FirstPartClean(file);
      LabelsClean(k0, SENSITIVITY_LABELS);
      LabelsClean(k1, CLEARANCES);
      LabelsClean(LabelSection(k1, CLEARANCES, None), CHANNELS);
    }
  }
}
