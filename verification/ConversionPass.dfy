/** The conversion pass of labelcomp.c, as it runs. */
module ConversionPass {
  import opened Options
  import opened Words
  import opened WordIndex
  import opened Scanner
  import opened Constraints
  import opened Sizing
  import opened CountingPass
  import opened ExactSizing

  // ---------------------------------------------------------------- the table a section of words amounts to

  /** The first entry from `j` on that goes by a name. */
  function Named(table: seq<Word>, name: string, j: nat): (k: nat)
    requires j <= |table|
    ensures j <= k <= |table|
    ensures k < |table| ==> IsName(table, k, name)
    decreases |table| - j
  {
    if j == |table| || IsName(table, j, name) then j else Named(table, name, j + 1)
  }

  /** A required affix must be an entry in front; otherwise nothing changes (and an error is reported). */
  function Required(table: seq<Word>, name: string, otherwise: Affix): Affix {
    var k := Named(table, name, 0);
    if k < |table| then Needs(k) else otherwise
  }

  /** What a keyword makes of the word behind a table. */
  function WithAttribute(table: seq<Word>, w: Word, r: Token): Word {
    match r.code
    case 0 => w.(shortName := Some(r.data))
    case 6 => w.(prefix := Required(table, r.data, w.prefix))
    case 7 => w.(suffix := Required(table, r.data, w.suffix))
    case 8 => w.(prefix := IsAffix)
    case 9 => w.(suffix := IsAffix)
    case _ => w
  }

  function WithAttributes(s: Scan, table: seq<Word>, w: Word): Word
    decreases Left(s)
  {
    var r := Next(s, LABEL_KEYWORDS);
    if r.code < 0 then w else WithAttributes(r.next, table, WithAttribute(table, w, r))
  }

  /** Behind a word's name it is said which bits it has, or that it is a prefix or a suffix. */
  predicate BitsGiven(s: Scan)
    decreases Left(s)
  {
    var r := Next(s, LABEL_KEYWORDS);
    r.code >= 0 && (GivesBits(r.code) || BitsGiven(r.next))
  }

  predicate GivesBits(code: int) {
    code == 4 || code == 5 || code == 8 || code == 9
  }

  /** The table, continued by the words from a place on. */
  function TableFrom(s: Scan, table: seq<Word>): seq<Word>
    decreases Left(s)
  {
    var r := Next(s, NAME);
    if r.code != 0 then table
    else TableFrom(Attributes(r.next, 0).s,
                   table + [WithAttributes(r.next, table, Word(r.data, None, NoAffix, NoAffix))])
  }

  /** The table of the section of words that comes next. */
  function TableAt(t: Tally): seq<Word> {
    TableFrom(Heading(t, WORDS).s, [])
  }

  /** The tables that a file is compiled to: information labels, sensitivity labels, clearances, channels and
      printer banners. */
  function Compiled(file: string): (ts: seq<seq<Word>>)
    ensures |ts| == 5
  {
    var k0 := FirstPart(file);
    var k1 := LabelSection(k0, SENSITIVITY_LABELS, Some(TableAt(k0)));
    var k2 := LabelSection(k1, CLEARANCES, Some(TableAt(k1)));
    var k3 := LabelSection(k2, CHANNELS, Some(TableAt(k2)));
    [TableAt(k0), TableAt(k1), TableAt(k2), TableAt(k3), TableAt(Heading(WordSection(k3, true), PRINTER_BANNERS))]
  }

  /** The pass that converts with these tables. */
  function Converted(file: string): Tables {
    var ts := Compiled(file);
    Tables(Some(ts[0]), Some(ts[1]), Some(ts[2]))
  }

  /** An affix that refers only to entries of a table. */
  predicate WordFits(table: seq<Word>, w: Word) {
    Fits(w.prefix, table) && Fits(w.suffix, table)
  }

  lemma {:induction false} AttributesFit(s: Scan, table: seq<Word>, w: Word)
    requires WordFits(table, w)
    ensures WordFits(table, WithAttributes(s, table, w))
    decreases Left(s)
  {
    hide Next;
    var r := Next(s, LABEL_KEYWORDS);
    if r.code >= 0 {
      AttributesFit(r.next, table, WithAttribute(table, w, r));
    }
  }

  /** Every word refers only to entries in front of it, and there are as many as were counted. */
  lemma {:induction false} TableGrounded(s: Scan, table: seq<Word>, z: int, outputOnly: bool)
    requires Grounded(table)
    ensures Grounded(TableFrom(s, table)) && |TableFrom(s, table)| == |table| + WordList(s, z, outputOnly).n
    decreases Left(s)
  {
    hide Next, Attributes, WithAttributes;
    var r := Next(s, NAME);
    if r.code == 0 {
      var none := Word(r.data, None, NoAffix, NoAffix);
      AttributesFit(r.next, table, none);
      var y := NameStored(r.data, z, outputOnly);
      AttributesSame(r.next, 0, y);
      TableGrounded(Attributes(r.next, 0).s, table + [WithAttributes(r.next, table, none)],
                    Attributes(r.next, y).strings, outputOnly);
    }
  }

  /** `first` is the first entry that is neither a prefix nor a suffix; 0 in an empty table. */
  predicate FirstMain(table: seq<Word>, first: nat) {
    if table == [] then first == 0
    else first < |table| && IsMain(table[first]) && forall k | 0 <= k < first :: !IsMain(table[k])
  }

  // ---------------------------------------------------------------- the pass

  class Converter {
    var scan: Scan
    /** Offsets into the space for strings and for tables. */
    var strings: int
    var tables: int
    /** Where the tables of combinations begin. */
    const fixedTables: int
    /** The end of what has been written behind `strings`. */
    ghost var high: int
    ghost var tally: Tally

    /** The globals hold what the pass so far amounts to, or no more than that after an error. */
    ghost predicate Valid()
      reads this
    {
      && strings <= tally.strings && high <= tally.strings && tables <= fixedTables + tally.combos
      && (tally.ok ==> scan == tally.s && strings == tally.strings && tables == fixedTables + tally.combos)
    }

    /** The fixed tables and strings have been allocated. */
    constructor (file: string, numClassifications: nat, counts: seq<int>)
      requires |counts| == 5
      ensures Valid() && tally == Start(file) && scan.file == file
      ensures fixedTables == FIXED_SIZE + CLASS_SIZE * numClassifications
                             + WORD_SIZE * (counts[0] + counts[1] + counts[2] + counts[3] + counts[4])
    {
      scan := Scan("", file);
      fixedTables := FIXED_SIZE + CLASS_SIZE * numClassifications
                     + WORD_SIZE * (counts[0] + counts[1] + counts[2] + counts[3] + counts[4]);
      tables := fixedTables;
      strings := 6 * COMPARTMENTS_SIZE + 4 * MARKINGS_SIZE;
      high := strings;
      tally := Start(file);
    }

    method ExpectHeading(kws: KeywordList) returns (ok: bool)
      requires Valid() && tally.ok
      modifies this
      ensures Valid() && tally == Heading(old(tally), kws) && ok == tally.ok
    {
      hide Next;
      var r := NextKeyword(scan, kws);
      scan, ok := r.next, r.code >= 0;
      tally := Heading(tally, kws);
    }

    /** A string copied with its NUL. */
    method CopyString(s: string)
      modifies this`strings
      ensures strings == old(strings) + |s| + 1
    {
      strings := strings + |s| + 1;
    }

    method ConvertVersion() returns (ok: bool)
      requires Valid() && tally.ok
      modifies this
      ensures Valid() && tally == VersionSection(old(tally)) && ok == tally.ok
    {
      hide Next;
      var r := NextKeyword(scan, VERSION);
      ok := r.code >= 0;
      if ok {
        scan := r.next;
        CopyString(r.data);
      }
      tally := VersionSection(tally);
    }

    /** One keyword of a classification. */
    method ConvertClass(ghost d: Classes, r: Token) returns (ok: bool)
      requires r.code >= 0 && d.strings == strings
      modifies this`scan, this`strings
      ensures ok ==> strings == ClassStep(d, r).strings && scan == r.next
      ensures !ok ==> strings == old(strings)
    {
      ok := true;
      if r.code == 1 {
        strings := strings + strings % 2;
        strings := strings + COMPARTMENTS_SIZE;
        strings := strings + MARKINGS_SIZE;
        CopyString(r.data);
      } else if r.code == 2 {
        CopyString(r.data);
      } else if r.code > 2 {
        if * {
          return false;
        }
      }
      scan := r.next;
    }

    /** The classifications.  Their values were checked by the counting pass; a bit specification may turn
        out to be in error. */
    method ConvertClassList(ghost c: Classes) returns (ok: bool)
      requires c.ok && c.s == scan && c.strings == strings && ClassList(c).ok
      modifies this`scan, this`strings
      ensures strings <= ClassList(c).strings
      ensures ok ==> scan == ClassList(c).s && strings == ClassList(c).strings
    {
      hide Next, ClassStep;
      ghost var d := c;
      var named, short, value := false, false, -1;
      var r := NextKeyword(scan, CLASS_KEYWORDS);
      while r.code >= 0
        invariant r == Next(scan, CLASS_KEYWORDS)
        invariant d.ok && d.s == scan && d.strings == strings && ClassList(c) == ClassList(d)
        decreases Left(scan)
      {
        ClassListGrows(d);
        ClassStepReads(d, r);
        if !named && r.code != 1 {
          return false;
        }
        if r.code == 1 && named && (!short || value == -1) {
          return false;
        }
        ok := ConvertClass(d, r);
        if !ok {
          return;
        }
        named := true;
        short := r.code == 2 || (r.code != 1 && short);
        value := if r.code == 0 then ToDecimal(r.data, 0).value else if r.code == 1 then -1 else value;
        d := ClassStep(d, r);
        r := NextKeyword(scan, CLASS_KEYWORDS);
      }
      scan := r.next;
      ok := true;
    }

    method ConvertClasses() returns (ok: bool)
      requires Valid() && tally.ok && ClassSection(tally).ok
      modifies this
      ensures Valid()
      ensures tally == (if ok then ClassSection(old(tally)) else ClassSection(old(tally)).(ok := false))
    {
      hide Next, ClassList;
      ok := ExpectHeading(CLASSIFICATIONS);
      ClassListGrows(Classes(true, scan, strings, 0, 0));
      ok := ConvertClassList(Classes(true, scan, strings, 0, 0));
      tally := ClassSection(old(tally));
      if !ok {
        tally := tally.(ok := false);
      }
    }

    /** A word's name, and the bit strings behind it. */
    method ConvertName(name: string, outputOnly: bool)
      modifies this`strings
      ensures strings == NameStored(name, old(strings), outputOnly)
    {
      CopyString(name);
      if !outputOnly && '/' in name {
        CopyString(name);
      }
      strings := strings + strings % 2;
      strings := strings + COMPARTMENTS_SIZE;
      strings := strings + COMPARTMENTS_SIZE;
      strings := strings + MARKINGS_SIZE;
      strings := strings + MARKINGS_SIZE;
    }

    /** The search for a required prefix or suffix. */
    method FindAffix(table: seq<Word>, name: string, otherwise: Affix) returns (found: bool, a: Affix)
      ensures found <==> exists k :: 0 <= k < |table| && IsName(table, k, name)
      ensures found ==> a == Required(table, name, otherwise)
    {
      var j := 0;
      while j < |table| && !(table[j].outputName == name || table[j].shortName == Some(name))
        invariant 0 <= j <= |table| && Named(table, name, 0) == Named(table, name, j)
        invariant forall k | 0 <= k < j :: !IsName(table, k, name)
      {
        j := j + 1;
      }
      assert j < |table| ==> IsName(table, j, name);
      return j < |table|, Needs(j);
    }

    /** One keyword behind a word's name.  A classification that is not known, a bit specification in error
        or a keyword that does not apply is an error, too. */
    method ConvertAttribute(table: seq<Word>, w: Word, wellFormed: bool, r: Token)
      returns (ok: bool, w': Word, wellFormed': bool)
      requires r.code >= 0
      modifies this`scan, this`strings
      ensures ok ==> w' == WithAttribute(table, w, r) && scan == r.next
      ensures ok ==> strings == (if r.code == 0 then old(strings) + |r.data| + 1 else old(strings))
      ensures !ok ==> strings == old(strings)
      ensures ok ==> (wellFormed' <==> wellFormed || GivesBits(r.code))
      ensures r.code == 0 ==> (ok <==> w.shortName == None)
      ensures r.code == 6 || r.code == 7 ==>
                (ok <==> && (if r.code == 6 then w.prefix else w.suffix) == NoAffix
                         && exists k :: 0 <= k < |table| && IsName(table, k, r.data))
      ensures r.code == 8 || r.code == 9 ==> (ok <==> (if r.code == 8 then w.prefix else w.suffix) == NoAffix)
    {
      ok, w', wellFormed' := true, w, wellFormed;
      if r.code == 0 {
        if w.shortName.Some? {
          return false, w, wellFormed;
        }
        w' := w.(shortName := Some(r.data));
        CopyString(r.data);
      } else if r.code == 6 || r.code == 7 {
        var other := if r.code == 6 then w.prefix else w.suffix;
        if other != NoAffix {
          return false, w, wellFormed;
        }
        var a;
        ok, a := FindAffix(table, r.data, other);
        w' := if r.code == 6 then w.(prefix := a) else w.(suffix := a);
      } else if r.code == 8 || r.code == 9 {
        wellFormed' := true;
        if (if r.code == 8 then w.prefix else w.suffix) != NoAffix {
          return false, w, wellFormed';
        }
        w' := if r.code == 8 then w.(prefix := IsAffix) else w.(suffix := IsAffix);
      } else {
        if r.code == 4 || r.code == 5 {
          wellFormed' := true;
        }
        if * {
          return false, w, wellFormed';
        }
      }
      scan := r.next;
    }

    /** The keywords behind a word's name. */
    method ConvertAttributes(table: seq<Word>, w: Word) returns (ok: bool, w': Word)
      modifies this`scan, this`strings
      ensures strings <= Attributes(old(scan), old(strings)).strings
      ensures ok ==> w' == WithAttributes(old(scan), table, w) && BitsGiven(old(scan))
      ensures ok ==> var e := Attributes(old(scan), old(strings)); scan == e.s && strings == e.strings
    {
      hide Next, WithAttribute;
      var wellFormed := false;
      ok, w' := true, w;
      var r := NextKeyword(scan, LABEL_KEYWORDS);
      while r.code >= 0
        invariant r == Next(scan, LABEL_KEYWORDS)
        invariant Attributes(old(scan), old(strings)) == Attributes(scan, strings)
        invariant WithAttributes(old(scan), table, w) == WithAttributes(scan, table, w')
        invariant BitsGiven(old(scan)) <==> wellFormed || BitsGiven(scan)
        decreases Left(scan)
      {
        AttributesParallel(scan, strings, strings, 0);
        ok, w', wellFormed := ConvertAttribute(table, w', wellFormed, r);
        if !ok {
          return;
        }
        r := NextKeyword(scan, LABEL_KEYWORDS);
      }
      scan := r.next;
      ok := wellFormed;
    }

    /** The loop of `do_words`: the words of a section, and the first that is neither a prefix nor a suffix. */
    method ConvertWordList(outputOnly: bool) returns (ok: bool, table: seq<Word>, first: int)
      modifies this`scan, this`strings
      ensures strings <= WordList(old(scan), old(strings), outputOnly).strings
      ensures ok ==> table == TableFrom(old(scan), []) && FirstSoFar(table, first)
      ensures ok ==> var e := WordList(old(scan), old(strings), outputOnly); scan == e.s && strings == e.strings
    {
      hide Next, Attributes, NameStored, WithAttributes;
      ok, table, first := true, [], -1;
      var r := NextKeyword(scan, NAME);
      while r.code == 0
        invariant r == Next(scan, NAME) && FirstSoFar(table, first)
        invariant TableFrom(old(scan), []) == TableFrom(scan, table)
        invariant var e, f := WordList(old(scan), old(strings), outputOnly), WordList(scan, strings, outputOnly);
                  e.s == f.s && e.strings == f.strings
        decreases Left(scan)
      {
        if |table| > 0 && first == -1 && !table[|table| - 1].prefix.IsAffix? && !table[|table| - 1].suffix.IsAffix? {
          first := |table| - 1;
        }
        var w;
        ok, w := ConvertWord(table, r, outputOnly);
        if !ok {
          return;
        }
        table := table + [w];
        r := NextKeyword(scan, NAME);
      }
      scan := r.next;
    }

    /** One word: its name and the keywords behind it. */
    method ConvertWord(table: seq<Word>, r: Token, outputOnly: bool) returns (ok: bool, w: Word)
      requires r == Next(scan, NAME) && r.code == 0
      modifies this`scan, this`strings
      ensures var a := Attributes(r.next, NameStored(r.data, old(strings), outputOnly));
              && (ok ==> scan == a.s && scan == Attributes(r.next, 0).s && strings == a.strings)
              && strings <= WordList(a.s, a.strings, outputOnly).strings
      ensures ok ==> w == WithAttributes(r.next, table, Word(r.data, None, NoAffix, NoAffix)) && BitsGiven(r.next)
    {
      hide Next, Attributes, WithAttributes;
      ghost var y := NameStored(r.data, strings, outputOnly);
      ghost var a := Attributes(r.next, y);
      AttributesSame(r.next, 0, y);
      WordsParallel(a.s, a.strings, a.strings, outputOnly, 0);
      ConvertName(r.data, outputOnly);
      scan := r.next;
      ok, w := ConvertAttributes(table, Word(r.data, None, NoAffix, NoAffix));
    }

    /** `do_words`. */
    method ConvertWords(outputOnly: bool) returns (ok: bool, table: seq<Word>, first: nat)
      requires Valid() && tally.ok
      modifies this
      ensures Valid() && tally.ok == ok && (ok ==> WordSection(old(tally), outputOnly).ok)
      ensures tally == WordSection(old(tally), outputOnly).(ok := ok)
      ensures ok ==> Grounded(table) && FirstMain(table, first) && table == TableAt(old(tally))
      ensures ok ==> tally.words == old(tally.words) + [|table|]
    {
      hide Next, WordList, TableFrom;
      table, first := [], 0;
      ok := ExpectHeading(WORDS);
      if !ok {
        return;
      }
      TableGrounded(scan, [], strings, outputOnly);
      WordsParallel(scan, strings, strings, outputOnly, 0);
      var main: int;
      ok, table, main := ConvertWordList(outputOnly);
      if ok {
        ok, first := TakeFirst(table, main);
      }
      tally := WordSection(old(tally), outputOnly).(ok := ok);
    }

    /** The end of `do_words`: the last word may be the first main one; without any there is an error. */
    static method TakeFirst(table: seq<Word>, main: int) returns (ok: bool, first: nat)
      requires FirstSoFar(table, main)
      ensures ok ==> FirstMain(table, first)
      ensures ok <==> table == [] || exists k :: 0 <= k < |table| && IsMain(table[k])
    {
      ok, first := true, 0;
      if table != [] {
        if main == -1 {
          var last := table[|table| - 1];
          if !last.prefix.IsAffix? && !last.suffix.IsAffix? {
            first := |table| - 1;
          } else {
            ok := false;
          }
        } else {
          first := main;
        }
      }
    }

    /** `do_combinations`, up to the keyword that ends the required combinations. */
    method ConvertPairs(table: seq<Word>) returns (ok: bool)
      requires Valid() && tally.ok
      modifies this
      ensures Valid() && tally == PairSection(old(tally), Some(table)) && ok == tally.ok
    {
      hide Next, PairList;
      ok := ExpectHeading(REQUIRED_COMBINATIONS);
      if !ok {
        return;
      }
      ghost var n: nat;
      ok, n := ConvertPairList(table);
      tally := PairSection(old(tally), Some(table));
    }

    /** The loop over the required combinations, and their end mark. */
    method ConvertPairList(table: seq<Word>) returns (ok: bool, ghost n: nat)
      modifies this`scan, this`tables
      ensures var p := PairList(old(scan), Some(table));
              && ok == (p.ok && p.code == 0) && n == p.n && (ok ==> scan == p.s)
              && tables == old(tables) + PAIR_SIZE * p.n + (if p.ok then PAIR_SIZE else 0)
    {
      hide Next, Index;
      n := 0;
      var r := NextKeyword(scan, COMBINATION_CONSTRAINTS);
      while r.code == -1
        invariant r == Next(scan, COMBINATION_CONSTRAINTS) && tables == old(tables) + PAIR_SIZE * n
        invariant var p := PairList(scan, Some(table)); PairList(old(scan), Some(table)) == p.(n := n + p.n)
        decreases Left(scan)
      {
        var first := LookUp(table, r.next.cur);
        if first.NotFound? {
          return false, n;
        }
        var second := LookUp(table, first.rest);
        if second.NotFound? || second.rest != [] {
          return false, n;
        }
        tables, n := tables + PAIR_SIZE, n + 1;
        scan := Scan("", r.next.file);
        r := NextKeyword(scan, COMBINATION_CONSTRAINTS);
      }
      scan := r.next;
      tables := tables + PAIR_SIZE;
      ok := r.code == 0;
    }

    /** The loop over the constraints.  Each is written into the slot at `tables`, which does not move. */
    method ConvertConstraintList(section: KeywordList, table: seq<Word>) returns (ok: bool)
      requires LinesCounted(scan, section) && high <= strings
      modifies this`scan, this`strings, this`high
      ensures var c := Store(table, old(scan), section, old(strings));
              ok == c.ok && strings <= c.strings && high <= c.strings && (ok ==> scan == c.s && strings == c.strings)
    {
      hide Next, Convert, FromLine, LinesCounted;
      ok := true;
      var r := NextKeyword(scan, section);
      while r.code == -1
        invariant r == Next(scan, section) && LinesCounted(scan, section) && high <= strings
        invariant var c, d := Store(table, old(scan), section, old(strings)), Store(table, scan, section, strings);
                  c.ok == d.ok && c.s == d.s && c.strings == d.strings
        decreases Left(scan)
      {
        LinesCountedStep(table, scan, section);
        var v := ConvertConstraint(table, r.next, section);
        StoreStep(table, scan, section, strings);
        strings := strings + strings % 2;
        high := strings + 2 * |v.list|;
        if !v.ok {
          return false;
        }
        strings := strings + 2 * |v.list|;
        scan := v.next;
        r := NextKeyword(scan, section);
      }
      scan := r.next;
    }

    /** `do_combinations`, the constraints: where their table begins, and its end mark.  They coincide. */
    method ConvertConstraints(section: KeywordList, table: seq<Word>) returns (ok: bool, constraints: int, endMark: int)
      requires Valid() && tally.ok && LinesCounted(scan, section)
      modifies this
      ensures Valid() && tally == ConstraintSection(old(tally), section, Some(table)) && ok == tally.ok
      ensures ok ==> constraints == endMark == old(tables)
    {
      hide Next, Store, LinesCounted;
      constraints, endMark := tables, tables;
      ok := ConvertConstraintList(section, table);
      if ok {
        endMark := tables;
        tables := tables + CONSTRAINT_SIZE;
      }
      tally := ConstraintSection(old(tally), section, Some(table));
    }

    /** The sensitivity labels listed for one classification; one that cannot be parsed is an error. */
    method ConvertLabels() returns (ok: bool, code: int)
      modifies this`scan, this`strings
      ensures var l := LabelList(old(scan), old(strings));
              strings <= l.strings && (ok ==> code == l.code && scan == l.s && strings == l.strings)
    {
      hide Next;
      ok := true;
      var r := NextKeyword(scan, MIN_CLEARANCE);
      while r.code == -1
        invariant r == Next(scan, MIN_CLEARANCE)
        invariant LabelList(scan, strings) == LabelList(old(scan), old(strings))
        decreases Left(scan)
      {
        LabelsParallel(scan, strings, strings, 0);
        if * {
          return false, -1;
        }
        strings := strings + COMPARTMENTS_SIZE;
        scan := Scan("", r.next.file);
        r := NextKeyword(scan, MIN_CLEARANCE);
      }
      scan, code := r.next, r.code;
    }

    method ConvertRangeList() returns (ok: bool)
      modifies this`scan, this`strings
      ensures var r := RangeList(old(scan), old(strings));
              strings <= r.strings && (ok ==> r == Ranges(true, scan, strings))
    {
      hide Next, LabelList;
      while true
        invariant RangeList(scan, strings) == RangeList(old(scan), old(strings))
        decreases Left(scan)
      {
        RangesParallel(scan, strings, strings, 0);
        if * {
          return false;
        }
        var r := NextKeyword(scan, AR_TYPES);
        scan := r.next;
        if r.code < 0 {
          return false;
        }
        ghost var l := LabelList(scan, strings);
        if l.code > 0 {
          RangesParallel(l.s, l.strings, l.strings, 0);
        }
        var code;
        ok, code := ConvertLabels();
        if !ok || code == -2 {
          return false;
        }
        if code == 0 {
          return;
        }
      }
    }

    /** The accreditation range. */
    method ConvertRanges() returns (ok: bool)
      requires Valid() && tally.ok
      modifies this
      ensures Valid() && ok == tally.ok && tally == RangeSection(old(tally)).(ok := ok)
      ensures ok ==> RangeSection(old(tally)).ok
    {
      hide Next, RangeList;
      ok := ExpectHeading(ACCREDITATION_RANGE);
      if ok {
        strings := strings + strings % 2;
        tally := tally.(strings := Align(tally.strings));
        ok := ExpectHeading(CLASSIFICATION);
      }
      if ok {
        RangesParallel(scan, strings, strings, 0);
        ghost var k := RangeSection(old(tally));
        ok := ConvertRangeList();
        tally := k.(ok := ok);
      }
    }

    /** The last two headings, what stands behind them, and the end of the file. */
    method ConvertLast() returns (ok: bool)
      requires Valid() && tally.ok
      modifies this
      ensures Valid() && ok == tally.ok && tally.strings == old(tally.strings) && tally.combos == old(tally.combos)
      ensures tally.cutOffs == old(tally.cutOffs) && tally.words == old(tally.words)
      ensures ok ==> tally == LastSection(old(tally))
    {
      hide Next;
      if * {
        ok := false;
      } else {
        ok := ExpectHeading(MIN_SENSITIVITY_LABEL);
      }
      if ok {
        if * {
          ok := false;
        } else {
          ok := ExpectHeading(MIN_PROTECT_AS);
        }
      }
      if ok {
        if * {
          ok := false;
        } else {
          ok := scan.file == [];
        }
      }
      tally := tally.(ok := ok);
    }

    /** The file up to the information labels. */
    method ConvertFirst() returns (ok: bool)
      requires Valid() && tally == Start(scan.file) && FirstPart(scan.file).ok
      modifies this
      ensures Valid() && ok == tally.ok && WithinCount(tally, FirstPart(old(scan.file)), 0)
      ensures ok ==> tally == FirstPart(old(scan.file))
    {
      hide Next, ClassSection;
      FirstPartWithin(scan.file);
      ghost var c := ClassSection(VersionSection(tally));
      if !c.ok {
        FailedStays(c, INFORMATION_LABELS, None, false);
      }
      if !VersionSection(tally).ok {
        FailedStays(VersionSection(tally), INFORMATION_LABELS, None, false);
      }
      ok := ConvertVersion();
      ok := ConvertClasses();
      if ok {
        ok := ExpectHeading(INFORMATION_LABELS);
      }
    }

    /** The words and the combinations of one kind of label. */
    method ConvertLabelSection(section: KeywordList, ghost k: Tally, ghost lone: nat)
      returns (ok: bool, table: seq<Word>, first: nat)
      requires Valid() && tally.ok && WithinCount(tally, k, lone)
      requires LabelSection(k, section, None).ok
      modifies this
      ensures Valid() && ok == tally.ok
      ensures WithinCount(tally, LabelSection(k, section, None), lone + LoneAmong(k, section))
      ensures ok ==> Grounded(table) && FirstMain(table, first) && table == TableAt(old(tally))
      ensures ok ==> tally == LabelSection(old(tally), section, Some(table))
    {
      hide Next, WordSection, PairSection, ConstraintSection, LinesCounted, TableAt;
      ghost var k1 := WordSection(k, false);
      ghost var k2 := PairSection(k1, None);
      SectionsPassOn(k2, section, None);
      SectionsPassOn(k1, section, None);
      WordsWithin(tally, k, lone, false);
      ok, table, first := ConvertWords(false);
      PairsWithin(tally, k1, lone, table);
      if ok {
        ok := ConvertPairs(table);
      } else {
        FailedStays(tally, section, Some(table), false);
      }
      ConstraintsWithin(tally, k2, lone, section, table);
      if ok {
        SectionWasCounted(k2, section);
        var first, end;
        ok, first, end := ConvertConstraints(section, table);
      } else {
        FailedStays(tally, section, Some(table), false);
      }
    }

    /** The channels and the printer banners. */
    method ConvertOutput(ghost k: Tally, ghost lone: nat)
      returns (ok: bool, channels: seq<Word>, firstChannel: nat, banners: seq<Word>, firstBanner: nat)
      requires Valid() && tally.ok && WithinCount(tally, k, lone) && OutputPart(k).ok
      modifies this
      ensures Valid() && ok == tally.ok && WithinCount(tally, OutputPart(k), lone)
      ensures ok ==> Grounded(channels) && FirstMain(channels, firstChannel)
      ensures ok ==> Grounded(banners) && FirstMain(banners, firstBanner)
      ensures ok ==> channels == TableAt(old(tally))
      ensures ok ==> banners == TableAt(Heading(WordSection(old(tally), true), PRINTER_BANNERS))
      ensures ok ==> tally == OutputPart(old(tally))
    {
      hide Next, WordSection, TableAt;
      channels, firstChannel, banners, firstBanner := [], 0, [], 0;
      ghost var k1 := WordSection(k, true);
      ghost var k2 := Heading(k1, PRINTER_BANNERS);
      SectionsPassOn(k, CHANNELS, None);
      OutputPassesOn(k2);
      WordsWithin(tally, k, lone, true);
      ok, channels, firstChannel := ConvertWords(true);
      HeadingWithin(tally, k1, lone, PRINTER_BANNERS);
      if ok {
        ok := ExpectHeading(PRINTER_BANNERS);
      }
      WordsWithin(tally, k2, lone, true);
      if ok {
        ok, banners, firstBanner := ConvertWords(true);
      } else {
        FailedStays(tally, PRINTER_BANNERS, None, true);
      }
    }

    /** The pass up to the accreditation range: the five tables of words. */
    method ConvertTables() returns (ok: bool, tables: seq<ProperTable>)
      requires Valid() && tally == Start(scan.file)
      requires Pass(scan.file, COUNTING).ok
      modifies this
      ensures Valid() && ok == tally.ok
      ensures WithinCount(tally, WordTables(old(scan.file), COUNTING), LoneLines(old(scan.file)))
      ensures ok ==> |tables| == 5
      ensures ok ==> forall i | 0 <= i < 5 :: tables[i].words == Compiled(old(scan.file))[i]
      ensures ok ==> tally == WordTables(old(scan.file), Converted(old(scan.file)))
    {
      hide Next, FirstPart, LabelSection, OutputPart, LoneAmong, TableAt, Heading, WordSection;
      ghost var k0 := FirstPart(scan.file);
      ghost var k1 := LabelSection(k0, SENSITIVITY_LABELS, None);
      ghost var k2 := LabelSection(k1, CLEARANCES, None);
      ghost var k3 := LabelSection(k2, CHANNELS, None);
      ghost var l1 := LoneAmong(k0, SENSITIVITY_LABELS);
      ghost var l2 := l1 + LoneAmong(k1, CLEARANCES);
      ghost var l3 := LoneLines(scan.file);
      WellThroughout(scan.file, COUNTING);
      tables := [];
      ok := ConvertFirst();
      var il, sl, cl, ch, pb: seq<Word> := [], [], [], [], [];
      var f1, f2, f3, f4, f5: nat := 0, 0, 0, 0, 0;
      LabelsWithin(tally, k0, 0, SENSITIVITY_LABELS, il);
      if ok {
        ok, il, f1 := ConvertLabelSection(SENSITIVITY_LABELS, k0, 0);
      } else {
        FailedStays(tally, SENSITIVITY_LABELS, Some(il), false);
      }
      LabelsWithin(tally, k1, l1, CLEARANCES, sl);
      if ok {
        ok, sl, f2 := ConvertLabelSection(CLEARANCES, k1, l1);
      } else {
        FailedStays(tally, CLEARANCES, Some(sl), false);
      }
      LabelsWithin(tally, k2, l2, CHANNELS, cl);
      if ok {
        ok, cl, f3 := ConvertLabelSection(CHANNELS, k2, l2);
      } else {
        FailedStays(tally, CHANNELS, Some(cl), false);
      }
      OutputWithin(tally, k3, l3);
      if ok {
        ok, ch, f4, pb, f5 := ConvertOutput(k3, l3);
      } else {
        FailedStays(tally, CHANNELS, None, true);
      }
      if ok {
        tables := [LabelTable(il, f1), LabelTable(sl, f2), LabelTable(cl, f3), LabelTable(ch, f4), LabelTable(pb, f5)];
      }
    }

    /** The whole pass. */
    method ConvertFile(maxClassificationLength: nat) returns (ok: bool, tables: seq<ProperTable>, lengths: seq<int>)
      requires Valid() && tally == Start(scan.file)
      requires Pass(scan.file, COUNTING).ok
      modifies this
      ensures Valid() && ok == tally.ok
      ensures var k := Pass(old(scan.file), COUNTING);
              && tally.strings <= k.strings + 2 * (tally.cutOffs + k.lost) && tally.combos <= k.combos
              && tally.cutOffs <= LoneLines(old(scan.file))
      ensures ok ==> |tables| == |lengths| == 5
      ensures ok ==> forall i | 0 <= i < 5 ::
              lengths[i] == WrapShort(FullLength(tables[i].words, maxClassificationLength))
      ensures ok ==> forall i | 0 <= i < 5 :: tables[i].words == Compiled(old(scan.file))[i]
      ensures ok ==> tally == Pass(old(scan.file), Converted(old(scan.file)))
    {
      hide Next, FirstPart, LabelSection, OutputPart, RangeSection, LastSection, WordTables, LoneLines, Proper,
           Compiled, Converted;
      ghost var k := WordTables(scan.file, COUNTING);
      LastSectionTakesNothing(RangeSection(k));
      ghost var lone := LoneLines(scan.file);
      ok, tables := ConvertTables();
      RangesWithin(tally, k, lone);
      lengths := [];
      if ok {
        lengths := MaxLengths(tables, maxClassificationLength);
        ok := ConvertRanges();
      } else {
        FailedStays(tally, CHANNELS, None, false);
      }
      if ok {
        ok := ConvertLast();
      }
    }
  }

  /** While words are read: the first main word among all but the last, or -1. */
  predicate FirstSoFar(table: seq<Word>, first: int) {
    if first == -1 then forall k | 0 <= k < |table| - 1 :: !IsMain(table[k])
    else 0 <= first < |table| && FirstMain(table, first)
  }

  lemma {:induction false} StoreStep(words: seq<Word>, s: Scan, section: KeywordList, z: int)
    requires Next(s, section).code == -1
    ensures var t := Next(s, section).next;
            var v := Convert(words, Loaded(t.cur, t.file), section, true);
            var c, y := Store(words, s, section, z), Align(z) + 2 * |v.list|;
            && (v.ok ==> var d := Store(words, v.next, section, y);
                         c.ok == d.ok && c.s == d.s && c.strings == d.strings)
            && (!v.ok ==> !c.ok && c.strings == y)
            && Left(v.next) < Left(s)
  {
    hide Next, Convert;
  }

  lemma {:induction false} OutputPassesOn(k: Tally)
    ensures WordSection(k, true).ok ==> k.ok
  {
    hide Next, WordList;
  }

  /** A table of words and the first that is neither a prefix nor a suffix. */
  datatype LabelTable = LabelTable(words: seq<Word>, firstMain: nat)

  predicate Proper(t: LabelTable) {
    Grounded(t.words) && FirstMain(t.words, t.firstMain)
  }

  /** One in which every word refers only to entries in front of it. */
  type ProperTable = t: LabelTable | Proper(t) witness LabelTable([], 0)

  /** `compute_max_length` for every table. */
  method MaxLengths(tables: seq<ProperTable>, maxClassificationLength: nat) returns (lengths: seq<int>)
    ensures |lengths| == |tables|
    ensures forall i | 0 <= i < |tables| ::
            lengths[i] == WrapShort(FullLength(tables[i].words, maxClassificationLength))
  {
    lengths := [];
    while |lengths| < |tables|
      invariant |lengths| <= |tables|
      invariant forall i | 0 <= i < |lengths| ::
                lengths[i] == WrapShort(FullLength(tables[i].words, maxClassificationLength))
    {
      var t := tables[|lengths|];
      var length := ComputeMaxLength(t.words, t.firstMain, maxClassificationLength);
      lengths := lengths + [length];
    }
  }

  /** The counts of words that a 16-bit variable can hold. */
  predicate AllShort(ns: seq<nat>) {
    forall i | 0 <= i < |ns| :: ns[i] <= 0x7fff
  }

  /** The space set aside by the first pass, and how much of it the second has used when it stops. */
  datatype Space = Space(sizeStrings: int, sizeTables: int, strings: int, tables: int)

  /** `l_parse_encodings`: both passes.  Whether the conversion ends well or in an error, it has stayed within
      the space for tables, and in that for strings it has taken no more than the `Excess` beyond; where it ends
      well and no name holds a delimiter, exactly that.  `written` is where the last list of words ended, which
      in an error may lie behind the strings.  A table of more words than can be counted is written beyond its
      space: then nothing is promised of the conversion. */
  method ParseEncodings(file: string)
    returns (ok: bool, space: Space, tables: seq<ProperTable>, lengths: seq<int>, ghost written: int)
    ensures ok ==> Pass(file, COUNTING).ok
    ensures var k := Pass(file, COUNTING);
            k.ok ==> space.sizeStrings == k.strings && space.sizeTables == TableBytes(k)
    ensures var k := Pass(file, COUNTING);
            k.ok && AllShort(k.words) ==>
              && space.tables <= space.sizeTables
              && space.strings <= space.sizeStrings + 2 * Excess(file)
              && written <= space.sizeStrings + 2 * Excess(file)
    ensures ok && AllShort(Pass(file, COUNTING).words) ==>
              && Pass(file, Converted(file)).ok && |tables| == |lengths| == 5
              && (NamesDelimFree(file) ==> space.strings == space.sizeStrings + 2 * Excess(file))
    ensures ok && AllShort(Pass(file, COUNTING).words) ==>
              forall i | 0 <= i < 5 ::
                && tables[i].words == Compiled(file)[i]
                && lengths[i] == WrapShort(FullLength(tables[i].words, Pass(file, COUNTING).longest))
  {
    hide Next, Pass, LoneLines, Proper, TableBytes, Compiled, Converted, FullLength;
    var counter := new Counter(file);
    ok := counter.CountFile();
    space, tables, lengths, written := Space(0, 0, 0, 0), [], [], 0;
    if !ok {
      return;
    }
    FiveTables(file);
    var converter := new Converter(file, counter.numClassifications, counter.counts);
    TablesAllocatedIff(counter.tally, converter.fixedTables, counter.counts);
    NamedExactly(file);
    ok, tables, lengths := converter.ConvertFile(counter.maxClassificationLength);
    space := Space(counter.sizeStrings, counter.sizeTables, converter.strings, converter.tables);
    written := converter.high;
  }

  lemma {:induction false} FiveTables(file: string)
    requires Pass(file, COUNTING).ok
    ensures |Pass(file, COUNTING).words| == 5
  {
  }

  /** The three tables whose words occur in constraints have no name with a delimiter. */
  predicate NamesDelimFree(file: string) {
    var ts := Compiled(file);
    DelimFree(ts[0]) && DelimFree(ts[1]) && DelimFree(ts[2])
  }

  /** The words stored that were not counted: one for each line of a constraint that is a backslash alone, and
      those lost in counting. */
  function Excess(file: string): nat {
    LoneLines(file) + Pass(file, COUNTING).lost
  }

  lemma {:induction false} NamedExactly(file: string)
    ensures var k, c := Pass(file, COUNTING), Pass(file, Converted(file));
            NamesDelimFree(file) && k.ok && c.ok ==> c.strings == k.strings + 2 * Excess(file)
  {
    hide Pass, DelimFree, Compiled, LoneLines;
    var ts := Compiled(file);
    if NamesDelimFree(file) {
      ConversionFitsIff(file, ts[0], ts[1], ts[2]);
    }
  }

  lemma {:induction false} SumOfFive(w: seq<nat>)
    requires |w| == 5
    ensures Sum(w) == w[0] + w[1] + w[2] + w[3] + w[4]
  {
    assert w[..4][..3] == w[..3] && w[..3][..2] == w[..2] && w[..2][..1] == w[..1] && w[..1][..0] == [];
    assert Sum(w[..1]) == w[0];
    assert Sum(w[..2]) == w[0] + w[1];
    assert Sum(w[..3]) == w[0] + w[1] + w[2];
    assert Sum(w[..4]) == w[0] + w[1] + w[2] + w[3];
  }

  /** The fixed tables never end behind the place counted for them, and there exactly if every number of words
      fits in 16 bits. */
  lemma {:induction false} TablesAllocatedIff(k: Tally, fixedTables: int, counts: seq<int>)
    requires |k.words| == 5 && counts == Shorts(k.words)
    requires fixedTables == FIXED_SIZE + CLASS_SIZE * k.classes
                            + WORD_SIZE * (counts[0] + counts[1] + counts[2] + counts[3] + counts[4])
    ensures fixedTables + k.combos <= TableBytes(k)
    ensures fixedTables + k.combos == TableBytes(k) <==> AllShort(k.words)
  {
    hide WrapShort, Sum;
    SumOfFive(k.words);
    forall i | 0 <= i < 5 ensures Lost(k.words[i]) == 0 <==> k.words[i] <= 0x7fff {
      NothingLostIff(k.words[i]);
    }
    assert forall i | 0 <= i < 5 :: counts[i] == k.words[i] - Lost(k.words[i]);
  }
}
