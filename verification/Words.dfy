/** The word tables of labelcomp.c: how long a label made of their words can become. */
module Words {
  import opened Options

  /** What a word table entry says of prefixes (or of suffixes): nothing, that the word is one, or which
      entry it requires. */
  datatype Affix = NoAffix | IsAffix | Needs(entry: nat)

  datatype Word = Word(outputName: string, shortName: Option<string>, prefix: Affix, suffix: Affix)

  /** A word refers only to entries in front of it, as the parser of the tables sees to. */
  predicate Grounded(words: seq<Word>) {
    forall i | 0 <= i < |words| ::
      (words[i].prefix.Needs? ==> words[i].prefix.entry < i) && (words[i].suffix.Needs? ==> words[i].suffix.entry < i)
  }

  /** An entry that is itself neither a prefix nor a suffix. */
  predicate IsMain(w: Word) {
    !w.prefix.IsAffix? && !w.suffix.IsAffix?
  }

  // ---------------------------------------------------------------- compute_max_length

  predicate Fits(a: Affix, words: seq<Word>) {
    a.Needs? ==> a.entry < |words|
  }

  /** The length of a required affix and the blank beside it. */
  function AffixLength(words: seq<Word>, a: Affix): nat
    requires Fits(a, words)
  {
    if a.Needs? then |words[a.entry].outputName| + 1 else 0
  }

  /** What word `i` adds to a label after a word with prefix `p` and suffix `s`: the pending suffix when it
      does not share it, its prefix when the word before did not, and itself, each with a blank. */
  function StepLength(words: seq<Word>, i: nat, p: Affix, s: Affix): nat
    requires Grounded(words) && i < |words| && Fits(s, words)
  {
    var w := words[i];
    (if s != w.suffix then AffixLength(words, s) else 0) + (if p != w.prefix then AffixLength(words, w.prefix) else 0)
    + |w.outputName| + 1
  }

  /** The length of the marked entries from `i` on, in order, after a word with prefix `p` and suffix `s`. */
  function GroupedLength(words: seq<Word>, marks: seq<bool>, i: nat, p: Affix, s: Affix): nat
    requires Grounded(words) && |marks| == |words| && Fits(s, words)
    decreases |words| - i
  {
    if i >= |words| then AffixLength(words, s)
    else if marks[i]
      then StepLength(words, i, p, s) + GroupedLength(words, marks, i + 1, words[i].prefix, words[i].suffix)
    else GroupedLength(words, marks, i + 1, p, s)
  }

  function Mains(words: seq<Word>): (marks: seq<bool>)
    ensures |marks| == |words| && forall i | 0 <= i < |words| :: marks[i] == IsMain(words[i])
  {
    seq(|words|, i requires 0 <= i < |words| => IsMain(words[i]))
  }

  /** The longest label: its classification, every main word, and the NUL. */
  function FullLength(words: seq<Word>, maxClass: nat): nat
    requires Grounded(words)
  {
    maxClass + 1 + GroupedLength(words, Mains(words), 0, NoAffix, NoAffix)
  }

  /** What a 16-bit variable keeps of a number. */
  function WrapShort(x: int): (r: int)
    ensures -0x8000 <= r <= 0x7fff
    ensures -0x8000 <= x <= 0x7fff ==> r == x
  {
    (x + 0x8000) % 0x1_0000 - 0x8000
  }

  lemma {:induction false} WrapShortAdd(x: int, y: int)
    ensures WrapShort(WrapShort(x) + y) == WrapShort(x + y)
  {
    var k := (x + 0x8000) / 0x1_0000;
    assert WrapShort(x) + k * 0x1_0000 == x;
    assert (WrapShort(x) + y + 0x8000) % 0x1_0000 == (WrapShort(x) + y + 0x8000 + k * 0x1_0000) % 0x1_0000;
  }

  /** `exact` has been counted and the entries from `i` on are still to come. */
  ghost predicate Counted(words: seq<Word>, maxClass: nat, i: nat, p: Affix, s: Affix, exact: nat)
    requires Grounded(words) && Fits(s, words)
  {
    exact + GroupedLength(words, Mains(words), i, p, s) == FullLength(words, maxClass)
  }

  lemma {:induction false} CountedStep(words: seq<Word>, maxClass: nat, i: nat, p: Affix, s: Affix, exact: nat)
    requires Grounded(words) && Fits(s, words) && i < |words| && Counted(words, maxClass, i, p, s, exact)
    ensures IsMain(words[i])
            ==> Counted(words, maxClass, i + 1, words[i].prefix, words[i].suffix, exact + StepLength(words, i, p, s))
    ensures !IsMain(words[i]) ==> Counted(words, maxClass, i + 1, p, s, exact)
  {
  }

  lemma {:induction false} CountedStart(words: seq<Word>, maxClass: nat, firstMain: nat)
    requires Grounded(words) && firstMain <= |words| && forall i | 0 <= i < firstMain :: !IsMain(words[i])
    ensures Counted(words, maxClass, firstMain, NoAffix, NoAffix, maxClass + 1)
  {
    NoneMarked(words, Mains(words), 0, firstMain, NoAffix, NoAffix);
  }

  lemma {:induction false} CountedEnd(words: seq<Word>, maxClass: nat, p: Affix, s: Affix, exact: nat)
    requires Grounded(words) && Fits(s, words) && Counted(words, maxClass, |words|, p, s, exact)
    ensures FullLength(words, maxClass) == exact + AffixLength(words, s)
  {
  }

  /** `compute_max_length`.  The sum is kept in a 16-bit variable. */
  method ComputeMaxLength(words: seq<Word>, firstMain: nat, maxClass: nat) returns (maxLength: int)
    requires Grounded(words) && firstMain <= |words|
    requires forall i | 0 <= i < firstMain :: !IsMain(words[i])
    ensures maxLength == WrapShort(FullLength(words, maxClass))
  {
    hide Counted, FullLength, StepLength, WrapShort;
    var prefix, suffix := NoAffix, NoAffix;
    CountedStart(words, maxClass, firstMain);
    maxLength := WrapShort(maxClass + 1);
    ghost var exact: nat := maxClass + 1;
    var i := firstMain;
    while i < |words|
      invariant firstMain <= i <= |words| && Fits(suffix, words) && maxLength == WrapShort(exact)
      invariant Counted(words, maxClass, i, prefix, suffix, exact)
    {
      CountedStep(words, maxClass, i, prefix, suffix, exact);
      if !words[i].prefix.IsAffix? && !words[i].suffix.IsAffix? {
        WrapShortAdd(exact, StepLength(words, i, prefix, suffix));
        exact := exact + StepLength(words, i, prefix, suffix);
        maxLength, prefix, suffix := AddWord(words, i, maxLength, prefix, suffix);
      }
      i := i + 1;
    }
    CountedEnd(words, maxClass, prefix, suffix, exact);
    if suffix.Needs? {
      WrapShortAdd(exact, AffixLength(words, suffix));
      maxLength := WrapShort(maxLength + |words[suffix.entry].outputName| + 1);
    }
  }

  /** The body of the loop for a main word. */
  method AddWord(words: seq<Word>, i: nat, length: int, prefix: Affix, suffix: Affix)
    returns (length': int, prefix': Affix, suffix': Affix)
    requires Grounded(words) && i < |words| && Fits(suffix, words)
    ensures length' == WrapShort(length + StepLength(words, i, prefix, suffix))
    ensures prefix' == words[i].prefix && suffix' == words[i].suffix
  {
    hide WrapShort;
    var w := words[i];
    length' := length;
    if suffix.Needs? && suffix != w.suffix {
      length' := WrapShort(length' + |words[suffix.entry].outputName| + 1);
    }
    suffix' := w.suffix;
    if w.prefix.Needs? && prefix != w.prefix {
      length' := WrapShort(length' + |words[w.prefix.entry].outputName| + 1);
    }
    prefix' := w.prefix;
    length' := WrapShort(length' + |w.outputName| + 1);
    WrapShortAddTwo(length, if suffix != w.suffix then AffixLength(words, suffix) else 0,
                    if prefix != w.prefix then AffixLength(words, w.prefix) else 0, |w.outputName| + 1);
  }

  /** Wrapping on the way makes no difference. */
  lemma {:induction false} WrapShortAddTwo(x: int, a: int, b: int, c: int)
    ensures WrapShort(x + (a + b + c)) == WrapShort(WrapShort(WrapShort(x + a) + b) + c)
    ensures WrapShort(x + (a + b + c)) == WrapShort(WrapShort(x + a + b) + c)
  {
    hide WrapShort;
    WrapShortAdd(x + a, b);
    WrapShortAdd(x + a + b, c);
  }

  /** Starting at the first main entry loses nothing. */
  lemma {:induction false} NoneMarked(words: seq<Word>, marks: seq<bool>, i: nat, first: nat, p: Affix, s: Affix)
    requires Grounded(words) && |marks| == |words| && Fits(s, words)
    requires i <= first <= |words| && forall k | i <= k < first :: !marks[k]
    ensures GroupedLength(words, marks, i, p, s) == GroupedLength(words, marks, first, p, s)
    decreases first - i
  {
    if i < first {
      NoneMarked(words, marks, i + 1, first, p, s);
    }
  }

  // ---------------------------------------------------------------- the bound

  /** Leaving out word `x` shortens the label: its neighbours' prefixes and suffixes cannot cost more for
      being next to each other. */
  lemma {:induction false} LeavingOutOne(words: seq<Word>, marks: seq<bool>, i: nat, x: nat, p: Affix, s: Affix)
    requires Grounded(words) && |marks| == |words| && Fits(s, words) && x < |words|
    ensures GroupedLength(words, marks, i, p, s)
            <= StepLength(words, x, p, s) + GroupedLength(words, marks, i, words[x].prefix, words[x].suffix)
    decreases |words| - i
  {
    if i < |words| && !marks[i] {
      LeavingOutOne(words, marks, i + 1, x, p, s);
    }
  }

  /** From `i` on, only entries marked in `all` are marked. */
  predicate WithinFrom(marks: seq<bool>, all: seq<bool>, i: nat) {
    |marks| == |all| && forall k | i <= k < |marks| :: marks[k] ==> all[k]
  }

  predicate Within(marks: seq<bool>, all: seq<bool>) {
    WithinFrom(marks, all, 0)
  }

  lemma {:induction false} FewerIsShorter(words: seq<Word>, marks: seq<bool>, all: seq<bool>, i: nat, p: Affix,
                                          s: Affix)
    requires Grounded(words) && |all| == |words| && WithinFrom(marks, all, i) && Fits(s, words)
    ensures GroupedLength(words, marks, i, p, s) <= GroupedLength(words, all, i, p, s)
    decreases |words| - i
  {
    if i < |words| {
      if marks[i] {
        FewerIsShorter(words, marks, all, i + 1, words[i].prefix, words[i].suffix);
      } else {
        FewerIsShorter(words, marks, all, i + 1, p, s);
        if all[i] {
          LeavingOutOne(words, all, i + 1, i, p, s);
        }
      }
    }
  }

  /** The stored maximum bounds the length of every choice of main words, grouped by the same rule, exactly
      when the full length fits in the 16-bit variable that holds it. */
  lemma {:induction false} MaxLengthBoundsIff(words: seq<Word>, maxClass: nat)
    requires Grounded(words)
    ensures (forall marks | Within(marks, Mains(words)) ::
               maxClass + 1 + GroupedLength(words, marks, 0, NoAffix, NoAffix)
                 <= WrapShort(FullLength(words, maxClass)))
            <==> FullLength(words, maxClass) <= 0x7fff
  {
    forall marks | Within(marks, Mains(words))
      ensures maxClass + 1 + GroupedLength(words, marks, 0, NoAffix, NoAffix) <= FullLength(words, maxClass)
    {
      FewerIsShorter(words, marks, Mains(words), 0, NoAffix, NoAffix);
    }
    assert Within(Mains(words), Mains(words));
  }

  // ---------------------------------------------------------------- the labels really made

  function NameOf(w: Word, short: bool): string {
    if short && w.shortName.Some? then w.shortName.value else w.outputName
  }

  /** The suffix that is still to be written. */
  function SuffixText(words: seq<Word>, s: Affix, short: bool): string
    requires Fits(s, words)
  {
    if s.Needs? then " " + NameOf(words[s.entry], short) else ""
  }

  /** Word `i` continues a group: it shares the suffix of the word before it, or the prefix last written. */
  predicate Continues(w: Word, p: Affix, s: Affix) {
    (s.Needs? && s == w.suffix) || (p.Needs? && p == w.prefix)
  }

  /** What the label printer of std_labels.c writes for word `i`; `p` is the prefix last written. */
  function StepText(words: seq<Word>, i: nat, p: Affix, s: Affix, short: bool): string
    requires Grounded(words) && i < |words| && Fits(s, words)
  {
    var w := words[i];
    (if Continues(w, p, s) then "/"
     else SuffixText(words, s, short) +
          (if w.prefix.Needs? then " " + NameOf(words[w.prefix.entry], short) + " " else " "))
    + NameOf(w, short)
  }

  function PrefixAfter(w: Word, p: Affix, s: Affix): Affix {
    if Continues(w, p, s) then p else if w.prefix.Needs? then w.prefix else NoAffix
  }

  /** The marked words from `i` on, as they are written. */
  function LabelText(words: seq<Word>, marks: seq<bool>, i: nat, p: Affix, s: Affix, short: bool): string
    requires Grounded(words) && |marks| == |words| && Fits(s, words)
    decreases |words| - i
  {
    if i >= |words| then SuffixText(words, s, short)
    else if marks[i] then
      StepText(words, i, p, s, short)
        + LabelText(words, marks, i + 1, PrefixAfter(words[i], p, s), words[i].suffix, short)
    else LabelText(words, marks, i + 1, p, s, short)
  }

  /** `l_convert`, once its parse table is filled in. */
  method ConvertLabel(className: string, words: seq<Word>, parseTable: seq<bool>, firstMain: nat, short: bool)
    returns (out: string)
    requires Grounded(words) && |parseTable| == |words| && firstMain <= |words|
    ensures out == className + LabelText(words, parseTable, firstMain, NoAffix, NoAffix, short)
  {
    out := className;
    var prefix, suffix := NoAffix, NoAffix;
    var i := firstMain;
    while i < |words|
      invariant firstMain <= i <= |words| && Fits(suffix, words)
      invariant out + LabelText(words, parseTable, i, prefix, suffix, short)
             == className + LabelText(words, parseTable, firstMain, NoAffix, NoAffix, short)
    {
      if parseTable[i] {
        ghost var before := out;
        ghost var step := StepText(words, i, prefix, suffix, short);
        ghost var rest := LabelText(words, parseTable, i + 1, PrefixAfter(words[i], prefix, suffix), words[i].suffix,
                                    short);
        out, prefix, suffix := WriteWord(out, words, i, prefix, suffix, short);
        assert before + (step + rest) == (before + step) + rest;
      }
      i := i + 1;
    }
    if suffix.Needs? {
      out := out + (" " + NameOf(words[suffix.entry], short));
    }
  }

  /** The body of the loop for a word to be written. */
  method WriteWord(out: string, words: seq<Word>, i: nat, prefix: Affix, suffix: Affix, short: bool)
    returns (out': string, prefix': Affix, suffix': Affix)
    requires Grounded(words) && i < |words| && Fits(suffix, words)
    ensures out' == out + StepText(words, i, prefix, suffix, short)
    ensures prefix' == PrefixAfter(words[i], prefix, suffix) && suffix' == words[i].suffix
  {
    var w := words[i];
    prefix' := prefix;
    var text := "";
    if (suffix.Needs? && suffix == w.suffix) || (prefix.Needs? && prefix == w.prefix) {
      text := "/";
    } else {
      if suffix.Needs? {
        text := " " + NameOf(words[suffix.entry], short);
      }
      prefix' := NoAffix;
      if w.prefix.Needs? {
        prefix' := w.prefix;
        text := text + (" " + NameOf(words[w.prefix.entry], short) + " ");
      } else {
        text := text + " ";
      }
    }
    suffix' := w.suffix;
    out' := out + (text + NameOf(w, short));
  }

  /** No short name is longer than the name it stands for. */
  predicate ShortNamesFit(words: seq<Word>) {
    forall i | 0 <= i < |words| :: words[i].shortName.Some? ==> |words[i].shortName.value| <= |words[i].outputName|
  }

  /** What the count has paid for the prefix of the current word and the printer has not yet written. */
  function Unwritten(words: seq<Word>, p: Affix, counted: Affix): nat
    requires Fits(counted, words)
  {
    if p != counted then AffixLength(words, counted) else 0
  }

  /** The printer stays within the count although it follows prefixes differently: in a group that shares
      a suffix it keeps the prefix it wrote before, and what it then writes late was counted early. */
  lemma {:induction false} TextWithinCount(words: seq<Word>, marks: seq<bool>, i: nat, p: Affix, counted: Affix,
                                           s: Affix, short: bool)
    requires Grounded(words) && WithinFrom(marks, Mains(words), i) && Fits(s, words) && Fits(counted, words)
    requires short ==> ShortNamesFit(words)
    ensures |LabelText(words, marks, i, p, s, short)|
            <= GroupedLength(words, marks, i, counted, s) + Unwritten(words, p, counted)
    decreases |words| - i
  {
    if i < |words| {
      if marks[i] {
        TextWithinCount(words, marks, i + 1, PrefixAfter(words[i], p, s), words[i].prefix, words[i].suffix, short);
        StepWithinCount(words, i, p, counted, s, short);
      } else {
        TextWithinCount(words, marks, i + 1, p, counted, s, short);
      }
    }
  }

  lemma {:induction false} StepWithinCount(words: seq<Word>, i: nat, p: Affix, counted: Affix, s: Affix, short: bool)
    requires Grounded(words) && i < |words| && Fits(s, words) && Fits(counted, words) && IsMain(words[i])
    requires short ==> ShortNamesFit(words)
    ensures |StepText(words, i, p, s, short)| + Unwritten(words, PrefixAfter(words[i], p, s), words[i].prefix)
            <= StepLength(words, i, counted, s) + Unwritten(words, p, counted)
  {
  }

  /** A label whose marked entries are main words does not outgrow the stored maximum, the NUL included, if the
      full length fits in its variable and, where short names are asked for, none is longer than the full
      one. */
  lemma {:induction false} LabelsFit(words: seq<Word>, marks: seq<bool>, first: nat, className: string, maxClass: nat,
                                     short: bool)
    requires Grounded(words) && |marks| == |words| && first <= |words| && |className| <= maxClass
    requires forall i | 0 <= i < first :: !IsMain(words[i])
    requires forall i | first <= i < |words| :: marks[i] ==> IsMain(words[i])
    requires FullLength(words, maxClass) <= 0x7fff && (short ==> ShortNamesFit(words))
    ensures |className + LabelText(words, marks, first, NoAffix, NoAffix, short)| + 1
            <= WrapShort(FullLength(words, maxClass))
  {
    TextWithinCount(words, marks, first, NoAffix, NoAffix, NoAffix, short);
    FewerIsShorter(words, marks, Mains(words), first, NoAffix, NoAffix);
    NoneMarked(words, Mains(words), 0, first, NoAffix, NoAffix);
  }

  /** So every parse table makes a label that fits, if the prefixes and suffixes all stand in front of the first
      main word. */
  lemma {:induction false} EveryLabelFits(words: seq<Word>, first: nat, className: string, maxClass: nat, short: bool)
    requires Grounded(words) && first <= |words| && |className| <= maxClass
    requires forall i | 0 <= i < |words| :: IsMain(words[i]) <==> first <= i
    requires FullLength(words, maxClass) <= 0x7fff && (short ==> ShortNamesFit(words))
    ensures forall marks: seq<bool> | |marks| == |words| ::
              |className + LabelText(words, marks, first, NoAffix, NoAffix, short)| + 1
                <= WrapShort(FullLength(words, maxClass))
  {
    forall marks: seq<bool> | |marks| == |words|
      ensures |className + LabelText(words, marks, first, NoAffix, NoAffix, short)| + 1
              <= WrapShort(FullLength(words, maxClass))
    {
      LabelsFit(words, marks, first, className, maxClass, short);
    }
  }

  /** A prefix behind a main word can have bits of its own and be marked by them: it is written, but the count
      has left it out. */
  lemma {:induction false} MarkedPrefixOverflows()
    ensures var words := [Word("A", None, NoAffix, NoAffix), Word("P", None, IsAffix, NoAffix)];
            && Grounded(words) && FullLength(words, 1) == 4
            && |"U" + LabelText(words, [true, true], 0, NoAffix, NoAffix, false)| + 1 == 6
  {
    var words := [Word("A", None, NoAffix, NoAffix), Word("P", None, IsAffix, NoAffix)];
    assert Mains(words) == [true, false];
    assert GroupedLength(words, [true, false], 1, NoAffix, NoAffix) == 0;
    assert LabelText(words, [true, true], 2, NoAffix, NoAffix, false) == "";
    assert |LabelText(words, [true, true], 1, NoAffix, NoAffix, false)| == 2;
  }

  /** With a short name longer than its word, a label in short names can outgrow the maximum. */
  lemma {:induction false} LongShortNameOverflows()
    ensures var words := [Word("A", Some("LONG"), NoAffix, NoAffix)];
            && Grounded(words) && FullLength(words, 0) == 3
            && |"" + LabelText(words, [true], 0, NoAffix, NoAffix, true)| + 1 == 6
  {
    var words := [Word("A", Some("LONG"), NoAffix, NoAffix)];
    assert Mains(words) == [true];
  }
}
