/** The counting pass of labelcomp.c, as it runs. */
module CountingPass {
  import opened Options
  import opened Words
  import opened Scanner
  import opened Constraints
  import opened Sizing

  function Sum(ns: seq<nat>): nat {
    if ns == [] then 0 else Sum(ns[..|ns| - 1]) + ns[|ns| - 1]
  }

  /** The counts of words as their 16-bit variables keep them. */
  function Shorts(ns: seq<nat>): (r: seq<int>)
    ensures |r| == |ns|
  {
    seq(|ns|, i requires 0 <= i < |ns| => WrapShort(ns[i]))
  }

  /** The bytes of tables that a pass accounts for. */
  function TableBytes(t: Tally): int {
    FIXED_SIZE + CLASS_SIZE * t.classes + WORD_SIZE * Sum(t.words) + t.combos
  }

  lemma {:induction false} CombosGrow(t: Tally, section: KeywordList)
    ensures t.combos <= LabelSection(t, section, None).combos
  {
    hide Next, WordList, PairList, Reserve;
  }

  lemma {:induction false} CombosStay(t: Tally)
    ensures LastSection(RangeSection(OutputPart(t))).combos == t.combos
  {
    hide Next, WordList, RangeList;
  }

  lemma {:induction false} NoCombosYet(file: string)
    ensures FirstPart(file).combos == 0
  {
    hide Next, ClassList;
  }

  /** There are tables in front of the strings, whatever the file. */
  lemma {:induction false} TablesFirst(file: string)
    ensures TableBytes(Pass(file, COUNTING)) >= FIXED_SIZE
  {
    hide FirstPart, LabelSection, OutputPart, RangeSection, LastSection, Sum;
    var k0 := FirstPart(file);
    var k1 := LabelSection(k0, SENSITIVITY_LABELS, None);
    var k2 := LabelSection(k1, CLEARANCES, None);
    NoCombosYet(file);
    CombosGrow(k0, SENSITIVITY_LABELS);
    CombosGrow(k1, CLEARANCES);
    CombosGrow(k2, CHANNELS);
    CombosStay(LabelSection(k2, CHANNELS, None));
  }

  class Counter {
    var scan: Scan
    var sizeStrings: int
    var sizeTables: int
    var numClassifications: nat
    var maxClassificationLength: nat
    var counts: seq<int>
    ghost var tally: Tally

    /** The globals hold what the pass so far amounts to. */
    ghost predicate Valid()
      reads this
    {
      tally.ok ==>
        && scan == tally.s && sizeStrings == tally.strings && sizeTables == TableBytes(tally)
        && numClassifications == tally.classes && maxClassificationLength == tally.longest
           && counts == Shorts(tally.words)
    }

    constructor (file: string)
      ensures Valid() && tally == Start(file)
    {
      scan := Scan("", file);
      sizeTables := FIXED_SIZE;
      sizeStrings := 6 * COMPARTMENTS_SIZE + 4 * MARKINGS_SIZE;
      numClassifications, maxClassificationLength, counts := 0, 0, [];
      tally := Start(file);
    }

    method ExpectHeading(kws: KeywordList) returns (ok: bool)
      requires Valid() && tally.ok
      modifies this
      ensures Valid() && tally == Heading(old(tally), kws) && ok == tally.ok
    {
      hide Next;
      var r := NextKeyword(scan, kws);
      scan, ok := r.next, r.code >= 0;
      tally := Heading(tally, kws);
    }

    method CountVersion() returns (ok: bool)
      requires Valid() && tally.ok
      modifies this
      ensures Valid() && tally == VersionSection(old(tally)) && ok == tally.ok
    {
      hide Next;
      var r := NextKeyword(scan, VERSION);
      ok := r.code >= 0;
      if ok {
        scan, sizeStrings := r.next, sizeStrings + |r.data| + 1;
      }
      tally := VersionSection(tally);
    }

    /** One keyword of a classification. */
    method CountClass(r: Token, top: nat, longest: nat) returns (ok: bool, top': nat, longest': nat)
      requires r.code >= 0
      modifies this`scan, this`sizeStrings
      ensures var c := ClassStep(Classes(true, old(scan), old(sizeStrings), top, longest), r);
              ok == c.ok && scan == c.s && sizeStrings == c.strings && top' == c.top && longest' == c.longest
    {
      scan, ok, top', longest' := r.next, true, top, longest;
      if r.code == 1 || r.code == 2 {
        if r.code == 1 {
          sizeStrings := sizeStrings + sizeStrings % 2;
          sizeStrings := sizeStrings + COMPARTMENTS_SIZE;
          sizeStrings := sizeStrings + MARKINGS_SIZE;
        }
        longest' := if longest > |r.data| then longest else |r.data|;
        sizeStrings := sizeStrings + |r.data| + 1;
      } else if r.code == 0 {
        var d := ToDecimal(r.data, 0);
        if d.rest != [] {
          ok := false;
        } else if d.value < 0 || d.value > MAX_CLASS {
          ok := false;
        } else {
          top' := if top > d.value then top else d.value;
        }
      }
    }

    method CountClasses() returns (ok: bool)
      requires Valid() && tally.ok && tally.classes == 0
      modifies this
      ensures Valid() && tally == ClassSection(old(tally)) && ok == tally.ok
    {
      hide Next, ClassStep;
      ok := ExpectHeading(CLASSIFICATIONS);
      if !ok {
        return;
      }
      ghost var h := tally;
      ghost var all := ClassList(Classes(true, scan, sizeStrings, 0, 0));
      var top, longest := 0, 0;
      var r := NextKeyword(scan, CLASS_KEYWORDS);
      while r.code >= 0
        invariant r == Next(scan, CLASS_KEYWORDS)
        invariant all == ClassList(Classes(true, scan, sizeStrings, top, longest))
        invariant sizeTables == TableBytes(h) && counts == Shorts(h.words)
        decreases Left(scan)
      {
        ClassStepReads(Classes(true, scan, sizeStrings, top, longest), r);
        ok, top, longest := CountClass(r, top, longest);
        if !ok {
          tally := ClassSection(old(tally));
          return;
        }
        r := NextKeyword(scan, CLASS_KEYWORDS);
      }
      scan := r.next;
      numClassifications := top + 1;
      sizeTables := sizeTables + numClassifications * CLASS_SIZE;
      maxClassificationLength := longest;
      ok := longest != 0;
      tally := ClassSection(old(tally));
    }

    /** The keywords behind a word's name. */
    method CountAttributes()
      modifies this`scan, this`sizeStrings
      ensures var e := Attributes(old(scan), old(sizeStrings)); scan == e.s && sizeStrings == e.strings
    {
      hide Next;
      var r := NextKeyword(scan, LABEL_KEYWORDS);
      while r.code >= 0
        invariant r == Next(scan, LABEL_KEYWORDS)
        invariant Attributes(old(scan), old(sizeStrings)) == Attributes(scan, sizeStrings)
        decreases Left(scan)
      {
        if r.code == 0 {
          sizeStrings := sizeStrings + |r.data| + 1;
        }
        scan := r.next;
        r := NextKeyword(scan, LABEL_KEYWORDS);
      }
      scan := r.next;
    }

    /** The size of a word's name. */
    method CountName(name: string, outputOnly: bool)
      modifies this`sizeStrings
      ensures sizeStrings == NameStored(name, old(sizeStrings), outputOnly)
    {
      var j := |name| + 1;
      sizeStrings := sizeStrings + j;
      if !outputOnly && '/' in name {
        sizeStrings := sizeStrings + j;
      }
      sizeStrings := sizeStrings + sizeStrings % 2;
      sizeStrings := sizeStrings + 2 * COMPARTMENTS_SIZE + 2 * MARKINGS_SIZE;
    }

    /** The loop of `do_words`. */
    method CountWordList(outputOnly: bool) returns (count: int, ghost n: nat)
      modifies this`scan, this`sizeStrings, this`sizeTables
      ensures WordList(old(scan), old(sizeStrings), outputOnly) == Entries(scan, sizeStrings, n)
      ensures sizeTables == old(sizeTables) + WORD_SIZE * n && count == WrapShort(n)
    {
      hide Next, Attributes, NameStored;
      count, n := 0, 0;
      var r := NextKeyword(scan, NAME);
      while r.code == 0
        invariant r == Next(scan, NAME) && count == WrapShort(n)
        invariant var e := WordList(scan, sizeStrings, outputOnly);
                  WordList(old(scan), old(sizeStrings), outputOnly) == e.(n := n + e.n)
        invariant sizeTables == old(sizeTables) + WORD_SIZE * n
        decreases Left(scan)
      {
        WrapShortAdd(n, 1);
        count, n := WrapShort(count + 1), n + 1;
        sizeTables := sizeTables + WORD_SIZE;
        CountName(r.data, outputOnly);
        scan := r.next;
        CountAttributes();
        r := NextKeyword(scan, NAME);
      }
      scan := r.next;
    }

    /** `do_words`. */
    method CountWords(outputOnly: bool) returns (ok: bool)
      requires Valid() && tally.ok
      modifies this
      ensures Valid() && tally == WordSection(old(tally), outputOnly) && ok == tally.ok
    {
      hide Next, WordList;
      ok := ExpectHeading(WORDS);
      if !ok {
        return;
      }
      ghost var h := tally;
      var count, n := CountWordList(outputOnly);
      counts := counts + [count];
      tally := WordSection(old(tally), outputOnly);
      assert tally.words[..|h.words|] == h.words;
    }

    /** `do_combinations`, up to the keyword that ends the required combinations. */
    method CountPairs() returns (ok: bool)
      requires Valid() && tally.ok
      modifies this
      ensures Valid() && tally == PairSection(old(tally), None) && ok == tally.ok
    {
      hide Next, Sum;
      ok := ExpectHeading(REQUIRED_COMBINATIONS);
      if !ok {
        return;
      }
      ghost var all := PairList(scan, None);
      ghost var h, n: nat := tally, 0;
      var r := NextKeyword(scan, COMBINATION_CONSTRAINTS);
      while r.code == -1
        invariant r == Next(scan, COMBINATION_CONSTRAINTS)
        invariant var p := PairList(scan, None); all == p.(n := n + p.n)
        invariant sizeStrings == h.strings && sizeTables == TableBytes(h) + PAIR_SIZE * n
        invariant numClassifications == h.classes && maxClassificationLength == h.longest && counts == Shorts(h.words)
        decreases Left(scan)
      {
        sizeTables, n := sizeTables + PAIR_SIZE, n + 1;
        scan := Scan("", r.next.file);
        r := NextKeyword(scan, COMBINATION_CONSTRAINTS);
      }
      scan := r.next;
      sizeTables := sizeTables + PAIR_SIZE;
      ok := r.code == 0;
      tally := PairSection(old(tally), None);
    }

    /** The loop of `do_combinations` over the constraints. */
    method CountConstraintList(section: KeywordList) returns (ok: bool, ghost n: nat, ghost lost: nat)
      modifies this`scan, this`sizeStrings, this`sizeTables
      ensures var c := Reserve(old(scan), section, old(sizeStrings));
              c.ok == ok && c.n == n && c.lost == lost && c.strings == sizeStrings && (ok ==> c.s == scan)
      ensures sizeTables == old(sizeTables) + CONSTRAINT_SIZE * n
    {
      hide Next, FromLine, WrapShort;
      ok, n, lost := true, 0, 0;
      var r := NextKeyword(scan, section);
      while r.code == -1
        invariant r == Next(scan, section)
        invariant var p := Reserve(scan, section, sizeStrings);
                  Reserve(old(scan), section, old(sizeStrings)) == p.(n := n + p.n, lost := lost + p.lost)
        invariant sizeTables == old(sizeTables) + CONSTRAINT_SIZE * n
        decreases Left(scan)
      {
        var words, file;
        ok, words, file := CountConstraint(r.next, section);
        if !ok {
          return;
        }
        sizeStrings := sizeStrings + sizeStrings % 2;
        sizeStrings := sizeStrings + 2 * WrapShort(words);
        sizeTables := sizeTables + CONSTRAINT_SIZE;
        n, lost := n + 1, lost + Lost(words);
        scan := Scan("", file);
        r := NextKeyword(scan, section);
      }
      scan := r.next;
      ok := true;
    }

    /** `do_combinations`, the constraints. */
    method CountConstraints(section: KeywordList) returns (ok: bool)
      requires Valid() && tally.ok
      modifies this
      ensures Valid() && tally == ConstraintSection(old(tally), section, None) && ok == tally.ok
    {
      hide Next, Reserve, Sum;
      ghost var n, lost;
      ok, n, lost := CountConstraintList(section);
      if ok {
        sizeTables := sizeTables + CONSTRAINT_SIZE;
      }
      tally := ConstraintSection(old(tally), section, None);
    }

    /** The sensitivity labels listed for one classification. */
    method CountLabels() returns (code: int)
      modifies this`scan, this`sizeStrings
      ensures var l := LabelList(old(scan), old(sizeStrings)); code == l.code && scan == l.s && sizeStrings == l.strings
    {
      hide Next;
      var r := NextKeyword(scan, MIN_CLEARANCE);
      while r.code == -1
        invariant r == Next(scan, MIN_CLEARANCE)
        invariant LabelList(scan, sizeStrings) == LabelList(old(scan), old(sizeStrings))
        decreases Left(scan)
      {
        sizeStrings := sizeStrings + COMPARTMENTS_SIZE;
        scan := Scan("", r.next.file);
        r := NextKeyword(scan, MIN_CLEARANCE);
      }
      scan, code := r.next, r.code;
    }

    /** The accreditation range. */
    method CountRanges() returns (ok: bool)
      requires Valid() && tally.ok
      modifies this
      ensures Valid() && tally == RangeSection(old(tally)) && ok == tally.ok
    {
      hide Next, LabelList, Sum;
      ok := ExpectHeading(ACCREDITATION_RANGE);
      if ok {
        sizeStrings := sizeStrings + sizeStrings % 2;
        tally := tally.(strings := Align(tally.strings));
        ok := ExpectHeading(CLASSIFICATION);
      }
      if ok {
        ghost var k := tally;
        ok := CountRangeList();
        tally := k.(ok := ok, s := scan, strings := sizeStrings);
      }
    }

    method CountRangeList() returns (ok: bool)
      modifies this`scan, this`sizeStrings
      ensures RangeList(old(scan), old(sizeStrings)) == Ranges(ok, scan, sizeStrings)
    {
      hide Next, LabelList;
      ok := true;
      while true
        invariant ok && RangeList(scan, sizeStrings) == RangeList(old(scan), old(sizeStrings))
        decreases Left(scan)
      {
        var r := NextKeyword(scan, AR_TYPES);
        scan := r.next;
        if r.code < 0 {
          return false;
        }
        var code := CountLabels();
        if code == -2 {
          return false;
        }
        if code == 0 {
          return;
        }
      }
    }

    /** The last two headings and the end of the file. */
    method CountLast() returns (ok: bool)
      requires Valid() && tally.ok
      modifies this
      ensures Valid() && tally == LastSection(old(tally)) && ok == tally.ok
    {
      hide Next, Sum;
      ok := ExpectHeading(MIN_SENSITIVITY_LABEL);
      if ok {
        ok := ExpectHeading(MIN_PROTECT_AS);
      }
      if ok {
        ok := scan.file == [];
      }
      tally := LastSection(old(tally));
    }

    /** The file up to the information labels. */
    method CountFirst() returns (ok: bool)
      requires Valid() && tally == Start(scan.file)
      modifies this
      ensures Valid() && tally == FirstPart(old(scan.file)) && ok == tally.ok
    {
      hide Next, ClassSection, Sum;
      ghost var v := VersionSection(tally);
      ok := CountVersion();
      if ok {
        ok := CountClasses();
      } else {
        FailedStays(v, INFORMATION_LABELS, None, false);
      }
      if ok {
        ok := ExpectHeading(INFORMATION_LABELS);
      }
    }

    /** The words and the combinations of one kind of label. */
    method CountLabelSection(section: KeywordList) returns (ok: bool)
      requires Valid() && tally.ok
      modifies this
      ensures Valid() && tally == LabelSection(old(tally), section, None) && ok == tally.ok
    {
      hide Next, WordSection, PairSection, ConstraintSection, Sum;
      ok := CountWords(false);
      if ok {
        ok := CountPairs();
      } else {
        FailedStays(tally, section, None, false);
      }
      if ok {
        ok := CountConstraints(section);
      } else {
        FailedStays(tally, section, None, false);
      }
    }

    /** The channels and the printer banners. */
    method CountOutput() returns (ok: bool)
      requires Valid() && tally.ok
      modifies this
      ensures Valid() && tally == OutputPart(old(tally)) && ok == tally.ok
    {
      hide Next, WordSection, Sum;
      ok := CountWords(true);
      if ok {
        ok := ExpectHeading(PRINTER_BANNERS);
      }
      if ok {
        ok := CountWords(true);
      } else {
        FailedStays(tally, PRINTER_BANNERS, None, true);
      }
    }

    /** The whole pass. */
    method CountFile() returns (ok: bool)
      requires Valid() && tally == Start(scan.file)
      modifies this
      ensures Valid() && tally == Pass(old(scan.file), COUNTING) && ok == tally.ok
    {
      hide Next, FirstPart, LabelSection, OutputPart, RangeSection, LastSection, Sum;
      ok := CountFirst();
      if ok {
        ok := CountLabelSection(SENSITIVITY_LABELS);
      } else {
        FailedStays(tally, SENSITIVITY_LABELS, None, false);
      }
      if ok {
        ok := CountLabelSection(CLEARANCES);
      } else {
        FailedStays(tally, CLEARANCES, None, false);
      }
      if ok {
        ok := CountLabelSection(CHANNELS);
      } else {
        FailedStays(tally, CHANNELS, None, false);
      }
      if ok {
        ok := CountOutput();
      } else {
        FailedStays(tally, CHANNELS, None, false);
      }
      if ok {
        ok := CountRanges();
      } else {
        FailedStays(tally, CHANNELS, None, false);
      }
      if ok {
        ok := CountLast();
      } else {
        FailedStays(tally, CHANNELS, None, false);
      }
    }
  }

  /** A keyword of a classification takes the scanner on. */
  lemma {:induction false} ClassStepReads(c: Classes, r: Token)
    requires r == Next(c.s, CLASS_KEYWORDS) && r.code >= 0
    ensures ClassStep(c, r).s == r.next && Left(r.next) < Left(c.s)
  {
  }
}
