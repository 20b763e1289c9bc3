/** When the conversion of labelcomp.c stays within what was counted: where no word's name holds a delimiter,
    both passes account for a constraint to the word. */
module ExactSizing {
  import opened CTypes
  import opened Options
  import opened Words
  import opened WordIndex
  import opened Scanner
  import opened Constraints
  import opened Sizing

  // ---------------------------------------------------------------- names without delimiters

  predicate NoDelim(t: string) {
    forall k | 0 <= k < |t| :: !IsDelim(t[k])
  }

  /** No word can be written with a delimiter in it. */
  predicate DelimFree(words: seq<Word>) {
    forall i | 0 <= i < |words| ::
      NoDelim(words[i].outputName) && (words[i].shortName.Some? ==> NoDelim(words[i].shortName.value))
  }

  lemma {:induction false} DelimsBehind(t: string, k: nat)
    requires k <= |t| && NoDelim(t[..k])
    ensures Delims(t[k..]) == Delims(t)
    decreases k
  {
    if k == 0 {
      assert t[0..] == t;
    } else {
      assert t[..k][0] == t[0] && t[1..][..k - 1] == t[..k][1..];
      DelimsBehind(t[1..], k - 1);
      assert t[1..][k - 1..] == t[k..];
    }
  }

  lemma {:induction false} PhraseDelimFree(words: seq<Word>, i: nat, phrase: string)
    requires DelimFree(words) && i < |words| && Spells(words, i, phrase)
    ensures NoDelim(phrase)
  {
  }

  /** The text that a word found takes up. */
  lemma {:induction false} TakenDelimFree(words: seq<Word>, text: string)
    requires DelimFree(words) && Index(words, text).Found?
    ensures IsRest(Index(words, text).rest, text) && NoDelim(text[..|text| - |Index(words, text).rest|])
  {
    hide Index, Spells;
    var r := Index(words, text);
    IndexConsumes(words, text);
    var phrase := LookupSound(words, text);
    PhraseDelimFree(words, r.entry, phrase);
    var taken := text[..|text| - |r.rest|];
    assert taken == if text == phrase + " " + r.rest then phrase + " " else phrase;
  }

  /** Likewise with the blank in front of it. */
  lemma {:induction false} TakenBehindBlank(words: seq<Word>, text: string)
    requires DelimFree(words) && Index(words, SkipBlank(text)).Found?
    ensures var rest := Index(words, SkipBlank(text)).rest; IsRest(rest, text) && NoDelim(text[..|text| - |rest|])
  {
    hide Index;
    TakenDelimFree(words, SkipBlank(text));
    var rest := Index(words, SkipBlank(text)).rest;
    RestBehindBlank(rest, text);
    if SkipBlank(text) != text {
      assert text[..|text| - |rest|] == " " + SkipBlank(text)[..|SkipBlank(text)| - |rest|];
    }
  }

  // ---------------------------------------------------------------- one constraint

  /** What is ahead of a cursor does not change while text without a delimiter is passed. */
  lemma {:induction false} PassingKeeps(c: Cursor, section: KeywordList, rest: string)
    requires |rest| <= |c.text| && rest == c.text[|c.text| - |rest|..] && NoDelim(c.text[..|c.text| - |rest|])
    ensures Ahead(c.(text := rest), section, 0) == Ahead(c, section, 0)
  {
    var k: nat := |c.text| - |rest|;
    AheadAt(c, section, rest, k);
    assert Full(c)[0..] == Full(c) && Full(c)[..k] == c.text[..k];
    DelimsBehind(Full(c), k);
  }

  /** Loading the next line where the counting loop loads it leaves exactly as much ahead. */
  lemma {:induction false} LoadingKeepsExactly(c: Cursor, section: KeywordList)
    requires Ahead(c, section, 0).ok
    ensures Ahead(CheckContinuation(c, section), section, 0) == Ahead(c, section, 0)
  {
    var u := SkipBlank(c.text);
    if c.continues && u == [] {
      var r := Next(Scan("", c.file), section);
      LoadedAhead(r.next.cur, r.next.file, section);
      DelimsBehind(Full(c)[0..], |Full(c)|);
    } else {
      PassingKeeps(c, section, u);
    }
  }

  /** A word and what is loaded behind it. */
  lemma {:induction false} WordTakenExactly(words: seq<Word>, c: Cursor, section: KeywordList)
    requires DelimFree(words) && Ahead(c, section, 0).ok && Index(words, SkipBlank(c.text)).Found?
    ensures var d := CheckContinuation(Cursor(Index(words, SkipBlank(c.text)).rest, c.continues, c.file), section);
            Size(d) < Size(c) && Ahead(d, section, 0) == Ahead(c, section, 0)
  {
    hide Index;
    var rest := Index(words, SkipBlank(c.text)).rest;
    TakenBehindBlank(words, c.text);
    PassingKeeps(c, section, rest);
    LoadingKeepsExactly(c.(text := rest), section);
  }

  /** The character that the counting loop skips behind an ampersand is the head of a word. */
  lemma {:induction false} SkippedIsNoDelim(words: seq<Word>, o: Cursor)
    requires DelimFree(words) && Full(o) != []
    requires SkipBlank(o.text) != [] ==> Index(words, SkipBlank(SkipBlank(o.text))).Found?
    ensures !IsDelim(Full(o)[0])
  {
    hide Index;
    if o.text != [] && o.text[0] != ' ' {
      TakenBehindBlank(words, o.text);
      assert o.text[..|o.text| - |Index(words, o.text).rest|][0] == o.text[0];
    }
  }

  lemma {:induction false} AmpersandTakenExactly(words: seq<Word>, d: Cursor, section: KeywordList)
    requires d.text != [] && d.text[0] == '&' && !FinalAmpersand(d) && DelimFree(words)
    requires SkipBlank(Opened(d).text) != [] ==> Index(words, SkipBlank(SkipBlank(Opened(d).text))).Found?
    ensures 1 + Ahead(Opened(d), section, 0).n == Ahead(d, section, 0).n
  {
    hide Index, Delims, More;
    var o := Opened(d);
    AmpersandCounted(d, section);
    SkippedIsNoDelim(words, o);
    assert Full(d)[0..] == Full(d) && Full(o)[0..] == Full(o) && Full(o)[..1] == [Full(o)[0]];
    DelimsBehind(Full(o), 1);
  }

  lemma {:induction false} BarTakenExactly(d: Cursor, section: KeywordList)
    requires d.text != [] && (d.text[0] == '|' || d.text[0] == '!')
    ensures 1 + Ahead(Opened(d), section, 0).n == Ahead(d, section, 0).n
  {
    hide More;
    assert Full(d)[0..] == Full(d) && Full(Opened(d))[0..] == Full(Opened(d)) == Full(d)[1..];
  }

  /** A delimiter and what is loaded behind it. */
  lemma {:induction false} DelimTakenExactly(words: seq<Word>, d: Cursor, section: KeywordList)
    requires d.text != [] && IsDelim(d.text[0]) && !FinalAmpersand(d) && Ahead(d, section, 0).ok && DelimFree(words)
    requires Index(words, SkipBlank(CheckContinuation(Opened(d), section).text)).Found?
    ensures var e := CheckContinuation(Opened(d), section);
            Ahead(e, section, 0).ok && 1 + Ahead(e, section, 0).n == Ahead(d, section, 0).n
  {
    hide Index, Delims, More, Next;
    var o := Opened(d);
    LoadingKeepsExactly(o, section);
    if d.text[0] == '&' {
      AmpersandTakenExactly(words, d, section);
    } else {
      BarTakenExactly(d, section);
    }
  }

  /** As many words are stored as there are delimiters ahead, and one; those ahead of an early end are still
      to come. */
  ghost predicate CountedExactly(v: Stored, section: KeywordList, ahead: Lines) {
    v.ok ==> |v.list| + (if v.cutOff then More(v.next.file, section).n else 0) == 1 + ahead.n
  }

  /** The text behind the last word holds no delimiter to be counted. */
  lemma {:induction false} NothingBehindLast(d: Cursor, section: KeywordList)
    requires d.text == [] || FinalAmpersand(d)
    ensures d.text == [] ==> Ahead(d, section, 0).n == if d.continues then More(d.file, section).n else 0
    ensures d.text != [] ==> Ahead(d, section, 0).n == 0
  {
    assert Full(d)[0..] == Full(d);
    if d.text == [] && d.continues {
      assert Full(d) == "\\";
      DelimsBehind("\\", 1);
    }
  }

  /** The main result on one constraint: in order, it stores exactly the words that were counted. */
  lemma {:induction false} StoredExactly(words: seq<Word>, c: Cursor, section: KeywordList, firstHalf: bool)
    requires Ahead(c, section, 0).ok && DelimFree(words)
    ensures CountedExactly(Convert(words, c, section, firstHalf), section, Ahead(c, section, 0))
    decreases Size(c)
  {
    hide Index;
    if Convert(words, c, section, firstHalf).ok {
      FoundIfOk(words, c, section, firstHalf);
      WordTakenExactly(words, c, section);
      var d := CheckContinuation(Cursor(Index(words, SkipBlank(c.text)).rest, c.continues, c.file), section);
      if GoesOn(d, firstHalf) {
        var e := CheckContinuation(Opened(d), section);
        assert Size(e) <= Size(d);
        FoundIfOk(words, e, section, d.text[0] == '|' && firstHalf);
        DelimTakenExactly(words, d, section);
        StoredExactly(words, e, section, d.text[0] == '|' && firstHalf);
      } else {
        NothingBehindLast(d, section);
      }
    }
  }

  lemma {:induction false} LineExactly(words: seq<Word>, t: string, file: string, section: KeywordList)
    requires FromLine(t, file, section).ok && DelimFree(words)
    ensures CountedExactly(Convert(words, Loaded(t, file), section, true), section, FromLine(t, file, section))
  {
    LoadedAhead(t, file, section);
    StoredExactly(words, Loaded(t, file), section, true);
  }

  /** A constraint in order that is read to the end of its lines fits in what the counting pass reserved for
      them exactly if its words can be counted in 16 bits. */
  lemma {:induction false} ReservedExactIff(words: seq<Word>, t: string, file: string, section: KeywordList)
    requires FromLine(t, file, section).ok && DelimFree(words)
    ensures var l, v := FromLine(t, file, section), Convert(words, Loaded(t, file), section, true);
            v.ok && !v.cutOff ==> (|v.list| <= WrapShort(1 + l.n) <==> |v.list| <= 0x7fff)
  {
    hide FromLine, Convert, DelimFree;
    LineExactly(words, t, file, section);
  }

  // ---------------------------------------------------------------- the constraints of a section

  /** What was stored in one section is what was reserved, but for the early ends and the words lost. */
  ghost predicate HeldExactly(c: Section, k: Section, d: nat) {
    c.ok ==> c.s == k.s && c.strings == k.strings + 2 * (d + c.cutOffs + k.lost)
  }

  lemma {:induction false} StoreExactFromStart(words: seq<Word>, s: Scan, section: KeywordList, z1: int, z2: int,
                                               d: nat)
    requires z1 == z2 + 2 * d && Reserve(s, section, z2).ok && DelimFree(words)
    ensures HeldExactly(Store(words, s, section, z1), Reserve(s, section, z2), d)
    decreases Left(s)
  {
    hide Next, Convert, FromLine, DelimFree;
    var r := Next(s, section);
    if r.code == -1 {
      var l := FromLine(r.next.cur, r.next.file, section);
      var v := Convert(words, Loaded(r.next.cur, r.next.file), section, true);
      LineCovered(words, r.next.cur, r.next.file, section);
      LineExactly(words, r.next.cur, r.next.file, section);
      var y1, y2 := Align(z1) + 2 * |v.list|, Align(z2) + 2 * WrapShort(1 + l.n);
      if v.ok {
        if v.cutOff {
          StoreExactFromMiddle(words, v.next.file, section, y1, y2, d + Lost(1 + l.n));
        } else {
          StoreExactFromStart(words, v.next, section, y1, y2, d + Lost(1 + l.n));
        }
      }
    }
  }

  lemma {:induction false} StoreExactFromMiddle(words: seq<Word>, file: string, section: KeywordList, z1: int, z2: int,
                                                d: nat)
    requires z1 % 2 == 0 && More(file, section).ok && z1 + 2 * More(file, section).n == z2 + 2 * d && DelimFree(words)
    requires Reserve(Scan("", More(file, section).file), section, z2).ok
    ensures HeldExactly(Store(words, Scan("", file), section, z1),
                        Reserve(Scan("", More(file, section).file), section, z2), d + 1)
    decreases |file|
  {
    hide Next, Convert, FromLine, DelimFree;
    var r := Next(Scan("", file), section);
    var v := Convert(words, Loaded(r.next.cur, r.next.file), section, true);
    LineCovered(words, r.next.cur, r.next.file, section);
    LineExactly(words, r.next.cur, r.next.file, section);
    var y1 := z1 + 2 * |v.list|;
    if v.ok {
      if v.cutOff {
        StoreExactFromMiddle(words, v.next.file, section, y1, z2, d + 1);
      } else {
        StoreExactFromStart(words, v.next, section, y1, z2, d + 1);
      }
    }
  }

  // ---------------------------------------------------------------- the sections

  /** Conversion so far against counting so far: two bytes more for each early end and each word lost. */
  ghost predicate Exactly(c: Tally, k: Tally) {
    c.ok ==> k.ok && c.s == k.s && c.strings == k.strings + 2 * (c.cutOffs + k.lost)
  }

  lemma {:induction false} HeadingExactly(c: Tally, k: Tally, kws: KeywordList)
    requires Exactly(c, k)
    ensures Exactly(Heading(c, kws), Heading(k, kws))
  {
    hide Next;
  }

  lemma {:induction false} WordsExactly(c: Tally, k: Tally, outputOnly: bool)
    requires Exactly(c, k)
    ensures Exactly(WordSection(c, outputOnly), WordSection(k, outputOnly))
  {
    hide Next, WordList;
    HeadingExactly(c, k, WORDS);
    var a, b := Heading(c, WORDS), Heading(k, WORDS);
    if a.ok {
      WordsParallel(b.s, a.strings, b.strings, outputOnly, a.cutOffs + b.lost);
    }
  }

  lemma {:induction false} PairsExactly(c: Tally, k: Tally, words: seq<Word>)
    requires Exactly(c, k)
    ensures Exactly(PairSection(c, Some(words)), PairSection(k, None))
  {
    hide Next, PairList;
    HeadingExactly(c, k, REQUIRED_COMBINATIONS);
    PairsParallel(Heading(k, REQUIRED_COMBINATIONS).s, words);
  }

  lemma {:induction false} ConstraintsExactly(c: Tally, k: Tally, section: KeywordList, words: seq<Word>)
    requires Exactly(c, k) && ConstraintSection(k, section, None).ok && DelimFree(words)
    ensures Exactly(ConstraintSection(c, section, Some(words)), ConstraintSection(k, section, None))
  {
    hide Next, Reserve, Store, DelimFree;
    if c.ok {
      StoreExactFromStart(words, k.s, section, c.strings, k.strings, c.cutOffs + k.lost);
    }
  }

  lemma {:induction false} LabelsExactly(c: Tally, k: Tally, section: KeywordList, words: seq<Word>)
    requires Exactly(c, k) && LabelSection(k, section, None).ok && DelimFree(words)
    ensures Exactly(LabelSection(c, section, Some(words)), LabelSection(k, section, None))
  {
    hide Next, WordSection, PairSection, ConstraintSection, DelimFree;
    WordsExactly(c, k, false);
    PairsExactly(WordSection(c, false), WordSection(k, false), words);
    ConstraintsExactly(PairSection(WordSection(c, false), Some(words)), PairSection(WordSection(k, false), None),
                       section, words);
  }

  lemma {:induction false} OutputExactly(c: Tally, k: Tally)
    requires Exactly(c, k)
    ensures Exactly(OutputPart(c), OutputPart(k))
  {
    hide Next, WordSection;
    WordsExactly(c, k, true);
    HeadingExactly(WordSection(c, true), WordSection(k, true), PRINTER_BANNERS);
    WordsExactly(Heading(WordSection(c, true), PRINTER_BANNERS), Heading(WordSection(k, true), PRINTER_BANNERS), true);
  }

  lemma {:induction false} RangesExactly(c: Tally, k: Tally)
    requires Exactly(c, k)
    ensures Exactly(RangeSection(c), RangeSection(k))
  {
    hide Next, RangeList;
    var c1, k1 := Heading(c, ACCREDITATION_RANGE), Heading(k, ACCREDITATION_RANGE);
    HeadingExactly(c, k, ACCREDITATION_RANGE);
    var c2, k2 := Heading(c1.(strings := Align(c1.strings)), CLASSIFICATION),
      Heading(k1.(strings := Align(k1.strings)), CLASSIFICATION);
    if c2.ok {
      RangesParallel(k2.s, c2.strings, k2.strings, c2.cutOffs + k2.lost);
    }
  }

  // ---------------------------------------------------------------- the whole file

  /** The main result.  Where no name holds a delimiter, a conversion that ends well takes exactly the bytes
      counted, two for each constraint that ended early, and two for each word lost in counting. */
  lemma {:induction false} ConvertedExactly(file: string, il: seq<Word>, sl: seq<Word>, cl: seq<Word>)
    requires DelimFree(il) && DelimFree(sl) && DelimFree(cl)
    ensures var k, c := Pass(file, COUNTING), Pass(file, Tables(Some(il), Some(sl), Some(cl)));
            k.ok && c.ok ==> c.strings == k.strings + 2 * (c.cutOffs + k.lost)
  {
    hide Next, LabelSection, OutputPart, RangeSection, LastSection, FirstPart, DelimFree;
    var k, c := Pass(file, COUNTING), Pass(file, Tables(Some(il), Some(sl), Some(cl)));
    if k.ok && c.ok {
      var k0 := FirstPart(file);
      var k1, c1 := LabelSection(k0, SENSITIVITY_LABELS, None), LabelSection(k0, SENSITIVITY_LABELS, Some(il));
      var k2, c2 := LabelSection(k1, CLEARANCES, None), LabelSection(c1, CLEARANCES, Some(sl));
      var k3, c3 := LabelSection(k2, CHANNELS, None), LabelSection(c2, CHANNELS, Some(cl));
      WellThroughout(file, COUNTING);
      FirstPartTakesAll(file);
      LabelsExactly(k0, k0, SENSITIVITY_LABELS, il);
      LabelsExactly(c1, k1, CLEARANCES, sl);
      LabelsExactly(c2, k2, CHANNELS, cl);
      OutputExactly(c3, k3);
      RangesExactly(OutputPart(c3), OutputPart(k3));
      LastSectionTakesNothing(RangeSection(OutputPart(k3)));
      LastSectionTakesNothing(RangeSection(OutputPart(c3)));
    }
  }

  /** Nothing is lost and nothing ends early before the first constraint. */
  lemma {:induction false} FirstPartTakesAll(file: string)
    ensures var t := FirstPart(file); t.lost == 0 && t.cutOffs == 0
  {
    hide Next, ClassList;
  }

  /** So it stays within the space exactly if no line of a constraint is a backslash alone and no constraint has
      more words than can be counted. */
  lemma {:induction false} ConversionFitsIff(file: string, il: seq<Word>, sl: seq<Word>, cl: seq<Word>)
    requires DelimFree(il) && DelimFree(sl) && DelimFree(cl)
    ensures var k, c := Pass(file, COUNTING), Pass(file, Tables(Some(il), Some(sl), Some(cl)));
            k.ok && c.ok ==>
              && c.strings == k.strings + 2 * (LoneLines(file) + k.lost)
              && (c.strings <= k.strings <==> LoneLines(file) == 0 && k.lost == 0)
  {
    hide Pass, DelimFree, LoneLines;
    ConvertedExactly(file, il, sl, cl);
    ConversionFits(file, il, sl, cl);
  }
}
