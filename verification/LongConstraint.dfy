/** Encodings files for which labelcomp.c reserves too little for a constraint because it has more words than a
    16-bit variable can count. */
module LongConstraint {
  import opened CTypes
  import opened Options
  import opened Words
  import opened WordIndex
  import opened Scanner
  import opened Constraints
  import opened Sizing
  import opened ConversionPass
  import opened LineText
  import opened TableText
  import opened FileText
  import opened LoneBackslash

  const BARRED := "A |\\"

  /** The first line of a constraint in which `n` lines of a word and a bar are continued by a last one... */
  function Front(n: nat): string {
    if n == 0 then PLAIN else BARRED
  }

  /** ...and the lines behind it. */
  function Behind(n: nat, rest: string): string {
    if n == 0 then rest else Ln(Front(n - 1), Behind(n - 1, rest))
  }

  lemma {:induction false} FrontRead(n: nat, rest: string)
    ensures Next(Scan("", Ln(Front(n), rest)), CHANNELS) == Token(-1, "", Scan(Front(n), rest))
  {
    hide Next, Ln;
    if n == 0 {
      ConstraintRead(PLAIN, rest);
    } else {
      Refused(BARRED, rest, CHANNELS);
    }
  }

  lemma {:induction false} DelimsOfFront(n: nat)
    ensures Delims(Front(n)) == 1 && (Constraints.Continues(Front(n)) <==> n > 0)
  {
    DelimsOfLines();
    assert BARRED[1..] == " |\\" && " |\\"[1..] == "|\\" && "|\\"[1..] == "\\" && "\\"[1..] == [];
    assert Delims("\\") == 0 && Delims("|\\") == 1 && Delims(" |\\") == 1;
  }

  lemma {:induction false} LongCounted(n: nat, rest: string)
    ensures FromLine(Front(n), Behind(n, rest), CHANNELS) == Lines(n + 1, true, rest)
    decreases n
  {
    hide Next, Ln, Delims, Front, Constraints.Continues;
    DelimsOfFront(n);
    if n > 0 {
      LongCounted(n - 1, rest);
      FrontRead(n - 1, Behind(n - 1, rest));
    }
  }

  lemma {:induction false} BarredWord()
    ensures Index(TWO_WORDS, "A |") == Found(0, "|") && Loaded(BARRED, "").text == "A |"
  {
    assert "A |" == "A" + " " + "|";
    FindsPlainWordIff(TWO_WORDS, 0, "|", "A |");
    assert BARRED[..3] == "A |";
  }

  /** A word and a bar at the end of a line that continues. */
  lemma {:induction false} BarredStep(file: string)
    ensures var d := CheckContinuation(Cursor("", true, file), CHANNELS);
            Convert(TWO_WORDS, Loaded(BARRED, file), CHANNELS, true)
            == InFront(0, Convert(TWO_WORDS, d, CHANNELS, true))
  {
    hide Index, Next;
    BarredWord();
    var c, d := Cursor("A |", true, file), Cursor("|", true, file);
    assert Loaded(BARRED, file) == c && SkipBlank("A |") == "A |";
    assert CheckContinuation(d, CHANNELS) == d;
    assert Opened(d) == Cursor("", true, file) by { assert "|"[1..] == ""; }
    assert Convert(TWO_WORDS, c, CHANNELS, true) == AfterWord(TWO_WORDS, 0, d, CHANNELS, true);
  }

  lemma {:induction false} LongConverted(n: nat, rest: string)
    ensures var v := Convert(TWO_WORDS, Loaded(Front(n), Behind(n, rest)), CHANNELS, true);
            |v.list| == n + 2 && v.ok && !v.cutOff && v.next == Scan("", rest)
    decreases n
  {
    hide Next, Ln, Convert;
    if n == 0 {
      TwoStored(false, rest);
      assert Loaded(PLAIN, rest) == Cursor(PLAIN, false, rest);
    } else {
      FrontRead(n - 1, Behind(n - 1, rest));
      BarredStep(Behind(n, rest));
      LongConverted(n - 1, rest);
    }
  }

  /** One word too many: 32768 words are in order, and are stored, but what is reserved for them is negative. */
  lemma {:induction false} NegativeReserve(rest: string)
    ensures var n := 32766;
            var l := FromLine(Front(n), Behind(n, rest), CHANNELS);
            var v := Convert(TWO_WORDS, Loaded(Front(n), Behind(n, rest)), CHANNELS, true);
            && l.ok && v.ok && !v.cutOff && |v.list| == 32768
            && WrapShort(1 + l.n) == -32768
  {
    hide FromLine, Convert, Behind, Front;
    LongCounted(32766, rest);
    LongConverted(32766, rest);
  }

  // ---------------------------------------------------------------- the file

  function Long(n: nat, rest: string): string {
    Ln(Front(n), Behind(n, Ln("CHANNELS:", rest)))
  }

  lemma {:induction false} LongReserved(n: nat, rest: string, z: int)
    ensures Reserve(Scan("", Long(n, rest)), CHANNELS, z)
            == Section(true, Scan("", rest), Align(z) + 2 * WrapShort(n + 2), 1, Lost(n + 2), 0)
  {
    hide Next, FromLine, Ln, Front, Behind, Lost;
    var last := Ln("CHANNELS:", rest);
    var y := Align(z) + 2 * WrapShort(n + 2);
    FrontRead(n, Behind(n, last));
    ChannelsRead(rest);
    LongCounted(n, last);
    assert Reserve(Scan("", last), CHANNELS, y) == Section(true, Scan("", rest), y, 0, 0, 0);
  }

  lemma {:induction false} LongStored(n: nat, rest: string, z: int)
    ensures Store(TWO_WORDS, Scan("", Long(n, rest)), CHANNELS, z)
            == Section(true, Scan("", rest), Align(z) + 2 * (n + 2), 1, 0, 0)
  {
    hide Next, Convert, Ln, Front, Behind;
    var last := Ln("CHANNELS:", rest);
    var y := Align(z) + 2 * (n + 2);
    FrontRead(n, Behind(n, last));
    ChannelsRead(rest);
    LongConverted(n, last);
    assert Store(TWO_WORDS, Scan("", last), CHANNELS, y) == Section(true, Scan("", rest), y, 0, 0, 0);
  }

  /** Two words, and a constraint of `n` and two words. */
  function LongClearances(n: nat): string {
    TwoWords(Long(n, Ending(NOTHING_ELSE)))
  }

  lemma {:induction false} LongClearancesRead(n: nat)
    ensures ReadAs(NOTHING_ELSE, LongClearances(n), TWO_WORDS, NOTED.(lost := Lost(n + 2)), NOTED)
  {
    hide Next, Ln, WordSection, PairSection, Reserve, Store, TableAt, TwoWords, Long, Ending, Lost;
    var end := Ending(NOTHING_ELSE);
    forall t: Tally | At(t, "", LongClearances(n), BeforeClearances(NOTHING_ELSE))
      ensures TableAt(t) == TWO_WORDS
      ensures At(LabelSection(t, CHANNELS, None), "", end, NOTED.(lost := Lost(n + 2)))
      ensures At(LabelSection(t, CHANNELS, Some(TWO_WORDS)), "", end, NOTED)
    {
      TwoWordsSection(t, Long(n, end));
      var w := WordSection(t, false);
      LongReserved(n, end, PairSection(w, None).strings);
      LongStored(n, end, PairSection(w, Some(TWO_WORDS)).strings);
    }
  }

  /** Both passes read the whole file, for every length of the constraint, and the second takes more than the first
      has counted exactly if the constraint has more than 32767 words. */
  lemma {:induction false} LongFileOverflowsIff(n: nat)
    ensures var file := File(NOTHING_ELSE, LongClearances(n));
            var k, c := Pass(file, COUNTING), Pass(file, Converted(file));
            && k.ok && c.ok && NamesDelimFree(file) && LoneLines(file) == 0
            && c.strings == k.strings + 2 * Lost(n + 2)
            && (c.strings > k.strings <==> n + 2 > 0x7fff)
  {
    hide Pass, Compiled, File, LoneLines, NamesDelimFree, LongClearances;
    var file := File(NOTHING_ELSE, LongClearances(n));
    LongClearancesRead(n);
    FileRead(NOTHING_ELSE, LongClearances(n), TWO_WORDS, NOTED.(lost := Lost(n + 2)), NOTED);
    TwoWordsDelimFree(file);
    NamedExactly(file);
    ConversionFits(file, [], [], TWO_WORDS);
    NothingLostIff(n + 2);
  }
}
