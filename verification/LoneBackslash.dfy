/** An encodings file for which labelcomp.c stores more than it reserved: a constraint that is complete is
    continued by a line that is a backslash alone. */
module LoneBackslash {
  import opened CTypes
  import opened Options
  import opened Words
  import opened WordIndex
  import opened Scanner
  import opened Constraints
  import opened Sizing
  import opened ConversionPass
  import opened LineText
  import opened TableText
  import opened FileText

  function Plainly(name: char): Word {
    Word([name], None, NoAffix, NoAffix)
  }

  const TWO_WORDS := [Plainly('A'), Plainly('B')]

  const CONTINUED := "A ! B\\"
  const ALONE := "\\"
  const PLAIN := "A ! B"

  function Constraint(rest: string): string {
    Ln(CONTINUED, Ln(ALONE, Ln(PLAIN, Ln("CHANNELS:", rest))))
  }

  lemma {:induction false} ConstraintRead(line: string, rest: string)
    requires line == CONTINUED || line == ALONE || line == PLAIN
    ensures Next(Scan("", Ln(line, rest)), CHANNELS) == Token(-1, "", Scan(line, rest))
  {
    hide Next, Ln;
    Refused(line, rest, CHANNELS);
  }

  lemma {:induction false} ChannelsRead(rest: string)
    ensures Next(Scan("", Ln("CHANNELS:", rest)), CHANNELS) == Token(0, "", Scan("", rest))
  {
    hide Next, Ln;
    HeadingTaken("CHANNELS:", rest);
  }

  lemma {:induction false} DelimsOfLines()
    ensures Delims(CONTINUED) == 1 && Delims(ALONE) == 0 && Delims(PLAIN) == 1
  {
    assert PLAIN[1..] == " ! B" && " ! B"[1..] == "! B" && "! B"[1..] == " B" && " B"[1..] == "B" && "B"[1..] == [];
    assert Delims("B") == 0 && Delims(" B") == 0;
    assert CONTINUED[1..] == " ! B\\" && " ! B\\"[1..] == "! B\\" && "! B\\"[1..] == " B\\";
    assert " B\\"[1..] == "B\\" && "B\\"[1..] == "\\" && "\\"[1..] == [];
    assert Delims("\\") == 0 && Delims("B\\") == 0 && Delims(" B\\") == 0;
  }

  /** Three words are counted for the three lines... */
  lemma {:induction false} CountedThree(rest: string)
    ensures FromLine(CONTINUED, Ln(ALONE, Ln(PLAIN, rest)), CHANNELS) == Lines(2, true, rest)
  {
    hide Next, Delims, Ln;
    DelimsOfLines();
    ConstraintRead(ALONE, Ln(PLAIN, rest));
    ConstraintRead(PLAIN, rest);
    assert Constraints.More(Ln(PLAIN, rest), CHANNELS) == Lines(1, true, rest);
    assert Constraints.More(Ln(ALONE, Ln(PLAIN, rest)), CHANNELS) == Lines(1, true, rest);
  }

  lemma {:induction false} WordsFound()
    ensures Index(TWO_WORDS, PLAIN) == Found(0, "! B") && Index(TWO_WORDS, "B") == Found(1, "")
  {
    assert PLAIN == "A" + " " + "! B";
    FindsPlainWordIff(TWO_WORDS, 0, "! B", PLAIN);
    assert "B"[..1][0] == 'B';
    FindsPlainWordIff(TWO_WORDS, 1, "", "B");
  }

  /** The conversion of the two words and the sign, up to the end of the line. */
  lemma {:induction false} TwoStored(continues: bool, file: string)
    requires continues ==> Next(Scan("", file), CHANNELS).next.cur == ALONE
    ensures var v := Convert(TWO_WORDS, Cursor(PLAIN, continues, file), CHANNELS, true);
            && v.list == [0, 1] && v.ok && v.cutOff == continues
            && v.next == Scan("", if continues then Next(Scan("", file), CHANNELS).next.file else file)
  {
    hide Next, Index;
    WordsFound();
    var c, d, e := Cursor(PLAIN, continues, file), Cursor("! B", continues, file), Cursor("B", continues, file);
    assert CheckContinuation(d, CHANNELS) == d;
    assert CheckContinuation(Opened(d), CHANNELS) == e by {
      assert "! B"[1..] == " B" && SkipBlank(" B") == "B";
    }
    assert Loaded(ALONE, file).text == "";
    var w := Convert(TWO_WORDS, e, CHANNELS, false);
    assert w == AfterWord(TWO_WORDS, 1, CheckContinuation(Cursor("", continues, file), CHANNELS), CHANNELS, false);
    assert w.list == [1];
    assert Convert(TWO_WORDS, c, CHANNELS, true) == AfterWord(TWO_WORDS, 0, d, CHANNELS, true);
    assert AfterWord(TWO_WORDS, 0, d, CHANNELS, true) == EndsFirst(0, NotWith, w);
  }

  lemma {:induction false} ThreeReserved(rest: string, z: int)
    ensures Reserve(Scan("", Constraint(rest)), CHANNELS, z) == Section(true, Scan("", rest), Align(z) + 6, 1, 0, 0)
  {
    hide Next, FromLine, Ln;
    var last := Ln("CHANNELS:", rest);
    ConstraintRead(CONTINUED, Ln(ALONE, Ln(PLAIN, last)));
    ChannelsRead(rest);
    CountedThree(last);
    assert Reserve(Scan("", last), CHANNELS, Align(z) + 6) == Section(true, Scan("", rest), Align(z) + 6, 0, 0, 0);
  }

  /** ...and four are stored: the lines hold two constraints for the conversion, one for the count. */
  lemma {:induction false} FourStored(rest: string, z: int)
    ensures Store(TWO_WORDS, Scan("", Constraint(rest)), CHANNELS, z)
            == Section(true, Scan("", rest), Align(z) + 8, 2, 0, 1)
  {
    hide Next, Convert, Ln;
    var last := Ln("CHANNELS:", rest);
    var plain := Ln(PLAIN, last);
    ConstraintRead(CONTINUED, Ln(ALONE, plain));
    ConstraintRead(ALONE, plain);
    ConstraintRead(PLAIN, last);
    ChannelsRead(rest);
    TwoStored(true, Ln(ALONE, plain));
    TwoStored(false, last);
    assert Loaded(CONTINUED, Ln(ALONE, plain)) == Cursor(PLAIN, true, Ln(ALONE, plain));
    assert Loaded(PLAIN, last) == Cursor(PLAIN, false, last);
    var y := Align(z) + 4;
    assert Store(TWO_WORDS, Scan("", last), CHANNELS, y + 4) == Section(true, Scan("", rest), y + 4, 0, 0, 0);
    assert Store(TWO_WORDS, Scan("", plain), CHANNELS, y) == Section(true, Scan("", rest), y + 4, 1, 0, 0);
  }

  // ---------------------------------------------------------------- the file

  const TWO: Listing := List(TWO_WORDS, [])

  /** Clearances of the two words with these constraints, and the notes in front of and behind the words. */
  function TwoWords(constraints: string): string {
    WordLines(TWO, REQUIRED, Ln(CONSTRAINTS, constraints))
  }

  const NOTED := Noted([0, 0, 2], 0, 0)

  /** They are counted and converted. */
  lemma {:induction false} TwoWordsSection(t: Tally, constraints: string)
    requires At(t, "", TwoWords(constraints), BeforeClearances(NOTHING_ELSE))
    ensures TableAt(t) == TWO_WORDS
    ensures At(PairSection(WordSection(t, false), None), "", constraints, NOTED)
    ensures At(PairSection(WordSection(t, false), Some(TWO_WORDS)), "", constraints, NOTED)
  {
    hide Next, Ln, WordSection, PairSection, TableAt, EndsTable, WordLines;
    EndsOfTables();
    SectionRead(t, TWO, REQUIRED, Ln(CONSTRAINTS, constraints), Noted([0, 0], 0, 0), false);
    NonePairedRead(WordSection(t, false), constraints, NOTED, None);
    NonePairedRead(WordSection(t, false), constraints, NOTED, Some(TWO_WORDS));
  }

  const CLEARANCES_WITH_LONE: string := TwoWords(Constraint(Ending(NOTHING_ELSE)))

  lemma {:induction false} ClearancesRead()
    ensures ReadAs(NOTHING_ELSE, CLEARANCES_WITH_LONE, TWO_WORDS, NOTED, NOTED.(cutOffs := 1))
  {
    hide Next, Ln, WordSection, PairSection, Reserve, Store, TableAt, TwoWords, Constraint, Ending;
    var end := Ending(NOTHING_ELSE);
    forall t: Tally | At(t, "", CLEARANCES_WITH_LONE, BeforeClearances(NOTHING_ELSE))
      ensures TableAt(t) == TWO_WORDS
      ensures At(LabelSection(t, CHANNELS, None), "", end, NOTED)
      ensures At(LabelSection(t, CHANNELS, Some(TWO_WORDS)), "", end, NOTED.(cutOffs := 1))
    {
      TwoWordsSection(t, Constraint(end));
      var w := WordSection(t, false);
      ThreeReserved(end, PairSection(w, None).strings);
      FourStored(end, PairSection(w, Some(TWO_WORDS)).strings);
    }
  }

  lemma {:induction false} TwoWordsDelimFree(file: string)
    requires Converted(file) == Tables(Some([]), Some([]), Some(TWO_WORDS))
    ensures NamesDelimFree(file)
  {
    hide Compiled;
  }

  /** Both passes read the whole file, and the second takes two bytes more than the first has counted. */
  lemma {:induction false} FileOverflows()
    ensures var file := File(NOTHING_ELSE, CLEARANCES_WITH_LONE);
            var k, c := Pass(file, COUNTING), Pass(file, Converted(file));
            && k.ok && k.lost == 0 && AllShort(k.words) && NamesDelimFree(file)
            && c.ok && LoneLines(file) == 1 && c.strings == k.strings + 2
  {
    hide Pass, Compiled, File, LoneLines, NamesDelimFree, CLEARANCES_WITH_LONE;
    var file := File(NOTHING_ELSE, CLEARANCES_WITH_LONE);
    ClearancesRead();
    FileRead(NOTHING_ELSE, CLEARANCES_WITH_LONE, TWO_WORDS, NOTED, NOTED.(cutOffs := 1));
    TwoWordsDelimFree(file);
    NamedExactly(file);
    ConversionFits(file, [], [], TWO_WORDS);
  }
}
