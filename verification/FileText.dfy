/** Encodings files written out: how both passes of labelcomp.c read a file of which the tables of words, and
    what stands between the headings of the clearances and the channels, are left open. */
module FileText {
  import opened Options
  import opened Words
  import opened Scanner
  import opened Sizing
  import opened ConversionPass
  import opened LineText
  import opened TableText
  import opened ClassText
  import opened RangeText

  // ---------------------------------------------------------------- the file

  const IL := "INFORMATION LABELS:"
  const REQUIRED := "REQUIRED COMBINATIONS:"
  const CONSTRAINTS := "COMBINATION CONSTRAINTS:"
  const RANGE := "ACCREDITATION RANGE:"

  /** The version and the classifications. */
  function Opening(version: string, classes: seq<Class>, rest: string): string {
    Ln("VERSION=" + version, Ln("CLASSIFICATIONS:", ClassLines(classes, 0, IL, rest)))
  }

  /** A table of words that can be written, and the names by which its entries are called. */
  datatype List = List(words: seq<Word>, names: seq<string>)

  type Listing = l: List | CanBeWritten(l.words, l.names) witness List([], [])

  const NONE: Listing := List([], [])

  /** A section of words. */
  function WordLines(l: Listing, end: string, rest: string): string {
    Ln("WORDS:", TableLines(l.words, l.names, 0, end, rest))
  }

  /** Labels of these words, and without combinations. */
  function Labels(l: Listing, heading: string, rest: string): string {
    WordLines(l, REQUIRED, Ln(CONSTRAINTS, Ln(heading, rest)))
  }

  /** The channels and the banners. */
  function Output(channels: Listing, banners: Listing, rest: string): string {
    WordLines(channels, "PRINTER BANNERS:", WordLines(banners, RANGE, rest))
  }

  /** The accreditation range and the minima. */
  function Closing(ranges: seq<Range>): string
    requires AreRanges(ranges)
  {
    Ln("CLASSIFICATION=U", RangeLines(ranges, 0, Minima()))
  }

  function Minima(): string {
    Ln("MINIMUM SENSITIVITY LABEL=U", Ln("MINIMUM PROTECT AS CLASSIFICATION=U", ""))
  }

  /** All but the clearances. */
  datatype Parts =
    Parts(version: string, classes: seq<Class>, il: Listing, sl: Listing, channels: Listing, banners: Listing,
          ranges: seq<Range>)

  predicate CanBeFiled(o: Parts) {
    FitsLine(o.version) && AllCanBeListed(o.classes) && AreRanges(o.ranges)
  }

  type Others = o: Parts | CanBeFiled(o) witness ONE_CLASS

  const ONE_CLASS := Parts("V", [Class("U", "U", 0)], NONE, NONE, NONE, NONE, [Range(All, [])])

  /** One classification, and no words. */
  const NOTHING_ELSE: Others := ONE_CLASS

  /** What stands behind the heading of the channels. */
  function Ending(o: Others): string {
    Output(o.channels, o.banners, Closing(o.ranges))
  }

  /** A file of these tables, and of clearances from the heading of their words on. */
  function File(o: Others, clearances: string): string {
    Opening(o.version, o.classes, Labels(o.il, "SENSITIVITY LABELS:", Labels(o.sl, "CLEARANCES:", clearances)))
  }

  /** The headings of a section. */
  lemma {:induction false} HeadingsTidy()
    ensures Tidy("WORDS:") && Tidy(REQUIRED) && Tidy(CONSTRAINTS)
  {
    assert Tidy(REQUIRED) by { RequiredTidy(); }
  }

  lemma {:induction false} RequiredTidy()
    ensures Tidy(REQUIRED)
  {
  }

  lemma {:induction false} OutputTidy()
    ensures Tidy("PRINTER BANNERS:") && Tidy(RANGE)
  {
  }

  /** The headings behind the words of a section. */
  lemma {:induction false} EndsOfTables()
    ensures EndsTable(REQUIRED) && EndsTable("PRINTER BANNERS:") && EndsTable(RANGE)
  {
    hide Shown, Tidy;
    RequiredTidy();
    OutputTidy();
    TidyIsShown(REQUIRED);
    TidyIsShown("PRINTER BANNERS:");
    TidyIsShown(RANGE);
  }

  lemma {:induction false} MinimumTidy()
    ensures Tidy("MINIMUM SENSITIVITY LABEL=U")
  {
  }

  lemma {:induction false} ProtectTidy()
    ensures Tidy("MINIMUM PROTECT AS CLASSIFICATION=U")
  {
  }

  // ---------------------------------------------------------------- a pass over the file

  /** What a pass has noted: the numbers of words, of words lost in counting and of early ends. */
  datatype Noted = Noted(words: seq<nat>, lost: nat, cutOffs: nat)

  /** A pass has come, without an error, to `line` in the buffer and to `rest` of the file. */
  ghost predicate At(t: Tally, line: string, rest: string, n: Noted) {
    t.ok && t.s == Scan(line, rest) && n == Noted(t.words, t.lost, t.cutOffs)
  }

  /** One table of words more. */
  function More(n: Noted, words: nat): Noted {
    n.(words := n.words + [words])
  }

  lemma {:induction false} InformationHeading(rest: string)
    ensures EndsClasses(IL) && Next(Scan(IL, rest), INFORMATION_LABELS) == Token(0, "", Scan("", rest))
  {
    hide Next, Ln, Shown;
    TidyIsShown(IL);
    HeadingTaken(IL, rest);
  }

  lemma {:induction false} FirstLines(version: string, rest: string)
    requires FitsLine(version)
    ensures Next(Scan("", Ln("VERSION=" + version, rest)), VERSION) == Token(0, version, Scan("", rest))
    ensures Next(Scan("", Ln("CLASSIFICATIONS:", rest)), CLASSIFICATIONS) == Token(0, "", Scan("", rest))
  {
    hide Next, Ln, FitsLine;
    NameTaken(VERSION, 0, version, rest);
    HeadingTaken("CLASSIFICATIONS:", rest);
  }

  /** The bytes of strings in front of the words: six compartments and four markings, the version and a NUL, and the
      classifications. */
  function OpeningSpace(version: string, cs: seq<Class>): int {
    ClassSpace(cs, 0, 6 * COMPARTMENTS_SIZE + 4 * MARKINGS_SIZE + |version| + 1)
  }

  /** The classifications are read to the heading behind them; of their values the greatest, and one more, and of
      their names the longest are found. */
  lemma {:induction false} OpeningRead(version: string, cs: seq<Class>, rest: string)
    requires FitsLine(version) && AllCanBeListed(cs)
    ensures var t := FirstPart(Opening(version, cs, rest));
            && At(t, "", rest, Noted([], 0, 0))
            && t.classes > 0 && GreatestValue(t.classes - 1, cs) && LongestName(t.longest, cs)
            && t.strings == OpeningSpace(version, cs) && t.combos == 0
  {
    hide Next, Ln, ClassList, AllCanBeListed, EndsClasses, GreatestValue, LongestName, ClassLines, FitsLine;
    var r2 := ClassLines(cs, 0, IL, rest);
    FirstLines(version, Ln("CLASSIFICATIONS:", r2));
    FirstLines(version, r2);
    InformationHeading(rest);
    var h := Heading(VersionSection(Start(Opening(version, cs, rest))), CLASSIFICATIONS);
    assert At(h, "", r2, Noted([], 0, 0));
    ClassesReadBack(cs, IL, rest, h.strings);
  }

  /** A section of words is read to the heading behind it, and into its table. */
  lemma {:induction false} SectionRead(t: Tally, l: Listing, end: string, rest: string, n: Noted, outputOnly: bool)
    requires EndsTable(end) && At(t, "", WordLines(l, end, rest), n)
    ensures At(WordSection(t, outputOnly), end, rest, More(n, |l.words|)) && TableAt(t) == l.words
    ensures var u := WordSection(t, outputOnly);
            u.strings == TableSpace(l.words, 0, t.strings, outputOnly) && u.combos == t.combos
  {
    hide Next, Ln, WordList, TableFrom, Tidy, TableLines, CanBeWritten, EndsTable;
    HeadingsTidy();
    HeadingTaken("WORDS:", TableLines(l.words, l.names, 0, end, rest));
    var h := Heading(t, WORDS);
    TableReadsBack(l.words, l.names, end, rest, h.strings, outputOnly);
  }

  /** Lines that are required combinations: of two words each, if there is a table in which to look for them. */
  predicate AllPairs(lines: seq<string>, table: Option<seq<Word>>) {
    forall i | 0 <= i < |lines| ::
      Shown(lines[i]) && Apart(CONSTRAINTS, lines[i]) && (table.Some? ==> IsPair(table.value, lines[i]))
  }

  function PairLines(lines: seq<string>, rest: string): string {
    if lines == [] then Ln(CONSTRAINTS, rest) else Ln(lines[0], PairLines(lines[1..], rest))
  }

  /** As many combinations as there are lines are counted, and converted. */
  lemma {:induction false} PairsRead(lines: seq<string>, rest: string, table: Option<seq<Word>>)
    requires AllPairs(lines, table)
    ensures PairList(Scan("", PairLines(lines, rest)), table) == Pairs(true, 0, Scan("", rest), |lines|)
    decreases |lines|
  {
    hide Next, Ln, Tidy, Shown, Apart, IsPair;
    if lines == [] {
      HeadingsTidy();
      HeadingTaken(CONSTRAINTS, rest);
    } else {
      Refused(lines[0], PairLines(lines[1..], rest), COMBINATION_CONSTRAINTS);
      PairsRead(lines[1..], rest, table);
    }
  }

  /** The section of the required combinations, and the bytes that it takes with its end mark. */
  lemma {:induction false} PairSectionRead(t: Tally, lines: seq<string>, rest: string, n: Noted,
                                           table: Option<seq<Word>>)
    requires At(t, REQUIRED, PairLines(lines, rest), n) && AllPairs(lines, table)
    ensures At(PairSection(t, table), "", rest, n)
    ensures PairSection(t, table).combos == t.combos + 4 * |lines| + 4 && PairSection(t, table).strings == t.strings
  {
    hide Next, Ln, Tidy, AllPairs, PairLines;
    HeadingsTidy();
    HeadingTaken(REQUIRED, PairLines(lines, rest));
    PairsRead(lines, rest, table);
  }

  /** No combinations are required. */
  lemma {:induction false} NonePairedRead(t: Tally, rest: string, n: Noted, table: Option<seq<Word>>)
    requires At(t, REQUIRED, Ln(CONSTRAINTS, rest), n)
    ensures At(PairSection(t, table), "", rest, n)
    ensures PairSection(t, table).combos == t.combos + 4 && PairSection(t, table).strings == t.strings
  {
    hide PairSection, At;
    assert PairLines([], rest) == Ln(CONSTRAINTS, rest);
    PairSectionRead(t, [], rest, n, table);
  }

  /** There are no constraints. */
  lemma {:induction false} NoConstraintsRead(t: Tally, heading: Keyword, rest: string, n: Noted,
                                             table: Option<seq<Word>>)
    requires Tidy(heading) && At(t, "", Ln(heading, rest), n)
    ensures At(ConstraintSection(t, [heading], table), "", rest, n)
    ensures var u := ConstraintSection(t, [heading], table); u.combos == t.combos + 32 && u.strings == t.strings
  {
    hide Next, Ln, Tidy;
    HeadingTaken(heading, rest);
  }

  lemma {:induction false} LabelsRead(t: Tally, l: Listing, heading: Keyword, rest: string, n: Noted,
                                      table: Option<seq<Word>>)
    requires Tidy(heading) && At(t, "", Labels(l, heading, rest), n)
    ensures At(LabelSection(t, [heading], table), "", rest, More(n, |l.words|)) && TableAt(t) == l.words
    ensures var u := LabelSection(t, [heading], table);
            u.strings == TableSpace(l.words, 0, t.strings, false) && u.combos == t.combos + 36
  {
    hide Next, Ln, WordLines, WordSection, PairSection, ConstraintSection, TableAt, Tidy, EndsTable, At;
    var r1 := Ln(heading, rest);
    EndsOfTables();
    SectionRead(t, l, REQUIRED, Ln(CONSTRAINTS, r1), n, false);
    NonePairedRead(WordSection(t, false), r1, More(n, |l.words|), table);
    NoConstraintsRead(PairSection(WordSection(t, false), table), heading, rest, More(n, |l.words|), table);
  }

  // ---------------------------------------------------------------- the rest of the file

  lemma {:induction false} BannersHeading(rest: string)
    ensures Next(Scan("PRINTER BANNERS:", rest), PRINTER_BANNERS) == Token(0, "", Scan("", rest))
  {
    hide Next, Tidy;
    OutputTidy();
    HeadingTaken("PRINTER BANNERS:", rest);
  }

  function OutputSpace(channels: Listing, banners: Listing, z: int): int {
    TableSpace(banners.words, 0, TableSpace(channels.words, 0, z, true), true)
  }

  lemma {:induction false} OutputRead(t: Tally, channels: Listing, banners: Listing, rest: string, n: Noted)
    requires At(t, "", Output(channels, banners, rest), n)
    ensures At(OutputPart(t), RANGE, rest, More(More(n, |channels.words|), |banners.words|))
    ensures OutputPart(t).strings == OutputSpace(channels, banners, t.strings) && OutputPart(t).combos == t.combos
    ensures TableAt(t) == channels.words
    ensures TableAt(Heading(WordSection(t, true), PRINTER_BANNERS)) == banners.words
  {
    hide Next, WordLines, WordSection, TableAt, EndsTable;
    var last := WordLines(banners, RANGE, rest);
    EndsOfTables();
    BannersHeading(last);
    SectionRead(t, channels, "PRINTER BANNERS:", last, n, true);
    SectionRead(Heading(WordSection(t, true), PRINTER_BANNERS), banners, RANGE, rest, More(n, |channels.words|), true);
  }

  lemma {:induction false} RangeHeading(rest: string)
    ensures Next(Scan(RANGE, rest), ACCREDITATION_RANGE) == Token(0, "", Scan("", rest))
  {
    hide Next, Ln, Tidy;
    OutputTidy();
    HeadingTaken(RANGE, rest);
  }

  lemma {:induction false} SensitivityLine(rest: string)
    ensures Next(Scan("", Ln("MINIMUM SENSITIVITY LABEL=U", rest)), MIN_SENSITIVITY_LABEL)
            == Token(0, "U", Scan("", rest))
  {
    hide Next, Ln, Tidy;
    MinimumTidy();
    Taken("MINIMUM SENSITIVITY LABEL=U", rest, MIN_SENSITIVITY_LABEL, 0, "U");
  }

  lemma {:induction false} ProtectLine(rest: string)
    ensures Next(Scan("", Ln("MINIMUM PROTECT AS CLASSIFICATION=U", rest)), MIN_PROTECT_AS)
            == Token(0, "U", Scan("", rest))
  {
    hide Next, Ln, Tidy;
    ProtectTidy();
    Taken("MINIMUM PROTECT AS CLASSIFICATION=U", rest, MIN_PROTECT_AS, 0, "U");
  }

  /** Behind the strings there is a byte if their number is odd, and the compartments of every label listed. */
  function RangeSpace(ranges: seq<Range>, z: int): int {
    z + z % 2 + LabelSpace(ranges)
  }

  lemma {:induction false} RangesBegin(t: Tally, ranges: seq<Range>)
    requires AreRanges(ranges) && t.ok && t.s == Scan(RANGE, Closing(ranges))
    ensures ranges != []
    ensures Heading(t, ACCREDITATION_RANGE) == t.(s := Scan("", Closing(ranges)))
    ensures var u := t.(s := Scan("", Closing(ranges)), strings := Align(t.strings));
            Heading(u, CLASSIFICATION) == u.(s := Scan("", RangeLines(ranges, 0, Minima())))
  {
    RangesThere(ranges);
    hide Next, Ln, Minima, RangeLines, AreRanges, RANGE;
    RangeHeading(Closing(ranges));
    ClassificationTaken(RangeLines(ranges, 0, Minima()));
  }

  lemma {:induction false} RangesRead(t: Tally, ranges: seq<Range>, n: Noted)
    requires AreRanges(ranges) && At(t, RANGE, Closing(ranges), n)
    ensures At(RangeSection(t), "", Minima(), n)
    ensures RangeSection(t).strings == RangeSpace(ranges, t.strings) && RangeSection(t).combos == t.combos
  {
    RangesBegin(t, ranges);
    hide Heading, Closing, Minima, RangeLines, AreRanges, LabelSpace, RangeList, RANGE;
    RangesReadBack(ranges, Minima(), Align(t.strings));
  }

  lemma {:induction false} LastRead(t: Tally, n: Noted)
    requires At(t, "", Minima(), n)
    ensures At(LastSection(t), "", "", n) && LastSection(t).strings == t.strings && LastSection(t).combos == t.combos
  {
    hide Next, Ln;
    SensitivityLine(Ln("MINIMUM PROTECT AS CLASSIFICATION=U", ""));
    ProtectLine("");
  }

  /** Any pass behind the clearances. */
  lemma {:induction false} EndRead(t: Tally, o: Others, n: Noted)
    requires At(t, "", Ending(o), n)
    ensures At(LastSection(RangeSection(OutputPart(t))), "", "", AtEnd(o, n))
    ensures var u := LastSection(RangeSection(OutputPart(t)));
            u.strings == RangeSpace(o.ranges, OutputSpace(o.channels, o.banners, t.strings)) && u.combos == t.combos
    ensures TableAt(t) == o.channels.words
    ensures TableAt(Heading(WordSection(t, true), PRINTER_BANNERS)) == o.banners.words
  {
    hide OutputPart, RangeSection, LastSection, Output, Closing, Minima, At, TableAt, WordSection, RangeSpace,
         OutputSpace, AreRanges, AllCanBeListed;
    OutputRead(t, o.channels, o.banners, Closing(o.ranges), n);
    RangesRead(OutputPart(t), o.ranges, AtEnd(o, n));
    LastRead(RangeSection(OutputPart(t)), AtEnd(o, n));
  }

  function BeforeClearances(o: Others): Noted {
    Noted([|o.il.words|, |o.sl.words|], 0, 0)
  }

  /** What is noted at the end of the file when this was noted behind the clearances. */
  function AtEnd(o: Others, n: Noted): Noted {
    More(More(n, |o.channels.words|), |o.banners.words|)
  }

  lemma {:induction false} LabelHeadingsTidy()
    ensures Tidy("SENSITIVITY LABELS:") && Tidy("CLEARANCES:")
  {
  }

  function BeginningSpace(o: Others): int {
    TableSpace(o.sl.words, 0, TableSpace(o.il.words, 0, OpeningSpace(o.version, o.classes), false), false)
  }

  /** Both passes up to the clearances. */
  lemma {:induction false} BeginningRead(o: Others, clearances: string, il: Option<seq<Word>>, sl: Option<seq<Word>>)
    ensures var t0 := FirstPart(File(o, clearances));
            var t1 := LabelSection(t0, SENSITIVITY_LABELS, il);
            && At(LabelSection(t1, CLEARANCES, sl), "", clearances, BeforeClearances(o))
            && TableAt(t0) == o.il.words && TableAt(t1) == o.sl.words
            && t0.classes > 0 && GreatestValue(t0.classes - 1, o.classes) && LongestName(t0.longest, o.classes)
            && LabelSection(t1, CLEARANCES, sl).strings == BeginningSpace(o)
            && LabelSection(t1, CLEARANCES, sl).combos == 72
  {
    hide FirstPart, Opening, Labels, LabelSection, TableAt, Tidy, At, AllCanBeListed, AreRanges, GreatestValue,
         LongestName, FitsLine, OpeningSpace, TableSpace;
    LabelHeadingsTidy();
    var rest := Labels(o.sl, "CLEARANCES:", clearances);
    var t0 := FirstPart(File(o, clearances));
    var n := Noted([], 0, 0);
    OpeningRead(o.version, o.classes, Labels(o.il, "SENSITIVITY LABELS:", rest));
    LabelsRead(t0, o.il, "SENSITIVITY LABELS:", rest, n, il);
    LabelsRead(LabelSection(t0, SENSITIVITY_LABELS, il), o.sl, "CLEARANCES:", clearances, More(n, |o.il.words|), sl);
    assert More(More(n, |o.il.words|), |o.sl.words|) == BeforeClearances(o);
  }

  /** The clearances are read into this table, and with these notes by the count and by the conversion. */
  ghost predicate ReadAs(o: Others, clearances: string, table: seq<Word>, counted: Noted, converted: Noted) {
    forall t: Tally | At(t, "", clearances, BeforeClearances(o)) ::
      && TableAt(t) == table
      && At(LabelSection(t, CHANNELS, None), "", Ending(o), counted)
      && At(LabelSection(t, CHANNELS, Some(table)), "", Ending(o), converted)
  }

  /** Then the whole file is counted, and it is converted to its end. */
  lemma {:induction false} FileRead(o: Others, clearances: string, table: seq<Word>, counted: Noted, converted: Noted)
    requires ReadAs(o, clearances, table, counted, converted)
    ensures var file := File(o, clearances);
            && Converted(file) == Tables(Some(o.il.words), Some(o.sl.words), Some(table))
            && At(Pass(file, COUNTING), "", "", AtEnd(o, counted))
            && At(Pass(file, Converted(file)), "", "", AtEnd(o, converted))
  {
    hide FirstPart, Ending, LabelSection, OutputPart, RangeSection, LastSection, TableAt, File, At, AtEnd, Heading,
         CanBeFiled, BeginningSpace, RangeSpace, OutputSpace;
    var il, sl := Some(o.il.words), Some(o.sl.words);
    BeginningRead(o, clearances, None, None);
    BeginningRead(o, clearances, il, sl);
    var t0 := FirstPart(File(o, clearances));
    var k2 := LabelSection(LabelSection(t0, SENSITIVITY_LABELS, None), CLEARANCES, None);
    var c2 := LabelSection(LabelSection(t0, SENSITIVITY_LABELS, il), CLEARANCES, sl);
    EndRead(LabelSection(k2, CHANNELS, None), o, counted);
    EndRead(LabelSection(c2, CHANNELS, Some(table)), o, converted);
  }

  // ---------------------------------------------------------------- a file of five tables

  /** Clearances of these words, and without combinations. */
  function Clearances(o: Others, cl: Listing): string {
    Labels(cl, "CHANNELS:", Ending(o))
  }

  lemma {:induction false} ChannelsTidy()
    ensures Tidy("CHANNELS:")
  {
  }

  lemma {:induction false} ClearancesRead(o: Others, cl: Listing)
    ensures var n := More(BeforeClearances(o), |cl.words|); ReadAs(o, Clearances(o, cl), cl.words, n, n)
  {
    hide Labels, LabelSection, TableAt, Tidy, At, Ending;
    var n := More(BeforeClearances(o), |cl.words|);
    ChannelsTidy();
    forall t: Tally | At(t, "", Clearances(o, cl), BeforeClearances(o))
      ensures TableAt(t) == cl.words
      ensures At(LabelSection(t, CHANNELS, None), "", Ending(o), n)
      ensures At(LabelSection(t, CHANNELS, Some(cl.words)), "", Ending(o), n)
    {
      LabelsRead(t, cl, "CHANNELS:", Ending(o), BeforeClearances(o), None);
      LabelsRead(t, cl, "CHANNELS:", Ending(o), BeforeClearances(o), Some(cl.words));
    }
  }

  /** The bytes of strings of the whole file. */
  function FileSpace(o: Others, cl: Listing): int {
    RangeSpace(o.ranges, OutputSpace(o.channels, o.banners, TableSpace(cl.words, 0, BeginningSpace(o), false)))
  }

  /** A pass with any tables behind its clearances. */
  lemma {:induction false} PassEnds(o: Others, cl: Listing, tables: Tables)
    ensures var file := File(o, Clearances(o, cl));
            var t2 := LabelSection(LabelSection(FirstPart(file), SENSITIVITY_LABELS, tables.il), CLEARANCES, tables.sl);
            && TableAt(LabelSection(t2, CHANNELS, tables.cl)) == o.channels.words
            && TableAt(Heading(WordSection(LabelSection(t2, CHANNELS, tables.cl), true), PRINTER_BANNERS))
               == o.banners.words
            && Pass(file, tables).strings == FileSpace(o, cl) && Pass(file, tables).combos == 108
  {
    hide FirstPart, Labels, Ending, LabelSection, WordSection, TableAt, File, Tidy, At, AtEnd, Heading, CanBeFiled,
         BeginningSpace, RangeSpace, OutputSpace, OutputPart, RangeSection, LastSection;
    var file := File(o, Clearances(o, cl));
    var t2 := LabelSection(LabelSection(FirstPart(file), SENSITIVITY_LABELS, tables.il), CLEARANCES, tables.sl);
    BeginningRead(o, Clearances(o, cl), tables.il, tables.sl);
    ChannelsTidy();
    LabelsRead(t2, cl, "CHANNELS:", Ending(o), BeforeClearances(o), tables.cl);
    EndRead(LabelSection(t2, CHANNELS, tables.cl), o, More(BeforeClearances(o), |cl.words|));
  }

  lemma {:induction false} SectionKeepsClasses(t: Tally, section: KeywordList, table: Option<seq<Word>>)
    ensures LabelSection(t, section, table).classes == t.classes && LabelSection(t, section, table).longest == t.longest
  {
    hide Next, WordList, PairList, Reserve, Store;
  }

  lemma {:induction false} EndKeepsClasses(t: Tally)
    ensures var u := LastSection(RangeSection(OutputPart(t))); u.classes == t.classes && u.longest == t.longest
  {
    hide Next, WordList, RangeList;
  }

  /** What was found of the classifications stays as it is. */
  lemma {:induction false} ClassesKept(file: string, tables: Tables)
    ensures Pass(file, tables).classes == FirstPart(file).classes
    ensures Pass(file, tables).longest == FirstPart(file).longest
  {
    hide FirstPart, LabelSection, OutputPart, RangeSection, LastSection;
    var t0 := FirstPart(file);
    var t1 := LabelSection(t0, SENSITIVITY_LABELS, tables.il);
    var t2 := LabelSection(t1, CLEARANCES, tables.sl);
    SectionKeepsClasses(t0, SENSITIVITY_LABELS, tables.il);
    SectionKeepsClasses(t1, CLEARANCES, tables.sl);
    SectionKeepsClasses(t2, CHANNELS, tables.cl);
    EndKeepsClasses(LabelSection(t2, CHANNELS, tables.cl));
  }

  /** Any classifications, any five tables and any accreditation range that can be written: both passes read the file
      to its end without an error, the tables are compiled to what they were, of the classifications the greatest
      value, and one more, and the longest name are found, and both passes take the same bytes: those of the strings,
      one by one, and three end marks of combinations and of constraints. */
  lemma {:induction false} FileReadsBack(o: Others, cl: Listing)
    ensures var file := File(o, Clearances(o, cl));
            var k, c := Pass(file, COUNTING), Pass(file, Converted(file));
            && Compiled(file) == [o.il.words, o.sl.words, cl.words, o.channels.words, o.banners.words]
            && k.ok && c.ok && k.lost == c.cutOffs == 0
            && k.words == c.words
               == [|o.il.words|, |o.sl.words|, |cl.words|, |o.channels.words|, |o.banners.words|]
            && k.classes > 0 && GreatestValue(k.classes - 1, o.classes) && LongestName(k.longest, o.classes)
            && k.strings == c.strings == FileSpace(o, cl) && k.combos == c.combos == 3 * (4 + 32)
  {
    hide Pass, Compiled, File, Clearances, CanBeFiled, GreatestValue, LongestName, FirstPart, LabelSection, TableAt,
         FileSpace, BeginningSpace, Heading, WordSection;
    var n := More(BeforeClearances(o), |cl.words|);
    var file := File(o, Clearances(o, cl));
    ClearancesRead(o, cl);
    FileRead(o, Clearances(o, cl), cl.words, n, n);
    PassEnds(o, cl, COUNTING);
    PassEnds(o, cl, Converted(file));
    BeginningRead(o, Clearances(o, cl), None, None);
    ClassesKept(file, COUNTING);
    CompiledTables(o, cl);
  }

  lemma {:induction false} CompiledTables(o: Others, cl: Listing)
    ensures var file := File(o, Clearances(o, cl));
            Compiled(file) == [o.il.words, o.sl.words, cl.words, o.channels.words, o.banners.words]
  {
    hide File, Clearances, CanBeFiled, FirstPart, LabelSection, TableAt, FileSpace, BeginningSpace, Heading,
         WordSection, Pass;
    var n := More(BeforeClearances(o), |cl.words|);
    ClearancesRead(o, cl);
    FileRead(o, Clearances(o, cl), cl.words, n, n);
    PassEnds(o, cl, Tables(Some(o.il.words), Some(o.sl.words), Some(cl.words)));
  }
}
