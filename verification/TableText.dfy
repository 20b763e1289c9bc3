/** A table of words written out as a section of an encodings file, for any table; it is read back as it was. */
module TableText {
  import opened Options
  import opened Words
  import opened Scanner
  import opened Sizing
  import opened ConversionPass
  import opened LineText

  // ---------------------------------------------------------------- the text

  /** A name as a line can hold it: a semicolon would end it. */
  predicate FitsLine(name: string) {
    Normal(name) && Plain(name) && ';' !in name && |name| < MAX_LINE - 8
  }

  predicate GoesBy(w: Word, name: string) {
    name == w.outputName || Some(name) == w.shortName
  }

  /** `names[k]` calls entry `k` and no entry in front of it. */
  predicate Calls(words: seq<Word>, names: seq<string>, k: nat) {
    && k < |words| && k < |names| && FitsLine(names[k])
    && GoesBy(words[k], names[k]) && forall j | 0 <= j < k :: !GoesBy(words[j], names[k])
  }

  /** An affix that entry `i` can ask for. */
  predicate Writable(words: seq<Word>, names: seq<string>, i: nat, a: Affix) {
    a.Needs? ==> a.entry < i && Calls(words, names, a.entry)
  }

  /** A table that a file can hold, and the names by which its entries are called when they are required. */
  predicate CanBeWritten(words: seq<Word>, names: seq<string>) {
    forall i | 0 <= i < |words| ::
      && FitsLine(words[i].outputName) && (words[i].shortName.Some? ==> FitsLine(words[i].shortName.value))
      && Writable(words, names, i, words[i].prefix) && Writable(words, names, i, words[i].suffix)
  }

  function ShortText(short: Option<string>, rest: string): string {
    match short
    case None => rest
    case Some(name) => Ln("SNAME=" + name, rest)
  }

  function PrefixText(a: Affix, names: seq<string>, rest: string): string
    requires a.Needs? ==> a.entry < |names|
  {
    match a
    case NoAffix => rest
    case IsAffix => Ln("PREFIX", rest)
    case Needs(k) => Ln("PREFIX=" + names[k], rest)
  }

  function SuffixText(a: Affix, names: seq<string>, rest: string): string
    requires a.Needs? ==> a.entry < |names|
  {
    match a
    case NoAffix => rest
    case IsAffix => Ln("SUFFIX", rest)
    case Needs(k) => Ln("SUFFIX=" + names[k], rest)
  }

  /** Only a word that is itself no affix must have a bit string. */
  function BitsText(w: Word, rest: string): string {
    if w.prefix == IsAffix || w.suffix == IsAffix then rest else Ln("COMPARTMENTS=1", rest)
  }

  /** What stands behind the line with a word's name. */
  function BehindName(w: Word, names: seq<string>, rest: string): string
    requires w.prefix.Needs? ==> w.prefix.entry < |names|
    requires w.suffix.Needs? ==> w.suffix.entry < |names|
  {
    ShortText(w.shortName, PrefixText(w.prefix, names, SuffixText(w.suffix, names, BitsText(w, rest))))
  }

  /** The words from entry `i` on, the line `end` that ends the section, and the rest of the file. */
  function TableLines(words: seq<Word>, names: seq<string>, i: nat, end: string, rest: string): string
    requires CanBeWritten(words, names) && i <= |words|
    decreases |words| - i
  {
    if i == |words| then Ln(end, rest)
    else
      assert Writable(words, names, i, words[i].prefix) && Writable(words, names, i, words[i].suffix);
      Ln("NAME=" + words[i].outputName, BehindName(words[i], names, TableLines(words, names, i + 1, end, rest)))
  }

  /** The bytes that the strings of a short name take. */
  function ShortSpace(short: Option<string>): nat {
    if short.Some? then |short.value| + 1 else 0
  }

  /** Where the strings of the words from entry `i` on end if they begin at `z`: of each its name and a NUL, twice if
      it has a slash and is not for output only, a byte if the number is odd, two compartments and two markings, and
      the short name and a NUL. */
  function TableSpace(words: seq<Word>, i: nat, z: int, outputOnly: bool): int
    requires i <= |words|
    decreases |words| - i
  {
    if i == |words| then z
    else
      var name := |words[i].outputName| + 1;
      var y := z + name + (if '/' in words[i].outputName && !outputOnly then name else 0);
      var bits := 2 * (COMPARTMENTS_SIZE + MARKINGS_SIZE);
      TableSpace(words, i + 1, y + y % 2 + bits + ShortSpace(words[i].shortName), outputOnly)
  }

  // ---------------------------------------------------------------- lines are read

  /** Neither a word's name nor a keyword behind it. */
  predicate EndsTable(line: string) {
    Shown(line) && Apart("NAME=", line) && forall i | 0 <= i < |LABEL_KEYWORDS| :: Apart(LABEL_KEYWORDS[i], line)
  }

  lemma {:induction false} NameShown(keyword: string, name: string)
    requires FitsLine(name) && 0 < |keyword| <= 8 && keyword[|keyword| - 1] == '='
    requires forall i | 0 <= i < |keyword| :: ' ' < keyword[i] < 'a' && keyword[i] != '*'
    ensures Shown(keyword + name)
  {
    var t := keyword + name;
    forall i | 0 < i < |t| ensures t[i] == ' ' ==> t[i - 1] != ' ' {
      assert t[i] == if i < |keyword| then keyword[i] else name[i - |keyword|];
    }
  }

  /** A keyword with a name behind it. */
  lemma {:induction false} NameTaken(kws: KeywordList, k: nat, name: string, rest: string)
    requires FitsLine(name) && k < |kws| && |kws[k]| <= 8 && kws[k][|kws[k]| - 1] == '='
    requires forall i | 0 <= i < |kws[k]| :: ' ' < kws[k][i] < 'a' && kws[k][i] != '*'
    requires forall i | 0 <= i < k :: Apart(kws[i], kws[k] + name)
    ensures var line := kws[k] + name;
            Next(Scan("", Ln(line, rest)), kws) == Next(Scan(line, rest), kws) == Token(k, name, Scan("", rest))
  {
    hide Next, Shown, Apart;
    NameShown(kws[k], name);
    ShownTaken(kws[k] + name, rest, kws, k, name);
  }

  lemma {:induction false} NameRead(name: string, rest: string)
    requires FitsLine(name)
    ensures var line := "NAME=" + name;
            && Next(Scan("", Ln(line, rest)), NAME) == Next(Scan(line, rest), NAME) == Token(0, name, Scan("", rest))
            && Next(Scan("", Ln(line, rest)), LABEL_KEYWORDS) == Token(-1, "", Scan(line, rest))
  {
    hide Next, Shown, FitsLine;
    var line := "NAME=" + name;
    NameTaken(NAME, 0, name, rest);
    NameShown("NAME=", name);
    Refused(line, rest, LABEL_KEYWORDS);
  }

  lemma {:induction false} AttributesStop(line: string, rest: string)
    requires EndsTable(line)
    ensures Next(Scan("", Ln(line, rest)), NAME) == Next(Scan(line, rest), NAME) == Token(-1, "", Scan(line, rest))
    ensures Next(Scan("", Ln(line, rest)), LABEL_KEYWORDS) == Token(-1, "", Scan(line, rest))
  {
    hide Next, Apart;
    assert NAME[0] == "NAME=";
    Refused(line, rest, NAME);
    Refused(line, rest, LABEL_KEYWORDS);
  }

  lemma {:induction false} ShortTaken(name: string, rest: string)
    requires FitsLine(name)
    ensures Next(Scan("", Ln("SNAME=" + name, rest)), LABEL_KEYWORDS) == Token(0, name, Scan("", rest))
  {
    hide Next, FitsLine;
    NameTaken(LABEL_KEYWORDS, 0, name, rest);
  }

  lemma {:induction false} RequiredTaken(name: string, rest: string)
    requires FitsLine(name)
    ensures Next(Scan("", Ln("PREFIX=" + name, rest)), LABEL_KEYWORDS) == Token(6, name, Scan("", rest))
    ensures Next(Scan("", Ln("SUFFIX=" + name, rest)), LABEL_KEYWORDS) == Token(7, name, Scan("", rest))
  {
    hide Next, FitsLine;
    NameTaken(LABEL_KEYWORDS, 6, name, rest);
    NameTaken(LABEL_KEYWORDS, 7, name, rest);
  }

  lemma {:induction false} AffixTaken(rest: string)
    ensures Next(Scan("", Ln("PREFIX", rest)), LABEL_KEYWORDS) == Token(8, "", Scan("", rest))
    ensures Next(Scan("", Ln("SUFFIX", rest)), LABEL_KEYWORDS) == Token(9, "", Scan("", rest))
  {
    hide Next;
    assert "PREFIX" == "PREFIX" + "" && "SUFFIX" == "SUFFIX" + "";
    Taken("PREFIX", rest, LABEL_KEYWORDS, 8, "");
    Taken("SUFFIX", rest, LABEL_KEYWORDS, 9, "");
  }

  lemma {:induction false} BitsTaken(rest: string)
    ensures Next(Scan("", Ln("COMPARTMENTS=1", rest)), LABEL_KEYWORDS) == Token(4, "1", Scan("", rest))
  {
    hide Next;
    Taken("COMPARTMENTS=1", rest, LABEL_KEYWORDS, 4, "1");
  }

  // ---------------------------------------------------------------- one word

  /** The keywords behind a name go on from `s` to `s'`, make `w'` of `w`, and take `n` bytes of strings. */
  ghost predicate Leads(s: Scan, w: Word, s': Scan, w': Word, n: nat, table: seq<Word>) {
    && WithAttributes(s, table, w) == WithAttributes(s', table, w')
    && forall z: int :: Attributes(s, z) == Attributes(s', z + n)
  }

  lemma {:induction false} OneLeads(s: Scan, w: Word, table: seq<Word>)
    requires Next(s, LABEL_KEYWORDS).code >= 0
    ensures var r := Next(s, LABEL_KEYWORDS);
            Leads(s, w, r.next, WithAttribute(table, w, r), if r.code == 0 then |r.data| + 1 else 0, table)
  {
    hide Next, WithAttribute;
  }

  lemma {:induction false} NamedIs(table: seq<Word>, name: string, j: nat, k: nat)
    requires j <= k < |table| && GoesBy(table[k], name) && forall i | j <= i < k :: !GoesBy(table[i], name)
    ensures Named(table, name, j) == k
    decreases k - j
  {
    if j < k {
      NamedIs(table, name, j + 1, k);
    }
  }

  lemma {:induction false} AffixFound(words: seq<Word>, names: seq<string>, i: nat, a: Affix, otherwise: Affix)
    requires i <= |words| && a.Needs? && Writable(words, names, i, a)
    ensures Required(words[..i], names[a.entry], otherwise) == a
  {
    hide FitsLine;
    NamedIs(words[..i], names[a.entry], 0, a.entry);
  }

  lemma {:induction false} ShortLeads(w: Word, short: Option<string>, rest: string, table: seq<Word>)
    requires w.shortName == None && (short.Some? ==> FitsLine(short.value))
    ensures Leads(Scan("", ShortText(short, rest)), w, Scan("", rest), w.(shortName := short), ShortSpace(short), table)
  {
    hide Next, Ln, FitsLine;
    if short.Some? {
      ShortTaken(short.value, rest);
      OneLeads(Scan("", ShortText(short, rest)), w, table);
    }
  }

  lemma {:induction false} PrefixLeads(words: seq<Word>, names: seq<string>, i: nat, w: Word, a: Affix, rest: string)
    requires i <= |words| && w.prefix == NoAffix && Writable(words, names, i, a)
    ensures Leads(Scan("", PrefixText(a, names, rest)), w, Scan("", rest), w.(prefix := a), 0, words[..i])
  {
    hide Next, Ln, FitsLine, Required;
    AffixTaken(rest);
    if a.Needs? {
      RequiredTaken(names[a.entry], rest);
      AffixFound(words, names, i, a, NoAffix);
    }
    if a != NoAffix {
      OneLeads(Scan("", PrefixText(a, names, rest)), w, words[..i]);
    }
  }

  lemma {:induction false} SuffixLeads(words: seq<Word>, names: seq<string>, i: nat, w: Word, a: Affix, rest: string)
    requires i <= |words| && w.suffix == NoAffix && Writable(words, names, i, a)
    ensures Leads(Scan("", SuffixText(a, names, rest)), w, Scan("", rest), w.(suffix := a), 0, words[..i])
  {
    hide Next, Ln, FitsLine, Required;
    AffixTaken(rest);
    if a.Needs? {
      RequiredTaken(names[a.entry], rest);
      AffixFound(words, names, i, a, NoAffix);
    }
    if a != NoAffix {
      OneLeads(Scan("", SuffixText(a, names, rest)), w, words[..i]);
    }
  }

  lemma {:induction false} BitsLead(w: Word, v: Word, rest: string, table: seq<Word>)
    ensures Leads(Scan("", BitsText(w, rest)), v, Scan("", rest), v, 0, table)
  {
    hide Next, Ln;
    BitsTaken(rest);
    if BitsText(w, rest) != rest {
      OneLeads(Scan("", BitsText(w, rest)), v, table);
    }
  }

  /** The lines behind a name give the word its other attributes. */
  lemma {:induction false} WordRead(words: seq<Word>, names: seq<string>, i: nat, rest: string)
    requires CanBeWritten(words, names) && i < |words|
    ensures Writable(words, names, i, words[i].prefix) && Writable(words, names, i, words[i].suffix)
    ensures Leads(Scan("", BehindName(words[i], names, rest)), Word(words[i].outputName, None, NoAffix, NoAffix),
                  Scan("", rest), words[i], ShortSpace(words[i].shortName), words[..i])
  {
    hide Next, Ln, FitsLine, ShortText, PrefixText, SuffixText, BitsText, Attributes, WithAttributes;
    var w := words[i];
    assert Writable(words, names, i, w.prefix) && Writable(words, names, i, w.suffix);
    var t3 := BitsText(w, rest);
    var t2 := SuffixText(w.suffix, names, t3);
    var t1 := PrefixText(w.prefix, names, t2);
    var w0 := Word(w.outputName, None, NoAffix, NoAffix);
    var w1 := w0.(shortName := w.shortName);
    var w2 := w1.(prefix := w.prefix);
    ShortLeads(w0, w.shortName, t1, words[..i]);
    PrefixLeads(words, names, i, w1, w.prefix, t2);
    SuffixLeads(words, names, i, w2, w.suffix, t3);
    BitsLead(w, w, rest, words[..i]);
  }

  // ---------------------------------------------------------------- the table

  /** The line that comes next when the words in front of entry `i` have been read... */
  function Head(words: seq<Word>, i: nat, end: string): string
    requires i <= |words|
  {
    if i == |words| then end else "NAME=" + words[i].outputName
  }

  /** ...and what stands behind it. */
  function Tail(words: seq<Word>, names: seq<string>, i: nat, end: string, rest: string): string
    requires CanBeWritten(words, names) && i <= |words|
  {
    if i == |words| then rest
    else
      assert Writable(words, names, i, words[i].prefix) && Writable(words, names, i, words[i].suffix);
      BehindName(words[i], names, TableLines(words, names, i + 1, end, rest))
  }

  /** That line is not among the keywords behind a name. */
  lemma {:induction false} HeadStops(words: seq<Word>, names: seq<string>, i: nat, end: string, rest: string)
    requires CanBeWritten(words, names) && i <= |words| && EndsTable(end)
    ensures var line := Head(words, i, end);
            && TableLines(words, names, i, end, rest) == Ln(line, Tail(words, names, i, end, rest))
            && Next(Scan("", TableLines(words, names, i, end, rest)), LABEL_KEYWORDS)
               == Token(-1, "", Scan(line, Tail(words, names, i, end, rest)))
  {
    hide Next, Ln, FitsLine, BehindName, EndsTable;
    if i == |words| {
      AttributesStop(end, rest);
    } else {
      NameRead(words[i].outputName, Tail(words, names, i, end, rest));
    }
  }

  /** The words are about to be read from entry `i` on; the line may lie in the buffer already. */
  ghost predicate Before(s: Scan, words: seq<Word>, names: seq<string>, i: nat, end: string, rest: string) {
    && CanBeWritten(words, names) && i <= |words|
    && (s == Scan("", TableLines(words, names, i, end, rest))
        || s == Scan(Head(words, i, end), Tail(words, names, i, end, rest)))
  }

  /** The lines behind a name are read to the next line that has a name, or ends the table. */
  lemma {:induction false} EntryRead(words: seq<Word>, names: seq<string>, i: nat, end: string, rest: string, z: int)
    requires CanBeWritten(words, names) && i < |words| && EndsTable(end)
    ensures var s := Scan("", Tail(words, names, i, end, rest));
            var s' := Scan(Head(words, i + 1, end), Tail(words, names, i + 1, end, rest));
            && Attributes(s, z) == Sizing.Entries(s', z + ShortSpace(words[i].shortName), 0)
            && WithAttributes(s, words[..i], Word(words[i].outputName, None, NoAffix, NoAffix)) == words[i]
  {
    hide Next, BehindName, CanBeWritten, Head, EndsTable;
    WordRead(words, names, i, TableLines(words, names, i + 1, end, rest));
    HeadStops(words, names, i + 1, end, rest);
  }

  lemma {:induction false} HeadRead(s: Scan, words: seq<Word>, names: seq<string>, i: nat, end: string, rest: string)
    requires Before(s, words, names, i, end, rest) && EndsTable(end)
    ensures Next(s, NAME) == if i < |words|
                             then Token(0, words[i].outputName, Scan("", Tail(words, names, i, end, rest)))
                             else Token(-1, "", Scan(end, rest))
  {
    hide Next, Ln, FitsLine, BehindName, EndsTable;
    HeadStops(words, names, i, end, rest);
    if i == |words| {
      AttributesStop(end, rest);
    } else {
      NameRead(words[i].outputName, Tail(words, names, i, end, rest));
    }
  }

  lemma {:induction false} TableReadFrom(s: Scan, words: seq<Word>, names: seq<string>, i: nat, end: string,
                                         rest: string, z: int, outputOnly: bool)
    requires Before(s, words, names, i, end, rest) && EndsTable(end)
    ensures TableFrom(s, words[..i]) == words
    ensures WordList(s, z, outputOnly)
            == Sizing.Entries(Scan(end, rest), TableSpace(words, i, z, outputOnly), |words| - i)
    decreases |words| - i
  {
    hide Next, Attributes, WithAttributes, CanBeWritten, Head, Tail, TableLines, EndsTable;
    HeadRead(s, words, names, i, end, rest);
    if i == |words| {
      assert words[..i] == words;
    } else {
      var y := NameStored(words[i].outputName, z, outputOnly);
      var s1 := Scan("", Tail(words, names, i, end, rest));
      var s' := Scan(Head(words, i + 1, end), Tail(words, names, i + 1, end, rest));
      EntryRead(words, names, i, end, rest, 0);
      EntryRead(words, names, i, end, rest, y);
      assert words[..i] + [words[i]] == words[..i + 1];
      TableReadFrom(s', words, names, i + 1, end, rest, Attributes(s1, y).strings, outputOnly);
    }
  }

  /** A table written out as a section of words is read back as it was, and by both passes to its end; its strings take
      that many bytes. */
  lemma {:induction false} TableReadsBack(words: seq<Word>, names: seq<string>, end: string, rest: string, z: int,
                                          outputOnly: bool)
    requires CanBeWritten(words, names) && EndsTable(end)
    ensures var s := Scan("", TableLines(words, names, 0, end, rest));
            && TableFrom(s, []) == words
            && WordList(s, z, outputOnly)
               == Sizing.Entries(Scan(end, rest), TableSpace(words, 0, z, outputOnly), |words|)
  {
    hide Next, TableFrom, WordList, CanBeWritten, EndsTable;
    assert words[..0] == [];
    TableReadFrom(Scan("", TableLines(words, names, 0, end, rest)), words, names, 0, end, rest, z, outputOnly);
  }
}
