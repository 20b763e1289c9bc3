/** Lines written out, and what `next_keyword` of labelcomp.c makes of them. */
module LineText {
  import opened CTypes
  import opened Scanner

  // ---------------------------------------------------------------- lines and what the scanner makes of them

  /** A line in front of the rest of a file. */
  function Ln(line: string, rest: string): string {
    line + "\n" + rest
  }

  /** A line that is read as it stands. */
  predicate Shown(line: string) {
    Normal(line) && Plain(line) && 0 < |line| < MAX_LINE && line[0] != '*'
  }

  /** For example capitals, figures and signs, and single blanks between them. */
  predicate Tidy(line: string) {
    && 0 < |line| < MAX_LINE && line[0] != ' ' && line[0] != '*'
    && forall i | 0 <= i < |line| :: ' ' <= line[i] < 'a' && (line[i] == ' ' ==> 0 < i && line[i - 1] != ' ')
  }

  /** One of the first, third and fourth characters tells them apart, or the keyword is longer. */
  predicate Apart(keyword: string, line: string) {
    || |keyword| > |line|
    || (keyword != "" && keyword[0] != line[0])
    || (|keyword| > 2 && keyword[2] != line[2])
    || (|keyword| > 3 && keyword[3] != line[3])
  }

  lemma {:induction false} TidyIsShown(line: string)
    requires Tidy(line)
    ensures Shown(line)
  {
  }

  lemma {:induction false} LineRead(line: string, rest: string, kws: KeywordList)
    requires Shown(line)
    ensures Next(Scan("", Ln(line, rest)), kws) == Find(line, rest, kws, 0) == Next(Scan(line, rest), kws)
  {
    NormalLineReadsBack(line, rest);
  }

  lemma {:induction false} NoneFound(line: string, rest: string, kws: KeywordList, k: nat)
    requires line != "" && forall i | k <= i < |kws| :: Apart(kws[i], line)
    ensures Find(line, rest, kws, k) == Token(-1, "", Scan(line, rest))
    decreases |kws| - k
  {
    if k < |kws| {
      assert Apart(kws[k], line);
      NoneFound(line, rest, kws, k + 1);
    }
  }

  /** A line that begins with no keyword. */
  lemma {:induction false} Refused(line: string, rest: string, kws: KeywordList)
    requires Shown(line) && forall i | 0 <= i < |kws| :: Apart(kws[i], line)
    ensures Next(Scan("", Ln(line, rest)), kws) == Next(Scan(line, rest), kws) == Token(-1, "", Scan(line, rest))
  {
    assert line != "";
    hide Next, Find, Shown, Apart;
    LineRead(line, rest, kws);
    NoneFound(line, rest, kws, 0);
  }

  /** Keyword `k` with data that hold no semicolon. */
  ghost predicate Keyed(line: string, kws: KeywordList, k: nat, data: string) {
    && k < |kws| && line == kws[k] + data && ';' !in data
    && (data != "" ==> kws[k][|kws[k]| - 1] == '=' && data[0] != ' ')
  }

  lemma {:induction false} FoundAt(line: string, rest: string, kws: KeywordList, j: nat, k: nat, data: string)
    requires j <= k && Keyed(line, kws, k, data) && forall i | j <= i < k :: Apart(kws[i], line)
    ensures Find(line, rest, kws, j) == Token(k, data, Scan("", rest))
    decreases k - j
  {
    if j < k {
      assert Apart(kws[j], line);
      FoundAt(line, rest, kws, j + 1, k, data);
    } else {
      assert line[..|kws[k]|] == kws[k] && line[|kws[k]|..] == data;
      DataIs(data, |data|);
      assert data[..|data|] == data;
    }
  }

  /** A keyword, data without a semicolon, a semicolon and more: the data are taken, and scanning goes on behind the
      semicolon.  One blank in front of the keyword and one in front of the data are passed over. */
  lemma {:induction false} TakenToSemicolon(blank: string, gap: string, data: string, more: string, file: string,
                                            kws: KeywordList, k: nat)
    requires (blank == "" || blank == " ") && (gap == "" || gap == " ") && k < |kws| && kws[k][0] != ' '
    requires ';' !in data && (data != "" ==> kws[k][|kws[k]| - 1] == '=' && (gap == "" ==> data[0] != ' '))
    requires forall i | 0 <= i < k :: Apart(kws[i], kws[k] + gap + data + ";" + more)
    ensures Next(Scan(blank + (kws[k] + gap + data + ";" + more), file), kws) == Token(k, data, Scan(more, file))
  {
    hide Apart, Find;
    var line := kws[k] + gap + data + ";" + more;
    assert line[0] == kws[k][0] && SkipBlank(blank + line) == line;
    FoundToSemicolon(line, file, kws, 0, k, gap, data, more);
  }

  lemma {:induction false} FoundToSemicolon(line: string, file: string, kws: KeywordList, j: nat, k: nat, gap: string,
                                            data: string, more: string)
    requires (gap == "" || gap == " ") && j <= k < |kws| && line == kws[k] + gap + data + ";" + more
    requires ';' !in data && (data != "" ==> kws[k][|kws[k]| - 1] == '=' && (gap == "" ==> data[0] != ' '))
    requires forall i | j <= i < k :: Apart(kws[i], line)
    ensures Find(line, file, kws, j) == Token(k, data, Scan(more, file))
    decreases k - j
  {
    hide Take;
    if j < k {
      assert Apart(kws[j], line);
      FoundToSemicolon(line, file, kws, j + 1, k, gap, data, more);
    } else {
      assert line[..|kws[k]|] == kws[k];
      SemicolonEnds(line, file, kws, k, gap, data, more);
    }
  }

  lemma {:induction false} SemicolonEnds(line: string, file: string, kws: KeywordList, k: nat, gap: string,
                                         data: string, more: string)
    requires (gap == "" || gap == " ") && k < |kws| && line == kws[k] + gap + data + ";" + more
    requires StartsWith(kws[k], line)
    requires ';' !in data && (data != "" ==> kws[k][|kws[k]| - 1] == '=' && (gap == "" ==> data[0] != ' '))
    ensures Take(line, file, kws, k) == Token(k, data, Scan(more, file))
  {
    hide Data;
    var u := data + ";" + more;
    assert line[|kws[k]|..] == gap + u;
    assert u[..|data|] == data && u[|data|] == ';' && u[|data| + 1..] == more;
    assert u[0] == if data == "" then ';' else data[0];
    GapSkipped(gap, u);
    DataIs(u, |data|);
  }

  lemma {:induction false} GapSkipped(gap: string, u: string)
    requires gap == " " || (gap == "" && u != "" && u[0] != ' ')
    ensures SkipBlank(gap + u) == u
  {
    if gap == "" {
      assert gap + u == u;
    } else {
      assert (gap + u)[0] == ' ' && (gap + u)[1..] == u;
    }
  }

  /** A keyword that takes no data, with some behind it, is none; nor is any other looked for. */
  lemma {:induction false} DataRefused(line: string, file: string, kws: KeywordList, k: nat, data: string)
    requires k < |kws| && line == kws[k] + data && kws[k][|kws[k]| - 1] != '='
    requires SkipBlank(data) != "" && SkipBlank(data)[0] != ';'
    requires forall i | 0 <= i < k :: Apart(kws[i], line)
    ensures Find(line, file, kws, 0) == Token(-1, "", Scan(line, file))
  {
    RefusedFrom(line, file, kws, 0, k, data);
  }

  lemma {:induction false} RefusedFrom(line: string, file: string, kws: KeywordList, j: nat, k: nat, data: string)
    requires j <= k < |kws| && line == kws[k] + data && kws[k][|kws[k]| - 1] != '='
    requires SkipBlank(data) != "" && SkipBlank(data)[0] != ';'
    requires forall i | j <= i < k :: Apart(kws[i], line)
    ensures Find(line, file, kws, j) == Token(-1, "", Scan(line, file))
    decreases k - j
  {
    if j < k {
      assert Apart(kws[j], line);
      RefusedFrom(line, file, kws, j + 1, k, data);
    } else {
      assert line[..|kws[k]|] == kws[k] && line[|kws[k]|..] == data;
    }
  }

  lemma {:induction false} ShownTaken(line: string, rest: string, kws: KeywordList, k: nat, data: string)
    requires Shown(line) && Keyed(line, kws, k, data) && forall i | 0 <= i < k :: Apart(kws[i], line)
    ensures Next(Scan("", Ln(line, rest)), kws) == Next(Scan(line, rest), kws) == Token(k, data, Scan("", rest))
  {
    hide Next, Find, Shown, Apart, Keyed;
    LineRead(line, rest, kws);
    FoundAt(line, rest, kws, 0, k, data);
  }

  lemma {:induction false} Taken(line: string, rest: string, kws: KeywordList, k: nat, data: string)
    requires Tidy(line) && Keyed(line, kws, k, data) && forall i | 0 <= i < k :: Apart(kws[i], line)
    ensures Next(Scan("", Ln(line, rest)), kws) == Next(Scan(line, rest), kws) == Token(k, data, Scan("", rest))
  {
    hide Next, Find, Tidy, Shown, Apart, Keyed;
    TidyIsShown(line);
    ShownTaken(line, rest, kws, k, data);
  }

  /** A heading. */
  lemma {:induction false} HeadingTaken(line: Keyword, rest: string)
    requires Tidy(line)
    ensures Next(Scan("", Ln(line, rest)), [line]) == Next(Scan(line, rest), [line]) == Token(0, "", Scan("", rest))
  {
    hide Next, Tidy;
    assert line == line + "";
    Taken(line, rest, [line], 0, "");
  }
}
