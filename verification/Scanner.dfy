/** `next_keyword` of labelcomp.c: read, normalise and take apart the lines of an encodings file. */
module Scanner {
  import opened CTypes

  const MAX_LINE := 256
  const LONG_LINE := "// Line longer than 256 characters //"

  /** Read as a signed character, this byte is taken for the end of the file. */
  const END_BYTE: char := 255 as char

  // ---------------------------------------------------------------- lines

  /** A line as it lies in the buffer and the file behind it. */
  datatype Line = Line(text: string, rest: string) | TooLong(rest: string) | EndOfFile(rest: string)

  function Upper(c: char): char {
    if 'a' <= c <= 'z' then (c as int - 32) as char else c
  }

  /** The buffer after one more character of the line: leading blanks are dropped, blanks and tabs made one
      blank, letters made capital. */
  function Keep(buffer: string, haveBlank: bool, c: char): string {
    if !IsBlank(c) then buffer + [Upper(c)] else if haveBlank then buffer else buffer + [' ']
  }

  /** The rest of a line of which `buffer` has been kept. */
  function ReadLine(file: string, haveBlank: bool, buffer: string): (l: Line)
    requires |buffer| <= MAX_LINE
    decreases |file|
  {
    if file == [] || file[0] == END_BYTE then
      var rest := if file == [] then [] else file[1..];
      if buffer == [] then EndOfFile(rest) else Line(CString(buffer, 0), rest)
    else if |buffer| == MAX_LINE then TooLong(file[1..])
    else if file[0] == '\n' then Line(CString(buffer, 0), file[1..])
    else ReadLine(file[1..], IsBlank(file[0]), Keep(buffer, haveBlank, file[0]))
  }

  lemma {:induction false} ReadLineShrinks(file: string, haveBlank: bool, buffer: string)
    requires |buffer| <= MAX_LINE
    ensures var l := ReadLine(file, haveBlank, buffer);
            && |l.rest| <= |file| && (file != [] ==> |l.rest| < |file|)
            && (l.Line? ==> |l.text| + |l.rest| <= |buffer| + |file|)
            && (l.TooLong? ==> MAX_LINE + |l.rest| < |buffer| + |file|)
            && (file == [] && buffer == [] ==> l.EndOfFile?)
    decreases |file|
  {
    CStringSpan(buffer, 0);
    if file != [] && file[0] != END_BYTE && |buffer| != MAX_LINE && file[0] != '\n' {
      ReadLineShrinks(file[1..], IsBlank(file[0]), Keep(buffer, haveBlank, file[0]));
    }
  }

  /** The reading loop alone: the buffer as it is when a line has ended, before a NUL is put behind it. */
  datatype Raw = Ended(buffer: string, rest: string) | Overlong(rest: string) | Exhausted(rest: string)

  function Fill(file: string, haveBlank: bool, buffer: string): (l: Raw)
    requires |buffer| <= MAX_LINE
    ensures l.Ended? ==> |l.buffer| <= MAX_LINE
    decreases |file|
  {
    if file == [] || file[0] == END_BYTE then
      var rest := if file == [] then [] else file[1..];
      if buffer == [] then Exhausted(rest) else Ended(buffer, rest)
    else if |buffer| == MAX_LINE then Overlong(file[1..])
    else if file[0] == '\n' then Ended(buffer, file[1..])
    else Fill(file[1..], IsBlank(file[0]), Keep(buffer, haveBlank, file[0]))
  }

  /** The line is what stands in the buffer up to the first NUL. */
  lemma {:induction false} FillIsReadLine(file: string, haveBlank: bool, buffer: string)
    requires |buffer| <= MAX_LINE
    ensures ReadLine(file, haveBlank, buffer) ==
            match Fill(file, haveBlank, buffer)
            case Ended(b, rest) => Line(CString(b, 0), rest)
            case Overlong(rest) => TooLong(rest)
            case Exhausted(rest) => EndOfFile(rest)
    decreases |file|
  {
    if file != [] && file[0] != END_BYTE && |buffer| != MAX_LINE && file[0] != '\n' {
      FillIsReadLine(file[1..], IsBlank(file[0]), Keep(buffer, haveBlank, file[0]));
    }
  }

  /** The next line that is neither empty nor a comment. */
  function NextLine(file: string): (l: Line)
    ensures l.Line? ==> l.text != []
    ensures l.Line? ==> |l.text| + |l.rest| <= |file|
    ensures l.TooLong? ==> |LONG_LINE| + |l.rest| < |file|
    ensures |l.rest| <= |file|
    decreases |file|
  {
    ReadLineShrinks(file, true, []);
    var l := ReadLine(file, true, []);
    if l.Line? && (l.text == [] || l.text[0] == '*') then
      if file == [] then EndOfFile([]) else NextLine(l.rest)
    else l
  }

  // ---------------------------------------------------------------- keywords

  /** What is left of the buffer at the scan pointer, and of the file. */
  datatype Scan = Scan(cur: string, file: string)

  function Left(s: Scan): nat {
    |s.cur| + |s.file|
  }

  /** The outcome of a search: which keyword, or -1, or -2 at the end of the file; the data behind it. */
  datatype Token = Token(code: int, data: string, next: Scan)

  /** The data up to a semicolon or the end of the line. */
  function Data(t: string): (d: string)
    ensures |d| <= |t| && t[..|d|] == d && (|d| == |t| || t[|d|] == ';') && ';' !in d
  {
    if t == [] || t[0] == ';' then [] else [t[0]] + Data(t[1..])
  }

  type Keyword = k: string | k != [] witness "="

  /** A table of keywords. */
  type KeywordList = seq<Keyword>

  /** The token that keyword `k` makes of the text; none if data follows a keyword that takes no data. */
  function Take(t: string, file: string, kws: KeywordList, k: nat): (r: Token)
    requires k < |kws| && StartsWith(kws[k], t)
    ensures r.code == k || r.code == -1
    ensures r.code == -1 ==> r.next == Scan(t, file)
    ensures r.code == k ==> Left(r.next) < |t| + |file|
    ensures r.next.file == file
  {
    var u := SkipBlank(t[|kws[k]|..]);
    if kws[k][|kws[k]| - 1] != '=' && u != [] && u[0] != ';' then Token(-1, "", Scan(t, file))
    else
      var d := Data(u);
      Token(k, d, Scan(if |d| < |u| then u[|d| + 1..] else [], file))
  }

  /** The first of the keywords from `k` on that the text begins with decides. */
  function Find(t: string, file: string, kws: KeywordList, k: nat): (r: Token)
    ensures -1 <= r.code < |kws|
    ensures r.code == -1 ==> r.next == Scan(t, file)
    ensures r.code >= 0 ==> Left(r.next) < |t| + |file|
    ensures r.next.file == file
    decreases |kws| - k
  {
    if k >= |kws| then Token(-1, "", Scan(t, file))
    else if StartsWith(kws[k], t) then Take(t, file, kws, k)
    else Find(t, file, kws, k + 1)
  }

  /** The result of `next_keyword`. */
  function Next(s: Scan, kws: KeywordList): (r: Token)
    ensures -2 <= r.code < |kws|
    ensures r.code == -2 ==> r.next.cur == []
    ensures r.code == -1 ==> r.next.cur != [] && Left(r.next) <= Left(s)
    ensures r.code >= 0 ==> Left(r.next) < Left(s)
    ensures |r.next.file| <= |s.file|
  {
    var t := SkipBlank(s.cur);
    if t != [] then Find(t, s.file, kws, 0)
    else
      match NextLine(s.file)
      case EndOfFile(rest) => Token(-2, "", Scan("", rest))
      case TooLong(rest) => Token(-1, "", Scan(LONG_LINE, rest))
      case Line(text, rest) => Find(text, rest, kws, 0)
  }

  // ---------------------------------------------------------------- the routine

  /** The inner reading loop: one line into the buffer, and the place behind it, where its NUL is put. */
  method ReadIntoBuffer(file: string) returns (l: Line, nul: nat)
    ensures l == ReadLine(file, true, [])
    ensures Fill(file, true, []).Ended? ==> nul == |Fill(file, true, []).buffer|
  {
    FillIsReadLine(file, true, []);
    var rest, haveBlank, buffer := file, true, "";
    nul := 0;
    while rest != [] && rest[0] != END_BYTE
      invariant |buffer| <= MAX_LINE
      invariant Fill(file, true, []) == Fill(rest, haveBlank, buffer)
      decreases |rest|
    {
      var c := rest[0];
      if |buffer| == MAX_LINE {
        return TooLong(rest[1..]), nul;
      }
      if c == '\n' {
        return Line(CString(buffer, 0), rest[1..]), |buffer|;
      }
      if !haveBlank && IsBlank(c) {
        haveBlank := true;
        buffer := buffer + [' '];
      } else if !IsBlank(c) {
        haveBlank := false;
        buffer := buffer + [Upper(c)];
      }
      rest := rest[1..];
    }
    rest := if rest == [] then [] else rest[1..];
    if buffer == [] {
      return EndOfFile(rest), nul;
    }
    return Line(CString(buffer, 0), rest), |buffer|;
  }

  /** The outer reading loop: until a line is neither empty nor a comment. */
  method FillBuffer(file: string) returns (l: Line)
    ensures l == NextLine(file)
  {
    var rest := file;
    while true
      invariant NextLine(rest) == NextLine(file)
      decreases |rest|
    {
      ReadLineShrinks(rest, true, []);
      var nul;
      l, nul := ReadIntoBuffer(rest);
      if !l.Line? || (l.text != [] && l.text[0] != '*') {
        return;
      }
      rest := l.rest;
    }
  }

  /** `next_keyword`. */
  method NextKeyword(s: Scan, kws: KeywordList) returns (r: Token)
    ensures r == Next(s, kws)
  {
    var bp, file := SkipBlank(s.cur), s.file;
    if bp == [] {
      var l := FillBuffer(s.file);
      if l.TooLong? {
        return Token(-1, "", Scan(LONG_LINE, l.rest));
      }
      if l.EndOfFile? {
        return Token(-2, "", Scan("", l.rest));
      }
      bp, file := l.text, l.rest;
    }
    r := FindKeyword(bp, file, kws);
  }

  /** The search through the keywords. */
  method FindKeyword(bp: string, file: string, kws: KeywordList) returns (r: Token)
    ensures r == Find(bp, file, kws, 0)
  {
    hide Take;
    var i := 0;
    while i < |kws|
      invariant 0 <= i <= |kws|
      invariant Find(bp, file, kws, 0) == Find(bp, file, kws, i)
    {
      if StartsWith(kws[i], bp) {
        r := TakeKeyword(bp, file, kws, i);
        return;
      }
      i := i + 1;
    }
    return Token(-1, "", Scan(bp, file));
  }

  /** The body of the search for the keyword that was found. */
  method TakeKeyword(t: string, file: string, kws: KeywordList, k: nat) returns (r: Token)
    requires k < |kws| && StartsWith(kws[k], t)
    ensures r == Take(t, file, kws, k)
  {
    var bp := SkipBlank(t[|kws[k]|..]);
    if kws[k][|kws[k]| - 1] != '=' && bp != [] && bp[0] != ';' {
      return Token(-1, "", Scan(t, file));
    }
    var n := 0;
    while n < |bp| && bp[n] != ';'
      invariant 0 <= n <= |bp| && ';' !in bp[..n]
    {
      n := n + 1;
    }
    DataIs(bp, n);
    return Token(k, bp[..n], Scan(if n < |bp| then bp[n + 1..] else [], file));
  }

  /** The data end at the first semicolon. */
  lemma {:induction false} DataIs(t: string, n: nat)
    requires n <= |t| && ';' !in t[..n] && (n == |t| || t[n] == ';')
    ensures Data(t) == t[..n]
  {
    var d := Data(t);
    forall i | 0 <= i < n ensures t[i] != ';' { assert t[..n][i] in t[..n]; }
    forall i | 0 <= i < |d| ensures t[i] != ';' { assert d[i] in d; }
  }

  // ---------------------------------------------------------------- normal lines

  /** No tab and no small letter, no blank in front, no two blanks together. */
  predicate Normal(t: string) {
    && (forall i | 0 <= i < |t| :: t[i] != '\t' && !('a' <= t[i] <= 'z'))
    && (t != [] ==> t[0] != ' ')
    && (forall i | 0 < i < |t| :: t[i] == ' ' ==> t[i - 1] != ' ')
  }

  predicate EndsBlank(t: string) {
    t == [] || t[|t| - 1] == ' '
  }

  lemma {:induction false} KeepsNormal(buffer: string, haveBlank: bool, c: char)
    requires Normal(buffer) && haveBlank == EndsBlank(buffer)
    ensures var b := Keep(buffer, haveBlank, c); Normal(b) && IsBlank(c) == EndsBlank(b)
  {
  }

  lemma {:induction false} ReadLineNormal(file: string, haveBlank: bool, buffer: string)
    requires |buffer| <= MAX_LINE && Normal(buffer) && haveBlank == EndsBlank(buffer)
    ensures var l := ReadLine(file, haveBlank, buffer); l.Line? ==> Normal(l.text)
    decreases |file|
  {
    CStringSpan(buffer, 0);
    if file != [] && file[0] != END_BYTE && |buffer| != MAX_LINE && file[0] != '\n' {
      KeepsNormal(buffer, haveBlank, file[0]);
      ReadLineNormal(file[1..], IsBlank(file[0]), Keep(buffer, haveBlank, file[0]));
    }
  }

  /** Every line delivered is normal. */
  lemma {:induction false} NextLineNormal(file: string)
    ensures var l := NextLine(file); l.Line? ==> Normal(l.text)
    decreases |file|
  {
    ReadLineNormal(file, true, []);
    ReadLineShrinks(file, true, []);
    var l := ReadLine(file, true, []);
    if file != [] && l.Line? && (l.text == [] || l.text[0] == '*') {
      NextLineNormal(l.rest);
    }
  }

  /** The characters that a line can hold. */
  predicate Plain(t: string) {
    forall i | 0 <= i < |t| :: t[i] != '\n' && t[i] != NUL && t[i] != END_BYTE
  }

  lemma {:induction false} ReadNormal(buffer: string, t: string, rest: string)
    requires Normal(buffer + t) && Plain(buffer + t) && |buffer + t| < MAX_LINE
    ensures ReadLine(t + "\n" + rest, EndsBlank(buffer), buffer) == Line(buffer + t, rest)
    decreases |t|
  {
    hide Normal, Plain;
    var file := t + "\n" + rest;
    if t == [] {
      assert buffer + t == buffer && file[1..] == rest;
      PlainString(buffer);
    } else {
      var c := t[0];
      assert file[0] == c && file[1..] == t[1..] + "\n" + rest;
      KeptAsItIs(buffer, t);
      assert buffer + [c] + t[1..] == buffer + t;
      ReadNormal(buffer + [c], t[1..], rest);
    }
  }

  lemma {:induction false} PlainString(buffer: string)
    requires Plain(buffer)
    ensures CString(buffer, 0) == buffer
  {
    CStringIs(buffer, 0, buffer);
  }

  /** The next character of a normal line. */
  lemma {:induction false} KeptAsItIs(buffer: string, t: string)
    requires Normal(buffer + t) && Plain(buffer + t) && t != ""
    ensures Keep(buffer, EndsBlank(buffer), t[0]) == buffer + [t[0]] && IsBlank(t[0]) == EndsBlank(buffer + [t[0]])
    ensures t[0] != '\n' && t[0] != END_BYTE
  {
    assert t[0] == (buffer + t)[|buffer|];
    assert buffer != [] ==> buffer[|buffer| - 1] == (buffer + t)[|buffer| - 1];
    assert t[0] == ' ' ==> !EndsBlank(buffer);
  }

  /** Normalising is settled by one reading: a normal line that is neither empty nor a comment and shorter
      than the buffer is delivered as it stands. */
  lemma {:induction false} NormalLineReadsBack(t: string, rest: string)
    requires Normal(t) && Plain(t) && 0 < |t| < MAX_LINE && t[0] != '*'
    ensures NextLine(t + "\n" + rest) == Line(t, rest)
  {
    assert [] + t == t;
    ReadNormal([], t, rest);
  }

  // ---------------------------------------------------------------- lines as they are written

  /** The words of a line and what stands in front of each: no blanks and tabs, or some. */
  datatype Spaced = Spaced(gap: string, word: string)

  predicate IsGap(t: string) {
    forall i | 0 <= i < |t| :: t[i] == ' ' || t[i] == '\t'
  }

  predicate IsWord(t: string) {
    t != "" && Plain(t) && forall i | 0 <= i < |t| :: t[i] != ' ' && t[i] != '\t'
  }

  /** Only in front of the first word there may be no gap. */
  predicate AllSpaced(ws: seq<Spaced>) {
    forall i | 0 <= i < |ws| :: IsGap(ws[i].gap) && IsWord(ws[i].word) && (i > 0 ==> ws[i].gap != "")
  }

  /** The line as it is written. */
  function Written(ws: seq<Spaced>, last: string): string {
    if ws == [] then last else ws[0].gap + ws[0].word + Written(ws[1..], last)
  }

  /** A word in capital letters. */
  function Capitals(w: string): (r: string)
    ensures |r| == |w|
    ensures forall i | 0 <= i < |w| ::
              r[i] == if 'a' <= w[i] <= 'z' then (w[i] as int - 'a' as int + 'A' as int) as char else w[i]
  {
    if w == "" then "" else [Upper(w[0])] + Capitals(w[1..])
  }

  /** The line as it is kept: one blank behind each word, but none behind the last if nothing stands there. */
  function Joined(ws: seq<Spaced>, last: string): string {
    if ws == [] then ""
    else Capitals(ws[0].word) + (if |ws| > 1 || last != "" then " " else "") + Joined(ws[1..], last)
  }

  lemma {:induction false} GapRead(gap: string, file: string, haveBlank: bool, buffer: string)
    requires IsGap(gap) && |buffer| + (if haveBlank || gap == "" then 0 else 1) < MAX_LINE
    ensures ReadLine(gap + file, haveBlank, buffer)
            == ReadLine(file, haveBlank || gap != "", if haveBlank || gap == "" then buffer else buffer + " ")
    decreases |gap|
  {
    if gap == "" {
      assert gap + file == file;
    } else {
      assert (gap + file)[0] == gap[0] && (gap + file)[1..] == gap[1..] + file;
      if !haveBlank && |gap| > 1 {
        GapReadOn(gap[1..], file, buffer + " ");
      } else if |gap| > 1 {
        GapRead(gap[1..], file, true, buffer);
      } else {
        assert gap[1..] + file == file;
      }
    }
  }

  lemma {:induction false} GapReadOn(gap: string, file: string, buffer: string)
    requires IsGap(gap) && |buffer| < MAX_LINE
    ensures ReadLine(gap + file, true, buffer) == ReadLine(file, true, buffer)
    decreases |gap|
  {
    if gap == "" {
      assert gap + file == file;
    } else {
      assert (gap + file)[0] == gap[0] && (gap + file)[1..] == gap[1..] + file;
      GapReadOn(gap[1..], file, buffer);
    }
  }

  lemma {:induction false} WordRead(word: string, file: string, haveBlank: bool, buffer: string)
    requires IsWord(word) && |buffer + word| < MAX_LINE
    ensures ReadLine(word + file, haveBlank, buffer) == ReadLine(file, false, buffer + Capitals(word))
    decreases |word|
  {
    assert (word + file)[0] == word[0] && (word + file)[1..] == word[1..] + file;
    var b := buffer + [Upper(word[0])];
    assert b + Capitals(word[1..]) == buffer + Capitals(word);
    if |word| > 1 {
      WordRead(word[1..], file, false, b);
    } else {
      assert word[1..] + file == file && b == buffer + Capitals(word);
    }
  }

  /** What is kept, and a blank behind it unless it is the first. */
  function Blanked(buffer: string): string {
    if buffer == "" then "" else buffer + " "
  }

  lemma {:induction false} SpacedRead(w: Spaced, file: string, buffer: string)
    requires IsGap(w.gap) && IsWord(w.word) && (buffer != "" ==> w.gap != "")
    requires |Blanked(buffer) + w.word| < MAX_LINE
    ensures ReadLine(w.gap + w.word + file, buffer == "", buffer)
            == ReadLine(file, false, Blanked(buffer) + Capitals(w.word))
  {
    hide IsGap, IsWord, ReadLine;
    assert w.word != "" by { WordNotEmpty(w.word); }
    assert w.gap + w.word + file == w.gap + (w.word + file);
    GapRead(w.gap, w.word + file, buffer == "", buffer);
    WordRead(w.word, file, true, Blanked(buffer));
  }

  lemma {:induction false} WordNotEmpty(w: string)
    requires IsWord(w)
    ensures w != ""
  {
  }

  /** The line as it is kept behind what has been kept so far. */
  function Continued(buffer: string, ws: seq<Spaced>, last: string): string {
    (if ws == [] && last == "" then buffer else Blanked(buffer)) + Joined(ws, last)
  }

  lemma {:induction false} ContinuedStep(buffer: string, ws: seq<Spaced>, last: string)
    requires ws != [] && ws[0].word != ""
    ensures var b := Blanked(buffer) + Capitals(ws[0].word);
            Continued(b, ws[1..], last) == Continued(buffer, ws, last) && |b| <= |Continued(buffer, ws, last)|
  {
    var w, more := Capitals(ws[0].word), Joined(ws[1..], last);
    var b := Blanked(buffer) + w;
    var sep := if ws[1..] != [] || last != "" then " " else "";
    assert Continued(buffer, ws, last) == Blanked(buffer) + (w + sep + more) by {
      assert ws[1..] != [] <==> |ws| > 1;
    }
    hide Joined, Capitals;
    assert b != "";
    assert Continued(b, ws[1..], last) == b + sep + more by {
      assert b + "" == b;
    }
    WordsApart(Blanked(buffer), w, sep, more);
  }

  lemma {:induction false} WordsApart(b: string, w: string, sep: string, more: string)
    ensures b + w + sep + more == b + (w + sep + more)
  {
  }

  lemma {:induction false} WrittenRead(ws: seq<Spaced>, last: string, rest: string, buffer: string)
    requires AllSpaced(ws) && IsGap(last) && (ws != [] && buffer != "" ==> ws[0].gap != "")
    requires |Continued(buffer, ws, last)| < MAX_LINE
    ensures ReadLine(Written(ws, last) + ("\n" + rest), buffer == "", buffer)
            == Line(CString(Continued(buffer, ws, last), 0), rest)
    decreases |ws|
  {
    hide Joined, Continued, IsGap, IsWord, ReadLine;
    var end := "\n" + rest;
    if ws == [] {
      LastRead(last, rest, buffer);
    } else {
      var w, more := ws[0], Written(ws[1..], last) + end;
      var b := Blanked(buffer) + Capitals(w.word);
      WordNotEmpty(w.word);
      ContinuedStep(buffer, ws, last);
      assert Written(ws, last) + end == w.gap + w.word + more;
      SpacedRead(w, more, buffer);
      WrittenRead(ws[1..], last, rest, b);
    }
  }

  /** The end of a line. */
  lemma {:induction false} LastRead(last: string, rest: string, buffer: string)
    requires IsGap(last) && |Continued(buffer, [], last)| < MAX_LINE
    ensures ReadLine(last + ("\n" + rest), buffer == "", buffer) == Line(CString(Continued(buffer, [], last), 0), rest)
  {
    var end := "\n" + rest;
    assert end[0] == '\n' && end[1..] == rest;
    GapRead(last, end, buffer == "", buffer);
    assert Continued(buffer, [], last) == if last == "" then buffer else Blanked(buffer);
  }

  /** No line holds a NUL. */
  lemma {:induction false} JoinedPlain(ws: seq<Spaced>, last: string)
    requires AllSpaced(ws)
    ensures NUL !in Joined(ws, last)
    ensures ws != [] ==> Joined(ws, last) != "" && (Joined(ws, last)[0] == '*' <==> ws[0].word[0] == '*')
    decreases |ws|
  {
    if ws != [] {
      JoinedPlain(ws[1..], last);
      var w := ws[0].word;
      forall c | c in Capitals(w) ensures c != NUL {
        var i :| 0 <= i < |w| && Capitals(w)[i] == c;
      }
    }
  }

  /** Every line that fits in the buffer is delivered in capital letters, its words with one blank between each two;
      a line without words, and one whose first word begins with an asterisk, is passed over. */
  lemma {:induction false} LineDelivered(ws: seq<Spaced>, last: string, rest: string)
    requires AllSpaced(ws) && IsGap(last) && |Joined(ws, last)| < MAX_LINE
    ensures NextLine(Written(ws, last) + ("\n" + rest))
            == if ws == [] || ws[0].word[0] == '*' then NextLine(rest) else Line(Joined(ws, last), rest)
  {
    hide Joined, Written, AllSpaced, ReadLine;
    var file := Written(ws, last) + ("\n" + rest);
    var t := Joined(ws, last);
    assert file != "" && file[|file| - |rest|..] == rest;
    assert Continued("", ws, last) == t;
    WrittenRead(ws, last, rest, "");
    JoinedPlain(ws, last);
    CStringIs(t, 0, t);
    assert ws == [] ==> t == "" by { NothingJoined(last); }
  }

  lemma {:induction false} NothingJoined(last: string)
    ensures Joined([], last) == ""
  {
  }

  /** Only a last line without a newline can fill the buffer; the NUL behind it then falls outside. */
  lemma {:induction false} OnlyLastLineFills(file: string, haveBlank: bool, buffer: string)
    requires |buffer| <= MAX_LINE && END_BYTE !in file
    ensures var l := ReadLine(file, haveBlank, buffer); l.Line? && |l.text| == MAX_LINE ==> l.rest == []
    decreases |file|
  {
    CStringSpan(buffer, 0);
    if file != [] && |buffer| != MAX_LINE && file[0] != '\n' {
      assert file[0] in file;
      OnlyLastLineFills(file[1..], IsBlank(file[0]), Keep(buffer, haveBlank, file[0]));
    }
  }

  // ---------------------------------------------------------------- the place of the NUL

  /** Where a line ends: at a newline, at the byte taken for the end of the file, or at the end itself. */
  function LineEnd(file: string): (n: nat)
    ensures n <= |file| && (n < |file| ==> file[n] == '\n' || file[n] == END_BYTE)
  {
    if file == [] || file[0] == '\n' || file[0] == END_BYTE then 0 else 1 + LineEnd(file[1..])
  }

  /** The buffer after all characters of some text, whatever its size. */
  function Kept(t: string, haveBlank: bool, buffer: string): (b: string)
    ensures |b| >= |buffer|
    decreases |t|
  {
    if t == [] then buffer else Kept(t[1..], IsBlank(t[0]), Keep(buffer, haveBlank, t[0]))
  }

  /** The NUL falls behind the buffer when the line ends in this state. */
  predicate Outside(l: Raw) {
    l.Ended? && |l.buffer| == MAX_LINE
  }

  /** That happens exactly if the line is the last one, has no newline, and its last character is the 256th that is
      kept. */
  lemma {:induction false} OutsideIff(file: string, haveBlank: bool, buffer: string)
    requires |buffer| <= MAX_LINE
    ensures var n := LineEnd(file);
            Outside(Fill(file, haveBlank, buffer)) <==>
              && (n == |file| || file[n] == END_BYTE)
              && |Kept(file[..n], haveBlank, buffer)| == MAX_LINE
              && (n > 0 ==> |Kept(file[..n - 1], haveBlank, buffer)| < MAX_LINE)
    decreases |file|
  {
    var n := LineEnd(file);
    if n > 0 && |buffer| < MAX_LINE {
      var b := Keep(buffer, haveBlank, file[0]);
      OutsideIff(file[1..], IsBlank(file[0]), b);
      assert file[..n][1..] == file[1..][..n - 1];
      if n > 1 {
        assert file[..n - 1][1..] == file[1..][..n - 2];
      }
    }
  }

  /** Characters that are kept as they are. */
  predicate Glyphs(t: string) {
    forall i | 0 <= i < |t| :: ' ' < t[i] < 'a'
  }

  lemma {:induction false} GlyphsKept(t: string, haveBlank: bool, buffer: string)
    requires Glyphs(t) && |buffer + t| <= MAX_LINE && buffer + t != []
    ensures Fill(t, haveBlank, buffer) == Ended(buffer + t, [])
    decreases |t|
  {
    if t == [] {
      assert buffer + t == buffer;
    } else {
      assert buffer + [t[0]] + t[1..] == buffer + t;
      GlyphsKept(t[1..], false, buffer + [t[0]]);
    }
  }

  lemma {:induction false} GlyphsFill(t: string)
    requires Glyphs(t) && |t| == MAX_LINE && t[0] != '*'
    ensures Outside(Fill(t, true, [])) && NextLine(t) == Line(t, [])
  {
    assert [] + t == t;
    GlyphsKept(t, true, []);
    FillIsReadLine(t, true, []);
    CStringIs(t, 0, t);
  }

  /** A line of which more than 256 characters are kept is too long, and reading goes on behind the next one. */
  lemma {:induction false} LongLineEnds(t: string, c: char, rest: string)
    requires Glyphs(t) && |t| == MAX_LINE && c != END_BYTE
    ensures NextLine(t + [c] + rest) == TooLong(rest)
  {
    assert t + [c] + rest == t + ([c] + rest) && [] + t == t;
    GlyphsOverflow(t, c, rest, true, []);
  }

  lemma {:induction false} GlyphsOverflow(t: string, c: char, rest: string, haveBlank: bool, buffer: string)
    requires Glyphs(t) && |buffer + t| == MAX_LINE && c != END_BYTE
    ensures ReadLine(t + ([c] + rest), haveBlank, buffer) == TooLong(rest)
    decreases |t|
  {
    var file := t + ([c] + rest);
    if t == [] {
      assert file[0] == c && file[1..] == rest;
    } else {
      assert file[0] == t[0] && file[1..] == t[1..] + ([c] + rest);
      assert buffer + [t[0]] + t[1..] == buffer + t;
      GlyphsOverflow(t[1..], c, rest, false, buffer + [t[0]]);
    }
  }

  function Letters(n: nat): (t: string)
    ensures |t| == n && forall i | 0 <= i < n :: t[i] == 'A'
  {
    seq(n, _ => 'A')
  }

  /** A file of 256 capital letters is such a line, and it is delivered. */
  lemma {:induction false} FullBuffer()
    ensures var file := Letters(256);
            Outside(Fill(file, true, [])) && NextLine(file) == Line(file, [])
  {
    GlyphsFill(Letters(256));
  }
}
