/** How imake.c cleans what the preprocessor has written: `CleanCppOutput` with `ReadLine` and `isempty`. */
module CppOutput {
  import opened CTypes

  // ---------------------------------------------------------------- lines

  /** The text in front of the first newline or `@@`, and the text behind it. */
  datatype Split = Split(line: string, rest: string)

  predicate SoftEnd(s: string) {
    |s| >= 2 && s[0] == '@' && s[1] == '@'
  }

  function FirstLine(s: string): (r: Split)
    ensures |r.line| + |r.rest| <= |s| && (s != [] ==> |r.rest| < |s|)
    decreases |s|
  {
    if s == [] then Split("", "")
    else if SoftEnd(s) then Split("", s[2..])
    else if s[0] == '\n' then Split("", s[1..])
    else var r := FirstLine(s[1..]); r.(line := [s[0]] + r.line)
  }

  /** The lines of a text, as C strings. */
  function Lines(s: string): seq<string>
    decreases |s|
  {
    if s == [] then [] else [CString(FirstLine(s).line, 0)] + Lines(FirstLine(s).rest)
  }

  // ---------------------------------------------------------------- empty lines

  function Digits(s: string): (rest: string)
    ensures |rest| <= |s|
    decreases |s|
  {
    if s != [] && IsDigit(s[0]) then Digits(s[1..]) else s
  }

  function Skip(word: string, s: string): string {
    if StartsWith(word, s) then s[|word|..] else s
  }

  /** A marker that the preprocessor leaves: a number sign, perhaps the word line, a number and a quote. */
  predicate IsMarker(s: string) {
    && StartsWith("#", s)
    && var t := Skip("line ", Skip(" ", s[1..]));
    && t != [] && IsDigit(t[0])
    && StartsWith(" \"", Digits(t))
  }

  /** The line without the blanks at its end. */
  function Trim(s: string): (r: string)
    ensures |r| <= |s| && r == s[..|r|] && (r == [] || !IsBlank(r[|r| - 1]))
    decreases |s|
  {
    if s != [] && IsBlank(s[|s| - 1]) then Trim(s[..|s| - 1]) else s
  }

  predicate IsEmpty(s: string) {
    IsMarker(s) || Trim(s) == ""
  }

  /** Some lines cleaned, behind an empty one or not: of empty lines in a row one is kept. */
  function Clean(lines: seq<string>, blank: bool): seq<string> {
    if lines == [] then []
    else if IsEmpty(lines[0]) then (if blank then [] else [""]) + Clean(lines[1..], true)
    else [Trim(lines[0])] + Clean(lines[1..], false)
  }

  function Join(lines: seq<string>): string {
    if lines == [] then "" else lines[0] + "\n" + Join(lines[1..])
  }

  /** What is written behind the header. */
  function Cleaned(s: string): string {
    Join(Clean(Lines(s), false))
  }

  // ---------------------------------------------------------------- what is written is clean

  /** A line that is written as it stands. */
  predicate IsClean(line: string) {
    && (forall i | 0 <= i < |line| :: line[i] != '\n' && line[i] != NUL)
    && (forall i | 0 < i < |line| :: !(line[i - 1] == '@' && line[i] == '@'))
    && (line == "" || !IsBlank(line[|line| - 1]))
    && !IsMarker(line)
  }

  predicate AllClean(lines: seq<string>) {
    && (forall i | 0 <= i < |lines| :: IsClean(lines[i]))
    && (forall i | 0 < i < |lines| :: !(lines[i - 1] == "" && lines[i] == ""))
  }

  /** A line as `ReadLine` returns it: without newline, NUL or `@@`. */
  predicate IsLine(line: string) {
    && (forall i | 0 <= i < |line| :: line[i] != '\n' && line[i] != NUL)
    && (forall i | 0 < i < |line| :: !(line[i - 1] == '@' && line[i] == '@'))
  }

  lemma {:induction false} FirstLineHasNone(s: string)
    ensures var l := FirstLine(s).line;
            && (forall i | 0 <= i < |l| :: l[i] != '\n')
            && (forall i | 0 < i < |l| :: !(l[i - 1] == '@' && l[i] == '@'))
            && (l != [] ==> s != [] && l[0] == s[0])
    decreases |s|
  {
    if s != [] && !SoftEnd(s) && s[0] != '\n' {
      FirstLineHasNone(s[1..]);
      var l, m := FirstLine(s).line, FirstLine(s[1..]).line;
      assert l[1..] == m;
      forall i | 0 <= i < |l| ensures l[i] != '\n' {
        assert i > 0 ==> l[i] == m[i - 1];
      }
      forall i | 0 < i < |l| ensures !(l[i - 1] == '@' && l[i] == '@') {
        assert l[i] == m[i - 1] && (i > 1 ==> l[i - 1] == m[i - 2]);
      }
    }
  }

  lemma {:induction false} LinesAreLines(s: string)
    ensures forall l | l in Lines(s) :: IsLine(l)
    decreases |s|
  {
    if s != [] {
      var raw := FirstLine(s).line;
      FirstLineHasNone(s);
      CStringSpan(raw, 0);
      var l := CString(raw, 0);
      forall i | 0 <= i < |l| ensures l[i] == raw[i] && l[i] != NUL {
        assert l[i] in l;
      }
      LinesAreLines(FirstLine(s).rest);
    }
  }

  lemma {:induction false} DigitsExtend(s: string, e: string)
    requires Digits(s) != []
    ensures Digits(s + e) == Digits(s) + e
    decreases |s|
  {
    assert (s + e)[0] == s[0] && (s + e)[1..] == s[1..] + e;
    if IsDigit(s[0]) {
      DigitsExtend(s[1..], e);
    }
  }

  lemma {:induction false} StartsWithHead(word: string, s: string)
    requires word != []
    ensures StartsWith(word, s) ==> s != [] && s[0] == word[0]
    ensures |word| == 1 && s != [] && s[0] == word[0] ==> StartsWith(word, s)
  {
    if |word| == 1 && s != [] {
      assert s[..1] == [s[0]];
    }
  }

  lemma {:induction false} SkipExtends(word: string, s: string, e: string)
    requires s != [] && word != [] && (StartsWith(word, s) || s[0] != word[0])
    ensures Skip(word, s + e) == Skip(word, s) + e
  {
    assert (s + e)[0] == s[0];
    StartsWithHead(word, s + e);
    if StartsWith(word, s) {
      assert (s + e)[..|word|] == word && (s + e)[|word|..] == s[|word|..] + e;
    }
  }

  /** A marker stays one, whatever follows. */
  lemma {:induction false} MarkerExtends(s: string, e: string)
    requires IsMarker(s)
    ensures IsMarker(s + e)
  {
    assert s[..1] == "#" && (s + e)[..1] == "#" && (s + e)[1..] == s[1..] + e;
    var u := s[1..];
    var v := Skip(" ", u);
    var t := Skip("line ", v);
    StartsWithHead(" ", u);
    SkipExtends(" ", u, e);
    if !StartsWith("line ", v) {
      assert t == v;
    } else {
      assert v[..5][0] == 'l';
    }
    SkipExtends("line ", v, e);
    assert (t + e)[0] == t[0];
    DigitsExtend(t, e);
    assert (Digits(t) + e)[..2] == Digits(t)[..2];
  }

  lemma {:induction false} TrimIsClean(line: string)
    requires IsLine(line) && !IsMarker(line)
    ensures IsClean(Trim(line))
  {
    var t := Trim(line);
    assert t == line[..|t|] && (t == "" || !IsBlank(t[|t| - 1]));
    hide IsMarker, Trim;
    assert line == t + line[|t|..];
    if IsMarker(t) {
      MarkerExtends(t, line[|t|..]);
    }
    assert forall i | 0 <= i < |t| :: t[i] == line[i];
  }

  /** What is written has no newline, NUL or `@@` within a line, no blank at the end of one, no marker, and no
      two empty lines together. */
  lemma {:induction false} CleanIsClean(lines: seq<string>, blank: bool)
    requires forall l | l in lines :: IsLine(l)
    ensures AllClean(Clean(lines, blank)) && (blank && Clean(lines, blank) != [] ==> Clean(lines, blank)[0] != "")
  {
    hide IsMarker, IsClean, IsLine;
    if lines != [] {
      assert lines[0] in lines;
      if IsEmpty(lines[0]) {
        CleanIsClean(lines[1..], true);
        EmptyIsClean();
      } else {
        CleanIsClean(lines[1..], false);
        TrimIsClean(lines[0]);
      }
    }
  }

  lemma {:induction false} EmptyIsClean()
    ensures IsClean("")
  {
  }

  // ---------------------------------------------------------------- and stays as it is

  lemma {:induction false} FirstLineOf(line: string, rest: string)
    requires IsLine(line)
    ensures FirstLine(line + "\n" + rest) == Split(line, rest)
    decreases |line|
  {
    var s := line + "\n" + rest;
    if line == [] {
      assert s[0] == '\n' && s[1..] == rest;
    } else {
      assert s[0] == line[0] && s[1..] == line[1..] + "\n" + rest;
      assert s[1] == if |line| > 1 then line[1] else '\n';
      TailIsLine(line);
      FirstLineOf(line[1..], rest);
    }
  }

  lemma {:induction false} TailIsLine(line: string)
    requires IsLine(line) && line != []
    ensures IsLine(line[1..])
  {
    var t := line[1..];
    assert forall i | 0 <= i < |t| :: t[i] == line[i + 1];
  }

  lemma {:induction false} LinesOfJoin(lines: seq<string>)
    requires forall i | 0 <= i < |lines| :: IsLine(lines[i])
    ensures Lines(Join(lines)) == lines
    decreases |lines|
  {
    hide IsLine;
    if lines != [] {
      assert IsLine(lines[0]);
      FirstLineOf(lines[0], Join(lines[1..]));
      LineIsCString(lines[0]);
      LinesOfJoin(lines[1..]);
      assert [lines[0]] + lines[1..] == lines;
    }
  }

  lemma {:induction false} LineIsCString(line: string)
    requires IsLine(line)
    ensures CString(line, 0) == line
  {
    CStringIs(line, 0, line);
  }

  lemma {:induction false} TrimNothing(line: string)
    requires IsClean(line)
    ensures Trim(line) == line && (IsEmpty(line) <==> line == "")
  {
  }

  lemma {:induction false} CleanStays(lines: seq<string>, blank: bool)
    requires AllClean(lines) && (blank && lines != [] ==> lines[0] != "")
    ensures Clean(lines, blank) == lines
    decreases |lines|
  {
    hide IsClean, IsEmpty;
    if lines != [] {
      TrimNothing(lines[0]);
      assert |lines| > 1 ==> !(lines[0] == "" && lines[1] == "");
      CleanStays(lines[1..], lines[0] == "");
      assert [lines[0]] + lines[1..] == lines;
    }
  }

  /** Cleaning what has been cleaned changes nothing. */
  lemma {:induction false} CleaningIsIdempotent(s: string)
    ensures Cleaned(Cleaned(s)) == Cleaned(s) && AllClean(Lines(Cleaned(s)))
  {
    hide IsClean, IsLine, Clean, Lines, Join;
    var lines := Clean(Lines(s), false);
    LinesAreLines(s);
    CleanIsClean(Lines(s), false);
    forall i | 0 <= i < |lines| ensures IsLine(lines[i]) {
      CleanIsLine(lines[i]);
    }
    LinesOfJoin(lines);
    CleanStays(lines, false);
  }

  lemma {:induction false} CleanIsLine(line: string)
    requires IsClean(line)
    ensures IsLine(line)
  {
  }

  // ---------------------------------------------------------------- what the lines of a text are

  /** A line, and whether two at-signs or a newline end it. */
  datatype Piece = Piece(line: string, soft: bool)

  /** A line may hold neither end, nor an at-sign at its own end in front of two more. */
  predicate IsPiece(p: Piece) {
    IsLine(p.line) && (p.soft && p.line != "" ==> p.line[|p.line| - 1] != '@')
  }

  function TextOf(ps: seq<Piece>, last: string): string {
    if ps == [] then last else ps[0].line + (if ps[0].soft then "@@" else "\n") + TextOf(ps[1..], last)
  }

  function LinesOf(ps: seq<Piece>, last: string): seq<string> {
    if ps == [] then (if last == "" then [] else [last]) else [ps[0].line] + LinesOf(ps[1..], last)
  }

  lemma {:induction false} FirstPiece(line: string, rest: string)
    requires IsLine(line) && (line != "" ==> line[|line| - 1] != '@')
    ensures FirstLine(line + "@@" + rest) == Split(line, rest)
    decreases |line|
  {
    var s := line + "@@" + rest;
    if line == [] {
      assert s[0] == '@' && s[1] == '@' && s[2..] == rest;
    } else {
      assert s[0] == line[0] && s[1..] == line[1..] + "@@" + rest;
      assert s[1] == if |line| > 1 then line[1] else '@';
      TailIsLine(line);
      FirstPiece(line[1..], rest);
    }
  }

  lemma {:induction false} LastPiece(line: string)
    requires IsLine(line)
    ensures FirstLine(line) == Split(line, "")
    decreases |line|
  {
    if line != [] {
      TailIsLine(line);
      LastPiece(line[1..]);
    }
  }

  /** Of a text written in lines, whichever end each has, those are the lines: nothing behind an end is lost. */
  lemma {:induction false} LinesReadBack(ps: seq<Piece>, last: string)
    requires (forall i | 0 <= i < |ps| :: IsPiece(ps[i])) && IsLine(last)
    ensures Lines(TextOf(ps, last)) == LinesOf(ps, last)
    decreases |ps|
  {
    hide IsLine, FirstLine;
    if ps == [] {
      LastPiece(last);
      LineIsCString(last);
      assert Lines("") == [];
    } else {
      var line, rest := ps[0].line, TextOf(ps[1..], last);
      assert IsPiece(ps[0]);
      if ps[0].soft {
        FirstPiece(line, rest);
      } else {
        FirstLineOf(line, rest);
      }
      LineIsCString(line);
      LinesReadBack(ps[1..], last);
    }
  }

  // ---------------------------------------------------------------- what is left of them

  predicate AllBlanks(s: string) {
    forall i | 0 <= i < |s| :: s[i] == ' ' || s[i] == '\t'
  }

  predicate AllDigits(s: string) {
    forall i | 0 <= i < |s| :: '0' <= s[i] <= '9'
  }

  /** The blanks at the end of a line go, and no more. */
  lemma {:induction false} TrimIs(text: string, blanks: string)
    requires AllBlanks(blanks) && (text == "" || (text[|text| - 1] != ' ' && text[|text| - 1] != '\t'))
    ensures Trim(text + blanks) == text
    decreases |blanks|
  {
    var s := text + blanks;
    if blanks == "" {
      assert s == text;
    } else {
      assert s[..|s| - 1] == text + blanks[..|blanks| - 1] && s[|s| - 1] == blanks[|blanks| - 1];
      TrimIs(text, blanks[..|blanks| - 1]);
    }
  }

  lemma {:induction false} DigitsOf(n: string, rest: string)
    requires AllDigits(n) && (rest == "" || !('0' <= rest[0] <= '9'))
    ensures Digits(n + rest) == rest
    decreases |n|
  {
    if n == "" {
      assert n + rest == rest;
    } else {
      assert (n + rest)[0] == n[0] && (n + rest)[1..] == n[1..] + rest;
      DigitsOf(n[1..], rest);
    }
  }

  /** The digits in front of a text. */
  lemma {:induction false} DigitsSpan(s: string) returns (n: string)
    ensures s == n + Digits(s) && AllDigits(n) && (s != "" && IsDigit(s[0]) ==> n != "")
    decreases |s|
  {
    n := "";
    if s != [] && IsDigit(s[0]) {
      var more := DigitsSpan(s[1..]);
      n := [s[0]] + more;
    }
  }

  /** A marker as the preprocessor writes it: a number sign, perhaps a blank, perhaps the word line and a blank, a
      number, a blank and a quote. */
  ghost predicate Marks(s: string, gap: string, word: string, n: string, rest: string) {
    && (gap == "" || gap == " ") && (word == "" || word == "line ") && n != "" && AllDigits(n)
    && s == "#" + gap + word + n + " \"" + rest
  }

  lemma {:induction false} Skipped(word: string, s: string)
    requires word != ""
    ensures Skip(word, word + s) == s
    ensures s != "" && s[0] != word[0] ==> Skip(word, s) == s
  {
    assert (word + s)[..|word|] == word && (word + s)[|word|..] == s;
    StartsWithHead(word, s);
  }

  lemma {:induction false} Together(sign: string, gap: string, word: string, n: string, quote: string, rest: string)
    ensures sign + (gap + (word + (n + quote + rest))) == sign + gap + word + n + quote + rest
  {
    assert gap + (word + (n + quote + rest)) == gap + word + (n + quote + rest);
    assert sign + (gap + word + (n + quote + rest)) == sign + gap + word + (n + quote + rest);
  }

  lemma {:induction false} MarkerFrom(x: string, u: string, v: string, d: string)
    requires u == Skip(" ", x) && v == Skip("line ", u) && v != "" && IsDigit(v[0])
    requires d == Digits(v) && StartsWith(" \"", d)
    ensures IsMarker("#" + x)
  {
    hide Skip, Digits;
    assert ("#" + x)[..1] == "#" && ("#" + x)[1..] == x;
  }

  lemma {:induction false} GapSkipped(word: string, given: string, s: string)
    requires word != "" && s != "" && s[0] != word[0] && (given == "" || given == word)
    ensures Skip(word, given + s) == s
  {
    Skipped(word, s);
    assert given == "" ==> given + s == s;
  }

  lemma {:induction false} MarksIsMarker(s: string, gap: string, word: string, n: string, rest: string)
    requires Marks(s, gap, word, n, rest)
    ensures IsMarker(s)
  {
    var v := n + " \"" + rest;
    var u := word + v;
    Together("#", gap, word, n, " \"", rest);
    NumberRead(n, rest);
    hide Skip, Digits, AllDigits;
    assert u[0] == if word == "" then v[0] else 'l';
    GapSkipped("line ", word, v);
    GapSkipped(" ", gap, u);
    MarkerFrom(gap + u, u, v, " \"" + rest);
  }

  lemma {:induction false} NumberRead(n: string, rest: string)
    requires n != "" && AllDigits(n)
    ensures var v := n + " \"" + rest;
            v != "" && IsDigit(v[0]) && Digits(v) == " \"" + rest && StartsWith(" \"", " \"" + rest)
  {
    var quote := " \"" + rest;
    assert n + " \"" + rest == n + quote && (n + quote)[0] == n[0] && quote[..2] == " \"";
    DigitsOf(n, quote);
  }

  /** The number of a marker, the blank and the quote, and the rest. */
  lemma {:induction false} NumberOf(t: string) returns (n: string, rest: string)
    requires t != [] && IsDigit(t[0]) && StartsWith(" \"", Digits(t))
    ensures n != "" && AllDigits(n) && t == n + " \"" + rest
  {
    hide AllDigits;
    n := DigitsSpan(t);
    var d := Digits(t);
    rest := d[2..];
    assert d[..2] == " \"" && d == " \"" + rest;
    assert n + (" \"" + rest) == n + " \"" + rest;
  }

  lemma {:induction false} SkipParts(word: string, s: string)
    ensures s == (if StartsWith(word, s) then word else "") + Skip(word, s)
  {
  }

  lemma {:induction false} MarkerParts(s: string)
    requires IsMarker(s)
    ensures exists gap, word, n, rest :: Marks(s, gap, word, n, rest)
  {
    SignFirst(s);
    var u := s[1..];
    var v := Skip(" ", u);
    var n, rest := NumberOf(Skip("line ", v));
    hide Digits, Skip, StartsWith, AllDigits, IsMarker;
    SkipParts(" ", u);
    SkipParts("line ", v);
    var gap := if StartsWith(" ", u) then " " else "";
    var word := if StartsWith("line ", v) then "line " else "";
    Together("#", gap, word, n, " \"", rest);
    assert Marks(s, gap, word, n, rest);
  }

  lemma {:induction false} SignFirst(s: string)
    requires StartsWith("#", s)
    ensures s != "" && s == "#" + s[1..]
  {
    assert s[..1] == "#" && s == s[..1] + s[1..];
  }

  /** Exactly the lines of this form are markers. */
  lemma {:induction false} MarkerIff(s: string)
    ensures IsMarker(s) <==> exists gap, word, n, rest :: Marks(s, gap, word, n, rest)
  {
    hide IsMarker, Marks;
    if IsMarker(s) {
      MarkerParts(s);
    }
    forall gap, word, n, rest | Marks(s, gap, word, n, rest) ensures IsMarker(s) {
      MarksIsMarker(s, gap, word, n, rest);
    }
  }

  /** Some empty lines, and a line that is not: its text and the blanks at its end. */
  datatype Para = Para(empties: seq<string>, text: string, blanks: string)

  predicate AllEmpty(lines: seq<string>) {
    forall i | 0 <= i < |lines| :: AllBlanks(lines[i]) || IsMarker(lines[i])
  }

  predicate IsPara(p: Para) {
    && AllEmpty(p.empties) && AllBlanks(p.blanks) && !IsMarker(p.text + p.blanks)
    && p.text != "" && p.text[|p.text| - 1] != ' ' && p.text[|p.text| - 1] != '\t'
  }

  function ParaLines(ps: seq<Para>, last: seq<string>): seq<string> {
    if ps == [] then last else ps[0].empties + [ps[0].text + ps[0].blanks] + ParaLines(ps[1..], last)
  }

  /** Of the empty lines in a row one is left. */
  function One(empties: seq<string>): seq<string> {
    if empties == [] then [] else [""]
  }

  function ParaCleaned(ps: seq<Para>, last: seq<string>): seq<string> {
    if ps == [] then One(last) else One(ps[0].empties) + [ps[0].text] + ParaCleaned(ps[1..], last)
  }

  lemma {:induction false} EmptiesCleaned(empties: seq<string>, rest: seq<string>, blank: bool)
    requires AllEmpty(empties)
    ensures Clean(empties + rest, blank)
            == (if blank then [] else One(empties)) + Clean(rest, blank || empties != [])
    decreases |empties|
  {
    hide IsMarker;
    if empties == [] {
      assert empties + rest == rest;
    } else {
      assert (empties + rest)[0] == empties[0] && (empties + rest)[1..] == empties[1..] + rest;
      if AllBlanks(empties[0]) {
        TrimIs("", empties[0]);
        assert "" + empties[0] == empties[0];
      }
      EmptiesCleaned(empties[1..], rest, true);
    }
  }

  lemma {:induction false} ParaKept(p: Para, rest: seq<string>)
    requires IsPara(p)
    ensures Clean(p.empties + [p.text + p.blanks] + rest, false) == One(p.empties) + [p.text] + Clean(rest, false)
  {
    hide AllEmpty, IsMarker;
    var line := p.text + p.blanks;
    var more := [line] + rest;
    assert more[0] == line && more[1..] == rest;
    assert p.empties + [line] + rest == p.empties + more;
    EmptiesCleaned(p.empties, more, false);
    TrimIs(p.text, p.blanks);
    assert !IsEmpty(line);
    hide Clean;
    assert One(p.empties) + ([p.text] + Clean(rest, false)) == One(p.empties) + [p.text] + Clean(rest, false);
  }

  /** Every line that is not empty is kept without the blanks at its end, in order; of the empty lines in a row, those
      of blanks and the markers, one is kept wherever there are any. */
  lemma {:induction false} LinesKept(ps: seq<Para>, last: seq<string>)
    requires (forall i | 0 <= i < |ps| :: IsPara(ps[i])) && AllEmpty(last)
    ensures Clean(ParaLines(ps, last), false) == ParaCleaned(ps, last)
    decreases |ps|
  {
    hide Clean, AllEmpty, IsPara;
    if ps == [] {
      EmptiesCleaned(last, [], false);
      assert last + [] == last;
      assert Clean([], last != []) == [] by { NoLines(last != []); }
    } else {
      ParaKept(ps[0], ParaLines(ps[1..], last));
      LinesKept(ps[1..], last);
    }
  }

  lemma {:induction false} NoLines(blank: bool)
    ensures Clean([], blank) == []
  {
  }

  // ---------------------------------------------------------------- the routines

  /** `isempty`: whether a line counts as empty, and the line without the blanks at its end. */
  method TrimLine(line: string) returns (empty: bool, trimmed: string)
    ensures empty == IsEmpty(line) && (!empty ==> trimmed == Trim(line))
  {
    trimmed := line;
    if line != [] && line[0] == '#' {
      assert line[..1] == "#";
      var t := Skip("line ", Skip(" ", line[1..]));
      if t != [] && IsDigit(t[0]) {
        t := Digits(t);
        if StartsWith(" \"", t) {
          return true, line;
        }
      }
    }
    assert !IsMarker(line);
    var pend: nat := |line|;
    assert line[..|line|] == line;
    while pend > 0 && IsBlank(line[pend - 1])
      invariant pend <= |line| && Trim(line[..pend]) == Trim(line)
    {
      assert line[..pend][..pend - 1] == line[..pend - 1];
      pend := pend - 1;
    }
    trimmed := line[..pend];
    empty := trimmed == "";
  }

  /** The buffer that `ReadLine` walks through. */
  class Reader {
    const buf: string
    var pline: nat

    ghost predicate Valid()
      reads this
    {
      pline <= |buf|
    }

    constructor (buf: string)
      ensures Valid() && this.buf == buf && pline == 0
    {
      this.buf, pline := buf, 0;
    }

    /** `ReadLine`: whether there was a line, and the line. */
    method ReadLine() returns (more: bool, line: string)
      requires Valid()
      modifies this
      ensures Valid() && old(pline) <= pline && (more <==> old(pline) < pline)
      ensures more <==> Lines(buf[old(pline)..]) != []
      ensures more ==> Lines(buf[old(pline)..]) == [line] + Lines(buf[pline..])
    {
      hide FirstLine;
      var end, p1 := FindEnd(buf, pline);
      more := p1 > pline;
      line := CString(buf[pline..end], 0);
      pline := p1;
    }
  }

  /** The text so far, continued by what follows, makes up the first line. */
  ghost predicate SplitTo(s: string, done: string, tail: string) {
    FirstLine(s) == Split(done + FirstLine(tail).line, FirstLine(tail).rest)
  }

  /** The loop of `ReadLine`: where the line ends and where the next begins. */
  method FindEnd(buf: string, pline: nat) returns (end: nat, p1: nat)
    requires pline <= |buf|
    ensures pline <= end <= p1 <= |buf| && (pline < p1 <==> pline < |buf|)
    ensures FirstLine(buf[pline..]) == Split(buf[pline..end], buf[p1..])
  {
    hide FirstLine;
    p1 := pline;
    NothingSplit(buf[pline..]);
    assert buf[pline..p1] == "";
    while p1 < |buf|
      invariant pline <= p1 <= |buf| && SplitTo(buf[pline..], buf[pline..p1], buf[p1..])
    {
      FirstLineStep(buf, p1);
      if p1 + 1 < |buf| && buf[p1] == '@' && buf[p1 + 1] == '@' {
        assert buf[pline..p1] + "" == buf[pline..p1];
        return p1, p1 + 2;
      } else if buf[p1] == '\n' {
        assert buf[pline..p1] + "" == buf[pline..p1];
        return p1, p1 + 1;
      }
      ghost var done, more := buf[pline..p1], FirstLine(buf[p1 + 1..]).line;
      assert done + ([buf[p1]] + more) == done + [buf[p1]] + more;
      assert done + [buf[p1]] == buf[pline..p1 + 1];
      p1 := p1 + 1;
    }
    end := p1;
    NothingLeft(buf[pline..], buf[pline..p1]);
    assert buf[p1..] == "";
  }

  lemma {:induction false} NothingSplit(s: string)
    ensures SplitTo(s, "", s)
  {
    assert "" + FirstLine(s).line == FirstLine(s).line;
  }

  lemma {:induction false} NothingLeft(s: string, done: string)
    ensures SplitTo(s, done, "") ==> FirstLine(s) == Split(done, "")
  {
    assert done + "" == done;
  }

  lemma {:induction false} FirstLineStep(buf: string, p: nat)
    requires p < |buf|
    ensures var r := FirstLine(buf[p..]);
            if p + 1 < |buf| && buf[p] == '@' && buf[p + 1] == '@' then r == Split("", buf[p + 2..])
            else if buf[p] == '\n' then r == Split("", buf[p + 1..])
            else r == Split([buf[p]] + FirstLine(buf[p + 1..]).line, FirstLine(buf[p + 1..]).rest)
  {
    var s := buf[p..];
    assert s[0] == buf[p] && s[1..] == buf[p + 1..];
    if |s| >= 2 {
      assert s[1] == buf[p + 1] && s[2..] == buf[p + 2..];
    }
  }

  /** What has been written, continued by the lines to come, is what is to be written. */
  ghost predicate WrittenTo(text: string, out: string, rest: seq<string>, blank: bool) {
    out + Join(Clean(rest, blank)) == Cleaned(text)
  }

  /** `CleanCppOutput`: what is written behind the header. */
  method CleanCppOutput(text: string) returns (out: string)
    ensures out == Cleaned(text)
  {
    hide Lines, WrittenTo, IsEmpty, Trim;
    out := "";
    var blankline := 0;
    var reader := new Reader(text);
    NothingWritten(text);
    assert text[0..] == text;
    while true
      invariant reader.Valid() && reader.buf == text && blankline >= 0 && fresh(reader)
      invariant WrittenTo(text, out, Lines(text[reader.pline..]), blankline > 0)
      decreases |text| - reader.pline
    {
      ghost var before := Lines(text[reader.pline..]);
      var more, input := reader.ReadLine();
      if !more {
        AllWritten(text, out, blankline > 0);
        return;
      }
      var empty, trimmed := TrimLine(input);
      WrittenStep(text, out, input, Lines(text[reader.pline..]), blankline > 0);
      if empty {
        blankline := blankline + 1;
        if blankline > 1 {
          continue;
        }
        out := out + "\n";
      } else {
        blankline := 0;
        out := out + (trimmed + "\n");
      }
    }
  }

  lemma {:induction false} NothingWritten(text: string)
    ensures WrittenTo(text, "", Lines(text), false)
  {
    assert "" + Cleaned(text) == Cleaned(text);
  }

  lemma {:induction false} AllWritten(text: string, out: string, blank: bool)
    requires WrittenTo(text, out, [], blank)
    ensures out == Cleaned(text)
  {
    assert out + "" == out;
  }

  lemma {:induction false} WrittenStep(text: string, out: string, line: string, rest: seq<string>, blank: bool)
    requires WrittenTo(text, out, [line] + rest, blank)
    ensures if IsEmpty(line) then WrittenTo(text, if blank then out else out + "\n", rest, true)
            else WrittenTo(text, out + (Trim(line) + "\n"), rest, false)
  {
    hide IsEmpty, Trim, Clean, Join, Cleaned;
    CleanStep(line, rest, blank);
    var more := Join(Clean(rest, IsEmpty(line)));
    assert out + ("" + more) == out + more;
    assert out + ("\n" + more) == out + "\n" + more;
    var l := Trim(line) + "\n";
    assert out + (l + more) == out + l + more;
  }

  lemma {:induction false} CleanStep(line: string, rest: seq<string>, blank: bool)
    ensures var text := Join(Clean([line] + rest, blank));
            if IsEmpty(line) then text == (if blank then "" else "\n") + Join(Clean(rest, true))
            else text == Trim(line) + "\n" + Join(Clean(rest, false))
  {
    hide IsEmpty, Trim;
    var lines := [line] + rest;
    assert lines[0] == line && lines[1..] == rest;
    var more := Clean(rest, IsEmpty(line));
    if IsEmpty(line) && blank {
      assert [] + more == more && "" + Join(more) == Join(more);
    } else {
      var l := if IsEmpty(line) then "" else Trim(line);
      assert ([l] + more)[0] == l && ([l] + more)[1..] == more;
      assert "" + "\n" + Join(more) == "\n" + Join(more);
    }
  }
}
