/** How imake.c prepares an Imakefile for the preprocessor: `CleanCppInput` hides the comments of make. */
module CppInput {
  import opened CTypes

  function SkipBlanks(s: string): string {
    if s != [] && IsBlank(s[0]) then SkipBlanks(s[1..]) else s
  }

  /** The text up to a blank or the end of the line. */
  function Word(s: string): (w: string)
    ensures |w| <= |s| && w == s[..|w|]
  {
    if s == [] || IsBlank(s[0]) || s[0] == '\n' then [] else [s[0]] + Word(s[1..])
  }

  /** What stands behind a number sign is a directive of the preprocessor. */
  predicate Directive(s: string) {
    Word(SkipBlanks(s)) in {"include", "define", "undef", "ifdef", "ifndef", "else", "endif", "if"}
  }

  const PAD := "/**/"

  /** A comment of make: a number sign at the start of a line, and no directive. */
  predicate IsComment(s: string, lineStart: bool) {
    s != [] && s[0] == '#' && lineStart && !Directive(s[1..])
  }

  /** The text with a pad in front of every comment. */
  function Padded(s: string, lineStart: bool): string {
    if s == [] then []
    else (if IsComment(s, lineStart) then PAD else "") + ([s[0]] + Padded(s[1..], s[0] == '\n'))
  }

  /** No comment in sight. */
  predicate NoComment(s: string, lineStart: bool) {
    s == [] || (!IsComment(s, lineStart) && NoComment(s[1..], s[0] == '\n'))
  }

  // ---------------------------------------------------------------- the result

  /** Up to the end of the line a text that is padded from within a line is as it was. */
  lemma {:induction false} SameLine(s: string)
    ensures Word(SkipBlanks(Padded(s, false))) == Word(SkipBlanks(s)) && Word(Padded(s, false)) == Word(s)
    decreases |s|
  {
    if s != [] && s[0] != '\n' {
      var p := Padded(s, false);
      assert "" + ([s[0]] + Padded(s[1..], false)) == [s[0]] + Padded(s[1..], false);
      assert p[0] == s[0] && p[1..] == Padded(s[1..], false);
      SameLine(s[1..]);
    } else if s != [] {
      assert Padded(s, false)[0] == '\n';
    }
  }

  lemma {:induction false} NoCommentAppend(c: char, s: string, lineStart: bool)
    requires NoComment(s, c == '\n') && !IsComment([c] + s, lineStart)
    ensures NoComment([c] + s, lineStart)
  {
    assert ([c] + s)[1..] == s;
  }

  /** Nothing that is padded still is a comment. */
  lemma {:induction false} PaddedHasNoComment(s: string, lineStart: bool)
    ensures NoComment(Padded(s, lineStart), lineStart)
    decreases |s|
  {
    if s != [] {
      var more := Padded(s[1..], s[0] == '\n');
      PaddedHasNoComment(s[1..], s[0] == '\n');
      var t := [s[0]] + more;
      assert t[0] == s[0] && t[1..] == more;
      if s[0] == '#' {
        SameLine(s[1..]);
      }
      if IsComment(s, lineStart) {
        NoCommentAppend('#', more, false);
        NoCommentAppend('/', t, false);
        NoCommentAppend('*', "/" + t, false);
        NoCommentAppend('*', "*" + ("/" + t), false);
        NoCommentAppend('/', "*" + ("*" + ("/" + t)), lineStart);
        assert PAD + t == "/" + ("*" + ("*" + ("/" + t)));
      } else {
        NoCommentAppend(s[0], more, lineStart);
        assert "" + t == t;
      }
    }
  }

  /** Exactly the texts without a comment are left as they are. */
  lemma {:induction false} PaddedSameIff(s: string, lineStart: bool)
    ensures |Padded(s, lineStart)| >= |s| && (Padded(s, lineStart) == s <==> NoComment(s, lineStart))
    decreases |s|
  {
    hide IsComment;
    if s != [] {
      PaddedSameIff(s[1..], s[0] == '\n');
      var more := Padded(s[1..], s[0] == '\n');
      assert [s[0]] + s[1..] == s && "" + ([s[0]] + more) == [s[0]] + more;
      assert ([s[0]] + more)[1..] == more;
    }
  }

  /** Preparing what has been prepared changes nothing. */
  lemma {:induction false} PaddingIsIdempotent(s: string)
    ensures Padded(Padded(s, true), true) == Padded(s, true)
  {
    PaddedHasNoComment(s, true);
    PaddedSameIff(Padded(s, true), true);
  }

  // ---------------------------------------------------------------- which lines are padded

  /** Blanks and tabs. */
  predicate AllBlanks(s: string) {
    forall i | 0 <= i < |s| :: s[i] == ' ' || s[i] == '\t'
  }

  /** The words that the preprocessor knows. */
  predicate IsDirective(w: string) {
    w == "if" || w == "ifdef" || w == "ifndef" || w == "else" || w == "endif" || w == "define" || w == "undef"
    || w == "include"
  }

  /** Behind a number sign: blanks, one of those words, and a blank, a newline or the end. */
  predicate Directs(s: string, i: nat, j: nat) {
    && i <= j <= |s| && AllBlanks(s[..i]) && IsDirective(s[i..j])
    && (j == |s| || s[j] == ' ' || s[j] == '\t' || s[j] == '\n')
  }

  lemma {:induction false} SkipSpan(s: string)
    ensures |SkipBlanks(s)| <= |s|
    ensures var i := |s| - |SkipBlanks(s)|;
            && SkipBlanks(s) == s[i..] && AllBlanks(s[..i]) && (i == |s| || !IsBlank(s[i]))
    decreases |s|
  {
    if s != [] && IsBlank(s[0]) {
      SkipSpan(s[1..]);
    }
  }

  lemma {:induction false} SkipIs(s: string, i: nat)
    requires i <= |s| && AllBlanks(s[..i]) && (i == |s| || !IsBlank(s[i]))
    ensures SkipBlanks(s) == s[i..]
    decreases i
  {
    if i > 0 {
      var t, u := s[..i], s[1..][..i - 1];
      assert t[0] == s[0] && u == t[1..];
      SkipIs(s[1..], i - 1);
    }
  }

  lemma {:induction false} WordEnds(s: string)
    ensures var n := |Word(s)|; n == |s| || IsBlank(s[n]) || s[n] == '\n'
  {
    if s != [] && !IsBlank(s[0]) && s[0] != '\n' {
      WordEnds(s[1..]);
    }
  }

  lemma {:induction false} DirectiveMeans(s: string)
    ensures Directive(s) <==> IsDirective(Word(SkipBlanks(s)))
  {
  }

  lemma {:induction false} DirectiveFound(s: string) returns (i: nat, j: nat)
    requires Directive(s)
    ensures Directs(s, i, j)
  {
    DirectiveMeans(s);
    hide IsDirective, Directive, AllBlanks;
    SkipSpan(s);
    var t := SkipBlanks(s);
    i := |s| - |t|;
    j := i + |Word(t)|;
    WordEnds(t);
    assert s[i..j] == t[..|Word(t)|];
  }

  lemma {:induction false} DirectsIsDirective(s: string, i: nat, j: nat)
    requires Directs(s, i, j)
    ensures Directive(s)
  {
    var w, t := s[i..j], s[i..];
    DirectiveGlyphs(w);
    DirectiveMeans(s);
    hide IsDirective, Directive;
    assert s[i] == w[0];
    SkipIs(s, i);
    assert t[..j - i] == w && (j < |s| ==> t[j - i] == s[j]);
    assert forall k | 0 <= k < j - i :: t[k] == w[k];
    WordIs(t, j - i);
  }

  lemma {:induction false} DirectiveIff(s: string)
    ensures Directive(s) <==> exists i: nat, j: nat :: Directs(s, i, j)
  {
    hide Directive, Directs;
    if Directive(s) {
      var i, j := DirectiveFound(s);
    }
    forall i: nat, j: nat | Directs(s, i, j) ensures Directive(s) {
      DirectsIsDirective(s, i, j);
    }
  }

  lemma {:induction false} DirectiveGlyphs(w: string)
    requires IsDirective(w)
    ensures w != "" && forall k | 0 <= k < |w| :: !IsBlank(w[k]) && w[k] != '\n'
  {
  }

  /** A line behind whose number sign there is no directive is a comment. */
  predicate CommentLine(line: string) {
    line != "" && line[0] == '#' && !Directive(line[1..])
  }

  /** Lines as a text, a newline behind each but the last. */
  function TextOf(lines: seq<string>): string {
    if lines == [] then "" else if |lines| == 1 then lines[0] else lines[0] + "\n" + TextOf(lines[1..])
  }

  function PaddedLine(line: string): string {
    (if CommentLine(line) then "/**/" else "") + line
  }

  function PaddedLines(lines: seq<string>): (ps: seq<string>)
    ensures |ps| == |lines| && forall i | 0 <= i < |lines| :: ps[i] == PaddedLine(lines[i])
  {
    if lines == [] then [] else [PaddedLine(lines[0])] + PaddedLines(lines[1..])
  }

  lemma {:induction false} RestKept(t: string, rest: string)
    requires '\n' !in t
    ensures Padded(t + rest, false) == t + Padded(rest, false)
    decreases |t|
  {
    hide IsComment;
    if t == "" {
      assert t + rest == rest && "" + Padded(rest, false) == Padded(rest, false);
    } else {
      var s := t + rest;
      assert s[0] == t[0] && s[1..] == t[1..] + rest && t[0] in t;
      assert forall c | c in t[1..] :: c in t;
      RestKept(t[1..], rest);
      NoCommentWithin(s);
      assert [t[0]] + (t[1..] + Padded(rest, false)) == t + Padded(rest, false);
    }
  }

  lemma {:induction false} NoCommentWithin(s: string)
    requires s != ""
    ensures Padded(s, false) == [s[0]] + Padded(s[1..], s[0] == '\n')
  {
    assert "" + ([s[0]] + Padded(s[1..], s[0] == '\n')) == [s[0]] + Padded(s[1..], s[0] == '\n');
  }

  lemma {:induction false} WordOfLine(t: string, rest: string)
    requires rest == "" || rest[0] == '\n'
    ensures Word(t + rest) == Word(t)
    decreases |t|
  {
    if t == "" {
      assert t + rest == rest;
    } else {
      assert (t + rest)[0] == t[0] && (t + rest)[1..] == t[1..] + rest;
      WordOfLine(t[1..], rest);
    }
  }

  lemma {:induction false} SkipInLine(t: string, rest: string)
    requires rest == "" || rest[0] == '\n'
    ensures SkipBlanks(t + rest) == SkipBlanks(t) + rest
    decreases |t|
  {
    if t == "" {
      assert t + rest == rest;
    } else {
      assert (t + rest)[0] == t[0] && (t + rest)[1..] == t[1..] + rest;
      SkipInLine(t[1..], rest);
    }
  }

  /** Whether there is a directive is settled within the line. */
  lemma {:induction false} DirectiveInLine(t: string, rest: string)
    requires rest == "" || rest[0] == '\n'
    ensures Directive(t + rest) == Directive(t)
  {
    hide SkipBlanks, Word;
    SkipInLine(t, rest);
    WordOfLine(SkipBlanks(t), rest);
  }

  lemma {:induction false} FirstOfLine(line: string, rest: string)
    requires line != "" && (rest == "" || rest[0] == '\n')
    ensures (line + rest)[1..] == line[1..] + rest
    ensures IsComment(line + rest, true) <==> CommentLine(line)
  {
    hide Directive;
    assert (line + rest)[0] == line[0] && (line + rest)[1..] == line[1..] + rest;
    DirectiveInLine(line[1..], rest);
  }

  lemma {:induction false} OneLine(line: string, rest: string)
    requires '\n' !in line && (rest == "" || rest[0] == '\n')
    ensures Padded(line + rest, true) == PaddedLine(line) + Padded(rest, line == "")
  {
    hide CommentLine, IsComment;
    if line == "" {
      assert line + rest == rest && !CommentLine(line) by { NoLine(); }
      assert "" + "" + Padded(rest, true) == Padded(rest, true);
    } else {
      FirstOfLine(line, rest);
      assert line[0] in line && forall c | c in line[1..] :: c in line;
      RestKept(line[1..], rest);
      Regroup(if CommentLine(line) then "/**/" else "", line, Padded(rest, false));
    }
  }

  lemma {:induction false} NoLine()
    ensures !CommentLine("")
  {
  }

  lemma {:induction false} Regroup(pad: string, line: string, more: string)
    requires line != ""
    ensures pad + ([line[0]] + (line[1..] + more)) == pad + line + more
  {
    assert line == [line[0]] + line[1..];
  }

  lemma {:induction false} MoreLines(lines: seq<string>)
    requires |lines| > 1
    ensures TextOf(lines) == lines[0] + ("\n" + TextOf(lines[1..]))
  {
    assert lines[0] + "\n" + TextOf(lines[1..]) == lines[0] + ("\n" + TextOf(lines[1..]));
  }

  /** Line by line: a pad in front of every comment, and nothing else changed. */
  lemma {:induction false} PaddedByLine(lines: seq<string>)
    requires forall i | 0 <= i < |lines| :: '\n' !in lines[i]
    ensures Padded(TextOf(lines), true) == TextOf(PaddedLines(lines))
    decreases |lines|
  {
    hide PaddedLine, Padded;
    var ps := PaddedLines(lines);
    if |lines| == 0 {
      NothingToPad(true);
    } else if |lines| == 1 {
      OneLine(lines[0], "");
      NothingToPad(lines[0] == "");
      assert lines[0] + "" == lines[0] && ps[0] + "" == ps[0];
    } else {
      hide TextOf;
      var more := TextOf(lines[1..]);
      OneLine(lines[0], "\n" + more);
      NewlineKept(more, lines[0] == "");
      PaddedByLine(lines[1..]);
      MoreLines(lines);
      MoreLines(ps);
      assert ps[1..] == PaddedLines(lines[1..]);
    }
  }

  lemma {:induction false} NothingToPad(lineStart: bool)
    ensures Padded("", lineStart) == ""
  {
  }

  lemma {:induction false} NewlineKept(more: string, lineStart: bool)
    ensures Padded("\n" + more, lineStart) == "\n" + Padded(more, true)
  {
    assert ("\n" + more)[0] == '\n' && ("\n" + more)[1..] == more;
  }

  // ---------------------------------------------------------------- the routine

  /** Which file is to be used: the one given, or a new one with this text. */
  datatype Cleaned = Unchanged | Written(text: string)

  lemma {:induction false} SkipFrom(buf: string, i: nat)
    requires i < |buf|
    ensures SkipBlanks(buf[i..]) == if IsBlank(buf[i]) then SkipBlanks(buf[i + 1..]) else buf[i..]
  {
    assert buf[i..][0] == buf[i] && buf[i..][1..] == buf[i + 1..];
  }

  lemma {:induction false} WordIs(s: string, n: nat)
    requires n <= |s| && forall i | 0 <= i < n :: !IsBlank(s[i]) && s[i] != '\n'
    requires n == |s| || IsBlank(s[n]) || s[n] == '\n'
    ensures Word(s) == s[..n]
    decreases n
  {
    if n > 0 {
      WordIs(s[1..], n - 1);
      assert [s[0]] + s[1..][..n - 1] == s[..n];
    }
  }

  /** Whether a directive stands behind the number sign at `pbuf`. */
  method FindToken(buf: string, pbuf: nat) returns (directive: bool)
    requires pbuf < |buf|
    ensures directive == Directive(buf[pbuf + 1..])
  {
    hide SkipBlanks, Word;
    var ptoken := pbuf + 1;
    while ptoken < |buf| && IsBlank(buf[ptoken])
      invariant pbuf < ptoken <= |buf| && SkipBlanks(buf[pbuf + 1..]) == SkipBlanks(buf[ptoken..])
    {
      SkipFrom(buf, ptoken);
      ptoken := ptoken + 1;
    }
    NothingToSkip(buf, ptoken);
    var pend := ptoken;
    while pend < |buf| && !IsBlank(buf[pend]) && buf[pend] != '\n'
      invariant ptoken <= pend <= |buf| && forall i | ptoken <= i < pend :: !IsBlank(buf[i]) && buf[i] != '\n'
    {
      pend := pend + 1;
    }
    var s := buf[ptoken..];
    WordIs(s, pend - ptoken);
    assert s[..pend - ptoken] == buf[ptoken..pend];
    var token := buf[ptoken..pend];
    directive := token == "include" || token == "define" || token == "undef" || token == "ifdef" || token == "ifndef"
                 || token == "else" || token == "endif" || token == "if";
  }

  lemma {:induction false} NothingToSkip(buf: string, i: nat)
    requires i <= |buf| && (i == |buf| || !IsBlank(buf[i]))
    ensures SkipBlanks(buf[i..]) == buf[i..]
  {
  }

  /** What has been written, what is still in the buffer unwritten, and the rest padded make up the result. */
  ghost predicate PaddedTo(buf: string, out: string, punwritten: nat, pbuf: nat) {
    && punwritten <= pbuf <= |buf|
    && out + (buf[punwritten..pbuf] + Padded(buf[pbuf..], AtLineStart(buf, pbuf))) == Padded(buf, true)
  }

  predicate AtLineStart(buf: string, pbuf: nat)
    requires pbuf <= |buf|
  {
    pbuf == 0 || buf[pbuf - 1] == '\n'
  }

  lemma {:induction false} PadHere(buf: string, out: string, punwritten: nat, pbuf: nat)
    requires PaddedTo(buf, out, punwritten, pbuf) && pbuf < |buf|
    ensures IsComment(buf[pbuf..], AtLineStart(buf, pbuf))
            ==> PaddedTo(buf, out + buf[punwritten..pbuf] + PAD, pbuf, pbuf + 1)
    ensures !IsComment(buf[pbuf..], AtLineStart(buf, pbuf)) ==> PaddedTo(buf, out, punwritten, pbuf + 1)
  {
    var s := buf[pbuf..];
    var comment := IsComment(s, AtLineStart(buf, pbuf));
    assert s[0] == buf[pbuf] && s[1..] == buf[pbuf + 1..];
    var chunk, c, more := buf[punwritten..pbuf], [buf[pbuf]], Padded(buf[pbuf + 1..], buf[pbuf] == '\n');
    assert Padded(s, AtLineStart(buf, pbuf)) == (if comment then PAD else "") + (c + more);
    if comment {
      assert buf[pbuf..pbuf + 1] == c;
      assert out + (chunk + (PAD + (c + more))) == out + chunk + PAD + (c + more);
    } else {
      assert buf[punwritten..pbuf + 1] == chunk + c;
      assert out + (chunk + ("" + (c + more))) == out + (chunk + c + more);
    }
  }

  /** `CleanCppInput`.  The text is copied in chunks, each up to the next comment. */
  method CleanCppInput(file: string) returns (r: Cleaned)
    ensures var buf := CString(file, 0);
            r == if NoComment(buf, true) then Unchanged else Written(Padded(buf, true))
  {
    hide PaddedTo, IsComment, Directive;
    var buf := CString(file, 0);
    var out, started := "", false;
    var punwritten, pbuf := 0, 0;
    NothingPadded(buf);
    while pbuf < |buf|
      invariant punwritten <= pbuf <= |buf| && PaddedTo(buf, out, punwritten, pbuf)
      invariant started || (out == "" && punwritten == 0)
      invariant NoComment(buf, true) <==> !started && NoComment(buf[pbuf..], AtLineStart(buf, pbuf))
    {
      PadHere(buf, out, punwritten, pbuf);
      NoCommentFrom(buf, pbuf);
      if buf[pbuf] == '#' && (pbuf == 0 || buf[pbuf - 1] == '\n') {
        var directive := FindToken(buf, pbuf);
        if !directive {
          started := true;
          out := out + buf[punwritten..pbuf];
          out := out + PAD;
          punwritten := pbuf;
        }
      }
      pbuf := pbuf + 1;
    }
    AllPadded(buf, out, punwritten);
    if started {
      r := Written(out + buf[punwritten..pbuf]);
    } else {
      r := Unchanged;
    }
  }

  lemma {:induction false} NothingPadded(buf: string)
    ensures PaddedTo(buf, "", 0, 0) && buf[0..] == buf
  {
    assert "" + (buf[0..0] + Padded(buf, true)) == Padded(buf, true);
  }

  lemma {:induction false} AllPadded(buf: string, out: string, punwritten: nat)
    requires PaddedTo(buf, out, punwritten, |buf|)
    ensures punwritten <= |buf| && out + buf[punwritten..] == Padded(buf, true)
    ensures NoComment(buf[|buf|..], AtLineStart(buf, |buf|))
  {
    assert buf[|buf|..] == "" && buf[punwritten..|buf|] + "" == buf[punwritten..];
  }

  lemma {:induction false} NoCommentFrom(buf: string, pbuf: nat)
    requires pbuf < |buf|
    ensures NoComment(buf[pbuf..], AtLineStart(buf, pbuf))
            <==> !IsComment(buf[pbuf..], AtLineStart(buf, pbuf)) &&
                 NoComment(buf[pbuf + 1..], AtLineStart(buf, pbuf + 1))
    ensures IsComment(buf[pbuf..], AtLineStart(buf, pbuf))
            <==> buf[pbuf] == '#' && (pbuf == 0 || buf[pbuf - 1] == '\n') && !Directive(buf[pbuf + 1..])
  {
    assert buf[pbuf..][0] == buf[pbuf] && buf[pbuf..][1..] == buf[pbuf + 1..];
  }
}
