/** `getfields` of zic.c: split a line into fields in place, honouring quotation marks and comments. */
module Fields {
  import opened CTypes

  /** `isascii(c) && isspace(c)`. */
  predicate IsSpace(c: char) {
    c == ' ' || '\t' <= c <= '\r'
  }

  /** A field ends in front of the end of the line, a comment or a space. */
  predicate AtEnd(s: string) {
    s == [] || s[0] == '#' || IsSpace(s[0])
  }

  function SkipSpaces(s: string): (r: string)
    ensures |r| <= |s|
    ensures r != [] ==> !IsSpace(r[0])
  {
    if s != [] && IsSpace(s[0]) then SkipSpaces(s[1..]) else s
  }

  /** A piece of text and what follows it, or nothing if a quotation is not closed. */
  datatype Piece = Piece(text: string, rest: string) | Unclosed

  /** The text up to the next quotation mark. */
  function Quoted(s: string): (p: Piece)
    ensures p.Piece? ==> |p.text| + |p.rest| < |s|
  {
    if s == [] then Unclosed
    else if s[0] == '"' then Piece([], s[1..])
    else
      match Quoted(s[1..])
      case Piece(t, r) => Piece([s[0]] + t, r)
      case Unclosed => Unclosed
  }

  /** One field: quoted text is taken without its marks, whatever it contains. */
  function Field(s: string): (p: Piece)
    requires s != []
    ensures p.Piece? ==> |p.text| + |p.rest| <= |s| && |p.rest| < |s| && AtEnd(p.rest)
    decreases |s|
  {
    var first := if s[0] == '"' then Quoted(s[1..]) else Piece([s[0]], s[1..]);
    match first
    case Unclosed => Unclosed
    case Piece(t, r) =>
      if AtEnd(r) then first
      else
        match Field(r)
        case Piece(u, r') => Piece(t + u, r')
        case Unclosed => Unclosed
  }

  datatype Split = Split(fields: seq<string>) | OddQuotes

  /** The fields of a line, up to its comment. */
  function Fields(s: string): Split
    decreases |s|
  {
    var t := SkipSpaces(s);
    if t == [] || t[0] == '#' then Split([])
    else
      match Field(t)
      case Unclosed => OddQuotes
      case Piece(f, r) =>
        match Fields(r)
        case Split(fs) => Split([f] + fs)
        case OddQuotes => OddQuotes
  }

  // ---------------------------------------------------------------- quoting undoes splitting

  /** Each field in quotation marks, one space behind each. */
  function QuoteAll(fs: seq<string>): string {
    if fs == [] then [] else "\"" + fs[0] + "\" " + QuoteAll(fs[1..])
  }

  lemma {:induction false} QuotedText(t: string, rest: string)
    requires '"' !in t
    ensures Quoted(t + ['"'] + rest) == Piece(t, rest)
  {
    var s := t + ['"'] + rest;
    if t == [] {
      assert s[1..] == rest;
    } else {
      assert s[1..] == t[1..] + ['"'] + rest;
      QuotedText(t[1..], rest);
      assert [t[0]] + t[1..] == t;
    }
  }

  /** Any fields, with spaces, comment signs or nothing in them, survive being quoted and split. */
  lemma {:induction false} SplitUndoesQuoting(fs: seq<string>)
    requires forall f | f in fs :: '"' !in f
    ensures Fields(QuoteAll(fs)) == Split(fs)
  {
    if fs != [] {
      SplitUndoesQuoting(fs[1..]);
      FirstQuoted(fs[0], QuoteAll(fs[1..]));
      assert [fs[0]] + fs[1..] == fs;
    }
  }

  lemma {:induction false} FirstQuoted(f: string, more: string)
    requires '"' !in f
    ensures var s := "\"" + f + "\" " + more; s != [] && Field(s) == Piece(f, [' '] + more)
    ensures Fields([' '] + more) == Fields(more)
  {
    var s := "\"" + f + "\" " + more;
    assert s[1..] == f + ['"'] + ([' '] + more);
    QuotedText(f, [' '] + more);
    assert ([' '] + more)[1..] == more;
  }

  // ---------------------------------------------------------------- lines as they are written

  /** A part of a field: a character that stands for itself, or text in quotation marks. */
  datatype Part = Bare(c: char) | InQuotes(t: string)

  predicate IsBlankSpace(c: char) {
    c == ' ' || c == '\t' || c == '\n' || c == 11 as char || c == 12 as char || c == '\r'
  }

  predicate IsPart(p: Part) {
    match p
    case Bare(c) => c != '"' && c != '#' && !IsBlankSpace(c)
    case InQuotes(t) => '"' !in t
  }

  predicate AllSpaces(s: string) {
    forall i | 0 <= i < |s| :: IsBlankSpace(s[i])
  }

  function PartText(p: Part): string {
    match p
    case Bare(c) => [c]
    case InQuotes(t) => "\"" + t + "\""
  }

  function PartsText(ps: seq<Part>): string {
    if ps == [] then "" else PartText(ps[0]) + PartsText(ps[1..])
  }

  /** What the parts stand for. */
  function Contents(ps: seq<Part>): string {
    if ps == [] then "" else (match ps[0] case Bare(c) => [c] case InQuotes(t) => t) + Contents(ps[1..])
  }

  /** Spaces, and the parts of a field behind them. */
  datatype Spaced = Spaced(gap: string, parts: seq<Part>)

  /** Only in front of the first field there need be no space. */
  predicate AllSpaced(ws: seq<Spaced>) {
    forall i | 0 <= i < |ws| ::
      && AllSpaces(ws[i].gap) && (i > 0 ==> ws[i].gap != "")
      && ws[i].parts != [] && forall k | 0 <= k < |ws[i].parts| :: IsPart(ws[i].parts[k])
  }

  function LineText(ws: seq<Spaced>, tail: string): string {
    if ws == [] then tail else ws[0].gap + (PartsText(ws[0].parts) + LineText(ws[1..], tail))
  }

  function AllContents(ws: seq<Spaced>): seq<string> {
    if ws == [] then [] else [Contents(ws[0].parts)] + AllContents(ws[1..])
  }

  lemma {:induction false} SpacesSkipped(gap: string, rest: string)
    requires AllSpaces(gap) && (rest == "" || !IsSpace(rest[0]))
    ensures SkipSpaces(gap + rest) == rest
    decreases |gap|
  {
    if gap == "" {
      assert gap + rest == rest;
    } else {
      assert (gap + rest)[0] == gap[0] && (gap + rest)[1..] == gap[1..] + rest;
      SpacesSkipped(gap[1..], rest);
    }
  }

  /** A field begins with a character of its own or a quotation mark. */
  lemma {:induction false} PartBegins(p: Part, rest: string)
    requires IsPart(p)
    ensures !AtEnd(PartText(p) + rest)
  {
    assert (PartText(p) + rest)[0] == PartText(p)[0];
  }

  lemma {:induction false} OnePart(p: Part, rest: string)
    requires IsPart(p)
    ensures var s := PartText(p) + rest;
            (if s[0] == '"' then Quoted(s[1..]) else Piece([s[0]], s[1..]))
            == Piece(match p case Bare(c) => [c] case InQuotes(t) => t, rest)
  {
    var s := PartText(p) + rest;
    match p
    case Bare(c) => assert s[0] == c && s[1..] == rest;
    case InQuotes(t) =>
      assert s[0] == '"' && s[1..] == t + ['"'] + rest;
      QuotedText(t, rest);
  }

  lemma {:induction false} FieldOfParts(ps: seq<Part>, rest: string)
    requires ps != [] && (forall k | 0 <= k < |ps| :: IsPart(ps[k])) && AtEnd(rest)
    ensures PartsText(ps) + rest != "" && !AtEnd(PartsText(ps) + rest)
    ensures Field(PartsText(ps) + rest) == Piece(Contents(ps), rest)
    decreases |ps|
  {
    hide AtEnd, IsPart, Quoted;
    assert IsPart(ps[0]);
    var more := PartsText(ps[1..]) + rest;
    assert PartsText(ps) + rest == PartText(ps[0]) + more;
    PartBegins(ps[0], more);
    OnePart(ps[0], more);
    EndsNot(PartsText(ps) + rest);
    if |ps| == 1 {
      assert more == rest && Contents(ps[1..]) == "";
      var first := match ps[0] case Bare(c) => [c] case InQuotes(t) => t;
      assert first + "" == first;
    } else {
      FieldOfParts(ps[1..], rest);
    }
  }

  lemma {:induction false} EndsNot(s: string)
    requires !AtEnd(s)
    ensures s != ""
  {
  }

  /** Any fields, of characters and quoted text, are split off at the spaces between them, up to the end of the line or
      a comment, whatever it says. */
  lemma {:induction false} FieldsReadBack(ws: seq<Spaced>, gap: string, tail: string)
    requires AllSpaced(ws) && AllSpaces(gap) && (tail == "" || tail[0] == '#')
    ensures Fields(LineText(ws, gap + tail)) == Split(AllContents(ws))
    decreases |ws|
  {
    hide Field, PartsText, Contents;
    if ws == [] {
      SpacesSkipped(gap, tail);
    } else {
      var rest := LineText(ws[1..], gap + tail);
      LineEnds(ws[1..], gap, tail);
      FieldOfParts(ws[0].parts, rest);
      SpacesSkipped(ws[0].gap, PartsText(ws[0].parts) + rest);
      FieldsReadBack(ws[1..], gap, tail);
    }
  }

  lemma {:induction false} LineEnds(ws: seq<Spaced>, gap: string, tail: string)
    requires AllSpaces(gap) && (tail == "" || tail[0] == '#')
    requires ws != [] ==> ws[0].gap != "" && AllSpaces(ws[0].gap)
    ensures AtEnd(LineText(ws, gap + tail))
  {
    if ws == [] {
      assert gap == "" ==> gap + tail == tail;
      assert gap != "" ==> (gap + tail)[0] == gap[0];
    } else {
      assert LineText(ws, gap + tail)[0] == ws[0].gap[0];
    }
  }

  lemma {:induction false} NoMark(t: string)
    requires '"' !in t
    ensures Quoted(t) == Unclosed
    decreases |t|
  {
    if t != "" {
      assert t[0] in t && forall c | c in t[1..] :: c in t;
      NoMark(t[1..]);
    }
  }

  lemma {:induction false} FieldUnclosed(ps: seq<Part>, t: string)
    requires (forall k | 0 <= k < |ps| :: IsPart(ps[k])) && '"' !in t
    ensures PartsText(ps) + ("\"" + t) != "" && !AtEnd(PartsText(ps) + ("\"" + t))
    ensures Field(PartsText(ps) + ("\"" + t)) == Unclosed
    decreases |ps|
  {
    var open := "\"" + t;
    assert open[0] == '"' && open[1..] == t;
    hide AtEnd, IsPart, Quoted;
    if ps == [] {
      assert PartsText(ps) + open == open && !AtEnd(open) by { MarkBegins(open); }
      NoMark(t);
    } else {
      assert IsPart(ps[0]);
      var more := PartsText(ps[1..]) + open;
      assert PartsText(ps) + open == PartText(ps[0]) + more;
      PartBegins(ps[0], more);
      OnePart(ps[0], more);
      EndsNot(PartsText(ps) + open);
      FieldUnclosed(ps[1..], t);
    }
  }

  lemma {:induction false} MarkBegins(s: string)
    requires s != "" && s[0] == '"'
    ensures !AtEnd(s)
  {
  }

  /** A quotation in the last field that is not closed makes the whole line an error. */
  lemma {:induction false} OddQuotesNoticed(ws: seq<Spaced>, gap: string, ps: seq<Part>, t: string)
    requires AllSpaced(ws) && AllSpaces(gap) && (ws != [] ==> gap != "")
    requires (forall k | 0 <= k < |ps| :: IsPart(ps[k])) && '"' !in t
    ensures Fields(LineText(ws, gap + (PartsText(ps) + ("\"" + t)))) == OddQuotes
    decreases |ws|
  {
    hide Field, PartsText, Contents;
    var last := PartsText(ps) + ("\"" + t);
    FieldUnclosed(ps, t);
    if ws == [] {
      SpacesSkipped(gap, last);
    } else {
      var rest := LineText(ws[1..], gap + last);
      assert rest != "" && rest[0] == if |ws| > 1 then ws[1].gap[0] else gap[0];
      FieldOfParts(ws[0].parts, rest);
      SpacesSkipped(ws[0].gap, PartsText(ws[0].parts) + rest);
      OddQuotesNoticed(ws[1..], gap, ps, t);
    }
  }

  // ---------------------------------------------------------------- the split in place

  /** From `cp` on, the buffer still holds the line and the NUL behind it. */
  ghost predicate Unread(buf: array<char>, line: string, cp: nat)
    reads buf
  {
    && cp <= |line| < buf.Length && NUL !in line && buf[|line|] == NUL
    && forall j | cp <= j < |line| :: buf[j] == line[j]
  }

  lemma {:induction false} OneChar(line: string, cp: nat)
    requires cp < |line|
    ensures line[cp..] != [] && line[cp..][0] == line[cp] && line[cp..][1..] == line[cp + 1..]
  {
  }

  /** The characters of `text` stand at `p`. */
  ghost predicate At(buf: array<char>, p: nat, text: string)
    reads buf
  {
    p + |text| <= buf.Length && forall i | 0 <= i < |text| :: buf[p + i] == text[i]
  }

  lemma {:induction false} AtAppend(buf: array<char>, p: nat, text: string, t: string)
    requires At(buf, p, text) && At(buf, p + |text|, t)
    ensures At(buf, p, text + t)
  {
    forall i | 0 <= i < |text + t| ensures buf[p + i] == (text + t)[i] {
      if i >= |text| {
        assert buf[p + |text| + (i - |text|)] == t[i - |text|];
      }
    }
  }

  twostate predicate SameBelow(buf: array<char>, p: nat)
    reads buf
  {
    p <= buf.Length && forall j | 0 <= j < p :: buf[j] == old(buf[j])
  }

  /** Inside quotation marks: the text found so far, and the text still to come. */
  ghost predicate QuotedSoFar(line: string, cp0: nat, text: string, cp: nat) {
    && cp0 <= cp <= |line| && Quoted(line[cp..]).Piece?
    && Quoted(line[cp0..]) == Piece(text + Quoted(line[cp..]).text, Quoted(line[cp..]).rest)
  }

  lemma {:induction false} QuotedStarts(line: string, cp: nat)
    requires cp <= |line| && Quoted(line[cp..]).Piece?
    ensures QuotedSoFar(line, cp, [], cp)
  {
    assert [] + Quoted(line[cp..]).text == Quoted(line[cp..]).text;
  }

  lemma {:induction false} QuotedStep(line: string, cp0: nat, text: string, cp: nat)
    requires QuotedSoFar(line, cp0, text, cp)
    ensures cp < |line|
    ensures if line[cp] == '"' then Quoted(line[cp0..]) == Piece(text, line[cp + 1..])
            else QuotedSoFar(line, cp0, text + [line[cp]], cp + 1)
  {
    if cp < |line| {
      OneChar(line, cp);
      assert text + [] == text;
      if line[cp] != '"' {
        var more := Quoted(line[cp + 1..]).text;
        assert text + ([line[cp]] + more) == text + [line[cp]] + more;
      }
    }
  }

  /** The loop inside quotation marks; `dp` stays behind `cp`. */
  method CopyQuoted(buf: array<char>, ghost line: string, dp0: nat, cp0: nat) returns (dp: nat, cp: nat)
    requires Unread(buf, line, cp0) && dp0 < cp0 && Quoted(line[cp0..]).Piece?
    modifies buf
    ensures Unread(buf, line, cp) && dp < cp && SameBelow(buf, dp0)
    ensures var p := Quoted(line[cp0..]);
            p.rest == line[cp..] && dp == dp0 + |p.text| && At(buf, dp0, p.text)
  {
    hide Quoted, QuotedSoFar;
    dp, cp := dp0, cp0;
    ghost var text: string := [];
    QuotedStarts(line, cp);
    while true
      invariant Unread(buf, line, cp) && dp0 <= dp < cp && SameBelow(buf, dp0)
      invariant dp == dp0 + |text| && At(buf, dp0, text) && QuotedSoFar(line, cp0, text, cp)
      decreases |line| - cp
    {
      QuotedStep(line, cp0, text, cp);
      var c := buf[cp];
      buf[dp] := c;
      cp := cp + 1;
      if c == '"' {
        return;
      }
      text := text + [c];
      dp := dp + 1;
    }
  }

  /** Inside a field: the text found so far, and the text still to come. */
  ghost predicate FieldSoFar(line: string, start: nat, text: string, cp: nat) {
    && start <= cp < |line| && Field(line[cp..]).Piece?
    && Field(line[start..]) == Piece(text + Field(line[cp..]).text, Field(line[cp..]).rest)
  }

  lemma {:induction false} FieldStarts(line: string, start: nat)
    requires start < |line| && Field(line[start..]).Piece?
    ensures FieldSoFar(line, start, [], start)
  {
    assert [] + Field(line[start..]).text == Field(line[start..]).text;
  }

  /** What one round of the `do` loop takes: a quotation or one character. */
  function Round(line: string, cp: nat): Piece
    requires cp < |line|
  {
    if line[cp] == '"' then Quoted(line[cp + 1..]) else Piece([line[cp]], line[cp + 1..])
  }

  lemma {:induction false} FieldStep(line: string, start: nat, text: string, cp: nat)
    requires FieldSoFar(line, start, text, cp)
    ensures cp < |line| && Round(line, cp).Piece?
    ensures forall cp' | cp < cp' <= |line| && Round(line, cp).rest == line[cp'..] ::
              var text' := text + Round(line, cp).text;
              if cp' == |line| || line[cp'] == '#' || IsSpace(line[cp'])
                then Field(line[start..]) == Piece(text', line[cp'..])
              else FieldSoFar(line, start, text', cp')
  {
    OneChar(line, cp);
    forall cp' | cp < cp' <= |line| && Round(line, cp).rest == line[cp'..]
      ensures var text' := text + Round(line, cp).text;
              if cp' == |line| || line[cp'] == '#' || IsSpace(line[cp'])
                then Field(line[start..]) == Piece(text', line[cp'..])
              else FieldSoFar(line, start, text', cp')
    {
      FieldStepTo(line, start, text, cp, cp');
    }
  }

  lemma {:induction false} FieldStepTo(line: string, start: nat, text: string, cp: nat, cp': nat)
    requires FieldSoFar(line, start, text, cp) && cp < cp' <= |line| && Round(line, cp).Piece?
             && Round(line, cp).rest == line[cp'..]
    ensures var text' := text + Round(line, cp).text;
            if cp' == |line| || line[cp'] == '#' || IsSpace(line[cp'])
              then Field(line[start..]) == Piece(text', line[cp'..])
            else FieldSoFar(line, start, text', cp')
  {
    OneChar(line, cp);
    var t := Round(line, cp).text;
    if !AtEnd(line[cp'..]) {
      var more := Field(line[cp'..]).text;
      assert text + (t + more) == text + t + more;
    }
  }

  /** The `do` loop over one field: write at `dp`, read at `cp`. */
  method CopyField(buf: array<char>, ghost line: string, start: nat) returns (dp: nat, cp: nat)
    requires Unread(buf, line, start) && start < |line| && Field(line[start..]).Piece?
    modifies buf
    ensures Unread(buf, line, cp) && dp <= cp && start < cp && SameBelow(buf, start)
    ensures var p := Field(line[start..]);
            p.rest == line[cp..] && dp == start + |p.text| && At(buf, start, p.text)
  {
    hide Quoted, Field, FieldSoFar, Round;
    dp, cp := start, start;
    ghost var text: string := [];
    FieldStarts(line, start);
    while true
      invariant Unread(buf, line, cp) && start <= dp <= cp && SameBelow(buf, start)
      invariant dp == start + |text| && At(buf, start, text) && FieldSoFar(line, start, text, cp)
      decreases |line| - cp
    {
      FieldStep(line, start, text, cp);
      ghost var t := Round(line, cp).text;
      dp, cp := CopyRound(buf, line, dp, cp);
      AtAppend(buf, start, text, t);
      text := text + t;
      if !(buf[cp] != NUL && buf[cp] != '#' && !IsSpace(buf[cp])) {
        return;
      }
    }
  }

  /** The body of the `do` loop. */
  method CopyRound(buf: array<char>, ghost line: string, dp0: nat, cp0: nat) returns (dp: nat, cp: nat)
    requires Unread(buf, line, cp0) && dp0 <= cp0 < |line| && Round(line, cp0).Piece?
    modifies buf
    ensures Unread(buf, line, cp) && dp <= cp && cp0 < cp && SameBelow(buf, dp0)
    ensures var p := Round(line, cp0);
            p.rest == line[cp..] && dp == dp0 + |p.text| && At(buf, dp0, p.text)
  {
    dp, cp := dp0, cp0;
    var c := buf[cp];
    buf[dp] := c;
    cp := cp + 1;
    if c != '"' {
      dp := dp + 1;
    } else {
      dp, cp := CopyQuoted(buf, line, dp, cp);
    }
  }

  /** Field `s` lies at `p` in the buffer, its NUL in front of `limit` or, at the end of the line, on it. */
  ghost predicate Stored(buf: array<char>, p: nat, s: string, limit: nat)
    reads buf
  {
    && p + |s| < buf.Length && At(buf, p, s) && buf[p + |s|] == NUL
    && (p + |s| < limit || (p + |s| == limit && buf[limit] == NUL))
  }

  /** Between fields: the buffer holds the rest of the line, unless the last terminator fell on a comment
      sign, where the line ends for the program as well. */
  ghost predicate Between(buf: array<char>, line: string, cp: nat)
    reads buf
  {
    Unread(buf, line, cp) || (cp < |line| < buf.Length && line[cp] == '#' && buf[cp] == NUL)
  }

  ghost predicate AllStored(buf: array<char>, at: seq<nat>, fs: seq<string>, limit: nat)
    reads buf
  {
    |at| == |fs| <= limit && forall k | 0 <= k < |fs| :: Stored(buf, at[k], fs[k], limit)
  }

  /** The fields found so far, and those still to come. */
  predicate Continues(line: string, fs: seq<string>, cp: nat)
    requires cp <= |line|
  {
    Fields(line[cp..]).Split? && Fields(line) == Split(fs + Fields(line[cp..]).fields)
  }

  /** `getfields`: the places in the buffer at which the fields start.  The caller of a line with an
      unclosed quotation is not served: the scan would run past the end of the line. */
  method GetFields(buf: array<char>, ghost line: string) returns (fields: seq<nat>)
    requires Unread(buf, line, 0) && Fields(line).Split?
    modifies buf
    ensures |fields| <= |line|
    ensures AllStored(buf, fields, Fields(line).fields, |line|)
  {
    hide Fields, Field, Continues;
    fields := [];
    ghost var fs: seq<string> := [];
    var cp := 0;
    AtStart(line);
    while true
      invariant cp <= |line| && Between(buf, line, cp) && AllStored(buf, fields, fs, cp) && Continues(line, fs, cp)
      decreases |line| - cp
    {
      cp := SkipBlanks(buf, line, cp, fs);
      if buf[cp] == NUL || buf[cp] == '#' {
        AtLast(line, fs, cp);
        return;
      }
      CanStart(line, fs, cp);
      ghost var f := Field(line[cp..]).text;
      var start := cp;
      cp := AddField(buf, line, fields, fs, start);
      fields := fields + [start];
      fs := fs + [f];
    }
  }

  /** One field more. */
  method AddField(buf: array<char>, ghost line: string, ghost fields: seq<nat>, ghost fs: seq<string>, start: nat)
    returns (cp: nat)
    requires Between(buf, line, start) && start <= |line| && buf[start] != NUL && buf[start] != '#'
             && !IsSpace(buf[start])
    requires AllStored(buf, fields, fs, start) && Continues(line, fs, start)
    modifies buf
    ensures start < cp <= |line| && Between(buf, line, cp) && Field(line[start..]).Piece?
    ensures var f := Field(line[start..]).text;
            AllStored(buf, fields + [start], fs + [f], cp) && Continues(line, fs + [f], cp)
  {
    hide Fields, Field, Continues;
    CanStart(line, fs, start);
    cp := StoreField(buf, line, fs, start);
    forall k | 0 <= k < |fs| ensures Stored(buf, fields[k], fs[k], cp) {
      assert old(Stored(buf, fields[k], fs[k], start));
    }
  }

  /** Copy one field, terminate it, and step over the space behind it, if any. */
  method StoreField(buf: array<char>, ghost line: string, ghost fs: seq<string>, start: nat) returns (cp: nat)
    requires Unread(buf, line, start) && start < |line| && Continues(line, fs, start) && Field(line[start..]).Piece?
    requires !IsSpace(line[start]) && line[start] != '#'
    modifies buf
    ensures start < cp <= |line| && SameBelow(buf, start) && Between(buf, line, cp)
    ensures Stored(buf, start, Field(line[start..]).text, cp) && Continues(line, fs + [Field(line[start..]).text], cp)
  {
    hide Fields, Field, Continues;
    var dp;
    dp, cp := CopyField(buf, line, start);
    NextField(line, fs, start, cp);
    if IsSpace(buf[cp]) {
      SkipOne(line, fs + [Field(line[start..]).text], cp);
      cp := cp + 1;
    }
    buf[dp] := NUL;
  }

  lemma {:induction false} AtStart(line: string)
    requires Fields(line).Split?
    ensures Continues(line, [], 0)
  {
    assert line[0..] == line && [] + Fields(line).fields == Fields(line).fields;
  }

  lemma {:induction false} AtLast(line: string, fs: seq<string>, cp: nat)
    requires cp <= |line| && Continues(line, fs, cp) && (cp == |line| || line[cp] == '#')
    ensures Fields(line) == Split(fs)
  {
    assert fs + [] == fs;
  }

  lemma {:induction false} CanStart(line: string, fs: seq<string>, start: nat)
    requires start < |line| && Continues(line, fs, start) && !IsSpace(line[start]) && line[start] != '#'
    ensures Field(line[start..]).Piece?
  {
    OneChar(line, start);
  }

  method SkipBlanks(buf: array<char>, ghost line: string, cp0: nat, ghost fs: seq<string>) returns (cp: nat)
    requires cp0 <= |line| && Between(buf, line, cp0) && Continues(line, fs, cp0)
    ensures cp0 <= cp <= |line| && Between(buf, line, cp) && Continues(line, fs, cp)
    ensures !IsSpace(buf[cp]) && (buf[cp0] == NUL ==> cp == cp0)
  {
    hide Fields, Continues;
    cp := cp0;
    while IsSpace(buf[cp])
      invariant cp0 <= cp <= |line| && Between(buf, line, cp) && Continues(line, fs, cp)
      invariant buf[cp0] == NUL ==> cp == cp0
      decreases |line| - cp
    {
      SkipOne(line, fs, cp);
      cp := cp + 1;
    }
  }

  lemma {:induction false} SkipOne(line: string, fs: seq<string>, cp: nat)
    requires cp < |line| && IsSpace(line[cp]) && Continues(line, fs, cp)
    ensures Continues(line, fs, cp + 1)
  {
    OneChar(line, cp);
  }

  lemma {:induction false} NextField(line: string, fs: seq<string>, start: nat, cp: nat)
    requires start < cp <= |line| && Continues(line, fs, start) && !IsSpace(line[start]) && line[start] != '#'
    requires Field(line[start..]).Piece? ==> Field(line[start..]).rest == line[cp..]
    ensures Field(line[start..]).Piece? && Continues(line, fs + [Field(line[start..]).text], cp)
  {
    OneChar(line, start);
    var f := Field(line[start..]);
    var more := Fields(line[cp..]).fields;
    assert fs + ([f.text] + more) == fs + [f.text] + more;
  }
}
