/** The labelled printers lprcat.c and lplf.c: text is filtered, long lines are split, and every page is
    stamped at its top and at its bottom.  lprcat.c is the case without an indent. */
module PagePrinter {

  const ESC: char := 27 as char
  const BS: char := 8 as char
  const FF: char := 12 as char

  /** The characters that can be printed on a line, whether longer lines are cut off, the lines of a page, and
      which characters are replaced by a blank: anywhere, and behind an escape. */
  datatype Settings = Settings(width: nat, indent: nat, truncLine: bool, pageLen: nat, chrmap: set<char>,
                               escmap: set<char>)

  /** A page has a line between its labels, a line has room for a character. */
  predicate Sensible(p: Settings) {
    p.pageLen >= 3 && p.width >= 1
  }

  // ---------------------------------------------------------------- one line

  /** The text printed, the text left, and whether a form feed ended the line. */
  datatype Printed = Printed(text: string, rest: string, eject: bool)

  function Blanks(n: nat): (s: string)
    ensures |s| == n && forall i | 0 <= i < n :: s[i] == ' '
  {
    seq(n, i => ' ')
  }

  /** What one character prints, the column behind it, and whether it was an escape or a form feed. */
  datatype Step = Step(text: string, count: nat, escaped: bool, eject: bool)

  function Handle(p: Settings, c: char, count: nat, escaped: bool): Step {
    if escaped then
      if c in p.escmap then Step(" ", count + 1, false, false) else Step([ESC, c], count, false, false)
    else if c == ESC then
      if c in p.chrmap then Step(" ", count + 1, false, false) else Step("", count, true, false)
    else if c == '\r' then Step([c], 0, false, false)
    else if c == BS then
      if count > 0 then Step([c], count - 1, false, false) else Step("", count, false, false)
    else if c == '\t' then Step(Blanks(8 - count % 8), count + 8 - count % 8, false, false)
    else if c == FF then Step("", count, false, true)
    else Step(if c in p.chrmap then " " else [c], count + 1, false, false)
  }

  /** The character loop of `output`, at a column, perhaps behind an escape.  In the first column it starts
      with the indent. */
  function Emit(p: Settings, t: string, count: nat, escaped: bool): Printed
    decreases |t|
  {
    if count >= p.width || t == [] || t[0] == '\n' then Printed("", t, false)
    else
      var s := Handle(p, t[0], count, escaped);
      var r := if s.eject then Printed("", t[1..], true) else Emit(p, t[1..], s.count, s.escaped);
      r.(text := (if count == 0 then Blanks(p.indent) else "") + s.text + r.text)
  }

  /** The whole of `output`, but for the newline it prints behind the text: a newline read is passed over. */
  function Output(p: Settings, t: string): Printed {
    var r := Emit(p, t, 0, false);
    if r.rest != [] && r.rest[0] == '\n' then r.(rest := r.rest[1..]) else r
  }

  /** A printer that cuts off lines is given no more of them. */
  function Truncated(p: Settings, t: string): string {
    if p.truncLine && |t| >= p.width >= 1 && t[p.width - 1] != '\n' then t[..p.width] + "\n" else t
  }

  // ---------------------------------------------------------------- all lines

  /** A line printed, and whether it ends its page. */
  datatype Row = Row(text: string, eject: bool)

  /** What the line buffer still costs; a newline at its end costs nothing. */
  function Cost(t: string): nat {
    2 * |t| + (if t != [] && t[|t| - 1] != '\n' then 1 else 0)
  }

  lemma {:induction false} EmitConsumes(p: Settings, t: string, count: nat, escaped: bool)
    ensures var r := Emit(p, t, count, escaped);
            |r.rest| <= |t| && r.rest == t[|t| - |r.rest|..]
            && (count < p.width && t != [] && t[0] != '\n' ==> |r.rest| < |t|)
    decreases |t|
  {
    hide Handle;
    if count < p.width && t != [] && t[0] != '\n' {
      var s := Handle(p, t[0], count, escaped);
      EmitConsumes(p, t[1..], s.count, s.escaped);
    }
  }

  lemma {:induction false} OutputEnds(p: Settings, t: string)
    requires Sensible(p) && t != []
    ensures var r := Output(p, t); |r.rest| < |t| && (r.rest != [] ==> r.rest[|r.rest| - 1] == t[|t| - 1])
  {
    hide Emit;
    EmitConsumes(p, t, 0, false);
    var r := Emit(p, t, 0, false);
    if r.rest != [] {
      assert r.rest[|r.rest| - 1] == t[|t| - 1];
    }
  }

  lemma {:induction false} OutputConsumes(p: Settings, t: string)
    requires Sensible(p) && t != []
    ensures var r := Output(p, Truncated(p, t)); Cost(r.rest) < Cost(t)
  {
    hide Output;
    OutputEnds(p, Truncated(p, t));
  }

  /** The rows printed for a line buffer just filled: at least one. */
  function Rows(p: Settings, t: string): seq<Row>
    requires Sensible(p)
    decreases Cost(t)
  {
    var r := Output(p, Truncated(p, t));
    [Row(r.text, r.eject)]
      + (if t == [] then [] else OutputConsumes(p, t); if r.rest == [] then [] else Rows(p, r.rest))
  }

  /** The rows printed for all that `fgets` delivers. */
  function AllRows(p: Settings, lines: seq<string>): seq<Row>
    requires Sensible(p)
  {
    if lines == [] then [] else Rows(p, lines[0]) + AllRows(p, lines[1..])
  }

  // ---------------------------------------------------------------- pages

  function Newlines(n: nat): (s: string)
    ensures |s| == n
  {
    seq(n, i => '\n')
  }

  /** The bodies of the pages on which rows are printed, when `lineno` lines of a page with this body so far
      have been printed; at 0 no page has been begun. */
  function Paginate(p: Settings, rows: seq<Row>, lineno: nat, body: string): seq<string>
    requires Sensible(p) && lineno < p.pageLen
    decreases |rows|, p.pageLen, lineno
  {
    if rows == [] then
      if lineno == 0 then [] else [body + Newlines(p.pageLen - 1 - lineno)]
    else if lineno == p.pageLen - 1 then [body] + Paginate(p, rows, 0, "")
    else
      var before := if lineno == 0 then "" else body;
      var line := if lineno == 0 then 1 else lineno;
      var after := before + rows[0].text + "\n";
      if rows[0].eject then Paginate(p, rows[1..], p.pageLen - 1, after + Newlines(p.pageLen - 2 - line))
      else Paginate(p, rows[1..], line + 1, after)
  }

  // ---------------------------------------------------------------- page framing

  function Count(s: string, c: char): nat {
    if s == [] then 0 else (if s[0] == c then 1 else 0) + Count(s[1..], c)
  }

  lemma {:induction false} CountAppend(s: string, t: string, c: char)
    ensures Count(s + t, c) == Count(s, c) + Count(t, c)
    decreases |s|
  {
    if s == [] {
      assert s + t == t;
    } else {
      assert (s + t)[0] == s[0] && (s + t)[1..] == s[1..] + t;
      CountAppend(s[1..], t, c);
    }
  }

  lemma {:induction false} CountNone(s: string, c: char)
    requires c !in s
    ensures Count(s, c) == 0
    decreases |s|
  {
    if s != [] {
      assert s[0] in s && forall x | x in s[1..] :: x in s;
      CountNone(s[1..], c);
    }
  }

  lemma {:induction false} CountNewlines(n: nat)
    ensures Count(Newlines(n), '\n') == n && Count(Newlines(n), FF) == 0
  {
    if n > 0 {
      assert Newlines(n)[1..] == Newlines(n - 1);
      CountNewlines(n - 1);
    }
  }

  /** A form feed behind an escape cannot get through. */
  predicate Blocks(p: Settings) {
    FF in p.escmap || ESC in p.chrmap
  }

  lemma {:induction false} EmitStaysOnLine(p: Settings, t: string, count: nat, escaped: bool)
    requires Blocks(p) && (escaped ==> ESC !in p.chrmap)
    ensures var r := Emit(p, t, count, escaped); '\n' !in r.text && FF !in r.text
    decreases |t|
  {
    if count < p.width && t != [] && t[0] != '\n' {
      var s := Handle(p, t[0], count, escaped);
      assert '\n' !in s.text && FF !in s.text;
      if !s.eject {
        EmitStaysOnLine(p, t[1..], s.count, s.escaped);
      }
    }
  }

  predicate OnOneLine(r: Row) {
    '\n' !in r.text && FF !in r.text
  }

  /** Nor can it if no more than one character of a line is looked at. */
  predicate Safe(p: Settings) {
    Blocks(p) || (p.truncLine && p.width == 1)
  }

  lemma {:induction false} OutputStaysOnLine(p: Settings, t: string)
    requires Sensible(p) && Safe(p)
    ensures var r := Output(p, Truncated(p, t)); '\n' !in r.text && FF !in r.text
  {
    if Blocks(p) {
      EmitStaysOnLine(p, Truncated(p, t), 0, false);
    } else if t != [] && t[0] != '\n' {
      var u := Truncated(p, t);
      assert u[0] == t[0] && u[1..] == "\n";
      var s := Handle(p, t[0], 0, false);
      assert Emit(p, "\n", s.count, s.escaped) == Printed("", "\n", false);
    }
  }

  lemma {:induction false} RowsOnOneLine(p: Settings, t: string)
    requires Sensible(p) && Safe(p)
    ensures forall r | r in Rows(p, t) :: OnOneLine(r)
    decreases Cost(t)
  {
    hide Emit;
    OutputStaysOnLine(p, t);
    if t != [] {
      OutputConsumes(p, t);
      var r := Output(p, Truncated(p, t));
      if r.rest != [] {
        RowsOnOneLine(p, r.rest);
      }
    }
  }

  lemma {:induction false} AllRowsOnOneLine(p: Settings, lines: seq<string>)
    requires Sensible(p) && Safe(p)
    ensures forall r | r in AllRows(p, lines) :: OnOneLine(r)
  {
    if lines != [] {
      RowsOnOneLine(p, lines[0]);
      AllRowsOnOneLine(p, lines[1..]);
    }
  }

  /** The body of a page is right: with the newline behind its label it has as many lines as fit above the
      label at its foot, and nothing in it leaves the page. */
  predicate IsBody(p: Settings, body: string)
    requires Sensible(p)
  {
    Count(body, '\n') == p.pageLen - 2 && Count(body, FF) == 0
  }

  /** The body of a page of which `lineno` lines have been printed. */
  predicate Partial(body: string, lineno: nat) {
    lineno == 0 || (Count(body, '\n') == lineno - 1 && Count(body, FF) == 0)
  }

  lemma {:induction false} RowAdded(body: string, row: Row, fill: nat)
    requires OnOneLine(row)
    ensures var b := body + row.text + "\n" + Newlines(fill);
            Count(b, '\n') == Count(body, '\n') + 1 + fill && Count(b, FF) == Count(body, FF)
  {
    forall c | c == '\n' || c == FF
      ensures Count(body + row.text + "\n" + Newlines(fill), c)
              == Count(body, c) + Count("\n", c) + Count(Newlines(fill), c)
    {
      CountAppend(body + row.text + "\n", Newlines(fill), c);
      CountAppend(body + row.text, "\n", c);
      CountAppend(body, row.text, c);
      CountNone(row.text, c);
    }
    CountNewlines(fill);
    assert Count("\n", '\n') == 1 && Count("\n", FF) == 0;
  }

  /** Every page is framed. */
  lemma {:induction false} PagesFramed(p: Settings, rows: seq<Row>, lineno: nat, body: string)
    requires Sensible(p) && lineno < p.pageLen && Partial(body, lineno) && forall r | r in rows :: OnOneLine(r)
    ensures forall b | b in Paginate(p, rows, lineno, body) :: IsBody(p, b)
    decreases |rows|, p.pageLen, lineno
  {
    if rows == [] {
      if lineno > 0 {
        var fill := Newlines(p.pageLen - 1 - lineno);
        CountNewlines(p.pageLen - 1 - lineno);
        CountAppend(body, fill, '\n');
        CountAppend(body, fill, FF);
      }
    } else if lineno == p.pageLen - 1 {
      PagesFramed(p, rows, 0, "");
    } else {
      var before := if lineno == 0 then "" else body;
      var line := if lineno == 0 then 1 else lineno;
      var after := before + rows[0].text + "\n";
      assert rows[0] in rows;
      if rows[0].eject {
        RowAdded(before, rows[0], p.pageLen - 2 - line);
        PagesFramed(p, rows[1..], p.pageLen - 1, after + Newlines(p.pageLen - 2 - line));
      } else {
        RowAdded(before, rows[0], 0);
        assert after + Newlines(0) == after;
        PagesFramed(p, rows[1..], line + 1, after);
      }
    }
  }

  function Pages(p: Settings, lines: seq<string>): seq<string>
    requires Sensible(p)
  {
    Paginate(p, AllRows(p, lines), 0, "")
  }

  /** A form feed behind an escape gets through if neither map has it. */
  lemma {:induction false} EscapedFormFeed(p: Settings)
    requires Sensible(p) && !Safe(p)
    ensures var pages := Pages(p, [[ESC, FF]]); |pages| >= 1 && !IsBody(p, pages[0])
  {
    var t := [ESC, FF];
    var u := Truncated(p, t);
    assert u[0] == ESC && u[1] == FF && u[1..][0] == FF;
    var rest := Emit(p, u[1..], 0, true);
    var r := Output(p, u);
    var after := Blanks(p.indent) + [ESC, FF];
    assert exists more: string :: rest.text == after + more by {
      var s := Handle(p, FF, 0, true);
      assert s == Step([ESC, FF], 0, false, false);
      assert rest.text == after + Emit(p, u[1..][1..], 0, false).text;
    }
    assert FF in r.text;
    var rows := AllRows(p, [t]);
    assert rows[0] == Row(r.text, r.eject);
    FormFeedOnPage(p, rows);
    CountSome(Pages(p, [t])[0], FF);
  }

  lemma {:induction false} FormFeedOnPage(p: Settings, rows: seq<Row>)
    requires Sensible(p) && |rows| >= 1 && FF in rows[0].text
    ensures var pages := Paginate(p, rows, 0, ""); |pages| >= 1 && FF in pages[0]
  {
    var after := "" + rows[0].text + "\n";
    if rows[0].eject {
      BodyGrows(p, rows[1..], p.pageLen - 1, after + Newlines(p.pageLen - 3));
    } else {
      BodyGrows(p, rows[1..], 2, after);
    }
  }

  /** A page keeps what is on it. */
  lemma {:induction false} BodyGrows(p: Settings, rows: seq<Row>, lineno: nat, body: string)
    requires Sensible(p) && 0 < lineno < p.pageLen && FF in body
    ensures var pages := Paginate(p, rows, lineno, body); |pages| >= 1 && FF in pages[0]
    decreases |rows|
  {
    if rows != [] && lineno < p.pageLen - 1 {
      var after := body + rows[0].text + "\n";
      if rows[0].eject {
        BodyGrows(p, rows[1..], p.pageLen - 1, after + Newlines(p.pageLen - 2 - lineno));
      } else {
        BodyGrows(p, rows[1..], lineno + 1, after);
      }
    }
  }

  lemma {:induction false} CountSome(s: string, c: char)
    requires c in s
    ensures Count(s, c) > 0
    decreases |s|
  {
    if s[0] != c {
      assert c in s[1..];
      CountSome(s[1..], c);
    }
  }

  /** The main result on the pages: whatever is printed, every page is framed, exactly if a form feed cannot
      get through behind an escape. */
  lemma {:induction false} FramedIff(p: Settings)
    requires Sensible(p)
    ensures (forall lines, b | b in Pages(p, lines) :: IsBody(p, b)) <==> Safe(p)
  {
    hide Pages, IsBody;
    if Safe(p) {
      forall lines, b | b in Pages(p, lines) ensures IsBody(p, b) {
        AllFramed(p, lines);
      }
    } else {
      EscapedFormFeed(p);
      assert Pages(p, [[ESC, FF]])[0] in Pages(p, [[ESC, FF]]);
    }
  }

  lemma {:induction false} AllFramed(p: Settings, lines: seq<string>)
    requires Sensible(p) && Safe(p)
    ensures forall b | b in Pages(p, lines) :: IsBody(p, b)
  {
    AllRowsOnOneLine(p, lines);
    PagesFramed(p, AllRows(p, lines), 0, "");
  }

  // ---------------------------------------------------------------- nothing is lost

  /** What can be seen of a text: all but its newlines. */
  function Visible(s: string): string {
    if s == [] then [] else (if s[0] == '\n' then "" else [s[0]]) + Visible(s[1..])
  }

  lemma {:induction false} VisibleAppend(s: string, t: string)
    ensures Visible(s + t) == Visible(s) + Visible(t)
    decreases |s|
  {
    if s == [] {
      assert s + t == t;
    } else {
      assert (s + t)[0] == s[0] && (s + t)[1..] == s[1..] + t;
      VisibleAppend(s[1..], t);
    }
  }

  lemma {:induction false} VisibleNewlines(n: nat)
    ensures Visible(Newlines(n)) == ""
  {
    if n > 0 {
      assert Newlines(n)[1..] == Newlines(n - 1);
      VisibleNewlines(n - 1);
    }
  }

  function AllVisible(bodies: seq<string>): string {
    if bodies == [] then "" else Visible(bodies[0]) + AllVisible(bodies[1..])
  }

  function RowsVisible(rows: seq<Row>): string {
    if rows == [] then "" else Visible(rows[0].text) + RowsVisible(rows[1..])
  }

  lemma {:induction false} RowVisible(body: string, row: Row, fill: nat)
    ensures Visible(body + row.text + "\n" + Newlines(fill)) == Visible(body) + Visible(row.text)
  {
    VisibleAppend(body + row.text + "\n", Newlines(fill));
    VisibleAppend(body + row.text, "\n");
    VisibleAppend(body, row.text);
    VisibleNewlines(fill);
    assert Visible("\n") == "";
  }

  lemma {:induction false} NothingVisible()
    ensures Visible("") == "" && AllVisible([]) == "" && RowsVisible([]) == ""
    ensures forall s: string :: s + "" == s && "" + s == s
  {
  }

  lemma {:induction false} LastPageVisible(body: string, fill: nat)
    ensures AllVisible([body + Newlines(fill)]) == Visible(body)
  {
    VisibleAppend(body, Newlines(fill));
    VisibleNewlines(fill);
    assert [body + Newlines(fill)][1..] == [];
  }

  lemma {:induction false} NextPageVisible(body: string, bodies: seq<string>)
    ensures AllVisible([body] + bodies) == Visible(body) + AllVisible(bodies)
  {
    assert ([body] + bodies)[1..] == bodies;
  }

  /** Between the labels stands what was printed on the lines, in order. */
  lemma {:induction false} PagesKeepRows(p: Settings, rows: seq<Row>, lineno: nat, body: string)
    requires Sensible(p) && lineno < p.pageLen
    ensures AllVisible(Paginate(p, rows, lineno, body))
            == (if lineno == 0 then "" else Visible(body)) + RowsVisible(rows)
    decreases |rows|, p.pageLen, lineno
  {
    hide Visible, Newlines, AllVisible, RowsVisible;
    NothingVisible();
    if rows == [] {
      LastPageVisible(body, p.pageLen - 1 - lineno);
    } else if lineno == p.pageLen - 1 {
      PagesKeepRows(p, rows, 0, "");
      NextPageVisible(body, Paginate(p, rows, 0, ""));
    } else {
      var before := if lineno == 0 then "" else body;
      var line := if lineno == 0 then 1 else lineno;
      var after := before + rows[0].text + "\n";
      FirstRowVisible(before, rows, p.pageLen - 2 - line);
      if rows[0].eject {
        PagesKeepRows(p, rows[1..], p.pageLen - 1, after + Newlines(p.pageLen - 2 - line));
      } else {
        PagesKeepRows(p, rows[1..], line + 1, after);
      }
    }
  }

  /** What can be seen behind the first row and in front of the others. */
  lemma {:induction false} FirstRowVisible(before: string, rows: seq<Row>, fill: nat)
    requires rows != []
    ensures var after := before + rows[0].text + "\n";
            && Visible(after) + RowsVisible(rows[1..]) == Visible(before) + RowsVisible(rows)
            && Visible(after + Newlines(fill)) + RowsVisible(rows[1..]) == Visible(before) + RowsVisible(rows)
  {
    hide Visible, Newlines;
    RowVisible(before, rows[0], fill);
    PlainRowVisible(before, rows[0]);
    var text, rest := Visible(rows[0].text), RowsVisible(rows[1..]);
    assert Visible(before) + text + rest == Visible(before) + (text + rest);
  }

  lemma {:induction false} PlainRowVisible(body: string, row: Row)
    ensures Visible(body + row.text + "\n") == Visible(body) + Visible(row.text)
  {
    RowVisible(body, row, 0);
    assert body + row.text + "\n" + Newlines(0) == body + row.text + "\n";
  }

  // ---------------------------------------------------------------- which rows a page holds

  /** Rows as they are printed, a newline behind each. */
  function RowLines(rows: seq<Row>): string {
    if rows == [] then "" else rows[0].text + "\n" + RowLines(rows[1..])
  }

  /** When `used` rows of a page have been printed, the next `n` complete it: no more fit, or are left, or the last of
      them was ended by a form feed. */
  predicate Completes(p: Settings, rows: seq<Row>, n: nat, used: nat)
    requires Sensible(p)
  {
    && n <= |rows| && used + n <= p.pageLen - 2
    && (forall i | 0 <= i < n - 1 :: !rows[i].eject)
    && (n == |rows| || used + n == p.pageLen - 2 || (n > 0 && rows[n - 1].eject))
  }

  lemma {:induction false} FullPage(p: Settings, rows: seq<Row>, body: string)
    requires Sensible(p)
    ensures Paginate(p, rows, p.pageLen - 1, body) == [body] + Paginate(p, rows, 0, "")
  {
    if rows == [] {
      assert body + Newlines(0) == body;
      assert [body] + [] == [body];
    }
  }

  lemma {:induction false} RowLinesCons(body: string, rows: seq<Row>, n: nat, fill: string)
    requires 0 < n <= |rows|
    ensures body + rows[0].text + "\n" + RowLines(rows[1..][..n - 1]) + fill == body + RowLines(rows[..n]) + fill
  {
    assert rows[..n][1..] == rows[1..][..n - 1];
    var more := RowLines(rows[1..][..n - 1]);
    assert body + rows[0].text + "\n" + more == body + (rows[0].text + "\n" + more);
  }

  lemma {:induction false} PageGoesOn(p: Settings, rows: seq<Row>, n: nat, used: nat, body: string)
    requires Sensible(p) && Completes(p, rows, n, used) && (used == 0 ==> n > 0 && body == "")
    ensures Paginate(p, rows, if used == 0 then 0 else used + 1, body)
            == [body + RowLines(rows[..n]) + Newlines(p.pageLen - 2 - used - n)] + Paginate(p, rows[n..], 0, "")
    decreases n
  {
    hide Newlines, RowLines;
    if n == 0 {
      assert RowLines(rows[..0]) == "" by { NoRowLines(rows); }
      assert rows[0..] == rows && body + "" == body;
      if used == p.pageLen - 2 {
        FullPage(p, rows, body);
        assert body + Newlines(0) == body by { NoNewlines(); }
      } else {
        assert [body + Newlines(p.pageLen - 2 - used)] + [] == [body + Newlines(p.pageLen - 2 - used)];
      }
    } else {
      var after := body + rows[0].text + "\n";
      var fill := Newlines(p.pageLen - 2 - used - n);
      RowLinesCons(body, rows, n, fill);
      assert rows[1..][n - 1..] == rows[n..];
      if rows[0].eject {
        assert n == 1;
        FullPage(p, rows[1..], after + fill);
        assert RowLines(rows[1..][..0]) == "" by { NoRowLines(rows[1..]); }
        assert after + "" == after;
      } else {
        PageGoesOn(p, rows[1..], n - 1, used + 1, after);
      }
    }
  }

  lemma {:induction false} NoRowLines(rows: seq<Row>)
    ensures RowLines(rows[..0]) == ""
  {
  }

  lemma {:induction false} NoNewlines()
    ensures Newlines(0) == ""
  {
  }

  /** The rows that complete a page are on it, in order and filled up with newlines, and those behind them begin
      another: a page is full, or a form feed has ended it, or it is the last. */
  lemma {:induction false} PageHolds(p: Settings, rows: seq<Row>, n: nat)
    requires Sensible(p) && Completes(p, rows, n, 0) && n > 0
    ensures Paginate(p, rows, 0, "")
            == [RowLines(rows[..n]) + Newlines(p.pageLen - 2 - n)] + Paginate(p, rows[n..], 0, "")
  {
    PageGoesOn(p, rows, n, 0, "");
    assert "" + RowLines(rows[..n]) == RowLines(rows[..n]);
  }

  // ---------------------------------------------------------------- what the filter lets through

  /** Text that is neither control nor escape. */
  predicate Printable(t: string) {
    forall c | c in t :: c != ESC && c != BS && c != FF && c != '\r' && c != '\t' && c != '\n'
  }

  /** Exactly the characters of the map replaced by blanks. */
  function Replaced(p: Settings, t: string): (r: string)
    ensures |r| == |t| && forall i | 0 <= i < |t| :: r[i] == if t[i] in p.chrmap then ' ' else t[i]
  {
    seq(|t|, i requires 0 <= i < |t| => if t[i] in p.chrmap then ' ' else t[i])
  }

  /** Such text as it is printed from a column on, behind the indent if that is the first. */
  function Led(p: Settings, t: string, count: nat): string {
    (if count == 0 && t != "" then Blanks(p.indent) else "") + Replaced(p, t)
  }

  lemma {:induction false} OneEmitted(p: Settings, t: string, count: nat, escaped: bool)
    requires count < p.width && t != "" && t[0] != '\n'
    ensures var s := Handle(p, t[0], count, escaped);
            var r := if s.eject then Printed("", t[1..], true) else Emit(p, t[1..], s.count, s.escaped);
            Emit(p, t, count, escaped)
            == r.(text := (if count == 0 then Blanks(p.indent) else "") + s.text + r.text)
  {
    hide Handle;
  }

  lemma {:induction false} LedCons(p: Settings, t: string, count: nat, more: string)
    requires t != ""
    ensures (if count == 0 then Blanks(p.indent) else "") + Replaced(p, t[..1]) + (Led(p, t[1..], count + 1) + more)
            == Led(p, t, count) + more
  {
    assert Replaced(p, t) == Replaced(p, t[..1]) + Replaced(p, t[1..]);
  }

  /** Printable text on a line that has room for it is printed, filtered, and the rest of the line behind it. */
  lemma {:induction false} PrintableEmitted(p: Settings, t: string, rest: string, count: nat)
    requires Printable(t) && count + |t| <= p.width
    ensures var r := Emit(p, rest, count + |t|, false);
            Emit(p, t + rest, count, false) == r.(text := Led(p, t, count) + r.text)
    decreases |t|
  {
    hide Emit, Led;
    var r := Emit(p, rest, count + |t|, false);
    if t == "" {
      assert t + rest == rest && Led(p, t, count) + r.text == r.text by { LedNothing(p, count); }
    } else {
      var c := t[0];
      assert (t + rest)[0] == c && (t + rest)[1..] == t[1..] + rest && c in t;
      assert forall x | x in t[1..] :: x in t;
      OneEmitted(p, t + rest, count, false);
      PrintableEmitted(p, t[1..], rest, count + 1);
      assert Handle(p, c, count, false) == Step(Replaced(p, t[..1]), count + 1, false, false);
      LedCons(p, t, count, r.text);
    }
  }

  lemma {:induction false} LedNothing(p: Settings, count: nat)
    ensures Led(p, "", count) == "" && forall x: string :: "" + x == x
  {
  }

  /** The first character behind such text. */
  lemma {:induction false} NextEmitted(p: Settings, t: string, rest: string)
    requires Printable(t) && |t| < p.width && rest != "" && rest[0] != '\n' && (t != "" || p.indent == 0)
    ensures var s := Handle(p, rest[0], |t|, false);
            var r := if s.eject then Printed("", rest[1..], true) else Emit(p, rest[1..], s.count, s.escaped);
            Emit(p, t + rest, 0, false) == r.(text := Led(p, t, 0) + s.text + r.text)
  {
    hide Emit, Handle, Led;
    PrintableEmitted(p, t, rest, 0);
    OneEmitted(p, rest, |t|, false);
    var s := Handle(p, rest[0], |t|, false);
    assert (if |t| == 0 then Blanks(p.indent) else "") + s.text == s.text;
    var r := if s.eject then Printed("", rest[1..], true) else Emit(p, rest[1..], s.count, s.escaped);
    assert Led(p, t, 0) + (s.text + r.text) == Led(p, t, 0) + s.text + r.text;
  }

  /** A carriage return goes back to the first column, a backspace by one column and none in the first, a tab to the
      next multiple of 8, and a form feed ends the line. */
  lemma {:induction false} ControlPrinted(p: Settings, t: string, rest: string)
    requires Printable(t) && |t| < p.width && (t != "" || p.indent == 0)
    ensures Emit(p, t + ("\r" + rest), 0, false).text == Led(p, t, 0) + "\r" + Emit(p, rest, 0, false).text
    ensures t != "" ==>
              Emit(p, t + ([BS] + rest), 0, false).text == Led(p, t, 0) + [BS] + Emit(p, rest, |t| - 1, false).text
    ensures t == "" ==> Emit(p, [BS] + rest, 0, false).text == Emit(p, rest, 0, false).text
    ensures var stop := (|t| / 8 + 1) * 8;
            Emit(p, t + ("\t" + rest), 0, false).text
            == Led(p, t, 0) + Blanks(stop - |t|) + Emit(p, rest, stop, false).text
    ensures Emit(p, t + ([FF] + rest), 0, false) == Printed(Led(p, t, 0), rest, true)
  {
    hide Emit, Led;
    forall c: char ensures ([c] + rest)[0] == c && ([c] + rest)[1..] == rest {
    }
    NextEmitted(p, t, "\r" + rest);
    NextEmitted(p, t, [BS] + rest);
    NextEmitted(p, t, "\t" + rest);
    NextEmitted(p, t, [FF] + rest);
    assert t == "" ==> Led(p, t, 0) == "" by { LedNothing(p, 0); }
    assert t == "" ==> t + ([BS] + rest) == [BS] + rest;
    assert Led(p, t, 0) + "" + "" == Led(p, t, 0);
  }

  /** An escape of the map becomes a blank; behind another one a character of the other map becomes a blank and any
      other goes through with the escape, in no column. */
  lemma {:induction false} EscapePrinted(p: Settings, t: string, c: char, rest: string)
    requires Printable(t) && |t| < p.width && (t != "" || p.indent == 0) && c != '\n'
    ensures Emit(p, t + ([ESC, c] + rest), 0, false).text
            == Led(p, t, 0)
               + (if ESC in p.chrmap then " " + Emit(p, [c] + rest, |t| + 1, false).text
                  else if c in p.escmap then " " + Emit(p, rest, |t| + 1, false).text
                  else [ESC, c] + Emit(p, rest, |t|, false).text)
  {
    hide Emit, Led;
    assert ([ESC, c] + rest)[0] == ESC && ([ESC, c] + rest)[1..] == [c] + rest;
    assert ([c] + rest)[0] == c && ([c] + rest)[1..] == rest;
    NextEmitted(p, t, [ESC, c] + rest);
    OneEmitted(p, [c] + rest, |t|, true);
    assert |t| == 0 ==> Blanks(p.indent) == "";
  }

  /** Printed text that has been filtered: an escape is one that the map lets through, with a character behind it
      that the other map does; any other character is none of the map's, or a blank, a carriage return or a
      backspace. */
  predicate Filtered(p: Settings, x: string) {
    x == ""
    || (if x[0] == ESC then ESC !in p.chrmap && |x| >= 2 && x[1] !in p.escmap && Filtered(p, x[2..])
        else && (x[0] in p.chrmap ==> x[0] == ' ' || x[0] == '\r' || x[0] == BS)
             && x[0] != FF && x[0] != '\t' && x[0] != '\n' && Filtered(p, x[1..]))
  }

  lemma {:induction false} FilteredAppend(p: Settings, x: string, y: string)
    requires Filtered(p, x) && Filtered(p, y)
    ensures Filtered(p, x + y)
    decreases |x|
  {
    if x == "" {
      assert x + y == y;
    } else if x[0] == ESC {
      assert (x + y)[2..] == x[2..] + y;
      FilteredAppend(p, x[2..], y);
    } else {
      assert (x + y)[1..] == x[1..] + y;
      FilteredAppend(p, x[1..], y);
    }
  }

  lemma {:induction false} BlanksFiltered(p: Settings, n: nat)
    ensures Filtered(p, Blanks(n))
  {
    if n > 0 {
      assert Blanks(n)[1..] == Blanks(n - 1);
      BlanksFiltered(p, n - 1);
    }
  }

  lemma {:induction false} StepFiltered(p: Settings, c: char, count: nat, escaped: bool)
    requires c != '\n' && (escaped ==> ESC !in p.chrmap)
    ensures var s := Handle(p, c, count, escaped); Filtered(p, s.text) && (s.escaped ==> ESC !in p.chrmap)
  {
    BlanksFiltered(p, 8 - count % 8);
    assert Filtered(p, "");
  }

  /** Whatever the text, what is printed of a line has been filtered. */
  lemma {:induction false} EmitFilters(p: Settings, t: string, count: nat, escaped: bool)
    requires escaped ==> ESC !in p.chrmap
    ensures Filtered(p, Emit(p, t, count, escaped).text)
    decreases |t|
  {
    hide Handle, Filtered;
    assert Filtered(p, "") by { BlanksFiltered(p, 0); assert Blanks(0) == ""; }
    if count < p.width && t != [] && t[0] != '\n' {
      var s := Handle(p, t[0], count, escaped);
      StepFiltered(p, t[0], count, escaped);
      var r := if s.eject then Printed("", t[1..], true) else Emit(p, t[1..], s.count, s.escaped);
      if !s.eject {
        EmitFilters(p, t[1..], s.count, s.escaped);
      }
      BlanksFiltered(p, p.indent);
      var margin := if count == 0 then Blanks(p.indent) else "";
      FilteredAppend(p, margin, s.text);
      FilteredAppend(p, margin + s.text, r.text);
    }
  }

  lemma {:induction false} RowsFiltered(p: Settings, t: string)
    requires Sensible(p)
    ensures forall r | r in Rows(p, t) :: Filtered(p, r.text)
    decreases Cost(t)
  {
    hide Emit, Filtered;
    EmitFilters(p, Truncated(p, t), 0, false);
    if t != [] {
      OutputConsumes(p, t);
      var r := Output(p, Truncated(p, t));
      if r.rest != [] {
        RowsFiltered(p, r.rest);
      }
    }
  }

  /** So has every row printed of any input. */
  lemma {:induction false} AllRowsFiltered(p: Settings, lines: seq<string>)
    requires Sensible(p)
    ensures forall r | r in AllRows(p, lines) :: Filtered(p, r.text)
  {
    hide Filtered;
    if lines != [] {
      RowsFiltered(p, lines[0]);
      AllRowsFiltered(p, lines[1..]);
    }
  }

  // ---------------------------------------------------------------- columns

  /** The column in which the print head stands when this text has been printed from column `c` on.  An escape and
      the character behind it are not seen. */
  function HeadAt(x: string, c: int): int {
    if x == "" then c
    else if x[0] == ESC && |x| >= 2 then HeadAt(x[2..], c)
    else if x[0] == '\r' then HeadAt(x[1..], 0)
    else if x[0] == BS then HeadAt(x[1..], c - 1)
    else HeadAt(x[1..], c + 1)
  }

  /** No character but a blank is printed in or behind column `width`, no blank seven columns further, and none is
      taken back in the first. */
  predicate StaysWithin(x: string, c: int, width: nat) {
    x == ""
    || (if x[0] == ESC && |x| >= 2 then c < width && StaysWithin(x[2..], c, width)
        else if x[0] == '\r' then StaysWithin(x[1..], 0, width)
        else if x[0] == BS then c > 0 && StaysWithin(x[1..], c - 1, width)
        else c < (if x[0] == ' ' then width + 7 else width) && StaysWithin(x[1..], c + 1, width))
  }

  lemma {:induction false} BlanksAdvance(n: nat, x: string, c: int, width: nat)
    ensures HeadAt(Blanks(n) + x, c) == HeadAt(x, c + n)
    ensures c + n <= width + 7 && StaysWithin(x, c + n, width) ==> StaysWithin(Blanks(n) + x, c, width)
  {
    if n == 0 {
      assert Blanks(n) + x == x;
    } else {
      assert (Blanks(n) + x)[1..] == Blanks(n - 1) + x && (Blanks(n) + x)[0] == ' ';
      BlanksAdvance(n - 1, x, c + 1, width);
    }
  }

  /** Nothing, one character, or an escape and what stands behind it, printed in one column, leads to another. */
  predicate Moves(s: string, count: nat, count': nat) {
    if s == "" then count' == count
    else if s == "\r" then count' == 0
    else if s == [BS] then count > 0 && count' == count - 1
    else if |s| == 1 then s[0] != ESC && count' == count + 1
    else |s| == 2 && s[0] == ESC && count' == count
  }

  lemma {:induction false} OneAdvances(s: string, x: string, count: nat, count': nat, width: nat)
    requires count < width && Moves(s, count, count')
    ensures HeadAt(s + x, count) == HeadAt(x, count')
    ensures StaysWithin(x, count', width) ==> StaysWithin(s + x, count, width)
  {
    if |s| == 0 {
      assert s + x == x;
    } else if |s| == 1 {
      assert (s + x)[1..] == x && (s + x)[0] == s[0];
    } else {
      assert (s + x)[2..] == x && (s + x)[0] == ESC;
    }
  }

  lemma {:induction false} StepAdvances(p: Settings, c: char, count: nat, escaped: bool, x: string)
    requires count < p.width
    ensures var s := Handle(p, c, count, escaped);
            && HeadAt(s.text + x, count) == HeadAt(x, s.count)
            && (StaysWithin(x, s.count, p.width) ==> StaysWithin(s.text + x, count, p.width))
  {
    hide HeadAt, StaysWithin;
    var s := Handle(p, c, count, escaped);
    if !escaped && c == '\t' {
      BlanksAdvance(8 - count % 8, x, count, p.width);
    } else {
      OneAdvances(s.text, x, count, s.count, p.width);
    }
  }

  /** A printer without an indent stays within its width, and leaves text for another line only at a newline, behind
      a form feed, or when the head has come to the width. */
  lemma {:induction false} LineIsFilled(p: Settings, t: string, count: nat, escaped: bool)
    requires p.indent == 0
    ensures var r := Emit(p, t, count, escaped);
            && StaysWithin(r.text, count, p.width)
            && (r.rest == "" || r.rest[0] == '\n' || r.eject || HeadAt(r.text, count) >= p.width)
    decreases |t|
  {
    hide Handle, StaysWithin, HeadAt;
    NothingAdvances(count, p.width);
    if count < p.width && t != [] && t[0] != '\n' {
      var s := Handle(p, t[0], count, escaped);
      var r := if s.eject then Printed("", t[1..], true) else Emit(p, t[1..], s.count, s.escaped);
      OneEmitted(p, t, count, escaped);
      assert (if count == 0 then Blanks(p.indent) else "") + s.text == s.text;
      StepAdvances(p, t[0], count, escaped, r.text);
      if s.eject {
        NothingAdvances(s.count, p.width);
      } else {
        LineIsFilled(p, t[1..], s.count, s.escaped);
      }
    }
  }

  lemma {:induction false} NothingAdvances(c: int, width: nat)
    ensures HeadAt("", c) == c && StaysWithin("", c, width)
  {
  }

  // ---------------------------------------------------------------- lines of printable text

  lemma {:induction false} PrintableParts(t: string, k: nat)
    requires Printable(t) && k <= |t|
    ensures Printable(t[k..]) && Printable(t[..k])
  {
    forall c | c in t[k..] || c in t[..k] ensures c in t {
    }
  }

  /** As much of such a line as fits is printed, filtered and behind the indent; the rest stays in the buffer. */
  lemma {:induction false} PrintableOutput(p: Settings, t: string, tail: string)
    requires Sensible(p) && Printable(t) && (tail == "" || tail == "\n")
    ensures var k := if |t| <= p.width then |t| else p.width;
            Output(p, t + tail) == Printed(Led(p, t[..k], 0), if k == |t| then "" else t[k..] + tail, false)
  {
    hide Led;
    var k := if |t| <= p.width then |t| else p.width;
    PrintableParts(t, k);
    assert t + tail == t[..k] + (t[k..] + tail);
    PrintableEmitted(p, t[..k], t[k..] + tail, 0);
    assert Emit(p, t[k..] + tail, k, false) == Printed("", t[k..] + tail, false) by {
      assert k == |t| ==> t[k..] + tail == tail;
    }
    assert Led(p, t[..k], 0) + "" == Led(p, t[..k], 0);
    assert k < |t| ==> (t[k..] + tail)[0] == t[k] && t[k] in t;
    assert k == |t| ==> t[k..] + tail == tail;
  }

  /** What the rows show behind the indent. */
  function Shown(p: Settings, rows: seq<Row>): string {
    if rows == [] then ""
    else (if |rows[0].text| >= p.indent then rows[0].text[p.indent..] else "") + Shown(p, rows[1..])
  }

  predicate Margined(p: Settings, row: Row) {
    row.text == "" || (p.indent <= |row.text| <= p.indent + p.width && row.text[..p.indent] == Blanks(p.indent))
  }

  lemma {:induction false} LedMargined(p: Settings, t: string)
    requires |t| <= p.width
    ensures Margined(p, Row(Led(p, t, 0), false))
    ensures var x := Led(p, t, 0); (if |x| >= p.indent then x[p.indent..] else "") == Replaced(p, t)
  {
  }

  /** Rows, each behind the indent and no longer than the width, that put together are a line with exactly the
      characters of the map replaced by blanks; no more of them than the line needs. */
  predicate ShowLine(p: Settings, rows: seq<Row>, t: string)
    requires Sensible(p)
  {
    && Shown(p, rows) == Replaced(p, t)
    && (forall i | 0 <= i < |rows| :: Margined(p, rows[i]) && !rows[i].eject)
    && |rows| == (if t == "" then 1 else (|t| + p.width - 1) / p.width)
  }

  lemma {:induction false} FirstRow(p: Settings, t: string, tail: string)
    requires Sensible(p) && Printable(t) && !p.truncLine && (tail == "" || tail == "\n")
    ensures |t| <= p.width ==> Rows(p, t + tail) == [Row(Led(p, t, 0), false)]
    ensures |t| > p.width ==>
              Rows(p, t + tail) == [Row(Led(p, t[..p.width], 0), false)] + Rows(p, t[p.width..] + tail)
  {
    hide Output, Led;
    PrintableOutput(p, t, tail);
    assert |t| <= p.width ==> t[..|t|] == t;
  }

  lemma {:induction false} OneRowShows(p: Settings, t: string)
    requires Sensible(p) && |t| <= p.width
    ensures ShowLine(p, [Row(Led(p, t, 0), false)], t)
  {
    hide Led, Replaced, Margined;
    LedMargined(p, t);
    RowsFor(|t|, p.width);
    var rows := [Row(Led(p, t, 0), false)];
    assert rows[1..] == [] && Shown(p, []) == "";
    assert Shown(p, rows) == Replaced(p, t) + "";
  }

  lemma {:induction false} MoreRowsShow(p: Settings, t: string, more: seq<Row>)
    requires Sensible(p) && |t| > p.width && ShowLine(p, more, t[p.width..])
    ensures ShowLine(p, [Row(Led(p, t[..p.width], 0), false)] + more, t)
  {
    hide Led, Replaced, Margined;
    LedMargined(p, t[..p.width]);
    RowsFor(|t|, p.width);
    ReplacedParts(p, t, p.width);
    var rows := [Row(Led(p, t[..p.width], 0), false)] + more;
    assert rows[1..] == more;
  }

  /** So is every line of printable text split. */
  lemma {:induction false} PrintableLineKept(p: Settings, t: string, tail: string)
    requires Sensible(p) && Printable(t) && !p.truncLine && (tail == "" || tail == "\n")
    ensures ShowLine(p, Rows(p, t + tail), t)
    decreases |t|
  {
    hide Rows, ShowLine, Printable, Led;
    FirstRow(p, t, tail);
    if |t| <= p.width {
      OneRowShows(p, t);
    } else {
      PrintableParts(t, p.width);
      PrintableLineKept(p, t[p.width..], tail);
      MoreRowsShow(p, t, Rows(p, t[p.width..] + tail));
    }
  }

  lemma {:induction false} ReplacedParts(p: Settings, t: string, k: nat)
    requires k <= |t|
    ensures Replaced(p, t[..k]) + Replaced(p, t[k..]) == Replaced(p, t)
  {
  }

  lemma {:induction false} RowsFor(n: nat, w: nat)
    requires w >= 1
    ensures 0 < n <= w ==> (n + w - 1) / w == 1
    ensures n > w ==> (n + w - 1) / w == 1 + (n - w + w - 1) / w
  {
    if n > w {
      assert n + w - 1 == 1 * w + (n - w + w - 1);
      DivOneMore(n - w + w - 1, w);
    }
  }

  lemma {:induction false} DivOneMore(a: nat, w: nat)
    requires w >= 1
    ensures (a + w) / w == a / w + 1
  {
    var q, r := a / w, a % w;
    assert a + w == (q + 1) * w + r;
    QuotientIs(a + w, w, q + 1, r);
  }

  lemma {:induction false} QuotientIs(a: nat, w: nat, q: nat, r: nat)
    requires r < w && a == q * w + r
    ensures a / w == q
  {
    var d := a / w - q;
    assert d * w == r - a % w;
    assert d > 0 ==> d * w >= w;
    assert d < 0 ==> d * w + w <= 0;
  }

  /** A printer that cuts off lines shows as much of one as fits, in one row. */
  lemma {:induction false} PrintableLineCut(p: Settings, t: string, tail: string)
    requires Sensible(p) && Printable(t) && p.truncLine && (tail == "" || tail == "\n")
    ensures Rows(p, t + tail) == [Row(Led(p, if |t| <= p.width then t else t[..p.width], 0), false)]
  {
    hide Output, Led;
    var k := if |t| <= p.width then |t| else p.width;
    PrintableParts(t, k);
    assert k > 0 ==> t[k - 1] in t && (t + tail)[k - 1] == t[k - 1];
    var u := Truncated(p, t + tail);
    if |t| >= p.width {
      assert u == t[..k] + "\n" by { assert (t + tail)[..k] == t[..k]; }
      PrintableOutput(p, t[..k], "\n");
      assert t[..k][..k] == t[..k];
    } else {
      assert u == t + tail && t[..k] == t by { assert |t + tail| >= p.width ==> (t + tail)[p.width - 1] == '\n'; }
      PrintableOutput(p, t, tail);
    }
    assert Output(p, u) == Printed(Led(p, t[..k], 0), "", false);
    assert t[..k] == if |t| <= p.width then t else t[..p.width];
  }

  // ---------------------------------------------------------------- the programs

  /** What is sent to the printer: the formatted label, its sequence for a form feed, or a character. */
  datatype Token = Label | FormFeed | Ch(c: char)

  function Chars(s: string): (r: seq<Token>)
    ensures |r| == |s|
  {
    seq(|s|, i requires 0 <= i < |s| => Ch(s[i]))
  }

  const TOP := [Label, Ch('\n')]
  const BOTTOM := [Label, Ch('\r'), FormFeed]

  /** Pages as they are sent: each between its labels, and a form feed behind. */
  function Render(bodies: seq<string>): seq<Token>
    decreases |bodies|
  {
    if bodies == [] then [] else Render(bodies[..|bodies| - 1]) + TOP + Chars(bodies[|bodies| - 1]) + BOTTOM
  }

  /** A page is sent behind its label and a newline, and its foot is the label, a carriage return and a form feed. */
  lemma {:induction false} PageSent(bodies: seq<string>, body: string)
    ensures Render([]) == []
    ensures Render(bodies + [body])
            == Render(bodies) + [Label, Ch('\n')] + Chars(body) + [Label, Ch('\r'), FormFeed]
  {
    assert (bodies + [body])[..|bodies|] == bodies;
  }

  lemma {:induction false} NextTabStop(count: nat, k: nat)
    requires count < k <= count + 8 - count % 8
    ensures k % 8 == 0 <==> k == count + 8 - count % 8
  {
    var q, r := count / 8, count % 8;
    assert count == 8 * q + r && 8 * q < k <= 8 * q + 8;
  }

  /** The blanks of a tab. */
  method Tab(count: nat) returns (text: string, count': nat)
    ensures text == Blanks(8 - count % 8) && count' == count + 8 - count % 8
  {
    text, count' := " ", count + 1;
    while count' % 8 != 0
      invariant count < count' <= count + 8 - count % 8
      invariant |text| == count' - count && forall i | 0 <= i < |text| :: text[i] == ' '
      decreases count + 8 - count % 8 - count'
    {
      NextTabStop(count, count');
      text := text + " ";
      count' := count' + 1;
    }
    NextTabStop(count, count');
  }

  /** One character of `output`. */
  method PrintChar(p: Settings, c: char, count: nat, escaped: bool)
    returns (text: string, count': nat, escaped': bool, eject: bool)
    ensures Handle(p, c, count, escaped) == Step(text, count', escaped', eject)
  {
    text, count', escaped', eject := "", count, false, false;
    if escaped {
      if c in p.escmap {
        text, count' := " ", count + 1;
      } else {
        text := [ESC, c];
      }
    } else if c == ESC {
      if c in p.chrmap {
        text, count' := " ", count + 1;
      } else {
        escaped' := true;
      }
    } else if c == '\r' {
      text, count' := [c], 0;
    } else if c == BS {
      if count > 0 {
        text, count' := [c], count - 1;
      }
    } else if c == '\t' {
      text, count' := Tab(count);
    } else if c == FF {
      eject := true;
    } else if c in p.chrmap {
      text, count' := " ", count + 1;
    } else {
      text, count' := [c], count + 1;
    }
  }

  /** The text so far, continued by what is printed from `cp` on, is all that is printed. */
  ghost predicate PrintedTo(p: Settings, line: string, text: string, cp: nat, count: nat, escaped: bool, eject: bool) {
    cp <= |line|
    && var all := Emit(p, line, 0, false);
       if eject then all == Printed(text, line[cp..], true)
       else var e := Emit(p, line[cp..], count, escaped); all == Printed(text + e.text, e.rest, e.eject)
  }

  lemma {:induction false} PrintedStep(p: Settings, line: string, text: string, cp: nat, count: nat, escaped: bool)
    requires PrintedTo(p, line, text, cp, count, escaped, false) && count < p.width && cp < |line| && line[cp] != '\n'
    ensures var s := Handle(p, line[cp], count, escaped);
            PrintedTo(p, line, text + (if count == 0 then Blanks(p.indent) else "") + s.text, cp + 1, s.count,
                      s.escaped, s.eject)
  {
    hide Handle;
    var margin := if count == 0 then Blanks(p.indent) else "";
    var s := Handle(p, line[cp], count, escaped);
    assert line[cp..][0] == line[cp] && line[cp..][1..] == line[cp + 1..];
    var r := if s.eject then Printed("", line[cp + 1..], true) else Emit(p, line[cp + 1..], s.count, s.escaped);
    var e := Emit(p, line[cp..], count, escaped);
    assert e == r.(text := margin + s.text + r.text);
    assert text + (margin + s.text + r.text) == text + margin + s.text + r.text;
    assert text + margin + s.text + "" == text + margin + s.text;
  }

  /** `output`: the text printed in front of its newline, and what is left in the line buffer. */
  method PrintLine(p: Settings, line: string) returns (text: string, rest: string, eject: bool)
    ensures Output(p, line) == Printed(text, rest, eject)
  {
    hide PrintedTo, Handle, Emit;
    var cp: nat, count: nat, escaped := 0, 0, false;
    text, eject := "", false;
    NothingPrinted(p, line);
    while cp < |line| && count < p.width && line[cp] != '\n' && !eject
      invariant cp <= |line| && PrintedTo(p, line, text, cp, count, escaped, eject)
      decreases |line| - cp
    {
      PrintedStep(p, line, text, cp, count, escaped);
      if count == 0 {
        text := text + Blanks(p.indent);
      } else {
        assert text + "" == text;
      }
      var piece;
      piece, count, escaped, eject := PrintChar(p, line[cp], count, escaped);
      text := text + piece;
      cp := cp + 1;
    }
    AllPrinted(p, line, text, cp, count, escaped, eject);
    rest := line[cp..];
    if cp < |line| && line[cp] == '\n' {
      rest := line[cp + 1..];
    }
  }

  lemma {:induction false} NothingPrinted(p: Settings, line: string)
    ensures PrintedTo(p, line, "", 0, 0, false, false)
  {
    assert line[0..] == line;
    var t := Emit(p, line, 0, false).text;
    assert "" + t == t;
  }

  lemma {:induction false} AllPrinted(p: Settings, line: string, text: string, cp: nat, count: nat, escaped: bool,
                                      eject: bool)
    requires PrintedTo(p, line, text, cp, count, escaped, eject)
    requires cp == |line| || count >= p.width || line[cp] == '\n' || eject
    ensures Emit(p, line, 0, false) == Printed(text, line[cp..], eject)
    ensures cp < |line| ==> line[cp..] != [] && line[cp..][0] == line[cp] && line[cp..][1..] == line[cp + 1..]
  {
    assert text + "" == text;
  }

  // ---------------------------------------------------------------- the main loop

  class Printer {
    const p: Settings
    var line: string
    var lineno: nat
    var pages: nat
    var out: seq<Token>
    /** The pages finished and the body of the one begun, if one is. */
    ghost var finished: seq<string>
    ghost var body: string

    constructor (p: Settings)
      requires Sensible(p)
      ensures this.p == p && Valid() && line == "" && lineno == 0 && finished == [] && body == ""
    {
      this.p := p;
      line, lineno, pages, out, finished, body := "", 0, 0, [], [], "";
    }

    /** What has been sent is the pages finished and the head of another, and the pages have been counted. */
    ghost predicate Valid()
      reads this
    {
      && Sensible(p) && lineno < p.pageLen && pages == |finished|
      && out == Render(finished) + (if lineno == 0 then [] else TOP + Chars(body))
    }

    /** The label at the foot, and the next page. */
    method EndPage()
      requires Valid() && lineno > 0
      modifies this`out, this`lineno, this`pages, this`finished, this`body
      ensures Valid() && lineno == 0 && finished == old(finished) + [old(body)] && body == ""
    {
      assert (finished + [body])[..|finished|] == finished;
      assert Render(finished) + (TOP + Chars(body)) == Render(finished) + TOP + Chars(body);
      out := out + BOTTOM;
      lineno := 0;
      pages := pages + 1;
      finished, body := finished + [body], "";
      assert Render(finished) + [] == Render(finished);
    }

    /** The label at the top. */
    method BeginPage()
      requires Valid() && lineno == 0
      modifies this`out, this`lineno, this`body
      ensures Valid() && lineno == 1 && body == ""
    {
      out := out + TOP;
      lineno := lineno + 1;
      body := "";
      assert Render(finished) + [] + TOP == Render(finished) + (TOP + Chars(""));
    }

    /** Some text of the body. */
    method Put(s: string)
      requires Valid() && lineno > 0
      modifies this`out, this`body
      ensures Valid() && body == old(body) + s
    {
      assert Chars(body + s) == Chars(body) + Chars(s);
      assert Render(finished) + (TOP + Chars(body)) + Chars(s) == Render(finished) + (TOP + (Chars(body) + Chars(s)));
      out := out + Chars(s);
      body := body + s;
    }

    /** Newlines up to the foot of the page. */
    method FillPage()
      requires Valid() && lineno > 0
      modifies this`out, this`body, this`lineno
      ensures Valid() && lineno == p.pageLen - 1 && body == old(body) + Newlines(p.pageLen - 1 - old(lineno))
    {
      assert old(body) + Newlines(0) == old(body);
      while lineno < p.pageLen - 1
        invariant Valid() && old(lineno) <= lineno <= p.pageLen - 1 && lineno > 0
        invariant body == old(body) + Newlines(lineno - old(lineno))
      {
        ghost var n := lineno - old(lineno);
        assert old(body) + Newlines(n) + "\n" == old(body) + Newlines(n + 1);
        Put("\n");
        lineno := lineno + 1;
      }
    }

    ghost function Progress(): State
      reads this
    {
      State(finished, lineno, body)
    }

    /** The text of a row, or of as much of the line buffer as fits, and the newline behind it. */
    method PrintRow() returns (eject: bool)
      requires Valid() && 0 < lineno
      modifies this`out, this`body, this`line
      ensures var r := Output(p, old(line));
              Valid() && line == r.rest && eject == r.eject && body == old(body) + r.text + "\n"
    {
      hide Output, Chars, Render;
      var text;
      text, line, eject := PrintLine(p, line);
      PutText(text);
    }

    method PutText(text: string)
      requires Valid() && 0 < lineno
      modifies this`out, this`body
      ensures Valid() && body == old(body) + text + "\n"
    {
      Put(text);
      Put("\n");
    }

    /** The labels due in front of a row. */
    method StartRow()
      requires Valid()
      modifies this`lineno, this`pages, this`out, this`finished, this`body
      ensures Valid() && 0 < lineno < p.pageLen - 1
      ensures finished == if old(lineno) == p.pageLen - 1 then old(finished) + [old(body)] else old(finished)
      ensures if old(lineno) == 0 || old(lineno) == p.pageLen - 1 then lineno == 1 && body == ""
              else lineno == old(lineno) && body == old(body)
    {
      hide Render, Chars;
      if lineno == p.pageLen - 1 {
        EndPage();
      }
      if lineno == 0 {
        BeginPage();
      }
    }

    /** One pass through the main loop. */
    method Pass()
      requires Valid()
      modifies this`line, this`lineno, this`pages, this`out, this`finished, this`body
      ensures Valid() && 0 < lineno
      ensures var r := Output(p, Truncated(p, old(line)));
              line == r.rest && Progress() == Advance(p, old(Progress()), Row(r.text, r.eject))
    {
      hide Output, Render, Chars, Newlines;
      StartRow();
      if p.truncLine && |line| >= p.width >= 1 && line[p.width - 1] != '\n' {
        line := line[..p.width] + "\n";
      }
      var eject := PrintRow();
      SmallMod(lineno + 1, p.pageLen);
      lineno := (lineno + 1) % p.pageLen;
      if eject && lineno != 0 {
        FillPage();
      }
      // lplf.c also counts a page where the line number has come round to 0; between labels it never does.
      assert lineno != 0;
    }

    /** The program: all that `fgets` delivers is printed, on pages that are counted. */
    method Print(input: seq<string>)
      requires Valid() && line == "" && lineno == 0 && finished == [] && body == ""
      modifies this`line, this`lineno, this`pages, this`out, this`finished, this`body
      ensures out == Render(Pages(p, input)) && pages == |Pages(p, input)|
    {
      hide Output, Render, Pending, Advance, Remaining, Pages;
      var rest := input;
      NothingPending(p, input);
      while line != "" || rest != []
        invariant Valid()
        invariant Pending(p, Progress(), Remaining(p, line, rest)) == Pages(p, input)
        decreases |rest|, Cost(line)
      {
        RemainingRead(p, line, rest);
        if line == "" {
          line, rest := rest[0], rest[1..];
        } else {
          OutputConsumes(p, line);
        }
        ghost var r := Output(p, Truncated(p, line));
        RemainingStep(p, line, rest);
        AdvancePends(p, Progress(), Row(r.text, r.eject), Remaining(p, r.rest, rest));
        Pass();
      }
      AllPending(p, Progress());
      if lineno != 0 {
        FillPage();
        EndPage();
      }
      assert Render(finished) + [] == Render(finished);
    }
  }

  /** The pages finished, and how far the next has come. */
  datatype State = State(finished: seq<string>, lineno: nat, body: string)

  /** One row further. */
  function Advance(p: Settings, st: State, row: Row): State
    requires Sensible(p) && st.lineno < p.pageLen
  {
    var full := st.lineno == p.pageLen - 1;
    var finished := if full then st.finished + [st.body] else st.finished;
    var line := if full || st.lineno == 0 then 1 else st.lineno;
    var after := (if full || st.lineno == 0 then "" else st.body) + row.text + "\n";
    if row.eject then State(finished, p.pageLen - 1, after + Newlines(p.pageLen - 2 - line))
    else State(finished, line + 1, after)
  }

  /** The pages there will be. */
  function Pending(p: Settings, st: State, rows: seq<Row>): seq<string>
    requires Sensible(p) && st.lineno < p.pageLen
  {
    st.finished + Paginate(p, rows, st.lineno, st.body)
  }

  /** The rows of what is left in the line buffer and of what is still to be read. */
  function Remaining(p: Settings, line: string, rest: seq<string>): seq<Row>
    requires Sensible(p)
  {
    (if line == "" then [] else Rows(p, line)) + AllRows(p, rest)
  }

  lemma {:induction false} NothingPending(p: Settings, input: seq<string>)
    requires Sensible(p)
    ensures Pending(p, State([], 0, ""), Remaining(p, "", input)) == Pages(p, input)
  {
    assert [] + AllRows(p, input) == AllRows(p, input);
    assert [] + Pages(p, input) == Pages(p, input);
  }

  lemma {:induction false} AllPending(p: Settings, st: State)
    requires Sensible(p) && st.lineno < p.pageLen
    ensures var pages := Pending(p, st, Remaining(p, "", []));
            pages == if st.lineno == 0 then st.finished
              else st.finished + [st.body + Newlines(p.pageLen - 1 - st.lineno)]
  {
  }

  lemma {:induction false} AdvancePends(p: Settings, st: State, row: Row, rest: seq<Row>)
    requires Sensible(p) && st.lineno < p.pageLen
    ensures Advance(p, st, row).lineno < p.pageLen
    ensures Pending(p, st, [row] + rest) == Pending(p, Advance(p, st, row), rest)
  {
    var rows := [row] + rest;
    assert rows[0] == row && rows[1..] == rest;
    if st.lineno == p.pageLen - 1 {
      var more := Paginate(p, rows, 0, "");
      assert st.finished + ([st.body] + more) == st.finished + [st.body] + more;
    }
  }

  lemma {:induction false} RemainingRead(p: Settings, line: string, rest: seq<string>)
    requires Sensible(p) && (line != "" || rest != [])
    ensures Remaining(p, line, rest) == if line != "" then Rows(p, line) + AllRows(p, rest)
            else Rows(p, rest[0]) + AllRows(p, rest[1..])
  {
    assert [] + AllRows(p, rest) == AllRows(p, rest);
  }

  /** A line buffer just filled, or what is left in it, gives one row and then the rows of what is left. */
  lemma {:induction false} RemainingStep(p: Settings, line: string, rest: seq<string>)
    requires Sensible(p)
    ensures var r := Output(p, Truncated(p, line));
            Rows(p, line) + AllRows(p, rest) == [Row(r.text, r.eject)] + Remaining(p, r.rest, rest)
  {
    hide Output;
    var r := Output(p, Truncated(p, line));
    assert line == "" ==> r.rest == "" by { NothingOutput(p); }
    var row, more := [Row(r.text, r.eject)], if r.rest == "" then [] else Rows(p, r.rest);
    assert Rows(p, line) == row + more;
    assert row + more + AllRows(p, rest) == row + (more + AllRows(p, rest));
  }

  lemma {:induction false} NothingOutput(p: Settings)
    requires Sensible(p)
    ensures Output(p, Truncated(p, "")).rest == ""
  {
  }

  lemma {:induction false} SmallMod(a: nat, n: nat)
    requires a < n
    ensures a % n == a
  {
  }
}
