/** The combination constraints of labelcomp.c: how one is counted, how it is converted, and why what is
    stored fits in what was reserved. */
module Constraints {
  import opened CTypes
  import opened Options
  import opened Words
  import opened WordIndex
  import opened Scanner

  // ---------------------------------------------------------------- counting

  /** The delimiters that the counting loop finds in a line.  It never looks at the character behind an
      ampersand and its blank. */
  function Delims(t: string): nat
    decreases |t|
  {
    if t == [] then 0
    else if t[0] == '|' || t[0] == '!' then 1 + Delims(t[1..])
    else if t[0] == '&' then
      var u := SkipBlank(t[1..]);
      if u == [] then 0 else 1 + Delims(u[1..])
    else Delims(t[1..])
  }

  /** A line that ends in a backslash goes on in the next one. */
  predicate Continues(t: string) {
    t != [] && t[|t| - 1] == '\\'
  }

  /** The delimiters of some lines, whether they end before the next heading, and the file behind them. */
  datatype Lines = Lines(n: nat, ok: bool, file: string)

  /** The line `t` and those that continue it. */
  function FromLine(t: string, file: string, section: KeywordList): (l: Lines)
    ensures |l.file| <= |file|
    decreases |file|, 1
  {
    if Continues(t) then var m := More(file, section); Lines(Delims(t) + m.n, m.ok, m.file)
    else Lines(Delims(t), true, file)
  }

  /** The next line of the file, which continues one, and those that continue it. */
  function More(file: string, section: KeywordList): (l: Lines)
    ensures |l.file| <= |file|
    decreases |file|, 0
  {
    var r := Next(Scan("", file), section);
    if r.code != -1 then Lines(0, false, r.next.file) else FromLine(r.next.cur, r.next.file, section)
  }

  /** The counting loop over one line. */
  method CountLine(t: string) returns (n: nat)
    ensures n == Delims(t)
  {
    n := 0;
    var cp := 0;
    while cp < |t|
      invariant 0 <= cp <= |t| && n + Delims(t[cp..]) == Delims(t)
    {
      assert t[cp..][0] == t[cp] && t[cp..][1..] == t[cp + 1..];
      if t[cp] == '|' || t[cp] == '!' {
        n := n + 1;
      } else if t[cp] == '&' {
        cp := cp + 1;
        if cp < |t| && t[cp] == ' ' {
          assert t[cp..][1..] == t[cp + 1..];
          cp := cp + 1;
        }
        if cp < |t| {
          assert t[cp..][1..] == t[cp + 1..];
          n := n + 1;
        } else {
          cp := cp - 1;
        }
      }
      cp := cp + 1;
    }
  }

  /** The counting loop over a constraint: its words, and the file behind its lines. */
  method CountConstraint(s: Scan, section: KeywordList) returns (ok: bool, words: nat, file: string)
    requires s.cur != []
    ensures words >= 1 && FromLine(s.cur, s.file, section) == Lines(words - 1, ok, file)
  {
    var line;
    line, words, file := s.cur, 1, s.file;
    ghost var all := FromLine(s.cur, s.file, section);
    while true
      invariant line != [] && words >= 1
      invariant var l := FromLine(line, file, section); all == Lines(words - 1 + l.n, l.ok, l.file)
      decreases |file|
    {
      var n := CountLine(line);
      words := words + n;
      if line[|line| - 1] == '\\' {
        var r := NextKeyword(Scan("", file), section);
        line, file := r.next.cur, r.next.file;
        if r.code != -1 {
          return false, words, file;
        }
        continue;
      }
      return true, words, file;
    }
  }

  // ---------------------------------------------------------------- conversion

  /** The text left in the buffer without its final backslash, whether there was one, and the file. */
  datatype Cursor = Cursor(text: string, continues: bool, file: string)

  function Size(c: Cursor): nat {
    |c.text| + |c.file|
  }

  function Loaded(t: string, file: string): Cursor {
    if Continues(t) then Cursor(t[..|t| - 1], true, file) else Cursor(t, false, file)
  }

  /** `check_continuation`: at the end of a line that continues, the next line is loaded. */
  function CheckContinuation(c: Cursor, section: KeywordList): (d: Cursor)
    ensures Size(d) <= Size(c) && |d.file| <= |c.file|
  {
    var u := SkipBlank(c.text);
    if c.continues && u == [] then
      var r := Next(Scan("", c.file), section);
      Loaded(r.next.cur, r.next.file)
    else Cursor(u, c.continues, c.file)
  }

  /** NOT_WITH stands behind an exclamation mark, ONLY_WITH behind an ampersand. */
  datatype Kind = NotWith | OnlyWith

  /** The word indices stored, where the second list begins among them, the kind, whether the constraint was
      in order, whether it ended although its last line continues, and where scanning goes on. */
  datatype Stored = Stored(list: seq<nat>, split: nat, kind: Kind, ok: bool, cutOff: bool, next: Scan)

  function Failed(list: seq<nat>, file: string): Stored {
    Stored(list, 0, NotWith, false, false, Scan("", file))
  }

  /** Words already stored in front of the rest of the same list. */
  function InFront(i: nat, v: Stored): Stored {
    v.(list := [i] + v.list, split := v.split + 1)
  }

  /** A first list that ends with word `i`, in front of the second list. */
  function EndsFirst(i: nat, kind: Kind, v: Stored): Stored {
    v.(list := [i] + v.list, split := 1, kind := kind)
  }

  /** `rest` is the end of the text, and not all of it. */
  predicate IsRest(rest: string, text: string) {
    |rest| < |text| && rest == text[|text| - |rest|..]
  }

  lemma {:induction false} BehindIsRest(name: string, text: string)
    requires Heads(name, text) && text != []
    ensures IsRest(Behind(name, text), text)
  {
    var u := text[|name|..];
    if u != [] {
      assert u[0] == ' ' && u[1..] == text[|name| + 1..];
    }
  }

  lemma {:induction false} MatchConsumes(words: seq<Word>, text: string, prefix: Option<nat>, suffix: Option<nat>)
    ensures var r := Match(words, text, prefix, suffix); r.Found? ==> IsRest(r.rest, text)
  {
    var r := Match(words, text, prefix, suffix);
    if r.Found? {
      BehindIsRest(HeadingName(words[r.entry], text).value, text);
    }
  }

  lemma {:induction false} RestOfRest(rest: string, mid: string, text: string)
    requires IsRest(rest, mid) && IsRest(mid, text)
    ensures IsRest(rest, text)
  {
  }

  lemma {:induction false} RestBehindBlank(rest: string, text: string)
    requires IsRest(rest, SkipBlank(text))
    ensures IsRest(rest, text)
  {
    if text != SkipBlank(text) {
      RestOfRest(rest, SkipBlank(text), text);
    }
  }

  /** A word found has been consumed: scanning goes on further right. */
  lemma {:induction false} IndexConsumes(words: seq<Word>, text: string)
    ensures var r := Index(words, text); r.Found? ==> IsRest(r.rest, text)
  {
    var m := Match(words, text, None, None);
    MatchConsumes(words, text, None, None);
    if m.Found? {
      var n := if words[m.entry].prefix.IsAffix? then Match(words, m.rest, Some(m.entry), None)
               else if words[m.entry].suffix.Needs? then Match(words, m.rest, None, Some(words[m.entry].suffix.entry))
               else NotFound(m.rest);
      MatchConsumes(words, m.rest, Some(m.entry), None);
      if words[m.entry].suffix.Needs? {
        MatchConsumes(words, m.rest, None, Some(words[m.entry].suffix.entry));
      }
      if n.Found? {
        RestOfRest(n.rest, m.rest, text);
      }
    }
  }

  /** The conversion from a cursor on, in the first or in the second half of a constraint. */
  function Convert(words: seq<Word>, c: Cursor, section: KeywordList, firstHalf: bool): (v: Stored)
    ensures v.next.cur == "" && |v.next.file| <= |c.file|
    decreases Size(c)
  {
    var r := Index(words, SkipBlank(c.text));
    if r.NotFound? then Failed([], c.file)
    else
      IndexConsumes(words, SkipBlank(c.text));
      AfterWord(words, r.entry, CheckContinuation(Cursor(r.rest, c.continues, c.file), section), section, firstHalf)
  }

  /** What the conversion does behind word `i`, with the cursor at `d`. */
  function AfterWord(words: seq<Word>, i: nat, d: Cursor, section: KeywordList, firstHalf: bool): (v: Stored)
    ensures v.next.cur == "" && |v.next.file| <= |d.file|
    decreases Size(d)
  {
    if d.text == [] then
      if firstHalf then Failed([i], d.file) else Stored([i], 0, NotWith, true, d.continues, Scan("", d.file))
    else if d.text[0] == '|' then
      InFront(i, Convert(words, CheckContinuation(Opened(d), section), section, firstHalf))
    else if (d.text[0] != '&' && d.text[0] != '!') || !firstHalf then Failed([i], d.file)
    else if d.text[0] == '&' && !d.continues && SkipBlank(d.text[1..]) == [] then
      Stored([i], 1, OnlyWith, true, false, Scan("", d.file))
    else
      EndsFirst(i, if d.text[0] == '!' then NotWith else OnlyWith,
                Convert(words, CheckContinuation(Opened(d), section), section, false))
  }

  /** The cursor behind a delimiter; behind an ampersand a blank is skipped, too. */
  function Opened(d: Cursor): Cursor
    requires d.text != []
  {
    d.(text := if d.text[0] == '&' then SkipBlank(d.text[1..]) else d.text[1..])
  }

  // ---------------------------------------------------------------- what is stored was reserved

  lemma {:induction false} DelimsTail(t: string)
    requires t != []
    ensures Delims(t[1..]) <= Delims(t) <= 1 + Delims(t[1..])
    decreases |t|
  {
    if t[0] == '&' {
      var u := SkipBlank(t[1..]);
      if u != [] {
        DelimsTail(u);
      }
    }
  }

  lemma {:induction false} DelimsSuffix(t: string, k: nat)
    requires k <= |t|
    ensures Delims(t[k..]) <= Delims(t)
    decreases k
  {
    if k == 0 {
      assert t[0..] == t;
    } else {
      DelimsTail(t);
      DelimsSuffix(t[1..], k - 1);
      assert t[1..][k - 1..] == t[k..];
    }
  }

  /** The text at a cursor with its backslash, as the counting loop sees it. */
  function Full(c: Cursor): string {
    if c.continues then c.text + "\\" else c.text
  }

  /** What the counting loop counts from a cursor on, the first `skip` characters left out. */
  function Ahead(c: Cursor, section: KeywordList, skip: nat): Lines
    requires skip <= |c.text|
  {
    var here := Delims(Full(c)[skip..]);
    if c.continues then var m := More(c.file, section); Lines(here + m.n, m.ok, m.file) else Lines(here, true, c.file)
  }

  lemma {:induction false} AheadSkips(c: Cursor, section: KeywordList, i: nat, j: nat)
    requires i <= j <= |c.text|
    ensures Ahead(c, section, j).n <= Ahead(c, section, i).n
  {
    DelimsSuffix(Full(c)[i..], j - i);
    assert Full(c)[i..][j - i..] == Full(c)[j..];
  }

  /** A cursor further right in the same text has the same ahead of it as the skipped one. */
  lemma {:induction false} AheadAt(c: Cursor, section: KeywordList, t: string, k: nat)
    requires k <= |c.text| && t == c.text[k..]
    ensures Ahead(c.(text := t), section, 0) == Ahead(c, section, k)
  {
    assert Full(c.(text := t))[0..] == Full(c)[k..];
  }

  lemma {:induction false} LoadedAhead(t: string, file: string, section: KeywordList)
    ensures Ahead(Loaded(t, file), section, 0) == FromLine(t, file, section)
  {
    assert Full(Loaded(t, file))[0..] == t;
  }

  /** Loading the next line where the counting loop loads it leaves as much ahead. */
  lemma {:induction false} LoadingKeeps(c: Cursor, section: KeywordList)
    requires Ahead(c, section, 0).ok
    ensures var d := CheckContinuation(c, section);
            && Ahead(d, section, 0).n <= Ahead(c, section, 0).n
            && Ahead(d, section, 0).ok && Ahead(d, section, 0).file == Ahead(c, section, 0).file
  {
    var u := SkipBlank(c.text);
    if c.continues && u == [] {
      var r := Next(Scan("", c.file), section);
      LoadedAhead(r.next.cur, r.next.file, section);
    } else {
      var k: nat := |c.text| - |u|;
      AheadSkips(c, section, 0, k);
      AheadAt(c, section, u, k);
    }
  }

  /** The list is no longer than what was counted from the first word on; and if the conversion ended early,
      the lines not yet read are still covered, too. */
  ghost predicate Covered(v: Stored, section: KeywordList, reserved: Lines)
  {
    && |v.list| + (if v.ok && v.cutOff then More(v.next.file, section).n else 0) <= 1 + reserved.n
    && (v.ok && v.cutOff
        ==> v.next.cur == "" && More(v.next.file, section).ok && More(v.next.file, section).file == reserved.file)
    && (v.ok && !v.cutOff ==> v.next == Scan("", reserved.file))
  }

  predicate IsDelim(c: char) {
    c == '|' || c == '!' || c == '&'
  }

  predicate FinalAmpersand(d: Cursor)
    requires d.text != []
  {
    d.text[0] == '&' && !d.continues && SkipBlank(d.text[1..]) == []
  }

  /** Behind an ampersand the counting loop skips what the conversion takes for the head of a word. */
  lemma {:induction false} AmpersandCounted(d: Cursor, section: KeywordList)
    requires d.text != [] && d.text[0] == '&' && !FinalAmpersand(d)
    ensures var o := Opened(d); Delims(Full(d)) == 1 + Delims(Full(o)[1..])
  {
    assert Full(d)[1..] == Full(d.(text := d.text[1..]));
    assert SkipBlank(Full(d)[1..]) == Full(Opened(d));
  }

  /** A delimiter passed was counted. */
  lemma {:induction false} DelimTaken(d: Cursor, section: KeywordList)
    requires d.text != [] && IsDelim(d.text[0]) && !FinalAmpersand(d) && Ahead(d, section, 0).ok
    ensures var e := CheckContinuation(Opened(d), section);
            && Ahead(e, section, 0).ok && Ahead(e, section, 0).file == Ahead(d, section, 0).file
            && (e.text == [] || 1 + Ahead(e, section, 1).n <= Ahead(d, section, 0).n)
  {
    var o := Opened(d);
    var e := CheckContinuation(o, section);
    LoadingKeeps(o, section);
    assert Full(d)[0..] == Full(d);
    if d.text[0] != '&' {
      assert Full(d)[1..] == Full(o) == Full(o)[0..];
      if e.text != [] {
        AheadSkips(e, section, 0, 1);
      }
    } else {
      AmpersandCounted(d, section);
      AmpersandTaken(o, section);
    }
  }

  /** The cursor behind an ampersand, from which the next word is read. */
  lemma {:induction false} AmpersandTaken(o: Cursor, section: KeywordList)
    requires Ahead(o, section, 0).ok && Full(o) != []
    ensures var e := CheckContinuation(o, section);
            e.text == [] || Ahead(e, section, 1).n
              <= Delims(Full(o)[1..]) + (if o.continues then More(o.file, section).n else 0)
  {
    var e := CheckContinuation(o, section);
    var u := SkipBlank(o.text);
    if e.text != [] {
      if u == [] {
        AheadSkips(e, section, 0, 1);
        var r := Next(Scan("", o.file), section);
        LoadedAhead(r.next.cur, r.next.file, section);
      } else if |u| < |o.text| {
        assert Full(e)[1..] == Full(o)[2..];
        DelimsSuffix(Full(o)[1..], 1);
      }
    }
  }

  /** What the conversion of the rest stores covers the whole when a word and a delimiter stand in front. */
  lemma {:induction false} OneMoreCovered(v: Stored, w: Stored, section: KeywordList, e: Lines, d: Lines, c: Lines)
    requires Covered(v, section, e) && e.file == d.file == c.file && 1 + e.n <= d.n <= c.n
    requires |w.list| == 1 + |v.list| && w.ok == v.ok && w.cutOff == v.cutOff && w.next == v.next
    ensures Covered(w, section, c)
  {
  }

  /** No more is stored from a cursor on than is ahead of it. */
  ghost predicate WasCounted(words: seq<Word>, c: Cursor, section: KeywordList, firstHalf: bool)
  {
    var v := Convert(words, c, section, firstHalf);
    if c.text == [] then v == Failed([], c.file) else Covered(v, section, Ahead(c, section, 1))
  }

  /** A delimiter behind a word with which the conversion goes on. */
  predicate GoesOn(d: Cursor, firstHalf: bool) {
    d.text != [] && (d.text[0] == '|' || (firstHalf && (d.text[0] == '!' || (d.text[0] == '&' && !FinalAmpersand(d)))))
  }

  /** The main result on one constraint. */
  lemma {:induction false} StoredWasCounted(words: seq<Word>, c: Cursor, section: KeywordList, firstHalf: bool)
    requires Ahead(c, section, 0).ok
    ensures WasCounted(words, c, section, firstHalf)
    decreases Size(c)
  {
    var r := Index(words, SkipBlank(c.text));
    if r.Found? {
      WordTaken(words, c, section);
      var d := CheckContinuation(Cursor(r.rest, c.continues, c.file), section);
      if GoesOn(d, firstHalf) {
        DelimTaken(d, section);
        var e := CheckContinuation(Opened(d), section);
        assert Size(e) <= Size(d);
        StoredWasCounted(words, e, section, d.text[0] == '|' && firstHalf);
      }
      AfterWordCovered(words, r.entry, d, section, firstHalf, Ahead(c, section, 1));
    }
  }

  lemma {:induction false} AfterWordCovered(words: seq<Word>, i: nat, d: Cursor, section: KeywordList, firstHalf: bool,
                                            reserved: Lines)
    requires Ahead(d, section, 0).ok
    requires Ahead(d, section, 0).n <= reserved.n && Ahead(d, section, 0).file == reserved.file
    requires GoesOn(d, firstHalf)
             ==> WasCounted(words, CheckContinuation(Opened(d), section), section, d.text[0] == '|' && firstHalf)
    ensures Covered(AfterWord(words, i, d, section, firstHalf), section, reserved)
  {
    if GoesOn(d, firstHalf) {
      DelimTaken(d, section);
      var e := CheckContinuation(Opened(d), section);
      var half := d.text[0] == '|' && firstHalf;
      if e.text != [] {
        OneMoreCovered(Convert(words, e, section, half), AfterWord(words, i, d, section, firstHalf), section,
                       Ahead(e, section, 1), Ahead(d, section, 0), reserved);
      }
    }
  }

  lemma {:induction false} RestAhead(c: Cursor, section: KeywordList, rest: string)
    requires Ahead(c, section, 0).ok && IsRest(rest, c.text)
    ensures var d := CheckContinuation(Cursor(rest, c.continues, c.file), section);
            && Size(d) < Size(c) && Ahead(d, section, 0).n <= Ahead(c, section, 1).n
            && Ahead(d, section, 0).ok && Ahead(d, section, 0).file == Ahead(c, section, 1).file
  {
    var k: nat := |c.text| - |rest|;
    AheadSkips(c, section, 1, k);
    AheadAt(c, section, rest, k);
    LoadingKeeps(Cursor(rest, c.continues, c.file), section);
  }

  /** A word taken leaves no more ahead than there was behind its first character. */
  lemma {:induction false} WordTaken(words: seq<Word>, c: Cursor, section: KeywordList)
    requires Ahead(c, section, 0).ok && Index(words, SkipBlank(c.text)).Found?
    ensures var d := CheckContinuation(Cursor(Index(words, SkipBlank(c.text)).rest, c.continues, c.file), section);
            && c.text != [] && Size(d) < Size(c) && Ahead(d, section, 0).n <= Ahead(c, section, 1).n
            && Ahead(d, section, 0).ok && Ahead(d, section, 0).file == Ahead(c, section, 1).file
  {
    IndexConsumes(words, SkipBlank(c.text));
    RestBehindBlank(Index(words, SkipBlank(c.text)).rest, c.text);
    RestAhead(c, section, Index(words, SkipBlank(c.text)).rest);
  }

  /** Seen from the line it starts with: a constraint stores no more than was reserved for it. */
  lemma {:induction false} LineCovered(words: seq<Word>, t: string, file: string, section: KeywordList)
    requires FromLine(t, file, section).ok
    ensures Covered(Convert(words, Loaded(t, file), section, true), section, FromLine(t, file, section))
  {
    var c := Loaded(t, file);
    LoadedAhead(t, file, section);
    StoredWasCounted(words, c, section, true);
    if c.text != [] {
      AheadSkips(c, section, 0, 1);
    }
  }

  // ---------------------------------------------------------------- the conversion loop

  /** `check_continuation`.  The counting pass has seen to it that a line read here is no heading. */
  method ContinueLine(c: Cursor, section: KeywordList) returns (d: Cursor)
    requires Ahead(c, section, 0).ok
    ensures d == CheckContinuation(c, section)
  {
    d := c.(text := SkipBlank(c.text));
    if c.continues && d.text == [] {
      var r := NextKeyword(Scan("", c.file), section);
      assert r.code == -1;
      var t := r.next.cur;
      if t[|t| - 1] == '\\' {
        d := Cursor(t[..|t| - 1], true, r.next.file);
      } else {
        d := Cursor(t, false, r.next.file);
      }
    }
  }

  /** The whole is what has been stored so far, continued by the rest. */
  ghost predicate Continued(whole: Stored, list: seq<nat>, firstHalf: bool, split: nat, kind: Kind, rest: Stored) {
    && whole.list == list + rest.list && whole.ok == rest.ok && whole.cutOff == rest.cutOff && whole.next == rest.next
    && (if firstHalf then whole.split == |list| + rest.split && whole.kind == rest.kind
        else whole.split == split && whole.kind == kind)
  }

  lemma {:induction false} OneMore(whole: Stored, list: seq<nat>, firstHalf: bool, split: nat, kind: Kind, i: nat,
                                   rest: Stored)
    requires Continued(whole, list, firstHalf, split, kind, InFront(i, rest))
    ensures Continued(whole, list + [i], firstHalf, split, kind, rest)
  {
    assert list + ([i] + rest.list) == list + [i] + rest.list;
  }

  lemma {:induction false} HalfDone(whole: Stored, list: seq<nat>, split: nat, kind: Kind, i: nat, k: Kind,
                                    rest: Stored)
    requires Continued(whole, list, true, split, kind, EndsFirst(i, k, rest))
    ensures Continued(whole, list + [i], false, |list| + 1, k, rest)
  {
    assert list + ([i] + rest.list) == list + [i] + rest.list;
  }

  /** What two results agree in: all of it if the constraint was in order, else what was stored. */
  predicate Agree(v: Stored, w: Stored) {
    v.list == w.list && v.ok == w.ok && (v.ok ==> v == w)
  }

  /** What the conversion does at the text behind word `i`: it is done, or goes on behind a delimiter. */
  method PassDelimiter(words: seq<Word>, ghost whole: Stored, list: seq<nat>, i: nat, d: Cursor, section: KeywordList,
                       firstHalf: bool, split: nat, kind: Kind)
    returns (done: bool, v: Stored, firstHalf': bool, split': nat, kind': Kind)
    requires Continued(whole, list, firstHalf, split, kind, AfterWord(words, i, d, section, firstHalf))
    ensures done ==> Agree(v, whole)
    ensures !done ==> GoesOn(d, firstHalf) && firstHalf' == (d.text[0] == '|' && firstHalf)
    ensures !done ==> Continued(whole, list + [i], firstHalf', split', kind',
                                Convert(words, CheckContinuation(Opened(d), section), section, firstHalf'))
  {
    done, v, firstHalf', split', kind' := true, Failed(list + [i], d.file), firstHalf, split, kind;
    ghost var rest := if d.text == [] then v
      else Convert(words, CheckContinuation(Opened(d), section), section, d.text[0] == '|' && firstHalf);
    if d.text == [] {
      if !firstHalf {
        v := Stored(list + [i], split, kind, true, d.continues, Scan("", d.file));
      }
    } else if d.text[0] == '|' {
      done := false;
      OneMore(whole, list, firstHalf, split, kind, i, rest);
    } else if d.text[0] != '&' && d.text[0] != '!' {
    } else if !firstHalf {
    } else if d.text[0] == '&' && !d.continues && SkipBlank(d.text[1..]) == [] {
      v := Stored(list + [i], |list| + 1, OnlyWith, true, false, Scan("", d.file));
    } else {
      done, firstHalf', split' := false, false, |list| + 1;
      kind' := if d.text[0] == '!' then NotWith else OnlyWith;
      HalfDone(whole, list, split, kind, i, kind', rest);
    }
  }

  /** The conversion of one constraint, from its first line on. */
  method ConvertConstraint(words: seq<Word>, s: Scan, section: KeywordList) returns (v: Stored)
    requires s.cur != [] && FromLine(s.cur, s.file, section).ok
    ensures Agree(v, Convert(words, Loaded(s.cur, s.file), section, true))
  {
    LoadedAhead(s.cur, s.file, section);
    var c := Loaded(s.cur, s.file);
    var list, firstHalf, split, kind := [], true, 0, NotWith;
    ghost var whole := Convert(words, c, section, true);
    assert [] + whole.list == whole.list;
    while true
      invariant Ahead(c, section, 0).ok
      invariant Continued(whole, list, firstHalf, split, kind, Convert(words, c, section, firstHalf))
      decreases Size(c)
    {
      var r := LookUp(words, SkipBlank(c.text));
      if r.NotFound? {
        assert list + [] == list;
        return Failed(list, c.file);
      }
      WordTaken(words, c, section);
      c := ContinueLine(Cursor(r.rest, c.continues, c.file), section);
      var done;
      done, v, firstHalf, split, kind := PassDelimiter(words, whole, list, r.entry, c, section, firstHalf, split, kind);
      if done {
        return;
      }
      list := list + [r.entry];
      DelimTaken(c, section);
      if c.text[0] == '|' {
        c := c.(text := c.text[1..]);
      } else if c.text[0] == '!' {
        c := c.(text := c.text[1..]);
      } else {
        c := c.(text := SkipBlank(c.text[1..]));
      }
      c := ContinueLine(c, section);
    }
  }

  // ---------------------------------------------------------------- where the two passes part

  /** The exact case in which a line has been loaded and there is still nothing to read: it was a backslash
      alone. */
  lemma {:induction false} LoadedNothingIff(c: Cursor, section: KeywordList)
    requires Ahead(c, section, 0).ok
    ensures var d := CheckContinuation(c, section);
            d.text == [] && d.continues <==>
              c.continues && SkipBlank(c.text) == [] && Next(Scan("", c.file), section).next.cur == "\\"
  {
    if c.continues && SkipBlank(c.text) == [] {
      var t := Next(Scan("", c.file), section).next.cur;
      if |t| == 1 && t[0] == '\\' {
        assert t == "\\";
      }
    }
  }

  /** No line of the file consists of a backslash alone. */
  predicate NoLoneBackslash(file: string)
    decreases |file|
  {
    match NextLine(file)
    case EndOfFile(rest) => if |rest| < |file| then NoLoneBackslash(rest) else true
    case TooLong(rest) => NoLoneBackslash(rest)
    case Line(t, rest) => t != "\\" && NoLoneBackslash(rest)
  }

  lemma {:induction false} NextKeepsNoLone(s: Scan, kws: KeywordList)
    requires NoLoneBackslash(s.file)
    ensures var r := Next(s, kws);
            && NoLoneBackslash(r.next.file)
            && (SkipBlank(s.cur) == [] && r.code == -1 ==> r.next.cur != "\\")
  {
    var l := NextLine(s.file);
    if SkipBlank(s.cur) == [] && l.EndOfFile? && |l.rest| == |s.file| {
      EndOfFileStays(s.file);
    }
  }

  /** An end that consumes nothing is the end of the whole file. */
  lemma {:induction false} EndOfFileStays(file: string)
    ensures var l := NextLine(file); l.EndOfFile? && |l.rest| == |file| ==> l.rest == file
    decreases |file|
  {
    ReadLineShrinks(file, true, []);
  }

  /** A constraint in order has a first list, and an empty second one only behind an ampersand. */
  predicate InOrder(v: Stored, entries: nat, firstHalf: bool) {
    v.ok ==>
      && v.list != [] && (forall i | 0 <= i < |v.list| :: v.list[i] < entries)
      && (firstHalf ==> 0 < v.split <= |v.list| && (v.split == |v.list| ==> v.kind == OnlyWith))
  }

  lemma {:induction false} InOrderAfterWord(words: seq<Word>, i: nat, d: Cursor, section: KeywordList, firstHalf: bool)
    requires i < |words|
    requires GoesOn(d, firstHalf) ==>
               InOrder(Convert(words, CheckContinuation(Opened(d), section), section, d.text[0] == '|' && firstHalf),
                       |words|, d.text[0] == '|' && firstHalf)
    ensures InOrder(AfterWord(words, i, d, section, firstHalf), |words|, firstHalf)
  {
    hide Convert, CheckContinuation, Opened;
  }

  lemma {:induction false} ConvertedInOrder(words: seq<Word>, c: Cursor, section: KeywordList, firstHalf: bool)
    ensures InOrder(Convert(words, c, section, firstHalf), |words|, firstHalf)
    decreases Size(c)
  {
    var r := Index(words, SkipBlank(c.text));
    if r.Found? {
      IndexConsumes(words, SkipBlank(c.text));
      var d := CheckContinuation(Cursor(r.rest, c.continues, c.file), section);
      assert Size(d) < Size(c);
      if GoesOn(d, firstHalf) {
        var e := CheckContinuation(Opened(d), section);
        assert Size(e) <= Size(d);
        ConvertedInOrder(words, e, section, d.text[0] == '|' && firstHalf);
      }
      InOrderAfterWord(words, r.entry, d, section, firstHalf);
    }
  }
}
