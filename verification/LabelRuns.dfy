/** The labels that std_labels.c writes, run by run: words that ask for the same prefix or suffix stand together
    between them, and the longest of the labels is as long as labelcomp.c has counted. */
module LabelRuns {
  import opened Options
  import opened Words

  // ---------------------------------------------------------------- the marked entries

  /** The marked entries from `i` on, in order. */
  function Marked(marks: seq<bool>, i: nat): (es: seq<nat>)
    ensures forall k | 0 <= k < |es| :: i <= es[k] < |marks| && marks[es[k]]
    decreases |marks| - i
  {
    if i >= |marks| then [] else if marks[i] then [i] + Marked(marks, i + 1) else Marked(marks, i + 1)
  }

  predicate InTable(words: seq<Word>, es: seq<nat>) {
    forall k | 0 <= k < |es| :: es[k] < |words|
  }

  /** These entries, as they are written. */
  function ListText(words: seq<Word>, es: seq<nat>, p: Affix, s: Affix, short: bool): string
    requires Grounded(words) && InTable(words, es) && Fits(s, words)
    decreases |es|
  {
    if es == [] then SuffixText(words, s, short)
    else
      StepText(words, es[0], p, s, short)
      + ListText(words, es[1..], PrefixAfter(words[es[0]], p, s), words[es[0]].suffix, short)
  }

  /** And as they are counted. */
  function ListLength(words: seq<Word>, es: seq<nat>, p: Affix, s: Affix): nat
    requires Grounded(words) && InTable(words, es) && Fits(s, words)
    decreases |es|
  {
    if es == [] then AffixLength(words, s)
    else
      StepLength(words, es[0], p, s) + ListLength(words, es[1..], words[es[0]].prefix, words[es[0]].suffix)
  }

  /** One entry in front of others. */
  lemma {:induction false} TextCons(words: seq<Word>, e: nat, es: seq<nat>, p: Affix, s: Affix, short: bool)
    requires Grounded(words) && e < |words| && InTable(words, es) && Fits(s, words)
    ensures InTable(words, [e] + es) && Fits(words[e].suffix, words)
    ensures ListText(words, [e] + es, p, s, short)
            == StepText(words, e, p, s, short)
               + ListText(words, es, PrefixAfter(words[e], p, s), words[e].suffix, short)
  {
    hide StepText, PrefixAfter, SuffixText;
    assert ([e] + es)[0] == e && ([e] + es)[1..] == es;
  }

  lemma {:induction false} LengthCons(words: seq<Word>, e: nat, es: seq<nat>, p: Affix, s: Affix)
    requires Grounded(words) && e < |words| && InTable(words, es) && Fits(s, words)
    ensures InTable(words, [e] + es) && Fits(words[e].suffix, words)
    ensures ListLength(words, [e] + es, p, s)
            == StepLength(words, e, p, s) + ListLength(words, es, words[e].prefix, words[e].suffix)
  {
    hide StepLength, AffixLength;
    assert ([e] + es)[0] == e && ([e] + es)[1..] == es;
  }

  lemma {:induction false} MarkedText(words: seq<Word>, marks: seq<bool>, i: nat, p: Affix, s: Affix, short: bool)
    requires Grounded(words) && |marks| == |words| && Fits(s, words)
    ensures LabelText(words, marks, i, p, s, short) == ListText(words, Marked(marks, i), p, s, short)
    decreases |words| - i
  {
    hide StepText, SuffixText, PrefixAfter;
    if i < |words| {
      if marks[i] {
        TextCons(words, i, Marked(marks, i + 1), p, s, short);
        MarkedText(words, marks, i + 1, PrefixAfter(words[i], p, s), words[i].suffix, short);
      } else {
        MarkedText(words, marks, i + 1, p, s, short);
      }
    }
  }

  lemma {:induction false} MarkedLength(words: seq<Word>, marks: seq<bool>, i: nat, p: Affix, s: Affix)
    requires Grounded(words) && |marks| == |words| && Fits(s, words)
    ensures GroupedLength(words, marks, i, p, s) == ListLength(words, Marked(marks, i), p, s)
    decreases |words| - i
  {
    hide StepLength, AffixLength;
    if i < |words| {
      if marks[i] {
        LengthCons(words, i, Marked(marks, i + 1), p, s);
        MarkedLength(words, marks, i + 1, words[i].prefix, words[i].suffix);
      } else {
        MarkedLength(words, marks, i + 1, p, s);
      }
    }
  }

  // ---------------------------------------------------------------- runs

  /** Entry `e` goes on with a run that has written prefix `p`, behind entry `prev`: it asks for the same suffix as
      that entry, or for that prefix. */
  predicate Joins(words: seq<Word>, p: Affix, prev: nat, e: nat)
    requires prev < |words| && e < |words|
  {
    || (words[prev].suffix.Needs? && words[e].suffix == words[prev].suffix)
    || (p.Needs? && words[e].prefix == p)
  }

  /** Entries each of which goes on with what the first has begun. */
  predicate IsRun(words: seq<Word>, r: seq<nat>) {
    && r != [] && InTable(words, r)
    && forall k | 0 < k < |r| :: Joins(words, words[r[0]].prefix, r[k - 1], r[k])
  }

  /** The next run does not go on with this one. */
  predicate Parted(words: seq<Word>, r: seq<nat>, next: seq<nat>)
    requires IsRun(words, r) && IsRun(words, next)
  {
    !Joins(words, words[r[0]].prefix, r[|r| - 1], next[0])
  }

  predicate AreRuns(words: seq<Word>, rs: seq<seq<nat>>) {
    && (forall k | 0 <= k < |rs| :: IsRun(words, rs[k]))
    && (forall k | 0 < k < |rs| :: Parted(words, rs[k - 1], rs[k]))
  }

  function Entries(rs: seq<seq<nat>>): seq<nat> {
    if rs == [] then [] else rs[0] + Entries(rs[1..])
  }

  lemma {:induction false} RunInTable(words: seq<Word>, rs: seq<seq<nat>>)
    requires forall k | 0 <= k < |rs| :: IsRun(words, rs[k])
    ensures InTable(words, Entries(rs))
    decreases |rs|
  {
    if rs != [] {
      assert IsRun(words, rs[0]);
      RunInTable(words, rs[1..]);
    }
  }

  lemma {:induction false} EntriesOfMore(rs: seq<seq<nat>>, r: seq<nat>)
    ensures Entries(rs + [r]) == Entries(rs) + r
    decreases |rs|
  {
    if rs == [] {
      assert ([] + [r])[1..] == [];
    } else {
      assert (rs + [r])[0] == rs[0] && (rs + [r])[1..] == rs[1..] + [r];
      EntriesOfMore(rs[1..], r);
    }
  }

  /** Any entries come in such runs. */
  lemma {:induction false} RunsOf(words: seq<Word>, es: seq<nat>) returns (rs: seq<seq<nat>>)
    requires InTable(words, es)
    ensures AreRuns(words, rs) && Entries(rs) == es
    decreases |es|
  {
    rs := [];
    if es != [] {
      var n := |es| - 1;
      var before := RunsOf(words, es[..n]);
      assert es == es[..n] + [es[n]];
      if before != [] && Joins(words, words[before[|before| - 1][0]].prefix, Last(words, before), es[n]) {
        rs := LongerRun(words, before, es[n]);
      } else {
        rs := before + [[es[n]]];
        EntriesOfMore(before, [es[n]]);
      }
    }
  }

  /** The last entry of some runs. */
  function Last(words: seq<Word>, rs: seq<seq<nat>>): (e: nat)
    requires rs != [] && AreRuns(words, rs)
    ensures e < |words| && rs[|rs| - 1][0] < |words|
  {
    assert IsRun(words, rs[|rs| - 1]);
    var r := rs[|rs| - 1];
    r[|r| - 1]
  }

  lemma {:induction false} LongerRun(words: seq<Word>, rs: seq<seq<nat>>, e: nat) returns (rs': seq<seq<nat>>)
    requires rs != [] && AreRuns(words, rs) && e < |words|
    requires Joins(words, words[rs[|rs| - 1][0]].prefix, Last(words, rs), e)
    ensures AreRuns(words, rs') && Entries(rs') == Entries(rs) + [e]
  {
    var n := |rs| - 1;
    var r := rs[n];
    assert IsRun(words, r);
    var r' := r + [e];
    assert IsRun(words, r') by {
      forall k | 0 < k < |r'| ensures Joins(words, words[r'[0]].prefix, r'[k - 1], r'[k]) {
        assert k < |r| ==> r'[k] == r[k];
      }
    }
    rs' := rs[..n] + [r'];
    assert rs == rs[..n] + [r];
    EntriesOfMore(rs[..n], r);
    EntriesOfMore(rs[..n], r');
    assert Entries(rs[..n]) + r + [e] == Entries(rs[..n]) + r';
    forall k | 0 < k < |rs'| ensures Parted(words, rs'[k - 1], rs'[k]) {
      assert Parted(words, rs[k - 1], rs[k]);
    }
  }

  // ---------------------------------------------------------------- the text of a run

  /** The short name, if it is asked for and there is one. */
  function Called(w: Word, short: bool): string {
    match w.shortName
    case Some(name) => if short then name else w.outputName
    case None => w.outputName
  }

  /** Names with a slash between each two. */
  function Slashed(words: seq<Word>, es: seq<nat>, short: bool): string
    requires InTable(words, es) && es != []
  {
    if |es| == 1 then Called(words[es[0]], short)
    else Called(words[es[0]], short) + "/" + Slashed(words, es[1..], short)
  }

  /** A blank, the prefix of the first word and a blank, and the names. */
  function RunHead(words: seq<Word>, r: seq<nat>, short: bool): string
    requires Grounded(words) && IsRun(words, r)
  {
    var p := words[r[0]].prefix;
    " " + (if p.Needs? then Called(words[p.entry], short) + " " else "") + Slashed(words, r, short)
  }

  /** And then a blank and the suffix of the last word. */
  function RunText(words: seq<Word>, r: seq<nat>, short: bool): string
    requires Grounded(words) && IsRun(words, r)
  {
    var s := words[r[|r| - 1]].suffix;
    RunHead(words, r, short) + if s.Needs? then " " + Called(words[s.entry], short) else ""
  }

  function RunsText(words: seq<Word>, rs: seq<seq<nat>>, short: bool): string
    requires Grounded(words) && AreRuns(words, rs)
  {
    if rs == [] then "" else RunText(words, rs[0], short) + RunsText(words, rs[1..], short)
  }

  lemma {:induction false} CalledIsName(w: Word, short: bool)
    ensures Called(w, short) == NameOf(w, short)
  {
  }

  /** The names behind the first, from entry `k` on. */
  function Behind(words: seq<Word>, es: seq<nat>, k: nat, short: bool): string
    requires InTable(words, es) && 0 < k <= |es|
    decreases |es| - k
  {
    if k == |es| then "" else "/" + Called(words[es[k]], short) + Behind(words, es, k + 1, short)
  }

  lemma {:induction false} SlashedBehind(words: seq<Word>, es: seq<nat>, k: nat, short: bool)
    requires InTable(words, es) && 0 < k <= |es|
    ensures InTable(words, es[k - 1..])
    ensures Slashed(words, es[k - 1..], short) == Called(words[es[k - 1]], short) + Behind(words, es, k, short)
    decreases |es| - k
  {
    var t := es[k - 1..];
    var name := Called(words[es[k - 1]], short);
    if k == |es| {
      assert name + "" == name;
    } else {
      SlashedBehind(words, es, k + 1, short);
      assert t[1..] == es[k..];
      assert name + "/" + Slashed(words, es[k..], short) == name + ("/" + Slashed(words, es[k..], short));
      var next, more := Called(words[es[k]], short), Behind(words, es, k + 1, short);
      assert "/" + (next + more) == "/" + next + more;
    }
  }

  /** The prefix last written when a run has begun whose first word asks for `p`. */
  function Written(p: Affix): Affix {
    if p.Needs? then p else NoAffix
  }

  /** Another word of a run. */
  lemma {:induction false} NextWritten(words: seq<Word>, r: seq<nat>, k: nat, short: bool)
    requires Grounded(words) && IsRun(words, r) && 0 < k < |r|
    ensures var w, p, s := words[r[k]], Written(words[r[0]].prefix), words[r[k - 1]].suffix;
            && StepText(words, r[k], p, s, short) == "/" + Called(w, short)
            && PrefixAfter(w, p, s) == p
  {
    CalledIsName(words[r[k]], short);
    assert Joins(words, words[r[0]].prefix, r[k - 1], r[k]);
  }

  lemma {:induction false} BehindWritten(words: seq<Word>, r: seq<nat>, k: nat, rest: seq<nat>, short: bool)
    requires Grounded(words) && IsRun(words, r) && 0 < k <= |r| && InTable(words, rest)
    ensures InTable(words, r[k..] + rest)
    ensures var p := Written(words[r[0]].prefix);
            ListText(words, r[k..] + rest, p, words[r[k - 1]].suffix, short)
            == Behind(words, r, k, short) + ListText(words, rest, p, words[r[|r| - 1]].suffix, short)
    decreases |r| - k
  {
    hide ListText, StepText, PrefixAfter, Called, Written, Joins;
    var p := Written(words[r[0]].prefix);
    var more := ListText(words, rest, p, words[r[|r| - 1]].suffix, short);
    if k == |r| {
      assert r[k..] + rest == rest && "" + more == more;
    } else {
      BehindWritten(words, r, k + 1, rest, short);
      NextWritten(words, r, k, short);
      TextCons(words, r[k], r[k + 1..] + rest, p, words[r[k - 1]].suffix, short);
      assert r[k..] + rest == [r[k]] + (r[k + 1..] + rest);
      var name, behind := "/" + Called(words[r[k]], short), Behind(words, r, k + 1, short);
      assert name + (behind + more) == name + behind + more;
    }
  }

  /** Nothing of what came before is shared with entry `e`. */
  predicate Fresh(words: seq<Word>, p: Affix, s: Affix, e: nat) {
    && e < |words|
    && (words[e].prefix.Needs? ==> p != words[e].prefix) && (words[e].suffix.Needs? ==> s != words[e].suffix)
  }

  lemma {:induction false} BlankBetween(a: string, p: string, c: string)
    ensures a + (" " + p + " ") + c == a + (" " + (p + " ") + c) && a + " " + c == a + (" " + "" + c)
  {
  }

  /** The first word of a run, behind the suffix of the run before it. */
  lemma {:induction false} FirstWritten(words: seq<Word>, e: nat, p: Affix, s: Affix, short: bool)
    requires Grounded(words) && Fits(s, words) && Fresh(words, p, s, e)
    ensures var w := words[e];
            && StepText(words, e, p, s, short)
               == SuffixText(words, s, short)
                  + (" " + (if w.prefix.Needs? then Called(words[w.prefix.entry], short) + " " else "")
                     + Called(w, short))
            && PrefixAfter(w, p, s) == Written(w.prefix)
  {
    hide SuffixText, Called, NameOf;
    var w := words[e];
    CalledIsName(w, short);
    var name := if w.prefix.Needs? then Called(words[w.prefix.entry], short) else "";
    if w.prefix.Needs? {
      CalledIsName(words[w.prefix.entry], short);
    }
    BlankBetween(SuffixText(words, s, short), name, Called(w, short));
  }

  lemma {:induction false} SuffixCalled(words: seq<Word>, s: Affix, short: bool)
    requires Fits(s, words)
    ensures SuffixText(words, s, short) == if s.Needs? then " " + Called(words[s.entry], short) else ""
  {
    if s.Needs? {
      CalledIsName(words[s.entry], short);
    }
  }

  lemma {:induction false} RunWritten(words: seq<Word>, r: seq<nat>, p: Affix, s: Affix, rest: seq<nat>, short: bool)
    requires Grounded(words) && IsRun(words, r) && Fits(s, words) && Fresh(words, p, s, r[0]) && InTable(words, rest)
    ensures InTable(words, r + rest)
    ensures ListText(words, r + rest, p, s, short)
            == SuffixText(words, s, short)
               + (RunHead(words, r, short)
                  + ListText(words, rest, Written(words[r[0]].prefix), words[r[|r| - 1]].suffix, short))
  {
    hide ListText, StepText, PrefixAfter, SuffixText, Called, Behind, Slashed, Written, Fresh, Joins;
    var w := words[r[0]];
    FirstWritten(words, r[0], p, s, short);
    BehindWritten(words, r, 1, rest, short);
    SlashedBehind(words, r, 1, short);
    TextCons(words, r[0], r[1..] + rest, p, s, short);
    assert r[0..] == r && r + rest == [r[0]] + (r[1..] + rest);
    var lead := " " + (if w.prefix.Needs? then Called(words[w.prefix.entry], short) + " " else "");
    Regroup(SuffixText(words, s, short), lead, Called(w, short), Behind(words, r, 1, short),
            ListText(words, rest, Written(w.prefix), words[r[|r| - 1]].suffix, short));
  }

  lemma {:induction false} Regroup(before: string, lead: string, first: string, behind: string, more: string)
    ensures before + (lead + first) + (behind + more) == before + (lead + (first + behind) + more)
  {
  }

  /** A run in front of others, of which this is known. */
  lemma {:induction false} RunInFront(words: seq<Word>, r: seq<nat>, p: Affix, s: Affix, rest: seq<nat>, more: string,
                                      short: bool)
    requires Grounded(words) && IsRun(words, r) && Fits(s, words) && Fresh(words, p, s, r[0]) && InTable(words, rest)
    requires ListText(words, rest, Written(words[r[0]].prefix), words[r[|r| - 1]].suffix, short)
             == SuffixText(words, words[r[|r| - 1]].suffix, short) + more
    ensures InTable(words, r + rest)
    ensures ListText(words, r + rest, p, s, short) == SuffixText(words, s, short) + (RunText(words, r, short) + more)
  {
    hide ListText, SuffixText, RunHead, Called, Fresh, Written, Joins;
    RunWritten(words, r, p, s, rest, short);
    SuffixCalled(words, words[r[|r| - 1]].suffix, short);
    var head, suffix := RunHead(words, r, short), SuffixText(words, words[r[|r| - 1]].suffix, short);
    assert head + (suffix + more) == head + suffix + more;
  }

  lemma {:induction false} PartedIsFresh(words: seq<Word>, r: seq<nat>, next: seq<nat>)
    requires Grounded(words) && IsRun(words, r) && IsRun(words, next) && Parted(words, r, next)
    ensures Fresh(words, Written(words[r[0]].prefix), words[r[|r| - 1]].suffix, next[0])
  {
  }

  lemma {:induction false} ListByRuns(words: seq<Word>, rs: seq<seq<nat>>, p: Affix, s: Affix, short: bool)
    requires Grounded(words) && AreRuns(words, rs) && Fits(s, words) && (rs != [] ==> Fresh(words, p, s, rs[0][0]))
    ensures InTable(words, Entries(rs))
    ensures ListText(words, Entries(rs), p, s, short) == SuffixText(words, s, short) + RunsText(words, rs, short)
    decreases |rs|
  {
    hide SuffixText, RunText, IsRun, Parted, Fresh, Written;
    RunInTable(words, rs);
    if rs == [] {
      assert SuffixText(words, s, short) + "" == SuffixText(words, s, short);
    } else {
      var r := rs[0];
      assert IsRun(words, r);
      RunFits(words, r);
      if |rs| > 1 {
        assert IsRun(words, rs[1]) && Parted(words, rs[0], rs[1]);
        PartedIsFresh(words, r, rs[1]);
      }
      ListByRuns(words, rs[1..], Written(words[r[0]].prefix), words[r[|r| - 1]].suffix, short);
      RunInFront(words, r, p, s, Entries(rs[1..]), RunsText(words, rs[1..], short), short);
    }
  }

  lemma {:induction false} RunFits(words: seq<Word>, r: seq<nat>)
    requires Grounded(words) && IsRun(words, r)
    ensures r != [] && InTable(words, r)
    ensures Fits(words[r[|r| - 1]].suffix, words)
  {
  }

  /** Whichever words are marked, the label behind the classification is their runs: a blank, the prefix of the first
      word and a blank, the names with slashes between them, and a blank and the suffix of the last. */
  lemma {:induction false} LabelByRuns(words: seq<Word>, marks: seq<bool>, first: nat, rs: seq<seq<nat>>, short: bool)
    requires Grounded(words) && |marks| == |words| && AreRuns(words, rs) && Entries(rs) == Marked(marks, first)
    ensures LabelText(words, marks, first, NoAffix, NoAffix, short) == RunsText(words, rs, short)
  {
    hide ListText, LabelText, Marked, RunsText, Entries, Joins;
    MarkedText(words, marks, first, NoAffix, NoAffix, short);
    assert rs != [] ==> IsRun(words, rs[0]) && Fresh(words, NoAffix, NoAffix, rs[0][0]);
    ListByRuns(words, rs, NoAffix, NoAffix, short);
    assert "" + RunsText(words, rs, short) == RunsText(words, rs, short);
  }

  // ---------------------------------------------------------------- the length of the longest label

  /** All words of a run ask for the same prefix and the same suffix. */
  predicate Uniform(words: seq<Word>, r: seq<nat>) {
    && IsRun(words, r)
    && forall k | 0 <= k < |r| :: words[r[k]].prefix == words[r[0]].prefix && words[r[k]].suffix == words[r[0]].suffix
  }

  lemma {:induction false} BehindCounted(words: seq<Word>, r: seq<nat>, k: nat, rest: seq<nat>)
    requires Grounded(words) && Uniform(words, r) && 0 < k <= |r| && InTable(words, rest)
    ensures InTable(words, r[k..] + rest)
    ensures var w := words[r[0]];
            ListLength(words, r[k..] + rest, w.prefix, w.suffix)
            == |Behind(words, r, k, false)| + ListLength(words, rest, w.prefix, w.suffix)
    decreases |r| - k
  {
    hide ListLength, AffixLength, IsRun;
    RunFits(words, r);
    var w := words[r[0]];
    if k == |r| {
      assert r[k..] + rest == rest;
    } else {
      BehindCounted(words, r, k + 1, rest);
      LengthCons(words, r[k], r[k + 1..] + rest, w.prefix, w.suffix);
      assert r[k..] + rest == [r[k]] + (r[k + 1..] + rest);
      assert StepLength(words, r[k], w.prefix, w.suffix) == |words[r[k]].outputName| + 1;
    }
  }

  /** The first word of a run, behind the suffix of the run before it. */
  lemma {:induction false} FirstCounted(words: seq<Word>, e: nat, p: Affix, s: Affix)
    requires Grounded(words) && Fits(s, words) && Fresh(words, p, s, e)
    ensures var w := words[e];
            StepLength(words, e, p, s)
            == AffixLength(words, s)
               + |" " + (if w.prefix.Needs? then Called(words[w.prefix.entry], false) + " " else "")|
               + |Called(w, false)|
  {
  }

  lemma {:induction false} SuffixCounted(words: seq<Word>, s: Affix)
    requires Fits(s, words)
    ensures AffixLength(words, s) == |if s.Needs? then " " + Called(words[s.entry], false) else ""|
  {
  }

  lemma {:induction false} RunCounted(words: seq<Word>, r: seq<nat>, p: Affix, s: Affix, rest: seq<nat>)
    requires Grounded(words) && Uniform(words, r) && Fits(s, words) && Fresh(words, p, s, r[0]) && InTable(words, rest)
    ensures InTable(words, r + rest)
    ensures ListLength(words, r + rest, p, s)
            == AffixLength(words, s) + |RunHead(words, r, false)|
               + ListLength(words, rest, words[r[0]].prefix, words[r[0]].suffix)
  {
    hide ListLength, StepLength, AffixLength, Behind, Slashed, Called, Fresh, Joins;
    FirstCounted(words, r[0], p, s);
    BehindCounted(words, r, 1, rest);
    SlashedBehind(words, r, 1, false);
    LengthCons(words, r[0], r[1..] + rest, p, s);
    assert r[0..] == r && r + rest == [r[0]] + (r[1..] + rest);
  }

  lemma {:induction false} UniformIsFresh(words: seq<Word>, r: seq<nat>, next: seq<nat>)
    requires Grounded(words) && Uniform(words, r) && IsRun(words, next) && Parted(words, r, next)
    ensures Fresh(words, words[r[0]].prefix, words[r[0]].suffix, next[0])
  {
  }

  lemma {:induction false} CountByRuns(words: seq<Word>, rs: seq<seq<nat>>, p: Affix, s: Affix)
    requires Grounded(words) && AreRuns(words, rs) && forall k | 0 <= k < |rs| :: Uniform(words, rs[k])
    requires Fits(s, words) && (rs != [] ==> Fresh(words, p, s, rs[0][0]))
    ensures InTable(words, Entries(rs))
    ensures ListLength(words, Entries(rs), p, s) == AffixLength(words, s) + |RunsText(words, rs, false)|
    decreases |rs|
  {
    hide RunHead, AffixLength, IsRun, Parted, Fresh;
    RunInTable(words, rs);
    if rs != [] {
      var r := rs[0];
      assert Uniform(words, r);
      RunFits(words, r);
      assert words[r[|r| - 1]].suffix == words[r[0]].suffix;
      SuffixCounted(words, words[r[0]].suffix);
      if |rs| > 1 {
        assert IsRun(words, rs[1]) && Parted(words, rs[0], rs[1]);
        UniformIsFresh(words, r, rs[1]);
      }
      CountByRuns(words, rs[1..], words[r[0]].prefix, words[r[0]].suffix);
      RunCounted(words, r, p, s, Entries(rs[1..]));
    }
  }

  /** Where the main words come in runs that ask for the same, the full length is that of the longest classification,
      of the label of all of them, and of a NUL: no more is counted than that label needs. */
  lemma {:induction false} FullLengthByRuns(words: seq<Word>, maxClass: nat, rs: seq<seq<nat>>)
    requires Grounded(words) && AreRuns(words, rs) && forall k | 0 <= k < |rs| :: Uniform(words, rs[k])
    requires Entries(rs) == Marked(Mains(words), 0)
    ensures FullLength(words, maxClass) == maxClass + |RunsText(words, rs, false)| + 1
  {
    hide ListLength, GroupedLength, Marked, RunsText, Entries, Joins;
    MarkedLength(words, Mains(words), 0, NoAffix, NoAffix);
    assert rs != [] ==> IsRun(words, rs[0]) && Fresh(words, NoAffix, NoAffix, rs[0][0]);
    CountByRuns(words, rs, NoAffix, NoAffix);
  }

  /** Words that share a prefix and not their suffixes are written as one run, and the suffix of the first is lost. */
  lemma {:induction false} SuffixLost()
    ensures var words := [Word("P", None, IsAffix, NoAffix), Word("S", None, NoAffix, IsAffix),
                          Word("A", None, Needs(0), Needs(1)), Word("B", None, Needs(0), NoAffix)];
            Grounded(words) && LabelText(words, [false, false, true, true], 2, NoAffix, NoAffix, false) == " P A/B"
  {
    var words := [Word("P", None, IsAffix, NoAffix), Word("S", None, NoAffix, IsAffix),
                  Word("A", None, Needs(0), Needs(1)), Word("B", None, Needs(0), NoAffix)];
    var marks := [false, false, true, true];
    assert LabelText(words, marks, 4, Needs(0), NoAffix, false) == "";
    assert LabelText(words, marks, 3, Needs(0), Needs(1), false) == "/B" + "" == "/B";
    assert StepText(words, 2, NoAffix, NoAffix, false) == " P A";
  }
}
