/** The choice at the heart of `outzone`: in each year, again and again, the rule that takes effect
    first given the offset now in force.  When a rule is due is left open here. */
module Greedy {

  /** When rule `j` falls due in a year, on the local clock; Never if it has no part in that year. */
  datatype Due = Never | At(t: int)

  datatype Schedule = Schedule(gmtOff: int, standard: seq<bool>, saved: seq<int>, due: (nat, int) -> Due)

  /** Rule number `rule` took effect in `year` at local time `local`, which is `gmt`. */
  datatype Firing = Firing(rule: nat, year: int, local: int, gmt: int)

  predicate WellFormed(s: Schedule) {
    |s.standard| == |s.saved|
  }

  ghost predicate Active(s: Schedule, j: nat, year: int) {
    WellFormed(s) && j < |s.saved| && s.due(j, year).At?
  }

  /** What a rule's clock is ahead of GMT while `saved` seconds of daylight time are in force. */
  function Ahead(s: Schedule, j: nat, saved: int): int
    requires j < |s.standard|
  {
    s.gmtOff + if s.standard[j] then 0 else saved
  }

  ghost function Gmt(s: Schedule, j: nat, year: int, saved: int): int
    requires Active(s, j, year)
  {
    s.due(j, year).t - Ahead(s, j, saved)
  }

  predicate Fired(fs: seq<Firing>, j: nat, year: int) {
    exists k :: 0 <= k < |fs| && fs[k].rule == j && fs[k].year == year
  }

  predicate Known(s: Schedule, fs: seq<Firing>) {
    forall k | 0 <= k < |fs| :: fs[k].rule < |s.saved|
  }

  /** The daylight offset in force after some firings. */
  function SavedAfter(s: Schedule, fs: seq<Firing>): int
    requires Known(s, fs)
  {
    if fs == [] then 0 else s.saved[fs[|fs| - 1].rule]
  }

  /** After `before`, `f` is the first to take effect of the rules of its year that have not fired; of several at the
      same time, the first of them in order. */
  ghost predicate FiresNext(s: Schedule, before: seq<Firing>, f: Firing)
    requires Known(s, before)
  {
    var saved := SavedAfter(s, before);
    && Active(s, f.rule, f.year) && !Fired(before, f.rule, f.year)
    && f.local == s.due(f.rule, f.year).t && f.gmt == Gmt(s, f.rule, f.year, saved)
    && forall j: nat | Active(s, j, f.year) && !Fired(before, j, f.year) ::
         f.gmt <= Gmt(s, j, f.year, saved) && (j < f.rule ==> f.gmt < Gmt(s, j, f.year, saved))
  }

  /** The firings of the years from `lo` to `hi`, in the order they were chosen. */
  ghost predicate Chosen(s: Schedule, fs: seq<Firing>, lo: int, hi: int) {
    && Known(s, fs)
    && (forall i | 0 <= i < |fs| :: lo <= fs[i].year <= hi && FiresNext(s, fs[..i], fs[i]))
    && (forall i, k | 0 <= i < k < |fs| :: fs[i].year <= fs[k].year)
  }

  /** Nothing is left to fire in a year. */
  ghost predicate Exhausted(s: Schedule, fs: seq<Firing>, year: int) {
    forall j: nat | Active(s, j, year) :: Fired(fs, j, year)
  }

  lemma {:induction false} ChosenExtend(s: Schedule, fs: seq<Firing>, f: Firing, lo: int, hi: int)
    requires Chosen(s, fs, lo, hi) && FiresNext(s, fs, f) && lo <= f.year == hi
    ensures Chosen(s, fs + [f], lo, hi)
  {
    var gs := fs + [f];
    forall i | 0 <= i < |gs| ensures lo <= gs[i].year <= hi && FiresNext(s, gs[..i], gs[i]) {
      assert gs[..i] == fs[..i];
      assert i == |fs| ==> fs[..i] == fs;
    }
  }

  /** All daylight offsets, and none at all, lie within `d` of each other. */
  ghost predicate OffsetsWithin(s: Schedule, d: int) {
    && (forall j | 0 <= j < |s.saved| :: -d <= s.saved[j] <= d)
    && (forall i, j | 0 <= i < |s.saved| && 0 <= j < |s.saved| :: s.saved[i] - s.saved[j] <= d)
  }

  predicate FarApart(t: int, u: int, d: int) {
    t - u > d || u - t > d
  }

  /** No two rules fall due within `d` seconds of each other on the local clock. */
  ghost predicate Apart(s: Schedule, d: int) {
    forall i: nat, y, j: nat, x | Active(s, i, y) && Active(s, j, x) && (i != j || y != x) ::
      FarApart(s.due(i, y).t, s.due(j, x).t, d)
  }

  /** Rules of a later year fall due later. */
  ghost predicate ByYear(s: Schedule) {
    forall i: nat, y, j: nat, x | Active(s, i, y) && Active(s, j, x) && y < x :: s.due(i, y).t < s.due(j, x).t
  }

  lemma {:induction false} SavedBounded(s: Schedule, fs: seq<Firing>, gs: seq<Firing>, d: int)
    requires Known(s, fs) && Known(s, gs) && OffsetsWithin(s, d) && d >= 0
    ensures -d <= SavedAfter(s, fs) <= d && SavedAfter(s, gs) - SavedAfter(s, fs) <= d
  {
  }

  /** One choice: whatever is left to fire in the same year is due later by more than `d`. */
  lemma {:induction false} ChosenIsEarliest(s: Schedule, before: seq<Firing>, f: Firing, j: nat, d: int)
    requires Known(s, before) && FiresNext(s, before, f) && OffsetsWithin(s, d) && d >= 0
    requires Active(s, j, f.year) && !Fired(before, j, f.year) && FarApart(f.local, s.due(j, f.year).t, d)
    ensures f.local + d < s.due(j, f.year).t
  {
    SavedBounded(s, before, before, d);
    assert f.gmt <= Gmt(s, j, f.year, SavedAfter(s, before));
  }

  lemma {:induction false} FiredGrows(fs: seq<Firing>, i: nat, k: nat, j: nat, year: int)
    requires i <= k <= |fs|
    ensures Fired(fs[..i], j, year) ==> Fired(fs[..k], j, year)
  {
    if m :| 0 <= m < i && fs[..i][m].rule == j && fs[..i][m].year == year {
      assert fs[..k][m] == fs[..i][m];
    }
  }

  lemma {:induction false} ExhaustedGrows(s: Schedule, before: seq<Firing>, fs: seq<Firing>, year: int)
    requires before <= fs && Exhausted(s, before, year)
    ensures Exhausted(s, fs, year)
  {
    forall j: nat | Active(s, j, year) ensures Fired(fs, j, year) {
      FiredGrows(fs, |before|, |fs|, j, year);
      assert fs[..|before|] == before && fs[..|fs|] == fs;
    }
  }

  lemma {:induction false} InLocalOrder(s: Schedule, fs: seq<Firing>, lo: int, hi: int, d: int, i: nat, k: nat)
    requires Chosen(s, fs, lo, hi) && OffsetsWithin(s, d) && d >= 0 && Apart(s, d) && ByYear(s)
    requires i < k < |fs|
    ensures fs[i].local + d < fs[k].local
  {
    var f, g := fs[i], fs[k];
    assert FiresNext(s, fs[..i], f) && FiresNext(s, fs[..k], g);
    assert fs[..k][i] == f;
    assert f.rule != g.rule || f.year != g.year;
    assert FarApart(f.local, g.local, d);
    if f.year == g.year {
      FiredGrows(fs, i, k, g.rule, g.year);
      ChosenIsEarliest(s, fs[..i], f, g.rule, d);
    }
  }

  /** The greedy choice is a sort: when rules lie further apart than daylight offsets reach, firings come
      in the order of their local times, and their GMT times strictly increase. */
  lemma {:induction false} ChoiceSorts(s: Schedule, fs: seq<Firing>, lo: int, hi: int, d: int, i: nat, k: nat)
    requires Chosen(s, fs, lo, hi) && OffsetsWithin(s, d) && d >= 0 && Apart(s, d) && ByYear(s)
    requires i < k < |fs|
    ensures fs[i].local < fs[k].local && fs[i].gmt < fs[k].gmt
  {
    InLocalOrder(s, fs, lo, hi, d, i, k);
    SavedBounded(s, fs[..i], fs[..k], d);
    SavedBounded(s, fs[..k], fs[..i], d);
    assert FiresNext(s, fs[..i], fs[i]) && FiresNext(s, fs[..k], fs[k]);
  }

  /** Each rule that is active in an exhausted year fires in it exactly once, and no other rule does. */
  lemma {:induction false} EachFiresOnce(s: Schedule, fs: seq<Firing>, lo: int, hi: int, j: nat, year: int)
    requires Chosen(s, fs, lo, hi) && Exhausted(s, fs, year)
    ensures Active(s, j, year) <==> Fired(fs, j, year)
    ensures forall i, k | 0 <= i < k < |fs| :: fs[i].rule != fs[k].rule || fs[i].year != fs[k].year
  {
    forall i | 0 <= i < |fs| ensures Active(s, fs[i].rule, fs[i].year) {
      assert FiresNext(s, fs[..i], fs[i]);
    }
    forall i, k | 0 <= i < k < |fs| ensures fs[i].rule != fs[k].rule || fs[i].year != fs[k].year {
      assert FiresNext(s, fs[..k], fs[k]);
      assert fs[..k][i] == fs[i];
    }
  }

  /** Two rules half an hour apart, the first of which advances the clock by an hour: the second takes
      effect, in GMT, before the first. */
  lemma {:induction false} TooCloseIsOutOfOrder()
    ensures var s := Schedule(0, [false, false], [3600, 0], (j, y) => if y == 0 then At(1800 * j) else Never);
            var fs := [Firing(0, 0, 0, 0), Firing(1, 0, 1800, -1800)];
            Chosen(s, fs, 0, 0) && Exhausted(s, fs, 0) && OffsetsWithin(s, 3600) && ByYear(s) && fs[1].gmt < fs[0].gmt
  {
    var s := Schedule(0, [false, false], [3600, 0], (j, y) => if y == 0 then At(1800 * j) else Never);
    var fs := [Firing(0, 0, 0, 0), Firing(1, 0, 1800, -1800)];
    assert fs[..0] == [] && fs[..1] == [Firing(0, 0, 0, 0)];
    assert FiresNext(s, [], fs[0]);
    assert Fired(fs[..1], 0, 0) by { assert fs[..1][0] == fs[0]; }
    assert FiresNext(s, fs[..1], fs[1]);
    assert fs[0].rule == 0 && fs[1].rule == 1;
  }
}
