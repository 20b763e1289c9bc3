/** `outzone` of zic.c for a zone of one line: year by year, enter the zone's rules in the tables in the
    order in which they take effect. */
module OutZone {
  import opened CTypes
  import opened Calendar
  import opened Greedy
  import ZT = ZoneTables
  import ZoneFile

  /** A zone line with its rules, or without any and with a fixed daylight offset; `yearIs` answers whether a
      year is of the type a rule names. */
  datatype Zone = Zone(gmtOff: int, stdOff: int, format: string, rules: seq<Rule>, yearIs: (int, string) -> bool)

  /** How the compilation of a zone ends: with its tables filled, with a diagnostic, or with a read in
      front of the abbreviation pool. */
  datatype Ended = Filled | Stopped | WildRead

  ghost predicate Usable(z: Zone) {
    && -SECS_PER_DAY < z.gmtOff < SECS_PER_DAY && -SECS_PER_DAY < z.stdOff < SECS_PER_DAY && IsText(z.format)
    && forall j | 0 <= j < |z.rules| :: Calendar.WellFormed(z.rules[j]) && IsText(z.rules[j].abbrevPart)
  }

  predicate Marked(z: Zone, j: nat, year: int) {
    j < |z.rules| && z.rules[j].loYear <= year <= z.rules[j].hiYear && z.yearIs(year, z.rules[j].yearType)
  }

  /** A rule falls due in a year it is marked for, unless its time is clamped to an extreme. */
  function DueTime(z: Zone, j: nat, year: int): Due {
    if Marked(z, j, year) && Calendar.WellFormed(z.rules[j]) then
      match RuleTime(z.rules[j], year)
      case Time(t) => if t == MIN_TIME || t == MAX_TIME then Never else At(t)
      case Exit => Never
    else Never
  }

  function ScheduleOf(z: Zone): Schedule {
    Schedule(z.gmtOff, seq(|z.rules|, j requires 0 <= j < |z.rules| => z.rules[j].timeIsStandard),
             seq(|z.rules|, j requires 0 <= j < |z.rules| => z.rules[j].saved),
             (j: nat, year: int) => DueTime(z, j, year))
  }

  /** Rules of a later year are due later, whatever the rules. */
  lemma {:induction false} SchedulesAreByYear(z: Zone)
    ensures ByYear(ScheduleOf(z))
  {
    var s := ScheduleOf(z);
    forall i: nat, y, j: nat, x | Active(s, i, y) && Active(s, j, x) && y < x
      ensures s.due(i, y).t < s.due(j, x).t
    {
      DueLater(z, i, y, j, x);
    }
  }

  lemma {:induction false} DueLater(z: Zone, i: nat, y: int, j: nat, x: int)
    requires DueTime(z, i, y).At? && DueTime(z, j, x).At? && y < x
    ensures DueTime(z, i, y).t < DueTime(z, j, x).t
  {
    DueInYear(z, i, y);
    DueInYear(z, j, x);
    YearStartMonotone(y + 1, x);
  }

  lemma {:induction false} DueInYear(z: Zone, j: nat, year: int)
    requires DueTime(z, j, year).At?
    ensures YearStart(year) * SECS_PER_DAY <= DueTime(z, j, year).t < YearStart(year + 1) * SECS_PER_DAY
  {
    NeverWrapped(z.rules[j], year);
    RuleTimeInYear(z.rules[j], year);
  }

  /** The abbreviation of a zone: its format with the rule's variable part in place of `%s`. */
  function Abbreviation(format: string, part: string): (a: string)
    ensures IsText(format) && IsText(part) ==> IsText(a)
  {
    if format == [] then []
    else if format[0] == '%' && |format| > 1 then part + format[2..]
    else [format[0]] + Abbreviation(format[1..], part)
  }

  /** The local time type that a rule puts in force. */
  function TypeOf(z: Zone, j: nat): ZT.ZoneType
    requires j < |z.rules|
  {
    var r := z.rules[j];
    ZT.ZoneType(z.gmtOff + r.saved, r.saved != 0, Abbreviation(z.format, r.abbrevPart))
  }

  /** The position of a type in a table. */
  function IndexOf(types: seq<ZT.ZoneType>, t: ZT.ZoneType): (i: nat)
    requires t in types
    ensures i < |types| && types[i] == t
  {
    if types[0] == t then 0 else 1 + IndexOf(types[1..], t)
  }

  /** The entries asked for by a run: all firings but those before the first that saves daylight. */
  function Calls(z: Zone, fs: seq<Firing>, types: seq<ZT.ZoneType>): (cs: seq<ZT.Transition>)
    requires forall f | f in fs :: f.rule < |z.rules| && TypeOf(z, f.rule) in types
    ensures |cs| <= |fs|
  {
    if fs == [] then []
    else
      var f, before := fs[|fs| - 1], Calls(z, fs[..|fs| - 1], types);
      if before == [] && z.rules[f.rule].saved == 0 then []
      else before + [ZT.Transition(f.gmt, IndexOf(types, TypeOf(z, f.rule)))]
  }

  lemma {:induction false} IndexOfStable(types: seq<ZT.ZoneType>, more: seq<ZT.ZoneType>, t: ZT.ZoneType)
    requires t in types
    ensures IndexOf(types + more, t) == IndexOf(types, t)
  {
    if types[0] != t {
      assert (types + more)[1..] == types[1..] + more;
      IndexOfStable(types[1..], more, t);
    }
  }

  /** Types added later do not change the entries already asked for. */
  lemma {:induction false} CallsStable(z: Zone, fs: seq<Firing>, types: seq<ZT.ZoneType>, more: seq<ZT.ZoneType>)
    requires forall f | f in fs :: f.rule < |z.rules| && TypeOf(z, f.rule) in types
    ensures Calls(z, fs, types + more) == Calls(z, fs, types)
  {
    if fs != [] {
      CallsStable(z, fs[..|fs| - 1], types, more);
      IndexOfStable(types, more, TypeOf(z, fs[|fs| - 1].rule));
    }
  }

  // ---------------------------------------------------------------- the loops of outzone

  lemma {:induction false} GmtByTAdd(t: int, offset: int)
    requires IsInt(t) && t != MIN_TIME && t != MAX_TIME && -2 * SECS_PER_DAY < offset < 2 * SECS_PER_DAY
    ensures TAdd(t, -offset) == if IsInt(t - offset) then Time(t - offset) else Exit
  {
    TAddTrusted(t, -offset);
  }

  /** Every rule marked in a year has a time in it. */
  ghost predicate HaveTimes(z: Zone, year: int)
    requires Usable(z)
  {
    forall j: nat | Marked(z, j, year) :: RuleTime(z.rules[j], year).Time?
  }

  /** Mark the rules to do in a year and compute their times. */
  method MarkRules(z: Zone, year: int) returns (ok: bool, todo: seq<bool>, temp: seq<int>)
    requires Usable(z) && IsInt(year)
    ensures ok <==> HaveTimes(z, year)
    ensures ok ==> Tracks(z, year, todo, temp, {})
  {
    todo, temp := [], [];
    var j := 0;
    while j < |z.rules|
      invariant 0 <= j <= |z.rules| && |todo| == |temp| == j
      invariant forall i | 0 <= i < j ::
                todo[i] == Marked(z, i, year)
                  && (todo[i] ==> RuleTime(z.rules[i], year) == Time(temp[i]) && IsInt(temp[i]))
    {
      var rule := z.rules[j];
      var mark := year >= rule.loYear && year <= rule.hiYear && z.yearIs(year, rule.yearType);
      var time := 0;
      if mark {
        var r := RpyTime(rule, year);
        if r.Exit? {
          assert Marked(z, j, year);
          return false, todo, temp;
        }
        time := r.t;
      }
      todo, temp := todo + [mark], temp + [time];
      j := j + 1;
    }
    return true, todo, temp;
  }

  datatype Choice = NoneLeft | Next(k: nat, ktime: int) | Overflow

  /** What the marks of the rules say of a year in which the rules `done` have fired. */
  ghost predicate Tracks(z: Zone, year: int, todo: seq<bool>, temp: seq<int>, done: set<nat>) {
    && Usable(z) && |todo| == |temp| == |z.rules|
    && forall j | 0 <= j < |z.rules| ::
         && (todo[j] <==> Marked(z, j, year) && j !in done)
         && (Marked(z, j, year) ==> RuleTime(z.rules[j], year) == Time(temp[j]) && IsInt(temp[j]))
  }

  /** The rules that a run has already taken in a year. */
  ghost predicate TakenIn(fs: seq<Firing>, year: int, done: set<nat>) {
    forall j: nat :: j in done <==> Fired(fs, j, year)
  }

  /** The time of rule `j` in GMT, or nothing if it is clamped. */
  method GmtOf(z: Zone, j: nat, jtime: int, stdoff: int) returns (r: Outcome)
    requires Usable(z) && j < |z.rules| && IsInt(jtime) && jtime != MIN_TIME && jtime != MAX_TIME
    requires -SECS_PER_DAY < stdoff < SECS_PER_DAY
    ensures r.Time? <==> IsInt(jtime - Ahead(ScheduleOf(z), j, stdoff))
    ensures r.Time? ==> r.t == jtime - Ahead(ScheduleOf(z), j, stdoff)
  {
    var offset := z.gmtOff;
    if !z.rules[j].timeIsStandard {
      OAddExact(offset, stdoff);
      offset := OAdd(offset, stdoff).t;
    }
    GmtByTAdd(jtime, offset);
    r := TAdd(jtime, -offset);
  }

  /** A rule that is still to fire in a year. */
  ghost predicate ToFire(s: Schedule, fs: seq<Firing>, j: nat, year: int) {
    Active(s, j, year) && !Fired(fs, j, year)
  }

  /** The GMT times of the rules still to fire fit in 32 bits. */
  ghost predicate GmtFits(s: Schedule, fs: seq<Firing>, year: int)
    requires Known(s, fs)
  {
    forall j: nat | ToFire(s, fs, j, year) :: IsInt(Gmt(s, j, year, SavedAfter(s, fs)))
  }

  /** Of the first `n` rules those still to fire have been compared, and `c` is the earliest of them. */
  ghost predicate Compared(s: Schedule, fs: seq<Firing>, year: int, c: Choice, n: nat)
    requires Known(s, fs)
  {
    var saved := SavedAfter(s, fs);
    && !c.Overflow?
    && (c.Next? ==> c.k < n && ToFire(s, fs, c.k, year) && c.ktime == Gmt(s, c.k, year, saved))
    && forall j: nat | j < n && ToFire(s, fs, j, year) ::
         && IsInt(Gmt(s, j, year, saved)) && c.Next? && c.ktime <= Gmt(s, j, year, saved)
         && (j < c.k ==> c.ktime < Gmt(s, j, year, saved))
  }

  lemma {:induction false} ComparedAll(s: Schedule, fs: seq<Firing>, year: int, c: Choice)
    requires Known(s, fs) && Greedy.WellFormed(s) && Compared(s, fs, year, c, |s.saved|)
    ensures GmtFits(s, fs, year)
    ensures c.Next? ==> FiresNext(s, fs, Firing(c.k, year, s.due(c.k, year).t, c.ktime))
    ensures c.NoneLeft? ==> Exhausted(s, fs, year)
  {
    assert forall j: nat | Active(s, j, year) && !Fired(fs, j, year) :: ToFire(s, fs, j, year);
  }

  /** A rule is still to fire if it is marked to do and its time is no extreme. */
  lemma {:induction false} MarkedToFire(z: Zone, year: int, todo: seq<bool>, temp: seq<int>, fs: seq<Firing>,
                                        done: set<nat>, j: nat)
    requires Tracks(z, year, todo, temp, done) && TakenIn(fs, year, done) && j < |z.rules|
    ensures |todo| == |temp| == |z.rules|
    ensures todo[j] && temp[j] != MIN_TIME && temp[j] != MAX_TIME <==> ToFire(ScheduleOf(z), fs, j, year)
    ensures ToFire(ScheduleOf(z), fs, j, year) ==> IsInt(temp[j]) && temp[j] == ScheduleOf(z).due(j, year).t
  {
    hide RuleTime, Fired;
  }

  /** Find the rule, of those to do, that takes effect earliest in the year. */
  method Earliest(z: Zone, year: int, todo: seq<bool>, temp: seq<int>, stdoff: int, ghost fs: seq<Firing>,
                  ghost done: set<nat>)
    returns (c: Choice)
    requires Tracks(z, year, todo, temp, done) && TakenIn(fs, year, done)
    requires Known(ScheduleOf(z), fs) && stdoff == SavedAfter(ScheduleOf(z), fs)
    ensures c.Next? ==> c.k < |z.rules| == |temp| && FiresNext(ScheduleOf(z), fs, Firing(c.k, year, temp[c.k], c.ktime))
    ensures c.NoneLeft? ==> Exhausted(ScheduleOf(z), fs, year)
    ensures c.Overflow? <==> !GmtFits(ScheduleOf(z), fs, year)
  {
    hide Tracks, TakenIn, ToFire, DueTime, FiresNext, Exhausted;
    ghost var s := ScheduleOf(z);
    c := NoneLeft;
    var j := 0;
    while j < |z.rules|
      invariant 0 <= j <= |z.rules| && Compared(s, fs, year, c, j)
    {
      MarkedToFire(z, year, todo, temp, fs, done, j);
      if todo[j] && temp[j] != MIN_TIME && temp[j] != MAX_TIME {
        SavedSmall(z, year, todo, temp, fs, done);
        var jtime := GmtOf(z, j, temp[j], stdoff);
        if jtime.Exit? {
          return Overflow;
        }
        if c.NoneLeft? || jtime.t < c.ktime {
          c := Next(j, jtime.t);
        }
      }
      j := j + 1;
    }
    ComparedAll(s, fs, year, c);
    if c.Next? {
      MarkedToFire(z, year, todo, temp, fs, done, c.k);
    }
  }

  lemma {:induction false} SavedSmall(z: Zone, year: int, todo: seq<bool>, temp: seq<int>, fs: seq<Firing>,
                                      done: set<nat>)
    requires Tracks(z, year, todo, temp, done) && Known(ScheduleOf(z), fs)
    ensures Usable(z) && -SECS_PER_DAY < SavedAfter(ScheduleOf(z), fs) < SECS_PER_DAY
  {
  }

  predicate RulesOf(z: Zone, fs: seq<Firing>) {
    forall f | f in fs :: f.rule < |z.rules|
  }

  /** The types that a run has asked for, each firing for that of its rule. */
  function TypesAfter(z: Zone, fs: seq<Firing>): (types: seq<ZT.ZoneType>)
    requires RulesOf(z, fs)
    ensures forall f | f in fs :: TypeOf(z, f.rule) in types
  {
    if fs == [] then [] else ZT.Intern(TypesAfter(z, fs[..|fs| - 1]), TypeOf(z, fs[|fs| - 1].rule))
  }

  /** The entries that it has asked for, as they are recorded. */
  function EntriesAfter(z: Zone, fs: seq<Firing>): seq<ZT.Transition>
    requires RulesOf(z, fs)
  {
    ZT.RecordAll(Calls(z, fs, TypesAfter(z, fs)))
  }

  /** The tables hold exactly what a run has asked for. */
  ghost predicate Holds(z: Zone, entries: seq<ZT.Transition>, types: seq<ZT.ZoneType>, fs: seq<Firing>) {
    RulesOf(z, fs) && types == TypesAfter(z, fs) && entries == EntriesAfter(z, fs)
  }

  /** The entries after one more firing. */
  lemma {:induction false} OneMoreCall(z: Zone, fs: seq<Firing>, f: Firing, types: seq<ZT.ZoneType>,
                                       more: seq<ZT.ZoneType>)
    requires forall g | g in fs :: g.rule < |z.rules| && TypeOf(z, g.rule) in types
    requires f.rule < |z.rules| && TypeOf(z, f.rule) in types + more
    ensures forall g | g in fs + [f] :: g.rule < |z.rules| && TypeOf(z, g.rule) in types + more
    ensures var before, after := Calls(z, fs, types), Calls(z, fs + [f], types + more);
            if before == [] && z.rules[f.rule].saved == 0 then after == []
            else ZT.RecordAll(after) ==
                 ZT.Record(ZT.RecordAll(before), ZT.Transition(f.gmt, IndexOf(types + more, TypeOf(z, f.rule))))
    ensures (ZT.RecordAll(Calls(z, fs, types)) == []) <==> Calls(z, fs, types) == []
  {
    CallsStable(z, fs, types, more);
    assert (fs + [f])[..|fs|] == fs;
    var before, after := Calls(z, fs, types), Calls(z, fs + [f], types + more);
    ZT.RecordedBefore(before);
    if after != [] {
      assert after[..|after| - 1] == before;
    }
  }

  lemma {:induction false} IndexIsUnique(types: seq<ZT.ZoneType>, t: ZT.ZoneType, i: nat)
    requires ZT.Distinct(types) && i < |types| && types[i] == t
    ensures IndexOf(types, t) == i
  {
  }

  /** Entering a firing, or leaving it out at the start, keeps the tables in step with the run. */
  lemma {:induction false} EnteredHolds(z: Zone, entries: seq<ZT.Transition>, was: seq<ZT.ZoneType>,
                                        now: seq<ZT.ZoneType>, kind: nat, fs: seq<Firing>, f: Firing)
    requires Holds(z, entries, was, fs) && f.rule < |z.rules|
    requires now == ZT.Intern(was, TypeOf(z, f.rule)) && ZT.Distinct(now) && kind < |now|
             && now[kind] == TypeOf(z, f.rule)
    ensures Holds(z, if entries == [] && z.rules[f.rule].saved == 0 then entries
                  else ZT.Record(entries, ZT.Transition(f.gmt, kind)), now, fs + [f])
  {
    hide TypeOf;
    var more := now[|was|..];
    assert now == was + more;
    IndexIsUnique(now, TypeOf(z, f.rule), kind);
    OneMoreCall(z, fs, f, was, more);
    assert (fs + [f])[..|fs|] == fs;
  }

  /** A run up to and in `year`, with `stdoff` in force at its end. */
  ghost predicate RunSoFar(z: Zone, fs: seq<Firing>, lo: int, year: int, stdoff: int) {
    Chosen(ScheduleOf(z), fs, lo, year) && stdoff == SavedAfter(ScheduleOf(z), fs)
  }

  ghost predicate AllExhausted(z: Zone, fs: seq<Firing>, lo: int, hi: int) {
    forall y | lo <= y < hi :: Exhausted(ScheduleOf(z), fs, y)
  }

  lemma {:induction false} RunExtends(z: Zone, fs: seq<Firing>, f: Firing, lo: int, year: int, stdoff: int)
    requires RunSoFar(z, fs, lo, year, stdoff) && FiresNext(ScheduleOf(z), fs, f) && lo <= f.year == year
    ensures f.rule < |z.rules| && RunSoFar(z, fs + [f], lo, year, z.rules[f.rule].saved)
  {
    ChosenExtend(ScheduleOf(z), fs, f, lo, year);
  }

  lemma {:induction false} StillExhausted(z: Zone, before: seq<Firing>, fs: seq<Firing>, lo: int, year: int)
    requires before <= fs && AllExhausted(z, before, lo, year)
    ensures AllExhausted(z, fs, lo, year)
  {
    forall y | lo <= y < year ensures Exhausted(ScheduleOf(z), fs, y) {
      ExhaustedGrows(ScheduleOf(z), before, fs, y);
    }
  }

  lemma {:induction false} OneMoreYear(z: Zone, before: seq<Firing>, fs: seq<Firing>, lo: int, year: int)
    requires before <= fs && AllExhausted(z, before, lo, year) && Exhausted(ScheduleOf(z), fs, year)
    ensures AllExhausted(z, fs, lo, year + 1)
  {
    StillExhausted(z, before, fs, lo, year);
  }

  /** The state of the inner loop of `outzone`. */
  ghost predicate InYear(z: Zone, year: int, todo: seq<bool>, temp: seq<int>, stdoff: int, fs: seq<Firing>, lo: int,
                         done: set<nat>) {
    Usable(z) && lo <= year && Tracks(z, year, todo, temp, done) && TakenIn(fs, year, done)
      && RunSoFar(z, fs, lo, year, stdoff)
  }

  lemma {:induction false} YearBegins(z: Zone, year: int, todo: seq<bool>, temp: seq<int>, stdoff: int, fs: seq<Firing>,
                                      lo: int)
    requires Usable(z) && lo <= year && Tracks(z, year, todo, temp, {}) && RunSoFar(z, fs, lo, year - 1, stdoff)
    ensures InYear(z, year, todo, temp, stdoff, fs, lo, {})
  {
  }

  lemma {:induction false} InYearMeans(z: Zone, year: int, todo: seq<bool>, temp: seq<int>, stdoff: int,
                                       fs: seq<Firing>, lo: int, done: set<nat>)
    requires InYear(z, year, todo, temp, stdoff, fs, lo, done)
    ensures Usable(z) && lo <= year && Tracks(z, year, todo, temp, done) && TakenIn(fs, year, done)
    ensures Known(ScheduleOf(z), fs) && stdoff == SavedAfter(ScheduleOf(z), fs) && |todo| == |temp| == |z.rules|
  {
  }

  lemma {:induction false} InYearExtends(z: Zone, year: int, todo: seq<bool>, temp: seq<int>, stdoff: int,
                                         fs: seq<Firing>, lo: int, done: set<nat>, f: Firing)
    requires InYear(z, year, todo, temp, stdoff, fs, lo, done) && f.year == year && FiresNext(ScheduleOf(z), fs, f)
    ensures f.rule < |todo| && todo[f.rule]
    ensures InYear(z, year, todo[f.rule := false], temp, z.rules[f.rule].saved, fs + [f], lo, done + {f.rule})
  {
    RunExtends(z, fs, f, lo, year, stdoff);
    FiredOneMore(fs, f, year, done);
    TracksOneFewer(z, year, todo, temp, done, f.rule);
  }

  lemma {:induction false} TracksOneFewer(z: Zone, year: int, todo: seq<bool>, temp: seq<int>, done: set<nat>, k: nat)
    requires Tracks(z, year, todo, temp, done) && k < |todo|
    ensures Tracks(z, year, todo[k := false], temp, done + {k})
  {
  }

  /** How many rules are still to do. */
  function Open(todo: seq<bool>): nat {
    if todo == [] then 0 else Open(todo[1..]) + if todo[0] then 1 else 0
  }

  lemma {:induction false} OneFewerOpen(todo: seq<bool>, k: nat)
    requires k < |todo| && todo[k]
    ensures Open(todo[k := false]) < Open(todo)
  {
    if k > 0 {
      OneFewerOpen(todo[1..], k - 1);
      assert todo[k := false][1..] == todo[1..][k - 1 := false];
    }
  }

  /** What the tables hold: the entries, the types, their offsets into the pool of abbreviations, and the pool. */
  datatype Contents = Contents(entries: seq<ZT.Transition>, types: seq<ZT.ZoneType>, abbrinds: seq<int>, pool: string)

  /** What they hold after a run. */
  function After(z: Zone, fs: seq<Firing>): Contents
    requires RulesOf(z, fs)
  {
    var types := TypesAfter(z, fs);
    Contents(EntriesAfter(z, fs), types, ZT.OffsetsOf(types), ZT.PoolOf(types))
  }

  /** Looking for a type among these reads in front of the pool. */
  ghost predicate Leaves(c: Contents, want: ZT.ZoneType) {
    |c.types| == |c.abbrinds| && ZT.ScanLeavesPool(c.types, c.abbrinds, want)
  }

  /** The type of rule `k` has no place in these tables, or its entry has none. */
  ghost predicate Refuses(z: Zone, c: Contents, k: nat)
    requires k < |z.rules|
  {
    var want := TypeOf(z, k);
    && !Leaves(c, want)
    && (ZT.NoPlaceFor(c.types, c.pool, want)
        || ((c.entries != [] || z.rules[k].saved != 0) && NoEntryFor(c, want)))
  }

  ghost predicate NoEntryFor(c: Contents, want: ZT.ZoneType) {
    ZT.EntriesFull(c.entries, IndexOf(ZT.Intern(c.types, want), want))
  }

  /** Why a run ends in a year, after the firings `fs`: a rule has no time, a GMT time does not fit, the tables have
      no place for the next firing, or the search for its type leaves the pool. */
  ghost predicate Ends(z: Zone, fs: seq<Firing>, year: int, end: Ended) {
    Usable(z) && Known(ScheduleOf(z), fs) && RulesOf(z, fs) &&
    match end
    case Filled => true
    case Stopped =>
      || !HaveTimes(z, year) || !GmtFits(ScheduleOf(z), fs, year)
      || exists f: Firing | NextIn(z, fs, f, year) :: Refuses(z, After(z, fs), f.rule)
    case WildRead => exists f: Firing | NextIn(z, fs, f, year) :: Leaves(After(z, fs), TypeOf(z, f.rule))
  }

  /** A firing had no such reason to end the run. */
  ghost predicate Passes(z: Zone, before: seq<Firing>, f: Firing) {
    && Known(ScheduleOf(z), before) && RulesOf(z, before) && f.rule < |z.rules|
    && GmtFits(ScheduleOf(z), before, f.year)
    && !Refuses(z, After(z, before), f.rule) && !Leaves(After(z, before), TypeOf(z, f.rule))
  }

  ghost predicate AllPass(z: Zone, fs: seq<Firing>) {
    forall i | 0 <= i < |fs| :: Passes(z, fs[..i], fs[i])
  }

  lemma {:induction false} OneMorePasses(z: Zone, fs: seq<Firing>, f: Firing)
    requires AllPass(z, fs) && Passes(z, fs, f)
    ensures AllPass(z, fs + [f])
  {
    hide Passes;
    var gs := fs + [f];
    forall i | 0 <= i < |gs| ensures Passes(z, gs[..i], gs[i]) {
      assert gs[..i] == fs[..i];
      assert i == |fs| ==> fs[..i] == fs;
    }
  }

  /** The years from `lo` on in which every rule has its time. */
  ghost predicate AllHaveTimes(z: Zone, lo: int, hi: int)
    requires Usable(z)
  {
    forall y | lo <= y < hi :: HaveTimes(z, y)
  }

  /** The firing that comes next in a year. */
  ghost predicate NextIn(z: Zone, fs: seq<Firing>, f: Firing, year: int) {
    && Known(ScheduleOf(z), fs) && FiresNext(ScheduleOf(z), fs, f)
    && f.year == year && f.rule < |z.rules|
  }

  lemma {:induction false} YearNotBegun(z: Zone, year: int, stdoff: int, fs: seq<Firing>, lo: int)
    requires Usable(z) && lo <= year && RunSoFar(z, fs, lo, year - 1, stdoff)
    ensures Chosen(ScheduleOf(z), fs, lo, year) && (!HaveTimes(z, year) ==> Ends(z, fs, year, Stopped))
  {
    hide HaveTimes, FiresNext;
  }

  lemma {:induction false} YearGoesOn(z: Zone, year: int, todo: seq<bool>, temp: seq<int>, stdoff: int, fs: seq<Firing>,
                                      lo: int, done: set<nat>)
    requires InYear(z, year, todo, temp, stdoff, fs, lo, done)
    ensures Ends(z, fs, year, Filled) && Chosen(ScheduleOf(z), fs, lo, year) && RunSoFar(z, fs, lo, year, stdoff)
  {
    hide Tracks, FiresNext;
  }

  /** The two tables of a compilation; `outzone` fills both. */
  class Compiler {
    const times: ZT.TransitionTable
    const kinds: ZT.TypeTable

    constructor ()
      ensures Valid() && times.Entries == [] && kinds.Types == []
      ensures fresh(Parts())
    {
      hide ZT.Columns, ZT.Laid;
      times := new ZT.TransitionTable();
      kinds := new ZT.TypeTable();
    }

    ghost function Parts(): set<object> {
      {times, times.ats, times.types, kinds, kinds.gmtoffs, kinds.isdsts, kinds.abbrinds, kinds.chars}
    }

    ghost predicate Valid()
      reads Parts()
    {
      && times.Valid() && kinds.Valid()
      && times.ats != kinds.gmtoffs && times.ats != kinds.abbrinds && times.types != kinds.gmtoffs
         && times.types != kinds.abbrinds
    }

    ghost function Now(): Contents
      requires Valid()
      reads Parts()
    {
      Contents(times.Entries, kinds.Types, kinds.abbrinds[..kinds.typecnt], kinds.Pool())
    }

    /** The tables hold what the run leads to, the offsets and the pool as well. */
    lemma {:induction false} NowIsAfter(z: Zone, fs: seq<Firing>)
      requires Valid() && Holds(z, times.Entries, kinds.Types, fs)
      ensures RulesOf(z, fs) && Now() == After(z, fs)
    {
      hide ZT.Columns, TypesAfter, EntriesAfter;
    }

    /** The index of the type that rule `k` puts in force. */
    method TypeFor(z: Zone, k: nat) returns (end: Ended, kind: nat)
      requires Usable(z) && k < |z.rules| && Valid()
      modifies kinds, kinds.gmtoffs, kinds.isdsts, kinds.abbrinds, kinds.chars
      ensures end.Filled? ==>
                && kinds.Valid() && kinds.Types == ZT.Intern(old(kinds.Types), TypeOf(z, k))
                && kind < |kinds.Types| && kinds.Types[kind] == TypeOf(z, k)
      ensures end.WildRead? <==> Leaves(old(Now()), TypeOf(z, k))
      ensures end.Stopped? <==>
                && !Leaves(old(Now()), TypeOf(z, k))
                && ZT.NoPlaceFor(old(Now()).types, old(Now()).pool, TypeOf(z, k))
    {
      hide ZT.ScanLeavesPool, ZT.NoPlaceFor, ZT.Columns, ZT.IsTail;
      kinds.SameLength();
      var rule := z.rules[k];
      OAddExact(z.gmtOff, rule.saved);
      var offset := OAdd(z.gmtOff, rule.saved).t;
      var abbr := Abbreviation(z.format, rule.abbrevPart);
      assert TypeOf(z, k) == ZT.ZoneType(offset, rule.saved != 0, abbr);
      var added := kinds.AddType(offset, abbr, rule.saved != 0);
      match added {
        case Index(i) => end, kind := Filled, i;
        case TablesFull => end, kind := Stopped, 0;
        case ReadBeforePool => end, kind := WildRead, 0;
      }
    }

    /** Enter one firing: its type, and then its time unless nothing has been entered and it saves none. */
    method Enter(z: Zone, k: nat, ktime: int, ghost fs: seq<Firing>, ghost f: Firing) returns (end: Ended)
      requires Usable(z) && k < |z.rules| && Valid() && Holds(z, times.Entries, kinds.Types, fs) && f.rule == k
               && f.gmt == ktime
      modifies Parts()
      ensures end.Filled? ==> Valid() && Holds(z, times.Entries, kinds.Types, fs + [f])
      ensures end.WildRead? <==> Leaves(old(Now()), TypeOf(z, k))
      ensures end.Stopped? <==> Refuses(z, old(Now()), k)
    {
      hide TypeOf, Leaves, Holds, ZT.NoPlaceFor, ZT.Columns;
      ghost var was := kinds.Types;
      var kind;
      end, kind := TypeFor(z, k);
      if end.Filled? {
        assert times.Valid();
        DistinctTypes();
        EnteredHolds(z, times.Entries, was, kinds.Types, kind, fs, f);
        IndexIsUnique(kinds.Types, TypeOf(z, k), kind);
        assert times.timecnt == 0 <==> times.Entries == [];
        if times.timecnt != 0 || z.rules[k].saved != 0 {
          var ok := times.AddTt(ktime, kind);
          end := if ok then Filled else Stopped;
        }
      }
    }

    lemma {:induction false} DistinctTypes()
      requires kinds.Valid()
      ensures ZT.Distinct(kinds.Types)
    {
    }

    /** One pass of the inner loop of `outzone`: the next rule to fire, if there is one. */
    method FireNext(z: Zone, year: int, todo: seq<bool>, temp: seq<int>, stdoff: int, fs: seq<Firing>, ghost lo: int,
                    ghost done: set<nat>)
      returns (end: Ended, last: bool, f: Firing)
      requires Valid() && Holds(z, times.Entries, kinds.Types, fs) && InYear(z, year, todo, temp, stdoff, fs, lo, done)
      modifies Parts()
      ensures end.Filled? && last
              ==> Valid() && Holds(z, times.Entries, kinds.Types, fs) && Exhausted(ScheduleOf(z), fs, year)
      ensures end.Filled? && !last ==>
                && Valid() && Holds(z, times.Entries, kinds.Types, fs + [f])
                && f.rule < |todo| && todo[f.rule]
                && InYear(z, year, todo[f.rule := false], temp, z.rules[f.rule].saved, fs + [f], lo, done + {f.rule})
      ensures Ends(z, fs, year, end)
      ensures end.Filled? && !last ==> f.rule < |z.rules| && Passes(z, fs, f)
    {
      hide InYear, Holds, Exhausted, FiresNext, ScheduleOf, GmtFits, Refuses, Leaves, TypeOf, HaveTimes, After;
      hide Usable, Tracks, TakenIn, SavedAfter, TypesAfter, EntriesAfter, ZT.Columns, ZT.Laid;
      NowIsAfter(z, fs);
      end, last, f := Stopped, false, Firing(0, year, 0, 0);
      InYearMeans(z, year, todo, temp, stdoff, fs, lo, done);
      var c := Earliest(z, year, todo, temp, stdoff, fs, done);
      if c.NoneLeft? {
        end, last := Filled, true;
      } else if c.Next? {
        f := Firing(c.k, year, temp[c.k], c.ktime);
        InYearExtends(z, year, todo, temp, stdoff, fs, lo, done, f);
        assert NextIn(z, fs, f, year);
        end := Enter(z, c.k, c.ktime, fs, f);
      }
    }

    /** One year of `outzone`. */
    method OutYear(z: Zone, year: int, stdoff0: int, before: seq<Firing>, ghost lo: int)
      returns (end: Ended, stdoff: int, fs: seq<Firing>)
      requires Usable(z) && IsInt(year) && lo <= year && Valid() && Holds(z, times.Entries, kinds.Types, before)
      requires RunSoFar(z, before, lo, year - 1, stdoff0) && AllPass(z, before)
      modifies Parts()
      ensures end.Filled? ==> Valid() && Holds(z, times.Entries, kinds.Types, fs) && before <= fs
      ensures end.Filled? ==> RunSoFar(z, fs, lo, year, stdoff) && Exhausted(ScheduleOf(z), fs, year)
      ensures end.Filled? ==> HaveTimes(z, year)
      ensures before <= fs && Ends(z, fs, year, end) && AllPass(z, fs) && Chosen(ScheduleOf(z), fs, lo, year)
    {
      hide AllPass, Passes, InYear, Holds, Exhausted, Chosen, Ends, HaveTimes, Usable, Tracks, RunSoFar, ScheduleOf;
      hide ZT.Columns, TypesAfter;
      end, stdoff, fs := Stopped, stdoff0, before;
      YearNotBegun(z, year, stdoff, fs, lo);
      var ok, todo, temp := MarkRules(z, year);
      if ok {
        YearBegins(z, year, todo, temp, stdoff, fs, lo);
        YearGoesOn(z, year, todo, temp, stdoff, fs, lo, {});
        ghost var done: set<nat> := {};
        var last := false;
        end := Filled;
        while end.Filled? && !last
          invariant end.Filled? ==> Valid() && Holds(z, times.Entries, kinds.Types, fs)
          invariant end.Filled?
                    ==> InYear(z, year, todo, temp, stdoff, fs, lo, done) && RunSoFar(z, fs, lo, year, stdoff)
          invariant Ends(z, fs, year, end) && AllPass(z, fs) && Chosen(ScheduleOf(z), fs, lo, year)
          invariant before <= fs && (end.Filled? && last ==> Exhausted(ScheduleOf(z), fs, year))
          decreases end.Filled?, if last then 0 else 1 + Open(todo)
        {
          var f;
          end, last, f := FireNext(z, year, todo, temp, stdoff, fs, lo, done);
          if end.Filled? && !last {
            OneFewerOpen(todo, f.rule);
            todo, done := todo[f.rule := false], done + {f.rule};
            OneMorePasses(z, fs, f);
            stdoff, fs := z.rules[f.rule].saved, fs + [f];
            YearGoesOn(z, year, todo, temp, stdoff, fs, lo, done);
          }
        }
      }
    }

    /** The years of a zone line with rules.  `last` is the last year begun: the years before it are done. */
    method OutRules(z: Zone, lo: int, hi: int) returns (end: Ended, fs: seq<Firing>, ghost last: int)
      requires Usable(z) && IsInt(lo) && IsInt(hi) && lo <= hi && Valid() && times.Entries == [] && kinds.Types == []
      modifies Parts()
      ensures end.Filled? ==> Valid() && Holds(z, times.Entries, kinds.Types, fs)
      ensures end.Filled? ==> last == hi && Exhausted(ScheduleOf(z), fs, hi) && HaveTimes(z, hi)
      ensures lo <= last <= hi && AllExhausted(z, fs, lo, last) && AllHaveTimes(z, lo, last)
      ensures Ends(z, fs, last, end) && AllPass(z, fs) && Chosen(ScheduleOf(z), fs, lo, last)
    {
      hide Holds, Exhausted, Ends, Chosen, AllExhausted, AllPass, HaveTimes, AllHaveTimes, RunSoFar, ScheduleOf, Usable,
           SavedAfter, ZT.Columns, ZT.Laid;
      end, fs, last := Filled, [], lo;
      NothingHeld(z);
      NothingChosen(z, lo);
      var stdoff, year := 0, lo;
      while year <= hi
        invariant lo <= year <= hi + 1 && end.Filled? && lo <= last <= hi && (year > lo ==> last == year - 1)
        invariant Valid() && Holds(z, times.Entries, kinds.Types, fs) && AllPass(z, fs)
        invariant RunSoFar(z, fs, lo, year - 1, stdoff) && AllExhausted(z, fs, lo, year) && AllHaveTimes(z, lo, year)
        invariant year > lo ==>
                    && Ends(z, fs, last, end) && Chosen(ScheduleOf(z), fs, lo, last) && HaveTimes(z, last)
                    && Exhausted(ScheduleOf(z), fs, last) && AllExhausted(z, fs, lo, last) && AllHaveTimes(z, lo, last)
      {
        ghost var was := fs;
        last := year;
        end, stdoff, fs := OutYear(z, year, stdoff, fs, lo);
        StillExhausted(z, was, fs, lo, year);
        if !end.Filled? {
          return;
        }
        OneMoreYear(z, was, fs, lo, year);
        OneMoreHasTimes(z, lo, year);
        year := year + 1;
      }
    }

    /** In empty tables a type has a place exactly if its abbreviation fits in the pool. */
    lemma {:induction false} NothingStored(want: ZT.ZoneType)
      requires Valid() && kinds.Types == []
      ensures kinds.typecnt == 0 && !ZT.ScanLeavesPool(kinds.Types, kinds.abbrinds[..kinds.typecnt], want)
      ensures ZT.NoPlaceFor(kinds.Types, kinds.Pool(), want) <==> |want.abbrev| + 1 >= ZT.TZNAME_MAX
    {
      hide ZT.Columns;
      kinds.SameLength();
    }

    /** A zone line without rules: one type, and no entry. */
    method OutFixed(z: Zone) returns (end: Ended)
      requires Usable(z) && Valid() && times.Entries == [] && kinds.Types == []
      modifies Parts()
      ensures end.Filled? ==> Valid() && times.Entries == []
      ensures end.Filled? ==> kinds.Types == [ZT.ZoneType(z.gmtOff + z.stdOff, z.stdOff != 0, z.format)]
      ensures end.Stopped? <==> |z.format| + 1 >= ZT.TZNAME_MAX
      ensures !end.WildRead?
    {
      hide ZT.IsTail, ZT.Columns, ZT.Laid, ZT.NoPlaceFor, ZT.ScanLeavesPool, Usable;
      UsableOffsets(z);
      OAddExact(z.gmtOff, z.stdOff);
      NothingStored(ZT.ZoneType(z.gmtOff + z.stdOff, z.stdOff != 0, z.format));
      var added := kinds.AddType(OAdd(z.gmtOff, z.stdOff).t, z.format, z.stdOff != 0);
      match added {
        case Index(_) => end := Filled;
        case TablesFull => end := Stopped;
        case ReadBeforePool => end := WildRead;
      }
    }

    /** `outzone` for a zone of one line. */
    method OutZone(z: Zone, lo: int, hi: int)
      returns (end: Ended, fs: seq<Firing>, file: seq<int>, ghost last: int)
      requires Usable(z) && IsInt(lo) && IsInt(hi) && lo <= hi && Valid() && times.Entries == [] && kinds.Types == []
      modifies Parts()
      ensures end.Filled? ==> Valid() && file == ZoneFile.Encode(ZoneFile.Data(times, kinds))
      ensures end.Filled? && z.rules == [] ==>
                times.Entries == [] && kinds.Types == [ZT.ZoneType(z.gmtOff + z.stdOff, z.stdOff != 0, z.format)]
      ensures end.Filled? && z.rules != [] ==> Holds(z, times.Entries, kinds.Types, fs)
      ensures end.Filled? && z.rules != [] ==> last == hi && Exhausted(ScheduleOf(z), fs, hi) && HaveTimes(z, hi)
      ensures z.rules == [] ==> !end.WildRead? && (end.Stopped? <==> |z.format| + 1 >= ZT.TZNAME_MAX)
      ensures z.rules != [] ==> lo <= last <= hi && AllExhausted(z, fs, lo, last) && AllHaveTimes(z, lo, last)
      ensures z.rules != [] ==> Ends(z, fs, last, end) && AllPass(z, fs) && Chosen(ScheduleOf(z), fs, lo, last)
    {
      hide Holds, Chosen, Exhausted, AllExhausted, AllHaveTimes, HaveTimes, AllPass, ScheduleOf, Usable, Ends,
           ZoneFile.Encode, ZoneFile.Data, ZT.Columns;
      fs, file, last := [], [], lo;
      if z.rules == [] {
        end := OutFixed(z);
      } else {
        end, fs, last := OutRules(z, lo, hi);
      }
      if end.Filled? {
        file := ZoneFile.WriteZone(times, kinds);
      }
    }
  }

  lemma {:induction false} NothingChosen(z: Zone, lo: int)
    requires Usable(z)
    ensures RunSoFar(z, [], lo, lo - 1, 0) && AllExhausted(z, [], lo, lo) && AllHaveTimes(z, lo, lo) && AllPass(z, [])
  {
  }

  lemma {:induction false} OneMoreHasTimes(z: Zone, lo: int, year: int)
    requires Usable(z) && AllHaveTimes(z, lo, year) && HaveTimes(z, year)
    ensures AllHaveTimes(z, lo, year + 1)
  {
    hide HaveTimes;
  }

  lemma {:induction false} UsableOffsets(z: Zone)
    requires Usable(z)
    ensures -SECS_PER_DAY < z.gmtOff < SECS_PER_DAY && -SECS_PER_DAY < z.stdOff < SECS_PER_DAY && IsText(z.format)
  {
  }

  lemma {:induction false} NothingHeld(z: Zone)
    ensures Holds(z, [], [], [])
  {
  }

  lemma {:induction false} FiredOneMore(fs: seq<Firing>, f: Firing, year: int, done: set<nat>)
    requires f.year == year && TakenIn(fs, year, done)
    ensures TakenIn(fs + [f], year, done + {f.rule})
  {
    forall j: nat ensures Fired(fs + [f], j, year) <==> Fired(fs, j, year) || j == f.rule {
      if k :| 0 <= k < |fs| && fs[k].rule == j && fs[k].year == year {
        assert (fs + [f])[k] == fs[k];
      }
      assert (fs + [f])[|fs|] == f;
    }
  }

  // ---------------------------------------------------------------- what the compiled table says

  /** The first per cent sign of a format stands in front of an `s`, and gives way to the variable part; a format
      without one is the abbreviation. */
  ghost predicate Spells(format: string, part: string, abbrev: string) {
    && ('%' !in format ==> abbrev == format)
    && forall p: nat | p + 1 < |format| && format[p] == '%' && format[p + 1] == 's' && '%' !in format[..p] ::
         abbrev == format[..p] + part + format[p + 2..]
  }

  lemma {:induction false} AbbreviationAt(format: string, part: string, p: nat)
    requires p + 1 < |format| && format[p] == '%' && '%' !in format[..p]
    ensures Abbreviation(format, part) == format[..p] + part + format[p + 2..]
    decreases p
  {
    if p == 0 {
      assert format[..0] + part == part;
    } else {
      var rest := format[1..];
      assert format[0] == format[..p][0] != '%';
      assert rest[..p - 1] == format[..p][1..] && rest[p + 1..] == format[p + 2..];
      AbbreviationAt(rest, part, p - 1);
      assert [format[0]] + (rest[..p - 1] + part + rest[p + 1..]) == format[..p] + part + format[p + 2..];
    }
  }

  lemma {:induction false} AbbreviationPlain(format: string, part: string)
    requires '%' !in format
    ensures Abbreviation(format, part) == format
    decreases |format|
  {
    if format != [] {
      assert format[0] in format;
      AbbreviationPlain(format[1..], part);
    }
  }

  lemma {:induction false} AbbreviationSpells(format: string, part: string)
    ensures Spells(format, part, Abbreviation(format, part))
  {
    hide Abbreviation;
    if '%' !in format {
      AbbreviationPlain(format, part);
    }
    forall p: nat | p + 1 < |format| && format[p] == '%' && format[p + 1] == 's' && '%' !in format[..p]
      ensures Abbreviation(format, part) == format[..p] + part + format[p + 2..]
    {
      AbbreviationAt(format, part, p);
    }
  }

  /** The local time type that a firing puts in force: the zone's offset and what its rule saves, daylight time
      exactly if that is not nothing, and the abbreviation that the format spells. */
  ghost predicate InForce(z: Zone, f: Firing, t: ZT.ZoneType) {
    && f.rule < |z.rules|
    && t.gmtOff == z.gmtOff + z.rules[f.rule].saved
    && (t.isDst <==> z.rules[f.rule].saved != 0)
    && Spells(z.format, z.rules[f.rule].abbrevPart, t.abbrev)
  }

  /** An entry asked for records a firing: its GMT time, and the type that it puts in force. */
  ghost predicate Enters(z: Zone, c: ZT.Transition, f: Firing, types: seq<ZT.ZoneType>) {
    c.at == f.gmt && 0 <= c.kind < |types| && InForce(z, f, types[c.kind])
  }

  /** The firings in front of `m` are those before the first that saves daylight. */
  ghost predicate SavesFrom(z: Zone, fs: seq<Firing>, m: nat) {
    && m <= |fs| && RulesOf(z, fs)
    && (forall i | 0 <= i < m :: z.rules[fs[i].rule].saved == 0)
    && (m < |fs| ==> z.rules[fs[m].rule].saved != 0)
  }

  lemma {:induction false} TypeInForce(z: Zone, f: Firing)
    requires f.rule < |z.rules|
    ensures InForce(z, f, TypeOf(z, f.rule))
  {
    hide Spells, Abbreviation;
    AbbreviationSpells(z.format, z.rules[f.rule].abbrevPart);
  }

  /** Entries that are those firings from `m` on. */
  ghost predicate EnterFrom(z: Zone, cs: seq<ZT.Transition>, fs: seq<Firing>, m: nat, types: seq<ZT.ZoneType>) {
    m + |cs| == |fs| && forall i | 0 <= i < |cs| :: Enters(z, cs[i], fs[m + i], types)
  }

  lemma {:induction false} EntersMore(z: Zone, cs: seq<ZT.Transition>, fs: seq<Firing>, m: nat,
                                      types: seq<ZT.ZoneType>, c: ZT.Transition, f: Firing)
    requires EnterFrom(z, cs, fs, m, types) && Enters(z, c, f, types)
    ensures EnterFrom(z, cs + [c], fs + [f], m, types)
  {
    hide Enters;
    forall i | 0 <= i < |cs + [c]| ensures Enters(z, (cs + [c])[i], (fs + [f])[m + i], types) {
      assert i < |cs| ==> Enters(z, cs[i], fs[m + i], types);
    }
  }

  /** The entries asked for are the firings from the first that saves daylight on, in order, each with its
      GMT time and its type. */
  lemma {:induction false} CallsAreFirings(z: Zone, fs: seq<Firing>, types: seq<ZT.ZoneType>) returns (m: nat)
    requires forall f | f in fs :: f.rule < |z.rules| && TypeOf(z, f.rule) in types
    ensures SavesFrom(z, fs, m) && EnterFrom(z, Calls(z, fs, types), fs, m, types)
  {
    hide IndexOf, TypeOf, InForce;
    if fs == [] {
      m := 0;
    } else {
      var f, fs' := fs[|fs| - 1], fs[..|fs| - 1];
      var before := Calls(z, fs', types);
      m := CallsAreFirings(z, fs', types);
      assert fs == fs' + [f];
      if before == [] && z.rules[f.rule].saved == 0 {
        m := |fs|;
      } else {
        TypeInForce(z, f);
        EntersMore(z, before, fs', m, types, ZT.Transition(f.gmt, IndexOf(types, TypeOf(z, f.rule))), f);
      }
    }
  }

  /** In a table in order the type in force is that of the last entry whose time has come. */
  lemma {:induction false} KindOfLast(table: seq<ZT.Transition>, i: nat, t: int)
    requires ZT.Increasing(table) && i < |table| && table[i].at <= t && (i + 1 < |table| ==> t < table[i + 1].at)
    ensures ZT.KindAt(table, t) == ZT.Kind(table[i].kind)
    decreases |table|
  {
    if i + 1 < |table| {
      KindOfLast(table[..|table| - 1], i, t);
    }
  }

  lemma {:induction false} NoKindYet(table: seq<ZT.Transition>, t: int)
    requires forall i | 0 <= i < |table| :: t < table[i].at
    ensures ZT.KindAt(table, t) == ZT.NotYet
    decreases |table|
  {
    if table != [] {
      NoKindYet(table[..|table| - 1], t);
    }
  }

  /** From the time of firing `i` to that of the next the table gives the type that it puts in force. */
  ghost predicate TellsOf(z: Zone, fs: seq<Firing>, i: nat, entries: seq<ZT.Transition>, types: seq<ZT.ZoneType>) {
    && i < |fs|
    && forall t | fs[i].gmt <= t && (i + 1 < |fs| ==> t < fs[i + 1].gmt) ::
         var k := ZT.KindAt(entries, t);
         k.Kind? && 0 <= k.kind < |types| && InForce(z, fs[i], types[k.kind])
  }

  lemma {:induction false} InOrder(z: Zone, fs: seq<Firing>, lo: int, hi: int, d: int)
    requires Chosen(ScheduleOf(z), fs, lo, hi)
    requires d >= 0 && OffsetsWithin(ScheduleOf(z), d) && Apart(ScheduleOf(z), d)
    ensures forall i, k | 0 <= i < k < |fs| :: fs[i].local < fs[k].local && fs[i].gmt < fs[k].gmt
  {
    SchedulesAreByYear(z);
    forall i, k | 0 <= i < k < |fs| ensures fs[i].local < fs[k].local && fs[i].gmt < fs[k].gmt {
      ChoiceSorts(ScheduleOf(z), fs, lo, hi, d, i, k);
    }
  }

  /** So do the entries asked for, before any is suppressed. */
  lemma {:induction false} CallsTell(z: Zone, fs: seq<Firing>, m: nat, cs: seq<ZT.Transition>,
                                     types: seq<ZT.ZoneType>)
    requires EnterFrom(z, cs, fs, m, types) && ZT.Increasing(cs)
    ensures forall t | m < |fs| ==> t < fs[m].gmt :: ZT.KindAt(cs, t) == ZT.NotYet
    ensures forall i: nat | m <= i < |fs| :: TellsOf(z, fs, i, cs, types)
  {
    hide InForce, ZT.KindAt;
    forall t | m < |fs| ==> t < fs[m].gmt ensures ZT.KindAt(cs, t) == ZT.NotYet {
      assert cs != [] ==> Enters(z, cs[0], fs[m], types);
      NoKindYet(cs, t);
    }
    forall i: nat | m <= i < |fs| ensures TellsOf(z, fs, i, cs, types) {
      var k := i - m;
      assert Enters(z, cs[k], fs[i], types);
      assert k + 1 < |cs| ==> Enters(z, cs[k + 1], fs[m + (k + 1)], types);
      forall t | fs[i].gmt <= t && (i + 1 < |fs| ==> t < fs[i + 1].gmt)
        ensures ZT.KindAt(cs, t) == ZT.Kind(cs[k].kind)
      {
        KindOfLast(cs, k, t);
      }
    }
  }

  /** For a zone of one line whose rules lie further apart than its daylight offsets reach, the firings come in
      order, the table holds strictly increasing times and repeats no type, and at every instant it gives the type
      that the last firing put in force, from the first that saved daylight on. */
  lemma {:induction false} CompiledTable(z: Zone, fs: seq<Firing>, entries: seq<ZT.Transition>, types: seq<ZT.ZoneType>,
                                         lo: int, hi: int, d: int) returns (m: nat)
    requires Chosen(ScheduleOf(z), fs, lo, hi) && Holds(z, entries, types, fs)
    requires d >= 0 && OffsetsWithin(ScheduleOf(z), d) && Apart(ScheduleOf(z), d)
    ensures ZT.Increasing(entries) && ZT.NoRepeats(entries)
    ensures forall i, k | 0 <= i < k < |fs| :: fs[i].local < fs[k].local && fs[i].gmt < fs[k].gmt
    ensures SavesFrom(z, fs, m)
    ensures forall t | m < |fs| ==> t < fs[m].gmt :: ZT.KindAt(entries, t) == ZT.NotYet
    ensures forall i: nat | m <= i < |fs| :: TellsOf(z, fs, i, entries, types)
  {
    hide InForce, TypeOf, ScheduleOf, Chosen, OffsetsWithin, Apart, ZT.KindAt, Calls, ZT.RecordAll;
    InOrder(z, fs, lo, hi, d);
    m := CallsAreFirings(z, fs, types);
    var cs := Calls(z, fs, types);
    assert ZT.Increasing(cs);
    ZT.RecordedIncreasing(cs);
    ZT.SuppressionPreservesKind(cs, 0);
    CallsTell(z, fs, m, cs, types);
    forall t ensures ZT.KindAt(entries, t) == ZT.KindAt(cs, t) {
      ZT.SuppressionPreservesKind(cs, t);
    }
    forall i: nat | m <= i < |fs| ensures TellsOf(z, fs, i, entries, types) {
      assert TellsOf(z, fs, i, cs, types);
    }
  }

  // ---------------------------------------------------------------- when the rules fire

  /** A rule has a part in a year: the year is one of those it names, and its day exists, in its month and at a time
      that 32 bits can hold without being one of the two extremes. */
  ghost predicate HasPart(z: Zone, j: nat, y: int) {
    && j < |z.rules| && Calendar.WellFormed(z.rules[j])
    && var r := z.rules[j];
       && r.loYear <= y <= r.hiYear && z.yearIs(y, r.yearType)
       && SearchStart(r, y).From?
       && var day := SelectedDay(r, y);
          && (r.dayCode == DayOfMonth
              || exists d | 1 <= d <= MonthLength(IsLeap(y), r.month) :: day == DayNumber(y, r.month, d))
          && IsInt(day * 86400) && INT_MIN < day * 86400 + r.timeOfDay < INT_MAX
  }

  lemma {:induction false} HasPartIff(z: Zone, j: nat, y: int)
    ensures HasPart(z, j, y) <==> DueTime(z, j, y).At? && j < |z.rules|
    ensures HasPart(z, j, y) ==> DueTime(z, j, y).t == SelectedDay(z.rules[j], y) * 86400 + z.rules[j].timeOfDay
  {
    if j < |z.rules| && Calendar.WellFormed(z.rules[j]) && SearchStart(z.rules[j], y).From? {
      InMonthIff(SelectedDay(z.rules[j], y), y, z.rules[j].month);
    }
    hide SelectedDay, SearchStart, InMonth, DayNumber, IsLeap, MonthLength;
  }

  /** The GMT time at which a rule of the zone would fire in a year, behind the firings `before`: unless it is
      given in standard time, what the last of them saved counts. */
  ghost function GmtBehind(z: Zone, before: seq<Firing>, j: nat, y: int): int
    requires HasPart(z, j, y) && RulesOf(z, before)
  {
    var saved := if z.rules[j].timeIsStandard || before == [] then 0 else z.rules[before[|before| - 1].rule].saved;
    SelectedDay(z.rules[j], y) * 86400 + z.rules[j].timeOfDay - z.gmtOff - saved
  }

  /** Every firing is of a rule that has a part in its year and has not fired in it; its time is that of its day on
      the local clock, and in GMT the earliest at which one of those rules would then fire; of several at that time it
      is the first in order. */
  lemma {:induction false} FiringIs(z: Zone, fs: seq<Firing>, lo: int, hi: int, i: nat)
    requires Chosen(ScheduleOf(z), fs, lo, hi) && i < |fs|
    ensures RulesOf(z, fs[..i])
    ensures var f := fs[i];
            && lo <= f.year <= hi && HasPart(z, f.rule, f.year) && !Fired(fs[..i], f.rule, f.year)
            && f.local == SelectedDay(z.rules[f.rule], f.year) * 86400 + z.rules[f.rule].timeOfDay
            && f.gmt == GmtBehind(z, fs[..i], f.rule, f.year)
            && forall j: nat | HasPart(z, j, f.year) && !Fired(fs[..i], j, f.year) ::
                 && f.gmt <= GmtBehind(z, fs[..i], j, f.year)
                 && (j < f.rule ==> f.gmt < GmtBehind(z, fs[..i], j, f.year))
  {
    hide HasPart, SelectedDay, SearchStart, InMonth, DueTime;
    var f, s := fs[i], ScheduleOf(z);
    var before := fs[..i];
    assert FiresNext(s, before, f);
    HasPartIff(z, f.rule, f.year);
    forall j: nat | HasPart(z, j, f.year) && !Fired(before, j, f.year)
      ensures f.gmt <= GmtBehind(z, before, j, f.year) && (j < f.rule ==> f.gmt < GmtBehind(z, before, j, f.year))
    {
      HasPartIff(z, j, f.year);
      assert Active(s, j, f.year);
    }
  }

  /** In a year in which nothing is left to fire exactly the rules that have a part in it have fired. */
  lemma {:induction false} FiredIff(z: Zone, fs: seq<Firing>, lo: int, hi: int, j: nat, y: int)
    requires Chosen(ScheduleOf(z), fs, lo, hi) && Exhausted(ScheduleOf(z), fs, y)
    ensures HasPart(z, j, y) <==> Fired(fs, j, y)
  {
    hide HasPart, DueTime;
    EachFiresOnce(ScheduleOf(z), fs, lo, hi, j, y);
    HasPartIff(z, j, y);
  }
}
