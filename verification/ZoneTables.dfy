/** The tables zic.c builds for one zone: transition times, local time types, and the pool of
    abbreviations that the types share. */
module ZoneTables {
  import opened CTypes

  const TZ_MAX_TIMES := 370
  const TZ_MAX_TYPES := 10
  const TZNAME_MAX := 255

  datatype ZoneType = ZoneType(gmtOff: int, isDst: bool, abbrev: string)

  datatype Transition = Transition(at: int, kind: int)

  datatype Kind = NotYet | Kind(kind: int)

  /** What asking for a type leads to: its index, the end of the program because a table is full, or a
      read of memory in front of the pool. */
  datatype Added = Index(i: nat) | TablesFull | ReadBeforePool

  /** A pool offset as a plain, signed, `char` keeps it. */
  function SignedChar(j: nat): (r: int)
    requires j < 256
    ensures r >= 0 <==> j < 128
    ensures r % 256 == j
  {
    if j < 128 then j else j - 256
  }

  // ---------------------------------------------------------------- what the tables mean

  /** The type in force at time `t`: that of the last entry at or before it. */
  function KindAt(table: seq<Transition>, t: int): Kind {
    if table == [] then NotYet
    else
      var last := table[|table| - 1];
      if last.at <= t then Kind(last.kind) else KindAt(table[..|table| - 1], t)
  }

  /** One call of `addtt`: an entry that repeats the type already in force is suppressed. */
  function Record(table: seq<Transition>, next: Transition): seq<Transition> {
    if table != [] && table[|table| - 1].kind == next.kind then table else table + [next]
  }

  function RecordAll(calls: seq<Transition>): seq<Transition> {
    if calls == [] then [] else Record(RecordAll(calls[..|calls| - 1]), calls[|calls| - 1])
  }

  predicate NonDecreasing(calls: seq<Transition>) {
    forall i, j | 0 <= i < j < |calls| :: calls[i].at <= calls[j].at
  }

  predicate NoRepeats(table: seq<Transition>) {
    forall i | 0 < i < |table| :: table[i - 1].kind != table[i].kind
  }

  lemma {:induction false} RecordedBefore(calls: seq<Transition>)
    ensures forall e | e in RecordAll(calls) :: e in calls
    ensures calls != []
            ==> RecordAll(calls) != [] && RecordAll(calls)[|RecordAll(calls)| - 1].kind == calls[|calls| - 1].kind
  {
    if calls != [] { RecordedBefore(calls[..|calls| - 1]); }
  }

  predicate Increasing(table: seq<Transition>) {
    forall i, j | 0 <= i < j < |table| :: table[i].at < table[j].at
  }

  lemma {:induction false} RecordedIncreasing(calls: seq<Transition>)
    requires Increasing(calls)
    ensures Increasing(RecordAll(calls))
  {
    if calls != [] {
      var before := calls[..|calls| - 1];
      RecordedIncreasing(before);
      RecordedBefore(before);
      forall e | e in RecordAll(before) ensures e.at < calls[|calls| - 1].at {
        assert e in before;
      }
    }
  }

  /** A later entry is in force from its time on, whether it is recorded or suppressed. */
  lemma {:induction false} RecordKind(table: seq<Transition>, last: Transition, t: int)
    requires NoRepeats(table) && forall e | e in table :: e.at <= last.at
    ensures KindAt(Record(table, last), t) == if last.at <= t then Kind(last.kind) else KindAt(table, t)
    ensures NoRepeats(Record(table, last))
  {
    if table != [] && table[|table| - 1].kind == last.kind {
      assert table[|table| - 1] in table;
    } else {
      assert (table + [last])[..|table|] == table;
    }
  }

  /** Suppression loses nothing: when the calls come in time order, every instant has the same type in
      the table as in the full list of calls, and the table repeats no type. */
  lemma {:induction false} SuppressionPreservesKind(calls: seq<Transition>, t: int)
    requires NonDecreasing(calls)
    ensures KindAt(RecordAll(calls), t) == KindAt(calls, t)
    ensures NoRepeats(RecordAll(calls))
  {
    if calls != [] {
      var before, last := calls[..|calls| - 1], calls[|calls| - 1];
      SuppressionPreservesKind(before, t);
      RecordedBefore(before);
      var table := RecordAll(before);
      forall e | e in table ensures e.at <= last.at {
        assert e in before;
      }
      RecordKind(table, last, t);
    }
  }

  /** Out of time order suppression does lose information. */
  lemma {:induction false} SuppressionNeedsOrder()
    ensures var calls := [Transition(5, 0), Transition(3, 0)];
            KindAt(RecordAll(calls), 3) == NotYet && KindAt(calls, 3) == Kind(0)
  {
    var calls := [Transition(5, 0), Transition(3, 0)];
    assert calls[..1] == [Transition(5, 0)];
    assert RecordAll([Transition(5, 0)]) == [Transition(5, 0)];
    assert KindAt([Transition(5, 0)], 3) == KindAt([], 3);
  }

  /** Adding a type that is already present changes nothing; a new one goes to the end. */
  function Intern(types: seq<ZoneType>, want: ZoneType): seq<ZoneType> {
    if want in types then types else types + [want]
  }

  function InternAll(types: seq<ZoneType>, wants: seq<ZoneType>): seq<ZoneType>
    decreases |wants|
  {
    if wants == [] then types else InternAll(Intern(types, wants[0]), wants[1..])
  }

  predicate Distinct(types: seq<ZoneType>) {
    forall i, j | 0 <= i < j < |types| :: types[i] != types[j]
  }

  /** Whatever is requested later, an index handed out keeps its meaning, no two indexes mean the same
      type, and nothing is stored that was not requested. */
  lemma {:induction false} IndexesKeepTheirMeaning(types: seq<ZoneType>, wants: seq<ZoneType>)
    requires Distinct(types)
    ensures types <= InternAll(types, wants) && Distinct(InternAll(types, wants))
    ensures forall w :: w in InternAll(types, wants) <==> w in types || w in wants
    decreases |wants|
  {
    if wants != [] {
      IndexesKeepTheirMeaning(Intern(types, wants[0]), wants[1..]);
      assert wants == [wants[0]] + wants[1..];
    }
  }

  /** A stored offset as a reader of the written file takes it: as an unsigned `char`. */
  function Unsigned(stored: int): (j: nat)
    ensures j < 256 && (0 <= stored < 256 ==> j == stored)
  {
    stored % 256
  }

  /** The types that three parallel columns and a pool stand for. */
  function Decode(gmtoffs: seq<int>, isdsts: seq<bool>, abbrinds: seq<int>, pool: string): (r: seq<ZoneType>)
    requires |gmtoffs| == |isdsts| == |abbrinds| && forall a | a in abbrinds :: Unsigned(a) < |pool|
    ensures |r| == |gmtoffs|
    ensures forall i | 0 <= i < |r| :: r[i] == ZoneType(gmtoffs[i], isdsts[i], CString(pool, Unsigned(abbrinds[i])))
  {
    if gmtoffs == [] then []
    else
      var n := |gmtoffs| - 1;
      Decode(gmtoffs[..n], isdsts[..n], abbrinds[..n], pool)
      + [ZoneType(gmtoffs[n], isdsts[n], CString(pool, Unsigned(abbrinds[n])))]
  }

  predicate Terminated(pool: string) {
    pool != [] ==> pool[|pool| - 1] == NUL
  }

  /** Growing the pool behind its last NUL changes no type. */
  lemma {:induction false} DecodeExtend(gmtoffs: seq<int>, isdsts: seq<bool>, abbrinds: seq<int>, pool: string,
                                        more: string)
    requires |gmtoffs| == |isdsts| == |abbrinds| && forall a | a in abbrinds :: Unsigned(a) < |pool|
    requires Terminated(pool)
    ensures Decode(gmtoffs, isdsts, abbrinds, pool + more) == Decode(gmtoffs, isdsts, abbrinds, pool)
  {
    if gmtoffs != [] {
      var n := |gmtoffs| - 1;
      assert abbrinds[n] in abbrinds;
      CStringExtend(pool, more, Unsigned(abbrinds[n]));
      DecodeExtend(gmtoffs[..n], isdsts[..n], abbrinds[..n], pool, more);
    }
  }

  /** Four columns and a pool that make up a table of types. */
  ghost predicate Columns(gmtoffs: seq<int>, isdsts: seq<bool>, abbrinds: seq<int>, pool: string,
                          types: seq<ZoneType>) {
    && |gmtoffs| == |isdsts| == |abbrinds| && Terminated(pool)
    && (forall a | a in abbrinds :: Unsigned(a) < |pool| && a == SignedChar(Unsigned(a)))
    && types == Decode(gmtoffs, isdsts, abbrinds, pool)
    && Distinct(types)
  }

  /** What storing a new type in the next entry of each column does to the types. */
  lemma {:induction false} ColumnsAppend(g: seq<int>, d: seq<bool>, a: seq<int>, pool: string, types: seq<ZoneType>,
                                         want: ZoneType, j: nat, tail: string, g': seq<int>, d': seq<bool>,
                                         a': seq<int>, pool': string)
    requires Columns(g, d, a, pool, types) && want !in types
    requires pool' == pool + tail && Terminated(pool') && j < |pool'| < 256 && CString(pool', j) == want.abbrev
    requires g' == g + [want.gmtOff] && d' == d + [want.isDst] && a' == a + [SignedChar(j)]
    ensures Columns(g', d', a', pool', types + [want])
  {
    DecodeExtend(g, d, a, pool, tail);
    assert g'[..|g|] == g && d'[..|g|] == d && a'[..|g|] == a;
  }

  /** The scan of `addtype` reads in front of the pool when it reaches a type with the wanted offset and
      daylight flag whose abbreviation lies beyond what a signed `char` can address. */
  ghost predicate ScanLeavesPool(types: seq<ZoneType>, abbrinds: seq<int>, want: ZoneType)
    requires |types| == |abbrinds|
  {
    exists i :: 0 <= i < |types| && Unsigned(abbrinds[i]) >= 128
                && types[i].gmtOff == want.gmtOff && types[i].isDst == want.isDst
                && want !in types[..i]
  }

  /** While the pool holds no more than 128 characters the scan never leaves it... */
  lemma {:induction false} ShortPoolIsSafe(gmtoffs: seq<int>, isdsts: seq<bool>, abbrinds: seq<int>, pool: string,
                                           want: ZoneType)
    requires |gmtoffs| == |isdsts| == |abbrinds| && forall a | a in abbrinds :: Unsigned(a) < |pool|
    requires |pool| <= 128
    ensures !ScanLeavesPool(Decode(gmtoffs, isdsts, abbrinds, pool), abbrinds, want)
  {
    forall i | 0 <= i < |abbrinds| ensures Unsigned(abbrinds[i]) < 128 {
      assert abbrinds[i] in abbrinds;
    }
  }

  /** ...and in a longer one, which the limit of 255 allows, it can. */
  lemma {:induction false} LongPoolIsUnsafe()
    ensures var long := seq(200, _ => 'A');
            var pool, abbrinds := long + [NUL] + ['B', NUL], [0, SignedChar(201)];
            |pool| < TZNAME_MAX
            && Decode([0, 0], [false, false], abbrinds, pool) == [ZoneType(0, false, long), ZoneType(0, false, ['B'])]
            && ScanLeavesPool(Decode([0, 0], [false, false], abbrinds, pool), abbrinds, ZoneType(0, false, ['C']))
  {
    var long := seq(200, _ => 'A');
    var pool, abbrinds := long + [NUL] + ['B', NUL], [0, SignedChar(201)];
    CStringIs(pool, 0, long);
    CStringIs(pool, 201, ['B']);
    var types := Decode([0, 0], [false, false], abbrinds, pool);
    assert types[1] == ZoneType(0, false, ['B']) && ZoneType(0, false, ['C']) !in types[..1];
  }

  /** The scan has passed the first `n` types without finding the wanted one or leaving the pool. */
  ghost predicate ScannedTo(types: seq<ZoneType>, abbrinds: seq<int>, want: ZoneType, n: nat) {
    && |types| == |abbrinds| && n <= |types| && want !in types[..n]
    && forall k | 0 <= k < n && types[k].gmtOff == want.gmtOff && types[k].isDst == want.isDst ::
         Unsigned(abbrinds[k]) < 128
  }

  lemma {:induction false} LeftPool(types: seq<ZoneType>, abbrinds: seq<int>, want: ZoneType, i: nat)
    requires ScannedTo(types, abbrinds, want, i) && i < |types| && Unsigned(abbrinds[i]) >= 128
    requires types[i].gmtOff == want.gmtOff && types[i].isDst == want.isDst
    ensures ScanLeavesPool(types, abbrinds, want)
  {
  }

  lemma {:induction false} FoundInPool(types: seq<ZoneType>, abbrinds: seq<int>, want: ZoneType, i: nat)
    requires ScannedTo(types, abbrinds, want, i) && i < |types| && types[i] == want && Unsigned(abbrinds[i]) < 128
    ensures !ScanLeavesPool(types, abbrinds, want)
  {
    assert forall k | i < k < |types| :: types[..k][i] == want;
  }

  lemma {:induction false} NotFoundInPool(types: seq<ZoneType>, abbrinds: seq<int>, want: ZoneType)
    requires ScannedTo(types, abbrinds, want, |types|)
    ensures !ScanLeavesPool(types, abbrinds, want) && want !in types
  {
    assert types[..|types|] == types;
  }

  ghost predicate IsTail(pool: string, abbr: string) {
    exists j :: 0 <= j < |pool| && CString(pool, j) == abbr
  }

  /** The first place from `j` on at which an abbreviation can be read, or the end of the pool. */
  function FirstTail(pool: string, abbr: string, j: nat): (k: nat)
    requires j <= |pool|
    ensures j <= k <= |pool|
    decreases |pool| - j
  {
    if j == |pool| || CString(pool, j) == abbr then j else FirstTail(pool, abbr, j + 1)
  }

  /** What an abbreviation adds to the pool: itself, unless it can be read there. */
  function Addition(pool: string, abbr: string): string {
    if FirstTail(pool, abbr, 0) == |pool| then abbr + [NUL] else ""
  }

  /** The pool when these types have been added one by one... */
  function PoolOf(types: seq<ZoneType>): string {
    if types == [] then ""
    else
      var n := |types| - 1;
      PoolOf(types[..n]) + Addition(PoolOf(types[..n]), types[n].abbrev)
  }

  /** ...and their offsets into it, as a plain `char` keeps them. */
  function OffsetsOf(types: seq<ZoneType>): (a: seq<int>)
    ensures |a| == |types|
  {
    if types == [] then []
    else
      var n := |types| - 1;
      OffsetsOf(types[..n]) + [SignedChar(FirstTail(PoolOf(types[..n]), types[n].abbrev, 0) % 256)]
  }

  /** The pool and the offsets are those to which adding the types leads. */
  ghost predicate Laid(types: seq<ZoneType>, abbrinds: seq<int>, pool: string) {
    pool == PoolOf(types) && abbrinds == OffsetsOf(types)
  }

  lemma {:induction false} LaidAppend(types: seq<ZoneType>, abbrinds: seq<int>, pool: string, want: ZoneType, j: nat)
    requires Laid(types, abbrinds, pool) && j == FirstTail(pool, want.abbrev, 0) < 256
    ensures Laid(types + [want], abbrinds + [SignedChar(j)], pool + Addition(pool, want.abbrev))
  {
    assert (types + [want])[..|types|] == types;
  }

  /** A type that is not there finds no place: its table is full, or the pool has neither its abbreviation nor
      room for it. */
  ghost predicate NoPlaceFor(types: seq<ZoneType>, pool: string, want: ZoneType) {
    && want !in types
    && (|types| == TZ_MAX_TYPES || (!IsTail(pool, want.abbrev) && |pool| + |want.abbrev| + 1 >= TZNAME_MAX))
  }

  /** No further entry finds a place. */
  predicate EntriesFull(entries: seq<Transition>, kind: int) {
    |entries| == TZ_MAX_TIMES && entries[TZ_MAX_TIMES - 1].kind != kind
  }

  // ---------------------------------------------------------------- the tables themselves

  /** The transition times and the index of the type that each puts in force. */
  class TransitionTable {
    const ats: array<int>
    const types: array<int>
    var timecnt: nat
    ghost var Entries: seq<Transition>

    constructor ()
      ensures Valid() && Entries == [] && fresh(ats) && fresh(types)
    {
      ats := new int[TZ_MAX_TIMES];
      types := new int[TZ_MAX_TIMES];
      timecnt := 0;
      Entries := [];
    }

    ghost predicate Valid()
      reads this, ats, types
    {
      && ats != types && ats.Length == types.Length == TZ_MAX_TIMES && timecnt == |Entries| <= TZ_MAX_TIMES
      && forall i | 0 <= i < timecnt :: Entries[i] == Transition(ats[i], types[i])
    }

    /** `addtt`; the result is false when the program ends because the table is full. */
    method AddTt(starttime: int, kind: int) returns (ok: bool)
      requires Valid()
      modifies this, ats, types
      ensures Valid()
      ensures Entries == if ok then Record(old(Entries), Transition(starttime, kind)) else old(Entries)
      ensures !ok <==> EntriesFull(old(Entries), kind)
    {
      if timecnt != 0 && kind == types[timecnt - 1] {
        return true;
      }
      if timecnt >= TZ_MAX_TIMES {
        return false;
      }
      ats[timecnt] := starttime;
      types[timecnt] := kind;
      timecnt := timecnt + 1;
      Entries := Entries + [Transition(starttime, kind)];
      return true;
    }
  }

  /** The local time types, in parallel columns, and the pool of their abbreviations. */
  class TypeTable {
    const gmtoffs: array<int>
    const isdsts: array<bool>
    const abbrinds: array<int>
    const chars: array<char>
    var typecnt: nat
    var charcnt: nat
    ghost var Types: seq<ZoneType>

    constructor ()
      ensures Valid() && Types == [] && fresh(gmtoffs) && fresh(isdsts) && fresh(abbrinds) && fresh(chars)
    {
      gmtoffs := new int[TZ_MAX_TYPES];
      isdsts := new bool[TZ_MAX_TYPES];
      abbrinds := new int[TZ_MAX_TYPES];
      chars := new char[TZNAME_MAX];
      typecnt, charcnt := 0, 0;
      Types := [];
    }

    ghost predicate Shape()
      reads this
    {
      && gmtoffs.Length == isdsts.Length == abbrinds.Length == TZ_MAX_TYPES && chars.Length == TZNAME_MAX
      && gmtoffs != abbrinds && typecnt <= TZ_MAX_TYPES && charcnt < TZNAME_MAX
    }

    /** The abbreviations in use are a run of NUL-terminated strings into which every type points. */
    ghost predicate Valid()
      reads this, gmtoffs, isdsts, abbrinds, chars
    {
      && Shape() && Columns(gmtoffs[..typecnt], isdsts[..typecnt], abbrinds[..typecnt], Pool(), Types)
      && Laid(Types, abbrinds[..typecnt], Pool())
    }

    ghost function Pool(): string
      reads this, chars
      requires Shape()
    {
      chars[..charcnt]
    }

    /** `addtype`. */
    method AddType(gmtoff: int, abbr: string, isdst: bool) returns (r: Added)
      requires Valid() && IsText(abbr)
      modifies this, gmtoffs, isdsts, abbrinds, chars
      ensures var want := ZoneType(gmtoff, isdst, abbr);
              var wild := old(ScanLeavesPool(Types, abbrinds[..typecnt], want));
              && (r.Index? ==> Valid() && Types == Intern(old(Types), want)
                               && r.i < |Types| && Types[r.i] == want)
              && (r.ReadBeforePool? <==> wild)
              && (r.TablesFull? <==> !wild && NoPlaceFor(old(Types), old(Pool()), want))
    {
      hide Columns, Laid, IsTail;
      SameLength();
      r := ScanTypes(gmtoff, abbr, isdst);
      if r.Index? || r.ReadBeforePool? {
        return;
      }
      if typecnt >= TZ_MAX_TYPES {
        return TablesFull;
      }
      var ok := AddNew(gmtoff, abbr, isdst);
      if ok {
        SameLength();
      }
      return if ok then Index(typecnt - 1) else TablesFull;
    }

    /** The second half of `addtype`: a type that is not there yet. */
    method AddNew(gmtoff: int, abbr: string, isdst: bool) returns (ok: bool)
      requires Valid() && IsText(abbr) && typecnt < TZ_MAX_TYPES && ZoneType(gmtoff, isdst, abbr) !in Types
      modifies this, gmtoffs, isdsts, abbrinds, chars
      ensures ok ==> Valid() && Types == old(Types) + [ZoneType(gmtoff, isdst, abbr)]
      ensures ok <==> IsTail(old(Pool()), abbr) || old(charcnt) + |abbr| + 1 < TZNAME_MAX
    {
      hide Columns, Laid, CString, IsTail, FirstTail, Addition, Terminated;
      PoolTerminated();
      ghost var want := ZoneType(gmtoff, isdst, abbr);
      ghost var g, d, a, pool := gmtoffs[..typecnt], isdsts[..typecnt], abbrinds[..typecnt], Pool();
      ghost var j, tail;
      ok, j, tail := StoreType(gmtoff, abbr, isdst);
      if ok {
        ColumnsAppend(g, d, a, pool, Types, want, j, tail, gmtoffs[..typecnt], isdsts[..typecnt], abbrinds[..typecnt],
                      Pool());
        LaidAppend(Types, a, pool, want, j);
        Types := Types + [want];
      }
    }

    lemma {:induction false} PoolTerminated()
      requires Valid()
      ensures Terminated(Pool())
    {
    }

    /** The part of `addtype` that fills the next free entry. */
    method StoreType(gmtoff: int, abbr: string, isdst: bool) returns (ok: bool, ghost j: nat, ghost tail: string)
      requires Shape() && Terminated(Pool()) && IsText(abbr) && typecnt < TZ_MAX_TYPES
      modifies this`typecnt, this`charcnt, gmtoffs, isdsts, abbrinds, chars
      ensures Shape() && Terminated(Pool())
      ensures ok <==> IsTail(old(Pool()), abbr) || old(charcnt) + |abbr| + 1 < TZNAME_MAX
      ensures ok ==>
                && j < charcnt && CString(Pool(), j) == abbr
                && j == FirstTail(old(Pool()), abbr, 0) && tail == Addition(old(Pool()), abbr)
                && Pool() == old(Pool()) + tail
                && gmtoffs[..typecnt] == old(gmtoffs[..typecnt]) + [gmtoff]
                && isdsts[..typecnt] == old(isdsts[..typecnt]) + [isdst]
                && abbrinds[..typecnt] == old(abbrinds[..typecnt]) + [SignedChar(j)]
    {
      hide CString, FirstTail, IsTail;
      var i := typecnt;
      gmtoffs[i] := gmtoff;
      isdsts[i] := isdst;
      var at := FindTail(abbr);
      j, tail := at, [];
      if at == charcnt {
        ok := NewAbbr(abbr);
        if !ok {
          return;
        }
        tail := abbr + [NUL];
        CStringIs(Pool(), at, abbr);
      }
      abbrinds[i] := SignedChar(at);
      typecnt := typecnt + 1;
      ok := true;
    }

    /** The scan at the head of `addtype`: TablesFull stands for "not there". */
    method ScanTypes(gmtoff: int, abbr: string, isdst: bool) returns (r: Added)
      requires Valid() && IsText(abbr)
      ensures var want := ZoneType(gmtoff, isdst, abbr);
              && (r.Index? ==> r.i < typecnt && Types[r.i] == want)
              && (r.ReadBeforePool? <==> ScanLeavesPool(Types, abbrinds[..typecnt], want))
              && (r.TablesFull? ==> want !in Types)
    {
      hide ScanLeavesPool, Columns, CString, Laid;
      ghost var want := ZoneType(gmtoff, isdst, abbr);
      ghost var a := abbrinds[..typecnt];
      SameLength();
      var i := 0;
      while i < typecnt
        invariant 0 <= i <= typecnt && ScannedTo(Types, a, want, i)
      {
        EntryMeans(i);
        if gmtoff == gmtoffs[i] && isdst == isdsts[i] {
          if abbrinds[i] < 0 {
            LeftPool(Types, a, want, i);
            return ReadBeforePool;
          }
          if CString(chars[..charcnt], abbrinds[i]) == abbr {
            FoundInPool(Types, a, want, i);
            return Index(i);
          }
        }
        i := i + 1;
      }
      NotFoundInPool(Types, a, want);
      return TablesFull;
    }

    lemma {:induction false} SameLength()
      requires Valid()
      ensures |Types| == typecnt
    {
    }

    /** What the columns say of an entry. */
    lemma {:induction false} EntryMeans(i: nat)
      requires Valid() && i < typecnt
      ensures |Types| == typecnt && Types[i].gmtOff == gmtoffs[i] && Types[i].isDst == isdsts[i]
      ensures abbrinds[i] == SignedChar(Unsigned(abbrinds[i])) && Unsigned(abbrinds[i]) < charcnt
      ensures Types[i].abbrev == CString(chars[..charcnt], Unsigned(abbrinds[i]))
    {
      assert abbrinds[..typecnt][i] in abbrinds[..typecnt];
    }

    /** The first place in the pool from which `abbr` can be read, or the end of the pool. */
    method FindTail(abbr: string) returns (j: nat)
      requires Shape()
      ensures j <= charcnt
      ensures j < charcnt ==> CString(Pool(), j) == abbr
      ensures j == charcnt <==> !IsTail(Pool(), abbr)
      ensures j == FirstTail(Pool(), abbr, 0)
    {
      j := 0;
      while j < charcnt
        invariant 0 <= j <= charcnt
        invariant FirstTail(Pool(), abbr, 0) == FirstTail(Pool(), abbr, j)
        invariant forall k | 0 <= k < j :: CString(Pool(), k) != abbr
      {
        if CString(chars[..charcnt], j) == abbr {
          return;
        }
        j := j + 1;
      }
    }

    /** `newabbr`; the result is false when the program ends because the pool is full. */
    method NewAbbr(abbr: string) returns (ok: bool)
      requires Shape()
      modifies this`charcnt, chars
      ensures Shape()
      ensures ok <==> old(charcnt) + |abbr| + 1 < TZNAME_MAX
      ensures Pool() == if ok then old(Pool()) + (abbr + [NUL]) else old(Pool())
      ensures ok ==> Terminated(Pool())
    {
      if charcnt + |abbr| + 1 >= TZNAME_MAX {
        return false;
      }
      var k := 0;
      while k < |abbr|
        invariant 0 <= k <= |abbr| && charcnt == old(charcnt)
        invariant chars[..charcnt + k] == old(chars[..charcnt]) + abbr[..k]
      {
        chars[charcnt + k] := abbr[k];
        k := k + 1;
      }
      chars[charcnt + |abbr|] := NUL;
      charcnt := charcnt + |abbr| + 1;
      return true;
    }
  }
}
