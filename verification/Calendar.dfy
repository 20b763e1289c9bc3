/** The date arithmetic of zic.c: from a rule and a year to the second at which the rule fires. */
module Calendar {
  import opened CTypes

  const EPOCH_YEAR := 1970
  const EPOCH_WDAY := 4
  const DAYS_PER_WEEK := 7
  const SECS_PER_DAY := 86400
  const FEBRUARY := 1

  const MIN_TIME := INT_MIN
  const MAX_TIME := INT_MAX

  /** How a rule names its day: a day of the month, or a weekday on or after / on or before one. */
  datatype DayCode = DayOfMonth | WeekdayOnOrAfter | WeekdayOnOrBefore

  datatype Rule = Rule( loYear: int, hiYear: int, yearType: string, month: int, dayCode: DayCode, dayOfMonth: int,
                       weekday: int, timeOfDay: int, timeIsStandard: bool, saved: int, abbrevPart: string)

  /** What the rule parser guarantees of a rule it accepts. */
  predicate WellFormed(r: Rule) {
    && 0 <= r.month < 12
    && 1 <= r.dayOfMonth <= MonthLength(true, r.month)
    && 0 <= r.weekday < 7
    && 0 <= r.timeOfDay < SECS_PER_DAY
    && -SECS_PER_DAY < r.saved < SECS_PER_DAY
  }

  /** A computed time, or the termination of the program after a diagnostic. */
  datatype Outcome = Time(t: int) | Exit

  // ---------------------------------------------------------------- the Gregorian calendar

  predicate IsLeap(y: int) {
    (y % 4 == 0 && y % 100 != 0) || y % 400 == 0
  }

  function MonthLength(leap: bool, m: int): (n: int)
    requires 0 <= m < 12
    ensures 28 <= n <= 31
  {
    if m == 1 then (if leap then 29 else 28)
    else if m == 3 || m == 5 || m == 8 || m == 10 then 30 else 31
  }

  function YearLength(y: int): int {
    if IsLeap(y) then 366 else 365
  }

  /** The number of leap days in the years before `y`, counted from year 1. */
  function LeapDaysBefore(y: int): int {
    (y - 1) / 4 - (y - 1) / 100 + (y - 1) / 400
  }

  /** Days from 1 January 1970 to 1 January `y`, in closed form and for either direction. */
  function YearStart(y: int): int {
    365 * (y - EPOCH_YEAR) + LeapDaysBefore(y) - LeapDaysBefore(EPOCH_YEAR)
  }

  /** Days from 1 January to the first of month `m`. */
  function MonthStart(leap: bool, m: int): (n: int)
    requires 0 <= m <= 12
    ensures 28 * m <= n <= 31 * m
  {
    if m == 0 then 0 else MonthStart(leap, m - 1) + MonthLength(leap, m - 1)
  }

  function DayNumber(y: int, m: int, d: int): int
    requires 0 <= m < 12
  {
    YearStart(y) + MonthStart(IsLeap(y), m) + d - 1
  }

  function Weekday(day: int): (w: int)
    ensures 0 <= w < 7
  {
    (EPOCH_WDAY + day) % 7
  }

  lemma {:induction false} LeapDayStep(y: int)
    ensures LeapDaysBefore(y + 1) == LeapDaysBefore(y) + (if IsLeap(y) then 1 else 0)
  {
    StepBy4(y);
    StepBy100(y);
    StepBy400(y);
  }

  lemma {:induction false} StepBy4(y: int)
    ensures y / 4 == (y - 1) / 4 + (if y % 4 == 0 then 1 else 0)
    ensures y % 4 != 0 ==> y % 100 != 0
  {
  }

  lemma {:induction false} StepBy100(y: int)
    ensures y / 100 == (y - 1) / 100 + (if y % 100 == 0 then 1 else 0)
    ensures y % 100 != 0 ==> y % 400 != 0
  {
  }

  lemma {:induction false} StepBy400(y: int)
    ensures y / 400 == (y - 1) / 400 + (if y % 400 == 0 then 1 else 0)
  {
  }

  /** The closed form advances by exactly the length of each year. */
  lemma {:induction false} YearStep(y: int)
    ensures YearStart(y + 1) == YearStart(y) + YearLength(y)
  {
    LeapDayStep(y);
  }

  lemma {:induction false} YearBound(y: int)
    requires IsInt(y)
    ensures -0x200_0000_0000 < YearStart(y) < 0x200_0000_0000
  {
  }

  /** Twelve months make a year, so the dates of a year fill it exactly. */
  lemma {:induction false} MonthsFillYear(y: int)
    ensures MonthStart(IsLeap(y), 12) == YearLength(y)
  {
    var l := IsLeap(y);
    for m := 0 to 12
      invariant MonthStart(l, m) == 31 * m - [0, 0, 3, 3, 4, 4, 5, 5, 5, 6, 6, 7, 7][m] + (if l && m > 1 then 1 else 0)
    {
    }
  }

  lemma {:induction false} MonthStartMonotone(leap: bool, m: int, n: int)
    requires 0 <= m <= n <= 12
    ensures MonthStart(leap, m) <= MonthStart(leap, n)
    decreases n - m
  {
    if m < n { MonthStartMonotone(leap, m, n - 1); }
  }

  lemma {:induction false} YearStartMonotone(y: int, z: int)
    requires y <= z
    ensures YearStart(y) + 365 * (z - y) <= YearStart(z)
    decreases z - y
  {
    if y < z {
      YearStartMonotone(y, z - 1);
      YearStep(z - 1);
    }
  }

  // ---------------------------------------------------------------- additions with overflow checks

  /** `oadd`: 64-bit addition that ends the program when it notices an overflow. */
  function OAdd(t1: int, t2: int): Outcome
    requires IsLong(t1) && IsLong(t2)
  {
    var t := WrapLong(t1 + t2);
    if (t2 > 0 && t <= t1) || (t2 < 0 && t >= t1) then Exit else Time(t)
  }

  /** The check of `oadd` fires exactly when the mathematical sum does not fit. */
  lemma {:induction false} OAddExact(t1: int, t2: int)
    requires IsLong(t1) && IsLong(t2)
    ensures OAdd(t1, t2) == if IsLong(t1 + t2) then Time(t1 + t2) else Exit
  {
    if !IsLong(t1 + t2) {
      assert WrapLong(t1 + t2) == t1 + t2 - 0x1_0000_0000_0000_0000
             || WrapLong(t1 + t2) == t1 + t2 + 0x1_0000_0000_0000_0000;
    }
  }

  /** `tadd`: the same for a 32-bit time and a 64-bit increment; the extreme times absorb increments
      that point outward. */
  function TAdd(t1: int, t2: int): (r: Outcome)
    requires IsInt(t1) && IsLong(t2)
    ensures r.Time? ==> IsInt(r.t)
  {
    if t1 == MAX_TIME && t2 > 0 then Time(MAX_TIME)
    else if t1 == MIN_TIME && t2 < 0 then Time(MIN_TIME)
    else
      var t := WrapInt(WrapLong(t1 + t2));
      if (t2 > 0 && t <= t1) || (t2 < 0 && t >= t1) then Exit else Time(t)
  }

  /** What `tadd` should do: absorb, add exactly, or give up when the sum is no 32-bit time. */
  function ExactTAdd(t1: int, t2: int): Outcome {
    if t1 == MAX_TIME && t2 > 0 then Time(MAX_TIME)
    else if t1 == MIN_TIME && t2 < 0 then Time(MIN_TIME)
    else if IsInt(t1 + t2) then Time(t1 + t2) else Exit
  }

  lemma {:induction false} WrapIntOfWrapLong(x: int)
    ensures WrapInt(WrapLong(x)) == WrapInt(x)
  {
    var k := (WrapLong(x) - x) / 0x1_0000_0000_0000_0000;
    assert WrapLong(x) == x + k * 0x1_0000_0000 * 0x1_0000_0000;
    WrapIntShift(x, k * 0x1_0000_0000);
  }

  /** The increments for which the overflow test of `tadd` can be trusted. */
  predicate TrustedIncrement(t2: int) {
    -0x1_0000_0000 <= t2 <= 0x1_0000_0000 || t2 % 0x1_0000_0000 == 0
  }

  lemma {:induction false} TAddTrusted(t1: int, t2: int)
    requires IsInt(t1) && IsLong(t2) && TrustedIncrement(t2)
    ensures TAdd(t1, t2) == ExactTAdd(t1, t2)
  {
    WrapIntOfWrapLong(t1 + t2);
    if t2 % 0x1_0000_0000 == 0 {
      WrapIntShift(t1, t2 / 0x1_0000_0000);
      assert WrapInt(t1 + t2) == t1;
    } else if !IsInt(t1 + t2) {
      WrapIntShift(t1 + t2, if t2 > 0 then -1 else 1);
    }
  }

  /** The overflow test of `tadd` is exact at every time if and only if the increment is trusted. */
  lemma {:induction false} TAddExactIff(t2: int)
    requires IsLong(t2)
    ensures (forall t1 | IsInt(t1) :: TAdd(t1, t2) == ExactTAdd(t1, t2)) <==> TrustedIncrement(t2)
  {
    if TrustedIncrement(t2) {
      forall t1 | IsInt(t1) ensures TAdd(t1, t2) == ExactTAdd(t1, t2) { TAddTrusted(t1, t2); }
    } else {
      var t1 := if t2 > 0 then MIN_TIME else MAX_TIME;
      var k := t2 / 0x1_0000_0000;
      var low := t2 % 0x1_0000_0000;
      WrapIntOfWrapLong(t1 + t2);
      if t2 > 0 {
        WrapIntShift(t1 + low, k);
        assert WrapInt(t1 + t2) == t1 + low;
      } else {
        WrapIntShift(t1 + low - 0x1_0000_0000, k + 1);
        assert WrapInt(t1 + t2) == t1 + low - 0x1_0000_0000;
      }
      assert TAdd(t1, t2) != ExactTAdd(t1, t2);
    }
  }

  // ---------------------------------------------------------------- rpytime

  /** The day from which a rule's weekday search starts; None when 29 February is asked of a common
      year by a rule that does not search backward. */
  datatype StartDay = NoSuchDay | From(dayOfMonth: int)

  function SearchStart(r: Rule, y: int): StartDay {
    if r.month == FEBRUARY && r.dayOfMonth == 29 && !IsLeap(y) then
      if r.dayCode == WeekdayOnOrBefore then From(28) else NoSuchDay
    else From(r.dayOfMonth)
  }

  /** How far the weekday search moves from a start day of weekday `from`.  The backward search counts
      Saturday as one step too many once it passes Sunday. */
  function SearchOffset(code: DayCode, from: int, target: int): (n: int)
    requires 0 <= from < 7 && 0 <= target < 7
    ensures -7 <= n <= 6
  {
    match code
    case DayOfMonth => 0
    case WeekdayOnOrAfter => (target - from) % 7
    case WeekdayOnOrBefore => -((from - target) % 7) - (if target > from then 1 else 0)
  }

  /** The day number a rule selects in a year, before the check that it lies in the rule's month. */
  function SelectedDay(r: Rule, y: int): int
    requires WellFormed(r) && SearchStart(r, y).From?
  {
    var start := DayNumber(y, r.month, SearchStart(r, y).dayOfMonth);
    start + SearchOffset(r.dayCode, Weekday(start), r.weekday)
  }

  predicate InMonth(day: int, y: int, m: int)
    requires 0 <= m < 12
  {
    DayNumber(y, m, 1) <= day <= DayNumber(y, m, MonthLength(IsLeap(y), m))
  }

  /** The result of `rpytime`, in closed form. */
  function RuleTime(r: Rule, y: int): Outcome
    requires WellFormed(r)
  {
    if SearchStart(r, y) == NoSuchDay then Exit
    else
      var day := SelectedDay(r, y);
      if r.dayCode != DayOfMonth && !InMonth(day, y, r.month) then Exit
      else if IsInt(day * SECS_PER_DAY) then ExactTAdd(day * SECS_PER_DAY, r.timeOfDay)
      else if y == r.hiYear then Time(MAX_TIME)
      else if y == r.loYear then Time(MIN_TIME)
      else Exit
  }

  /** The division test of `rpytime` notices every product that does not fit in 32 bits. */
  lemma {:induction false} CheapOverflowCheck(day: int)
    ensures TruncDiv(WrapInt(day * SECS_PER_DAY), SECS_PER_DAY) == day <==> IsInt(day * SECS_PER_DAY)
  {
    var p := day * SECS_PER_DAY;
    var t := WrapInt(p);
    if IsInt(p) {
      assert p / SECS_PER_DAY == day && -p / SECS_PER_DAY == -day;
    } else {
      var k := (t - p) / 0x1_0000_0000;
      assert t == p + k * 0x1_0000_0000 && k != 0;
      var q := TruncDiv(t, SECS_PER_DAY);
      assert -SECS_PER_DAY < t - q * SECS_PER_DAY < SECS_PER_DAY;
    }
  }

  lemma {:induction false} OAddSmall(t1: int, t2: int)
    requires -0x400_0000_0000 < t1 < 0x400_0000_0000 && -400 < t2 < 400
    ensures OAdd(t1, t2) == Time(t1 + t2)
  {
    OAddExact(t1, t2);
  }

  lemma {:induction false} ProductOrOverflow(day: int)
    ensures var t := WrapInt(WrapInt(day) * SECS_PER_DAY);
            && (TruncDiv(t, SECS_PER_DAY) == day <==> IsInt(day * SECS_PER_DAY))
            && (IsInt(day * SECS_PER_DAY) ==> t == day * SECS_PER_DAY)
  {
    var k := (WrapInt(day) - day) / 0x1_0000_0000;
    assert WrapInt(day) == day + k * 0x1_0000_0000;
    WrapIntShift(day * SECS_PER_DAY, k * SECS_PER_DAY);
    CheapOverflowCheck(day);
  }

  /** The two walks at the head of `rpytime`: the years from 1970 in either direction, then the months. */
  method WalkToMonth(month: int, wanted: int) returns (dayOff: int)
    requires 0 <= month < 12 && IsInt(wanted)
    ensures dayOff == DayNumber(wanted, month, 1)
  {
    hide YearStart, MonthStart, IsLeap, MonthLength, OAdd;
    WalkStarts(wanted);
    var m, y, i := 0, EPOCH_YEAR, 0;
    dayOff := 0;
    while wanted != y
      invariant IsInt(y) && dayOff == YearStart(y)
      decreases if wanted > y then wanted - y else y - wanted
    {
      YearBound(y);
      if wanted > y {
        YearStep(y);
        i := YearLength(y);
        y := y + 1;
      } else {
        y := y - 1;
        YearStep(y);
        i := -YearLength(y);
      }
      OAddSmall(dayOff, i);
      dayOff := OAdd(dayOff, i).t;
    }
    YearBound(y);
    while m != month
      invariant 0 <= m <= month && dayOff == YearStart(wanted) + MonthStart(IsLeap(wanted), m)
      decreases month - m
    {
      i := MonthLength(IsLeap(y), m);
      MonthStep(IsLeap(y), m);
      OAddSmall(dayOff, i);
      dayOff := OAdd(dayOff, i).t;
      m := m + 1;
    }
  }

  /** The walk begins at day 0, and at no day of a month. */
  lemma {:induction false} WalkStarts(wanted: int)
    ensures YearStart(EPOCH_YEAR) == 0 && MonthStart(IsLeap(wanted), 0) == 0
  {
  }

  lemma {:induction false} MonthStep(leap: bool, m: int)
    requires 0 <= m < 12
    ensures MonthStart(leap, m + 1) == MonthStart(leap, m) + MonthLength(leap, m)
    ensures 28 <= MonthLength(leap, m) <= 31 && 0 <= MonthStart(leap, m) <= 366
  {
  }

  /** `rpytime`. */
  method RpyTime(r: Rule, wanted: int) returns (result: Outcome)
    requires WellFormed(r) && IsInt(wanted)
    ensures result == RuleTime(r, wanted)
  {
    YearBound(wanted);
    var dayOff := WalkToMonth(r.month, wanted);
    var i := r.dayOfMonth;
    if r.month == FEBRUARY && i == 29 && !IsLeap(wanted) {
      if r.dayCode == WeekdayOnOrBefore {
        i := i - 1;
      } else {
        return Exit;
      }
    }
    i := i - 1;
    OAddSmall(dayOff, i);
    dayOff := OAdd(dayOff, i).t;
    if r.dayCode == WeekdayOnOrAfter || r.dayCode == WeekdayOnOrBefore {
      i, dayOff := SearchWeekday(r, i, dayOff);
      if i < 0 || i >= MonthLength(IsLeap(wanted), r.month) {
        return Exit;
      }
    }
    assert dayOff == SelectedDay(r, wanted);
    var t := WrapInt(WrapInt(dayOff) * SECS_PER_DAY);
    ProductOrOverflow(dayOff);
    if TruncDiv(t, SECS_PER_DAY) != dayOff {
      if wanted == r.hiYear { return Time(MAX_TIME); }
      if wanted == r.loYear { return Time(MIN_TIME); }
      return Exit;
    }
    TAddTrusted(t, r.timeOfDay);
    return TAdd(t, r.timeOfDay);
  }

  /** The weekday of a day on either side of 1970, reckoned without the remainder of a negative number. */
  method WeekdayOf(day: int) returns (wday: int)
    ensures wday == Weekday(day)
  {
    wday := EPOCH_WDAY;
    if day >= 0 {
      wday := (wday + day) % DAYS_PER_WEEK;
    } else {
      wday := wday - (-day) % DAYS_PER_WEEK;
      if wday < 0 {
        wday := wday + DAYS_PER_WEEK;
      }
    }
  }

  /** The weekday loop of `rpytime`; `i` and `day` move together. */
  method SearchWeekday(r: Rule, i0: int, day0: int) returns (i: int, day: int)
    requires WellFormed(r) && r.dayCode != DayOfMonth
    requires -0x300_0000_0000 < day0 < 0x300_0000_0000
    ensures day == day0 + SearchOffset(r.dayCode, Weekday(day0), r.weekday)
    ensures i - i0 == day - day0
  {
    i, day := i0, day0;
    var wday := WeekdayOf(day);
    ghost var from, steps := wday, 0;
    ghost var total := if r.dayCode == WeekdayOnOrAfter then SearchOffset(r.dayCode, from, r.weekday)
                       else -SearchOffset(r.dayCode, from, r.weekday);
    assert total == if r.dayCode == WeekdayOnOrAfter
           then (if r.weekday >= from then r.weekday - from else r.weekday + 7 - from)
                    else if r.weekday <= from then from - r.weekday else from + 8 - r.weekday;
    while wday != r.weekday
      invariant 0 <= steps <= total
      invariant i - i0 == day - day0 == if r.dayCode == WeekdayOnOrAfter then steps else -steps
      invariant wday == if r.dayCode == WeekdayOnOrAfter
                then (if from + steps < 7 then from + steps else from + steps - 7)
                        else if steps <= from then from - steps else from + 8 - steps
      decreases total - steps
    {
      if r.dayCode == WeekdayOnOrAfter {
        OAddSmall(day, 1);
        day := OAdd(day, 1).t;
        wday := wday + 1;
        if wday >= DAYS_PER_WEEK { wday := 0; }
        i := i + 1;
      } else {
        OAddSmall(day, -1);
        day := OAdd(day, -1).t;
        wday := wday - 1;
        if wday < 0 { wday := DAYS_PER_WEEK; }
        i := i - 1;
      }
      steps := steps + 1;
    }
  }

  // ---------------------------------------------------------------- what the closed form means

  lemma {:induction false} WeekdayShift(day: int, k: int)
    requires -7 <= k <= 7
    ensures var w := Weekday(day) + k; Weekday(day + k) == if w < 0 then w + 7 else if w >= 7 then w - 7 else w
  {
  }

  /** A forward search lands on the first day on or after its start that has the wanted weekday. */
  lemma {:induction false} OnOrAfterIsLeast(start: int, target: int)
    requires 0 <= target < 7
    ensures var day := start + SearchOffset(WeekdayOnOrAfter, Weekday(start), target);
            && start <= day && Weekday(day) == target
            && forall d :: start <= d < day ==> Weekday(d) != target
  {
    var n := SearchOffset(WeekdayOnOrAfter, Weekday(start), target);
    WeekdayShift(start, n);
    forall d | start <= d < start + n ensures Weekday(d) != target { WeekdayShift(start, d - start); }
  }

  predicate IsGreatestOnOrBefore(day: int, start: int, target: int) {
    && day <= start && Weekday(day) == target
    && forall d :: day < d <= start ==> Weekday(d) != target
  }

  /** A backward search lands on the last day on or before its start that has the wanted weekday
      exactly when that weekday is not later in the week than the start's; otherwise it lands on the
      day before it. */
  lemma {:induction false} OnOrBeforeIsGreatestIff(start: int, target: int)
    requires 0 <= target < 7
    ensures var day := start + SearchOffset(WeekdayOnOrBefore, Weekday(start), target);
            && (IsGreatestOnOrBefore(day, start, target) <==> target <= Weekday(start))
            && (target > Weekday(start) ==> IsGreatestOnOrBefore(day + 1, start, target))
  {
    var w := Weekday(start);
    var n := SearchOffset(WeekdayOnOrBefore, w, target);
    assert n == if target <= w then target - w else target - w - 8;
    WeekdayShift(start, n);
    WeekdayShift(start, if n < 0 then n + 1 else n);
    forall d | start + n < d <= start ensures Weekday(d) == target ==> target > w && d == start + n + 1 {
      WeekdayShift(start, d - start);
    }
  }

  /** The day a rule selects, from the days of the month alone: the search starts on the day named, or, backward,
      on the last of the month if that is earlier; other rules need a day that exists. */
  lemma {:induction false} SelectedDayIs(r: Rule, y: int)
    requires WellFormed(r)
    ensures SearchStart(r, y) == NoSuchDay
            <==> r.dayOfMonth > MonthLength(IsLeap(y), r.month) && r.dayCode != WeekdayOnOrBefore
    ensures SearchStart(r, y).From? ==>
              var last := MonthLength(IsLeap(y), r.month);
              var start := DayNumber(y, r.month, if r.dayOfMonth > last then last else r.dayOfMonth);
              var day := SelectedDay(r, y);
              match r.dayCode
              case DayOfMonth => day == start
              case WeekdayOnOrAfter => start <= day < start + 7 && Weekday(day) == r.weekday
              case WeekdayOnOrBefore =>
                if r.weekday <= Weekday(start) then start - 7 < day <= start && Weekday(day) == r.weekday
                else start - 7 <= day < start && Weekday(day + 1) == r.weekday
  {
    var start := SearchStart(r, y);
    if start.From? {
      var first := DayNumber(y, r.month, start.dayOfMonth);
      OnOrAfterIsLeast(first, r.weekday);
      OnOrBeforeIsGreatestIff(first, r.weekday);
    }
  }

  lemma {:induction false} InMonthIff(day: int, y: int, m: int)
    requires 0 <= m < 12
    ensures InMonth(day, y, m) <==> exists d :: 1 <= d <= MonthLength(IsLeap(y), m) && day == DayNumber(y, m, d)
  {
    var d := day - DayNumber(y, m, 1) + 1;
    assert day == DayNumber(y, m, d);
  }

  /** The program ends for a rule exactly if its day does not exist, if a weekday sought is not in the month, or if the
      time does not fit and no year of the rule's own bounds excuses it. */
  lemma {:induction false} ExitIff(r: Rule, y: int)
    requires WellFormed(r)
    ensures RuleTime(r, y).Exit? <==>
              || SearchStart(r, y) == NoSuchDay
              || (r.dayCode != DayOfMonth && !InMonth(SelectedDay(r, y), y, r.month))
              || (if IsInt(SelectedDay(r, y) * SECS_PER_DAY) then !IsInt(SelectedDay(r, y) * SECS_PER_DAY + r.timeOfDay)
                  else y != r.hiYear && y != r.loYear)
  {
    hide SelectedDay, InMonth;
  }

  /** The day number of a date as it is reckoned without a table of months: in years that begin in March and in
      periods of 400 years. */
  function CivilDay(y: int, m: int, d: int): int {
    var year := if m < 2 then y - 1 else y;
    var month := if m < 2 then m + 10 else m - 2;
    var ofPeriod := year % 400;
    146097 * (year / 400) + 365 * ofPeriod + ofPeriod / 4 - ofPeriod / 100 + (153 * month + 2) / 5 + d - 1 - 719468
  }

  lemma {:induction false} MonthStartFromMarch(leap: bool, m: int)
    requires 0 <= m < 12
    ensures MonthStart(leap, m) ==
            if m < 2 then (153 * (m + 10) + 2) / 5 - 306 else (153 * (m - 2) + 2) / 5 + (if leap then 60 else 59)
  {
    if m > 0 {
      MonthStartFromMarch(leap, m - 1);
    }
  }

  lemma {:induction false} Periods(y: int)
    ensures y / 4 - y / 100 + y / 400 == 97 * (y / 400) + y % 400 / 4 - y % 400 / 100
    ensures LeapDaysBefore(y + 1) == y / 4 - y / 100 + y / 400
  {
    var p, q := y / 400, y % 400;
    assert y == 400 * p + q;
    assert y / 4 == 100 * p + q / 4;
    assert y / 100 == 4 * p + q / 100;
  }

  /** The two reckonings agree on every date: the lengths of the months and years are those of the Gregorian calendar,
      and day 0 is 1 January 1970. */
  lemma {:induction false} DayNumberIsCivil(y: int, m: int, d: int)
    requires 0 <= m < 12
    ensures DayNumber(y, m, d) == CivilDay(y, m, d)
  {
    hide IsLeap, MonthStart;
    MonthStartFromMarch(IsLeap(y), m);
    LeapDayStep(y);
    Periods(y);
    Periods(y - 1);
  }

  /** The last Saturday of a month that ends on a Sunday is reported as a Friday. */
  lemma {:induction false} LastSaturdayMissed()
    ensures Weekday(DayNumber(1993, 0, 31)) == 0
    ensures var r := Rule(1993, 1993, "", 0, WeekdayOnOrBefore, 31, 6, 0, false, 0, "");
            WellFormed(r) && SelectedDay(r, 1993) == DayNumber(1993, 0, 29) && Weekday(DayNumber(1993, 0, 29)) == 5
  {
  }

  /** Every time a rule really names lies in the year asked for. */
  lemma {:induction false} RuleTimeInYear(r: Rule, y: int)
    requires WellFormed(r)
    requires RuleTime(r, y).Time? && IsInt(SelectedDay(r, y) * SECS_PER_DAY)
    ensures var t := RuleTime(r, y).t;
            && t == SelectedDay(r, y) * SECS_PER_DAY + r.timeOfDay
            && YearStart(y) * SECS_PER_DAY <= t < YearStart(y + 1) * SECS_PER_DAY
  {
    var l := IsLeap(y);
    var day := SelectedDay(r, y);
    MonthsFillYear(y);
    MonthStartMonotone(l, r.month + 1, 12);
    MonthStartMonotone(l, 0, r.month);
    YearStep(y);
    assert InMonth(day, y, r.month);
    assert YearStart(y) <= day < YearStart(y + 1);
  }

  /** A result is the exact time, or one of the extremes in a boundary year whose exact time does not
      fit; never a wrapped value. */
  lemma {:induction false} NeverWrapped(r: Rule, y: int)
    requires WellFormed(r) && RuleTime(r, y).Time?
    ensures var exact := SelectedDay(r, y) * SECS_PER_DAY + r.timeOfDay;
            || (IsInt(exact) && RuleTime(r, y).t == exact)
            || (!IsInt(SelectedDay(r, y) * SECS_PER_DAY)
                && ((RuleTime(r, y).t == MAX_TIME && y == r.hiYear) || (RuleTime(r, y).t == MIN_TIME && y == r.loYear)))
  {
  }

  /** A clamped time is the extreme beyond which the true time lies exactly if late times are those of the
      last year of the rule and early ones are not. */
  lemma {:induction false} ClampedRightIff(r: Rule, y: int)
    requires WellFormed(r) && RuleTime(r, y).Time? && !IsInt(SelectedDay(r, y) * SECS_PER_DAY)
    ensures RuleTime(r, y).t == (if SelectedDay(r, y) > 0 then MAX_TIME else MIN_TIME)
            <==> (SelectedDay(r, y) > 0 <==> y == r.hiYear)
  {
  }

  /** The clamp does not say on which side the time lies: a rule for a single year too early for a
      32-bit time is reported as the latest time. */
  lemma {:induction false} ClampForgetsTheSide()
    ensures var r := Rule(1901, 1901, "", 0, DayOfMonth, 1, 0, 0, false, 0, "");
            WellFormed(r) && SelectedDay(r, 1901) < 0 && RuleTime(r, 1901) == Time(MAX_TIME)
  {
  }
}
