/** Next-fire arithmetic for zones at a constant offset from UTC.

    Instants count nanoseconds since 1970-01-01T00:00Z. */
module Schedule {
  import opened Common

  type Instant = int

  const SECOND := 1_000_000_000
  const DAY := 86_400 * SECOND
  const WEEK := 7 * DAY

  /** Largest number of seconds that a duration can hold. */
  const MAX_DURATION_SECONDS := 9_223_372_036_854_775

  datatype Weekday = Mon | Tue | Wed | Thu | Fri | Sat | Sun {
    function DaysFromMonday(): (d: nat)
      ensures d < 7
    {
      match this
      case Mon => 0 case Tue => 1 case Wed => 2 case Thu => 3
      case Fri => 4 case Sat => 5 case Sun => 6
    }
  }

  datatype ScheduleSpec =
    | EverySeconds(seconds: nat)
    | Cron(after: Instant -> Option<Instant>)
    | Once(at: Instant)
    | DailyAt(hour: nat, minute: nat, offset: int)
    | WeeklyAt(intervalWeeks: nat, weekday: Weekday, hour: nat, minute: nat, offset: int)
  {
    predicate IsOnce() {
      Once?
    }
  }

  // ----- calendar -----

  function DayOf(local: int): int {
    local / DAY
  }

  /** Day 0 was a Thursday. */
  function DayOfWeek(day: int): nat {
    (day + 3) % 7
  }

  /** Weeks since Monday 1970-01-05, which is day 4. */
  function WeekIndex(day: int): int {
    (day - 4) / 7
  }

  /** Times that do not exist fall back to midnight. */
  function TimeOfDay(hour: nat, minute: nat): (t: nat)
    ensures t < DAY
  {
    if hour < 24 && minute < 60 then (hour * 3600 + minute * 60) * SECOND else 0
  }

  // ----- slots, independently of how they are found -----

  ghost predicate DailySlot(offset: int, tod: nat, t: Instant) {
    (t + offset) % DAY == tod
  }

  ghost predicate WeeklySlot(offset: int, tod: nat, weekday: nat, every: nat, t: Instant)
    requires every >= 1
  {
    var day := DayOf(t + offset);
    DailySlot(offset, tod, t) && DayOfWeek(day) == weekday && WeekIndex(day) % every == 0
  }

  // ----- EverySeconds -----

  /** The cast from an unsigned to a signed 64-bit number. */
  function AsSigned(s: nat): int {
    if s < 0x8000_0000_0000_0000 then s else s - 0x1_0000_0000_0000_0000
  }

  /** The time between two fires: a day when the seconds do not fit a duration. */
  function Period(seconds: nat): int {
    var s := AsSigned(seconds);
    if -MAX_DURATION_SECONDS <= s <= MAX_DURATION_SECONDS then s * SECOND else DAY
  }

  /** Among 64-bit numbers of seconds, the period falls short exactly when it is out of range. */
  lemma PeriodIsFaithful(seconds: nat)
    requires seconds < 0x1_0000_0000_0000_0000
    ensures Period(seconds) == seconds * SECOND <==> seconds <= 9_223_372_036_854_775
    ensures Period(seconds) >= seconds * SECOND <==> seconds <= 9_223_372_036_854_775
    ensures Period(seconds) < 0 <==> seconds >= 0x1_0000_0000_0000_0000 - 9_223_372_036_854_775
  {
  }

  // ----- DailyAt -----

  function NextDaily(now: Instant, offset: int, hour: nat, minute: nat): Instant {
    var local := now + offset;
    var target := DayOf(local) * DAY + TimeOfDay(hour, minute);
    (if target <= local then target + DAY else target) - offset
  }

  method NextDailyFire(now: Instant, offset: int, hour: nat, minute: nat) returns (t: Instant)
    ensures t == NextDaily(now, offset, hour, minute)
  {
    var local := now + offset;
    var target := DayOf(local) * DAY + TimeOfDay(hour, minute);
    if target <= local {
      target := target + DAY;
    }
    t := target - offset;
  }

  lemma SplitDay(x: int)
    ensures x == DayOf(x) * DAY + x % DAY && 0 <= x % DAY < DAY
  {
  }

  /** The earliest instant after `now` at the given local time of day. */
  lemma DailyIsEarliest(now: Instant, offset: int, hour: nat, minute: nat)
    ensures var t, tod := NextDaily(now, offset, hour, minute), TimeOfDay(hour, minute);
      && now < t <= now + DAY
      && DailySlot(offset, tod, t)
      && forall u :: now < u < t ==> !DailySlot(offset, tod, u)
  {
    var t, tod := NextDaily(now, offset, hour, minute), TimeOfDay(hour, minute);
    var day := DayOf(now + offset);
    SplitDay(now + offset);
    hide DayOf, TimeOfDay;
    DayAndTime(if day * DAY + tod <= now + offset then day + 1 else day, tod);
    forall u | now < u < t ensures !DailySlot(offset, tod, u) {
      SplitDay(u + offset);
    }
  }

  lemma DayAndTime(day: int, tod: nat)
    requires tod < DAY
    ensures DayOf(day * DAY + tod) == day && (day * DAY + tod) % DAY == tod
  {
  }

  /** Fed with its own result, the daily rule moves on by exactly one day. */
  lemma DailyStep(now: Instant, offset: int, hour: nat, minute: nat)
    ensures var t := NextDaily(now, offset, hour, minute);
      NextDaily(t, offset, hour, minute) == t + DAY
  {
    DailyIsEarliest(now, offset, hour, minute);
    var t := NextDaily(now, offset, hour, minute);
    var day := DayOf(t + offset);
    assert t + offset == day * DAY + TimeOfDay(hour, minute);
  }

  // ----- WeeklyAt -----

  lemma ModNext(w: int, m: nat)
    requires m >= 1
    ensures (w + 1) % m == if w % m == m - 1 then 0 else w % m + 1
  {
    var q, r := w / m, w % m;
    assert w == q * m + r;
    if r == m - 1 {
      assert w + 1 == (q + 1) * m + 0 by {
        assert (q + 1) * m == q * m + m;
      }
      DivModUnique(w + 1, m, q + 1, 0);
    } else {
      DivModUnique(w + 1, m, q, r + 1);
    }
  }

  lemma AtLeastOnce(k: int, m: nat)
    requires k >= 1
    ensures k * m >= m
  {
    assert k * m == m + (k - 1) * m;
  }

  lemma DivModUnique(x: int, m: nat, q: int, r: nat)
    requires m >= 1 && r < m && x == q * m + r
    ensures x % m == r
  {
    var q', r' := x / m, x % m;
    assert x == m * q' + r';
    assert (q' - q) * m == m * q' - q * m;
    if q' > q {
      AtLeastOnce(q' - q, m);
    } else if q' < q {
      AtLeastOnce(q - q', m);
    }
  }

  lemma WeekLater(day: int)
    ensures WeekIndex(day + 7) == WeekIndex(day) + 1 && DayOfWeek(day + 7) == DayOfWeek(day)
  {
  }

  /** The weeks to wait for a week in step. */
  function Lag(week: int, every: nat): (k: nat)
    requires every >= 1
    ensures k < every
  {
    if week % every == 0 then 0 else every - week % every
  }

  /** The first of `day`, `day + 7`, ... whose week is in step with the interval. */
  function InStep(day: int, every: nat): int
    requires every >= 1
    decreases Lag(WeekIndex(day), every)
  {
    if WeekIndex(day) % every == 0 then day
    else
      WeekLater(day);
      ModNext(WeekIndex(day), every);
      InStep(day + 7, every)
  }

  /** The first day from `today` on with the weekday, and a time of day still to come. */
  function FirstCandidate(local: Instant, weekday: Weekday, tod: nat): int {
    var today := DayOf(local);
    var day := today + (weekday.DaysFromMonday() - DayOfWeek(today) + 7) % 7;
    if day * DAY + tod <= local then day + 7 else day
  }

  function NextWeekly(now: Instant, offset: int, intervalWeeks: nat, weekday: Weekday, hour: nat, minute: nat)
    : Instant
  {
    var tod := TimeOfDay(hour, minute);
    InStep(FirstCandidate(now + offset, weekday, tod), Max(intervalWeeks, 1)) * DAY + tod - offset
  }

  /** The search loop: a week at a time until the week index is a multiple of `every`. */
  method AdvanceWeeks(start: Instant, ghost first: int, ghost tod: nat, every: nat) returns (candidate: Instant)
    requires every >= 1 && tod < DAY && start == first * DAY + tod
    ensures candidate == InStep(first, every) * DAY + tod
  {
    candidate := start;
    ghost var day := first;
    DayAndTime(day, tod);
    hide DayOf, WeekIndex;
    while WeekIndex(DayOf(candidate)) % every != 0
      invariant candidate == day * DAY + tod && DayOf(candidate) == day
      invariant InStep(day, every) == InStep(first, every)
      decreases Lag(WeekIndex(day), every)
    {
      WeekLater(day);
      ModNext(WeekIndex(day), every);
      candidate, day := candidate + WEEK, day + 7;
      DayAndTime(day, tod);
    }
  }

  lemma EveryWeek(day: int)
    ensures InStep(day, 1) == day
  {
  }

  method NextWeeklyFire(now: Instant, offset: int, intervalWeeks: nat, weekday: Weekday, hour: nat, minute: nat)
    returns (t: Instant)
    ensures t == NextWeekly(now, offset, intervalWeeks, weekday, hour, minute)
  {
    hide DayOf, DayOfWeek, TimeOfDay, InStep;
    var local := now + offset;
    var tod := TimeOfDay(hour, minute);
    var today := DayOf(local);
    var daysUntil := (weekday.DaysFromMonday() - DayOfWeek(today) + 7) % 7;
    var candidate := (today + daysUntil) * DAY + tod;
    if candidate <= local {
      daysUntil := daysUntil + 7;
      candidate := (today + daysUntil) * DAY + tod;
    }
    assert today + daysUntil == FirstCandidate(local, weekday, tod);
    var every := Max(intervalWeeks, 1);
    if every > 1 {
      candidate := AdvanceWeeks(candidate, today + daysUntil, tod, every);
    } else {
      EveryWeek(today + daysUntil);
    }
    t := candidate - offset;
  }

  lemma {:induction false} InStepBound(day: int, every: nat)
    requires every >= 1
    ensures InStep(day, every) == day + 7 * Lag(WeekIndex(day), every)
    decreases Lag(WeekIndex(day), every)
  {
    if WeekIndex(day) % every != 0 {
      WeekLater(day);
      ModNext(WeekIndex(day), every);
      InStepBound(day + 7, every);
    }
  }

  lemma SplitModulo(x: int, m: nat) returns (q: int)
    requires m >= 1
    ensures x == q * m + x % m
  {
    q := x / m;
  }

  lemma LagEnds(week: int, every: nat)
    requires every >= 1
    ensures (week + Lag(week, every)) % every == 0
  {
    var q := SplitModulo(week, every);
    if week % every > 0 {
      NextMultiple(q, every);
      DivModUnique(week + Lag(week, every), every, q + 1, 0);
    }
  }

  lemma NextMultiple(q: int, m: int)
    ensures (q + 1) * m == q * m + m
  {
  }

  lemma LagSkips(week: int, every: nat, j: nat)
    requires every >= 1 && j < Lag(week, every)
    ensures (week + j) % every != 0
  {
    var q := SplitModulo(week, every);
    DivModUnique(week + j, every, q, week % every + j);
  }

  lemma WeeksLater(day: int, k: int)
    ensures WeekIndex(day + 7 * k) == WeekIndex(day) + k && DayOfWeek(day + 7 * k) == DayOfWeek(day)
  {
  }

  /** `InStep` stops at the first week in step, fewer than `every` weeks away. */
  lemma InStepIsFirst(day: int, every: nat)
    requires every >= 1
    ensures var d := InStep(day, every);
      && day <= d < day + 7 * every && (d - day) % 7 == 0
      && WeekIndex(d) % every == 0 && DayOfWeek(d) == DayOfWeek(day)
      && forall e :: day <= e < d && (e - day) % 7 == 0 ==> WeekIndex(e) % every != 0
  {
    hide *;
    var week := WeekIndex(day);
    var k := Lag(week, every);
    InStepBound(day, every);
    LagEnds(week, every);
    WeeksLater(day, k);
    forall e | day <= e < day + 7 * k && (e - day) % 7 == 0 ensures WeekIndex(e) % every != 0 {
      var j := (e - day) / 7;
      assert e == day + 7 * j && 0 <= j < k;
      WeeksLater(day, j);
      LagSkips(week, every, j);
    }
  }

  /** The first candidate is the earliest later instant with the weekday and time of day, and
      every later such instant is whole weeks after it. */
  lemma FirstCandidateIsEarliest(local: Instant, weekday: Weekday, tod: nat)
    requires tod < DAY
    ensures var day := FirstCandidate(local, weekday, tod);
      && local < day * DAY + tod <= local + WEEK
      && DayOfWeek(day) == weekday.DaysFromMonday()
    ensures forall e :: local < e * DAY + tod && DayOfWeek(e) == weekday.DaysFromMonday() ==>
      e >= FirstCandidate(local, weekday, tod) && (e - FirstCandidate(local, weekday, tod)) % 7 == 0
  {
    SplitDay(local);
    hide DayOf;
    var day := FirstCandidate(local, weekday, tod);
    SameWeekday(DayOf(local), weekday.DaysFromMonday());
    forall e | local < e * DAY + tod && DayOfWeek(e) == weekday.DaysFromMonday()
      ensures e >= day && (e - day) % 7 == 0
    {
      WeeksApart(e, day);
    }
  }

  lemma SameWeekday(today: int, weekday: nat)
    requires weekday < 7
    ensures var d := (weekday - DayOfWeek(today) + 7) % 7;
      d < 7 && DayOfWeek(today + d) == weekday && DayOfWeek(today + d + 7) == weekday
  {
  }

  lemma WeeksApart(d: int, e: int)
    requires DayOfWeek(d) == DayOfWeek(e)
    ensures (d - e) % 7 == 0
    ensures d <= e - 7 || d == e || d >= e + 7
  {
  }

  /** `day` is the first day in step among those the weekday and time of day allow. */
  lemma InStepIsNext(local: Instant, weekday: Weekday, tod: nat, every: nat)
    requires tod < DAY && every >= 1
    ensures var day := InStep(FirstCandidate(local, weekday, tod), every);
      && local < day * DAY + tod <= local + every * WEEK
      && DayOfWeek(day) == weekday.DaysFromMonday() && WeekIndex(day) % every == 0
    ensures forall e ::
      local < e * DAY + tod && DayOfWeek(e) == weekday.DaysFromMonday() && WeekIndex(e) % every == 0 ==>
        e >= InStep(FirstCandidate(local, weekday, tod), every)
  {
    var first := FirstCandidate(local, weekday, tod);
    FirstCandidateIsEarliest(local, weekday, tod);
    InStepIsFirst(first, every);
    var day := InStep(first, every);
    WeeksApart(day, first);
    var k := (day - first) / 7;
    assert day == first + 7 * k && k <= every - 1;
    assert day * DAY == first * DAY + k * WEEK;
    assert k * WEEK <= (every - 1) * WEEK == every * WEEK - WEEK;
  }

  /** The earliest instant after `now` with the given weekday and time of day, in a week
      whose index from Monday 1970-01-05 is a multiple of the interval. */
  lemma WeeklyIsEarliest(now: Instant, offset: int, intervalWeeks: nat, weekday: Weekday, hour: nat, minute: nat)
    ensures var t, tod := NextWeekly(now, offset, intervalWeeks, weekday, hour, minute), TimeOfDay(hour, minute);
      var w, every := weekday.DaysFromMonday(), Max(intervalWeeks, 1);
      && now < t <= now + every * WEEK
      && WeeklySlot(offset, tod, w, every, t)
      && forall u :: now < u < t ==> !WeeklySlot(offset, tod, w, every, u)
  {
    var tod, w, every := TimeOfDay(hour, minute), weekday.DaysFromMonday(), Max(intervalWeeks, 1);
    var local := now + offset;
    hide DayOf, DayOfWeek, TimeOfDay, FirstCandidate, WeekIndex, InStep;
    InStepIsNext(local, weekday, tod, every);
    var day := InStep(FirstCandidate(local, weekday, tod), every);
    var t := day * DAY + tod - offset;
    DayAndTime(day, tod);
    forall u | now < u < t ensures !WeeklySlot(offset, tod, w, every, u) {
      SplitDay(u + offset);
    }
  }

  /** Fed with its own result, the weekly rule moves on by exactly the interval. */
  lemma WeeklyStep(now: Instant, offset: int, intervalWeeks: nat, weekday: Weekday, hour: nat, minute: nat)
    ensures var t := NextWeekly(now, offset, intervalWeeks, weekday, hour, minute);
      NextWeekly(t, offset, intervalWeeks, weekday, hour, minute) == t + Max(intervalWeeks, 1) * WEEK
  {
    var tod, every := TimeOfDay(hour, minute), Max(intervalWeeks, 1);
    var t := NextWeekly(now, offset, intervalWeeks, weekday, hour, minute);
    var day := DayOf(t + offset);
    hide DayOf, DayOfWeek, TimeOfDay, FirstCandidate, WeekIndex, InStep, Lag;
    WeeklyIsEarliest(now, offset, intervalWeeks, weekday, hour, minute);
    SplitDay(t + offset);
    CandidateAfterSlot(day, weekday, tod);
    InStepAfter(day, every);
  }

  /** From a slot on, the next candidate is the same slot a week later. */
  lemma CandidateAfterSlot(day: int, weekday: Weekday, tod: nat)
    requires tod < DAY && DayOfWeek(day) == weekday.DaysFromMonday()
    ensures FirstCandidate(day * DAY + tod, weekday, tod) == day + 7
  {
    DayAndTime(day, tod);
  }

  /** The week after a week in step is followed by the rest of the interval. */
  lemma InStepAfter(day: int, every: nat)
    requires every >= 1 && WeekIndex(day) % every == 0
    ensures InStep(day + 7, every) == day + 7 * every
  {
    WeekLater(day);
    ModNext(WeekIndex(day), every);
    InStepBound(day + 7, every);
  }

  // ----- what the clock and the calendar show -----

  function Tomorrow(w: Weekday): Weekday {
    match w
    case Mon => Tue case Tue => Wed case Wed => Thu case Thu => Fri
    case Fri => Sat case Sat => Sun case Sun => Mon
  }

  function Yesterday(w: Weekday): Weekday {
    match w
    case Mon => Sun case Tue => Mon case Wed => Tue case Thu => Wed
    case Fri => Thu case Sat => Fri case Sun => Sat
  }

  /** The weekday of a day, counted forth and back from Thursday 1970-01-01. */
  function WeekdayOf(day: int): Weekday
    decreases if day >= 0 then day else -day
  {
    if day == 0 then Thu
    else if day > 0 then Tomorrow(WeekdayOf(day - 1))
    else Yesterday(WeekdayOf(day + 1))
  }

  lemma NextWeekday(w: Weekday)
    ensures Tomorrow(w).DaysFromMonday() == (w.DaysFromMonday() + 1) % 7
    ensures Yesterday(w).DaysFromMonday() == (w.DaysFromMonday() + 6) % 7
  {
  }

  lemma {:induction false} DayIsNamed(day: int)
    ensures DayOfWeek(day) == WeekdayOf(day).DaysFromMonday()
    decreases if day >= 0 then day else -day
  {
    if day > 0 {
      DayIsNamed(day - 1);
      WeekTurns(day - 1);
      NextWeekday(WeekdayOf(day - 1));
    } else if day < 0 {
      DayIsNamed(day + 1);
      WeekTurns(day);
      NextWeekday(WeekdayOf(day + 1));
    }
    hide WeekIndex;
  }

  /** The modular arithmetic names the right weekday, and the week index starts at Monday
      1970-01-05 and moves on with every Monday. */
  lemma CalendarIsRight(day: int)
    ensures DayOfWeek(day) == WeekdayOf(day).DaysFromMonday()
    ensures WeekIndex(4) == 0 && WeekdayOf(4) == Mon
    ensures WeekIndex(day + 1) == WeekIndex(day) + if WeekdayOf(day + 1) == Mon then 1 else 0
  {
    DayIsNamed(4);
    MondayIsZero(WeekdayOf(4));
    hide WeekdayOf;
    DayIsNamed(day);
    DayIsNamed(day + 1);
    WeekTurns(day);
    MondayIsZero(WeekdayOf(day + 1));
  }

  lemma MondayIsZero(w: Weekday)
    ensures w == Mon <==> w.DaysFromMonday() == 0
  {
  }

  lemma WeekTurns(day: int)
    ensures WeekIndex(day + 1) == WeekIndex(day) + if DayOfWeek(day + 1) == 0 then 1 else 0
    ensures DayOfWeek(day + 1) == (DayOfWeek(day) + 1) % 7
  {
  }

  lemma SameDays(w: Weekday, v: Weekday)
    ensures w.DaysFromMonday() == v.DaysFromMonday() <==> w == v
  {
  }

  /** A clock that is `x` after midnight shows this time to the second; times that no clock shows
      stand for midnight. */
  ghost predicate Shows(x: int, hour: nat, minute: nat) {
    if hour < 24 && minute < 60 then
      x / (3600 * SECOND) == hour && x / (60 * SECOND) % 60 == minute && x % (60 * SECOND) == 0
    else x == 0
  }

  lemma TimeOfDayShows(hour: nat, minute: nat)
    ensures Shows(TimeOfDay(hour, minute), hour, minute)
  {
    if hour < 24 && minute < 60 {
      var x := TimeOfDay(hour, minute);
      assert x == hour * (3600 * SECOND) + minute * (60 * SECOND);
      assert x == (hour * 60 + minute) * (60 * SECOND);
    }
  }

  /** The daily rule fires when the local clock shows the time of the schedule. */
  lemma DailyWallClock(now: Instant, offset: int, hour: nat, minute: nat)
    ensures Shows((NextDaily(now, offset, hour, minute) + offset) % DAY, hour, minute)
  {
    DailyIsEarliest(now, offset, hour, minute);
    TimeOfDayShows(hour, minute);
    hide NextDaily, TimeOfDay, Shows;
  }

  /** The weekly rule fires when the local clock shows the time and the local calendar the weekday. */
  lemma WeeklyWallClock(now: Instant, offset: int, intervalWeeks: nat, weekday: Weekday, hour: nat, minute: nat)
    ensures var local := NextWeekly(now, offset, intervalWeeks, weekday, hour, minute) + offset;
      && Shows(local % DAY, hour, minute)
      && WeekdayOf(local / DAY) == weekday
  {
    WeeklyIsEarliest(now, offset, intervalWeeks, weekday, hour, minute);
    TimeOfDayShows(hour, minute);
    var local := NextWeekly(now, offset, intervalWeeks, weekday, hour, minute) + offset;
    CalendarIsRight(local / DAY);
    SameDays(WeekdayOf(local / DAY), weekday);
    hide NextWeekly, TimeOfDay, Shows, WeekdayOf, DayOfWeek, WeekIndex;
  }

  // ----- all schedules -----

  function NextFire(spec: ScheduleSpec, now: Instant): Instant {
    match spec
    case EverySeconds(s) => now + Period(s)
    case Cron(after) => if after(now).Some? then after(now).value else now + 365 * DAY
    case Once(at) => at
    case DailyAt(hour, minute, offset) => NextDaily(now, offset, hour, minute)
    case WeeklyAt(every, weekday, hour, minute, offset) => NextWeekly(now, offset, every, weekday, hour, minute)
  }

  method ComputeNextFire(spec: ScheduleSpec, now: Instant) returns (t: Instant)
    ensures t == NextFire(spec, now)
  {
    match spec {
      case EverySeconds(s) => t := now + Period(s);
      case Cron(after) =>
        var next := after(now);
        t := if next.Some? then next.value else now + 365 * DAY;
      case Once(at) => t := at;
      case DailyAt(hour, minute, offset) => t := NextDailyFire(now, offset, hour, minute);
      case WeeklyAt(every, weekday, hour, minute, offset) =>
        t := NextWeeklyFire(now, offset, every, weekday, hour, minute);
    }
  }

  /** A cron expression without any further time gives 365 days from now. */
  lemma CronFires(after: Instant -> Option<Instant>, now: Instant, t: Instant)
    ensures NextFire(Cron(after), now) == t
       <==> after(now) == Some(t) || (after(now) == None && t - now == 31_536_000 * SECOND)
  {
  }

  /** A schedule whose next fire is always later than the time it is asked at. */
  ghost predicate Advances(spec: ScheduleSpec) {
    forall now :: NextFire(spec, now) > now
  }

  lemma CalendarSchedulesAdvance(spec: ScheduleSpec)
    requires spec.DailyAt? || spec.WeeklyAt?
    ensures Advances(spec)
  {
    forall now ensures NextFire(spec, now) > now {
      match spec {
        case DailyAt(hour, minute, offset) => DailyIsEarliest(now, offset, hour, minute);
        case WeeklyAt(every, weekday, hour, minute, offset) =>
          WeeklyIsEarliest(now, offset, every, weekday, hour, minute);
      }
    }
  }
}
