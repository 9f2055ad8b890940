/** Dispatches of a job over whole runs of the scheduler: any log of ticks and commands. */
module CronHistory {
  import opened Common
  import opened Schedule
  import opened CronScheduler

  /** A dispatch happens at some tick, for the fire time that had come. */
  datatype Dispatch = Dispatch(at: Instant, target: Instant)

  function Dispatches(id: string, log: seq<Timed>): seq<Dispatch> {
    if log == [] then []
    else
      var before, c := log[..|log| - 1], log[|log| - 1];
      var slot := Play(id, before);
      if c.cmd.Tick? && Fires(slot, c.at) then Dispatches(id, before) + [Dispatch(c.at, Target(slot, c.at))]
      else Dispatches(id, before)
  }

  lemma DispatchesNext(id: string, log: seq<Timed>)
    requires log != []
    ensures var before, c := log[..|log| - 1], log[|log| - 1];
      var d := Dispatches(id, before);
      || Dispatches(id, log) == d
      || exists target :: target <= c.at && Dispatches(id, log) == d + [Dispatch(c.at, target)]
  {
    var before, c := log[..|log| - 1], log[|log| - 1];
    var slot := Play(id, before);
    if c.cmd.Tick? && Fires(slot, c.at) {
      assert Dispatches(id, log) == Dispatches(id, before) + [Dispatch(c.at, Target(slot, c.at))];
    }
  }

  ghost predicate ClockIsMonotone(log: seq<Timed>) {
    forall i, j :: 0 <= i < j < |log| ==> log[i].at <= log[j].at
  }

  ghost predicate AddsJob(c: Timed, id: string) {
    c.cmd.Add? && c.cmd.job.id == id
  }

  /** The schedule of the job stays `spec`, however often the job is added. */
  ghost predicate Steady(id: string, log: seq<Timed>, spec: ScheduleSpec) {
    forall i :: 0 <= i < |log| && AddsJob(log[i], id) ==> log[i].cmd.job.schedule == spec
  }

  lemma {:induction false} ScheduleStays(id: string, log: seq<Timed>, spec: ScheduleSpec)
    requires Steady(id, log, spec)
    ensures Play(id, log).job.Some? ==> Play(id, log).job.value.schedule == spec
  {
    if log != [] {
      hide Target;
      ScheduleStays(id, log[..|log| - 1], spec);
      assert AddsJob(log[|log| - 1], id) ==> log[|log| - 1].cmd.job.schedule == spec;
    }
  }

  lemma {:induction false} DispatchedInThePast(id: string, log: seq<Timed>)
    requires ClockIsMonotone(log)
    ensures var d := Dispatches(id, log);
      && (forall i :: 0 <= i < |d| ==> d[i].target <= d[i].at)
      && (forall i :: 0 <= i < |d| ==> log != [] && d[i].at <= log[|log| - 1].at)
  {
    if log != [] {
      var before, c := log[..|log| - 1], log[|log| - 1];
      DispatchedInThePast(id, before);
      DispatchesNext(id, log);
      hide Dispatches, Target, Fires;
      assert before != [] ==> before[|before| - 1] == log[|before| - 1];
    }
  }

  lemma DispatchedBefore(id: string, log: seq<Timed>)
    requires ClockIsMonotone(log) && log != []
    ensures var d := Dispatches(id, log[..|log| - 1]);
      forall i :: 0 <= i < |d| ==> d[i].target <= d[i].at <= log[|log| - 1].at
  {
    var before := log[..|log| - 1];
    DispatchedInThePast(id, before);
    if before != [] {
      assert before[|before| - 1].at <= log[|log| - 1].at;
    }
  }

  // ----- EverySeconds -----

  ghost predicate Spaced(d: seq<Dispatch>, gap: int) {
    forall i :: 0 <= i < |d| - 1 ==> d[i].at + gap <= d[i + 1].at
  }

  /** The next fire lies at least `gap` after the last dispatch. */
  ghost predicate NextKeeps(d: seq<Dispatch>, slot: Slot, gap: int) {
    d != [] && slot.next.Some? ==> d[|d| - 1].at + gap <= slot.next.value
  }

  lemma EveryTick(slot: Slot, now: Instant, d: seq<Dispatch>, s: nat)
    requires slot.job.Some? ==> slot.job.value.schedule == EverySeconds(s)
    requires forall i :: 0 <= i < |d| ==> d[i].at <= now
    requires Spaced(d, Period(s)) && NextKeeps(d, slot, Period(s))
    ensures var d' := if Fires(slot, now) then d + [Dispatch(now, Target(slot, now))] else d;
      Spaced(d', Period(s)) && NextKeeps(d', TickSlot(slot, now), Period(s))
  {
    hide Period;
  }

  lemma {:induction false} EveryInvariant(id: string, log: seq<Timed>, s: nat)
    requires ClockIsMonotone(log) && Steady(id, log, EverySeconds(s))
    ensures Spaced(Dispatches(id, log), Period(s))
    ensures NextKeeps(Dispatches(id, log), Play(id, log), Period(s))
  {
    if log != [] {
      var before, c := log[..|log| - 1], log[|log| - 1];
      EveryInvariant(id, before, s);
      ScheduleStays(id, before, EverySeconds(s));
      DispatchedBefore(id, log);
      hide Period, Fires, TickSlot, Target, Spaced;
      if c.cmd.Tick? {
        EveryTick(Play(id, before), c.at, Dispatches(id, before), s);
      }
    }
  }

  /** Dispatches of an every-`s`-seconds job are `s` seconds apart, through any ticks, status
      updates, removals and re-additions, as long as the number fits a duration. */
  lemma EverySecondsSpacing(id: string, log: seq<Timed>, s: nat)
    requires ClockIsMonotone(log) && Steady(id, log, EverySeconds(s))
    ensures Spaced(Dispatches(id, log), Period(s))
    ensures s <= MAX_DURATION_SECONDS ==> Spaced(Dispatches(id, log), s * SECOND)
  {
    EveryInvariant(id, log, s);
  }

  lemma {:induction false} SpacedRate(d: seq<Dispatch>, gap: int)
    requires Spaced(d, gap) && d != []
    ensures (|d| - 1) * gap <= d[|d| - 1].at - d[0].at
  {
    if |d| > 1 {
      SpacedRate(d[..|d| - 1], gap);
      assert (|d| - 1) * gap == (|d| - 2) * gap + gap;
    }
  }

  /** Hence `n` dispatches take at least `(n - 1) * s` seconds. */
  lemma EverySecondsRate(id: string, log: seq<Timed>, s: nat)
    requires ClockIsMonotone(log) && Steady(id, log, EverySeconds(s)) && s <= MAX_DURATION_SECONDS
    requires Dispatches(id, log) != []
    ensures var d := Dispatches(id, log);
      (|d| - 1) * (s * SECOND) <= d[|d| - 1].at - d[0].at
  {
    EverySecondsSpacing(id, log, s);
    SpacedRate(Dispatches(id, log), s * SECOND);
  }

  // ----- schedules that move on -----

  ghost predicate AllAdvance(id: string, log: seq<Timed>) {
    forall i :: 0 <= i < |log| && AddsJob(log[i], id) ==> Advances(log[i].cmd.job.schedule)
  }

  /** Each dispatch serves a fire time that lies after the previous dispatch. */
  ghost predicate SlotsIncrease(d: seq<Dispatch>) {
    forall i, j :: 0 <= i < j < |d| && j == i + 1 ==> d[i].target <= d[i].at < d[j].target <= d[j].at
  }

  lemma {:induction false} JobsAdvance(id: string, log: seq<Timed>)
    requires AllAdvance(id, log)
    ensures Play(id, log).job.Some? ==> Advances(Play(id, log).job.value.schedule)
  {
    if log != [] {
      hide Target, Advances;
      JobsAdvance(id, log[..|log| - 1]);
      assert AddsJob(log[|log| - 1], id) ==> Advances(log[|log| - 1].cmd.job.schedule);
    }
  }

  /** What a tick does to a slot whose schedule moves on. */
  lemma TickMovesOn(slot: Slot, now: Instant)
    requires slot.job.Some? && Advances(slot.job.value.schedule)
    ensures var after := TickSlot(slot, now);
      && (Fires(slot, now) ==> slot.next.Some? && Target(slot, now) == slot.next.value
                               && (after.next.Some? ==> now < after.next.value))
      && (!Fires(slot, now) ==> after.next == slot.next || (after.next.Some? && now < after.next.value))
  {
    assert NextFire(slot.job.value.schedule, now) > now;
  }

  ghost predicate NextIsLater(d: seq<Dispatch>, slot: Slot) {
    d != [] && slot.next.Some? ==> d[|d| - 1].at < slot.next.value
  }

  lemma AdvancingTick(slot: Slot, now: Instant, d: seq<Dispatch>)
    requires slot.job.Some? ==> Advances(slot.job.value.schedule)
    requires forall i :: 0 <= i < |d| ==> d[i].target <= d[i].at <= now
    requires SlotsIncrease(d) && NextIsLater(d, slot)
    ensures var d' := if Fires(slot, now) then d + [Dispatch(now, Target(slot, now))] else d;
      SlotsIncrease(d') && NextIsLater(d', TickSlot(slot, now))
  {
    if slot.job.Some? {
      TickMovesOn(slot, now);
      TargetHasCome(slot, now);
      hide TickSlot, Fires, Target, Advances;
    } else {
      NoJobNoFire(slot, now);
      hide TickSlot, Fires, Target, Advances;
    }
  }

  lemma TargetHasCome(slot: Slot, now: Instant)
    ensures Fires(slot, now) ==> Target(slot, now) <= now
  {
  }

  lemma {:induction false} AdvancingInvariant(id: string, log: seq<Timed>)
    requires ClockIsMonotone(log) && AllAdvance(id, log)
    ensures SlotsIncrease(Dispatches(id, log)) && NextIsLater(Dispatches(id, log), Play(id, log))
  {
    if log != [] {
      var before, c := log[..|log| - 1], log[|log| - 1];
      AdvancingInvariant(id, before);
      DispatchedBefore(id, log);
      JobsAdvance(id, before);
      hide TickSlot, Fires, Target, Advances, SlotsIncrease;
      if c.cmd.Tick? {
        AdvancingTick(Play(id, before), c.at, Dispatches(id, before));
      }
    }
  }

  lemma {:induction false} TargetsDistinct(d: seq<Dispatch>, i: nat, j: nat)
    requires SlotsIncrease(d) && i < j < |d|
    ensures d[i].target < d[j].target
  {
    if i + 1 < j {
      TargetsDistinct(d, i, j - 1);
    }
    assert d[j - 1].target < d[j].target;
  }

  /** No fire time is served twice: the times served strictly increase, even over status
      changes, removals and re-additions. */
  lemma NoSlotTwice(id: string, log: seq<Timed>, i: nat, j: nat)
    requires ClockIsMonotone(log) && AllAdvance(id, log)
    requires i < j < |Dispatches(id, log)|
    ensures Dispatches(id, log)[i].target < Dispatches(id, log)[j].target
    ensures Dispatches(id, log)[i].at < Dispatches(id, log)[j].at
  {
    var d := Dispatches(id, log);
    AdvancingInvariant(id, log);
    TargetsDistinct(d, i, j);
    if i + 1 < j {
      NoSlotTwice(id, log, i, j - 1);
    }
    assert d[j - 1].at < d[j].at;
  }

  ghost predicate FireTime(spec: ScheduleSpec, t: Instant) {
    exists now :: t == NextFire(spec, now)
  }

  lemma TickKeepsFireTimes(slot: Slot, now: Instant, spec: ScheduleSpec)
    requires slot.job.None? ==> slot.next.None?
    requires slot.job.Some? ==> slot.job.value.schedule == spec
    requires slot.next.Some? ==> FireTime(spec, slot.next.value)
    ensures var after := TickSlot(slot, now);
      && (after.job.None? ==> after.next.None?)
      && (after.next.Some? ==> FireTime(spec, after.next.value))
      && (Fires(slot, now) ==> FireTime(spec, Target(slot, now)))
  {
    assert FireTime(spec, NextFire(spec, now));
    hide NextFire, FireTime;
  }

  ghost predicate AllFireTimes(d: seq<Dispatch>, spec: ScheduleSpec) {
    forall i :: 0 <= i < |d| ==> FireTime(spec, d[i].target)
  }

  lemma {:induction false} TargetsAreFireTimes(id: string, log: seq<Timed>, spec: ScheduleSpec)
    requires Steady(id, log, spec)
    ensures AllFireTimes(Dispatches(id, log), spec)
    ensures var slot := Play(id, log);
      && (slot.job.Some? && slot.next.Some? ==> FireTime(spec, slot.next.value))
      && (slot.job.None? ==> slot.next.None?)
  {
    if log != [] {
      var before, c := log[..|log| - 1], log[|log| - 1];
      TargetsAreFireTimes(id, before, spec);
      ScheduleStays(id, before, spec);
      TickKeepsFireTimes(Play(id, before), c.at, spec);
      hide TickSlot, Fires, Target, FireTime;
    }
  }

  /** Daily and weekly jobs: every dispatch serves a true slot of the schedule. */
  lemma CalendarDispatches(id: string, log: seq<Timed>, spec: ScheduleSpec, i: nat)
    requires Steady(id, log, spec) && (spec.DailyAt? || spec.WeeklyAt?)
    requires i < |Dispatches(id, log)|
    ensures var target := Dispatches(id, log)[i].target;
      match spec {
        case DailyAt(hour, minute, offset) => DailySlot(offset, TimeOfDay(hour, minute), target)
        case WeeklyAt(every, weekday, hour, minute, offset) =>
          WeeklySlot(offset, TimeOfDay(hour, minute), weekday.DaysFromMonday(), Max(every, 1), target)
        case _ => true
      }
  {
    TargetsAreFireTimes(id, log, spec);
    var target := Dispatches(id, log)[i].target;
    assert FireTime(spec, target);
    var now :| target == NextFire(spec, now);
    match spec {
      case DailyAt(hour, minute, offset) => DailyIsEarliest(now, offset, hour, minute);
      case WeeklyAt(every, weekday, hour, minute, offset) =>
        WeeklyIsEarliest(now, offset, every, weekday, hour, minute);
    }
  }

  /** And no slot is served twice: a later dispatch serves a later slot. */
  lemma CalendarSlotsIncrease(id: string, log: seq<Timed>, spec: ScheduleSpec, i: nat, j: nat)
    requires ClockIsMonotone(log) && Steady(id, log, spec) && (spec.DailyAt? || spec.WeeklyAt?)
    requires i < j < |Dispatches(id, log)|
    ensures Dispatches(id, log)[i].target < Dispatches(id, log)[j].target
  {
    CalendarSchedulesAdvance(spec);
    forall k | 0 <= k < |log| && AddsJob(log[k], id) ensures Advances(log[k].cmd.job.schedule) {
    }
    NoSlotTwice(id, log, i, j);
  }

  // ----- the lazily filled table -----

  /** The schedule was asked for `t` at some time up to `now`. */
  ghost predicate AskedBy(spec: ScheduleSpec, t: Instant, now: Instant) {
    exists asked :: asked <= now && t == NextFire(spec, asked)
  }

  lemma AskedLater(spec: ScheduleSpec, t: Instant, early: Instant, late: Instant)
    ensures AskedBy(spec, t, early) && early <= late ==> AskedBy(spec, t, late)
  {
    hide NextFire;
    if AskedBy(spec, t, early) && early <= late {
      var asked :| asked <= early && t == NextFire(spec, asked);
      assert asked <= late;
    }
  }

  ghost predicate TableFromThePast(slot: Slot, spec: ScheduleSpec, now: Instant) {
    && (slot.job.None? ==> slot.next.None?)
    && (slot.next.Some? ==> AskedBy(spec, slot.next.value, now))
  }

  lemma TickAsksNow(slot: Slot, now: Instant, spec: ScheduleSpec)
    requires slot.job.Some? ==> slot.job.value.schedule == spec
    requires TableFromThePast(slot, spec, now)
    ensures TableFromThePast(TickSlot(slot, now), spec, now)
  {
    hide NextFire, AskedBy;
    assert AskedBy(spec, NextFire(spec, now), now) by { AskedNow(spec, now); }
  }

  lemma AskedNow(spec: ScheduleSpec, now: Instant)
    ensures AskedBy(spec, NextFire(spec, now), now)
  {
  }

  lemma {:induction false} TableIsFromThePast(id: string, log: seq<Timed>, spec: ScheduleSpec)
    requires ClockIsMonotone(log) && Steady(id, log, spec) && log != []
    ensures TableFromThePast(Play(id, log), spec, log[|log| - 1].at)
  {
    var before, c := log[..|log| - 1], log[|log| - 1];
    ScheduleStays(id, before, spec);
    hide TickSlot, AskedBy;
    if before != [] {
      TableIsFromThePast(id, before, spec);
      if Play(id, before).next.Some? {
        AskedLater(spec, Play(id, before).next.value, before[|before| - 1].at, c.at);
      }
    }
    TickAsksNow(Play(id, before), c.at, spec);
  }

  /** As long as it has not come due, the calendar answer does not depend on when it was asked for. */
  lemma CalendarIsStable(spec: ScheduleSpec, asked: Instant, now: Instant)
    requires spec.DailyAt? || spec.WeeklyAt?
    requires asked <= now < NextFire(spec, asked)
    ensures NextFire(spec, now) == NextFire(spec, asked)
  {
    hide NextDaily, NextWeekly, DailySlot, WeeklySlot, TimeOfDay;
    match spec {
      case DailyAt(hour, minute, offset) =>
        DailyIsEarliest(asked, offset, hour, minute);
        DailyIsEarliest(now, offset, hour, minute);
      case WeeklyAt(every, weekday, hour, minute, offset) =>
        WeeklyIsEarliest(asked, offset, every, weekday, hour, minute);
        WeeklyIsEarliest(now, offset, every, weekday, hour, minute);
    }
  }

  /** The table is filled lazily and jobs may lie idle, yet after every tick it is exact: a daily
      or weekly job that is still in line is booked for the earliest slot after that tick. */
  lemma LazyTableIsExact(id: string, log: seq<Timed>, now: Instant, spec: ScheduleSpec)
    requires ClockIsMonotone(log + [Timed(now, Tick)]) && Steady(id, log, spec) && (spec.DailyAt? || spec.WeeklyAt?)
    ensures var slot := Play(id, log + [Timed(now, Tick)]);
      slot.job.Some? && !PassedOver(slot.job.value) ==> slot.next == Some(NextFire(spec, now))
  {
    PlayAppend(id, log, Timed(now, Tick));
    ScheduleStays(id, log, spec);
    var slot := Play(id, log);
    if slot.next.Some? && slot.next.value > now {
      assert log != [];
      assert log[|log| - 1] == (log + [Timed(now, Tick)])[|log| - 1];
      assert forall i :: 0 <= i < |log| ==> log[i] == (log + [Timed(now, Tick)])[i];
      TableIsFromThePast(id, log, spec);
      var asked :| asked <= log[|log| - 1].at && slot.next.value == NextFire(spec, asked);
      CalendarIsStable(spec, asked, now);
    }
    hide NextFire;
  }

  /** A tick leaves nothing due behind, whatever the schedule. */
  lemma NothingDueIsLeft(id: string, log: seq<Timed>, now: Instant)
    ensures var slot := Play(id, log + [Timed(now, Tick)]);
      slot.job.Some? && !PassedOver(slot.job.value) ==> slot.next.Some? && now < slot.next.value
  {
    PlayAppend(id, log, Timed(now, Tick));
    hide NextFire;
  }

  // ----- due jobs are dispatched -----

  /** A tick dispatches a job, for the booked time, exactly when it is due. */
  lemma DispatchCondition(id: string, log: seq<Timed>, now: Instant)
    ensures var slot := Play(id, log);
      Dispatches(id, log + [Timed(now, Tick)])
      == Dispatches(id, log) + if IsDue(slot, now) then [Dispatch(now, Booking(slot, now))] else []
  {
    var longer := log + [Timed(now, Tick)];
    assert longer[..|longer| - 1] == log;
    FiresWhenDue(Play(id, log), now);
    hide Fires, IsDue, Target, Booking;
    assert Dispatches(id, log) + [] == Dispatches(id, log);
  }

  /** The next dispatch of the job, whenever it is free to run, is for the time `v`. */
  ghost predicate BookedFor(slot: Slot, v: Instant) {
    && slot.job.Some?
    && (slot.next == Some(v) || (slot.next == None && slot.job.value.schedule == Once(v)))
  }

  /** The command does not add or remove the job, and is no tick at `v` or later. */
  ghost predicate ComesBefore(c: Timed, id: string, v: Instant) {
    match c.cmd
    case Tick => c.at < v
    case Add(job, _) => job.id != id
    case Remove(i) => i != id
    case UpdateStatus(_, _, _, _) => true
  }

  ghost predicate SetsStatus(c: Timed, id: string) {
    c.cmd.UpdateStatus? && c.cmd.id == id
  }

  lemma BookingStep(slot: Slot, id: string, c: Timed, v: Instant)
    requires BookedFor(slot, v) && ComesBefore(c, id, v)
    ensures var after := Apply(slot, id, c);
      && BookedFor(after, v) && after.job.value.schedule == slot.job.value.schedule
      && (!SetsStatus(c, id) ==> after.job.value.status == slot.job.value.status)
      && (c.cmd.Tick? ==> !IsDue(slot, c.at))
  {
    if c.cmd.Tick? {
      FiresWhenDue(slot, c.at);
    }
  }

  lemma DispatchesStep(id: string, log: seq<Timed>, c: Timed)
    requires c.cmd.Tick? ==> !IsDue(Play(id, log), c.at)
    ensures Dispatches(id, log + [c]) == Dispatches(id, log)
  {
    assert (log + [c])[..|log + [c]| - 1] == log;
    FiresWhenDue(Play(id, log), c.at);
  }

  /** Until the booked time comes, the booking stands and nothing is dispatched. */
  lemma {:induction false} BookingStands(id: string, log: seq<Timed>, tail: seq<Timed>, v: Instant)
    requires BookedFor(Play(id, log), v)
    requires forall i :: 0 <= i < |tail| ==> ComesBefore(tail[i], id, v)
    ensures var slot := Play(id, log + tail);
      && BookedFor(slot, v) && slot.job.value.schedule == Play(id, log).job.value.schedule
      && ((forall i :: 0 <= i < |tail| ==> !SetsStatus(tail[i], id)) ==>
            slot.job.value.status == Play(id, log).job.value.status)
    ensures Dispatches(id, log + tail) == Dispatches(id, log)
    decreases |tail|
  {
    if tail == [] {
      assert log + tail == log;
    } else {
      var c, shorter := tail[|tail| - 1], tail[..|tail| - 1];
      BookingStands(id, log, shorter, v);
      assert log + tail == log + shorter + [c];
      PlayAppend(id, log + shorter, c);
      hide Play, Dispatches, Apply, IsDue, BookedFor, ComesBefore, SetsStatus;
      BookingStep(Play(id, log + shorter), id, c, v);
      DispatchesStep(id, log + shorter, c);
    }
  }

  ghost predicate AllBefore(cs: seq<Timed>, id: string, v: Instant) {
    forall i :: 0 <= i < |cs| ==> ComesBefore(cs[i], id, v)
  }

  ghost predicate NoneSetsStatus(cs: seq<Timed>, id: string) {
    forall i :: 0 <= i < |cs| ==> !SetsStatus(cs[i], id)
  }

  /** The command sets a job free to run again. */
  ghost predicate Frees(c: Timed, id: string, once: bool) {
    SetsStatus(c, id) && c.cmd.status in if once then {Scheduled} else {Scheduled, Completed, Failed}
  }

  lemma FreedIsInLine(id: string, log: seq<Timed>, v: Instant, release: Timed)
    requires BookedFor(Play(id, log), v) && Frees(release, id, Play(id, log).job.value.schedule.Once?)
    ensures var freed := Play(id, log + [release]);
      BookedFor(freed, v) && (forall now :: v <= now ==> IsDue(freed, now) && Booking(freed, now) == v)
    ensures Dispatches(id, log + [release]) == Dispatches(id, log)
  {
    PlayAppend(id, log, release);
    DispatchesStep(id, log, release);
    hide Play, Dispatches;
  }

  lemma StillDue(a: Slot, b: Slot, v: Instant, now: Instant)
    requires BookedFor(a, v) && BookedFor(b, v) && v <= now && IsDue(a, now)
    requires a.job.value.schedule == b.job.value.schedule && a.job.value.status == b.job.value.status
    ensures IsDue(b, now) && Booking(b, now) == v
  {
  }

  /** A job that is booked and free to run, and that nobody touches, is served at the first tick at
      or after its time. */
  lemma ServedInTime(id: string, log: seq<Timed>, v: Instant, rest: seq<Timed>, now: Instant)
    requires BookedFor(Play(id, log), v) && v <= now && IsDue(Play(id, log), now)
    requires AllBefore(rest, id, v) && NoneSetsStatus(rest, id)
    ensures Dispatches(id, log + rest + [Timed(now, Tick)]) == Dispatches(id, log) + [Dispatch(now, v)]
  {
    hide Play, Dispatches, IsDue, Booking, BookedFor, ComesBefore, SetsStatus;
    BookingStands(id, log, rest, v);
    StillDue(Play(id, log), Play(id, log + rest), v, now);
    DispatchCondition(id, log + rest, now);
  }

  /** So is a job that is booked and then set free by a command. */
  lemma ServedOnceReleased(id: string, log: seq<Timed>, v: Instant, mid: seq<Timed>, release: Timed, rest: seq<Timed>,
                           now: Instant)
    requires BookedFor(Play(id, log), v) && v <= now
    requires AllBefore(mid, id, v) && AllBefore(rest, id, v) && NoneSetsStatus(rest, id)
    requires Frees(release, id, Play(id, log).job.value.schedule.Once?)
    ensures Dispatches(id, log + mid + [release] + rest + [Timed(now, Tick)])
         == Dispatches(id, log) + [Dispatch(now, v)]
  {
    hide Play, Dispatches, IsDue, Booking, BookedFor, Frees, NoneSetsStatus, ComesBefore;
    BookingStands(id, log, mid, v);
    FreedIsInLine(id, log + mid, v, release);
    hide AllBefore;
    ServedInTime(id, log + mid + [release], v, rest, now);
  }

  /** Recurring jobs: after a dispatch and its completion or failure, the next dispatch comes at the
      first tick at or after the fire time that follows the last one. */
  lemma RecurringIsServed(id: string, log: seq<Timed>, last: Instant, v: Instant, mid: seq<Timed>, release: Timed,
                          rest: seq<Timed>, now: Instant)
    requires IsDue(Play(id, log), last) && !Play(id, log).job.value.schedule.Once?
    requires v == NextFire(Play(id, log).job.value.schedule, last) && v <= now
    requires AllBefore(mid, id, v) && AllBefore(rest, id, v) && NoneSetsStatus(rest, id) && Frees(release, id, false)
    ensures Dispatches(id, log + [Timed(last, Tick)] + mid + [release] + rest + [Timed(now, Tick)])
         == Dispatches(id, log + [Timed(last, Tick)]) + [Dispatch(now, v)]
  {
    BookedByDispatch(id, log, last);
    hide Play, Dispatches, IsDue, BookedFor, AllBefore, NoneSetsStatus, Frees, NextFire;
    ServedOnceReleased(id, log + [Timed(last, Tick)], v, mid, release, rest, now);
  }

  lemma BookedByDispatch(id: string, log: seq<Timed>, now: Instant)
    requires IsDue(Play(id, log), now) && !Play(id, log).job.value.schedule.Once?
    ensures var slot := Play(id, log + [Timed(now, Tick)]);
      && BookedFor(slot, NextFire(Play(id, log).job.value.schedule, now))
      && slot.job.value.schedule == Play(id, log).job.value.schedule
  {
    FiresWhenDue(Play(id, log), now);
    PlayAppend(id, log, Timed(now, Tick));
    hide NextFire;
  }

  lemma EveryFollows(s: nat, now: Instant)
    requires s <= MAX_DURATION_SECONDS
    ensures NextFire(EverySeconds(s), now) == now + s * SECOND && !EverySeconds(s).Once?
  {
    PeriodIsFaithful(s);
  }

  /** In particular an every-`s`-seconds job is dispatched again at the first tick at least `s`
      seconds after its last dispatch. */
  lemma EverySecondsIsServed(id: string, log: seq<Timed>, s: nat, last: Instant, mid: seq<Timed>, release: Timed,
                             rest: seq<Timed>, now: Instant)
    requires IsDue(Play(id, log), last) && Play(id, log).job.value.schedule == EverySeconds(s)
    requires s <= MAX_DURATION_SECONDS && last + s * SECOND <= now
    requires AllBefore(mid, id, last + s * SECOND) && AllBefore(rest, id, last + s * SECOND)
    requires NoneSetsStatus(rest, id) && Frees(release, id, false)
    ensures Dispatches(id, log + [Timed(last, Tick)] + mid + [release] + rest + [Timed(now, Tick)])
         == Dispatches(id, log + [Timed(last, Tick)]) + [Dispatch(now, last + s * SECOND)]
  {
    hide *;
    EveryFollows(s, last);
    RecurringIsServed(id, log, last, last + s * SECOND, mid, release, rest, now);
  }

  /** A one-shot job that is added is dispatched at the first tick at or after its time. */
  lemma OnceIsServed(id: string, log: seq<Timed>, job: Job, note: string, at: Instant, due: Instant, rest: seq<Timed>,
                     now: Instant)
    requires job.id == id && job.schedule == Once(due) && due <= now
    requires AllBefore(rest, id, due) && NoneSetsStatus(rest, id)
    ensures Dispatches(id, log + [Timed(at, Add(job, note))] + rest + [Timed(now, Tick)])
         == Dispatches(id, log) + [Dispatch(now, due)]
  {
    var add := Timed(at, Add(job, note));
    PlayAppend(id, log, add);
    DispatchesStep(id, log, add);
    assert BookedFor(Play(id, log + [add]), due) && IsDue(Play(id, log + [add]), now);
    hide Play, Dispatches, IsDue, BookedFor, AllBefore, NoneSetsStatus;
    ServedInTime(id, log + [add], due, rest, now);
  }

  // ----- one dispatch per release -----

  /** Commands that put a job back in line: adding it, or a status that a tick does not pass over. */
  ghost predicate Releases(c: Timed, id: string, once: bool) {
    match c.cmd
    case Tick => false
    case Add(job, _) => job.id == id
    case Remove(_) => false
    case UpdateStatus(i, status, _, _) =>
      i == id && (status.Scheduled? || (!once && (status.Completed? || status.Failed?)))
  }

  ghost predicate Held(slot: Slot, once: bool) {
    slot.job.Some? ==> PassedOver(slot.job.value) && slot.job.value.schedule.IsOnce() == once
  }

  lemma {:induction false} HeldStaysHeld(id: string, log: seq<Timed>, tail: seq<Timed>, once: bool)
    requires Held(Play(id, log), once)
    requires forall i :: 0 <= i < |tail| ==> !Releases(tail[i], id, once)
    ensures Held(Play(id, log + tail), once)
    ensures Dispatches(id, log + tail) == Dispatches(id, log)
    decreases |tail|
  {
    if tail == [] {
      assert log + tail == log;
    } else {
      var c, shorter := tail[|tail| - 1], tail[..|tail| - 1];
      HeldStaysHeld(id, log, shorter, once);
      assert (log + tail)[..|log + tail| - 1] == log + shorter;
      assert !Releases(c, id, once);
      hide NextFire;
    }
  }

  /** A dispatched job is not dispatched again before a command releases it; for a one-shot
      job only adding it anew or setting it back to `Scheduled` does. */
  lemma OneDispatchPerRelease(id: string, log: seq<Timed>, now: Instant, tail: seq<Timed>)
    requires Fires(Play(id, log), now)
    requires var once := Play(id, log).job.value.schedule.IsOnce();
      forall i :: 0 <= i < |tail| ==> !Releases(tail[i], id, once)
    ensures var tick := log + [Timed(now, Tick)];
      && |Dispatches(id, tick)| == |Dispatches(id, log)| + 1
      && Dispatches(id, tick + tail) == Dispatches(id, tick)
  {
    var tick := log + [Timed(now, Tick)];
    assert tick[..|tick| - 1] == log;
    HeldStaysHeld(id, tick, tail, Play(id, log).job.value.schedule.IsOnce());
  }

  /** A one-shot job is never dispatched before its time. */
  lemma OnceIsNeverEarly(id: string, log: seq<Timed>, due: Instant, i: nat)
    requires ClockIsMonotone(log) && Steady(id, log, Once(due)) && i < |Dispatches(id, log)|
    ensures due == Dispatches(id, log)[i].target <= Dispatches(id, log)[i].at
  {
    TargetsAreFireTimes(id, log, Once(due));
    DispatchedInThePast(id, log);
    assert FireTime(Once(due), Dispatches(id, log)[i].target);
  }

  // ----- what a job tells about its history -----

  datatype Card = Card(status: JobStatus, lastRunAt: Option<Instant>, lastError: Option<string>)

  /** Status, last run and last complaint as the commands and the dispatches since the job was
      added leave them. */
  function CardOf(id: string, log: seq<Timed>): Option<Card> {
    if log == [] then None
    else
      var before, c := log[..|log| - 1], log[|log| - 1];
      var card := CardOf(id, before);
      match c.cmd
      case Add(job, _) => if job.id == id then Some(Card(Scheduled, job.lastRunAt, job.lastError)) else card
      case Remove(i) => if i == id then None else card
      case UpdateStatus(i, status, detail, _) =>
        if i != id || card == None then card
        else Some(Card(status, card.value.lastRunAt,
                       if status in {Failed, ApprovalRequired} then detail else None))
      case Tick =>
        if |Dispatches(id, log)| > |Dispatches(id, before)| then Some(Card(Dispatched, Some(c.at), None)) else card
  }

  /** Status, last run and last error of a job say just that. */
  lemma {:induction false} JobTellsHistory(id: string, log: seq<Timed>)
    ensures var job := Play(id, log).job;
      && (job.Some? <==> CardOf(id, log).Some?)
      && (job.Some? ==> CardOf(id, log).value == Card(job.value.status, job.value.lastRunAt, job.value.lastError))
  {
    if log != [] {
      var before, c := log[..|log| - 1], log[|log| - 1];
      JobTellsHistory(id, before);
      hide Target, NextFire;
    }
  }

  const AUDIT_NAMES: map<JobStatus, string> := map[
    Scheduled := "scheduled", Dispatched := "dispatched", Completed := "completed", Failed := "failed",
    ApprovalRequired := "approval_required"]

  /** The entries that the commands and the dispatches since the job was added leave in its audit log:
      one for the job's being added unless it brings a log, one for each status set, one for each dispatch. */
  function AuditOf(id: string, log: seq<Timed>): seq<AuditEntry> {
    if log == [] then []
    else
      var before, c := log[..|log| - 1], log[|log| - 1];
      var audit := AuditOf(id, before);
      match c.cmd
      case Add(job, note) =>
        if job.id != id then audit
        else if job.audit != [] then job.audit else [AuditEntry(c.at, AUDIT_NAMES[Scheduled], Some(note))]
      case Remove(i) => if i == id then [] else audit
      case UpdateStatus(i, status, detail, stamp) =>
        if i == id && CardOf(id, before).Some? && status in AUDIT_NAMES
        then audit + [AuditEntry(stamp, AUDIT_NAMES[status], detail)] else audit
      case Tick =>
        if |Dispatches(id, log)| > |Dispatches(id, before)|
        then audit + [AuditEntry(c.at, AUDIT_NAMES[Dispatched], None)] else audit
  }

  lemma NamesAreAudited(status: JobStatus)
    ensures status in AUDIT_NAMES && AUDIT_NAMES[status] == StatusName(status)
  {
  }

  /** The audit log of a job holds just these entries. */
  lemma {:induction false} AuditTellsHistory(id: string, log: seq<Timed>)
    ensures AuditOf(id, log) == if Play(id, log).job.Some? then Play(id, log).job.value.audit else []
  {
    if log != [] {
      var before, c := log[..|log| - 1], log[|log| - 1];
      AuditTellsHistory(id, before);
      JobTellsHistory(id, before);
      NamesAreAudited(Scheduled);
      NamesAreAudited(Dispatched);
      if c.cmd.UpdateStatus? {
        NamesAreAudited(c.cmd.status);
      }
      hide Target, NextFire, AUDIT_NAMES, CardOf;
    }
  }

  /** Nothing is ever struck from the audit log of a job, short of removing or re-adding the job. */
  lemma {:induction false} AuditGrows(id: string, log: seq<Timed>, tail: seq<Timed>)
    requires Play(id, log).job.Some?
    requires forall i :: 0 <= i < |tail| ==> !AddsJob(tail[i], id) && tail[i].cmd != Remove(id)
    ensures Play(id, log + tail).job.Some?
    ensures Play(id, log).job.value.audit <= Play(id, log + tail).job.value.audit
    decreases |tail|
  {
    if tail == [] {
      assert log + tail == log;
    } else {
      var c, shorter := tail[|tail| - 1], tail[..|tail| - 1];
      AuditGrows(id, log, shorter);
      assert log + tail == log + shorter + [c];
      PlayAppend(id, log + shorter, c);
      hide Target, NextFire, Play;
      assert !AddsJob(c, id);
    }
  }
}
