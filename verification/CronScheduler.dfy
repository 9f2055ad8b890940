/** The cron scheduler: jobs, a lazily filled table of next fires, and commands.

    Jobs do not influence one another, so the state splits into one `Slot` per job id. */
module CronScheduler {
  import opened Common
  import opened Schedule

  datatype JobStatus = Scheduled | Dispatched | Completed | Failed | ApprovalRequired

  datatype AuditEntry = AuditEntry(at: Instant, event: string, detail: Option<string>)

  datatype Job = Job(
    id: string,
    prompt: string,
    schedule: ScheduleSpec,
    status: JobStatus,
    lastRunAt: Option<Instant>,
    lastError: Option<string>,
    audit: seq<AuditEntry>)

  datatype Slot = Slot(job: Option<Job>, next: Option<Instant>)

  const EMPTY_SLOT := Slot(None, None)

  datatype PromptEvent = PromptEvent(jobId: string, prompt: string)

  datatype Command =
    | Tick
    | Add(job: Job, note: string)
    | Remove(id: string)
    | UpdateStatus(id: string, status: JobStatus, detail: Option<string>, stamp: Instant)

  datatype Timed = Timed(at: Instant, cmd: Command)

  // ----- one slot -----

  function Admit(job: Job, detail: string, now: Instant): Job {
    job.(status := Scheduled,
         audit := if job.audit == [] then [AuditEntry(now, "scheduled", Some(detail))] else job.audit)
  }

  function StatusName(status: JobStatus): string {
    match status
    case Scheduled => "scheduled"
    case Dispatched => "dispatched"
    case Completed => "completed"
    case Failed => "failed"
    case ApprovalRequired => "approval_required"
  }

  function Updated(job: Job, status: JobStatus, detail: Option<string>, stamp: Instant): Job {
    job.(status := status,
         lastError := if status.Failed? || status.ApprovalRequired? then detail else None,
         audit := job.audit + [AuditEntry(stamp, StatusName(status), detail)])
  }

  /** Jobs a tick passes over: in flight, waiting for a human, or one-shots that are done. */
  predicate PassedOver(job: Job) {
    || job.status.Dispatched? || job.status.ApprovalRequired?
    || (job.schedule.IsOnce() && (job.status.Completed? || job.status.Failed?))
  }

  function Target(slot: Slot, now: Instant): Instant
    requires slot.job.Some?
  {
    if slot.next.Some? then slot.next.value else NextFire(slot.job.value.schedule, now)
  }

  predicate Fires(slot: Slot, now: Instant) {
    slot.job.Some? && !PassedOver(slot.job.value) && Target(slot, now) <= now
  }

  /** The time a job is booked for, or the time computed now for a job that is not booked. */
  function Booking(slot: Slot, now: Instant): Instant
    requires slot.job.Some?
  {
    match slot.next
    case Some(t) => t
    case None => NextFire(slot.job.value.schedule, now)
  }

  /** The job is neither in flight nor waiting for a human, a one-shot is still to run, and the
      booked time has come. */
  predicate IsDue(slot: Slot, now: Instant) {
    && slot.job.Some?
    && slot.job.value.status != Dispatched && slot.job.value.status != ApprovalRequired
    && (slot.job.value.schedule.Once? ==> slot.job.value.status == Scheduled)
    && Booking(slot, now) <= now
  }

  lemma FiresWhenDue(slot: Slot, now: Instant)
    ensures Fires(slot, now) <==> IsDue(slot, now)
    ensures slot.job.Some? ==> Target(slot, now) == Booking(slot, now)
  {
    if slot.job.Some? {
      match slot.job.value.status {
        case Scheduled =>
        case Dispatched =>
        case Completed =>
        case Failed =>
        case ApprovalRequired =>
      }
    }
  }

  function Fired(job: Job, now: Instant): Job {
    job.(status := Dispatched, lastError := None, lastRunAt := Some(now),
         audit := job.audit + [AuditEntry(now, "dispatched", None)])
  }

  function TickSlot(slot: Slot, now: Instant): Slot {
    if slot.job.None? || PassedOver(slot.job.value) then slot
    else if !Fires(slot, now) then slot.(next := Some(Target(slot, now)))
    else
      var job := slot.job.value;
      Slot(Some(Fired(job, now)),
           if job.schedule.IsOnce() then None else Some(NextFire(job.schedule, now)))
  }

  function Apply(slot: Slot, id: string, c: Timed): Slot {
    match c.cmd
    case Tick => TickSlot(slot, c.at)
    case Add(job, detail) => if job.id == id then Slot(Some(Admit(job, detail, c.at)), None) else slot
    case Remove(i) => if i == id then EMPTY_SLOT else slot
    case UpdateStatus(i, status, detail, stamp) =>
      if i == id && slot.job.Some? then slot.(job := Some(Updated(slot.job.value, status, detail, stamp))) else slot
  }

  /** The slot of `id` after a log of commands. */
  function Play(id: string, log: seq<Timed>): Slot {
    if log == [] then EMPTY_SLOT else Apply(Play(id, log[..|log| - 1]), id, log[|log| - 1])
  }

  // ----- the scheduler -----

  class CronScheduler {
    var jobs: map<string, Job>
    var nextFires: map<string, Instant>
    ghost var log: seq<Timed>

    ghost function SlotOf(id: string): Slot
      reads this`jobs, this`nextFires
    {
      Slot(if id in jobs then Some(jobs[id]) else None,
           if id in nextFires then Some(nextFires[id]) else None)
    }

    ghost predicate Valid()
      reads this
    {
      && (forall id :: id in jobs ==> jobs[id].id == id)
      && (forall id :: SlotOf(id) == Play(id, log))
    }

    constructor ()
      ensures Valid() && log == []
    {
      jobs, nextFires, log := map[], map[], [];
    }

    method AddJob(job: Job, detail: string, now: Instant)
      requires Valid()
      modifies this
      ensures Valid() && log == old(log) + [Timed(now, Add(job, detail))]
    {
      var admitted := job;
      if admitted.audit == [] {
        admitted := admitted.(audit := [AuditEntry(now, "scheduled", Some(detail))]);
      }
      admitted := admitted.(status := Scheduled);
      jobs := jobs[job.id := admitted];
      nextFires := nextFires - {job.id};
      log := log + [Timed(now, Add(job, detail))];
      assert log[..|log| - 1] == old(log);
    }

    method RemoveJob(id: string, now: Instant)
      requires Valid()
      modifies this
      ensures Valid() && log == old(log) + [Timed(now, Remove(id))]
    {
      jobs := jobs - {id};
      nextFires := nextFires - {id};
      log := log + [Timed(now, Remove(id))];
      assert log[..|log| - 1] == old(log);
    }

    method UpdateJobStatus(id: string, status: JobStatus, detail: Option<string>, stamp: Instant, ghost now: Instant)
      requires Valid()
      modifies this
      ensures Valid() && log == old(log) + [Timed(now, UpdateStatus(id, status, detail, stamp))]
    {
      if id in jobs {
        var job := jobs[id].(status := status);
        if status.Failed? || status.ApprovalRequired? {
          job := job.(lastError := detail);
        } else {
          job := job.(lastError := None);
        }
        jobs := jobs[id := job.(audit := job.audit + [AuditEntry(stamp, StatusName(status), detail)])];
      }
      log := log + [Timed(now, UpdateStatus(id, status, detail, stamp))];
      assert log[..|log| - 1] == old(log);
    }

    /** One job of a tick. */
    method DueEvent(id: string, now: Instant) returns (event: Option<PromptEvent>)
      requires id in jobs
      modifies this`jobs, this`nextFires
      ensures SlotOf(id) == TickSlot(old(SlotOf(id)), now)
      ensures jobs.Keys == old(jobs).Keys && forall i :: i in jobs ==> jobs[i].id == old(jobs)[i].id
      ensures forall other :: other != id ==> SlotOf(other) == old(SlotOf(other))
      ensures event == if IsDue(old(SlotOf(id)), now)
                       then Some(PromptEvent(old(jobs)[id].id, old(jobs)[id].prompt)) else None
    {
      FiresWhenDue(SlotOf(id), now);
      var job := jobs[id];
      if job.status.Dispatched? || job.status.ApprovalRequired? {
        return None;
      }
      if job.schedule.IsOnce() && (job.status.Completed? || job.status.Failed?) {
        return None;
      }
      var target: Instant;
      if id in nextFires {
        target := nextFires[id];
      } else {
        target := ComputeNextFire(job.schedule, now);
        nextFires := nextFires[id := target];
      }
      if now < target {
        return None;
      }
      jobs := jobs[id := Fired(job, now)];
      if job.schedule.IsOnce() {
        nextFires := nextFires - {id};
      } else {
        var next := ComputeNextFire(job.schedule, now);
        nextFires := nextFires[id := next];
      }
      event := Some(PromptEvent(job.id, job.prompt));
    }

    /** A tick: every due job is dispatched, in whatever order the table of jobs is walked. */
    method DueEventsNow(now: Instant) returns (events: seq<PromptEvent>)
      requires Valid()
      modifies this
      ensures Valid() && log == old(log) + [Timed(now, Tick)]
      ensures forall i, j :: 0 <= i < j < |events| ==> events[i].jobId != events[j].jobId
      ensures forall id, prompt :: PromptEvent(id, prompt) in events <==>
        IsDue(Play(id, old(log)), now) && Play(id, old(log)).job.value.prompt == prompt
    {
      events := [];
      var todo := jobs.Keys;
      ghost var done: set<string>, before := {}, map id | id in jobs :: SlotOf(id);
      NothingReported(before, now);
      hide Play, TickSlot, IsDue, Reported, SlotOf;
      while todo != {}
        invariant todo !! done && todo + done == jobs.Keys == before.Keys && log == old(log)
        invariant forall id :: id in jobs ==> jobs[id].id == id
        invariant forall id :: id in todo ==> SlotOf(id) == before[id]
        invariant forall id :: id !in jobs ==> SlotOf(id) == old(SlotOf(id))
        invariant forall id :: id in done ==> SlotOf(id) == TickSlot(before[id], now)
        invariant Reported(events, done, before, now)
      {
        var id :| id in todo;
        assert Some(jobs[id]) == SlotOf(id).job by { JobOf(id); }
        var event := DueEvent(id, now);
        ReportedNext(events, done, before, now, id, event);
        todo, done := todo - {id}, done + {id};
        if event.Some? {
          events := events + [event.value];
        }
      }
      ReportedAll(events, done, before, now);
      log := log + [Timed(now, Tick)];
      forall id
        ensures SlotOf(id) == Play(id, log)
        ensures id !in jobs ==> !IsDue(old(SlotOf(id)), now)
      {
        JobOf(id);
        PlayAppend(id, old(log), Timed(now, Tick));
        NoJobNoFire(old(SlotOf(id)), now);
      }
    }

    lemma JobOf(id: string)
      ensures SlotOf(id).job == if id in jobs then Some(jobs[id]) else None
    {
    }
  }

  predicate Reports(event: Option<PromptEvent>, id: string, slot: Slot, now: Instant) {
    event == if IsDue(slot, now) then Some(PromptEvent(id, slot.job.value.prompt)) else None
  }

  /** One event for each slot in `done` that is due, and no other event. */
  ghost predicate Reported(events: seq<PromptEvent>, done: set<string>, slots: map<string, Slot>, now: Instant) {
    && (forall i, j :: 0 <= i < j < |events| ==> events[i].jobId != events[j].jobId)
    && (forall e <- events :: e.jobId in done)
    && (forall id, prompt :: PromptEvent(id, prompt) in events <==>
          id in done && id in slots && IsDue(slots[id], now) && slots[id].job.value.prompt == prompt)
  }

  lemma NothingReported(slots: map<string, Slot>, now: Instant)
    ensures Reported([], {}, slots, now)
  {
  }

  lemma ReportedNext(events: seq<PromptEvent>, done: set<string>, slots: map<string, Slot>, now: Instant,
                     id: string, event: Option<PromptEvent>)
    requires Reported(events, done, slots, now) && id !in done && id in slots
    requires Reports(event, id, slots[id], now)
    ensures Reported(if event.Some? then events + [event.value] else events, done + {id}, slots, now)
  {
    hide IsDue;
  }

  lemma ReportedAll(events: seq<PromptEvent>, done: set<string>, slots: map<string, Slot>, now: Instant)
    requires Reported(events, done, slots, now) && done == slots.Keys
    ensures forall i, j :: 0 <= i < j < |events| ==> events[i].jobId != events[j].jobId
    ensures forall id, prompt :: PromptEvent(id, prompt) in events <==>
      id in slots && IsDue(slots[id], now) && slots[id].job.value.prompt == prompt
  {
    hide IsDue;
  }

  lemma PlayAppend(id: string, log: seq<Timed>, c: Timed)
    ensures Play(id, log + [c]) == Apply(Play(id, log), id, c)
  {
    assert (log + [c])[..|log + [c]| - 1] == log;
  }

  lemma NoJobNoFire(slot: Slot, now: Instant)
    ensures slot.job.None? ==> !Fires(slot, now) && !IsDue(slot, now) && TickSlot(slot, now) == slot
  {
  }
}
