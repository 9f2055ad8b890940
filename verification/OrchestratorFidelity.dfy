/** Every entry of a run's record is what the environment said at that very point: no decision,
    execution or middleware verdict is invented, skipped over or taken from another moment, and
    nothing happens past a stop flag or a steering command that the loop has just looked at. */
module OrchestratorFidelity {
  import opened Common
  import opened Orchestrator
  import opened OrchestratorSafety

  /** The outer loop may ask the model: the stop flag is down and no abort is pending. After a
      pivot it has looked at both before taking note of the pivot. */
  ghost predicate MayAsk(host: Host, t: Trace) {
    || (!host.estop(t) && host.steering(t) == None)
    || (t != [] && t[|t| - 1] == Pivoted
        && !host.estop(t[..|t| - 1]) && host.steering(t[..|t| - 1]) == Some(Pivot))
  }

  /** A batch was started at `j`, and since then nothing happened but that its first calls were
      executed, or discarded. */
  ghost predicate Midway(t: Trace, j: int, discarding: bool) {
    && 0 <= j < |t| && t[j].BatchStarted?
    && (forall k :: j < k < |t| ==> if discarding then t[k].Discarded? else t[k].Executed?)
    && |t| - j - 1 <= |t[j].batch|
  }

  /** The calls of the batch under way that are still to come. */
  ghost function Remaining(t: Trace, j: int, discarding: bool): seq<ToolCall>
    requires Midway(t, j, discarding)
  {
    t[j].batch[|t| - j - 1..]
  }

  ghost predicate NextCall(t: Trace, j: int, discarding: bool, call: ToolCall) {
    && Midway(t, j, discarding)
    && Remaining(t, j, discarding) != [] && Remaining(t, j, discarding)[0] == call
  }

  /** A parallel batch runs when nothing interrupted it; a serial batch, when no command is pending now. */
  ghost predicate Undisturbed(host: Host, t: Trace, j: int)
    requires Midway(t, j, false)
  {
    if RunsInParallel(host, t[j].batch) then host.interrupt(t[..j + 1]) == None else host.steering(t) == None
  }

  /** The call is the next one of the batch under way, which is free to go on. */
  ghost predicate MayExecute(host: Host, t: Trace, call: ToolCall) {
    exists j :: NextCall(t, j, false, call) && Undisturbed(host, t, j)
  }

  /** The batch at `j` is a parallel one that was interrupted after it had started. */
  ghost predicate Interrupted(host: Host, t: Trace, j: int)
    requires 0 <= j < |t| && t[j].BatchStarted?
  {
    RunsInParallel(host, t[j].batch)
    && match host.interrupt(t[..j + 1])
       case None => false
       case Some(i) => i.started
  }

  ghost predicate MayDiscard(host: Host, t: Trace, call: ToolCall) {
    exists j :: NextCall(t, j, true, call) && Interrupted(host, t, j)
  }

  /** A round has started and so far did nothing but screen its calls. */
  ghost predicate Screened(t: Trace) {
    exists j :: 0 <= j < |t| && ScreenedSince(t, j)
  }

  ghost predicate ScreenedSince(t: Trace, j: int)
    requires 0 <= j < |t|
  {
    t[j].RoundStarted? && forall k :: j < k < |t| ==> t[k].Admitted?
  }

  /** The event is what the environment says after `t`. */
  ghost predicate Fits(host: Host, t: Trace, e: Event) {
    match e
    case Decision(Initial, reply) => reply == host.decide(t) && MayAsk(host, t)
    case Decision(FollowUp, reply) => reply == host.decide(t)
    case Admitted(call) => host.before(t, call) == None
    case Executed(call, result) => result == host.execute(t, call) && MayExecute(host, t, call)
    case Discarded(call) => MayDiscard(host, t, call)
    case Recorded(call) => host.after(t, call) == None
    case BatchStarted(batch) => batch != [] && Screened(t)
    case _ => true
  }

  ghost predicate Faithful(host: Host, t: Trace, t': Trace) {
    t <= t' && forall i :: |t| <= i < |t'| ==> Fits(host, t'[..i], t'[i])
  }

  lemma FaithfulChain(host: Host, t: Trace, t': Trace, t'': Trace)
    requires Faithful(host, t, t') && Faithful(host, t', t'')
    ensures Faithful(host, t, t'')
  {
    hide Fits;
    forall i | |t| <= i < |t''| ensures Fits(host, t''[..i], t''[i]) {
      if i < |t'| {
        assert t''[..i] == t'[..i] && t''[i] == t'[i];
      }
    }
  }

  lemma FaithfulNext(host: Host, t: Trace, e: Event)
    requires Fits(host, t, e)
    ensures Faithful(host, t, t + [e])
  {
    hide Fits;
    assert (t + [e])[..|t|] == t;
  }

  lemma FaithfulFrom(host: Host, t: Trace, e: Event, t': Trace)
    requires Fits(host, t, e) && Faithful(host, t + [e], t')
    ensures Faithful(host, t, t')
  {
    hide Fits, Faithful;
    FaithfulNext(host, t, e);
    FaithfulChain(host, t, t + [e], t');
  }

  lemma FaithfulSame(host: Host, t: Trace)
    ensures Faithful(host, t, t)
  {
  }

  // ----- the parts of a round -----

  lemma {:induction false} ScreenGenericFaithful(host: Host, t: Trace, calls: seq<ToolCall>, invalid: bool,
                                                 batch: seq<ToolCall>)
    ensures Faithful(host, t, ScreenGeneric(host, t, calls, invalid, batch).0)
    decreases |calls|
  {
    hide Faithful;
    FaithfulSame(host, t);
    if calls != [] {
      var call, rest := calls[0], calls[1..];
      if call.name in HUMAN_GATED {
      } else if call.name == REGISTRY_TOOL {
        ScreenGenericFaithful(host, t, rest, invalid, batch + [call]);
      } else if !PassesSchema(host, call) {
        ScreenGenericFaithful(host, t, rest, true, batch);
      } else if host.before(t, call).None? {
        ScreenGenericFaithful(host, t + [Admitted(call)], rest, invalid, batch + [call]);
        FaithfulFrom(host, t, Admitted(call), ScreenGeneric(host, t, calls, invalid, batch).0);
      }
    }
  }

  lemma {:induction false} ScreenDynamicFaithful(host: Host, t: Trace, calls: seq<ToolCall>, batch: seq<ToolCall>)
    requires host.mode.Dynamic?
    ensures Faithful(host, t, ScreenDynamic(host, t, calls, batch).0)
    decreases |calls|
  {
    hide Faithful;
    FaithfulSame(host, t);
    if calls != [] {
      var call, rest := calls[0], calls[1..];
      if call.name == REGISTRY_TOOL {
        if !host.mode.registryEmpty {
          ScreenDynamicFaithful(host, t, rest, batch);
        }
      } else if call.name in HUMAN_GATED {
      } else if host.before(t, call).None? {
        ScreenDynamicFaithful(host, t + [Admitted(call)], rest, batch + [call]);
        FaithfulFrom(host, t, Admitted(call), ScreenDynamic(host, t, calls, batch).0);
      }
    }
  }

  /** One call less remains of the batch under way. */
  lemma MidwayNext(t: Trace, j: int, discarding: bool, e: Event)
    requires Midway(t, j, discarding) && Remaining(t, j, discarding) != []
    requires if discarding then e.Discarded? else e.Executed?
    ensures Midway(t + [e], j, discarding)
    ensures Remaining(t + [e], j, discarding) == Remaining(t, j, discarding)[1..]
    ensures (t + [e])[j] == t[j] && (t + [e])[..j + 1] == t[..j + 1]
  {
  }

  lemma {:induction false} ParallelFaithful(host: Host, t: Trace, batch: seq<ToolCall>, done: Resolved, j: int)
    requires Midway(t, j, false) && batch == Remaining(t, j, false)
    requires RunsInParallel(host, t[j].batch) && host.interrupt(t[..j + 1]) == None
    ensures Faithful(host, t, ExecuteParallel(host, t, batch, done).0)
    decreases |batch|
  {
    hide Faithful, Midway, Remaining;
    FaithfulSame(host, t);
    if batch != [] {
      var result := host.execute(t, batch[0]);
      var e := Executed(batch[0], result);
      assert NextCall(t, j, false, batch[0]) && Undisturbed(host, t, j);
      MidwayNext(t, j, false, e);
      ParallelFaithful(host, t + [e], batch[1..], done + [(batch[0], result)], j);
      FaithfulFrom(host, t, e, ExecuteParallel(host, t, batch, done).0);
    }
  }

  lemma {:induction false} DiscardFaithful(host: Host, t: Trace, batch: seq<ToolCall>, j: int)
    requires Midway(t, j, true) && batch == Remaining(t, j, true) && Interrupted(host, t, j)
    ensures Faithful(host, t, DiscardAll(t, batch))
    decreases |batch|
  {
    hide Faithful, Midway, Remaining;
    FaithfulSame(host, t);
    if batch != [] {
      var e := Discarded(batch[0]);
      assert NextCall(t, j, true, batch[0]);
      MidwayNext(t, j, true, e);
      DiscardFaithful(host, t + [e], batch[1..], j);
      FaithfulFrom(host, t, e, DiscardAll(t, batch));
    }
  }

  lemma {:induction false} SerialFaithful(host: Host, t: Trace, batch: seq<ToolCall>, done: Resolved, j: int)
    requires Midway(t, j, false) && batch == Remaining(t, j, false) && !RunsInParallel(host, t[j].batch)
    ensures Faithful(host, t, ExecuteSerial(host, t, batch, done).0)
    decreases |batch|
  {
    hide Faithful, Midway, Remaining;
    FaithfulSame(host, t);
    if batch != [] {
      match host.steering(t) {
        case Some(Abort) =>
        case Some(Pivot) => FaithfulNext(host, t, Pivoted);
        case None =>
          var result := host.execute(t, batch[0]);
          var e := Executed(batch[0], result);
          assert NextCall(t, j, false, batch[0]) && Undisturbed(host, t, j);
          MidwayNext(t, j, false, e);
          SerialFaithful(host, t + [e], batch[1..], done + [(batch[0], result)], j);
          FaithfulFrom(host, t, e, ExecuteSerial(host, t, batch, done).0);
      }
    }
  }

  lemma BatchBegins(t: Trace, batch: seq<ToolCall>, discarding: bool)
    ensures var t1 := t + [BatchStarted(batch)];
      && Midway(t1, |t|, discarding) && Remaining(t1, |t|, discarding) == batch
      && t1[..|t| + 1] == t1 && t1[|t|] == BatchStarted(batch)
  {
  }

  lemma ExecuteFaithful(host: Host, t: Trace, batch: seq<ToolCall>)
    requires batch != [] && Screened(t)
    ensures Faithful(host, t, Execute(host, t, batch).0)
  {
    var t1 := t + [BatchStarted(batch)];
    BatchBegins(t, batch, false);
    BatchBegins(t, batch, true);
    hide Faithful, Midway, Remaining, Screened;
    FaithfulSame(host, t1);
    if RunsInParallel(host, batch) {
      match host.interrupt(t1) {
        case None => ParallelFaithful(host, t1, batch, [], |t|);
        case Some(i) =>
          if i.started {
            DiscardFaithful(host, t1, batch, |t|);
          }
          var t' := if i.started then DiscardAll(t1, batch) else t1;
          FaithfulNext(host, t', Pivoted);
          FaithfulChain(host, t1, t', t' + [Pivoted]);
      }
    } else {
      SerialFaithful(host, t1, batch, [], |t|);
    }
    FaithfulFrom(host, t, BatchStarted(batch), Execute(host, t, batch).0);
  }

  lemma {:induction false} AbsorbFaithful(host: Host, t: Trace, results: Resolved, executed: seq<(string, string)>)
    ensures Faithful(host, t, Absorb(host, t, results, executed).0)
    decreases |results|
  {
    hide Faithful;
    FaithfulSame(host, t);
    if results != [] {
      var (call, result) := results[0];
      var output := match result
        case Success(text) => text
        case Failure(e) => if e.ToolError? then FailureText(call, e.message) else "";
      if Absorb(host, t, results, executed) == Keep(host, t, results, executed, output) && host.after(t, call).None? {
        AbsorbFaithful(host, t + [Recorded(call)], results[1..], executed + [(call.name, output)]);
        FaithfulFrom(host, t, Recorded(call), Absorb(host, t, results, executed).0);
      }
    }
  }

  // ----- steps -----

  lemma StepResultsFaithful(host: Host, s: State, results: Resolved)
    ensures Faithful(host, s.trace, StepResults(host, s, results).trace)
  {
    var t := Absorb(host, s.trace, results, []).0;
    ResultsTrace(host, s, results);
    AbsorbFaithful(host, s.trace, results, []);
    hide Absorb, StepResults, Faithful;
    var e := Decision(FollowUp, host.decide(t));
    FaithfulNext(host, t, e);
    FaithfulChain(host, s.trace, t, t + [e]);
  }

  lemma StepBatchFaithful(host: Host, s: State, batch: seq<ToolCall>)
    requires Screened(s.trace)
    ensures Faithful(host, s.trace, StepBatch(host, s, batch).trace)
  {
    hide Faithful, Execute, StepResults, Screened;
    if batch == [] {
      FaithfulNext(host, s.trace, Corrected);
    } else {
      var (t, resolved) := Execute(host, s.trace, batch);
      ExecuteFaithful(host, s.trace, batch);
      if resolved.Success? && resolved.value != [] {
        StepResultsFaithful(host, s.(trace := t), resolved.value);
        FaithfulChain(host, s.trace, t, StepBatch(host, s, batch).trace);
      }
    }
  }

  lemma ScreenFaithful(host: Host, t: Trace, calls: seq<ToolCall>)
    ensures Faithful(host, t, Screen(host, t, calls).0)
  {
    hide Faithful;
    if host.mode.Generic? {
      ScreenGenericFaithful(host, t, calls, false, []);
    } else {
      ScreenDynamicFaithful(host, t, calls, []);
    }
  }

  lemma StepHandleFaithful(host: Host, s: State, calls: seq<ToolCall>)
    requires s.control == Handle(calls)
    ensures Faithful(host, s.trace, StepHandle(host, s, calls).trace)
  {
    var t0 := s.trace + [RoundStarted];
    var (t, verdict) := Screen(host, t0, calls);
    var r := StepHandle(host, s, calls);
    RoundCases(host, s, calls);
    ScreenShape(host, t0, calls);
    assert Screened(t) by { assert t[|s.trace|] == t0[|s.trace|] && ScreenedSince(t, |s.trace|); }
    hide Faithful, StepHandle, StepBatch, Screen, Screened;
    FaithfulSame(host, s.trace);
    ScreenFaithful(host, t0, calls);
    FaithfulFrom(host, s.trace, RoundStarted, t);
    FaithfulNext(host, t, Corrected);
    FaithfulChain(host, s.trace, t, t + [Corrected]);
    if r.trace != s.trace && r.trace != t && r.trace != t + [Corrected] {
      StepBatchFaithful(host, s.(rounds := s.rounds + 1, trace := t), verdict.batch);
      FaithfulChain(host, s.trace, t, r.trace);
    }
  }

  lemma AskTrace(host: Host, s: State)
    ensures var r := StepAsk(host, s).trace;
      var t := if host.steering(s.trace) == Some(Pivot) then s.trace + [Pivoted] else s.trace;
      var t1 := t + [Decision(Initial, host.decide(t))];
      || r == s.trace
      || (!host.estop(s.trace) && host.steering(s.trace) != Some(Abort)
          && (r == t1 || r == t1 + [RoundStarted, Corrected]))
  {
  }

  lemma KnownSteering(cmd: Option<SteeringCommand>)
    ensures cmd == None || cmd == Some(Pivot) || cmd == Some(Abort)
  {
    match cmd
    case None =>
    case Some(c) => assert c.Pivot? || c.Abort?;
  }

  lemma StepAskFaithful(host: Host, s: State)
    ensures Faithful(host, s.trace, StepAsk(host, s).trace)
  {
    AskTrace(host, s);
    hide StepAsk, Faithful;
    var r := StepAsk(host, s).trace;
    FaithfulSame(host, s.trace);
    if r != s.trace {
      var t := if host.steering(s.trace) == Some(Pivot) then s.trace + [Pivoted] else s.trace;
      var e := Decision(Initial, host.decide(t));
      var t1 := t + [e];
      if host.steering(s.trace) == Some(Pivot) {
        FaithfulNext(host, s.trace, Pivoted);
        assert t[..|t| - 1] == s.trace;
        assert MayAsk(host, t);
      } else {
        KnownSteering(host.steering(t));
        assert MayAsk(host, t);
      }
      FaithfulNext(host, t, e);
      FaithfulChain(host, s.trace, t, t1);
      FaithfulNext(host, t1, RoundStarted);
      FaithfulNext(host, t1 + [RoundStarted], Corrected);
      FaithfulChain(host, t1, t1 + [RoundStarted], t1 + [RoundStarted] + [Corrected]);
      assert t1 + [RoundStarted] + [Corrected] == t1 + [RoundStarted, Corrected];
      FaithfulChain(host, s.trace, t1, t1 + [RoundStarted, Corrected]);
    }
  }

  // ----- runs -----

  lemma {:induction false} RunFromFaithful(host: Host, s: State)
    ensures Faithful(host, s.trace, RunFrom(host, s).trace)
    decreases Fuel(host, s), if s.control.Done? then 0 else 1
  {
    hide Faithful, StepAsk, StepHandle;
    FaithfulSame(host, s.trace);
    if !s.control.Done? {
      var r := Step(host, s);
      if s.control.Ask? {
        StepAskFaithful(host, s);
      } else {
        StepHandleFaithful(host, s, s.control.calls);
      }
      if !r.control.Done? {
        RunFromFaithful(host, r);
        FaithfulChain(host, s.trace, r.trace, RunFrom(host, s).trace);
      }
    }
  }

  /** The record of every run is faithful from beginning to end. */
  lemma RunIsFaithful(host: Host)
    ensures var t := Run(host).trace;
      forall i :: 0 <= i < |t| ==> Fits(host, t[..i], t[i])
  {
    RunFromFaithful(host, START);
  }

  // ----- admission -----

  /** The middlewares let the call in after the last `RoundStarted` before position `i`. */
  ghost predicate AdmittedThisRound(t: Trace, i: nat, call: ToolCall)
    requires i <= |t|
  {
    exists j :: 0 <= j < i && t[j] == Admitted(call) && NoRoundStarts(t, j, i)
  }

  ghost predicate NoRoundStarts(t: Trace, j: nat, i: nat)
    requires j <= i <= |t|
  {
    forall k :: j <= k < i ==> !t[k].RoundStarted?
  }

  /** Nothing reaches the executor unless the middlewares admitted it in the same round; the
      registry search, which they do not see, is the exception. */
  ghost predicate AllAdmitted(t: Trace) {
    forall i :: 0 <= i < |t| && RanBy(t[i]).Some? && RanBy(t[i]).value.name != REGISTRY_TOOL ==>
      AdmittedThisRound(t, i, RanBy(t[i]).value)
  }

  /** Screening itself runs nothing. */
  lemma ScreenRunsNothing(t0: Trace, t: Trace, r: Trace)
    requires t0 <= t <= r && forall k :: |t0| <= k < |t| ==> t[k].Admitted?
    ensures forall k :: |t0| <= k < |t| ==> RanBy(r[k]).None?
    ensures r == t + [Corrected] ==> forall k :: |t0| <= k < |r| ==> RanBy(r[k]).None?
  {
    assert forall k :: 0 <= k < |t| ==> r[k] == t[k];
  }

  lemma RoundAdmits(host: Host, s: State, calls: seq<ToolCall>, i: nat)
    requires s.control == Handle(calls)
    requires |s.trace| < i < |StepHandle(host, s, calls).trace|
    requires var e := StepHandle(host, s, calls).trace[i];
      RanBy(e).Some? && RanBy(e).value.name != REGISTRY_TOOL
    ensures var t := StepHandle(host, s, calls).trace;
      exists j :: |s.trace| < j < i && t[j] == Admitted(RanBy(t[i]).value)
  {
    var t0 := s.trace + [RoundStarted];
    var (t, verdict) := Screen(host, t0, calls);
    var r := StepHandle(host, s, calls).trace;
    RoundCases(host, s, calls);
    ScreenShape(host, t0, calls);
    ScreenedBatch(host, t0, calls);
    hide StepHandle, StepBatch, Screen, Executable, NothingObjectionable;
    if r == t || r == t + [Corrected] {
      ScreenRunsNothing(t0, t, r);
    } else {
      var _ := BatchShape(host, calls, s.(rounds := s.rounds + 1, trace := t));
      LegalExtends(host, calls, t, r);
      ScreenRunsNothing(t0, t, r);
      assert Legal(host, calls, r[i]);
      var call := RanBy(r[i]).value;
      assert AdmittedSince(|t0|, t, call);
      var j :| |t0| <= j < |t| && t[j] == Admitted(call);
      assert r[j] == t[j];
    }
  }

  lemma RoundStartsOnce(host: Host, s: State, calls: seq<ToolCall>, k: nat)
    requires s.control == Handle(calls)
    requires |s.trace| < k < |StepHandle(host, s, calls).trace|
    ensures !StepHandle(host, s, calls).trace[k].RoundStarted?
  {
    var _ := RoundShape(host, s, calls);
    hide StepHandle, Ran, Executable, NothingObjectionable;
    assert Legal(host, calls, StepHandle(host, s, calls).trace[k]);
  }

  lemma AdmissionKept(t: Trace, t': Trace, i: nat, call: ToolCall)
    requires t <= t' && i <= |t| && AdmittedThisRound(t, i, call)
    ensures AdmittedThisRound(t', i, call)
  {
    var j :| 0 <= j < i && t[j] == Admitted(call) && NoRoundStarts(t, j, i);
    assert t'[j] == t[j] && NoRoundStarts(t', j, i);
  }

  lemma StepAdmits(host: Host, s: State)
    requires !s.control.Done? && AllAdmitted(s.trace)
    ensures AllAdmitted(Step(host, s).trace)
  {
    var r := Step(host, s).trace;
    if s.control.Ask? {
      StepAskAppends(host, s);
    } else {
      StepHandleFaithful(host, s, s.control.calls);
    }
    hide StepAsk, StepHandle, Fits;
    assert s.trace <= r;
    forall i | 0 <= i < |r| && RanBy(r[i]).Some? && RanBy(r[i]).value.name != REGISTRY_TOOL
      ensures AdmittedThisRound(r, i, RanBy(r[i]).value)
    {
      var call := RanBy(r[i]).value;
      if i < |s.trace| {
        assert s.trace[i] == r[i];
        AdmissionKept(s.trace, r, i, call);
      } else if s.control.Handle? {
        FirstIsRoundStart(host, s, s.control.calls);
        RoundAdmits(host, s, s.control.calls, i);
        var j :| |s.trace| < j < i && r[j] == Admitted(call);
        forall k | j <= k < i ensures !r[k].RoundStarted? {
          RoundStartsOnce(host, s, s.control.calls, k);
        }
        assert NoRoundStarts(r, j, i);
      }
    }
  }

  lemma FirstIsRoundStart(host: Host, s: State, calls: seq<ToolCall>)
    requires s.control == Handle(calls) && |StepHandle(host, s, calls).trace| > |s.trace|
    ensures StepHandle(host, s, calls).trace[|s.trace|] == RoundStarted
  {
    var _ := RoundShape(host, s, calls);
    hide StepHandle, Ran, Executable, NothingObjectionable;
    var r := StepHandle(host, s, calls).trace;
    assert s.trace + [RoundStarted] <= r;
    assert (s.trace + [RoundStarted])[|s.trace|] == RoundStarted;
  }

  lemma {:induction false} AdmissionHolds(host: Host, s: State)
    requires AllAdmitted(s.trace)
    ensures AllAdmitted(RunFrom(host, s).trace)
    decreases Fuel(host, s), if s.control.Done? then 0 else 1
  {
    hide AllAdmitted, StepAsk, StepHandle;
    if !s.control.Done? {
      StepAdmits(host, s);
      if !Step(host, s).control.Done? {
        AdmissionHolds(host, Step(host, s));
      }
    }
  }

  /** In no run does the executor get a call that the middlewares did not admit in that round. */
  lemma RunIsAdmitted(host: Host)
    ensures AllAdmitted(Run(host).trace)
  {
    AdmissionHolds(host, START);
  }
}
