/** Why a run of the tool loop ends the way it does: whose words it returns, and which calls it
    puts before the human operator. */
module OrchestratorOutcome {
  import opened Common
  import opened Orchestrator
  import opened OrchestratorSafety
  import opened OrchestratorStop
  import opened OrchestratorOrder

  // ----- what a batch leaves behind -----

  /** The record of these executions. */
  function Executions(results: Resolved): (t: Trace)
    ensures |t| == |results|
    ensures forall k :: 0 <= k < |t| ==> t[k] == Executed(results[k].0, results[k].1)
  {
    if results == [] then [] else [Executed(results[0].0, results[0].1)] + Executions(results[1..])
  }

  /** The record of these results' being absorbed. */
  function Recordings(results: Resolved): Trace {
    if results == [] then [] else [Recorded(results[0].0)] + Recordings(results[1..])
  }

  function CallsOf(results: Resolved): (calls: seq<ToolCall>)
    ensures |calls| == |results|
    ensures forall k :: 0 <= k < |calls| ==> calls[k] == results[k].0
  {
    if results == [] then [] else [results[0].0] + CallsOf(results[1..])
  }

  /** What a result says to the model: its text, or the failure turned into text. */
  function OutputOf(call: ToolCall, result: Reply): string {
    match result
    case Success(text) => text
    case Failure(e) => if e.ToolError? then FailureText(call, e.message) else ""
  }

  function Outputs(results: Resolved): (outputs: seq<(string, string)>)
    ensures |outputs| == |results|
    ensures forall k :: 0 <= k < |outputs| ==> outputs[k].0 == results[k].0.name
  {
    if results == [] then []
    else [(results[0].0.name, OutputOf(results[0].0, results[0].1))] + Outputs(results[1..])
  }

  // ----- why a run ends -----

  /** The batch that ends the trace ran completely, was absorbed completely, and consists of
      scheduling tools whose outputs make up the text. */
  ghost predicate FinalizedBy(host: Host, t0: Trace, results: Resolved, t: Trace, text: string) {
    && results != []
    && t == t0 + [BatchStarted(CallsOf(results))] + Executions(results) + Recordings(results)
    && (forall call <- CallsOf(results) :: call.name in SCHEDULER_TOOLS)
    && MaybeFinalize(host, Outputs(results)) == Some(text)
  }

  ghost predicate Finalized(host: Host, t: Trace, text: string) {
    exists t0, results :: FinalizedBy(host, t0, results, t, text)
  }

  /** The last thing that happened is an answer of the model with this text. */
  ghost predicate Uttered(t: Trace, text: string) {
    t != [] && t[|t| - 1].Decision? && t[|t| - 1].reply == Success(TextAnswer(text))
  }

  /** The last thing that happened is a pivot, or a decision of the outer loop to call no tool. */
  ghost predicate NothingToSay(t: Trace) {
    t != [] && (t[|t| - 1] == Pivoted || t[|t| - 1] == Decision(Initial, Success(ToolCalls([]))))
  }

  /** The executor answered the call with a demand for approval. */
  ghost predicate DemandsApproval(e: Event, call: ToolCall) {
    && e.Executed? && e.call == call
    && e.result.Failure? && e.result.error.ToolError? && APPROVAL_REQUIRED_PREFIX <= e.result.error.message
  }

  ghost predicate Demanded(t: Trace, call: ToolCall) {
    exists i :: 0 <= i < |t| && DemandsApproval(t[i], call)
  }

  /** The executor failed the call otherwise than by a tool error. */
  ghost predicate Failed(t: Trace, e: OrchestratorError) {
    exists i :: 0 <= i < |t| && FailedAt(t[i], e)
  }

  ghost predicate FailedAt(event: Event, e: OrchestratorError) {
    event.Executed? && event.result == Failure(e) && !e.ToolError?
  }

  /** The parallel batch that was started last was interrupted, and not by a pivot. */
  ghost predicate BatchAborted(host: Host, t: Trace) {
    exists j :: 0 <= j < |t| && AbortedAt(host, t, j)
  }

  ghost predicate AbortedAt(host: Host, t: Trace, j: int)
    requires 0 <= j < |t|
  {
    && t[j].BatchStarted? && RunsInParallel(host, t[j].batch)
    && (forall k :: j < k < |t| ==> t[k].Discarded?)
    && host.interrupt(t[..j + 1]).Some?
    && host.interrupt(t[..j + 1]).value != Steered(Pivot, host.interrupt(t[..j + 1]).value.started)
  }

  /** A middleware objects to a call before it runs, or to its result. */
  ghost predicate Vetoed(host: Host, t: Trace, e: OrchestratorError) {
    || (exists call :: Requested(host, t, call) && host.before(t, call) == Some(e))
    || (exists call :: WasExecuted(t, call) && host.after(t, call) == Some(e))
  }

  ghost predicate WasExecuted(t: Trace, call: ToolCall) {
    exists i :: 0 <= i < |t| && t[i].Executed? && t[i].call == call
  }

  /** What can make a run fail with this error. */
  ghost predicate Caused(host: Host, t: Trace, e: OrchestratorError) {
    || (e == UserAborted && (host.estop(t) || host.steering(t) == Some(Abort) || BatchAborted(host, t)))
    || (e == MaxRoundsExceeded(host.maxToolRounds) && RoundsStarted(t) == host.maxToolRounds)
    || (t != [] && t[|t| - 1].Decision? && t[|t| - 1].reply == Failure(e))
    || Failed(t, e)
    || Vetoed(host, t, e)
    || (e == ToolError("tool registry is empty") && host.mode.Dynamic? && host.mode.registryEmpty)
  }

  ghost predicate Accounted(host: Host, t: Trace, r: Outcome) {
    match r
    case Success(Completed(text)) =>
      Uttered(t, text) || Finalized(host, t, text) || (text == "" && NothingToSay(t))
    case Success(ToolApprovalRequired(call)) =>
      Requested(host, t, call) && (call.name in HUMAN_GATED || Demanded(t, call))
    case Failure(e) => Caused(host, t, e)
  }

  // ----- screening -----

  lemma {:induction false} GenericYields(host: Host, t: Trace, calls: seq<ToolCall>, invalid: bool,
                                         batch: seq<ToolCall>)
    ensures var v := ScreenGeneric(host, t, calls, invalid, batch).1;
      v.Yielded? ==> v.call in calls && v.call.name in HUMAN_GATED
    decreases |calls|
  {
    if calls != [] {
      var call, rest := calls[0], calls[1..];
      if call.name in HUMAN_GATED {
      } else if call.name == REGISTRY_TOOL {
        GenericYields(host, t, rest, invalid, batch + [call]);
      } else if !PassesSchema(host, call) {
        GenericYields(host, t, rest, true, batch);
      } else if host.before(t, call).None? {
        GenericYields(host, t + [Admitted(call)], rest, invalid, batch + [call]);
      }
    }
  }

  lemma {:induction false} DynamicYields(host: Host, t: Trace, calls: seq<ToolCall>, batch: seq<ToolCall>)
    requires host.mode.Dynamic?
    ensures var v := ScreenDynamic(host, t, calls, batch).1;
      v.Yielded? ==> v.call in calls && v.call.name in HUMAN_GATED
    decreases |calls|
  {
    if calls != [] {
      var call, rest := calls[0], calls[1..];
      if call.name == REGISTRY_TOOL {
        if !host.mode.registryEmpty {
          DynamicYields(host, t, rest, batch);
        }
      } else if call.name in HUMAN_GATED {
      } else if host.before(t, call).None? {
        DynamicYields(host, t + [Admitted(call)], rest, batch + [call]);
      }
    }
  }

  /** A refusal is a veto against one of the calls, or the complaint about an empty registry. */
  ghost predicate RefusalExplained(host: Host, t: Trace, calls: seq<ToolCall>, e: OrchestratorError) {
    || (exists call :: call in calls && host.before(t, call) == Some(e))
    || (e == ToolError("tool registry is empty") && host.mode.Dynamic? && host.mode.registryEmpty)
  }

  lemma ExplainedLonger(host: Host, t: Trace, calls: seq<ToolCall>, e: OrchestratorError)
    requires calls != [] && RefusalExplained(host, t, calls[1..], e)
    ensures RefusalExplained(host, t, calls, e)
  {
    if exists call :: call in calls[1..] && host.before(t, call) == Some(e) {
      var call :| call in calls[1..] && host.before(t, call) == Some(e);
      assert call in calls;
    }
  }

  lemma {:induction false} GenericRefuses(host: Host, t: Trace, calls: seq<ToolCall>, invalid: bool,
                                          batch: seq<ToolCall>)
    ensures var (t', v) := ScreenGeneric(host, t, calls, invalid, batch);
      v.Refused? ==> RefusalExplained(host, t', calls, v.error)
    decreases |calls|
  {
    if calls != [] {
      var call, rest := calls[0], calls[1..];
      var (t', v) := ScreenGeneric(host, t, calls, invalid, batch);
      hide RefusalExplained;
      if call.name in HUMAN_GATED {
      } else if call.name == REGISTRY_TOOL {
        GenericRefuses(host, t, rest, invalid, batch + [call]);
      } else if !PassesSchema(host, call) {
        GenericRefuses(host, t, rest, true, batch);
      } else if host.before(t, call).None? {
        GenericRefuses(host, t + [Admitted(call)], rest, invalid, batch + [call]);
      } else {
        VetoExplains(host, t, calls);
      }
      if v.Refused? && RefusalExplained(host, t', rest, v.error) {
        ExplainedLonger(host, t', calls, v.error);
      }
    }
  }

  lemma VetoExplains(host: Host, t: Trace, calls: seq<ToolCall>)
    requires calls != [] && host.before(t, calls[0]).Some?
    ensures RefusalExplained(host, t, calls, host.before(t, calls[0]).value)
  {
    assert calls[0] in calls;
  }

  lemma {:induction false} DynamicRefuses(host: Host, t: Trace, calls: seq<ToolCall>, batch: seq<ToolCall>)
    requires host.mode.Dynamic?
    ensures var (t', v) := ScreenDynamic(host, t, calls, batch);
      v.Refused? ==> RefusalExplained(host, t', calls, v.error)
    decreases |calls|
  {
    if calls != [] {
      var call, rest := calls[0], calls[1..];
      var (t', v) := ScreenDynamic(host, t, calls, batch);
      if call.name == REGISTRY_TOOL {
        if !host.mode.registryEmpty {
          DynamicRefuses(host, t, rest, batch);
        }
      } else if call.name in HUMAN_GATED {
      } else if host.before(t, call).None? {
        DynamicRefuses(host, t + [Admitted(call)], rest, batch + [call]);
      } else {
        VetoExplains(host, t, calls);
      }
      if v.Refused? && RefusalExplained(host, t', rest, v.error) {
        ExplainedLonger(host, t', calls, v.error);
      }
    }
  }

  // ----- results -----

  /** One more result in front. */
  lemma ResultsCons(t: Trace, done: Resolved, call: ToolCall, result: Reply, rest: Resolved)
    ensures var results := [(call, result)] + rest;
      && t + [Executed(call, result)] + Executions(rest) == t + Executions(results)
      && t + [Recorded(call)] + Recordings(rest) == t + Recordings(results)
      && [call] + CallsOf(rest) == CallsOf(results)
      && done + [(call, result)] + rest == done + results
  {
    var results := [(call, result)] + rest;
    assert results[1..] == rest;
    assert Recordings(results) == [Recorded(call)] + Recordings(rest);
  }

  lemma {:induction false} ParallelResults(host: Host, t: Trace, batch: seq<ToolCall>, done: Resolved)
    returns (results: Resolved)
    ensures var (t', all) := ExecuteParallel(host, t, batch, done);
      all == done + results && CallsOf(results) == batch && t' == t + Executions(results)
    decreases |batch|
  {
    results := [];
    if batch == [] {
      assert done + [] == done && t + Executions([]) == t;
    } else {
      var result := host.execute(t, batch[0]);
      var rest := ParallelResults(host, t + [Executed(batch[0], result)], batch[1..], done + [(batch[0], result)]);
      hide Executions, CallsOf, Recordings;
      results := [(batch[0], result)] + rest;
      ResultsCons(t, done, batch[0], result, rest);
      assert [batch[0]] + batch[1..] == batch;
    }
  }

  lemma {:induction false} SerialResults(host: Host, t: Trace, batch: seq<ToolCall>, done: Resolved)
    returns (results: Resolved)
    ensures var (t', r) := ExecuteSerial(host, t, batch, done);
      r.Success? ==>
        || (r.value == [] && t' == t + Executions(results) + [Pivoted])
        || (r.value == done + results && CallsOf(results) == batch && t' == t + Executions(results))
    decreases |batch|
  {
    results := [];
    if batch == [] {
      assert done + [] == done && t + Executions([]) == t;
    } else {
      match host.steering(t) {
        case Some(Abort) =>
        case Some(Pivot) => assert t + Executions([]) == t;
        case None =>
          var result := host.execute(t, batch[0]);
          var rest := SerialResults(host, t + [Executed(batch[0], result)], batch[1..], done + [(batch[0], result)]);
          hide Executions, CallsOf, Recordings;
          results := [(batch[0], result)] + rest;
          ResultsCons(t, done, batch[0], result, rest);
          assert [batch[0]] + batch[1..] == batch;
      }
    }
  }

  /** The results of a batch are, in order, what the executor answered to each of its calls, and
      the record shows just that behind the start of the batch; no results means a pivot. */
  lemma ResultsHappened(host: Host, t: Trace, batch: seq<ToolCall>)
    requires batch != []
    ensures var (t', r) := Execute(host, t, batch);
      r.Success? ==>
        if r.value == [] then t' != [] && t'[|t'| - 1] == Pivoted
        else CallsOf(r.value) == batch && t' == t + [BatchStarted(batch)] + Executions(r.value)
  {
    hide ExecuteParallel, ExecuteSerial, Executions, CallsOf;
    var t1 := t + [BatchStarted(batch)];
    var parallel := ParallelResults(host, t1, batch, []);
    var serial := SerialResults(host, t1, batch, []);
    assert [] + parallel == parallel && [] + serial == serial;
  }

  lemma {:induction false} SerialFails(host: Host, t: Trace, batch: seq<ToolCall>, done: Resolved)
    ensures var (t', r) := ExecuteSerial(host, t, batch, done);
      r.Failure? ==> r.error == UserAborted && host.steering(t') == Some(Abort)
    decreases |batch|
  {
    if batch != [] && host.steering(t).None? {
      var result := host.execute(t, batch[0]);
      SerialFails(host, t + [Executed(batch[0], result)], batch[1..], done + [(batch[0], result)]);
    }
  }

  lemma {:induction false} DiscardsOnly(t: Trace, batch: seq<ToolCall>)
    ensures t <= DiscardAll(t, batch)
    ensures forall i :: |t| <= i < |DiscardAll(t, batch)| ==> DiscardAll(t, batch)[i].Discarded?
    decreases |batch|
  {
    if batch != [] {
      DiscardsOnly(t + [Discarded(batch[0])], batch[1..]);
    }
  }

  /** A batch fails only by an abort: a pending command, or an interruption that is no pivot. */
  lemma ExecuteFails(host: Host, t: Trace, batch: seq<ToolCall>)
    ensures var (t', r) := Execute(host, t, batch);
      r.Failure? ==> r.error == UserAborted && (host.steering(t') == Some(Abort) || BatchAborted(host, t'))
  {
    var t1 := t + [BatchStarted(batch)];
    var (t', r) := Execute(host, t, batch);
    SerialFails(host, t1, batch, []);
    DiscardsOnly(t1, batch);
    hide DiscardAll, ExecuteSerial, ExecuteParallel;
    if r.Failure? && RunsInParallel(host, batch) {
      assert t'[..|t| + 1] == t1 && t'[|t|] == t1[|t|];
      assert AbortedAt(host, t', |t|);
    }
  }

  ghost predicate DemandAmong(results: Resolved, call: ToolCall) {
    exists k :: 0 <= k < |results| && results[k].0 == call && DemandsApproval(Executed(call, results[k].1), call)
  }

  /** Results that are absorbed are recorded in order and give their outputs; what stops the
      absorption with success is a demand for approval among them. */
  lemma {:induction false} AbsorbOutcome(host: Host, t: Trace, results: Resolved, executed: seq<(string, string)>)
    ensures var (t', a) := Absorb(host, t, results, executed);
      match a
      case Absorbed(all) => all == executed + Outputs(results) && t' == t + Recordings(results)
      case Stop(r) => r.Success? ==> r.value.ToolApprovalRequired? && DemandAmong(results, r.value.call)
    decreases |results|
  {
    if results == [] {
      assert executed + Outputs([]) == executed && t + Recordings([]) == t;
    } else {
      var (call, result) := results[0];
      var output := OutputOf(call, result);
      if Absorb(host, t, results, executed) == Keep(host, t, results, executed, output) && host.after(t, call).None? {
        AbsorbOutcome(host, t + [Recorded(call)], results[1..], executed + [(call.name, output)]);
        DemandInTail(results);
        AbsorbCons(t, results, executed);
        hide DemandAmong, Outputs, Recordings;
      } else {
        assert DemandsApproval(Executed(call, result), call) ==> DemandAmong(results, call);
      }
    }
  }

  ghost predicate FailureAmong(host: Host, t: Trace, results: Resolved, e: OrchestratorError) {
    exists k :: 0 <= k < |results| && FailsOn(host, t, results[k], e)
  }

  /** The result is this error, but no tool error, or the middlewares object to it with this error. */
  ghost predicate FailsOn(host: Host, t: Trace, result: (ToolCall, Reply), e: OrchestratorError) {
    (result.1 == Failure(e) && !e.ToolError?) || host.after(t, result.0) == Some(e)
  }

  lemma {:induction false} AbsorbFails(host: Host, t: Trace, results: Resolved, executed: seq<(string, string)>)
    ensures var (t', a) := Absorb(host, t, results, executed);
      a.Stop? && a.outcome.Failure? ==> FailureAmong(host, t', results, a.outcome.error)
    decreases |results|
  {
    if results != [] {
      var (call, result) := results[0];
      var (t', a) := Absorb(host, t, results, executed);
      var output := OutputOf(call, result);
      if Absorb(host, t, results, executed) == Keep(host, t, results, executed, output) && host.after(t, call).None? {
        AbsorbFails(host, t + [Recorded(call)], results[1..], executed + [(call.name, output)]);
        if a.Stop? && a.outcome.Failure? {
          FailureInTail(host, t', results, a.outcome.error);
        }
      } else if a.Stop? && a.outcome.Failure? {
        assert FailsOn(host, t', results[0], a.outcome.error);
      }
    }
  }

  lemma FailureInTail(host: Host, t: Trace, results: Resolved, e: OrchestratorError)
    requires results != [] && FailureAmong(host, t, results[1..], e)
    ensures FailureAmong(host, t, results, e)
  {
    var k :| 0 <= k < |results[1..]| && FailsOn(host, t, results[1..][k], e);
    assert results[k + 1] == results[1..][k];
  }

  lemma AbsorbCons(t: Trace, results: Resolved, executed: seq<(string, string)>)
    requires results != []
    ensures var (call, result) := results[0];
      && t + [Recorded(call)] + Recordings(results[1..]) == t + Recordings(results)
      && executed + [(call.name, OutputOf(call, result))] + Outputs(results[1..]) == executed + Outputs(results)
  {
    var (call, result) := results[0];
    assert Recordings(results) == [Recorded(call)] + Recordings(results[1..]);
    assert Outputs(results) == [(call.name, OutputOf(call, result))] + Outputs(results[1..]);
    hide *;
    Associate(t, [Recorded(call)], Recordings(results[1..]));
    Associate(executed, [(call.name, OutputOf(call, result))], Outputs(results[1..]));
  }

  lemma Associate<T>(a: seq<T>, b: seq<T>, c: seq<T>)
    ensures a + b + c == a + (b + c)
  {
  }

  lemma DemandInTail(results: Resolved)
    requires results != []
    ensures forall call :: DemandAmong(results[1..], call) ==> DemandAmong(results, call)
  {
    forall call | DemandAmong(results[1..], call) ensures DemandAmong(results, call) {
      var k :| 0 <= k < |results[1..]| && results[1..][k].0 == call
               && DemandsApproval(Executed(call, results[1..][k].1), call);
      assert results[k + 1] == results[1..][k];
    }
  }

  // ----- steps -----

  /** Like `Accounted`, but silent on who requested a call that demands approval. */
  ghost predicate Sourced(host: Host, t: Trace, r: Outcome) {
    match r
    case Success(Completed(text)) =>
      Uttered(t, text) || Finalized(host, t, text) || (text == "" && NothingToSay(t))
    case Success(ToolApprovalRequired(call)) => Demanded(t, call)
    case Failure(e) => Caused(host, t, e)
  }

  /** The trace ends with a batch that has just come back with these results. */
  ghost predicate Returned(t0: Trace, results: Resolved, t: Trace) {
    results != [] && t == t0 + [BatchStarted(CallsOf(results))] + Executions(results)
  }

  lemma DemandedInTrace(t0: Trace, t: Trace, t': Trace, results: Resolved, call: ToolCall)
    requires Returned(t0, results, t) && t <= t' && DemandAmong(results, call)
    ensures Demanded(t', call)
  {
    var k :| 0 <= k < |results| && results[k].0 == call && DemandsApproval(Executed(call, results[k].1), call);
    var i := |t0| + 1 + k;
    assert t[i] == Executions(results)[k] == Executed(results[k].0, results[k].1);
    assert t'[i] == t[i] && DemandsApproval(t'[i], call);
  }

  lemma SchedulersOnly(host: Host, results: Resolved)
    requires MaybeFinalize(host, Outputs(results)).Some?
    ensures forall call <- CallsOf(results) :: call.name in SCHEDULER_TOOLS
  {
    forall call | call in CallsOf(results) ensures call.name in SCHEDULER_TOOLS {
      var k :| 0 <= k < |results| && CallsOf(results)[k] == call;
      assert Outputs(results)[k].0 == call.name;
    }
  }

  lemma FollowUpSourced(host: Host, s: State)
    ensures var r := StepFollowUp(host, s);
      r.control.Done? ==> Sourced(host, r.trace, r.control.outcome)
  {
  }

  lemma ReturnedAndFinal(host: Host, t0: Trace, t: Trace, results: Resolved, text: string)
    requires Returned(t0, results, t) && MaybeFinalize(host, Outputs(results)) == Some(text)
    ensures Finalized(host, t + Recordings(results), text)
  {
    SchedulersOnly(host, results);
    hide MaybeFinalize, Outputs, Executions, CallsOf, Recordings;
    assert FinalizedBy(host, t0, results, t + Recordings(results), text);
  }

  /** How absorbed results lead on. */
  lemma ResultsEnd(host: Host, s: State, results: Resolved)
    ensures var (t, a), r := Absorb(host, s.trace, results, []), StepResults(host, s, results);
      match a
      case Stop(outcome) => r == s.(control := Deliver(outcome), trace := t)
      case Absorbed(executed) =>
        match MaybeFinalize(host, executed)
        case Some(text) => r == s.(control := Deliver(Success(Completed(text))), trace := t)
        case None => r == StepFollowUp(host, s.(trace := t))
  {
  }

  lemma ResultsSourced(host: Host, t0: Trace, s: State, results: Resolved)
    requires Returned(t0, results, s.trace)
    ensures var r := StepResults(host, s, results);
      r.control.Done? ==> Sourced(host, r.trace, r.control.outcome)
  {
    hide *;
    var (t, absorbed) := Absorb(host, s.trace, results, []);
    AbsorbOutcome(host, s.trace, results, []);
    AbsorbShape(host, s.trace, results, []);
    ResultsEnd(host, s, results);
    FollowUpSourced(host, s.(trace := t));
    assert [] + Outputs(results) == Outputs(results);
    match absorbed {
      case Stop(r) =>
        if r.Success? {
          DemandedInTrace(t0, s.trace, t, results, r.value.call);
        } else {
          AbsorbFails(host, s.trace, results, []);
          FailureCaused(host, t0, s.trace, t, results, r.error);
        }
        StopSourced(host, t, r);
      case Absorbed(executed) =>
        var final := MaybeFinalize(host, executed);
        if final.Some? {
          ReturnedAndFinal(host, t0, s.trace, results, final.value);
          FinalSourced(host, t, final.value);
        }
    }
  }

  /** A failure among the results of the batch that has just come back causes the run's. */
  lemma FailureCaused(host: Host, t0: Trace, t: Trace, t': Trace, results: Resolved, e: OrchestratorError)
    requires Returned(t0, results, t) && t <= t' && FailureAmong(host, t', results, e)
    ensures Caused(host, t', e)
  {
    var k :| 0 <= k < |results| && FailsOn(host, t', results[k], e);
    var i := |t0| + 1 + k;
    assert t[i] == Executions(results)[k] == Executed(results[k].0, results[k].1);
    assert t'[i] == t[i];
    hide Requested, RoundsStarted, BatchAborted, Executions;
    if results[k].1 == Failure(e) && !e.ToolError? {
      assert FailedAt(t'[i], e);
    } else {
      assert WasExecuted(t', results[k].0);
    }
  }

  lemma StopSourced(host: Host, t: Trace, r: Outcome)
    requires r.Success? ==> r.value.ToolApprovalRequired? && Demanded(t, r.value.call)
    requires r.Failure? ==> Caused(host, t, r.error)
    ensures Sourced(host, t, r) && Deliver(r) == Done(r)
  {
  }

  lemma FinalSourced(host: Host, t: Trace, text: string)
    requires Finalized(host, t, text)
    ensures Deliver(Success(Completed(text))).Done? ==>
      Sourced(host, t, Deliver(Success(Completed(text))).outcome)
  {
  }

  lemma BatchSourced(host: Host, s: State, batch: seq<ToolCall>)
    ensures var r := StepBatch(host, s, batch);
      r.control.Done? ==> Sourced(host, r.trace, r.control.outcome)
  {
    if batch != [] {
      hide Execute, StepResults, Executions, CallsOf;
      var (t, resolved) := Execute(host, s.trace, batch);
      ResultsHappened(host, s.trace, batch);
      ExecuteFails(host, s.trace, batch);
      hide Requested, RoundsStarted, BatchAborted, Vetoed, Failed;
      if resolved.Success? && resolved.value != [] {
        ResultsSourced(host, s.trace, s.(trace := t), resolved.value);
      }
    }
  }

  lemma DemandedWasRequested(host: Host, t: Trace, call: ToolCall)
    requires SafeTrace(host, t) && Demanded(t, call)
    ensures Requested(host, t, call)
  {
    var i :| 0 <= i < |t| && DemandsApproval(t[i], call);
    assert RanBy(t[i]) == Some(call);
    RequestedMonotone(host, t[..i], t, call);
  }

  /** What a round leads to. */
  lemma HandleCases(host: Host, s: State, calls: seq<ToolCall>)
    ensures var r := StepHandle(host, s, calls);
      if host.mode.Dynamic? && host.estop(s.trace) then r == s.(control := Done(Failure(UserAborted)))
      else if calls == [] then r == s.(control := Done(Success(Completed(""))))
      else if s.rounds >= host.maxToolRounds then
        r.control == Done(Failure(MaxRoundsExceeded(host.maxToolRounds))) && r.trace == s.trace
      else
        var (q, v) := Screen(host, s.trace + [RoundStarted], calls);
        r == StepScreened(host, s.(rounds := s.rounds + 1, trace := q), v)
  {
    hide Screen, StepScreened;
  }

  lemma ScreenedCases(host: Host, s: State, v: Screening)
    ensures var r := StepScreened(host, s, v);
      match v
      case Yielded(call) => r == s.(control := Done(Success(ToolApprovalRequired(call))))
      case Refused(e) => r == s.(control := Done(Failure(e)))
      case Rejected => r == State(Ask, s.rounds, s.obligated, s.trace + [Corrected])
      case Cleared(batch) =>
        if batch == [] then r == State(Ask, s.rounds, s.obligated, s.trace + [Corrected])
        else r == StepBatch(host, s, batch)
  {
    hide Execute, StepResults;
  }

  lemma YieldsAsked(host: Host, t: Trace, calls: seq<ToolCall>)
    ensures var (t', v) := Screen(host, t, calls);
      && t <= t'
      && (v.Yielded? ==> v.call in calls && v.call.name in HUMAN_GATED)
      && (v.Refused? ==> RefusalExplained(host, t', calls, v.error))
  {
    ScreenShape(host, t, calls);
    if host.mode.Generic? {
      GenericYields(host, t, calls, false, []);
      GenericRefuses(host, t, calls, false, []);
    } else {
      DynamicYields(host, t, calls, []);
      DynamicRefuses(host, t, calls, []);
    }
  }

  lemma SourcedIsAccounted(host: Host, t: Trace, r: Outcome)
    requires SafeTrace(host, t) && Sourced(host, t, r)
    ensures Accounted(host, t, r)
  {
    hide SafeTrace, Uttered, Finalized, NothingToSay, Demanded;
    if r.Success? && r.value.ToolApprovalRequired? {
      DemandedWasRequested(host, t, r.value.call);
    }
  }

  /** Calls at hand come from the decision that ends the trace. */
  ghost predicate HandedOn(host: Host, s: State) {
    s.control.Handle? ==> s.trace != [] && HandsOn(host, s.trace[|s.trace| - 1], s.control.calls)
  }

  lemma RefusalCaused(host: Host, s: State, t: Trace, calls: seq<ToolCall>, e: OrchestratorError)
    requires s.control == Handle(calls) && SafeState(host, s) && s.trace <= t
    requires RefusalExplained(host, t, calls, e)
    ensures Caused(host, t, e)
  {
    hide SafeTrace, Requested, RoundsStarted, BatchAborted, Failed;
    if exists call :: call in calls && host.before(t, call) == Some(e) {
      var call :| call in calls && host.before(t, call) == Some(e);
      RequestedMonotone(host, s.trace, t, call);
      assert Vetoed(host, t, e);
    }
  }

  lemma HandleAccounted(host: Host, s: State, calls: seq<ToolCall>)
    requires s.control == Handle(calls) && HandedOn(host, s) && CountsRounds(host, s)
    requires SafeState(host, s) && SafeState(host, StepHandle(host, s, calls))
    ensures var r := StepHandle(host, s, calls);
      r.control.Done? ==> Accounted(host, r.trace, r.control.outcome)
  {
    hide StepHandle, StepScreened, Screen, StepBatch, SafeTrace, Requested, Demanded, Sourced, Uttered, Finalized,
         RoundsStarted, BatchAborted, Vetoed, Failed, RefusalExplained;
    var t0 := s.trace + [RoundStarted];
    var (t, verdict) := Screen(host, t0, calls);
    var r, s' := StepHandle(host, s, calls), s.(rounds := s.rounds + 1, trace := t);
    HandleCases(host, s, calls);
    ScreenedCases(host, s', verdict);
    YieldsAsked(host, t0, calls);
    if calls == [] {
      assert NothingToSay(s.trace);
    }
    if verdict.Yielded? {
      RequestedMonotone(host, s.trace, t, verdict.call);
    } else if verdict.Refused? {
      RefusalCaused(host, s, t, calls, verdict.error);
    } else if verdict.Cleared? {
      BatchSourced(host, s', verdict.batch);
      if r.control.Done? && Sourced(host, r.trace, r.control.outcome) {
        SourcedIsAccounted(host, r.trace, r.control.outcome);
      }
    }
  }

  lemma AskAccounted(host: Host, s: State)
    requires s.control.Ask? && CountsRounds(host, s)
    ensures var r := StepAsk(host, s);
      r.control.Done? ==> Accounted(host, r.trace, r.control.outcome)
  {
    hide RoundsStarted, Requested, BatchAborted, Vetoed, Failed, Finalized;
    var t := if host.steering(s.trace) == Some(Pivot) then s.trace + [Pivoted] else s.trace;
    NoRoundsAdded(s.trace, t + [Decision(Initial, host.decide(t))]);
  }

  lemma {:induction false} OutcomeFrom(host: Host, s: State)
    requires SafeState(host, s) && HandedOn(host, s) && CountsRounds(host, s)
    requires s.control.Done? ==> Accounted(host, s.trace, s.control.outcome)
    ensures Accounted(host, RunFrom(host, s).trace, RunFrom(host, s).control.outcome)
    decreases Fuel(host, s), if s.control.Done? then 0 else 1
  {
    hide Accounted, SafeState, StepAsk, StepHandle, Fuel, HandsOn, CountsRounds;
    if !s.control.Done? {
      var r := Step(host, s);
      StepSafe(host, s);
      StepHandsOn(host, s);
      if s.control.Ask? {
        AskAccounted(host, s);
        StepAskCounts(host, s);
      } else {
        HandleAccounted(host, s, s.control.calls);
        StepHandleCounts(host, s, s.control.calls);
      }
      if !r.control.Done? {
        OutcomeFrom(host, r);
      }
    }
  }

  /** A run that completes returns the model's last words, or the joined outputs of its last batch
      when that consists of scheduling tools only, or nothing after a pivot or an empty request. A
      run that stops for approval names a call that the model asked for and that is human-gated
      or whose executor demanded approval. A run that fails has a cause for just that error. */
  lemma RunIsAccountedFor(host: Host)
    ensures Accounted(host, Run(host).trace, Run(host).control.outcome)
  {
    OutcomeFrom(host, START);
  }
}
