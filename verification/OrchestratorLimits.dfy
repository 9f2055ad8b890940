/** Where the tool loop's guarantees end: the sentinel answer, the emergency stop,
    and runs that use the whole budget. */
module OrchestratorLimits {
  import opened Common
  import opened Orchestrator
  import opened OrchestratorSafety

  // ----- the sentinel answer -----

  const SENTINEL_DECISION := Decision(Initial, Success(TextAnswer(CONTINUE_LOOP)))

  ghost predicate EndsWith(t: Trace, e: Event) {
    t != [] && t[|t| - 1] == e
  }

  /** The loop takes the marker for an ordinary answer: no repair turns it into a call, it names
      no tool, and the obligation to use a tool is not due. */
  predicate TakenAsAnswer(host: Host, obligated: bool) {
    && !(host.repairPermitted && host.repair(CONTINUE_LOOP).Some?)
    && !host.namesTool(CONTINUE_LOOP)
    && !(host.repairPermitted && host.mode.Dynamic? && host.mode.obligationApplies && !obligated)
  }

  /** A run ends with the sentinel exactly when the outer loop was told the sentinel and took it
      for an answer. */
  ghost predicate SentinelExplained(host: Host, s: State) {
    s.control.Done? ==>
      (s.control.outcome == Success(Completed(CONTINUE_LOOP))
       <==> EndsWith(s.trace, SENTINEL_DECISION) && TakenAsAnswer(host, s.obligated))
  }

  ghost predicate SentinelInvariant(host: Host, s: State) {
    match s.control
    case Ask => true
    case Handle(_) => EndsWith(s.trace, SENTINEL_DECISION) ==> !TakenAsAnswer(host, s.obligated)
    case Done(_) => SentinelExplained(host, s)
  }

  lemma FollowUpIsNotSentinel(host: Host, s: State, calls: seq<ToolCall>)
    requires s.control == Handle(calls)
    ensures var r := StepHandle(host, s, calls);
      r.trace != s.trace ==> !EndsWith(r.trace, SENTINEL_DECISION)
  {
    var _ := RoundShape(host, s, calls);
    hide StepHandle, Ran, Executable;
    var r := StepHandle(host, s, calls);
    if r.trace != s.trace {
      var t0 := s.trace + [RoundStarted];
      assert t0 <= r.trace;
      if |r.trace| == |t0| {
        assert r.trace == t0;
      } else {
        assert Legal(host, calls, r.trace[|r.trace| - 1]);
      }
    }
  }

  lemma QuietEndFails(host: Host, s: State, calls: seq<ToolCall>)
    requires s.control == Handle(calls) && calls != []
    ensures var r := StepHandle(host, s, calls);
      r.trace == s.trace ==> r.control.Done? && r.control.outcome.Failure?
  {
    hide StepScreened, Screen;
    var t := Screen(host, s.trace + [RoundStarted], calls).0;
    ScreenShape(host, s.trace + [RoundStarted], calls);
    ScreenedExtends(host, s.(rounds := s.rounds + 1, trace := t), Screen(host, s.trace + [RoundStarted], calls).1);
  }

  lemma ScreenedExtends(host: Host, s: State, verdict: Screening)
    ensures |s.trace| <= |StepScreened(host, s, verdict).trace|
  {
    if verdict.Cleared? && verdict.batch != [] {
      hide Ran, StepResults, Absorb, Execute;
      var (t, resolved) := Execute(host, s.trace, verdict.batch);
      var _ := ExecuteShape(host, s.trace, verdict.batch);
      if resolved.Success? && resolved.value != [] {
        ResultsShape(host, [], s.(trace := t), resolved.value);
      }
    }
  }

  lemma SentinelAsk(host: Host, s: State)
    ensures SentinelInvariant(host, StepAsk(host, s)) || StepAsk(host, s).trace == s.trace
    ensures StepAsk(host, s).trace == s.trace ==> StepAsk(host, s).control == Done(Failure(UserAborted))
  {
  }

  /** Nothing ends with the sentinel while the outer loop is about to ask again. */
  ghost predicate NotAfterSentinel(s: State) {
    s.control.Ask? ==> !EndsWith(s.trace, SENTINEL_DECISION)
  }

  lemma HandleKeepsObligation(host: Host, s: State, calls: seq<ToolCall>)
    ensures StepHandle(host, s, calls).obligated == s.obligated
  {
    hide Screen, Execute, Absorb, MaybeFinalize;
  }

  lemma HandleEndsOtherwise(host: Host, s: State, calls: seq<ToolCall>)
    requires s.control == Handle(calls)
    ensures var r := StepHandle(host, s, calls);
      r.trace == s.trace ==> r.control.Done?
  {
    if calls != [] {
      QuietEndFails(host, s, calls);
    }
    hide StepScreened, Screen;
  }

  lemma SentinelHandle(host: Host, s: State, calls: seq<ToolCall>)
    requires s.control == Handle(calls) && SentinelInvariant(host, s)
    ensures SentinelInvariant(host, StepHandle(host, s, calls)) && NotAfterSentinel(StepHandle(host, s, calls))
  {
    RoundBounds(host, s);
    FollowUpIsNotSentinel(host, s, calls);
    HandleEndsOtherwise(host, s, calls);
    HandleKeepsObligation(host, s, calls);
    hide StepHandle, TakenAsAnswer, Fuel, RunFrom;
  }

  lemma SentinelStep(host: Host, s: State)
    requires !s.control.Done? && SentinelInvariant(host, s) && NotAfterSentinel(s)
    ensures SentinelInvariant(host, Step(host, s)) && NotAfterSentinel(Step(host, s))
  {
    match s.control {
      case Ask =>
        SentinelAsk(host, s);
        AskAfterSentinel(host, s);
      case Handle(calls) => SentinelHandle(host, s, calls);
    }
    hide StepAsk, StepHandle, TakenAsAnswer;
  }

  lemma AskAfterSentinel(host: Host, s: State)
    ensures NotAfterSentinel(StepAsk(host, s))
  {
  }

  lemma {:induction false} SentinelFrom(host: Host, s: State)
    requires SentinelInvariant(host, s) && NotAfterSentinel(s)
    ensures SentinelExplained(host, RunFrom(host, s))
    decreases Fuel(host, s), if s.control.Done? then 0 else 1
  {
    hide Step, SentinelExplained, TakenAsAnswer, Fuel;
    if !s.control.Done? {
      SentinelStep(host, s);
      if !Step(host, s).control.Done? {
        SentinelFrom(host, Step(host, s));
      }
    }
  }

  /** The sentinel is meant to stay inside the loop. It reaches the caller exactly when the
      model, asked by the outer loop, answers with the sentinel itself and the loop has no
      objection to that answer. */
  lemma SentinelEscapes(host: Host)
    ensures Run(host).control.outcome == Success(Completed(CONTINUE_LOOP))
       <==> EndsWith(Run(host).trace, SENTINEL_DECISION) && TakenAsAnswer(host, Run(host).obligated)
  {
    SentinelFrom(host, START);
  }

  /** Such runs exist: a plain loop whose model says nothing but the sentinel. */
  lemma SentinelDoesEscape(maxToolRounds: nat) returns (host: Host)
    ensures host.maxToolRounds == maxToolRounds
    ensures Run(host).control.outcome == Success(Completed(CONTINUE_LOOP))
  {
    host := PlainHost(maxToolRounds, t => Success(TextAnswer(CONTINUE_LOOP)), t => false);
    var s := Step(host, START);
    assert s.control == Done(Success(Completed(CONTINUE_LOOP)));
    assert Run(host) == RunFrom(host, s) == s;
  }

  // ----- the emergency stop -----

  /** Once raised, the stop flag stays raised. */
  ghost predicate Latched(host: Host) {
    forall t, t' :: t <= t' && host.estop(t) ==> host.estop(t')
  }

  lemma {:induction false} CountsMonotone(t: Trace, t': Trace)
    requires t <= t'
    ensures Batches(t) <= Batches(t') && Decisions(t) <= Decisions(t')
    decreases |t'|
  {
    if |t| < |t'| {
      CountsMonotone(t, t'[..|t'| - 1]);
    } else {
      assert t == t';
    }
  }

  lemma StepAskAdds(host: Host, s: State)
    ensures var r := StepAsk(host, s);
      s.trace <= r.trace && Batches(r.trace) == Batches(s.trace) && Decisions(r.trace) <= Decisions(s.trace) + 1
  {
    hide Decisions, Batches;
    var t := if host.steering(s.trace) == Some(Pivot) then s.trace + [Pivoted] else s.trace;
    CountsAppend(s.trace, Pivoted);
    var t1 := t + [Decision(Initial, host.decide(t))];
    CountsAppend(t, Decision(Initial, host.decide(t)));
    QuietSuffix(t1, t1 + [RoundStarted, Corrected]);
  }

  lemma StepHandleAdds(host: Host, s: State, calls: seq<ToolCall>)
    requires s.control == Handle(calls)
    ensures var r := StepHandle(host, s, calls);
      s.trace <= r.trace && Batches(r.trace) <= Batches(s.trace) + 1 && Decisions(r.trace) <= Decisions(s.trace) + 1
  {
    hide Decisions, Batches, StepScreened, Screen, Ran, Executable;
    var _ := RoundShape(host, s, calls);
    ScreenQuiet(host, s.trace, calls);
    var (t, verdict) := Screen(host, s.trace + [RoundStarted], calls);
    StepScreenedBudget(host, s.(rounds := s.rounds + 1, trace := t), verdict);
  }

  /** A step keeps what happened and adds at most one batch and one decision. */
  lemma StepAdds(host: Host, s: State)
    requires !s.control.Done?
    ensures var r := Step(host, s);
      s.trace <= r.trace && Batches(r.trace) <= Batches(s.trace) + 1 && Decisions(r.trace) <= Decisions(s.trace) + 1
  {
    hide Decisions, Batches, StepAsk, StepHandle;
    match s.control
    case Ask => StepAskAdds(host, s);
    case Handle(calls) => StepHandleAdds(host, s, calls);
  }

  lemma {:induction false} RunExtends(host: Host, s: State)
    ensures s.trace <= RunFrom(host, s).trace
    decreases Fuel(host, s), if s.control.Done? then 0 else 1
  {
    if !s.control.Done? {
      StepAdds(host, s);
      RunExtends(host, Step(host, s));
    }
  }

  lemma StoppedAtOnce(host: Host, s: State)
    requires host.estop(s.trace) && (host.mode.Dynamic? || s.control.Ask?)
    ensures RunFrom(host, s).trace == s.trace
  {
  }

  lemma {:induction false} StopFrom(host: Host, s: State, t: Trace)
    requires host.mode.Dynamic? && Latched(host) && host.estop(t)
    requires s.trace <= t <= RunFrom(host, s).trace
    ensures Batches(RunFrom(host, s).trace) <= Batches(t) + 1
    ensures Decisions(RunFrom(host, s).trace) <= Decisions(t) + 1
    decreases Fuel(host, s), if s.control.Done? then 0 else 1
  {
    CountsMonotone(s.trace, t);
    if s.control.Done? {
    } else if host.estop(s.trace) {
      StoppedAtOnce(host, s);
    } else {
      var r := Step(host, s);
      StepAdds(host, s);
      RunExtends(host, r);
      assert RunFrom(host, s) == RunFrom(host, r);
      hide Step, Batches, Decisions, RunFrom;
      if |r.trace| <= |t| {
        StopFrom(host, r, t);
      } else {
        assert t <= r.trace;
        StoppedAtOnce(host, r);
      }
    }
  }

  /** Tool loop with dynamic tools: from the moment the stop flag is up, at most the batch and
      the decision under way still happen. */
  lemma DynamicStopIsPrompt(host: Host, t: Trace)
    requires host.mode.Dynamic? && Latched(host) && host.estop(t)
    requires t <= Run(host).trace
    ensures Batches(Run(host).trace) <= Batches(t) + 1
    ensures Decisions(Run(host).trace) <= Decisions(t) + 1
  {
    StopFrom(host, START, t);
  }

  // ----- runs that use up what they may -----

  const PROBE := ToolCall(REGISTRY_TOOL, "")
  const PROBE_ROUND := [RoundStarted, BatchStarted([PROBE]), Executed(PROBE, Success("")), Recorded(PROBE)]

  /** A generic loop in which every call succeeds and nobody interferes. */
  function PlainHost(maxToolRounds: nat, decide: Trace -> Result<LLMResponse, OrchestratorError>,
                     estop: Trace -> bool): Host
  {
    Host(Generic, maxToolRounds, [], false, false,
         (tool, arguments) => Valid, answer => None, answer => false, text => text,
         estop, t => None, t => None, decide,
         (t, call) => Success(""), (t, call) => None, (t, call) => None)
  }

  lemma PlainScreen(host: Host, t: Trace)
    requires host.mode.Generic?
    ensures Screen(host, t, [PROBE]) == (t, Cleared([PROBE]))
  {
    assert PROBE.name !in HUMAN_GATED;
    assert [PROBE][1..] == [] && [] + [PROBE] == [PROBE];
    assert ScreenGeneric(host, t, [PROBE], false, []) == ScreenGeneric(host, t, [], false, [PROBE]);
  }

  lemma PlainExecution(maxToolRounds: nat, decide: Trace -> Result<LLMResponse, OrchestratorError>,
                       estop: Trace -> bool, t: Trace)
    ensures var host := PlainHost(maxToolRounds, decide, estop);
      && Execute(host, t, [PROBE])
         == (t + [BatchStarted([PROBE])] + [Executed(PROBE, Success(""))], Success([(PROBE, Success(""))]))
      && Absorb(host, t, [(PROBE, Success(""))], []) == (t + [Recorded(PROBE)], Absorbed([(REGISTRY_TOOL, "")]))
      && MaybeFinalize(host, [(REGISTRY_TOOL, "")]) == None
  {
    var host := PlainHost(maxToolRounds, decide, estop);
    var done: Resolved := [(PROBE, Success(""))];
    var names := [(REGISTRY_TOOL, "")];
    assert [PROBE][1..] == [] && [] + done == done && done[1..] == [] && [] + names == names;
    var t1 := t + [BatchStarted([PROBE])];
    assert ExecuteSerial(host, t1, [PROBE], []) == ExecuteSerial(host, t1 + [Executed(PROBE, Success(""))], [], done);
    assert Absorb(host, t, done, []) == Absorb(host, t + [Recorded(PROBE)], [], names);
    assert names[0].0 !in SCHEDULER_TOOLS;
  }

  lemma PlainRound(maxToolRounds: nat, decide: Trace -> Result<LLMResponse, OrchestratorError>,
                   estop: Trace -> bool, s: State)
    requires s.control == Handle([PROBE]) && s.rounds < maxToolRounds
    ensures var host := PlainHost(maxToolRounds, decide, estop);
      Step(host, s) == StepFollowUp(host, s.(rounds := s.rounds + 1, trace := s.trace + PROBE_ROUND))
  {
    hide Screen, Execute, Absorb, MaybeFinalize;
    var host := PlainHost(maxToolRounds, decide, estop);
    var t0 := s.trace + [RoundStarted];
    var t1 := t0 + [BatchStarted([PROBE])] + [Executed(PROBE, Success(""))];
    PlainScreen(host, t0);
    PlainExecution(maxToolRounds, decide, estop, t0);
    PlainExecution(maxToolRounds, decide, estop, t1);
    assert t1 + [Recorded(PROBE)] == s.trace + PROBE_ROUND;
  }

  lemma PlainRoundCounts(t: Trace)
    ensures Batches(t + PROBE_ROUND) == Batches(t) + 1
    ensures Decisions(t + PROBE_ROUND) == Decisions(t)
  {
    hide Decisions, Batches;
    var t1 := t + [RoundStarted];
    var t2 := t1 + [BatchStarted([PROBE])];
    CountsAppend(t, RoundStarted);
    CountsAppend(t1, BatchStarted([PROBE]));
    assert t + PROBE_ROUND == t2 + [Executed(PROBE, Success("")), Recorded(PROBE)];
    QuietSuffix(t2, t + PROBE_ROUND);
  }

  /** Asks for one call, lets the loop come round without a follow-up, and finally answers. */
  function Thorough(maxToolRounds: nat): Trace -> Result<LLMResponse, OrchestratorError> {
    t => if Decisions(t) % 2 == 1 then Success(ToolCalls([]))
         else if Batches(t) < maxToolRounds then Success(ToolCalls([PROBE]))
         else Success(TextAnswer("done"))
  }

  function ThoroughHost(m: nat): Host {
    PlainHost(m, Thorough(m), t => false)
  }

  /** The outer loop's turn of the thorough model. */
  lemma ThoroughAsk(m: nat, s: State)
    requires s.control.Ask? && s.rounds <= m
    requires Decisions(s.trace) == 2 * s.rounds && Batches(s.trace) == s.rounds
    ensures var reply := if s.rounds < m then ToolCalls([PROBE]) else TextAnswer("done");
      var control := if s.rounds < m then Handle([PROBE]) else Done(Success(Completed("done")));
      Step(ThoroughHost(m), s) == s.(control := control, trace := s.trace + [Decision(Initial, Success(reply))])
  {
    hide Decisions, Batches;
  }

  /** Its round, which ends with a follow-up that asks for nothing. */
  lemma ThoroughRound(m: nat, s: State)
    requires s.control == Handle([PROBE]) && s.rounds < m
    requires Decisions(s.trace) == 2 * s.rounds + 1 && Batches(s.trace) == s.rounds
    ensures Step(ThoroughHost(m), s)
         == State(Ask, s.rounds + 1, s.obligated, s.trace + PROBE_ROUND + [Decision(FollowUp, Success(ToolCalls([])))])
  {
    hide Decisions, Batches, StepHandle;
    PlainRound(m, Thorough(m), t => false, s);
    PlainRoundCounts(s.trace);
    assert ThoroughHost(m).decide(s.trace + PROBE_ROUND) == Success(ToolCalls([]));
  }

  /** From the outer loop, round after round, until the answer. */
  lemma {:induction false} ThoroughRun(m: nat, s: State)
    requires s.control.Ask? && s.rounds <= m
    requires Decisions(s.trace) == 2 * s.rounds && Batches(s.trace) == s.rounds
    ensures var r := RunFrom(ThoroughHost(m), s);
      && r.control == Done(Success(Completed("done")))
      && Decisions(r.trace) == 2 * m + 1 && Batches(r.trace) == m
    decreases m - s.rounds
  {
    hide Decisions, Batches, Step, ThoroughHost;
    var host := ThoroughHost(m);
    var s1 := Step(host, s);
    ThoroughAsk(m, s);
    CountsAppend(s.trace, s1.trace[|s.trace|]);
    if s.rounds < m {
      var s2 := Step(host, s1);
      ThoroughRound(m, s1);
      PlainRoundCounts(s1.trace);
      CountsAppend(s1.trace + PROBE_ROUND, Decision(FollowUp, Success(ToolCalls([]))));
      assert RunFrom(host, s) == RunFrom(host, s1) == RunFrom(host, s2);
      ThoroughRun(m, s2);
    } else {
      assert RunFrom(host, s) == s1;
    }
  }

  /** The budget is sharp: for every limit some run uses all of it and still answers. */
  lemma BudgetIsSharp(maxToolRounds: nat) returns (host: Host)
    ensures host.maxToolRounds == maxToolRounds
    ensures Run(host).control == Done(Success(Completed("done")))
    ensures Batches(Run(host).trace) == maxToolRounds
    ensures Decisions(Run(host).trace) == 2 * maxToolRounds + 1
  {
    host := ThoroughHost(maxToolRounds);
    ThoroughRun(maxToolRounds, START);
  }

  /** A stop flag that goes up with the first decision and stays up. */
  const STOP_AFTER_FIRST: Trace -> bool := t => t != []

  const INSISTENT: Trace -> Result<LLMResponse, OrchestratorError> := t => Success(ToolCalls([PROBE]))

  lemma {:induction false} InsistentRun(m: nat, s: State)
    requires s.control == Handle([PROBE]) && s.rounds <= m
    ensures var r := RunFrom(PlainHost(m, INSISTENT, STOP_AFTER_FIRST), s);
      && r.control == Done(Failure(MaxRoundsExceeded(m)))
      && Batches(r.trace) == Batches(s.trace) + m - s.rounds
      && s.trace <= r.trace
    decreases m - s.rounds
  {
    hide Decisions, Batches, Screen;
    var host := PlainHost(m, INSISTENT, STOP_AFTER_FIRST);
    if s.rounds < m {
      PlainRound(m, INSISTENT, STOP_AFTER_FIRST, s);
      PlainRoundCounts(s.trace);
      CountsAppend(s.trace + PROBE_ROUND, Decision(FollowUp, Success(ToolCalls([PROBE]))));
      hide StepHandle;
      InsistentRun(m, Step(host, s));
    }
  }

  /** The generic loop looks at the stop flag in its outer loop only: with follow-ups that keep
      asking for tools, every one of its batches runs after the flag is up. */
  lemma GenericStopMayBeLate(maxToolRounds: nat) returns (host: Host, t: Trace)
    ensures host.mode.Generic? && host.maxToolRounds == maxToolRounds && Latched(host)
    ensures host.estop(t) && t <= Run(host).trace
    ensures Batches(Run(host).trace) == Batches(t) + maxToolRounds
  {
    host := PlainHost(maxToolRounds, INSISTENT, STOP_AFTER_FIRST);
    t := [Decision(Initial, Success(ToolCalls([PROBE])))];
    var s := State(Handle([PROBE]), 0, false, t);
    assert Step(host, START) == s;
    InsistentRun(maxToolRounds, s);
    RunExtends(host, s);
  }
}
