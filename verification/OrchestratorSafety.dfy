/** What every run of the tool loop keeps, whatever the model, the executor,
    the middlewares and the operator do. */
module OrchestratorSafety {
  import opened Common
  import opened Orchestrator

  function Decisions(t: Trace): nat {
    if t == [] then 0 else Decisions(t[..|t| - 1]) + if t[|t| - 1].Decision? then 1 else 0
  }

  function Batches(t: Trace): nat {
    if t == [] then 0 else Batches(t[..|t| - 1]) + if t[|t| - 1].BatchStarted? then 1 else 0
  }

  /** The call an event hands to the executor, whether or not its result is kept. */
  function RanBy(e: Event): Option<ToolCall> {
    match e
    case Executed(call, _) => Some(call)
    case Discarded(call) => Some(call)
    case _ => None
  }

  /** The calls handed to the executor, in order. */
  function Ran(t: Trace): seq<ToolCall> {
    if t == [] then []
    else
      match RanBy(t[|t| - 1])
      case None => Ran(t[..|t| - 1])
      case Some(call) => Ran(t[..|t| - 1]) + [call]
  }

  ghost predicate Quiet(e: Event) {
    !e.Decision? && !e.BatchStarted?
  }

  lemma {:induction false} CountsAppend(t: Trace, e: Event)
    ensures Decisions(t + [e]) == Decisions(t) + if e.Decision? then 1 else 0
    ensures Batches(t + [e]) == Batches(t) + if e.BatchStarted? then 1 else 0
    ensures Ran(t + [e]) == if RanBy(e).None? then Ran(t) else Ran(t) + [RanBy(e).value]
  {
    assert (t + [e])[..|t + [e]| - 1] == t;
  }

  lemma {:induction false} QuietSuffix(t: Trace, t': Trace)
    requires t <= t' && forall i :: |t| <= i < |t'| ==> Quiet(t'[i])
    ensures Decisions(t') == Decisions(t) && Batches(t') == Batches(t)
    decreases |t'|
  {
    if |t| < |t'| {
      var shorter := t'[..|t'| - 1];
      QuietSuffix(t, shorter);
    } else {
      assert t == t';
    }
  }

  // ----- the shape of what each part of a step appends -----

  ghost predicate GenericallyFit(host: Host, call: ToolCall) {
    call.name !in HUMAN_GATED && (call.name == REGISTRY_TOOL || PassesSchema(host, call))
  }

  /** The middlewares let the call in at position `n` of the trace or later. */
  ghost predicate AdmittedSince(n: nat, t: Trace, call: ToolCall) {
    exists i :: n <= i < |t| && t[i] == Admitted(call)
  }

  lemma {:induction false} ScreenGenericShape(host: Host, t: Trace, calls: seq<ToolCall>, invalid: bool,
                                              batch: seq<ToolCall>)
    ensures var (t', v) := ScreenGeneric(host, t, calls, invalid, batch);
      && t <= t' && (forall i :: |t| <= i < |t'| ==> t'[i].Admitted?)
      && (v.Cleared? ==>
          && !invalid && v.batch == batch + calls
          && (forall c <- calls :: GenericallyFit(host, c))
          && (forall c <- calls :: c.name == REGISTRY_TOOL || AdmittedSince(|t|, t', c)))
    decreases |calls|
  {
    if calls != [] {
      var call, rest := calls[0], calls[1..];
      assert calls == [call] + rest;
      if call.name in HUMAN_GATED {
      } else if call.name == REGISTRY_TOOL {
        ScreenGenericShape(host, t, rest, invalid, batch + [call]);
        assert batch + [call] + rest == batch + calls;
      } else if !PassesSchema(host, call) {
        ScreenGenericShape(host, t, rest, true, batch);
      } else if host.before(t, call).None? {
        var t1 := t + [Admitted(call)];
        ScreenGenericShape(host, t1, rest, invalid, batch + [call]);
        assert batch + [call] + rest == batch + calls;
        var t' := ScreenGeneric(host, t, calls, invalid, batch).0;
        assert t'[|t|] == t1[|t|] == Admitted(call);
      }
    }
  }

  function NonRegistry(calls: seq<ToolCall>): seq<ToolCall> {
    if calls == [] then []
    else (if calls[0].name == REGISTRY_TOOL then [] else [calls[0]]) + NonRegistry(calls[1..])
  }

  lemma {:induction false} ScreenDynamicShape(host: Host, t: Trace, calls: seq<ToolCall>, batch: seq<ToolCall>)
    requires host.mode.Dynamic?
    ensures var (t', v) := ScreenDynamic(host, t, calls, batch);
      && t <= t' && (forall i :: |t| <= i < |t'| ==> t'[i].Admitted?)
      && (v.Cleared? ==>
          && v.batch == batch + NonRegistry(calls)
          && (forall c <- calls :: c.name !in HUMAN_GATED)
          && (forall c <- calls :: c.name == REGISTRY_TOOL || AdmittedSince(|t|, t', c)))
    decreases |calls|
  {
    if calls != [] {
      var call, rest := calls[0], calls[1..];
      assert calls == [call] + rest;
      if call.name == REGISTRY_TOOL {
        if !host.mode.registryEmpty {
          ScreenDynamicShape(host, t, rest, batch);
        }
      } else if call.name in HUMAN_GATED {
      } else if host.before(t, call).None? {
        var t1 := t + [Admitted(call)];
        ScreenDynamicShape(host, t1, rest, batch + [call]);
        assert batch + [call] + NonRegistry(rest) == batch + NonRegistry(calls);
        var t' := ScreenDynamic(host, t, calls, batch).0;
        assert t'[|t|] == t1[|t|] == Admitted(call);
      }
    }
  }

  ghost predicate RunsFrom(e: Event, batch: seq<ToolCall>) {
    match RanBy(e)
    case Some(call) => call in batch
    case None => e.Pivoted?
  }

  /** `t'` extends `t` by running calls of `batch` only, a prefix of it in order. */
  ghost predicate RunsPrefix(t: Trace, t': Trace, batch: seq<ToolCall>, n: nat) {
    && t <= t'
    && (forall i :: |t| <= i < |t'| ==> RunsFrom(t'[i], batch))
    && n <= |batch|
    && Ran(t') == Ran(t) + batch[..n]
  }

  lemma RunsPrefixCons(t: Trace, e: Event, t': Trace, batch: seq<ToolCall>, n: nat)
    requires batch != [] && RanBy(e) == Some(batch[0])
    requires RunsPrefix(t + [e], t', batch[1..], n)
    ensures RunsPrefix(t, t', batch, n + 1)
  {
    CountsAppend(t, e);
    assert batch[..n + 1] == [batch[0]] + batch[1..][..n];
    assert Ran(t) + [batch[0]] + batch[1..][..n] == Ran(t) + batch[..n + 1];
    forall i | |t| <= i < |t'| ensures RunsFrom(t'[i], batch) {
      if i == |t| {
        assert t'[i] == (t + [e])[i] == e;
      }
    }
  }

  lemma {:induction false} ParallelShape(host: Host, t: Trace, batch: seq<ToolCall>, done: Resolved)
    ensures RunsPrefix(t, ExecuteParallel(host, t, batch, done).0, batch, |batch|)
    ensures |ExecuteParallel(host, t, batch, done).1| == |done| + |batch|
    decreases |batch|
  {
    if batch != [] {
      var result := host.execute(t, batch[0]);
      var e := Executed(batch[0], result);
      ParallelShape(host, t + [e], batch[1..], done + [(batch[0], result)]);
      RunsPrefixCons(t, e, ExecuteParallel(host, t, batch, done).0, batch, |batch| - 1);
    }
  }

  lemma {:induction false} DiscardShape(t: Trace, batch: seq<ToolCall>)
    ensures RunsPrefix(t, DiscardAll(t, batch), batch, |batch|)
    decreases |batch|
  {
    if batch != [] {
      DiscardShape(t + [Discarded(batch[0])], batch[1..]);
      RunsPrefixCons(t, Discarded(batch[0]), DiscardAll(t, batch), batch, |batch| - 1);
    }
  }

  lemma {:induction false} SerialShape(host: Host, t: Trace, batch: seq<ToolCall>, done: Resolved) returns (n: nat)
    ensures var (t', r) := ExecuteSerial(host, t, batch, done);
      RunsPrefix(t, t', batch, n) && (r.Success? && r.value != [] ==> n == |batch|)
    decreases |batch|
  {
    if batch == [] {
      return 0;
    }
    match host.steering(t) {
      case Some(Abort) => n := 0;
      case Some(Pivot) =>
        CountsAppend(t, Pivoted);
        n := 0;
      case None =>
        var result := host.execute(t, batch[0]);
        var e := Executed(batch[0], result);
        var m := SerialShape(host, t + [e], batch[1..], done + [(batch[0], result)]);
        RunsPrefixCons(t, e, ExecuteSerial(host, t, batch, done).0, batch, m);
        n := m + 1;
    }
  }

  /** A batch runs a prefix of its calls in order, and all of them when results come back. */
  lemma ExecuteShape(host: Host, t: Trace, batch: seq<ToolCall>) returns (n: nat)
    ensures var (t', r) := Execute(host, t, batch);
      RunsPrefix(t + [BatchStarted(batch)], t', batch, n) && (r.Success? && r.value != [] ==> n == |batch|)
  {
    var t1 := t + [BatchStarted(batch)];
    if RunsInParallel(host, batch) {
      match host.interrupt(t1) {
        case None =>
          ParallelShape(host, t1, batch, []);
          n := |batch|;
        case Some(i) =>
          var t2 := t1;
          n := 0;
          if i.started {
            DiscardShape(t1, batch);
            t2 := DiscardAll(t1, batch);
            n := |batch|;
          }
          CountsAppend(t2, Pivoted);
      }
    } else {
      n := SerialShape(host, t1, batch, []);
    }
  }

  lemma {:induction false} AbsorbShape(host: Host, t: Trace, results: Resolved, executed: seq<(string, string)>)
    ensures var (t', a) := Absorb(host, t, results, executed);
      && t <= t' && (forall i :: |t| <= i < |t'| ==> t'[i].Recorded?)
      && Ran(t') == Ran(t)
    decreases |results|
  {
    if results != [] {
      var (call, result) := results[0];
      CountsAppend(t, Recorded(call));
      if result.Success? {
        AbsorbShape(host, t + [Recorded(call)], results[1..], executed + [(call.name, result.value)]);
      } else if result.error.ToolError? {
        AbsorbShape(host, t + [Recorded(call)], results[1..],
                    executed + [(call.name, FailureText(call, result.error.message))]);
      }
    }
  }

  // ----- budgets -----

  /** Each round pays for at most one follow-up decision and one outer decision. */
  ghost predicate WithinBudget(host: Host, s: State) {
    match s.control
    case Ask =>
      s.rounds <= host.maxToolRounds && Decisions(s.trace) <= 2 * s.rounds && Batches(s.trace) <= s.rounds
    case Handle(_) =>
      s.rounds <= host.maxToolRounds && Decisions(s.trace) <= 2 * s.rounds + 1 && Batches(s.trace) <= s.rounds
    case Done(_) =>
      Decisions(s.trace) <= 2 * host.maxToolRounds + 1 && Batches(s.trace) <= host.maxToolRounds
  }

  lemma OnTextBudget(host: Host, s: State, answer: string)
    requires s.rounds <= host.maxToolRounds
    requires Decisions(s.trace) <= 2 * s.rounds + 1 && Batches(s.trace) <= s.rounds
    ensures WithinBudget(host, OnText(host, s, answer))
  {
    hide Decisions, Batches;
    QuietSuffix(s.trace, s.trace + [RoundStarted, Corrected]);
  }

  lemma StepAskBudget(host: Host, s: State)
    requires s.control.Ask? && WithinBudget(host, s)
    ensures WithinBudget(host, StepAsk(host, s))
  {
    hide Decisions, Batches, OnText;
    var t := if host.steering(s.trace) == Some(Pivot) then s.trace + [Pivoted] else s.trace;
    CountsAppend(s.trace, Pivoted);
    var reply := host.decide(t);
    CountsAppend(t, Decision(Initial, reply));
    if reply.Success? && reply.value.TextAnswer? {
      OnTextBudget(host, s.(trace := t + [Decision(Initial, reply)]), reply.value.answer);
    }
  }

  lemma ResultsTrace(host: Host, s: State, results: Resolved)
    ensures var t, r := Absorb(host, s.trace, results, []).0, StepResults(host, s, results);
      r.rounds == s.rounds && (r.trace == t || r.trace == t + [Decision(FollowUp, host.decide(t))])
  {
    hide Absorb, MaybeFinalize, Deliver;
  }

  lemma StepResultsBudget(host: Host, s: State, results: Resolved)
    ensures var r := StepResults(host, s, results);
      r.rounds == s.rounds && Batches(r.trace) == Batches(s.trace) && Decisions(r.trace) <= Decisions(s.trace) + 1
  {
    var t := Absorb(host, s.trace, results, []).0;
    ResultsTrace(host, s, results);
    AbsorbShape(host, s.trace, results, []);
    hide Absorb, StepResults, Batches, Decisions;
    QuietSuffix(s.trace, t);
    CountsAppend(t, Decision(FollowUp, host.decide(t)));
  }

  /** A batch adds one executor batch and at most one decision. */
  lemma StepBatchBudget(host: Host, s: State, batch: seq<ToolCall>)
    ensures var r := StepBatch(host, s, batch);
      && r.rounds == s.rounds
      && Batches(r.trace) <= Batches(s.trace) + 1
      && Decisions(r.trace) <= Decisions(s.trace) + 1
  {
    CountsAppend(s.trace, Corrected);
    if batch != [] {
      var t0 := s.trace + [BatchStarted(batch)];
      CountsAppend(s.trace, BatchStarted(batch));
      var (t, resolved) := Execute(host, s.trace, batch);
      var _ := ExecuteShape(host, s.trace, batch);
      QuietSuffix(t0, t);
      if resolved.Success? && resolved.value != [] {
        StepResultsBudget(host, s.(trace := t), resolved.value);
      }
    }
  }

  lemma ScreenShape(host: Host, t: Trace, calls: seq<ToolCall>)
    ensures var (t', v) := Screen(host, t, calls);
      && t <= t' && (forall i :: |t| <= i < |t'| ==> t'[i].Admitted?)
      && (v.Cleared? ==>
          && v.batch == (if host.mode.Generic? then calls else NonRegistry(calls))
          && (forall c <- calls :: c.name !in HUMAN_GATED)
          && (host.mode.Generic? ==> forall c <- calls :: GenericallyFit(host, c))
          && (forall c <- calls :: c.name == REGISTRY_TOOL || AdmittedSince(|t|, t', c)))
  {
    if host.mode.Generic? {
      ScreenGenericShape(host, t, calls, false, []);
    } else {
      ScreenDynamicShape(host, t, calls, []);
    }
  }

  lemma StepScreenedBudget(host: Host, s: State, verdict: Screening)
    ensures var r := StepScreened(host, s, verdict);
      && r.rounds == s.rounds
      && Batches(r.trace) <= Batches(s.trace) + 1
      && Decisions(r.trace) <= Decisions(s.trace) + 1
  {
    CountsAppend(s.trace, Corrected);
    if verdict.Cleared? {
      StepBatchBudget(host, s, verdict.batch);
    }
  }

  lemma ScreenQuiet(host: Host, t: Trace, calls: seq<ToolCall>)
    ensures var t' := Screen(host, t + [RoundStarted], calls).0;
      Decisions(t') == Decisions(t) && Batches(t') == Batches(t)
  {
    ScreenShape(host, t + [RoundStarted], calls);
    CountsAppend(t, RoundStarted);
    QuietSuffix(t + [RoundStarted], Screen(host, t + [RoundStarted], calls).0);
  }

  lemma StepHandleBudget(host: Host, s: State, calls: seq<ToolCall>)
    requires s.control == Handle(calls) && WithinBudget(host, s)
    ensures WithinBudget(host, StepHandle(host, s, calls))
  {
    hide StepScreened, Decisions, Batches, Screen;
    var (t, verdict) := Screen(host, s.trace + [RoundStarted], calls);
    ScreenQuiet(host, s.trace, calls);
    StepScreenedBudget(host, s.(rounds := s.rounds + 1, trace := t), verdict);
  }

  lemma {:induction false} BudgetHolds(host: Host, s: State)
    requires WithinBudget(host, s)
    ensures WithinBudget(host, RunFrom(host, s))
    decreases Fuel(host, s), if s.control.Done? then 0 else 1
  {
    match s.control
    case Done(_) =>
    case Ask =>
      StepAskBudget(host, s);
      BudgetHolds(host, Step(host, s));
    case Handle(calls) =>
      StepHandleBudget(host, s, calls);
      BudgetHolds(host, Step(host, s));
  }

  /** Whatever the model answers, a run stops after at most `maxToolRounds` executor
      batches and `2 * maxToolRounds + 1` decisions of the model. */
  lemma RunBudget(host: Host)
    ensures Batches(Run(host).trace) <= host.maxToolRounds
    ensures Decisions(Run(host).trace) <= 2 * host.maxToolRounds + 1
  {
    BudgetHolds(host, START);
  }

  // ----- what a round may do -----

  ghost predicate Permitted(host: Host, call: ToolCall) {
    if host.mode.Generic? then GenericallyFit(host, call)
    else call.name !in HUMAN_GATED && call.name != REGISTRY_TOOL
  }

  /** The events that one round over `calls` may leave behind its `RoundStarted`. */
  ghost predicate Legal(host: Host, calls: seq<ToolCall>, e: Event) {
    match e
    case RoundStarted => false
    case Decision(phase, _) => phase.FollowUp?
    case Executed(call, _) => call in calls && Permitted(host, call)
    case Discarded(call) => call in calls && Permitted(host, call)
    case _ => true
  }

  ghost predicate Undecided(t: Trace, t': Trace) {
    forall i :: |t| <= i < |t'| ==> !t'[i].Decision?
  }

  ghost predicate LegalFrom(host: Host, calls: seq<ToolCall>, t: Trace, t': Trace) {
    t <= t' && forall i :: |t| <= i < |t'| ==> Legal(host, calls, t'[i])
  }

  /** The part of a batch that goes to the executor. */
  function Executable(host: Host, calls: seq<ToolCall>): seq<ToolCall> {
    if host.mode.Generic? then calls else NonRegistry(calls)
  }

  lemma {:induction false} NonRegistryMembers(calls: seq<ToolCall>)
    ensures forall c <- NonRegistry(calls) :: c in calls && c.name != REGISTRY_TOOL
  {
    if calls != [] {
      NonRegistryMembers(calls[1..]);
    }
  }

  ghost predicate NothingObjectionable(host: Host, calls: seq<ToolCall>) {
    && (forall c <- calls :: c.name !in HUMAN_GATED)
    && (host.mode.Generic? ==> forall c <- calls :: GenericallyFit(host, c))
  }

  lemma ExecutablePermitted(host: Host, calls: seq<ToolCall>)
    requires NothingObjectionable(host, calls)
    ensures forall c <- Executable(host, calls) :: c in calls && Permitted(host, c)
  {
    NonRegistryMembers(calls);
  }

  lemma LegalAppend(host: Host, calls: seq<ToolCall>, t: Trace, t': Trace, e: Event)
    requires LegalFrom(host, calls, t, t') && Legal(host, calls, e)
    ensures LegalFrom(host, calls, t, t' + [e])
  {
  }

  lemma LegalChain(host: Host, calls: seq<ToolCall>, t: Trace, t': Trace, t'': Trace)
    requires LegalFrom(host, calls, t, t') && LegalFrom(host, calls, t', t'')
    ensures LegalFrom(host, calls, t, t'')
  {
  }

  lemma ResultsShape(host: Host, calls: seq<ToolCall>, s: State, results: Resolved)
    ensures var r := StepResults(host, s, results);
      LegalFrom(host, calls, s.trace, r.trace) && Ran(r.trace) == Ran(s.trace)
  {
    var t := Absorb(host, s.trace, results, []).0;
    AbsorbShape(host, s.trace, results, []);
    assert LegalFrom(host, calls, s.trace, t);
    ResultsTrace(host, s, results);
    hide Absorb, Ran, StepResults, LegalFrom;
    var e := Decision(FollowUp, host.decide(t));
    CountsAppend(t, e);
    LegalAppend(host, calls, s.trace, t, e);
  }

  lemma ExecuteLegal(host: Host, calls: seq<ToolCall>, t: Trace) returns (n: nat)
    requires NothingObjectionable(host, calls)
    ensures var batch := Executable(host, calls);
      var (t', r) := Execute(host, t, batch);
      && LegalFrom(host, calls, t, t')
      && n <= |batch| && Ran(t') == Ran(t) + batch[..n]
      && (r.Success? && r.value != [] ==> n == |batch|)
      && Undecided(t, t')
  {
    var batch := Executable(host, calls);
    ExecutablePermitted(host, calls);
    hide Execute, Executable, NonRegistry, NothingObjectionable, Ran;
    CountsAppend(t, BatchStarted(batch));
    var t' := Execute(host, t, batch).0;
    n := ExecuteShape(host, t, batch);
    var t0 := t + [BatchStarted(batch)];
    forall i | |t| <= i < |t'| ensures Legal(host, calls, t'[i]) && !t'[i].Decision? {
      if i == |t| {
        assert t'[i] == t0[i];
      } else {
        assert RunsFrom(t'[i], batch);
      }
    }
  }

  /** A batch runs a prefix of its executable calls, and all of them before any follow-up. */
  lemma BatchShape(host: Host, calls: seq<ToolCall>, s: State) returns (n: nat)
    requires NothingObjectionable(host, calls)
    ensures var batch := Executable(host, calls);
      var t' := StepBatch(host, s, batch).trace;
      && LegalFrom(host, calls, s.trace, t')
      && n <= |batch| && Ran(t') == Ran(s.trace) + batch[..n]
      && (n < |batch| ==> Undecided(s.trace, t'))
  {
    hide Execute, Executable, NonRegistry, NothingObjectionable, Ran, StepResults;
    var batch := Executable(host, calls);
    CountsAppend(s.trace, Corrected);
    n := 0;
    if batch != [] {
      var (t, resolved) := Execute(host, s.trace, batch);
      n := ExecuteLegal(host, calls, s.trace);
      if resolved.Success? && resolved.value != [] {
        ResultsShape(host, calls, s.(trace := t), resolved.value);
      }
    }
  }

  /** What screening leaves behind is legal, runs nothing and decides nothing. */
  lemma AdmittedLegal(host: Host, calls: seq<ToolCall>, t: Trace, t': Trace)
    requires t <= t' && forall i :: |t| <= i < |t'| ==> t'[i].Admitted?
    ensures LegalFrom(host, calls, t, t') && LegalFrom(host, calls, t, t' + [Corrected])
    ensures Undecided(t, t') && Undecided(t, t' + [Corrected])
    ensures Ran(t') == Ran(t) && Ran(t' + [Corrected]) == Ran(t)
  {
    AdmittedRunsNothing(t, t');
    CountsAppend(t', Corrected);
  }

  /** The ways a round can go: out of rounds, stopped by the screening, or on to its batch. */
  lemma RoundCases(host: Host, s: State, calls: seq<ToolCall>)
    requires s.control == Handle(calls)
    ensures var r, (t, v) := StepHandle(host, s, calls), Screen(host, s.trace + [RoundStarted], calls);
      || r.trace == s.trace || r.trace == t || r.trace == t + [Corrected]
      || (v.Cleared? && r == StepBatch(host, s.(rounds := s.rounds + 1, trace := t), v.batch))
  {
    hide StepBatch, Screen;
    var (t, v) := Screen(host, s.trace + [RoundStarted], calls);
    var s1 := s.(rounds := s.rounds + 1, trace := t);
    var r := StepHandle(host, s, calls);
    if r.trace != s.trace {
      assert r == StepScreened(host, s1, v);
    }
  }

  lemma UndecidedChain(t: Trace, e: Event, t': Trace, t'': Trace)
    requires !e.Decision? && t + [e] <= t' <= t'' && Undecided(t + [e], t') && Undecided(t', t'')
    ensures Undecided(t, t'')
  {
    assert t''[|t|] == (t + [e])[|t|];
  }

  /** One round. Its calls run in order and only if the whole batch is unobjectionable;
      the follow-up comes after all of them. */
  lemma RoundShape(host: Host, s: State, calls: seq<ToolCall>) returns (n: nat)
    requires s.control == Handle(calls)
    ensures var r := StepHandle(host, s, calls);
      var batch := Executable(host, calls);
      && n <= |batch| && Ran(r.trace) == Ran(s.trace) + batch[..n]
      && (r.trace == s.trace || LegalFrom(host, calls, s.trace + [RoundStarted], r.trace))
      && (n > 0 ==> NothingObjectionable(host, calls))
      && (n < |batch| ==> Undecided(s.trace, r.trace))
  {
    var t0 := s.trace + [RoundStarted];
    var (t, verdict) := Screen(host, t0, calls);
    ScreenedBatch(host, t0, calls);
    RoundCases(host, s, calls);
    ScreenShape(host, t0, calls);
    AdmittedLegal(host, calls, t0, t);
    CountsAppend(s.trace, RoundStarted);
    n := 0;
    var batch, r := Executable(host, calls), StepHandle(host, s, calls);
    assert batch[..0] == [] && Ran(s.trace) + [] == Ran(s.trace);
    UndecidedChain(s.trace, RoundStarted, t, t);
    UndecidedChain(s.trace, RoundStarted, t, t + [Corrected]);
    assert Undecided(s.trace, s.trace);
    hide StepHandle, StepBatch, Screen, Executable, Ran, LegalFrom, Undecided, NothingObjectionable;
    if r.trace != s.trace && r.trace != t && r.trace != t + [Corrected] {
      n := BatchShape(host, calls, s.(rounds := s.rounds + 1, trace := t));
      LegalChain(host, calls, t0, t, r.trace);
      if n < |batch| {
        LegalExtends(host, calls, t, r.trace);
        UndecidedChain(s.trace, RoundStarted, t, r.trace);
      }
    }
  }

  lemma LegalExtends(host: Host, calls: seq<ToolCall>, t: Trace, t': Trace)
    requires LegalFrom(host, calls, t, t')
    ensures t <= t'
  {
  }

  lemma ScreenedBatch(host: Host, t: Trace, calls: seq<ToolCall>)
    ensures var v := Screen(host, t, calls).1;
      v.Cleared? ==> v.batch == Executable(host, calls) && NothingObjectionable(host, calls)
  {
    ScreenShape(host, t, calls);
  }

  lemma {:induction false} AdmittedRunsNothing(t: Trace, t': Trace)
    requires t <= t' && forall i :: |t| <= i < |t'| ==> t'[i].Admitted?
    ensures Ran(t') == Ran(t)
    decreases |t'|
  {
    if |t| < |t'| {
      AdmittedRunsNothing(t, t'[..|t'| - 1]);
    } else {
      assert t == t';
    }
  }

  /** The gate: one objectionable call, and no call of the batch reaches the executor. */
  lemma GateIsAllOrNothing(host: Host, s: State, calls: seq<ToolCall>)
    requires s.control == Handle(calls) && !NothingObjectionable(host, calls)
    ensures Ran(Step(host, s).trace) == Ran(s.trace)
  {
    var n := RoundShape(host, s, calls);
    hide Ran, StepHandle, Executable;
    assert Executable(host, calls)[..0] == [] && Ran(s.trace) + [] == Ran(s.trace);
  }

  // ----- safety over whole runs -----

  /** The model asked for the call, in so many words or in a text that repair turned into it. */
  ghost predicate Asks(host: Host, e: Event, call: ToolCall) {
    e.Decision? && e.reply.Success?
    && match e.reply.value
       case ToolCalls(calls) => call in calls
       case TextAnswer(answer) => host.repairPermitted && host.repair(answer) == Some(call)
  }

  ghost predicate Requested(host: Host, t: Trace, call: ToolCall) {
    exists j :: 0 <= j < |t| && Asks(host, t[j], call)
  }

  /** Only what the model asked for and the screening permits reaches the executor. */
  ghost predicate SafeTrace(host: Host, t: Trace) {
    forall i :: 0 <= i < |t| && RanBy(t[i]).Some? ==>
      Permitted(host, RanBy(t[i]).value) && Requested(host, t[..i], RanBy(t[i]).value)
  }

  ghost predicate SafeState(host: Host, s: State) {
    SafeTrace(host, s.trace)
    && (s.control.Handle? ==> forall c <- s.control.calls :: Requested(host, s.trace, c))
  }

  lemma RequestedMonotone(host: Host, t: Trace, t': Trace, call: ToolCall)
    requires t <= t' && Requested(host, t, call)
    ensures Requested(host, t', call)
  {
    var j :| 0 <= j < |t| && Asks(host, t[j], call);
    assert t'[j] == t[j];
  }

  lemma SafeExtension(host: Host, t: Trace, t': Trace)
    requires SafeTrace(host, t) && t <= t'
    requires forall i :: |t| <= i < |t'| && RanBy(t'[i]).Some? ==>
      Permitted(host, RanBy(t'[i]).value) && Requested(host, t, RanBy(t'[i]).value)
    ensures SafeTrace(host, t')
  {
    forall i | 0 <= i < |t'| && RanBy(t'[i]).Some?
      ensures Permitted(host, RanBy(t'[i]).value) && Requested(host, t'[..i], RanBy(t'[i]).value)
    {
      if i < |t| {
        assert t'[i] == t[i] && t'[..i] == t[..i];
      } else {
        RequestedMonotone(host, t, t'[..i], RanBy(t'[i]).value);
      }
    }
  }

  /** Whatever a step hands on for processing stems from the decision that ends its trace. */
  lemma HandedOnIsAsked(host: Host, s: State)
    requires !s.control.Done?
    ensures var r := Step(host, s);
      r.control.Handle? ==>
        r.trace != [] && forall c <- r.control.calls :: Asks(host, r.trace[|r.trace| - 1], c)
  {
    hide Execute, Absorb, MaybeFinalize, Screen;
  }

  lemma StepAskAppends(host: Host, s: State)
    ensures s.trace <= StepAsk(host, s).trace
    ensures forall i :: |s.trace| <= i < |StepAsk(host, s).trace| ==> RanBy(StepAsk(host, s).trace[i]).None?
  {
  }

  lemma StepSafe(host: Host, s: State)
    requires !s.control.Done? && SafeState(host, s)
    ensures SafeState(host, Step(host, s))
  {
    var r := Step(host, s);
    HandedOnIsAsked(host, s);
    if s.control.Ask? {
      StepAskAppends(host, s);
    } else {
      var _ := RoundShape(host, s, s.control.calls);
    }
    hide Step, StepAsk, StepHandle, Ran, Executable;
    if s.control.Ask? {
      SafeExtension(host, s.trace, r.trace);
    } else if r.trace != s.trace {
      assert r.trace[|s.trace|] == (s.trace + [RoundStarted])[|s.trace|];
      forall i | |s.trace| <= i < |r.trace| && RanBy(r.trace[i]).Some?
        ensures Permitted(host, RanBy(r.trace[i]).value) && Requested(host, s.trace, RanBy(r.trace[i]).value)
      {
        if i > |s.trace| {
          assert Legal(host, s.control.calls, r.trace[i]);
        }
      }
      SafeExtension(host, s.trace, r.trace);
    }
    if r.control.Handle? {
      forall c | c in r.control.calls ensures Requested(host, r.trace, c) {
        assert Asks(host, r.trace[|r.trace| - 1], c);
      }
    }
  }

  lemma {:induction false} SafetyHolds(host: Host, s: State)
    requires SafeState(host, s)
    ensures SafeTrace(host, RunFrom(host, s).trace)
    decreases Fuel(host, s), if s.control.Done? then 0 else 1
  {
    if !s.control.Done? {
      StepSafe(host, s);
      SafetyHolds(host, Step(host, s));
    }
  }

  /** No run ever executes a human-gated call, a call its screening would refuse, or a call
      that the model did not ask for before. */
  lemma RunIsSafe(host: Host)
    ensures SafeTrace(host, Run(host).trace)
  {
    SafetyHolds(host, START);
  }

  /** In particular no run ever hands a shell command or a file to be written to the executor. */
  lemma NothingDestructiveRuns(host: Host, i: nat)
    requires i < |Run(host).trace| && Run(host).trace[i].Executed?
    ensures Run(host).trace[i].call.name != "run_shell" && Run(host).trace[i].call.name != "write_file"
  {
    RunIsSafe(host);
    hide Run, Requested, PassesSchema;
    assert RanBy(Run(host).trace[i]).Some?;
  }
}
