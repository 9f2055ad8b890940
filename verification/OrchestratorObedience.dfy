/** What follows every decision of the model, told on the record of the whole run: an answer ends
    the run, a request starts a round, a correction goes back to the model, an error is passed on. */
module OrchestratorObedience {
  import opened Common
  import opened Orchestrator
  import opened OrchestratorSafety
  import opened OrchestratorLimits
  import opened OrchestratorStop
  import opened OrchestratorOutcome

  // ----- the laws -----

  /** The run `(t, r)` ends after `n` events with this outcome. */
  ghost predicate Ends(t: Trace, r: Outcome, n: nat, outcome: Outcome) {
    |t| == n && r == outcome
  }

  predicate Repairs(host: Host, answer: string) {
    host.repairPermitted && host.repair(answer).Some?
  }

  /** An answer to the outer loop that is no call in disguise and names no tool. */
  ghost predicate PlainAnswer(host: Host, e: Event) {
    && e.Decision? && e.phase.Initial? && e.reply.Success? && e.reply.value.TextAnswer?
    && !Repairs(host, e.reply.value.answer) && !host.namesTool(e.reply.value.answer)
  }

  predicate MayOblige(host: Host) {
    host.repairPermitted && host.mode.Dynamic? && host.mode.obligationApplies
  }

  /** The model is obliged to use a tool, and has not been told so yet: it is told after the first
      plain answer. */
  ghost predicate ObligationDue(host: Host, t: Trace) {
    MayOblige(host) && forall j :: 0 <= j < |t| ==> !PlainAnswer(host, t[j])
  }

  /** The outer loop takes its turn after `n` events: it stops, or it asks the model. */
  ghost predicate Turns(host: Host, t: Trace, r: Outcome, n: nat) {
    && n <= |t|
    && var p := t[..n];
       if host.estop(p) || host.steering(p) == Some(Abort) then Ends(t, r, n, Failure(UserAborted))
       else
         var m := if host.steering(p) == Some(Pivot) then n + 1 else n;
         && m < |t| && (m > n ==> t[n] == Pivoted)
         && t[m] == Decision(Initial, host.decide(t[..m]))
  }

  /** The model is corrected after the record `q` and asked again. */
  ghost predicate Corrects(host: Host, t: Trace, r: Outcome, q: Trace) {
    q + [Corrected] <= t && Turns(host, t, r, |q| + 1)
  }

  /** The calls are processed after `n` events. */
  ghost predicate Processes(host: Host, t: Trace, r: Outcome, n: nat, calls: seq<ToolCall>) {
    && n <= |t|
    && var p := t[..n];
       if host.mode.Dynamic? && host.estop(p) then Ends(t, r, n, Failure(UserAborted))
       else if calls == [] then Ends(t, r, n, Success(Completed("")))
       else if RoundsStarted(p) >= host.maxToolRounds then
         Ends(t, r, n, Failure(MaxRoundsExceeded(host.maxToolRounds)))
       else Screens(host, t, r, p + [RoundStarted], calls)
  }

  ghost predicate Screens(host: Host, t: Trace, r: Outcome, q: Trace, calls: seq<ToolCall>) {
    var (q', v) := Screen(host, q, calls);
    match v
    case Yielded(call) => t == q' && r == Success(ToolApprovalRequired(call))
    case Refused(e) => t == q' && r == Failure(e)
    case Rejected => Corrects(host, t, r, q')
    case Cleared(batch) => if batch == [] then Corrects(host, t, r, q') else Runs(host, t, r, q', batch)
  }

  ghost predicate Runs(host: Host, t: Trace, r: Outcome, q: Trace, batch: seq<ToolCall>) {
    var (q', resolved) := Execute(host, q, batch);
    match resolved
    case Failure(e) => t == q' && r == Failure(e)
    case Success(results) =>
      if results == [] then t == q' && r == Success(Completed("")) else Feeds(host, t, r, q', results)
  }

  /** The results are fed back: the run stops, ends with the words of scheduling tools, or asks on. */
  ghost predicate Feeds(host: Host, t: Trace, r: Outcome, q: Trace, results: Resolved) {
    var (q', absorbed) := Absorb(host, q, results, []);
    match absorbed
    case Stop(outcome) => t == q' && r == outcome
    case Absorbed(executed) =>
      match MaybeFinalize(host, executed)
      case None => q' + [Decision(FollowUp, host.decide(q'))] <= t
      case Some(text) =>
        if text == CONTINUE_LOOP then q' <= t && Turns(host, t, r, |q'|)
        else t == q' && r == Success(Completed(text))
  }

  /** What the decision at position `i` of the run leads to. */
  ghost predicate Obeyed(host: Host, t: Trace, r: Outcome, i: nat)
    requires i < |t| && t[i].Decision?
  {
    var n, phase := i + 1, t[i].phase;
    match t[i].reply
    case Failure(e) => Ends(t, r, n, Failure(e))
    case Success(ToolCalls(calls)) =>
      if phase.FollowUp? && calls == [] then Turns(host, t, r, n) else Processes(host, t, r, n, calls)
    case Success(TextAnswer(answer)) =>
      if Repairs(host, answer) then Processes(host, t, r, n, [host.repair(answer).value])
      else if phase.FollowUp? then
        if answer == CONTINUE_LOOP then Turns(host, t, r, n) else Ends(t, r, n, Success(Completed(answer)))
      else if !host.namesTool(answer) && !ObligationDue(host, t[..i]) then
        Ends(t, r, n, Success(Completed(answer)))
      else if RoundsStarted(t[..n]) >= host.maxToolRounds then
        Ends(t, r, n, Failure(MaxRoundsExceeded(host.maxToolRounds)))
      else t[..n] + [RoundStarted] <= t && Corrects(host, t, r, t[..n] + [RoundStarted])
  }

  ghost predicate AllObeyed(host: Host, t: Trace, r: Outcome, from: nat) {
    forall i: nat :: from <= i < |t| && t[i].Decision? ==> Obeyed(host, t, r, i)
  }

  // ----- what the state knows about its record -----

  ghost predicate KnowsRecord(host: Host, s: State) {
    && CountsRounds(host, s)
    && (MayOblige(host) ==> (s.obligated <==> exists j :: 0 <= j < |s.trace| && PlainAnswer(host, s.trace[j])))
  }

  /** What is to happen in a state happens in the run from it. */
  ghost predicate Comes(host: Host, s: State, t: Trace, r: Outcome) {
    match s.control
    case Ask => Turns(host, t, r, |s.trace|)
    case Handle(calls) => Processes(host, t, r, |s.trace|, calls)
    case Done(outcome) => Ends(t, r, |s.trace|, outcome)
  }

  // ----- a turn of the outer loop -----

  /** The decision that a turn takes, if it takes one. */
  function Before(host: Host, s: State): Trace {
    if host.steering(s.trace) == Some(Pivot) then s.trace + [Pivoted] else s.trace
  }

  predicate Halts(host: Host, s: State) {
    host.estop(s.trace) || host.steering(s.trace) == Some(Abort)
  }

  lemma AskCases(host: Host, s: State)
    ensures Halts(host, s) ==> StepAsk(host, s) == s.(control := Done(Failure(UserAborted)))
    ensures !Halts(host, s) ==>
      var p, r := Before(host, s), StepAsk(host, s);
      var reply := host.decide(p);
      var q := p + [Decision(Initial, reply)];
      match reply {
        case Failure(e) => r == s.(control := Done(Failure(e)), trace := q)
        case Success(ToolCalls(calls)) => r == s.(control := Handle(calls), trace := q)
        case Success(TextAnswer(answer)) => r == OnText(host, s.(trace := q), answer)
      }
  {
  }

  lemma TextCases(host: Host, s: State, answer: string)
    ensures var r := OnText(host, s, answer);
      if Repairs(host, answer) then r == s.(control := Handle([host.repair(answer).value]))
      else if !host.namesTool(answer) && !(MayOblige(host) && !s.obligated) then
        r == s.(control := Done(Success(Completed(answer))))
      else if s.rounds >= host.maxToolRounds then
        r.control == Done(Failure(MaxRoundsExceeded(host.maxToolRounds))) && r.trace == s.trace
      else
        && r.control == Ask && r.trace == s.trace + [RoundStarted, Corrected] && r.rounds == s.rounds + 1
        && r.obligated == (if host.namesTool(answer) then s.obligated else true)
  {
  }

  /** The turn's decision is the only one that the turn adds. */
  lemma OnlyDecision(host: Host, s: State)
    requires !Halts(host, s)
    ensures var m, r := |Before(host, s)|, StepAsk(host, s).trace;
      && m < |r| && Before(host, s) + [Decision(Initial, host.decide(Before(host, s)))] <= r
      && forall i :: |s.trace| <= i < |r| && i != m ==> !r[i].Decision?
  {
    AskCases(host, s);
    var p := Before(host, s);
    var reply := host.decide(p);
    if reply.Success? && reply.value.TextAnswer? {
      TextCases(host, s.(trace := p + [Decision(Initial, reply)]), reply.value.answer);
    }
    hide StepAsk, OnText;
  }

  lemma AskTurns(host: Host, s: State, t: Trace, r: Outcome)
    requires s.control.Ask? && StepAsk(host, s).trace <= t
    requires StepAsk(host, s).control.Done? ==> Ends(t, r, |StepAsk(host, s).trace|, StepAsk(host, s).control.outcome)
    ensures Turns(host, t, r, |s.trace|)
  {
    AskCases(host, s);
    assert t[..|s.trace|] == s.trace by { StepAskAppends(host, s); }
    if !Halts(host, s) {
      OnlyDecision(host, s);
      var p := Before(host, s);
      assert t[..|p|] == p;
    }
    hide StepAsk;
  }

  lemma AskObeyed(host: Host, s: State, t: Trace, r: Outcome)
    requires s.control.Ask? && KnowsRecord(host, s) && !Halts(host, s)
    requires StepAsk(host, s).trace <= t && Comes(host, StepAsk(host, s), t, r)
    ensures var m := |Before(host, s)|;
      m < |t| && t[m].Decision? && Obeyed(host, t, r, m)
  {
    var p, s' := Before(host, s), StepAsk(host, s);
    var m, reply := |p|, host.decide(p);
    var q := p + [Decision(Initial, reply)];
    AskCases(host, s);
    OnlyDecision(host, s);
    assert t[..m + 1] == q && t[m] == Decision(Initial, reply) && t[..m] == p;
    CountsBefore(host, s);
    hide StepAsk, RoundsStarted, Processes, Screen;
    if reply.Success? && reply.value.TextAnswer? {
      var answer := reply.value.answer;
      TextCases(host, s.(trace := q), answer);
      DueBefore(host, s);
      hide OnText, ObligationDue, Turns;
      if s'.control.Ask? {
        assert q + [RoundStarted, Corrected] == q + [RoundStarted] + [Corrected];
        assert Corrects(host, t, r, q + [RoundStarted]);
      }
    }
  }

  lemma CountsBefore(host: Host, s: State)
    requires s.control.Ask? && CountsRounds(host, s)
    ensures RoundsStarted(Before(host, s) + [Decision(Initial, host.decide(Before(host, s)))]) == s.rounds
  {
    NoRoundsAdded(s.trace, Before(host, s) + [Decision(Initial, host.decide(Before(host, s)))]);
  }

  lemma DueBefore(host: Host, s: State)
    requires s.control.Ask? && KnowsRecord(host, s)
    ensures ObligationDue(host, Before(host, s)) <==> MayOblige(host) && !s.obligated
  {
    hide RoundsStarted, PlainAnswer;
    var p := Before(host, s);
    assert !PlainAnswer(host, Pivoted) by { PivotIsNoAnswer(host); }
    assert forall j :: 0 <= j < |s.trace| ==> p[j] == s.trace[j];
    assert forall j :: |s.trace| <= j < |p| ==> p[j] == Pivoted;
  }

  lemma PivotIsNoAnswer(host: Host)
    ensures !PlainAnswer(host, Pivoted) && !PlainAnswer(host, RoundStarted) && !PlainAnswer(host, Corrected)
  {
  }

  lemma AskKnows(host: Host, s: State)
    requires s.control.Ask? && KnowsRecord(host, s) && !StepAsk(host, s).control.Done?
    ensures KnowsRecord(host, StepAsk(host, s))
  {
    StepAskCounts(host, s);
    var p, s' := Before(host, s), StepAsk(host, s);
    var reply := host.decide(p);
    var e := Decision(Initial, reply);
    AskCases(host, s);
    OnlyDecision(host, s);
    if reply.Success? && reply.value.TextAnswer? {
      TextCases(host, s.(trace := p + [e]), reply.value.answer);
    }
    PivotIsNoAnswer(host);
    if MayOblige(host) {
      assert s'.obligated <==> s.obligated || PlainAnswer(host, e);
      hide StepAsk, OnText, RoundsStarted;
      PlainAnswersAdded(host, s.trace, p, e, s'.trace);
    }
    hide StepAsk, OnText, RoundsStarted, PlainAnswer;
  }

  ghost predicate HasPlainAnswer(host: Host, t: Trace) {
    exists j :: 0 <= j < |t| && PlainAnswer(host, t[j])
  }

  lemma PlainAnswersAdded(host: Host, t: Trace, p: Trace, e: Event, t': Trace)
    requires t <= p && (forall j :: |t| <= j < |p| ==> !PlainAnswer(host, p[j]))
    requires p + [e] <= t' && (forall j :: |p| < j < |t'| ==> !PlainAnswer(host, t'[j]))
    ensures HasPlainAnswer(host, t') <==> HasPlainAnswer(host, t) || PlainAnswer(host, e)
  {
    hide PlainAnswer;
    assert t'[|p|] == e;
    assert forall j :: 0 <= j < |p| ==> t'[j] == p[j];
    assert forall j :: 0 <= j < |t| ==> p[j] == t[j];
  }

  // ----- a round -----

  /** The step from here on leads to the run `(t, r)`. */
  ghost predicate LeadsTo(host: Host, s: State, t: Trace, r: Outcome) {
    && s.trace <= t
    && (s.control.Ask? ==> Turns(host, t, r, |s.trace|))
    && (s.control.Done? ==> Ends(t, r, |s.trace|, s.control.outcome))
  }

  lemma FollowUpAppends(host: Host, s: State)
    ensures StepFollowUp(host, s).trace == s.trace + [Decision(FollowUp, host.decide(s.trace))]
  {
  }

  lemma ResultsFeed(host: Host, s: State, results: Resolved, t: Trace, r: Outcome)
    requires LeadsTo(host, StepResults(host, s, results), t, r)
    ensures Feeds(host, t, r, s.trace, results)
  {
    hide Absorb, MaybeFinalize, StepResults, StepFollowUp, Turns;
    var (q, absorbed) := Absorb(host, s.trace, results, []);
    AbsorbOutcome(host, s.trace, results, []);
    ResultsEnd(host, s, results);
    FollowUpAppends(host, s.(trace := q));
  }

  lemma BatchRuns(host: Host, s: State, batch: seq<ToolCall>, t: Trace, r: Outcome)
    requires batch != [] && LeadsTo(host, StepBatch(host, s, batch), t, r)
    ensures Runs(host, t, r, s.trace, batch)
  {
    hide Execute, StepResults, Feeds, Turns;
    var (q, resolved) := Execute(host, s.trace, batch);
    if resolved.Success? && resolved.value != [] {
      ResultsFeed(host, s.(trace := q), resolved.value, t, r);
    }
  }

  lemma RoundScreens(host: Host, s: State, q: Trace, calls: seq<ToolCall>, t: Trace, r: Outcome)
    requires s.trace == Screen(host, q, calls).0
    requires LeadsTo(host, StepScreened(host, s, Screen(host, q, calls).1), t, r)
    ensures Screens(host, t, r, q, calls)
  {
    hide Screen, StepScreened, StepBatch, Runs, Turns;
    var v := Screen(host, q, calls).1;
    ScreenedCases(host, s, v);
    if v.Cleared? && v.batch != [] {
      BatchRuns(host, s, v.batch, t, r);
    }
  }

  lemma HandleProcesses(host: Host, s: State, calls: seq<ToolCall>, t: Trace, r: Outcome)
    requires s.control == Handle(calls) && CountsRounds(host, s)
    requires s.trace <= t && LeadsTo(host, StepHandle(host, s, calls), t, r)
    ensures Processes(host, t, r, |s.trace|, calls)
  {
    hide StepHandle, StepScreened, Screen, Screens, Turns, RoundsStarted;
    HandleCases(host, s, calls);
    assert t[..|s.trace|] == s.trace;
    var q0 := s.trace + [RoundStarted];
    if !(host.mode.Dynamic? && host.estop(s.trace)) && calls != [] && s.rounds < host.maxToolRounds {
      RoundScreens(host, s.(rounds := s.rounds + 1, trace := Screen(host, q0, calls).0), q0, calls, t, r);
    }
  }

  // ----- the follow-up decision -----

  ghost predicate NoDecision(t: Trace, t': Trace) {
    t <= t' && forall i :: |t| <= i < |t'| ==> !t'[i].Decision?
  }

  /** A round takes no decision, or one that ends its record. */
  ghost predicate DecidesLast(host: Host, t: Trace, r: State) {
    || NoDecision(t, r.trace)
    || exists s: State :: NoDecision(t, s.trace) && r == StepFollowUp(host, s)
  }

  lemma DecidesLaterLast(host: Host, t: Trace, t': Trace, r: State)
    requires NoDecision(t, t') && DecidesLast(host, t', r)
    ensures DecidesLast(host, t, r)
  {
    hide StepFollowUp;
    if !NoDecision(t', r.trace) {
      var s: State :| NoDecision(t', s.trace) && r == StepFollowUp(host, s);
      assert NoDecision(t, s.trace) && r == StepFollowUp(host, s);
    }
  }

  lemma ResultsDecideLast(host: Host, s: State, results: Resolved)
    ensures DecidesLast(host, s.trace, StepResults(host, s, results))
  {
    var (q, absorbed) := Absorb(host, s.trace, results, []);
    AbsorbShape(host, s.trace, results, []);
    assert NoDecision(s.trace, q);
    ResultsEnd(host, s, results);
    hide Absorb, MaybeFinalize, StepResults, StepFollowUp, NoDecision;
    var s' := s.(trace := q);
    assert StepResults(host, s, results).trace == q || StepResults(host, s, results) == StepFollowUp(host, s');
  }

  lemma BatchDecidesLast(host: Host, s: State, batch: seq<ToolCall>)
    ensures DecidesLast(host, s.trace, StepBatch(host, s, batch))
  {
    if batch != [] {
      var (q, resolved) := Execute(host, s.trace, batch);
      var _ := ExecuteShape(host, s.trace, batch);
      assert NoDecision(s.trace, q) by {
        hide Execute;
        var q0 := s.trace + [BatchStarted(batch)];
        forall i | |s.trace| <= i < |q| ensures !q[i].Decision? {
          if i == |s.trace| {
            assert q[i] == q0[i];
          } else {
            assert RunsFrom(q[i], batch);
          }
        }
      }
      hide Execute, StepResults, NoDecision;
      if resolved.Success? && resolved.value != [] {
        ResultsDecideLast(host, s.(trace := q), resolved.value);
        DecidesLaterLast(host, s.trace, q, StepResults(host, s.(trace := q), resolved.value));
      }
    } else {
      hide DecidesLast;
      NothingDecided(host, s, batch);
    }
  }

  lemma NothingDecided(host: Host, s: State, batch: seq<ToolCall>)
    requires batch == []
    ensures DecidesLast(host, s.trace, StepBatch(host, s, batch))
  {
    assert NoDecision(s.trace, s.trace + [Corrected]);
  }

  lemma HandleDecidesLast(host: Host, s: State, calls: seq<ToolCall>)
    ensures DecidesLast(host, s.trace, StepHandle(host, s, calls))
  {
    var q0 := s.trace + [RoundStarted];
    var (q, v) := Screen(host, q0, calls);
    var s' := s.(rounds := s.rounds + 1, trace := q);
    HandleCases(host, s, calls);
    ScreenShape(host, q0, calls);
    ScreenedCases(host, s', v);
    assert NoDecision(s.trace, s.trace);
    assert NoDecision(s.trace, q) by {
      assert forall i :: |s.trace| <= i < |q| ==> q[i] == RoundStarted || q[i].Admitted? by {
        assert q[|s.trace|] == q0[|s.trace|];
      }
    }
    assert NoDecision(s.trace, q + [Corrected]);
    hide StepHandle, StepScreened, StepBatch, Screen, NoDecision, StepFollowUp;
    if v.Cleared? {
      BatchDecidesLast(host, s', v.batch);
      DecidesLaterLast(host, s.trace, q, StepBatch(host, s', v.batch));
    }
  }

  lemma FollowUpObeyed(host: Host, s: State, t: Trace, r: Outcome)
    requires Comes(host, StepFollowUp(host, s), t, r) && StepFollowUp(host, s).trace <= t
    ensures var m := |s.trace|;
      m < |t| && t[m].Decision? && Obeyed(host, t, r, m)
  {
    var reply := host.decide(s.trace);
    var q := s.trace + [Decision(FollowUp, reply)];
    FollowUpAppends(host, s);
    assert t[|s.trace|] == q[|s.trace|] && t[..|q|] == q;
    hide Turns, Processes;
  }

  lemma HandleObeyed(host: Host, s: State, calls: seq<ToolCall>, t: Trace, r: Outcome, i: nat)
    requires Comes(host, StepHandle(host, s, calls), t, r) && StepHandle(host, s, calls).trace <= t
    requires |s.trace| <= i < |StepHandle(host, s, calls).trace| && t[i].Decision?
    ensures Obeyed(host, t, r, i)
  {
    var s' := StepHandle(host, s, calls);
    HandleDecidesLast(host, s, calls);
    hide StepHandle, StepFollowUp, Obeyed, Comes;
    assert t[i] == s'.trace[i];
    var p: State :| NoDecision(s.trace, p.trace) && s' == StepFollowUp(host, p);
    FollowUpAppends(host, p);
    assert i >= |p.trace| by {
      assert forall k :: |s.trace| <= k < |p.trace| ==> s'.trace[k] == p.trace[k];
    }
    FollowUpObeyed(host, p, t, r);
  }

  lemma HandleKnows(host: Host, s: State, calls: seq<ToolCall>)
    requires s.control == Handle(calls) && KnowsRecord(host, s)
    ensures !StepHandle(host, s, calls).control.Done? ==> KnowsRecord(host, StepHandle(host, s, calls))
  {
    var s' := StepHandle(host, s, calls);
    StepHandleCounts(host, s, calls);
    HandleKeepsObligation(host, s, calls);
    var _ := RoundShape(host, s, calls);
    hide StepHandle, RoundsStarted, Ran, Executable, NothingObjectionable, Undecided;
    if MayOblige(host) && s'.trace != s.trace {
      var q0 := s.trace + [RoundStarted];
      assert forall i :: |q0| <= i < |s'.trace| ==> !PlainAnswer(host, s'.trace[i]) by {
        forall i | |q0| <= i < |s'.trace| ensures !PlainAnswer(host, s'.trace[i]) {
          assert Legal(host, calls, s'.trace[i]);
        }
      }
      PivotIsNoAnswer(host);
      hide LegalFrom;
      assert q0 <= s'.trace by { LegalExtends(host, calls, q0, s'.trace); }
      PlainAnswersAdded(host, s.trace, s.trace, RoundStarted, s'.trace);
    }
  }

  // ----- whole runs -----

  lemma {:induction false} RunObeys(host: Host, s: State)
    requires KnowsRecord(host, s)
    ensures var t, r := RunFrom(host, s).trace, RunFrom(host, s).control.outcome;
      s.trace <= t && Comes(host, s, t, r) && AllObeyed(host, t, r, |s.trace|)
    decreases Fuel(host, s), if s.control.Done? then 0 else 1
  {
    RunExtends(host, s);
    hide StepAsk, StepHandle, KnowsRecord, Fuel, Obeyed, Turns, Processes;
    var t, r := RunFrom(host, s).trace, RunFrom(host, s).control.outcome;
    if !s.control.Done? {
      var s' := Step(host, s);
      RunExtends(host, s');
      if !s'.control.Done? {
        match s.control {
          case Ask => AskKnows(host, s);
          case Handle(calls) => HandleKnows(host, s, calls);
        }
        RunObeys(host, s');
      }
      assert Comes(host, s', t, r) && AllObeyed(host, t, r, |s'.trace|);
      match s.control {
        case Ask => AskStepObeyed(host, s, t, r);
        case Handle(calls) => HandleStepObeyed(host, s, calls, t, r);
      }
    }
  }

  lemma AskStepObeyed(host: Host, s: State, t: Trace, r: Outcome)
    requires s.control.Ask? && KnowsRecord(host, s) && StepAsk(host, s).trace <= t
    requires Comes(host, StepAsk(host, s), t, r) && AllObeyed(host, t, r, |StepAsk(host, s).trace|)
    ensures Comes(host, s, t, r) && AllObeyed(host, t, r, |s.trace|)
  {
    AskTurns(host, s, t, r);
    AskCases(host, s);
    if !Halts(host, s) {
      AskObeyed(host, s, t, r);
      OnlyDecision(host, s);
    }
    hide StepAsk, Obeyed, Turns, Processes, KnowsRecord, OnText;
    var s' := StepAsk(host, s);
    forall i: nat | |s.trace| <= i < |t| && t[i].Decision? ensures Obeyed(host, t, r, i) {
      if i < |s'.trace| {
        assert t[i] == s'.trace[i];
      }
    }
  }

  lemma HandleStepObeyed(host: Host, s: State, calls: seq<ToolCall>, t: Trace, r: Outcome)
    requires s.control == Handle(calls) && KnowsRecord(host, s) && s.trace <= t && StepHandle(host, s, calls).trace <= t
    requires Comes(host, StepHandle(host, s, calls), t, r) && AllObeyed(host, t, r, |StepHandle(host, s, calls).trace|)
    ensures Comes(host, s, t, r) && AllObeyed(host, t, r, |s.trace|)
  {
    hide StepHandle, Obeyed, Turns, Processes;
    HandleProcesses(host, s, calls, t, r);
    var s' := StepHandle(host, s, calls);
    forall i: nat | |s.trace| <= i < |t| && t[i].Decision? ensures Obeyed(host, t, r, i) {
      if i < |s'.trace| {
        HandleObeyed(host, s, calls, t, r, i);
      }
    }
  }

  /** In every run the outer loop takes the first turn, and every decision is obeyed. */
  lemma DecisionsAreObeyed(host: Host)
    ensures var t, r := Run(host).trace, Run(host).control.outcome;
      Turns(host, t, r, 0) && AllObeyed(host, t, r, 0)
  {
    RunObeys(host, START);
  }

  /** A plain answer ends the run and is what the run returns: an answer to a follow-up unless it
      is the marker, an answer to the outer loop unless it names a tool or an obligation is due. */
  lemma AnswerEndsTheRun(host: Host, i: nat, answer: string)
    requires i < |Run(host).trace| && Run(host).trace[i].Decision?
    requires Run(host).trace[i].reply == Success(TextAnswer(answer)) && !Repairs(host, answer)
    requires if Run(host).trace[i].phase.FollowUp? then answer != CONTINUE_LOOP
             else !host.namesTool(answer) && !ObligationDue(host, Run(host).trace[..i])
    ensures |Run(host).trace| == i + 1 && Run(host).control.outcome == Success(Completed(answer))
  {
    DecisionsAreObeyed(host);
    hide Run, Turns, Processes, ObligationDue;
    assert Obeyed(host, Run(host).trace, Run(host).control.outcome, i);
  }
}
