/** What the emergency stop achieves in either loop, and exactly when it is prompt in the generic one. */
module OrchestratorStop {
  import opened Common
  import opened Orchestrator
  import opened OrchestratorSafety
  import opened OrchestratorFidelity
  import opened OrchestratorLimits

  function RoundsStarted(t: Trace): nat {
    if t == [] then 0 else RoundsStarted(t[..|t| - 1]) + if t[|t| - 1].RoundStarted? then 1 else 0
  }

  /** One when a round is under way that has not started its batch, else zero. */
  function Pending(t: Trace): nat {
    if t == [] || t[|t| - 1].BatchStarted? then 0
    else if t[|t| - 1].RoundStarted? then 1
    else Pending(t[..|t| - 1])
  }

  lemma {:induction false} ScreenedIsPending(t: Trace, j: nat)
    requires j < |t| && ScreenedSince(t, j)
    ensures Pending(t) == 1
    decreases |t|
  {
    if j < |t| - 1 {
      ScreenedIsPending(t[..|t| - 1], j);
    }
  }

  /** Every batch takes a round of its own. */
  lemma {:induction false} BatchesNeedRounds(host: Host, t: Trace, t': Trace)
    requires Faithful(host, t, t')
    ensures Batches(t') + Pending(t') + RoundsStarted(t) <= Batches(t) + Pending(t) + RoundsStarted(t')
    decreases |t'|
  {
    if |t| < |t'| {
      var before, e := t'[..|t'| - 1], t'[|t'| - 1];
      assert Faithful(host, t, before) by {
        forall i | |t| <= i < |before| ensures Fits(host, before[..i], before[i]) {
          assert before[..i] == t'[..i];
        }
      }
      BatchesNeedRounds(host, t, before);
      assert Fits(host, before, e);
      if e.BatchStarted? {
        var j :| 0 <= j < |before| && ScreenedSince(before, j);
        ScreenedIsPending(before, j);
      }
      hide Fits, Faithful;
    } else {
      assert t == t';
    }
  }

  lemma {:induction false} NoRoundsAdded(t: Trace, t': Trace)
    requires t <= t' && forall i :: |t| <= i < |t'| ==> !t'[i].RoundStarted?
    ensures RoundsStarted(t') == RoundsStarted(t)
    decreases |t'|
  {
    if |t| < |t'| {
      NoRoundsAdded(t, t'[..|t'| - 1]);
    } else {
      assert t == t';
    }
  }

  lemma RoundAdded(t: Trace)
    ensures RoundsStarted(t + [RoundStarted]) == RoundsStarted(t) + 1
  {
    assert (t + [RoundStarted])[..|t|] == t;
  }

  /** The round counter is the number of rounds started, and these stay within the limit. */
  ghost predicate CountsRounds(host: Host, s: State) {
    && RoundsStarted(s.trace) <= host.maxToolRounds
    && (!s.control.Done? ==> RoundsStarted(s.trace) == s.rounds)
  }

  lemma AskRounds(host: Host, s: State)
    ensures var r := StepAsk(host, s);
      var t := if host.steering(s.trace) == Some(Pivot) then s.trace + [Pivoted] else s.trace;
      var t1 := t + [Decision(Initial, host.decide(t))];
      || (r.trace == s.trace && r.control.Done?)
      || (r.trace == t1 && (r.control.Done? || r.rounds == s.rounds))
      || (r.trace == t1 + [RoundStarted, Corrected] && r.rounds == s.rounds + 1 <= host.maxToolRounds)
  {
  }

  lemma StepAskCounts(host: Host, s: State)
    requires s.control.Ask? && CountsRounds(host, s)
    ensures CountsRounds(host, StepAsk(host, s))
  {
    AskRounds(host, s);
    hide StepAsk, RoundsStarted;
    var t := if host.steering(s.trace) == Some(Pivot) then s.trace + [Pivoted] else s.trace;
    var t1 := t + [Decision(Initial, host.decide(t))];
    NoRoundsAdded(s.trace, t1);
    RoundAdded(t1);
    NoRoundsAdded(t1 + [RoundStarted], t1 + [RoundStarted, Corrected]);
  }

  lemma HandleRounds(host: Host, s: State, calls: seq<ToolCall>)
    requires s.control == Handle(calls)
    ensures var r := StepHandle(host, s, calls);
      && (r.trace != s.trace ==> s.rounds + 1 <= host.maxToolRounds)
      && (!r.control.Done? ==> r.trace != s.trace)
  {
    if calls != [] {
      QuietEndFails(host, s, calls);
    }
    hide StepScreened, Screen;
  }

  lemma StepHandleCounts(host: Host, s: State, calls: seq<ToolCall>)
    requires s.control == Handle(calls) && CountsRounds(host, s)
    ensures CountsRounds(host, StepHandle(host, s, calls))
  {
    var r := StepHandle(host, s, calls);
    var _ := RoundShape(host, s, calls);
    HandleRounds(host, s, calls);
    RoundBounds(host, s);
    hide StepHandle, RoundsStarted, Ran, Executable, NothingObjectionable, Undecided, Fuel, RunFrom;
    if r.trace != s.trace {
      RoundAdded(s.trace);
      NoRoundsAdded(s.trace + [RoundStarted], r.trace);
    }
  }

  lemma {:induction false} RoundsWithin(host: Host, s: State)
    requires CountsRounds(host, s)
    ensures RoundsStarted(RunFrom(host, s).trace) <= host.maxToolRounds
    decreases Fuel(host, s), if s.control.Done? then 0 else 1
  {
    hide StepAsk, StepHandle, RoundsStarted, Fuel;
    if !s.control.Done? {
      if s.control.Ask? {
        StepAskCounts(host, s);
      } else {
        StepHandleCounts(host, s, s.control.calls);
      }
      if !Step(host, s).control.Done? {
        RoundsWithin(host, Step(host, s));
      }
    }
  }

  lemma RestIsFaithful(host: Host, t: Trace)
    requires t <= Run(host).trace
    ensures Faithful(host, t, Run(host).trace)
  {
    RunIsFaithful(host);
    hide Fits, Run;
  }

  ghost predicate NoOuterDecisionAfter(t: Trace, t': Trace) {
    forall i :: |t| < i < |t'| ==> !(t'[i].Decision? && t'[i].phase.Initial?)
  }

  /** From the moment the stop flag is up the outer loop never asks again, but for a decision that
      was about to be taken: whatever still happens belongs to the chain of follow-ups under way,
      and its batches take a round each of those that are left. */
  lemma StopEndsWithTheChain(host: Host, t: Trace)
    requires Latched(host) && host.estop(t) && t <= Run(host).trace
    ensures NoOuterDecisionAfter(t, Run(host).trace)
    ensures Batches(Run(host).trace) - Batches(t) <= host.maxToolRounds - RoundsStarted(t) + Pending(t)
  {
    var t' := Run(host).trace;
    RestIsFaithful(host, t);
    BatchesNeedRounds(host, t, t');
    RoundsWithin(host, START);
    hide Run, RunFrom, Batches, RoundsStarted, Pending;
    forall i | |t| < i < |t'| ensures !(t'[i].Decision? && t'[i].phase.Initial?) {
      assert Fits(host, t'[..i], t'[i]);
      assert t <= t'[..i] && t <= t'[..i][..|t'[..i]| - 1];
    }
  }

  // ----- when the stop is prompt -----

  /** At most the batch under way, or the one about to start, still happens. */
  ghost predicate StopsPromptly(host: Host) {
    forall t :: host.estop(t) && t <= Run(host).trace ==> Batches(Run(host).trace) <= Batches(t) + 1
  }

  /** Generic loops with the limit `n` all stop promptly iff the limit allows for one round only. */
  lemma GenericStopCondition(n: nat)
    ensures (forall host: Host :: host.mode.Generic? && host.maxToolRounds == n && Latched(host) ==>
               StopsPromptly(host))
       <==> n <= 1
  {
    hide Run, Batches, Latched;
    if n <= 1 {
      forall host: Host | host.mode.Generic? && host.maxToolRounds == n && Latched(host) ensures StopsPromptly(host) {
        RunBudget(host);
      }
    } else {
      var host, t := GenericStopMayBeLate(n);
      assert !StopsPromptly(host);
    }
  }

  /** Loops with dynamic tools stop promptly whatever the limit. */
  lemma DynamicStopsPromptly(host: Host)
    requires host.mode.Dynamic? && Latched(host)
    ensures StopsPromptly(host)
  {
    forall t | host.estop(t) && t <= Run(host).trace ensures Batches(Run(host).trace) <= Batches(t) + 1 {
      DynamicStopIsPrompt(host, t);
    }
  }
}
