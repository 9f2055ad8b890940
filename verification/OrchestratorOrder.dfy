/** The calls that a run hands to the executor, in order: round by round, each round serving one
    decision of the model, and no decision served twice. */
module OrchestratorOrder {
  import opened Common
  import opened Orchestrator
  import opened OrchestratorSafety
  import opened OrchestratorFidelity
  import opened OrchestratorStop

  /** The decision hands on exactly these calls for processing. */
  ghost predicate HandsOn(host: Host, e: Event, calls: seq<ToolCall>) {
    && e.Decision? && e.reply.Success?
    && match e.reply.value
       case ToolCalls(asked) => asked == calls && (e.phase.FollowUp? ==> calls != [])
       case TextAnswer(answer) =>
         host.repairPermitted && host.repair(answer).Some? && calls == [host.repair(answer).value]
  }

  lemma StepHandsOn(host: Host, s: State)
    requires !s.control.Done?
    ensures var r := Step(host, s);
      r.control.Handle? ==> r.trace != [] && HandsOn(host, r.trace[|r.trace| - 1], r.control.calls)
  {
    hide Execute, Absorb, MaybeFinalize, Screen;
  }

  /** A round over `calls`, handed on by the event at position `at`, of which `n` calls ran. */
  datatype Round = Round(at: nat, calls: seq<ToolCall>, n: nat)

  /** The first `n` executable calls of each round, one round after the other. */
  function RanIn(host: Host, rounds: seq<Round>): seq<ToolCall> {
    if rounds == [] then []
    else
      var last := rounds[|rounds| - 1];
      RanIn(host, rounds[..|rounds| - 1]) + Take(Executable(host, last.calls), last.n)
  }

  ghost predicate IsRound(host: Host, t: Trace, r: Round) {
    && r.at < |t| && HandsOn(host, t[r.at], r.calls)
    && r.n <= |Executable(host, r.calls)|
    && (r.n > 0 ==> NothingObjectionable(host, r.calls))
  }

  ghost predicate AreRounds(host: Host, t: Trace, rounds: seq<Round>) {
    && (forall i :: 0 <= i < |rounds| ==> IsRound(host, t, rounds[i]))
    && (forall i, j :: 0 <= i < j < |rounds| ==> rounds[i].at < rounds[j].at)
  }

  /** The rounds account for all that ran. */
  ghost predicate InOrder(host: Host, t: Trace, rounds: seq<Round>) {
    AreRounds(host, t, rounds) && Ran(t) == RanIn(host, rounds)
  }

  /** The calls at hand come from the decision that ends the trace, which no round has served yet. */
  ghost predicate FreshHandle(host: Host, s: State, rounds: seq<Round>) {
    s.control.Handle? ==>
      && s.trace != [] && HandsOn(host, s.trace[|s.trace| - 1], s.control.calls)
      && (forall i :: 0 <= i < |rounds| ==> rounds[i].at < |s.trace| - 1)
  }

  lemma RoundsPersist(host: Host, t: Trace, t': Trace, rounds: seq<Round>)
    requires AreRounds(host, t, rounds) && t <= t'
    ensures AreRounds(host, t', rounds)
  {
    hide HandsOn, Executable, NothingObjectionable;
    forall i | 0 <= i < |rounds| ensures IsRound(host, t', rounds[i]) {
      assert IsRound(host, t, rounds[i]) && t'[rounds[i].at] == t[rounds[i].at];
    }
  }

  lemma {:induction false} NothingRan(t: Trace, t': Trace)
    requires t <= t' && forall i :: |t| <= i < |t'| ==> RanBy(t'[i]).None?
    ensures Ran(t') == Ran(t)
    decreases |t'|
  {
    if |t| < |t'| {
      NothingRan(t, t'[..|t'| - 1]);
    } else {
      assert t == t';
    }
  }

  lemma AskShape(host: Host, s: State)
    requires s.control.Ask?
    ensures var r := StepAsk(host, s);
      && s.trace <= r.trace && Ran(r.trace) == Ran(s.trace)
      && (r.control.Handle? ==>
            |r.trace| > |s.trace| && HandsOn(host, r.trace[|r.trace| - 1], r.control.calls))
  {
    var r := StepAsk(host, s);
    StepHandsOn(host, s);
    StepAskAppends(host, s);
    NothingRan(s.trace, r.trace);
    hide Ran, HandsOn;
  }

  lemma RoundsLieBefore(host: Host, t: Trace, rounds: seq<Round>)
    requires AreRounds(host, t, rounds)
    ensures forall i :: 0 <= i < |rounds| ==> rounds[i].at < |t|
  {
    hide HandsOn, Executable, NothingObjectionable;
    forall i | 0 <= i < |rounds| ensures rounds[i].at < |t| {
      assert IsRound(host, t, rounds[i]);
    }
  }

  lemma AskInOrder(host: Host, s: State, rounds: seq<Round>)
    requires s.control.Ask? && InOrder(host, s.trace, rounds)
    ensures var r := StepAsk(host, s);
      InOrder(host, r.trace, rounds) && FreshHandle(host, r, rounds)
  {
    hide StepAsk, HandsOn, Ran, RanIn, AreRounds;
    AskShape(host, s);
    RoundsPersist(host, s.trace, StepAsk(host, s).trace, rounds);
    RoundsLieBefore(host, s.trace, rounds);
  }

  lemma OneMoreRound(host: Host, t: Trace, rounds: seq<Round>, round: Round)
    requires AreRounds(host, t, rounds) && IsRound(host, t, round)
    requires forall i :: 0 <= i < |rounds| ==> rounds[i].at < round.at
    ensures AreRounds(host, t, rounds + [round])
    ensures RanIn(host, rounds + [round]) == RanIn(host, rounds) + Executable(host, round.calls)[..round.n]
  {
    hide IsRound, Executable;
    var longer := rounds + [round];
    assert longer[..|longer| - 1] == rounds;
    assert round.n <= |Executable(host, round.calls)| by { RoundLength(host, t, round); }
    var batch := Executable(host, round.calls);
    assert Take(batch, round.n) == batch[..round.n];
  }

  lemma RoundLength(host: Host, t: Trace, round: Round)
    requires IsRound(host, t, round)
    ensures round.n <= |Executable(host, round.calls)|
  {
  }

  /** What the next round adds to the record. */
  lemma HandleShape(host: Host, s: State, calls: seq<ToolCall>) returns (n: nat)
    requires s.control == Handle(calls)
    ensures var r, batch := StepHandle(host, s, calls), Executable(host, calls);
      && s.trace <= r.trace && (!r.control.Done? ==> s.trace != r.trace)
      && n <= |batch| && Ran(r.trace) == Ran(s.trace) + batch[..n]
      && (n > 0 ==> NothingObjectionable(host, calls))
      && (r.control.Handle? ==> r.trace != [] && HandsOn(host, r.trace[|r.trace| - 1], r.control.calls))
  {
    hide StepHandle, HandsOn, Ran, Executable, NothingObjectionable, Fits, LegalFrom, Undecided;
    StepHandsOn(host, s);
    n := RoundShape(host, s, calls);
    HandleRounds(host, s, calls);
    StepHandleFaithful(host, s, calls);
  }

  lemma HandleInOrder(host: Host, s: State, rounds: seq<Round>) returns (more: seq<Round>)
    requires s.control.Handle? && InOrder(host, s.trace, rounds) && FreshHandle(host, s, rounds)
    ensures var r := StepHandle(host, s, s.control.calls);
      InOrder(host, r.trace, more) && FreshHandle(host, r, more)
  {
    hide StepHandle, HandsOn, Ran, RanIn, Executable, NothingObjectionable, AreRounds;
    var r := StepHandle(host, s, s.control.calls);
    var n := HandleShape(host, s, s.control.calls);
    var round := Round(|s.trace| - 1, s.control.calls, n);
    more := rounds + [round];
    OneMoreRound(host, s.trace, rounds, round);
    RoundsPersist(host, s.trace, r.trace, more);
  }

  lemma {:induction false} InOrderFrom(host: Host, s: State, before: seq<Round>) returns (rounds: seq<Round>)
    requires InOrder(host, s.trace, before) && FreshHandle(host, s, before)
    ensures InOrder(host, RunFrom(host, s).trace, rounds)
    decreases Fuel(host, s), if s.control.Done? then 0 else 1
  {
    hide StepAsk, StepHandle, InOrder, FreshHandle, Fuel;
    rounds := before;
    if !s.control.Done? {
      if s.control.Ask? {
        AskInOrder(host, s, before);
      } else {
        rounds := HandleInOrder(host, s, before);
      }
      if !Step(host, s).control.Done? {
        rounds := InOrderFrom(host, Step(host, s), rounds);
      }
    }
  }

  /** What a run hands to the executor is, in order, a prefix of the executable calls of each
      decision it processed. No decision is served twice, and a round with an objectionable call
      contributes nothing. */
  lemma RunIsInOrder(host: Host) returns (rounds: seq<Round>)
    ensures InOrder(host, Run(host).trace, rounds)
  {
    assert InOrder(host, [], []);
    rounds := InOrderFrom(host, START, []);
  }
}
