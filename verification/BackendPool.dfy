/** The pool of language-model backends: a fallback loop behind two circuit breakers,
    one per backend and one per provider, which sibling backends share.

    A `Turn` holds what the outside world does while the loop looks at one backend: the clock
    readings, in the order in which the code takes them, and the reply of the backend. */
module BackendPool {
  import opened Common

  const BACKEND_FAILURE_LIMIT := 3
  const NO_BACKEND := LLMError("no available llm backends in pool")
  const NEEDLES := ["timeout", "timed out", "connection reset", "connection refused", "dns",
                    "temporarily unavailable", "transport", "connect error", "network",
                    "first token", "overloaded"]

  type Instant = int

  datatype Config = Config(cooldownFor: nat, circuitCooldownFor: nat, failureThreshold: nat) {
    ghost predicate Valid() {
      failureThreshold >= 1
    }
  }

  datatype Turn = Turn(
    checkedAt: Instant,   // cooldown check of the backend
    circuitAt: Instant,   // circuit check of its provider
    startedAt: Instant,   // query sent
    reply: Result<string, OrchestratorError>,
    markedAt: Instant,    // cooldown of the backend set
    trippedAt: Instant)   // circuit of the provider opened
  {
    ghost predicate InOrder(from: Instant) {
      from <= checkedAt <= circuitAt <= startedAt <= markedAt <= trippedAt
    }
  }

  datatype Attempt = Attempt(backend: string, provider: string, turn: Turn)

  datatype Maps = Maps(
    cooldownUntil: map<string, Instant>,
    consecutiveFailures: map<string, nat>,
    providerCooldownUntil: map<string, Instant>,
    providerFailures: map<string, nat>,
    providerLastError: map<string, OrchestratorError>)

  const EMPTY := Maps(map[], map[], map[], map[], map[])

  // ----- which failures count against a provider -----

  function ToLower(s: string): string {
    seq(|s|, i requires 0 <= i < |s| => if 'A' <= s[i] <= 'Z' then s[i] - 'A' + 'a' else s[i])
  }

  predicate OccursAt(s: string, needle: string, i: nat) {
    i + |needle| <= |s| && s[i..i + |needle|] == needle
  }

  predicate Contains(s: string, needle: string) {
    exists i :: 0 <= i <= |s| && OccursAt(s, needle, i)
  }

  predicate ShouldTrip(error: OrchestratorError) {
    match error
    case BackendOverloaded(_) => true
    case LLMError(message) => exists k :: 0 <= k < |NEEDLES| && Contains(ToLower(message), NEEDLES[k])
    case _ => false
  }

  predicate Trips(a: Attempt) {
    a.turn.reply.Failure? && ShouldTrip(a.turn.reply.error)
  }

  // ----- the five maps as a function of the attempts -----

  function Count(m: map<string, nat>, key: string): nat {
    if key in m then m[key] else 0
  }

  predicate Waiting(until: map<string, Instant>, key: string, now: Instant) {
    key in until && until[key] > now
  }

  function RecordSuccess(m: Maps, backend: string, provider: string): Maps {
    m.(consecutiveFailures := m.consecutiveFailures[backend := 0],
       providerFailures := m.providerFailures[provider := 0],
       providerLastError := m.providerLastError - {provider},
       providerCooldownUntil := m.providerCooldownUntil - {provider})
  }

  function RecordBackendFailure(cfg: Config, m: Maps, backend: string, now: Instant): Maps {
    var failures := Count(m.consecutiveFailures, backend) + 1;
    m.(consecutiveFailures := m.consecutiveFailures[backend := failures],
       cooldownUntil :=
         if failures >= BACKEND_FAILURE_LIMIT then m.cooldownUntil[backend := now + cfg.cooldownFor]
         else m.cooldownUntil)
  }

  function RecordProviderFailure(cfg: Config, m: Maps, provider: string, error: OrchestratorError, now: Instant): Maps {
    var failures := Count(m.providerFailures, provider) + 1;
    m.(providerFailures := m.providerFailures[provider := failures],
       providerLastError := m.providerLastError[provider := error],
       providerCooldownUntil :=
         if failures >= cfg.failureThreshold then m.providerCooldownUntil[provider := now + cfg.circuitCooldownFor]
         else m.providerCooldownUntil)
  }

  function Record(cfg: Config, m: Maps, a: Attempt): Maps {
    match a.turn.reply
    case Success(_) => RecordSuccess(m, a.backend, a.provider)
    case Failure(error) =>
      var m1 := RecordBackendFailure(cfg, m, a.backend, a.turn.markedAt);
      if ShouldTrip(error) then RecordProviderFailure(cfg, m1, a.provider, error, a.turn.trippedAt) else m1
  }

  function Replay(cfg: Config, h: seq<Attempt>): Maps {
    if h == [] then EMPTY else Record(cfg, Replay(cfg, h[..|h| - 1]), h[|h| - 1])
  }

  function Now(h: seq<Attempt>, start: Instant): Instant {
    if h == [] then start else h[|h| - 1].turn.trippedAt
  }

  /** The breakers let the attempt through, and it comes after everything before it. */
  ghost predicate LegalNext(cfg: Config, h: seq<Attempt>, start: Instant, a: Attempt) {
    var m := Replay(cfg, h);
    && a.turn.InOrder(Now(h, start))
    && !Waiting(m.cooldownUntil, a.backend, a.turn.checkedAt)
    && !Waiting(m.providerCooldownUntil, a.provider, a.turn.circuitAt)
  }

  ghost predicate LegalRun(cfg: Config, h: seq<Attempt>, start: Instant) {
    h == [] || (LegalRun(cfg, h[..|h| - 1], start) && LegalNext(cfg, h[..|h| - 1], start, h[|h| - 1]))
  }

  // ----- one query -----

  /** Cooling down, not registered, or behind an open circuit. */
  predicate HeldBack(m: Maps, backends: map<string, string>, id: string, turn: Turn) {
    || Waiting(m.cooldownUntil, id, turn.checkedAt)
    || id !in backends
    || Waiting(m.providerCooldownUntil, backends[id], turn.circuitAt)
  }

  /** What the fallback loop attempts, from position `k` on, and what it answers. */
  function Scan(cfg: Config, order: seq<string>, backends: map<string, string>, turns: seq<Turn>,
                k: nat, m: Maps, lastError: Option<OrchestratorError>)
    : (seq<Attempt>, Result<string, OrchestratorError>)
    requires k <= |order| == |turns|
    decreases |order| - k
  {
    if k == |order| then
      ([], Failure(if lastError.Some? then lastError.value else NO_BACKEND))
    else
      var id, turn := order[k], turns[k];
      if HeldBack(m, backends, id, turn) then
        Scan(cfg, order, backends, turns, k + 1, m, lastError)
      else
        var a := Attempt(id, backends[id], turn);
        match turn.reply
        case Success(response) => ([a], Success(response))
        case Failure(e) =>
          var (rest, r) := Scan(cfg, order, backends, turns, k + 1, Record(cfg, m, a), Some(e));
          ([a] + rest, r)
  }

  ghost predicate TurnsInOrder(turns: seq<Turn>, from: Instant) {
    turns == [] || (turns[0].InOrder(from) && TurnsInOrder(turns[1..], turns[0].trippedAt))
  }

  // ----- the health report -----

  datatype ProviderCircuitState = ProviderCircuitState(
    circuitOpen: bool,
    consecutiveFailures: nat,
    impactedBackends: seq<string>,
    lastError: Option<OrchestratorError>)

  /** The registered backends of a provider, in fallback order. */
  function Siblings(order: seq<string>, backends: map<string, string>, p: string): seq<string> {
    if order == [] then []
    else
      var id := order[|order| - 1];
      Siblings(order[..|order| - 1], backends, p) + if id in backends && backends[id] == p then [id] else []
  }

  function StateOf(m: Maps, p: string, siblings: seq<string>, now: Instant): ProviderCircuitState {
    ProviderCircuitState(
      Waiting(m.providerCooldownUntil, p, now),
      Count(m.providerFailures, p),
      siblings,
      if p in m.providerLastError then Some(m.providerLastError[p]) else None)
  }

  class LlmBackendPool {
    const fallbackOrder: seq<string>
    const cfg: Config
    const createdAt: Instant
    var backends: map<string, string>   // backend id to the key of its provider
    var cooldownUntil: map<string, Instant>
    var consecutiveFailures: map<string, nat>
    var providerCooldownUntil: map<string, Instant>
    var providerFailures: map<string, nat>
    var providerLastError: map<string, OrchestratorError>
    ghost var history: seq<Attempt>

    function State(): Maps
      reads this
    {
      Maps(cooldownUntil, consecutiveFailures, providerCooldownUntil, providerFailures, providerLastError)
    }

    ghost predicate Valid()
      reads this
    {
      cfg.Valid() && LegalRun(cfg, history, createdAt) && State() == Replay(cfg, history)
    }

    constructor (fallbackOrder: seq<string>, cooldownFor: nat, circuitCooldownFor: nat, failureThreshold: nat,
                 now: Instant)
      ensures Valid() && history == [] && backends == map[]
      ensures this.fallbackOrder == fallbackOrder && createdAt == now
      ensures cfg == Config(cooldownFor, circuitCooldownFor, Max(failureThreshold, 1))
    {
      this.fallbackOrder, createdAt := fallbackOrder, now;
      cfg := Config(cooldownFor, circuitCooldownFor, Max(failureThreshold, 1));
      backends, cooldownUntil, consecutiveFailures := map[], map[], map[];
      providerCooldownUntil, providerFailures, providerLastError, history := map[], map[], map[], [];
    }

    method RegisterBackend(id: string, provider: string)
      requires Valid()
      modifies this`backends
      ensures Valid() && backends == old(backends)[id := provider]
    {
      backends := backends[id := provider];
    }

    method ResetFailures(id: string)
      modifies this`consecutiveFailures
      ensures consecutiveFailures == old(consecutiveFailures)[id := 0]
    {
      consecutiveFailures := consecutiveFailures[id := 0];
    }

    method ResetProviderFailures(provider: string)
      modifies this`providerFailures, this`providerLastError, this`providerCooldownUntil
      ensures providerFailures == old(providerFailures)[provider := 0]
      ensures providerLastError == old(providerLastError) - {provider}
      ensures providerCooldownUntil == old(providerCooldownUntil) - {provider}
    {
      providerFailures := providerFailures[provider := 0];
      providerLastError := providerLastError - {provider};
      providerCooldownUntil := providerCooldownUntil - {provider};
    }

    method IncrementFailure(id: string) returns (failures: nat)
      modifies this`consecutiveFailures
      ensures failures == Count(old(consecutiveFailures), id) + 1
      ensures consecutiveFailures == old(consecutiveFailures)[id := failures]
    {
      failures := if id in consecutiveFailures then consecutiveFailures[id] + 1 else 1;
      consecutiveFailures := consecutiveFailures[id := failures];
    }

    method MarkCooldown(id: string, now: Instant)
      modifies this`cooldownUntil
      ensures cooldownUntil == old(cooldownUntil)[id := now + cfg.cooldownFor]
    {
      cooldownUntil := cooldownUntil[id := now + cfg.cooldownFor];
    }

    method RecordFailureOfProvider(provider: string, error: OrchestratorError, now: Instant)
      modifies this`providerFailures, this`providerLastError, this`providerCooldownUntil
      ensures State() == RecordProviderFailure(cfg, old(State()), provider, error, now)
    {
      var failures := if provider in providerFailures then providerFailures[provider] + 1 else 1;
      providerFailures := providerFailures[provider := failures];
      providerLastError := providerLastError[provider := error];
      if failures >= cfg.failureThreshold {
        providerCooldownUntil := providerCooldownUntil[provider := now + cfg.circuitCooldownFor];
      }
    }

    method RecordSuccessOf(id: string, provider: string, turn: Turn)
      requires turn.reply.Success?
      modifies this`consecutiveFailures, this`providerFailures, this`providerLastError, this`providerCooldownUntil
      ensures State() == Record(cfg, old(State()), Attempt(id, provider, turn))
    {
      ResetFailures(id);
      ResetProviderFailures(provider);
    }

    method RecordFailureOf(id: string, provider: string, turn: Turn)
      requires turn.reply.Failure?
      modifies this`consecutiveFailures, this`cooldownUntil
      modifies this`providerFailures, this`providerLastError, this`providerCooldownUntil
      ensures State() == Record(cfg, old(State()), Attempt(id, provider, turn))
    {
      var failures := IncrementFailure(id);
      if failures >= BACKEND_FAILURE_LIMIT {
        MarkCooldown(id, turn.markedAt);
      }
      assert State() == RecordBackendFailure(cfg, old(State()), id, turn.markedAt);
      if ShouldTrip(turn.reply.error) {
        RecordFailureOfProvider(provider, turn.reply.error, turn.trippedAt);
      }
    }

    /** The registered backends grouped by provider, each with the provider's counters. */
    method GroupByProvider(now: Instant) returns (byProvider: map<string, ProviderCircuitState>)
      ensures forall p :: p in byProvider <==> Siblings(fallbackOrder, backends, p) != []
      ensures forall p :: p in byProvider ==>
        byProvider[p] == StateOf(State(), p, Siblings(fallbackOrder, backends, p), now)
    {
      byProvider := map[];
      for k := 0 to |fallbackOrder|
        invariant forall p :: p in byProvider <==> Siblings(fallbackOrder[..k], backends, p) != []
        invariant forall p :: p in byProvider ==>
          byProvider[p] == StateOf(State(), p, Siblings(fallbackOrder[..k], backends, p), now)
      {
        var id := fallbackOrder[k];
        forall p {
          SiblingsNext(fallbackOrder, backends, k, p);
        }
        hide Siblings, StateOf;
        if id in backends {
          var p := backends[id];
          var siblings := if p in byProvider then byProvider[p].impactedBackends else [];
          assert siblings == Siblings(fallbackOrder[..k], backends, p) by {
            StateOfSiblings(State(), p, Siblings(fallbackOrder[..k], backends, p), now);
          }
          byProvider := byProvider[p := StateOf(State(), p, siblings + [id], now)];
        }
      }
      assert fallbackOrder[..|fallbackOrder|] == fallbackOrder;
    }

    /** Providers in trouble among those of the registered backends. */
    method ProviderCircuitStates(now: Instant) returns (states: map<string, ProviderCircuitState>)
      ensures forall p :: p in states <==>
        && Siblings(fallbackOrder, backends, p) != []
        && (Count(providerFailures, p) > 0 || Waiting(providerCooldownUntil, p, now))
      ensures forall p :: p in states ==>
        states[p] == StateOf(State(), p, Siblings(fallbackOrder, backends, p), now)
    {
      var byProvider := GroupByProvider(now);
      hide Siblings;
      states := map p | p in byProvider && (byProvider[p].consecutiveFailures > 0 || byProvider[p].circuitOpen)
                :: byProvider[p];
    }

    /** The body of the fallback loop; `None` means that the backend is skipped. */
    method TryBackend(id: string, turn: Turn) returns (reply: Option<Result<string, OrchestratorError>>)
      requires Valid() && turn.InOrder(Now(history, createdAt))
      modifies this`cooldownUntil, this`consecutiveFailures, this`providerCooldownUntil,
               this`providerFailures, this`providerLastError, this`history
      ensures Valid()
      ensures HeldBack(old(State()), backends, id, turn)
        ==> reply == None && State() == old(State()) && history == old(history)
      ensures !HeldBack(old(State()), backends, id, turn)
        ==> var a := Attempt(id, backends[id], turn);
            reply == Some(turn.reply) && State() == Record(cfg, old(State()), a) && history == old(history) + [a]
    {
      if Waiting(cooldownUntil, id, turn.checkedAt) {
        return None;
      }
      if id !in backends {
        return None;
      }
      var provider := backends[id];
      if Waiting(providerCooldownUntil, provider, turn.circuitAt) {
        return None;
      }
      hide Record, Replay, LegalRun;
      Appended(cfg, history, createdAt, Attempt(id, provider, turn));
      if turn.reply.Success? {
        RecordSuccessOf(id, provider, turn);
      } else {
        RecordFailureOf(id, provider, turn);
      }
      history := history + [Attempt(id, provider, turn)];
      reply := Some(turn.reply);
    }

    /** One query: the backends in fallback order, without those a breaker holds back. */
    method QueryWithFallback(turns: seq<Turn>) returns (r: Result<string, OrchestratorError>)
      requires Valid()
      requires |turns| == |fallbackOrder| && TurnsInOrder(turns, Now(history, createdAt))
      modifies this`cooldownUntil, this`consecutiveFailures, this`providerCooldownUntil,
               this`providerFailures, this`providerLastError, this`history
      ensures Valid()
      ensures var (attempts, answer) := Scan(cfg, fallbackOrder, backends, turns, 0, old(State()), None);
        history == old(history) + attempts && r == answer
    {
      var lastError: Option<OrchestratorError> := None;
      ghost var start, spec := history, Scan(cfg, fallbackOrder, backends, turns, 0, State(), None);
      assert turns[0..] == turns;
      hide Record, Replay, LegalRun, Scan, HeldBack, TurnsInOrder;
      for k := 0 to |fallbackOrder|
        invariant Valid()
        invariant TurnsInOrder(turns[k..], Now(history, createdAt))
        invariant SameEnd(start, spec, history, Scan(cfg, fallbackOrder, backends, turns, k, State(), lastError))
      {
        ghost var before, ahead := history, Scan(cfg, fallbackOrder, backends, turns, k, State(), lastError);
        TurnsNext(turns, k, Now(history, createdAt));
        ScanNext(cfg, fallbackOrder, backends, turns, k, State(), lastError);
        var reply := TryBackend(fallbackOrder[k], turns[k]);
        if reply.Some? {
          ghost var a := Attempt(fallbackOrder[k], backends[fallbackOrder[k]], turns[k]);
          if reply.value.Success? {
            return reply.value;
          }
          lastError := Some(reply.value.error);
          SameEndNext(start, spec, before, a, ahead,
                      Scan(cfg, fallbackOrder, backends, turns, k + 1, State(), lastError));
        }
        hide SameEnd;
      }
      ScanEnd(cfg, fallbackOrder, backends, turns, State(), lastError);
      r := Failure(if lastError.Some? then lastError.value else NO_BACKEND);
    }
  }

  /** Both stand for the same attempts and the same answer. */
  ghost predicate SameEnd(h: seq<Attempt>, x: (seq<Attempt>, Result<string, OrchestratorError>),
                          h': seq<Attempt>, y: (seq<Attempt>, Result<string, OrchestratorError>)) {
    h + x.0 == h' + y.0 && x.1 == y.1
  }

  lemma SameEndNext(h: seq<Attempt>, x: (seq<Attempt>, Result<string, OrchestratorError>), h': seq<Attempt>, a: Attempt,
                    y: (seq<Attempt>, Result<string, OrchestratorError>),
                    rest: (seq<Attempt>, Result<string, OrchestratorError>))
    requires SameEnd(h, x, h', y) && y.0 == [a] + rest.0 && y.1 == rest.1
    ensures SameEnd(h, x, h' + [a], rest)
  {
    assert h' + ([a] + rest.0) == h' + [a] + rest.0;
  }

  lemma ScanNext(cfg: Config, order: seq<string>, backends: map<string, string>, turns: seq<Turn>,
                 k: nat, m: Maps, lastError: Option<OrchestratorError>)
    requires k < |order| == |turns|
    ensures var spec, turn := Scan(cfg, order, backends, turns, k, m, lastError), turns[k];
      if HeldBack(m, backends, order[k], turn) then spec == Scan(cfg, order, backends, turns, k + 1, m, lastError)
      else
        && order[k] in backends
        && var a := Attempt(order[k], backends[order[k]], turn);
           match turn.reply
           case Success(_) => spec == ([a], turn.reply)
           case Failure(e) =>
             var rest := Scan(cfg, order, backends, turns, k + 1, Record(cfg, m, a), Some(e));
             spec.0 == [a] + rest.0 && spec.1 == rest.1
  {
  }

  lemma ScanEnd(cfg: Config, order: seq<string>, backends: map<string, string>, turns: seq<Turn>,
                m: Maps, lastError: Option<OrchestratorError>)
    requires |order| == |turns|
    ensures Scan(cfg, order, backends, turns, |order|, m, lastError)
         == ([], Failure(if lastError.Some? then lastError.value else NO_BACKEND))
  {
  }

  lemma TurnsNext(turns: seq<Turn>, k: nat, now: Instant)
    requires k < |turns| && TurnsInOrder(turns[k..], now)
    ensures turns[k].InOrder(now)
    ensures TurnsInOrder(turns[k + 1..], now) && TurnsInOrder(turns[k + 1..], turns[k].trippedAt)
  {
    assert turns[k..][0] == turns[k] && turns[k..][1..] == turns[k + 1..];
    TurnsStartLater(turns[k + 1..], now, turns[k].trippedAt);
  }

  lemma StateOfSiblings(m: Maps, p: string, siblings: seq<string>, now: Instant)
    ensures StateOf(m, p, siblings, now).impactedBackends == siblings
  {
  }

  lemma {:induction false} SiblingsNext(order: seq<string>, backends: map<string, string>, k: nat, p: string)
    requires k < |order|
    ensures Siblings(order[..k + 1], backends, p)
         == Siblings(order[..k], backends, p)
            + if order[k] in backends && backends[order[k]] == p then [order[k]] else []
  {
    assert order[..k + 1][..k] == order[..k];
  }

  lemma Appended(cfg: Config, h: seq<Attempt>, start: Instant, a: Attempt)
    ensures Replay(cfg, h + [a]) == Record(cfg, Replay(cfg, h), a)
    ensures LegalRun(cfg, h + [a], start) <==> LegalRun(cfg, h, start) && LegalNext(cfg, h, start, a)
    ensures Now(h + [a], start) == a.turn.trippedAt
  {
    assert (h + [a])[..|h + [a]| - 1] == h;
  }

  lemma TurnsStartLater(turns: seq<Turn>, early: Instant, late: Instant)
    requires early <= late && TurnsInOrder(turns, late)
    ensures TurnsInOrder(turns, early)
  {
  }
}
