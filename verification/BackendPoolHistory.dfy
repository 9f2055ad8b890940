/** The pool's counters and breakers, read off the history of attempts. */
module BackendPoolHistory {
  import opened Common
  import opened BackendPool

  // ----- what the maps are supposed to mean -----

  /** Failed attempts on the backend since its last success. */
  function TrailingFailures(h: seq<Attempt>, id: string): nat {
    if h == [] then 0
    else
      var a, before := h[|h| - 1], h[..|h| - 1];
      if a.backend != id then TrailingFailures(before, id)
      else if a.turn.reply.Success? then 0
      else TrailingFailures(before, id) + 1
  }

  /** Circuit-tripping failures of the provider since its last success, newest last. */
  function Tripping(h: seq<Attempt>, provider: string): seq<Attempt> {
    if h == [] then []
    else
      var a, before := h[|h| - 1], h[..|h| - 1];
      if a.provider != provider then Tripping(before, provider)
      else if a.turn.reply.Success? then []
      else if Trips(a) then Tripping(before, provider) + [a]
      else Tripping(before, provider)
  }

  /** The last failure that found its backend at the limit; a success does not undo it. */
  function LastMark(h: seq<Attempt>, id: string): Option<Instant> {
    if h == [] then None
    else
      var a, before := h[|h| - 1], h[..|h| - 1];
      if a.backend == id && TrailingFailures(h, id) >= BACKEND_FAILURE_LIMIT then Some(a.turn.markedAt)
      else LastMark(before, id)
  }

  predicate Attempted(h: seq<Attempt>, id: string) {
    h != [] && (h[|h| - 1].backend == id || Attempted(h[..|h| - 1], id))
  }

  /** Backend counters: the trailing run of failures, and the time since the last mark. */
  lemma {:induction false} BackendCounters(cfg: Config, h: seq<Attempt>, id: string)
    ensures var m := Replay(cfg, h);
      && Count(m.consecutiveFailures, id) == TrailingFailures(h, id)
      && (id in m.consecutiveFailures <==> Attempted(h, id))
      && (if LastMark(h, id) == None then id !in m.cooldownUntil
          else id in m.cooldownUntil && m.cooldownUntil[id] == LastMark(h, id).value + cfg.cooldownFor)
  {
    hide ShouldTrip;
    if h != [] {
      BackendCounters(cfg, h[..|h| - 1], id);
    }
  }

  /** Provider counters: the tripping failures since the last success, whose newest one is the
      stored error and dates the circuit. */
  lemma {:induction false} ProviderCounters(cfg: Config, h: seq<Attempt>, p: string)
    requires cfg.Valid()
    ensures var m := Replay(cfg, h);
      var trips := Tripping(h, p);
      && Count(m.providerFailures, p) == |trips|
      && (p in m.providerLastError <==> trips != [])
      && (trips != [] ==>
            trips[|trips| - 1].turn.reply == Failure(m.providerLastError[p]))
      && (p in m.providerCooldownUntil <==> |trips| >= cfg.failureThreshold)
      && (|trips| >= cfg.failureThreshold ==>
            m.providerCooldownUntil[p] == trips[|trips| - 1].turn.trippedAt + cfg.circuitCooldownFor)
  {
    if h != [] {
      ProviderCounters(cfg, h[..|h| - 1], p);
    }
  }

  /** A backend that cools down has failed at least three times in a row. */
  lemma {:induction false} CoolingDownHasFailed(cfg: Config, h: seq<Attempt>, start: Instant, id: string, now: Instant)
    requires LegalRun(cfg, h, start) && Now(h, start) <= now
    requires Waiting(Replay(cfg, h).cooldownUntil, id, now)
    ensures TrailingFailures(h, id) >= 3
  {
    hide ShouldTrip;
    var a, before := h[|h| - 1], h[..|h| - 1];
    BackendCounters(cfg, before, id);
    if a.backend != id || (a.turn.reply.Failure? && TrailingFailures(h, id) < BACKEND_FAILURE_LIMIT) {
      CoolingDownHasFailed(cfg, before, start, id, now);
    }
  }

  // ----- spacing -----

  lemma {:induction false} PrefixIsLegal(cfg: Config, h: seq<Attempt>, start: Instant, n: nat)
    requires LegalRun(cfg, h, start) && n <= |h|
    ensures LegalRun(cfg, h[..n], start)
    ensures n < |h| ==> LegalNext(cfg, h[..n], start, h[n])
    ensures n < |h| ==> h[n].turn.InOrder(Now(h[..n], start))
    ensures n < |h| ==> h[..n + 1][..n] == h[..n]
    decreases |h|
  {
    if n < |h| {
      var before := h[..|h| - 1];
      PrefixIsLegal(cfg, before, start, n);
      assert before[..n] == h[..n];
    } else {
      assert h[..n] == h;
    }
  }

  /** After a failure at the limit the backend stays marked, at that time or later. */
  lemma {:induction false} StaysMarked(cfg: Config, h: seq<Attempt>, start: Instant, i: nat, j: nat)
    requires LegalRun(cfg, h, start) && i < j <= |h|
    requires TrailingFailures(h[..i + 1], h[i].backend) >= BACKEND_FAILURE_LIMIT
    ensures var mark := LastMark(h[..j], h[i].backend);
      mark.Some? && mark.value >= h[i].turn.markedAt
    decreases j
  {
    hide LegalRun, TrailingFailures;
    assert h[..j][..j - 1] == h[..j - 1] && h[..j][j - 1] == h[j - 1];
    if i + 1 < j {
      StaysMarked(cfg, h, start, i, j - 1);
      TimesGrow(cfg, h, start, i, j - 1);
    }
  }

  lemma BackendHeld(cfg: Config, h: seq<Attempt>, start: Instant, i: nat, j: nat)
    requires LegalRun(cfg, h, start) && i < j <= |h|
    requires TrailingFailures(h[..i + 1], h[i].backend) >= BACKEND_FAILURE_LIMIT
    ensures var until, m := h[i].turn.markedAt + cfg.cooldownFor, Replay(cfg, h[..j]);
      h[i].backend in m.cooldownUntil && m.cooldownUntil[h[i].backend] >= until
  {
    hide LegalRun, TrailingFailures, Replay, LastMark;
    StaysMarked(cfg, h, start, i, j);
    BackendCounters(cfg, h[..j], h[i].backend);
  }

  lemma {:induction false} TimesGrow(cfg: Config, h: seq<Attempt>, start: Instant, i: nat, j: nat)
    requires LegalRun(cfg, h, start) && i < j < |h|
    ensures h[i].turn.trippedAt <= h[j].turn.checkedAt
    ensures h[i].turn.InOrder(h[i].turn.checkedAt) && h[j].turn.InOrder(h[j].turn.checkedAt)
    decreases j
  {
    PrefixIsLegal(cfg, h, start, i);
    PrefixIsLegal(cfg, h, start, j);
    if i + 1 < j {
      TimesGrow(cfg, h, start, i, j - 1);
    }
  }

  /** Once a backend has failed three times in a row, its next attempts start at least the
      cooldown after every such failure. */
  lemma BackendSpacing(cfg: Config, h: seq<Attempt>, start: Instant, i: nat, j: nat)
    requires LegalRun(cfg, h, start) && i < j < |h| && h[i].backend == h[j].backend
    requires TrailingFailures(h[..i + 1], h[i].backend) >= BACKEND_FAILURE_LIMIT
    ensures h[i].turn.markedAt + cfg.cooldownFor <= h[j].turn.checkedAt <= h[j].turn.startedAt
  {
    BackendHeld(cfg, h, start, i, j);
    PrefixIsLegal(cfg, h, start, j);
  }

  /** Either the circuit still holds the provider's backends back, or the time has passed. */
  lemma {:induction false} ProviderHeld(cfg: Config, h: seq<Attempt>, start: Instant, i: nat, j: nat)
    requires cfg.Valid() && LegalRun(cfg, h, start) && i < j <= |h|
    requires Trips(h[i]) && |Tripping(h[..i + 1], h[i].provider)| >= cfg.failureThreshold
    ensures var until, m := h[i].turn.trippedAt + cfg.circuitCooldownFor, Replay(cfg, h[..j]).providerCooldownUntil;
      (h[i].provider in m && m[h[i].provider] >= until) || Now(h[..j], start) >= until
    decreases j
  {
    var p := h[i].provider;
    PrefixIsLegal(cfg, h, start, j - 1);
    hide Replay, LegalRun, ShouldTrip;
    ProviderCounters(cfg, h[..j - 1], p);
    ProviderCounters(cfg, h[..j], p);
    assert h[..j][..j - 1] == h[..j - 1] && h[..j][j - 1] == h[j - 1];
    assert h[..i + 1][..i] == h[..i] && h[..i + 1][i] == h[i];
    if i + 1 < j {
      ProviderHeld(cfg, h, start, i, j - 1);
      TimesGrow(cfg, h, start, i, j - 1);
    }
  }

  /** Once a provider has reached its threshold, no sibling backend is queried within the
      circuit cooldown after a tripping failure. */
  lemma ProviderSpacing(cfg: Config, h: seq<Attempt>, start: Instant, i: nat, j: nat)
    requires cfg.Valid() && LegalRun(cfg, h, start) && i < j < |h| && h[i].provider == h[j].provider
    requires Trips(h[i]) && |Tripping(h[..i + 1], h[i].provider)| >= cfg.failureThreshold
    ensures h[i].turn.trippedAt + cfg.circuitCooldownFor <= h[j].turn.circuitAt <= h[j].turn.startedAt
  {
    ProviderHeld(cfg, h, start, i, j);
    PrefixIsLegal(cfg, h, start, j);
  }

  // ----- attempts over a time span -----

  ghost predicate Ascending(idx: seq<nat>, bound: nat) {
    && (forall k :: 0 <= k < |idx| ==> idx[k] < bound)
    && (forall k, l :: 0 <= k < l < |idx| ==> idx[k] < idx[l])
  }

  ghost predicate FailsAtLimit(h: seq<Attempt>, id: string, i: nat) {
    i < |h| && h[i].backend == id && TrailingFailures(h[..i + 1], id) >= BACKEND_FAILURE_LIMIT
  }

  ghost predicate TripsAtThreshold(cfg: Config, h: seq<Attempt>, p: string, i: nat) {
    i < |h| && h[i].provider == p && Trips(h[i]) && |Tripping(h[..i + 1], p)| >= cfg.failureThreshold
  }

  lemma BackendGap(cfg: Config, h: seq<Attempt>, start: Instant, id: string, i: nat, j: nat)
    requires LegalRun(cfg, h, start) && i < j && FailsAtLimit(h, id, i) && FailsAtLimit(h, id, j)
    ensures cfg.cooldownFor <= h[j].turn.startedAt - h[i].turn.startedAt
  {
    BackendSpacing(cfg, h, start, i, j);
    PrefixIsLegal(cfg, h, start, i);
  }

  lemma ProviderGap(cfg: Config, h: seq<Attempt>, start: Instant, p: string, i: nat, j: nat)
    requires cfg.Valid() && LegalRun(cfg, h, start)
    requires i < j && TripsAtThreshold(cfg, h, p, i) && TripsAtThreshold(cfg, h, p, j)
    ensures cfg.circuitCooldownFor <= h[j].turn.startedAt - h[i].turn.startedAt
  {
    ProviderSpacing(cfg, h, start, i, j);
    PrefixIsLegal(cfg, h, start, i);
  }

  lemma OneMoreGap(n: nat, gap: nat, before: int, after: int)
    requires n >= 1 && (n - 1) * gap <= before && gap <= after
    ensures n * gap <= before + after
  {
    assert n * gap == (n - 1) * gap + gap;
  }

  /** Failing attempts on a backend that is at its limit: `n` of them take `n - 1` cooldowns. */
  lemma {:induction false} BackendRate(cfg: Config, h: seq<Attempt>, start: Instant, id: string, idx: seq<nat>)
    requires LegalRun(cfg, h, start) && Ascending(idx, |h|) && idx != []
    requires forall i <- idx :: FailsAtLimit(h, id, i)
    ensures (|idx| - 1) * cfg.cooldownFor <= h[idx[|idx| - 1]].turn.startedAt - h[idx[0]].turn.startedAt
  {
    hide LegalRun, FailsAtLimit;
    var n := |idx| - 1;
    if n > 0 {
      BackendRate(cfg, h, start, id, idx[..n]);
      BackendGap(cfg, h, start, id, idx[n - 1], idx[n]);
      OneMoreGap(n, cfg.cooldownFor, h[idx[n - 1]].turn.startedAt - h[idx[0]].turn.startedAt,
                 h[idx[n]].turn.startedAt - h[idx[n - 1]].turn.startedAt);
    }
  }

  /** The same for tripping failures of a provider, whichever of its backends they hit. */
  lemma {:induction false} ProviderRate(cfg: Config, h: seq<Attempt>, start: Instant, p: string, idx: seq<nat>)
    requires cfg.Valid() && LegalRun(cfg, h, start) && Ascending(idx, |h|) && idx != []
    requires forall i <- idx :: TripsAtThreshold(cfg, h, p, i)
    ensures (|idx| - 1) * cfg.circuitCooldownFor <= h[idx[|idx| - 1]].turn.startedAt - h[idx[0]].turn.startedAt
  {
    hide LegalRun, TripsAtThreshold;
    var n := |idx| - 1;
    if n > 0 {
      ProviderRate(cfg, h, start, p, idx[..n]);
      ProviderGap(cfg, h, start, p, idx[n - 1], idx[n]);
      OneMoreGap(n, cfg.circuitCooldownFor, h[idx[n - 1]].turn.startedAt - h[idx[0]].turn.startedAt,
                 h[idx[n]].turn.startedAt - h[idx[n - 1]].turn.startedAt);
    }
  }

  // ----- one query -----

  /** A query answers with the reply of the last backend it tried; all before that one failed. */
  lemma {:induction false} QueryAnswer(cfg: Config, order: seq<string>, backends: map<string, string>,
                                       turns: seq<Turn>, k: nat, m: Maps, lastError: Option<OrchestratorError>)
    requires k <= |order| == |turns|
    ensures var (attempts, answer) := Scan(cfg, order, backends, turns, k, m, lastError);
      && (forall i :: 0 <= i < |attempts| - 1 ==> attempts[i].turn.reply.Failure?)
      && answer == (if attempts != [] then attempts[|attempts| - 1].turn.reply
                    else if lastError.Some? then Failure(lastError.value)
                    else Failure(LLMError("no available llm backends in pool")))
    decreases |order| - k
  {
    if k < |order| {
      var id, turn := order[k], turns[k];
      if HeldBack(m, backends, id, turn) {
        QueryAnswer(cfg, order, backends, turns, k + 1, m, lastError);
      } else if turn.reply.Failure? {
        var a := Attempt(id, backends[id], turn);
        QueryAnswer(cfg, order, backends, turns, k + 1, Record(cfg, m, a), Some(turn.reply.error));
      }
    }
  }

  /** Nothing in the history speaks against trying the backend now: it is registered, the cooldown
      after its last failure at the limit has passed, and its provider has fewer tripping failures
      than the threshold or the circuit cooldown after the newest one has passed. */
  ghost predicate Free(cfg: Config, h: seq<Attempt>, backends: map<string, string>, id: string, turn: Turn)
    requires cfg.Valid()
  {
    && id in backends
    && (LastMark(h, id).Some? ==> LastMark(h, id).value + cfg.cooldownFor <= turn.checkedAt)
    && var trips := Tripping(h, backends[id]);
       |trips| < cfg.failureThreshold
       || trips[|trips| - 1].turn.trippedAt + cfg.circuitCooldownFor <= turn.circuitAt
  }

  /** The breakers hold a backend back exactly when it is not free. */
  lemma HeldBackUnlessFree(cfg: Config, h: seq<Attempt>, backends: map<string, string>, id: string, turn: Turn)
    requires cfg.Valid()
    ensures HeldBack(Replay(cfg, h), backends, id, turn) <==> !Free(cfg, h, backends, id, turn)
  {
    BackendCounters(cfg, h, id);
    if id in backends {
      ProviderCounters(cfg, h, backends[id]);
    }
    hide Replay, Tripping, LastMark, ShouldTrip;
  }

  /** The positions in the fallback order from which the `i`-th attempt was picked: those
      after the previous attempt, up to its own. A success leaves the rest untried. */
  ghost predicate Between(idx: seq<nat>, i: nat, p: nat, from: nat, end: nat) {
    && i <= |idx|
    && (if i == 0 then from else idx[i - 1] + 1) <= p
    && p < (if i < |idx| then idx[i] else end)
  }

  /** `idx` tells where the attempts of a query over `order[from..]` come from. */
  ghost predicate Picks(cfg: Config, order: seq<string>, backends: map<string, string>, turns: seq<Turn>,
                        h: seq<Attempt>, from: nat, end: nat, attempts: seq<Attempt>, idx: seq<nat>)
    requires cfg.Valid() && end <= |order| == |turns|
  {
    && |idx| == |attempts|
    && (forall i :: 0 <= i < |idx| ==>
          && from <= idx[i] < |order| && order[idx[i]] in backends
          && attempts[i] == Attempt(order[idx[i]], backends[order[idx[i]]], turns[idx[i]])
          && Free(cfg, h + attempts[..i], backends, order[idx[i]], turns[idx[i]]))
    && (forall i, j :: 0 <= i < j < |idx| ==> idx[i] < idx[j])
    && (forall i: nat, p: nat :: Between(idx, i, p, from, end) && p < |order| ==>
          !Free(cfg, h + attempts[..i], backends, order[p], turns[p]))
  }

  lemma PicksNothing(cfg: Config, order: seq<string>, backends: map<string, string>, turns: seq<Turn>,
                     h: seq<Attempt>, from: nat, end: nat)
    requires cfg.Valid() && end <= |order| == |turns| && from >= end
    ensures Picks(cfg, order, backends, turns, h, from, end, [], [])
  {
  }

  lemma PicksSkip(cfg: Config, order: seq<string>, backends: map<string, string>, turns: seq<Turn>,
                  h: seq<Attempt>, from: nat, end: nat, attempts: seq<Attempt>, idx: seq<nat>)
    requires cfg.Valid() && from < |order| && end <= |order| == |turns|
    requires !Free(cfg, h, backends, order[from], turns[from])
    requires Picks(cfg, order, backends, turns, h, from + 1, end, attempts, idx)
    ensures Picks(cfg, order, backends, turns, h, from, end, attempts, idx)
  {
    hide Free;
    assert h + attempts[..0] == h;
    forall i: nat, p: nat | Between(idx, i, p, from, end) && p < |order|
      ensures !Free(cfg, h + attempts[..i], backends, order[p], turns[p])
    {
      if i > 0 || p > from {
        assert Between(idx, i, p, from + 1, end);
      }
    }
  }

  lemma PicksNext(cfg: Config, order: seq<string>, backends: map<string, string>, turns: seq<Turn>,
                  h: seq<Attempt>, from: nat, end: nat, a: Attempt, rest: seq<Attempt>, idx: seq<nat>)
    requires cfg.Valid() && from < |order| && end <= |order| == |turns| && order[from] in backends
    requires a == Attempt(order[from], backends[order[from]], turns[from])
    requires Free(cfg, h, backends, order[from], turns[from])
    requires Picks(cfg, order, backends, turns, h + [a], from + 1, end, rest, idx)
    ensures Picks(cfg, order, backends, turns, h, from, end, [a] + rest, [from] + idx)
  {
    hide Free;
    var attempts, all := [a] + rest, [from] + idx;
    assert h + attempts[..0] == h;
    forall i | 0 <= i < |all|
      ensures from <= all[i] < |order| && order[all[i]] in backends
      ensures attempts[i] == Attempt(order[all[i]], backends[order[all[i]]], turns[all[i]])
      ensures Free(cfg, h + attempts[..i], backends, order[all[i]], turns[all[i]])
    {
      if i > 0 {
        assert all[i] == idx[i - 1] && attempts[i] == rest[i - 1];
        TakeCons(h, a, rest, i);
      }
    }
    forall i: nat, p: nat | Between(all, i, p, from, end) && p < |order|
      ensures !Free(cfg, h + attempts[..i], backends, order[p], turns[p])
    {
      if i > 0 {
        assert Between(idx, i - 1, p, from + 1, end);
        TakeCons(h, a, rest, i);
      }
    }
  }

  lemma TakeCons(h: seq<Attempt>, a: Attempt, rest: seq<Attempt>, i: nat)
    requires 1 <= i <= |rest| + 1
    ensures h + ([a] + rest)[..i] == h + [a] + rest[..i - 1]
  {
  }

  /** A query goes through the backends in fallback order, tries each one that is free by the
      history up to that moment and no other, and stops at the first success only. */
  lemma {:induction false} QueryTriesInOrder(cfg: Config, order: seq<string>, backends: map<string, string>,
                                             turns: seq<Turn>, k: nat, h: seq<Attempt>,
                                             lastError: Option<OrchestratorError>)
    returns (idx: seq<nat>)
    requires cfg.Valid() && k <= |order| == |turns|
    ensures var (attempts, answer) := Scan(cfg, order, backends, turns, k, Replay(cfg, h), lastError);
      && |idx| == |attempts|
      && (answer.Success? ==> idx != [] && attempts[|attempts| - 1].turn.reply == answer)
      && Picks(cfg, order, backends, turns, h, k, if answer.Success? then 0 else |order|, attempts, idx)
    decreases |order| - k
  {
    hide Replay, HeldBack, Record, Picks, Free;
    if k == |order| {
      idx := [];
      PicksNothing(cfg, order, backends, turns, h, k, |order|);
    } else {
      var m := Replay(cfg, h);
      HeldBackUnlessFree(cfg, h, backends, order[k], turns[k]);
      var answer := Scan(cfg, order, backends, turns, k, m, lastError).1;
      var end := if answer.Success? then 0 else |order|;
      if HeldBack(m, backends, order[k], turns[k]) {
        idx := QueryTriesInOrder(cfg, order, backends, turns, k + 1, h, lastError);
        var attempts := Scan(cfg, order, backends, turns, k + 1, m, lastError).0;
        PicksSkip(cfg, order, backends, turns, h, k, end, attempts, idx);
      } else {
        ScanNext(cfg, order, backends, turns, k, m, lastError);
        var a := Attempt(order[k], backends[order[k]], turns[k]);
        Appended(cfg, h, 0, a);
        if turns[k].reply.Success? {
          idx := [k];
          PicksNothing(cfg, order, backends, turns, h + [a], k + 1, 0);
          PicksNext(cfg, order, backends, turns, h, k, 0, a, [], []);
          assert [a] + [] == [a] && [k] + [] == [k];
        } else {
          var e := Some(turns[k].reply.error);
          var rest := Scan(cfg, order, backends, turns, k + 1, Record(cfg, m, a), e).0;
          var tail := QueryTriesInOrder(cfg, order, backends, turns, k + 1, h + [a], e);
          idx := [k] + tail;
          PicksNext(cfg, order, backends, turns, h, k, end, a, rest, tail);
        }
      }
    }
  }

  /** The health report lists a provider iff it has tripping failures since its last success,
      says how many, quotes the last one, and calls the circuit open iff the threshold is
      reached and the cooldown after the last one is still running. */
  lemma ReportTellsHistory(cfg: Config, h: seq<Attempt>, p: string, siblings: seq<string>, now: Instant)
    requires cfg.Valid()
    ensures var m, trips := Replay(cfg, h), Tripping(h, p);
      var s := StateOf(m, p, siblings, now);
      && (Count(m.providerFailures, p) > 0 || Waiting(m.providerCooldownUntil, p, now) <==> trips != [])
      && s.consecutiveFailures == |trips|
      && (s.circuitOpen <==> |trips| >= cfg.failureThreshold
                             && now < trips[|trips| - 1].turn.trippedAt + cfg.circuitCooldownFor)
      && (trips == [] ==> s.lastError == None)
      && (trips != [] ==> s.lastError.Some? && trips[|trips| - 1].turn.reply == Failure(s.lastError.value))
  {
    ProviderCounters(cfg, h, p);
  }

  // ----- which failures trip a circuit -----

  /** The letter `d`, or its ASCII capital if it has one. */
  ghost predicate IsLetter(c: char, d: char) {
    d as int == c as int + if 'A' <= c <= 'Z' then 32 else 0
  }

  /** Some stretch of the message is one of the needles, whatever the case of its letters. */
  ghost predicate HoldsNeedle(message: string, i: nat, needle: string) {
    && i + |needle| <= |message|
    && forall x :: 0 <= x < |needle| ==> IsLetter(message[i + x], needle[x])
  }

  lemma LowerAt(s: string, i: nat)
    requires i < |s|
    ensures IsLetter(s[i], ToLower(s)[i])
  {
  }

  lemma OccursInAnyCase(message: string, needle: string, i: nat)
    ensures OccursAt(ToLower(message), needle, i) <==> HoldsNeedle(message, i, needle)
  {
    var low := ToLower(message);
    assert |low| == |message|;
    if i + |needle| <= |message| {
      forall x | 0 <= x < |needle| ensures low[i + x] == needle[x] <==> IsLetter(message[i + x], needle[x]) {
        LowerAt(message, i + x);
      }
      hide ToLower, IsLetter;
      if HoldsNeedle(message, i, needle) {
        assert low[i..i + |needle|] == needle;
      }
      if OccursAt(low, needle, i) {
        forall x | 0 <= x < |needle| ensures IsLetter(message[i + x], needle[x]) {
          assert low[i..i + |needle|][x] == low[i + x];
        }
      }
    }
  }

  /** Overload trips the circuit, a model error does iff its message holds a needle in any case,
      and no other error does. */
  lemma TrippingErrors(error: OrchestratorError)
    ensures ShouldTrip(error)
       <==> || error.BackendOverloaded?
            || (error.LLMError? && exists i: nat, k :: 0 <= k < |NEEDLES| && HoldsNeedle(error.message, i, NEEDLES[k]))
  {
    if error.LLMError? {
      var m := error.message;
      forall i: nat, k | 0 <= k < |NEEDLES|
        ensures OccursAt(ToLower(m), NEEDLES[k], i) <==> HoldsNeedle(m, i, NEEDLES[k])
      {
        OccursInAnyCase(m, NEEDLES[k], i);
      }
      hide ToLower, HoldsNeedle;
      if i: nat, k :| 0 <= k < |NEEDLES| && HoldsNeedle(m, i, NEEDLES[k]) {
        assert OccursAt(ToLower(m), NEEDLES[k], i) && Contains(ToLower(m), NEEDLES[k]);
      }
      if ShouldTrip(error) {
        var k :| 0 <= k < |NEEDLES| && Contains(ToLower(m), NEEDLES[k]);
        var i: nat :| i <= |ToLower(m)| && OccursAt(ToLower(m), NEEDLES[k], i);
        assert HoldsNeedle(m, i, NEEDLES[k]);
      }
    }
  }

  // ----- the backends of a provider -----

  ghost predicate IsSibling(order: seq<string>, backends: map<string, string>, p: string, i: nat) {
    i < |order| && order[i] in backends && backends[order[i]] == p
  }

  /** The health report names each registered backend of the provider, position by position of
      the fallback order, and no other. */
  lemma {:induction false} SiblingsInOrder(order: seq<string>, backends: map<string, string>, p: string)
    returns (idx: seq<nat>)
    ensures |idx| == |Siblings(order, backends, p)|
    ensures forall k :: 0 <= k < |idx| ==>
      IsSibling(order, backends, p, idx[k]) && Siblings(order, backends, p)[k] == order[idx[k]]
    ensures forall k, l :: 0 <= k < l < |idx| ==> idx[k] < idx[l]
    ensures forall i: nat :: IsSibling(order, backends, p, i) ==> i in idx
  {
    idx := [];
    if order != [] {
      var n := |order| - 1;
      var before := SiblingsInOrder(order[..n], backends, p);
      forall i: nat | i < n ensures IsSibling(order[..n], backends, p, i) <==> IsSibling(order, backends, p, i) {
      }
      assert forall k :: 0 <= k < |before| ==> IsSibling(order[..n], backends, p, before[k]) && before[k] < n;
      idx := before + if IsSibling(order, backends, p, n) then [n] else [];
    }
  }
}
