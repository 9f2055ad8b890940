/** The rate limiter over whole runs of interleaved requests. */
module TokenBucketRuns {
  import opened Common
  import opened TokenBucket

  // ----- one bucket -----

  lemma RefillFacts(l: Limits, a: Instant, b: Instant, c: Instant)
    requires l.Refills() && a <= b <= c
    ensures l.Refill(b - a) >= 0.0 && l.Refill(c - b) >= 0.0
    ensures l.Refill(b - a) + l.Refill(c - b) == l.Refill(c - a)
    ensures l.Refill(0.0) == 0.0
  {
    var r := l.Rate();
    assert r >= 0.0;
    hide Limits.Rate;
    assert (b - a) * r + (c - b) * r == (c - a) * r;
  }

  /** The capacity's share of a stretch of time: all of it for a whole window. */
  function Share(l: Limits, elapsed: real): real
    requires l.Refills()
  {
    l.capacity as real * elapsed / l.window
  }

  lemma RefillIsShare(l: Limits, elapsed: real)
    requires l.Refills()
    ensures l.Refill(elapsed) == Share(l, elapsed)
  {
    var n, w := l.capacity as real, l.window;
    assert (elapsed * (n / w)) * w == elapsed * ((n / w) * w) == n * elapsed;
    Quotient(elapsed * (n / w), n * elapsed, w);
  }

  lemma Quotient(x: real, y: real, z: real)
    requires z > 0.0 && x * z == y
    ensures x == y / z
  {
  }

  ghost predicate Sound(l: Limits, b: Buckets, now: Instant) {
    forall key <- b :: 0.0 <= b[key].tokens <= l.capacity as real && b[key].lastRefill <= now
  }

  lemma CheckIsSound(l: Limits, b: Buckets, key: string, before: Instant, now: Instant)
    requires l.Valid() && Sound(l, b, before) && before <= now
    ensures Sound(l, AfterCheck(l, b, key, now), now)
    ensures 0.0 <= Available(l, b, key, now) <= l.capacity as real
  {
    if key in b && l.Refills() {
      RefillFacts(l, b[key].lastRefill, now, now);
    }
    hide Limits.Refill;
  }

  /** Tokens stay between 0 and the capacity in every run. */
  lemma {:induction false} RunsAreSound(l: Limits, run: seq<Request>)
    requires l.Valid() && ClockIsMonotone(run)
    ensures run == [] ==> Play(l, run) == map[]
    ensures run != [] ==> Sound(l, Play(l, run), run[|run| - 1].at)
  {
    if run != [] {
      var n := |run| - 1;
      RunsAreSound(l, run[..n]);
      CheckIsSound(l, Play(l, run[..n]), run[n].key, if n == 0 then run[n].at else run[n - 1].at, run[n].at);
    }
  }

  /** No bucket was refilled after `now`. */
  ghost predicate UpToDate(b: Buckets, now: Instant) {
    forall key <- b :: b[key].lastRefill <= now
  }

  lemma {:induction false} RunsAreUpToDate(l: Limits, run: seq<Request>, now: Instant)
    requires l.Valid() && ClockIsMonotone(run) && (run != [] ==> run[|run| - 1].at <= now)
    ensures UpToDate(Play(l, run), now)
  {
    if run != [] {
      RunsAreUpToDate(l, run[..|run| - 1], now);
      hide Limits.Refill;
    }
  }

  /** Between checks the tokens grow by no more than the rate allows. */
  lemma GrowthIsBounded(l: Limits, b: Buckets, key: string, from: Instant, to: Instant)
    requires l.Refills() && from <= to && UpToDate(b, from)
    ensures Available(l, b, key, to) <= Available(l, b, key, from) + l.Refill(to - from)
  {
    RefillFacts(l, if key in b then b[key].lastRefill else from, from, to);
    hide Limits.Refill;
  }

  /** Clamped refills compose: looking at a bucket does not change what is there later. */
  lemma RefillsCompose(l: Limits, b: Buckets, key: string, now: Instant, later: Instant)
    requires l.Refills() && now <= later && UpToDate(b, now)
    ensures MinReal(Available(l, b, key, now) + l.Refill(later - now), l.capacity as real)
         == Available(l, b, key, later)
  {
    RefillFacts(l, if key in b then b[key].lastRefill else now, now, later);
    hide Limits.Refill;
  }

  // ----- accepted checks in a time window -----

  /** Accepted checks of the key from `from` on. */
  function AcceptedSince(l: Limits, run: seq<Request>, key: string, from: Instant): nat
    requires l.Valid()
  {
    if run == [] then 0
    else
      var last := run[|run| - 1];
      AcceptedSince(l, run[..|run| - 1], key, from)
      + if last.key == key && last.at >= from && LastAccepted(l, run) then 1 else 0
  }

  function AcceptedDuring(l: Limits, run: seq<Request>, key: string, from: Instant, to: Instant): nat
    requires l.Valid()
  {
    if run == [] then 0
    else
      var last := run[|run| - 1];
      AcceptedDuring(l, run[..|run| - 1], key, from, to)
      + if last.key == key && from <= last.at <= to && LastAccepted(l, run) then 1 else 0
  }

  lemma {:induction false} NoneBefore(l: Limits, run: seq<Request>, key: string, from: Instant)
    requires l.Valid() && ClockIsMonotone(run) && (run != [] ==> run[|run| - 1].at < from)
    ensures AcceptedSince(l, run, key, from) == 0
  {
    if run != [] {
      NoneBefore(l, run[..|run| - 1], key, from);
    }
  }

  /** One check moves a token from the bucket to the count, or leaves both alone. */
  lemma CheckBalances(l: Limits, b: Buckets, key: string, other: string, now: Instant)
    requires l.Refills()
    ensures Available(l, AfterCheck(l, b, key, now), other, now)
         == Available(l, b, other, now) - if other == key && Accepts(l, b, key, now) then 1.0 else 0.0
  {
    RefillFacts(l, now, now, now);
    AvailableIsClamped(l, b, key, now);
    hide Limits.Refill;
  }

  /** The conserved quantity: tokens taken since `from` and tokens left. */
  lemma {:induction false} TokensAccountedFor(l: Limits, run: seq<Request>, key: string, from: Instant)
    requires l.Refills() && ClockIsMonotone(run) && run != [] && from <= run[|run| - 1].at
    ensures var now := run[|run| - 1].at;
      AcceptedSince(l, run, key, from) as real + Available(l, Play(l, run), key, now)
      <= l.capacity as real + l.Refill(now - from)
  {
    var n := |run| - 1;
    var before, last := run[..n], run[n];
    var b := Play(l, before);
    CheckBalances(l, b, last.key, key, last.at);
    assert AcceptedSince(l, run, key, from) as real + Available(l, Play(l, run), key, last.at)
        == AcceptedSince(l, before, key, from) as real + Available(l, b, key, last.at);
    hide AcceptedSince, Available, Play, Limits.Refill;
    if n > 0 && from <= run[n - 1].at {
      TokensAccountedFor(l, before, key, from);
      RunsAreUpToDate(l, before, run[n - 1].at);
      GrowthIsBounded(l, b, key, run[n - 1].at, last.at);
      RefillFacts(l, from, run[n - 1].at, last.at);
    } else {
      NoneBefore(l, before, key, from);
      AvailableIsClamped(l, b, key, last.at);
      RefillFacts(l, from, last.at, last.at);
    }
  }

  lemma AvailableIsClamped(l: Limits, b: Buckets, key: string, now: Instant)
    requires l.Valid()
    ensures Available(l, b, key, now) <= l.capacity as real
  {
  }

  lemma {:induction false} SinceIsDuring(l: Limits, run: seq<Request>, key: string, from: Instant, to: Instant)
    requires l.Valid() && ClockIsMonotone(run) && (run != [] ==> run[|run| - 1].at <= to)
    ensures AcceptedDuring(l, run, key, from, to) == AcceptedSince(l, run, key, from)
  {
    if run != [] {
      SinceIsDuring(l, run[..|run| - 1], key, from, to);
    }
  }

  lemma {:induction false} AcceptedWithinRefill(l: Limits, run: seq<Request>, key: string, from: Instant, to: Instant)
    requires l.Refills() && ClockIsMonotone(run) && from <= to
    ensures AcceptedDuring(l, run, key, from, to) as real <= l.capacity as real + l.Refill(to - from)
  {
    RefillFacts(l, from, to, to);
    if run != [] {
      var n := |run| - 1;
      var now := run[n].at;
      if now > to {
        AcceptedWithinRefill(l, run[..n], key, from, to);
        hide Limits.Refill;
      } else {
        SinceIsDuring(l, run, key, from, to);
        if now < from {
          NoneBefore(l, run, key, from);
        } else {
          TokensAccountedFor(l, run, key, from);
          RunsAreSound(l, run);
          LeftoverIsNonNegative(l, Play(l, run), key, now);
          RefillFacts(l, from, now, to);
        }
        hide Limits.Refill, AcceptedDuring, AcceptedSince, Available, Play;
      }
    }
  }

  /** In any stretch of time a key gets at most the capacity plus its share of that time,
      whatever other keys do. */
  lemma WindowBound(l: Limits, run: seq<Request>, key: string, from: Instant, to: Instant)
    requires l.Refills() && ClockIsMonotone(run) && from <= to
    ensures AcceptedDuring(l, run, key, from, to) as real <= l.capacity as real + Share(l, to - from)
  {
    hide *;
    AcceptedWithinRefill(l, run, key, from, to);
    RefillIsShare(l, to - from);
  }

  lemma LeftoverIsNonNegative(l: Limits, b: Buckets, key: string, now: Instant)
    requires l.Valid() && Sound(l, b, now)
    ensures Available(l, b, key, now) >= 0.0
  {
    CheckIsSound(l, b, key, now, now);
  }

  // ----- checks that must be accepted -----

  /** The key made no request after `time`. */
  ghost predicate QuietSince(run: seq<Request>, key: string, time: Instant) {
    forall r <- run :: r.key == key ==> r.at <= time
  }

  lemma {:induction false} LastRefillIsARequest(l: Limits, run: seq<Request>, key: string, time: Instant)
    requires l.Valid() && QuietSince(run, key, time)
    ensures key in Play(l, run) ==> Play(l, run)[key].lastRefill <= time
  {
    if run != [] {
      var before, last := run[..|run| - 1], run[|run| - 1];
      assert last in run && forall r <- before :: r in run;
      LastRefillIsARequest(l, before, key, time);
      hide Available;
    }
  }

  /** The time in which one token is refilled. */
  function TokenTime(l: Limits): real
    requires l.Valid() && l.capacity >= 1
  {
    l.window / l.capacity as real
  }

  lemma TokenTimeRefillsOne(l: Limits, elapsed: real)
    requires l.Refills() && l.capacity >= 1 && elapsed >= TokenTime(l)
    ensures l.Refill(elapsed) >= 1.0
  {
    var n, w, t := l.capacity as real, l.window, TokenTime(l);
    assert t * (n / w) == 1.0 by {
      assert t * n == w;
      assert (t * (n / w)) * w == t * ((n / w) * w) == t * n;
    }
    assert n / w > 0.0;
    assert (elapsed - t) * (n / w) >= 0.0;
    assert elapsed * (n / w) == t * (n / w) + (elapsed - t) * (n / w);
  }

  /** A key that has been quiet for as long as one token takes is accepted, whatever happened before. */
  lemma PatienceIsServed(l: Limits, run: seq<Request>, key: string, quiet: Instant, now: Instant)
    requires l.Valid() && l.capacity >= 1 && ClockIsMonotone(run)
    requires QuietSince(run, key, quiet) && quiet + TokenTime(l) <= now
    ensures Accepts(l, Play(l, run), key, now)
  {
    LastRefillIsARequest(l, run, key, quiet);
    RunsAreSound(l, run);
    var b := Play(l, run);
    hide Play, Limits.Refill, TokenTime;
    if key in b && l.Refills() {
      TokenTimeRefillsOne(l, now - b[key].lastRefill);
    }
  }

  /** The key has never asked, or not for a whole window. */
  ghost predicate Rested(l: Limits, run: seq<Request>, key: string, now: Instant) {
    QuietSince(run, key, now - l.window)
  }

  lemma WindowRefillsAll(l: Limits, elapsed: real)
    requires l.Refills() && elapsed >= l.window
    ensures l.Refill(elapsed) >= l.capacity as real
  {
    var n, w := l.capacity as real, l.window;
    assert w * (n / w) == n && n / w >= 0.0;
    assert elapsed * (n / w) == w * (n / w) + (elapsed - w) * (n / w);
    assert (elapsed - w) * (n / w) >= 0.0;
  }

  lemma RestedIsFull(l: Limits, run: seq<Request>, key: string, now: Instant)
    requires l.Refills() && ClockIsMonotone(run) && Rested(l, run, key, now)
    ensures Available(l, Play(l, run), key, now) == l.capacity as real
  {
    LastRefillIsARequest(l, run, key, now - l.window);
    RunsAreSound(l, run);
    var b := Play(l, run);
    hide Play, Limits.Refill;
    if key in b {
      WindowRefillsAll(l, now - b[key].lastRefill);
    }
  }

  function Burst(key: string, now: Instant, n: nat): seq<Request> {
    if n == 0 then [] else Burst(key, now, n - 1) + [Request(key, now)]
  }

  lemma {:induction false} BurstDrains(l: Limits, run: seq<Request>, key: string, now: Instant, n: nat)
    requires l.Refills() && ClockIsMonotone(run) && Rested(l, run, key, now) && n <= l.capacity
    ensures Available(l, Play(l, run + Burst(key, now, n)), key, now) == (l.capacity - n) as real
  {
    if n == 0 {
      assert run + Burst(key, now, 0) == run;
      RestedIsFull(l, run, key, now);
    } else {
      BurstDrains(l, run, key, now, n - 1);
      var longer := run + Burst(key, now, n);
      assert longer[..|longer| - 1] == run + Burst(key, now, n - 1) && longer[|longer| - 1] == Request(key, now);
      hide Burst, Limits.Refill, Rested;
      CheckBalances(l, Play(l, run + Burst(key, now, n - 1)), key, key, now);
    }
  }

  /** A key that is new, or was quiet for a whole window, gets `capacity` checks accepted at one
      instant, and not one more. */
  lemma BurstIsServed(l: Limits, run: seq<Request>, key: string, now: Instant, n: nat)
    requires l.Refills() && ClockIsMonotone(run) && Rested(l, run, key, now) && n <= l.capacity
    ensures Accepts(l, Play(l, run + Burst(key, now, n)), key, now) <==> n < l.capacity
  {
    BurstDrains(l, run, key, now, n);
  }

  // ----- rejected checks leave no trace -----

  /** From `now` on the two states cannot be told apart. */
  ghost predicate Alike(l: Limits, b: Buckets, c: Buckets, now: Instant)
    requires l.Valid()
  {
    forall key, t: Instant :: now <= t ==> Available(l, b, key, t) == Available(l, c, key, t)
  }

  lemma AvailableAfter(l: Limits, b: Buckets, key: string, now: Instant, other: string, t: Instant)
    requires l.Refills() && now <= t && UpToDate(b, now)
    ensures Available(l, AfterCheck(l, b, key, now), other, t)
         == if other != key then Available(l, b, other, t)
            else if !Accepts(l, b, key, now) then Available(l, b, key, t)
            else MinReal(Available(l, b, key, now) - 1.0 + l.Refill(t - now), l.capacity as real)
  {
    if other == key {
      RefillsCompose(l, b, key, now, t);
    }
    hide Limits.Refill;
  }

  /** A rejected check cannot be noticed afterwards. */
  lemma RejectedIsInvisible(l: Limits, b: Buckets, key: string, now: Instant)
    requires l.Refills() && UpToDate(b, now) && !Accepts(l, b, key, now)
    ensures Alike(l, AfterCheck(l, b, key, now), b, now)
  {
    forall other, t: Instant | now <= t
      ensures Available(l, AfterCheck(l, b, key, now), other, t) == Available(l, b, other, t)
    {
      AvailableAfter(l, b, key, now, other, t);
    }
  }

  /** The same check on states that are alike is decided alike and leaves them alike. */
  lemma AlikeStaysAlike(l: Limits, b: Buckets, c: Buckets, key: string, now: Instant)
    requires l.Refills() && UpToDate(b, now) && UpToDate(c, now) && Alike(l, b, c, now)
    ensures Accepts(l, b, key, now) == Accepts(l, c, key, now)
    ensures Alike(l, AfterCheck(l, b, key, now), AfterCheck(l, c, key, now), now)
  {
    assert Available(l, b, key, now) == Available(l, c, key, now);
    forall other, t: Instant | now <= t
      ensures Available(l, AfterCheck(l, b, key, now), other, t) == Available(l, AfterCheck(l, c, key, now), other, t)
    {
      AvailableAfter(l, b, key, now, other, t);
      AvailableAfter(l, c, key, now, other, t);
      assert Available(l, b, other, t) == Available(l, c, other, t);
    }
  }

  /** The run without the requests that `kept` crosses out. */
  function Kept(run: seq<Request>, kept: seq<bool>): seq<Request>
    requires |kept| == |run|
  {
    if run == [] then []
    else
      var n := |run| - 1;
      if kept[n] then Kept(run[..n], kept[..n]) + [run[n]] else Kept(run[..n], kept[..n])
  }

  /** The decisions on all requests of a run, in order. */
  function Decisions(l: Limits, run: seq<Request>): seq<bool>
    requires l.Valid()
  {
    if run == [] then [] else Decisions(l, run[..|run| - 1]) + [LastAccepted(l, run)]
  }

  function KeptDecisions(l: Limits, run: seq<Request>, kept: seq<bool>): seq<bool>
    requires l.Valid() && |kept| == |run|
  {
    if run == [] then []
    else
      var n := |run| - 1;
      KeptDecisions(l, run[..n], kept[..n]) + if kept[n] then [LastAccepted(l, run)] else []
  }

  /** Only rejected requests are crossed out. */
  ghost predicate CrossesOutRejected(l: Limits, run: seq<Request>, kept: seq<bool>)
    requires l.Valid() && |kept| == |run|
  {
    run == []
    || (var n := |run| - 1;
        CrossesOutRejected(l, run[..n], kept[..n]) && (!kept[n] ==> !LastAccepted(l, run)))
  }

  lemma LaterStaysMonotone(run: seq<Request>, last: Request)
    requires ClockIsMonotone(run) && forall r <- run :: r.at <= last.at
    ensures ClockIsMonotone(run + [last])
  {
  }

  lemma BeforeTheLast(run: seq<Request>, n: nat)
    requires ClockIsMonotone(run) && |run| == n + 1
    ensures forall r <- run[..n] :: r in run && r.at <= run[n].at
  {
  }

  lemma {:induction false} KeptIsMonotone(run: seq<Request>, kept: seq<bool>)
    requires |kept| == |run| && ClockIsMonotone(run)
    ensures ClockIsMonotone(Kept(run, kept))
    ensures forall r <- Kept(run, kept) :: r in run
  {
    if run != [] {
      var n := |run| - 1;
      KeptIsMonotone(run[..n], kept[..n]);
      BeforeTheLast(run, n);
      LaterStaysMonotone(Kept(run[..n], kept[..n]), run[n]);
      hide ClockIsMonotone;
    }
  }

  lemma {:induction false} WithoutRejected(l: Limits, run: seq<Request>, kept: seq<bool>, now: Instant)
    requires l.Refills() && ClockIsMonotone(run) && |kept| == |run| && CrossesOutRejected(l, run, kept)
    requires run != [] ==> run[|run| - 1].at <= now
    ensures Alike(l, Play(l, run), Play(l, Kept(run, kept)), now)
    ensures Decisions(l, Kept(run, kept)) == KeptDecisions(l, run, kept)
  {
    if run != [] {
      var n := |run| - 1;
      var last, shorter := run[n], Kept(run[..n], kept[..n]);
      WithoutRejected(l, run[..n], kept[..n], last.at);
      var b, c := Play(l, run[..n]), Play(l, shorter);
      KeptIsMonotone(run[..n], kept[..n]);
      assert shorter != [] ==> shorter[|shorter| - 1] in run[..n];
      RunsAreUpToDate(l, run[..n], last.at);
      RunsAreUpToDate(l, shorter, last.at);
      if kept[n] {
        AlikeStaysAlike(l, b, c, last.key, last.at);
        assert (shorter + [last])[..|shorter + [last]| - 1] == shorter;
      } else {
        RejectedIsInvisible(l, b, last.key, last.at);
      }
      hide Available, AfterCheck, Limits.Refill;
    }
  }

  /** With a window of zero all requests are decided alike. */
  lemma {:induction false} ZeroWindowDecides(l: Limits, run: seq<Request>, kept: seq<bool>)
    requires l.window == 0.0 && |kept| == |run|
    ensures Decisions(l, Kept(run, kept)) == KeptDecisions(l, run, kept)
  {
    if run != [] {
      var n := |run| - 1;
      ZeroWindowDecides(l, run[..n], kept[..n]);
      var shorter := Kept(run[..n], kept[..n]);
      assert (shorter + [run[n]])[..|shorter + [run[n]]| - 1] == shorter;
    }
  }

  /** Deleting any set of rejected requests from a run changes no other decision. */
  lemma RejectedLeaveNoTrace(l: Limits, run: seq<Request>, kept: seq<bool>)
    requires l.Valid() && ClockIsMonotone(run) && |kept| == |run| && CrossesOutRejected(l, run, kept)
    ensures Decisions(l, Kept(run, kept)) == KeptDecisions(l, run, kept)
  {
    if l.window == 0.0 {
      ZeroWindowDecides(l, run, kept);
    } else if run != [] {
      WithoutRejected(l, run, kept, run[|run| - 1].at);
    }
  }

  // ----- keys are independent -----

  function OfKey(run: seq<Request>, key: string): seq<Request> {
    if run == [] then []
    else OfKey(run[..|run| - 1], key) + if run[|run| - 1].key == key then [run[|run| - 1]] else []
  }

  function DecisionsOf(l: Limits, run: seq<Request>, key: string): seq<bool>
    requires l.Valid()
  {
    if run == [] then []
    else
      DecisionsOf(l, run[..|run| - 1], key)
      + if run[|run| - 1].key == key then [LastAccepted(l, run)] else []
  }

  /** The decisions on a key are those it would get if it were alone. */
  lemma {:induction false} KeysAreIndependent(l: Limits, run: seq<Request>, key: string)
    requires l.Valid()
    ensures DecisionsOf(l, run, key) == Decisions(l, OfKey(run, key))
    ensures var all, alone := Play(l, run), Play(l, OfKey(run, key));
      (key in all <==> key in alone) && (key in all ==> all[key] == alone[key])
  {
    if run != [] {
      var n := |run| - 1;
      KeysAreIndependent(l, run[..n], key);
      var mine := OfKey(run[..n], key);
      if run[n].key == key {
        assert OfKey(run, key) == mine + [run[n]];
        assert (mine + [run[n]])[..|mine + [run[n]]| - 1] == mine;
      } else {
        assert OfKey(run, key) == mine;
      }
      hide Limits.Refill, MinReal;
    }
  }
}
