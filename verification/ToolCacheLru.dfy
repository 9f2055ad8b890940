/** The tool cache against its specification: a list by recency of use. */
module ToolCacheLru {
  import opened Common
  import opened ToolCache

  function Without(s: seq<CachedTool>, name: string): seq<CachedTool> {
    if s == [] then []
    else
      var rest := Without(s[..|s| - 1], name);
      if s[|s| - 1].name == name then rest else rest + [s[|s| - 1]]
  }

  /** A history of uses without repetitions: each name where it was used last. */
  function Recency(uses: seq<CachedTool>): seq<CachedTool> {
    if uses == [] then []
    else
      var last := uses[|uses| - 1];
      Without(Recency(uses[..|uses| - 1]), last.name) + [last]
  }

  /** The uses of a run: successful inserts and hits, each with the tool it found or brought. */
  function Uses(limits: Limits, ops: seq<Op>): seq<CachedTool> {
    if ops == [] then []
    else
      var before, op := ops[..|ops| - 1], ops[|ops| - 1];
      var c := Play(limits, before);
      Uses(limits, before)
      + match op
        case Insert(tool) => if AfterInsert(limits, c, tool).1.Success? then [tool] else []
        case Get(name) => match AfterGet(c, name).1 case None => [] case Some(tool) => [tool]
  }

  function LastOf(s: seq<CachedTool>, n: nat): seq<CachedTool> {
    if |s| <= n then s else s[|s| - n..]
  }

  ghost predicate DistinctNames(s: seq<CachedTool>) {
    forall i, j :: 0 <= i < j < |s| ==> s[i].name != s[j].name
  }

  ghost predicate NamesIn(s: seq<CachedTool>, names: set<string>) {
    forall i :: 0 <= i < |s| ==> s[i].name in names
  }

  ghost predicate Absent(s: seq<CachedTool>, name: string) {
    forall i :: 0 <= i < |s| ==> s[i].name != name
  }

  // ----- facts about removal -----

  lemma {:induction false} WithoutConcat(a: seq<CachedTool>, b: seq<CachedTool>, name: string)
    ensures Without(a + b, name) == Without(a, name) + Without(b, name)
  {
    if b == [] {
      assert a + b == a;
    } else {
      assert (a + b)[..|a + b| - 1] == a + b[..|b| - 1];
      WithoutConcat(a, b[..|b| - 1], name);
    }
  }

  lemma {:induction false} WithoutAbsent(s: seq<CachedTool>, name: string)
    requires Absent(s, name)
    ensures Without(s, name) == s
  {
    if s != [] {
      var before := s[..|s| - 1];
      WithoutAbsent(before, name);
      assert s == before + [s[|s| - 1]];
      assert Without(s, name) == Without(before, name) + [s[|s| - 1]];
    }
  }

  lemma {:induction false} WithoutDistinct(s: seq<CachedTool>, name: string)
    requires DistinctNames(s)
    ensures DistinctNames(Without(s, name)) && Absent(Without(s, name), name)
    ensures forall t <- Without(s, name) :: t in s
  {
    if s != [] {
      var rest, last := Without(s[..|s| - 1], name), s[|s| - 1];
      WithoutDistinct(s[..|s| - 1], name);
      forall i | 0 <= i < |rest| ensures rest[i].name != last.name {
        assert rest[i] in s[..|s| - 1];
      }
    }
  }

  lemma WithoutAt(s: seq<CachedTool>, pos: nat)
    requires DistinctNames(s) && pos < |s|
    ensures Without(s, s[pos].name) == s[..pos] + s[pos + 1..]
  {
    var name, a, b := s[pos].name, s[..pos], s[pos + 1..];
    assert Without([s[pos]], name) == [];
    hide Without;
    assert s == (a + [s[pos]]) + b;
    WithoutConcat(a + [s[pos]], b, name);
    WithoutConcat(a, [s[pos]], name);
    WithoutAbsent(a, name);
    WithoutAbsent(b, name);
  }

  lemma {:induction false} RecencyDistinct(uses: seq<CachedTool>)
    ensures DistinctNames(Recency(uses))
  {
    if uses != [] {
      RecencyDistinct(uses[..|uses| - 1]);
      WithoutDistinct(Recency(uses[..|uses| - 1]), uses[|uses| - 1].name);
    }
  }

  // ----- the cache is the tail of the recency list -----

  /** Using a tool that is among the last `n` moves it to the end of them. */
  lemma UseCached(r: seq<CachedTool>, n: nat, tool: CachedTool, pos: nat)
    requires DistinctNames(r) && pos < |LastOf(r, n)| && LastOf(r, n)[pos].name == tool.name
    ensures LastOf(Without(r, tool.name) + [tool], n) == Promote(LastOf(r, n), pos, tool)
  {
    hide *;
    var k := LastOfFrom(r, n);
    assert r[k..][pos] == r[k + pos];
    WithoutAt(r, k + pos);
    PromoteInTail(r, k, pos, tool);
    LastOfTail(r[..k], Promote(r[k..], pos, tool), n);
  }

  lemma LastOfFrom(s: seq<CachedTool>, n: nat) returns (k: nat)
    ensures k <= |s| && LastOf(s, n) == s[k..]
    ensures |s| - k == n || (k == 0 && |s| <= n)
  {
    k := if |s| <= n then 0 else |s| - n;
    assert s[0..] == s;
  }

  lemma PromoteInTail(r: seq<CachedTool>, k: nat, pos: nat, tool: CachedTool)
    requires k + pos < |r|
    ensures r[..k + pos] + r[k + pos + 1..] + [tool] == r[..k] + Promote(r[k..], pos, tool)
    ensures |Promote(r[k..], pos, tool)| == |r| - k
  {
    assert r[..k + pos] == r[..k] + r[k..][..pos];
    assert r[k..][pos + 1..] == r[k + pos + 1..];
  }

  lemma LastOfTail(older: seq<CachedTool>, tail: seq<CachedTool>, n: nat)
    requires |tail| == n || (older == [] && |tail| <= n)
    ensures LastOf(older + tail, n) == tail
  {
  }

  /** Using a tool that is not among the last `n` pushes the oldest of them out. */
  lemma UseNew(r: seq<CachedTool>, n: nat, tool: CachedTool)
    requires n >= 1 && Absent(LastOf(r, n), tool.name)
    ensures var active := LastOf(r, n);
      LastOf(Without(r, tool.name) + [tool], n)
      == (if |active| == n then active[1..] else active) + [tool]
  {
    hide *;
    var k := LastOfFrom(r, n);
    var older, active := Without(r[..k], tool.name), r[k..];
    assert r == r[..k] + active;
    WithoutConcat(r[..k], active, tool.name);
    WithoutAbsent(active, tool.name);
    if |active| == n {
      Shift(older, active, tool, n);
    } else {
      WithoutNothing(tool.name);
      assert r[..k] == [] && older + active == active;
      LastOfTail([], active + [tool], n);
      assert [] + (active + [tool]) == active + [tool];
    }
  }

  lemma WithoutNothing(name: string)
    ensures Without([], name) == []
  {
  }

  lemma Shift(older: seq<CachedTool>, active: seq<CachedTool>, tool: CachedTool, n: nat)
    requires |active| == n && n >= 1
    ensures LastOf(older + active + [tool], n) == active[1..] + [tool]
  {
    var all := older + active + [tool];
    forall i | 0 <= i < n ensures all[|all| - n..][i] == (active[1..] + [tool])[i] {
      assert all[|all| - n..][i] == all[|older| + 1 + i];
    }
  }

  lemma RecencyNext(uses: seq<CachedTool>, tool: CachedTool)
    ensures Recency(uses + [tool]) == Without(Recency(uses), tool.name) + [tool]
  {
    assert (uses + [tool])[..|uses + [tool]| - 1] == uses;
  }

  lemma RefinesInsert(limits: Limits, c: Contents, uses: seq<CachedTool>, tool: CachedTool)
    requires c.active == LastOf(Recency(uses), Max(limits.contextCap, 1))
    ensures var (c', result) := AfterInsert(limits, c, tool);
      c'.active == LastOf(Recency(if result.Success? then uses + [tool] else uses), Max(limits.contextCap, 1))
  {
    RecencyDistinct(uses);
    RecencyNext(uses, tool);
    var r, n, pos := Recency(uses), Max(limits.contextCap, 1), Position(c.active, tool.name);
    hide Recency, Without;
    if pos.Some? {
      UseCached(r, n, tool, pos.value);
    } else {
      UseNew(r, n, tool);
    }
  }

  lemma RefinesGet(limits: Limits, c: Contents, uses: seq<CachedTool>, name: string)
    requires c.active == LastOf(Recency(uses), Max(limits.contextCap, 1))
    ensures var (c', found) := AfterGet(c, name);
      c'.active == LastOf(Recency(if found.Some? then uses + [found.value] else uses), Max(limits.contextCap, 1))
  {
    var pos := Position(c.active, name);
    if pos.Some? {
      var tool := c.active[pos.value];
      RecencyDistinct(uses);
      RecencyNext(uses, tool);
      hide Recency, Without;
      UseCached(Recency(uses), Max(limits.contextCap, 1), tool, pos.value);
    }
  }

  /** The cache refines true LRU: after any run, the active tools are the last `max(cap, 1)`
      entries of the run's uses, each name counted where it was used last. */
  lemma {:induction false} RefinesLru(limits: Limits, ops: seq<Op>)
    ensures Play(limits, ops).active == LastOf(Recency(Uses(limits, ops)), Max(limits.contextCap, 1))
  {
    if ops != [] {
      var before := ops[..|ops| - 1];
      var c, uses := Play(limits, before), Uses(limits, before);
      RefinesLru(limits, before);
      assert uses + [] == uses;
      match ops[|ops| - 1] {
        case Insert(tool) => RefinesInsert(limits, c, uses, tool);
        case Get(name) => RefinesGet(limits, c, uses, name);
      }
      hide Recency, AfterInsert, AfterGet;
    }
  }

  // ----- reachable states and the ceiling -----

  /** Names are distinct, active tools have been let in, and the ceiling and the cap hold. */
  ghost predicate Consistent(limits: Limits, c: Contents) {
    && DistinctNames(c.active) && NamesIn(c.active, c.seen)
    && |c.seen| <= limits.sessionCeiling
    && |c.active| <= Max(limits.contextCap, 1)
  }

  lemma PromoteKeeps(active: seq<CachedTool>, pos: nat, tool: CachedTool)
    requires DistinctNames(active) && pos < |active| && active[pos].name == tool.name
    ensures DistinctNames(Promote(active, pos, tool))
    ensures forall i :: 0 <= i < |active| ==>
      exists j :: 0 <= j < |active| && Promote(active, pos, tool)[i].name == active[j].name
  {
    var p := Promote(active, pos, tool);
    forall i | 0 <= i < |active|
      ensures exists j :: 0 <= j < |active| && p[i].name == active[j].name
    {
      var j := if i < pos then i else if i < |active| - 1 then i + 1 else pos;
      assert p[i].name == active[j].name;
    }
  }

  lemma InsertKeeps(limits: Limits, c: Contents, tool: CachedTool)
    requires Consistent(limits, c)
    ensures Consistent(limits, AfterInsert(limits, c, tool).0)
  {
    var pos := Position(c.active, tool.name);
    if pos.Some? {
      PromoteKeeps(c.active, pos.value, tool);
    } else if tool.name in c.seen {
      assert c.seen + {tool.name} == c.seen;
    }
  }

  lemma GetKeeps(limits: Limits, c: Contents, name: string)
    requires Consistent(limits, c)
    ensures Consistent(limits, AfterGet(c, name).0)
  {
    var pos := Position(c.active, name);
    if pos.Some? {
      PromoteKeeps(c.active, pos.value, c.active[pos.value]);
    }
  }

  /** What every reachable state keeps. */
  lemma {:induction false} ReachableIsConsistent(limits: Limits, ops: seq<Op>)
    ensures Consistent(limits, Play(limits, ops))
  {
    if ops != [] {
      var c := Play(limits, ops[..|ops| - 1]);
      ReachableIsConsistent(limits, ops[..|ops| - 1]);
      match ops[|ops| - 1] {
        case Insert(tool) => InsertKeeps(limits, c, tool);
        case Get(name) => GetKeeps(limits, c, name);
      }
      hide AfterInsert, AfterGet, Consistent;
    }
  }

  /** Whether an insert is refused is a matter of the names seen so far alone, and a refused
      insert changes nothing. */
  lemma CeilingDecision(limits: Limits, ops: seq<Op>, tool: CachedTool)
    ensures var c := Play(limits, ops);
      var (c', r) := AfterInsert(limits, c, tool);
      && (r.Failure? <==> tool.name !in c.seen && |c.seen| >= limits.sessionCeiling)
      && (r.Failure? ==> c' == c && r.error == CeilingReached(limits.sessionCeiling, limits.sessionCeiling + 1))
      && (r.Success? ==> c'.seen == c.seen + {tool.name} && c'.active != [] && c'.active[|c'.active| - 1] == tool)
  {
    ReachableIsConsistent(limits, ops);
    var c := Play(limits, ops);
    var pos := Position(c.active, tool.name);
    if pos.Some? {
      assert c.seen == c.seen + {tool.name};
    }
  }

  /** A tool is evicted exactly when a tool that is not active is let into a full cache, and it is
      the one unused for longest; every other active tool stays. */
  lemma EvictsTheOldestWhenFull(limits: Limits, ops: seq<Op>, tool: CachedTool)
    ensures var c := Play(limits, ops);
      var (c', r) := AfterInsert(limits, c, tool);
      && (r.Success? && r.value.Some?
          <==> Absent(c.active, tool.name) && !Refused(limits, c, tool.name) && |c.active| == Max(limits.contextCap, 1))
      && (r.Success? && r.value.Some? ==> [r.value.value] + c'.active == c.active + [tool])
      && (r.Success? && r.value.None? ==> c'.active == Without(c.active, tool.name) + [tool])
  {
    ReachableIsConsistent(limits, ops);
    var c := Play(limits, ops);
    var pos := Position(c.active, tool.name);
    if pos.Some? {
      WithoutAt(c.active, pos.value);
      hide Without;
      assert !Absent(c.active, tool.name) by { assert c.active[pos.value].name == tool.name; }
    } else {
      WithoutAbsent(c.active, tool.name);
      hide Without;
      if c.active != [] {
        assert [c.active[0]] + (c.active[1..] + [tool]) == c.active + [tool];
      }
    }
  }

  /** Caps and evictions never influence which names are let in. */
  lemma {:induction false} CapDoesNotMatter(cap1: nat, cap2: nat, ceiling: nat, ops: seq<Op>)
    ensures Play(Limits(cap1, ceiling), ops).seen == Play(Limits(cap2, ceiling), ops).seen
    ensures forall tool ::
      AfterInsert(Limits(cap1, ceiling), Play(Limits(cap1, ceiling), ops), tool).1.Failure?
      <==> AfterInsert(Limits(cap2, ceiling), Play(Limits(cap2, ceiling), ops), tool).1.Failure?
  {
    if ops != [] {
      var before := ops[..|ops| - 1];
      CapDoesNotMatter(cap1, cap2, ceiling, before);
      if ops[|ops| - 1].Insert? {
        CeilingDecision(Limits(cap1, ceiling), before, ops[|ops| - 1].tool);
        CeilingDecision(Limits(cap2, ceiling), before, ops[|ops| - 1].tool);
      }
    }
    forall tool
      ensures AfterInsert(Limits(cap1, ceiling), Play(Limits(cap1, ceiling), ops), tool).1.Failure?
         <==> AfterInsert(Limits(cap2, ceiling), Play(Limits(cap2, ceiling), ops), tool).1.Failure?
    {
      CeilingDecision(Limits(cap1, ceiling), ops, tool);
      CeilingDecision(Limits(cap2, ceiling), ops, tool);
    }
  }

  // ----- smaller and larger caps -----

  ghost predicate InsertsOnly(ops: seq<Op>) {
    forall i :: 0 <= i < |ops| ==> ops[i].Insert?
  }

  lemma {:induction false} SameUses(cap1: nat, cap2: nat, ceiling: nat, ops: seq<Op>)
    requires InsertsOnly(ops)
    ensures Uses(Limits(cap1, ceiling), ops) == Uses(Limits(cap2, ceiling), ops)
  {
    if ops != [] {
      SameUses(cap1, cap2, ceiling, ops[..|ops| - 1]);
      CapDoesNotMatter(cap1, cap2, ceiling, ops[..|ops| - 1]);
    }
  }

  ghost predicate IsSuffix(s: seq<CachedTool>, t: seq<CachedTool>) {
    |s| <= |t| && s == t[|t| - |s|..]
  }

  /** Inclusion: on runs of inserts a smaller cache holds the end of what a larger one holds. */
  lemma SmallerCacheIsSuffix(cap1: nat, cap2: nat, ceiling: nat, ops: seq<Op>)
    requires InsertsOnly(ops) && cap1 <= cap2
    ensures IsSuffix(Play(Limits(cap1, ceiling), ops).active, Play(Limits(cap2, ceiling), ops).active)
  {
    RefinesLru(Limits(cap1, ceiling), ops);
    RefinesLru(Limits(cap2, ceiling), ops);
    SameUses(cap1, cap2, ceiling, ops);
    hide *;
    LastOfShrinks(Recency(Uses(Limits(cap1, ceiling), ops)), Max(cap1, 1), Max(cap2, 1));
  }

  lemma LastOfShrinks(r: seq<CachedTool>, small: nat, large: nat)
    requires small <= large
    ensures IsSuffix(LastOf(r, small), LastOf(r, large))
  {
  }

  /** With lookups inclusion can fail: a miss in the smaller cache is a hit in the larger one. */
  lemma InclusionFailsWithLookups(a: CachedTool, b: CachedTool)
    requires a.name != b.name
    ensures var ops := [Insert(a), Insert(b), Get(a.name)];
      !IsSuffix(Play(Limits(1, 2), ops).active, Play(Limits(2, 2), ops).active)
  {
    ShortRun(1, a, b);
    ShortRun(2, a, b);
  }

  lemma ShortRun(cap: nat, a: CachedTool, b: CachedTool)
    requires a.name != b.name && 1 <= cap <= 2
    ensures Play(Limits(cap, 2), [Insert(a), Insert(b), Get(a.name)]).active == if cap == 1 then [b] else [b, a]
  {
    var l := Limits(cap, 2);
    var one, two := [Insert(a)], [Insert(a), Insert(b)];
    assert [] + one == one && one + [Insert(b)] == two && two + [Get(a.name)] == [Insert(a), Insert(b), Get(a.name)];
    PlayNext(l, [], Insert(a));
    PlayNext(l, one, Insert(b));
    PlayNext(l, two, Get(a.name));
    assert Play(l, []) == EMPTY;
    ShortInserts(cap, a, b);
    ShortLookup(a, b, Play(l, two).seen);
    hide Play, AfterInsert, AfterGet;
  }

  lemma ShortInserts(cap: nat, a: CachedTool, b: CachedTool)
    requires a.name != b.name && 1 <= cap <= 2
    ensures AfterInsert(Limits(cap, 2), EMPTY, a).0 == Contents([a], {a.name})
    ensures AfterInsert(Limits(cap, 2), Contents([a], {a.name}), b).0.active == if cap == 1 then [b] else [a, b]
  {
    assert Position([a], b.name).None?;
  }

  lemma ShortLookup(a: CachedTool, b: CachedTool, seen: set<string>)
    requires a.name != b.name
    ensures AfterGet(Contents([b], seen), a.name).0.active == [b]
    ensures AfterGet(Contents([a, b], seen), a.name).0.active == [b, a]
  {
    assert Position([b], a.name).None? && Position([a, b], a.name) == Some(0);
  }

  lemma PlayNext(limits: Limits, ops: seq<Op>, op: Op)
    ensures Play(limits, ops + [op]) == Apply(limits, Play(limits, ops), op)
  {
    assert (ops + [op])[..|ops + [op]| - 1] == ops;
  }

  // ----- exactly when inclusion holds -----

  /** A lookup that does not tell two caches apart: it hits the smaller one or misses the larger one. */
  predicate LooksAlike(small: Contents, large: Contents, name: string) {
    Position(small.active, name).Some? || Position(large.active, name).None?
  }

  lemma PositionIsUnique(s: seq<CachedTool>, pos: nat, name: string)
    requires DistinctNames(s) && pos < |s| && s[pos].name == name
    ensures Position(s, name) == Some(pos)
  {
    var p := Position(s, name);
    assert p.Some? && s[p.value].name == s[pos].name;
  }

  lemma SuffixAt(s: seq<CachedTool>, t: seq<CachedTool>, i: nat)
    requires IsSuffix(s, t) && i < |s|
    ensures |s| <= |t| && t[|t| - |s| + i] == s[i]
  {
  }

  /** Where the tools of a suffix are in the longer list. */
  lemma PositionInSuffix(s: seq<CachedTool>, t: seq<CachedTool>, name: string)
    requires IsSuffix(s, t) && DistinctNames(t) && Position(s, name).Some?
    ensures Position(t, name) == Some(|t| - |s| + Position(s, name).value)
  {
    hide *;
    var pos := Position(s, name).value;
    SuffixAt(s, t, pos);
    PositionIsUnique(t, |t| - |s| + pos, name);
  }

  lemma SuffixOf(older: seq<CachedTool>, s: seq<CachedTool>)
    ensures IsSuffix(s, older + s)
  {
  }

  lemma PromoteKeepsSuffix(s: seq<CachedTool>, t: seq<CachedTool>, name: string, tool: CachedTool)
    requires IsSuffix(s, t) && DistinctNames(t) && Position(s, name).Some?
    ensures Position(t, name).Some?
    ensures IsSuffix(Promote(s, Position(s, name).value, tool), Promote(t, Position(t, name).value, tool))
  {
    PositionInSuffix(s, t, name);
    var k, pos := |t| - |s|, Position(s, name).value;
    assert s == t[k..];
    PromotedTail(t, k, pos, tool);
    hide *;
    SuffixOf(t[..k], Promote(s, pos, tool));
  }

  lemma PromotedTail(t: seq<CachedTool>, k: nat, pos: nat, tool: CachedTool)
    requires k + pos < |t|
    ensures Promote(t, k + pos, tool) == t[..k] + Promote(t[k..], pos, tool)
  {
    PromoteInTail(t, k, pos, tool);
  }

  lemma GetKeepsSuffix(small: Contents, large: Contents, name: string)
    requires IsSuffix(small.active, large.active) && DistinctNames(large.active) && LooksAlike(small, large, name)
    ensures IsSuffix(AfterGet(small, name).0.active, AfterGet(large, name).0.active)
  {
    var pos := Position(small.active, name);
    if pos.Some? {
      PositionInSuffix(small.active, large.active, name);
      assert large.active[|large.active| - |small.active| + pos.value] == small.active[pos.value];
      PromoteKeepsSuffix(small.active, large.active, name, small.active[pos.value]);
    }
  }

  lemma GetBreaksSuffix(small: Contents, large: Contents, name: string)
    requires IsSuffix(small.active, large.active) && small.active != [] && !LooksAlike(small, large, name)
    ensures !IsSuffix(AfterGet(small, name).0.active, AfterGet(large, name).0.active)
  {
    var s, t := AfterGet(small, name).0.active, AfterGet(large, name).0.active;
    assert s == small.active && s[|s| - 1].name != name;
    assert t[|t| - 1].name == name;
    if |s| <= |t| {
      assert t[|t| - |s|..][|s| - 1] == t[|t| - 1];
    }
  }

  /** A tool that only the larger cache holds: it moves to the end there and is let in here. */
  lemma InsertIntoSmallOnly(s: seq<CachedTool>, t: seq<CachedTool>, n: nat, tool: CachedTool)
    requires IsSuffix(s, t) && Position(s, tool.name).None? && Position(t, tool.name).Some? && |s| <= n && n >= 1
    ensures IsSuffix((if |s| == n then s[1..] else s) + [tool], Promote(t, Position(t, tool.name).value, tool))
  {
    var pos, k := Position(t, tool.name).value, |t| - |s|;
    assert forall i :: 0 <= i < |s| ==> t[k..][i] == t[k + i];
    assert forall i :: k <= i < |t| ==> t[i] == s[i - k] && t[i].name != tool.name;
    assert pos < k;
    hide Position;
    var promoted := Promote(t, pos, tool);
    assert promoted[k - 1..] == s + [tool];
    if |s| == n {
      assert promoted[k..] == s[1..] + [tool];
    }
  }

  /** A tool that neither cache holds is appended to both. */
  lemma InsertIntoBoth(s: seq<CachedTool>, t: seq<CachedTool>, n: nat, m: nat, tool: CachedTool)
    requires IsSuffix(s, t) && |s| <= n && |t| <= m && 1 <= n <= m
    ensures IsSuffix((if |s| == n then s[1..] else s) + [tool], (if |t| == m then t[1..] else t) + [tool])
  {
    var s', t' := (if |s| == n then s[1..] else s) + [tool], (if |t| == m then t[1..] else t) + [tool];
    assert |s'| <= |t'|;
    forall i | 0 <= i < |s'| ensures s'[i] == t'[|t'| - |s'|..][i] {
    }
  }

  lemma InsertKeepsSuffix(cap1: nat, cap2: nat, ceiling: nat, small: Contents, large: Contents, tool: CachedTool)
    requires cap1 <= cap2 && small.seen == large.seen && IsSuffix(small.active, large.active)
    requires Consistent(Limits(cap1, ceiling), small) && Consistent(Limits(cap2, ceiling), large)
    ensures IsSuffix(AfterInsert(Limits(cap1, ceiling), small, tool).0.active,
                     AfterInsert(Limits(cap2, ceiling), large, tool).0.active)
  {
    var s, t, n, m := small.active, large.active, Max(cap1, 1), Max(cap2, 1);
    if Position(s, tool.name).Some? {
      PromoteKeepsSuffix(s, t, tool.name, tool);
    } else if Position(t, tool.name).Some? {
      assert tool.name in large.seen;
      InsertIntoSmallOnly(s, t, n, tool);
      hide Position, Promote, IsSuffix;
    } else {
      InsertIntoBoth(s, t, n, m, tool);
      hide Position, Promote;
    }
  }

  lemma {:induction false} EmptyUntilLetIn(limits: Limits, ops: seq<Op>)
    ensures Play(limits, ops).active == [] <==> Play(limits, ops).seen == {}
  {
    if ops != [] {
      EmptyUntilLetIn(limits, ops[..|ops| - 1]);
      if ops[|ops| - 1].Insert? {
        CeilingDecision(limits, ops[..|ops| - 1], ops[|ops| - 1].tool);
        hide AfterInsert;
      }
    }
  }

  ghost predicate Included(cap1: nat, cap2: nat, ceiling: nat, ops: seq<Op>) {
    IsSuffix(Play(Limits(cap1, ceiling), ops).active, Play(Limits(cap2, ceiling), ops).active)
  }

  /** One operation keeps inclusion unless it is a lookup that misses the smaller cache and hits
      the larger one. */
  lemma InclusionStep(cap1: nat, cap2: nat, ceiling: nat, ops: seq<Op>, op: Op)
    requires cap1 <= cap2 && Included(cap1, cap2, ceiling, ops)
    ensures Included(cap1, cap2, ceiling, ops + [op])
       <==> (op.Get? ==> LooksAlike(Play(Limits(cap1, ceiling), ops), Play(Limits(cap2, ceiling), ops), op.name))
  {
    var l, m := Limits(cap1, ceiling), Limits(cap2, ceiling);
    var small, large := Play(l, ops), Play(m, ops);
    PlayNext(l, ops, op);
    PlayNext(m, ops, op);
    ReachableIsConsistent(l, ops);
    ReachableIsConsistent(m, ops);
    CapDoesNotMatter(cap1, cap2, ceiling, ops);
    match op {
      case Insert(tool) => InsertKeepsSuffix(cap1, cap2, ceiling, small, large, tool);
      case Get(name) =>
        EmptyUntilLetIn(l, ops);
        EmptyUntilLetIn(m, ops);
        if LooksAlike(small, large, name) {
          GetKeepsSuffix(small, large, name);
        } else {
          assert small.active != [];
          GetBreaksSuffix(small, large, name);
        }
    }
    hide Play, AfterInsert, AfterGet, IsSuffix, LooksAlike;
  }

  ghost predicate LookupsAlike(cap1: nat, cap2: nat, ceiling: nat, ops: seq<Op>) {
    forall k: nat :: k < |ops| && ops[k].Get? ==>
      LooksAlike(Play(Limits(cap1, ceiling), ops[..k]), Play(Limits(cap2, ceiling), ops[..k]), ops[k].name)
  }

  ghost predicate AlwaysIncluded(cap1: nat, cap2: nat, ceiling: nat, ops: seq<Op>) {
    forall k: nat :: k <= |ops| ==> Included(cap1, cap2, ceiling, ops[..k])
  }

  lemma {:induction false} PrefixIncluded(cap1: nat, cap2: nat, ceiling: nat, ops: seq<Op>, k: nat)
    requires cap1 <= cap2 && LookupsAlike(cap1, cap2, ceiling, ops) && k <= |ops|
    ensures Included(cap1, cap2, ceiling, ops[..k])
  {
    if k > 0 {
      PrefixIncluded(cap1, cap2, ceiling, ops, k - 1);
      assert ops[..k] == ops[..k - 1] + [ops[k - 1]];
      hide Included, Play, LooksAlike;
      InclusionStep(cap1, cap2, ceiling, ops[..k - 1], ops[k - 1]);
    }
  }

  /** The exact condition: the smaller cache holds the end of what the larger one holds all
      through a run iff every lookup of the run hits the smaller cache or misses the larger one. */
  lemma InclusionCondition(cap1: nat, cap2: nat, ceiling: nat, ops: seq<Op>)
    requires cap1 <= cap2
    ensures AlwaysIncluded(cap1, cap2, ceiling, ops) <==> LookupsAlike(cap1, cap2, ceiling, ops)
  {
    hide Included, Play, LooksAlike;
    if AlwaysIncluded(cap1, cap2, ceiling, ops) {
      forall k: nat | k < |ops| && ops[k].Get?
        ensures LooksAlike(Play(Limits(cap1, ceiling), ops[..k]), Play(Limits(cap2, ceiling), ops[..k]), ops[k].name)
      {
        assert ops[..k + 1] == ops[..k] + [ops[k]];
        InclusionStep(cap1, cap2, ceiling, ops[..k], ops[k]);
      }
    }
    if LookupsAlike(cap1, cap2, ceiling, ops) {
      forall k: nat | k <= |ops| ensures Included(cap1, cap2, ceiling, ops[..k]) {
        PrefixIncluded(cap1, cap2, ceiling, ops, k);
      }
    }
  }

  // ----- contents -----

  function LastInserted(ops: seq<Op>, name: string): Option<CachedTool> {
    if ops == [] then None
    else
      var op := ops[|ops| - 1];
      if op.Insert? && op.tool.name == name then Some(op.tool) else LastInserted(ops[..|ops| - 1], name)
  }

  /** What the cache holds, and so what a hit returns, is the definition inserted last. */
  lemma {:induction false} HoldsLatest(limits: Limits, ops: seq<Op>)
    ensures forall t <- Play(limits, ops).active :: LastInserted(ops, t.name) == Some(t)
  {
    if ops != [] {
      var before := ops[..|ops| - 1];
      HoldsLatest(limits, before);
      ReachableIsConsistent(limits, before);
      if ops[|ops| - 1].Insert? {
        CeilingDecision(limits, before, ops[|ops| - 1].tool);
      }
    }
  }

  /** A lookup answers iff the name is active, and then with the definition inserted last, which it
      moves behind the others. */
  lemma LookupAnswersLatest(limits: Limits, ops: seq<Op>, name: string)
    ensures var c, (after, answer) := Play(limits, ops), AfterGet(Play(limits, ops), name);
      && after.seen == c.seen
      && (answer.Some? <==> exists t <- c.active :: t.name == name)
      && (answer.None? ==> after == c)
      && (answer.Some? ==> answer == LastInserted(ops, name)
                           && after.active == Without(c.active, name) + [answer.value])
  {
    HoldsLatest(limits, ops);
    ReachableIsConsistent(limits, ops);
    var c := Play(limits, ops);
    var pos := Position(c.active, name);
    if pos.Some? {
      WithoutAt(c.active, pos.value);
    }
    hide Play, LastInserted, Without;
  }
}
