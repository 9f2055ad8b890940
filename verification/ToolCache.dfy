/** The session's tool cache: least-recently-used eviction under a soft cap on the active tools,
    and a hard ceiling on the distinct tools of the session. */
module ToolCache {
  import opened Common

  datatype CacheError = CeilingReached(ceiling: nat, attemptedTotal: nat)

  type InsertResult = Result<Option<CachedTool>, CacheError>

  /** Active tools, oldest first, and the names of all tools ever let in. */
  datatype Contents = Contents(active: seq<CachedTool>, seen: set<string>)

  const EMPTY := Contents([], {})

  datatype Limits = Limits(contextCap: nat, sessionCeiling: nat)

  datatype Op = Insert(tool: CachedTool) | Get(name: string)

  // ----- one operation -----

  function Position(active: seq<CachedTool>, name: string): (p: Option<nat>)
    ensures p.Some? ==> p.value < |active| && active[p.value].name == name
    ensures p.None? ==> forall i :: 0 <= i < |active| ==> active[i].name != name
  {
    if active == [] then None
    else if active[0].name == name then Some(0)
    else
      var p := Position(active[1..], name);
      assert forall i :: 1 <= i < |active| ==> active[i] == active[1..][i - 1];
      if p.Some? then Some(p.value + 1) else None
  }

  function Promote(active: seq<CachedTool>, pos: nat, tool: CachedTool): seq<CachedTool>
    requires pos < |active|
  {
    active[..pos] + active[pos + 1..] + [tool]
  }

  /** A name never let in before, when the session is full. */
  predicate Refused(limits: Limits, c: Contents, name: string) {
    Position(c.active, name).None? && name !in c.seen && |c.seen| >= limits.sessionCeiling
  }

  function AfterInsert(limits: Limits, c: Contents, tool: CachedTool): (Contents, InsertResult) {
    var pos := Position(c.active, tool.name);
    if pos.Some? then
      (c.(active := Promote(c.active, pos.value, tool)), Success(None))
    else if Refused(limits, c, tool.name) then
      (c, Failure(CeilingReached(limits.sessionCeiling, |c.seen| + 1)))
    else
      var seen := c.seen + {tool.name};
      if |c.active| >= limits.contextCap && c.active != [] then
        (Contents(c.active[1..] + [tool], seen), Success(Some(c.active[0])))
      else
        (Contents(c.active + [tool], seen), Success(None))
  }

  function AfterGet(c: Contents, name: string): (Contents, Option<CachedTool>) {
    var pos := Position(c.active, name);
    if pos.None? then (c, None)
    else (c.(active := Promote(c.active, pos.value, c.active[pos.value])), Some(c.active[pos.value]))
  }

  function Apply(limits: Limits, c: Contents, op: Op): Contents {
    match op
    case Insert(tool) => AfterInsert(limits, c, tool).0
    case Get(name) => AfterGet(c, name).0
  }

  function Play(limits: Limits, ops: seq<Op>): Contents {
    if ops == [] then EMPTY else Apply(limits, Play(limits, ops[..|ops| - 1]), ops[|ops| - 1])
  }

  class DynamicToolCache {
    const limits: Limits
    var active: seq<CachedTool>
    var seen: set<string>
    ghost var ops: seq<Op>

    ghost predicate Valid()
      reads this
    {
      Contents(active, seen) == Play(limits, ops)
    }

    constructor (contextCap: nat, sessionCeiling: nat)
      ensures Valid() && limits == Limits(contextCap, sessionCeiling) && ops == []
    {
      limits := Limits(contextCap, sessionCeiling);
      active, seen, ops := [], {}, [];
    }

    method Insert(tool: CachedTool) returns (r: InsertResult)
      requires Valid()
      modifies this
      ensures Valid() && ops == old(ops) + [Op.Insert(tool)]
      ensures (Contents(active, seen), r) == AfterInsert(limits, Contents(old(active), old(seen)), tool)
    {
      ops := ops + [Op.Insert(tool)];
      assert ops[..|ops| - 1] == old(ops);
      var pos := Position(active, tool.name);
      if pos.Some? {
        active := active[..pos.value] + active[pos.value + 1..];
        active := active + [tool];
        return Success(None);
      }
      if tool.name !in seen {
        if |seen| >= limits.sessionCeiling {
          return Failure(CeilingReached(limits.sessionCeiling, |seen| + 1));
        }
        seen := seen + {tool.name};
      } else {
        assert seen == seen + {tool.name};
      }
      var evicted: Option<CachedTool> := None;
      if |active| >= limits.contextCap {
        if active != [] {
          evicted, active := Some(active[0]), active[1..];
        }
      }
      active := active + [tool];
      r := Success(evicted);
    }

    method Get(name: string) returns (tool: Option<CachedTool>)
      requires Valid()
      modifies this`active, this`ops
      ensures Valid() && ops == old(ops) + [Op.Get(name)]
      ensures (Contents(active, seen), tool) == AfterGet(Contents(old(active), seen), name)
    {
      ops := ops + [Op.Get(name)];
      assert ops[..|ops| - 1] == old(ops);
      var pos := Position(active, name);
      if pos.None? {
        return None;
      }
      tool := Some(active[pos.value]);
      active := active[..pos.value] + active[pos.value + 1..];
      active := active + [tool.value];
    }
  }
}
