/** The tool catalog: offers of several providers merged under distinct public names. */
module ToolCatalog {
  import opened Common

  datatype ProviderKind = Native | WasmSkill | Mcp | ExternalCompat | Remote

  /** `details` stands for the fields that merging carries along. */
  datatype Entry = Entry(toolId: string, publicName: string, kind: ProviderKind, details: string)

  const LAST_SUFFIX := 999

  function Precedence(kind: ProviderKind): nat {
    match kind
    case Native => 0
    case WasmSkill => 1
    case Mcp => 2
    case ExternalCompat => 3
    case Remote => 4
  }

  function KindName(kind: ProviderKind): string {
    match kind
    case Native => "native"
    case WasmSkill => "wasmskill"
    case Mcp => "mcp"
    case ExternalCompat => "externalcompat"
    case Remote => "remote"
  }

  function Digit(d: nat): char
    requires d < 10
  {
    '0' + d as char
  }

  function Decimal(n: nat): string {
    if n < 10 then [Digit(n)] else Decimal(n / 10) + [Digit(n % 10)]
  }

  function Base(e: Entry): string {
    KindName(e.kind) + "__" + e.publicName
  }

  /** The k-th alias to try: the base itself, then the base with suffixes 2, 3, ... */
  function Candidate(base: string, k: nat): string {
    if k <= 1 then base else base + "__" + Decimal(k)
  }

  function Fallback(base: string): string {
    base + "__fallback"
  }

  predicate Taken(tools: seq<Entry>, name: string) {
    exists i :: 0 <= i < |tools| && tools[i].publicName == name
  }

  function FirstFree(tools: seq<Entry>, base: string, k: nat): string
    decreases LAST_SUFFIX + 1 - k
  {
    if k > LAST_SUFFIX then Fallback(base)
    else if !Taken(tools, Candidate(base, k)) then Candidate(base, k)
    else FirstFree(tools, base, k + 1)
  }

  function Alias(tools: seq<Entry>, e: Entry): string {
    FirstFree(tools, Base(e), 1)
  }

  function Holder(tools: seq<Entry>, name: string): (p: Option<nat>)
    ensures p.Some? ==> p.value < |tools| && tools[p.value].publicName == name
    ensures p.None? <==> !Taken(tools, name)
  {
    if tools == [] then None
    else if tools[0].publicName == name then Some(0)
    else
      var p := Holder(tools[1..], name);
      assert forall i :: 1 <= i < |tools| ==> tools[i] == tools[1..][i - 1];
      if p.Some? then Some(p.value + 1) else None
  }

  /** An offer under a taken name is renamed, unless it takes precedence over the holder. */
  function MergeOne(tools: seq<Entry>, e: Entry): seq<Entry> {
    var p := Holder(tools, e.publicName);
    if p.None? then tools + [e]
    else
      var existing := tools[p.value];
      if Precedence(existing.kind) <= Precedence(e.kind) then
        tools + [e.(publicName := Alias(tools, e))]
      else
        tools[p.value := existing.(publicName := Alias(tools, existing))] + [e]
  }

  function Merge(tools: seq<Entry>, entries: seq<Entry>): seq<Entry> {
    if entries == [] then tools
    else MergeOne(Merge(tools, entries[..|entries| - 1]), entries[|entries| - 1])
  }

  method CollisionAlias(e: Entry, existing: seq<Entry>) returns (alias: string)
    ensures alias == Alias(existing, e)
  {
    var base := Base(e);
    if !Taken(existing, base) {
      return base;
    }
    for suffix := 2 to LAST_SUFFIX + 1
      invariant FirstFree(existing, base, 1) == FirstFree(existing, base, suffix)
    {
      var candidate := base + "__" + Decimal(suffix);
      if !Taken(existing, candidate) {
        return candidate;
      }
    }
    alias := Fallback(base);
  }

  class ToolProviderCatalog {
    var tools: seq<Entry>

    constructor ()
      ensures tools == []
    {
      tools := [];
    }

    method MergeTools(entries: seq<Entry>)
      modifies this
      ensures tools == Merge(old(tools), entries)
    {
      for k := 0 to |entries|
        invariant tools == Merge(old(tools), entries[..k])
      {
        var entry := entries[k];
        assert entries[..k + 1][..k] == entries[..k];
        var p := Holder(tools, entry.publicName);
        if p.Some? {
          var existing := tools[p.value];
          if Precedence(existing.kind) <= Precedence(entry.kind) {
            var alias := CollisionAlias(entry, tools);
            entry := entry.(publicName := alias);
          } else {
            var alias := CollisionAlias(existing, tools);
            tools := tools[p.value := existing.(publicName := alias)];
          }
        }
        tools := tools + [entry];
      }
      assert entries[..|entries|] == entries;
    }
  }
}
