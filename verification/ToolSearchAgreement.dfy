/** When the two searches of the tool registry agree. */
module ToolSearchAgreement {
  import opened Common
  import opened StableSort
  import opened Text
  import opened ToolSearch

  // ----- the comparisons are fit for sorting -----

  lemma EntryOrder()
    ensures StrictWeakOrder(ENTRY_BEFORE)
  {
    forall a, b ensures ENTRY_BEFORE(a, b) ==> !ENTRY_BEFORE(b, a) {
      StringLessAsymmetric(a.tool.name, b.tool.name);
    }
    forall a, b, c | ENTRY_BEFORE(a, c) ensures ENTRY_BEFORE(a, b) || ENTRY_BEFORE(b, c) {
      if a.score.None? && c.score.None? {
        StringLessNegativelyTransitive(a.tool.name, b.tool.name, c.tool.name);
      }
    }
  }

  // ----- visibility against compatibility -----

  /** With a profile the explanation and the filter are two readings of one rule; without one
      they differ exactly on invalid schemas. The reason says `Available` iff the tool is. */
  lemma VisibilityAgrees(st: Setting, tool: CachedTool)
    ensures Explain(st, tool).available == IsCompatible(st, tool)
       <==> st.profile.Some? || st.normalize(tool.schema).Success?
    ensures Explain(st, tool).available <==> Explain(st, tool).reason.Available?
    ensures Explain(st, tool).available ==> IsCompatible(st, tool)
  {
  }

  /** What a tool has to meet, in the order of the reasons. Without a profile only the schema counts. */
  ghost predicate Meets(st: Setting, tool: CachedTool, requirement: nat) {
    match requirement
    case 0 => st.profile.Some? ==> !st.profile.value.schemaMode.Unsupported?
    case 1 => st.profile.Some? && tool.requiresStrictSchema ==> st.profile.value.schemaMode.StrictJsonSchema?
    case 2 => st.profile.Some? && ImageModality in tool.modalities ==> st.profile.value.images.Supported?
    case 3 => st.profile.Some? && AudioModality in tool.modalities ==> st.profile.value.audio.Supported?
    case _ => st.normalize(tool.schema).Success?
  }

  ghost predicate FirstUnmet(st: Setting, tool: CachedTool, requirement: nat) {
    !Meets(st, tool, requirement) && forall r: nat :: r < requirement ==> Meets(st, tool, r)
  }

  /** The reason names the first requirement the tool fails, and it is available if it fails none. */
  lemma ReasonIsTheFirstUnmet(st: Setting, tool: CachedTool)
    ensures var shown := Explain(st, tool);
      && shown.toolName == tool.name
      && (shown.reason.Available? <==> forall r: nat :: r < 5 ==> Meets(st, tool, r))
      && (shown.reason.ToolSchemasUnsupported? <==> FirstUnmet(st, tool, 0))
      && (shown.reason.StrictSchemaRequired? <==> FirstUnmet(st, tool, 1))
      && (shown.reason.ImageModalityUnsupported? <==> FirstUnmet(st, tool, 2))
      && (shown.reason.AudioModalityUnsupported? <==> FirstUnmet(st, tool, 3))
      && (shown.reason.InvalidSchema? <==> FirstUnmet(st, tool, 4))
      && (shown.reason.InvalidSchema? ==> st.normalize(tool.schema) == Failure(shown.reason.message))
  {
    if forall r: nat :: r < 5 ==> Meets(st, tool, r) {
      assert Meets(st, tool, 0) && Meets(st, tool, 1) && Meets(st, tool, 2) && Meets(st, tool, 3);
      assert Meets(st, tool, 4);
    }
  }

  // ----- the order of the results -----

  lemma EntryOf(st: Setting, tools: seq<CachedTool>, e: SearchEntry)
    requires e in Map(AsEntry(st), tools)
    ensures e == AsEntry(st)(e.tool) && e.tool in tools
  {
    var entries := Map(AsEntry(st), tools);
    var k :| 0 <= k < |entries| && entries[k] == e;
    assert e == AsEntry(st)(tools[k]);
  }

  /** The second entry may stand behind the first. */
  ghost predicate Follows(a: SearchEntry, b: SearchEntry) {
    if b.visibility.available then
      && a.visibility.available && a.score.Some? && b.score.Some?
      && a.score.value >= b.score.value
    else
      a.visibility.available || !StringLess(b.tool.name, a.tool.name)
  }

  lemma NotBeforeFollows(st: Setting, tools: seq<CachedTool>, a: SearchEntry, b: SearchEntry)
    requires a in Map(AsEntry(st), tools) && b in Map(AsEntry(st), tools) && !ENTRY_BEFORE(b, a)
    ensures Follows(a, b)
  {
    EntryOf(st, tools, a);
    EntryOf(st, tools, b);
  }

  /** The explaining search shows available tools first, better scores first, and then the hidden ones
      by name. What it leaves out comes after all it shows. */
  lemma ExplainedInOrder(st: Setting, tools: seq<CachedTool>, topK: nat) returns (rest: seq<SearchEntry>)
    requires tools != []
    ensures var entries := SearchWithExplanations(st, tools, topK).value;
      && |entries| == Min(topK, |tools|)
      && multiset(entries) + multiset(rest) == multiset(Map(AsEntry(st), tools))
      && forall i, j :: 0 <= i < j < |entries + rest| ==> Follows((entries + rest)[i], (entries + rest)[j])
  {
    var all := Map(AsEntry(st), tools);
    EntryOrder();
    rest := TopOfSorted(ENTRY_BEFORE, all, topK);
    hide Map, AsEntry, Sort, Follows, StrictWeakOrder;
    var shown := Take(Sort(ENTRY_BEFORE, all), topK) + rest;
    forall i, j | 0 <= i < j < |shown| ensures Follows(shown[i], shown[j]) {
      assert shown[i] in shown && shown[j] in shown;
      NotBeforeFollows(st, tools, shown[i], shown[j]);
    }
  }

  lemma ScoreOrder()
    ensures StrictWeakOrder(HIGHER_SCORE)
  {
  }

  /** The plain search shows the compatible tools, better scores first, and leaves out none that is
      better than one shown. */
  lemma HitsInOrder(st: Setting, tools: seq<CachedTool>, topK: nat) returns (rest: seq<Scored>)
    requires tools != []
    ensures var hits := Search(st, tools, topK).value;
      && |hits| == Min(topK, |Filter(Compatible(st), tools)|)
      && multiset(hits) + multiset(rest) == multiset(Map(WithScore(st), Filter(Compatible(st), tools)))
      && forall i, j :: 0 <= i < j < |hits + rest| ==> (hits + rest)[i].1 >= (hits + rest)[j].1
  {
    var all := Map(WithScore(st), Filter(Compatible(st), tools));
    ScoreOrder();
    rest := TopOfSorted(HIGHER_SCORE, all, topK);
    hide Map, Filter, WithScore, Compatible, Sort, StrictWeakOrder;
  }

  // ----- agreement -----

  lemma {:induction false} FilterMap<T, U>(p: T -> bool, q: U -> bool, f: T -> U, s: seq<T>)
    requires forall t <- s :: p(t) <==> q(f(t))
    ensures Filter(q, Map(f, s)) == Map(f, Filter(p, s))
  {
    if s != [] {
      assert Map(f, s)[1..] == Map(f, s[1..]);
      FilterMap(p, q, f, s[1..]);
      assert p(s[0]) <==> q(f(s[0]));
      if p(s[0]) {
        assert ([s[0]] + Filter(p, s[1..]))[1..] == Filter(p, s[1..]);
      }
    }
  }

  lemma HitsAsEntries(st: Setting, tools: seq<CachedTool>)
    requires forall t <- tools :: Explain(st, t).available == IsCompatible(st, t)
    ensures Filter(IS_AVAILABLE, Map(AsEntry(st), tools))
         == Map(SHOWN, Map(WithScore(st), Filter(Compatible(st), tools)))
  {
    FilterMap(Compatible(st), IS_AVAILABLE, AsEntry(st), tools);
    FilterMembers(Compatible(st), tools);
    var kept := Filter(Compatible(st), tools);
    forall i | 0 <= i < |kept| ensures Map(AsEntry(st), kept)[i] == Map(SHOWN, Map(WithScore(st), kept))[i] {
      assert kept[i] in tools && Compatible(st)(kept[i]);
      VisibilityAgrees(st, kept[i]);
    }
  }

  lemma AvailableFirst(st: Setting, tools: seq<CachedTool>)
    ensures ComeFirst(IS_AVAILABLE, Sort(ENTRY_BEFORE, Map(AsEntry(st), tools)))
  {
    var entries := Map(AsEntry(st), tools);
    var sorted := Sort(ENTRY_BEFORE, entries);
    EntryOrder();
    SortSorts(ENTRY_BEFORE, entries);
    forall i, j | 0 <= i < j < |sorted| && IS_AVAILABLE(sorted[j]) ensures IS_AVAILABLE(sorted[i]) {
      assert sorted[i] in multiset(entries) && sorted[j] in multiset(entries);
      var k :| 0 <= k < |entries| && entries[k] == sorted[i];
      var l :| 0 <= l < |entries| && entries[l] == sorted[j];
      assert entries[k] == AsEntry(st)(tools[k]) && entries[l] == AsEntry(st)(tools[l]);
      assert !ENTRY_BEFORE(sorted[j], sorted[i]);
    }
  }

  lemma {:induction false} MapTake<T, U>(f: T -> U, s: seq<T>, n: nat)
    ensures Map(f, Take(s, n)) == Take(Map(f, s), n)
  {
  }

  /** The searches agree on every store whose tools the two visibility rules treat alike. */
  lemma SearchesAgree(st: Setting, tools: seq<CachedTool>, topK: nat)
    requires forall t <- tools :: Explain(st, t).available == IsCompatible(st, t)
    ensures Agree(st, tools, topK)
  {
    if tools != [] && topK > 0 {
      var entries := Map(AsEntry(st), tools);
      var hits := Map(WithScore(st), Filter(Compatible(st), tools));
      EntryOrder();
      AvailableFirst(st, tools);
      FilterTake(IS_AVAILABLE, Sort(ENTRY_BEFORE, entries), topK);
      SortFilter(ENTRY_BEFORE, IS_AVAILABLE, entries);
      HitsAsEntries(st, tools);
      SortMap(HIGHER_SCORE, ENTRY_BEFORE, SHOWN, hits);
      MapTake(SHOWN, Sort(HIGHER_SCORE, hits), topK);
      calc {
        Filter(IS_AVAILABLE, Take(Sort(ENTRY_BEFORE, entries), topK));
        Take(Filter(IS_AVAILABLE, Sort(ENTRY_BEFORE, entries)), topK);
        Take(Sort(ENTRY_BEFORE, Filter(IS_AVAILABLE, entries)), topK);
        Take(Sort(ENTRY_BEFORE, Map(SHOWN, hits)), topK);
        Take(Map(SHOWN, Sort(HIGHER_SCORE, hits)), topK);
        Map(SHOWN, Take(Sort(HIGHER_SCORE, hits), topK));
      }
    } else {
      assert tools != [] ==> Filter(IS_AVAILABLE, []) == Map(SHOWN, []);
    }
  }

  lemma {:induction false} FilterShortens<T>(p: T -> bool, s: seq<T>)
    ensures |Filter(p, s)| <= |s|
    ensures |Filter(p, s)| == |s| <==> forall x <- s :: p(x)
  {
    if s != [] {
      FilterShortens(p, s[1..]);
      assert s == [s[0]] + s[1..];
      if forall x <- s[1..] :: p(x) {
        assert p(s[0]) ==> forall x <- s :: p(x);
      }
    }
  }

  /** Without a profile every tool is a hit. */
  lemma AllAreHits(st: Setting, tools: seq<CachedTool>)
    requires st.profile.None?
    ensures |Sort(HIGHER_SCORE, Map(WithScore(st), Filter(Compatible(st), tools)))| == |tools|
  {
    FilterShortens(Compatible(st), tools);
    SortLength(HIGHER_SCORE, Map(WithScore(st), Filter(Compatible(st), tools)));
  }

  lemma {:induction false} InsertLength<T>(less: (T, T) -> bool, x: T, s: seq<T>)
    ensures |Insert(less, x, s)| == |s| + 1
  {
    if s != [] {
      InsertLength(less, x, s[1..]);
    }
  }

  lemma {:induction false} SortLength<T>(less: (T, T) -> bool, s: seq<T>)
    ensures |Sort(less, s)| == |s|
  {
    if s != [] {
      SortLength(less, s[1..]);
      InsertLength(less, s[0], Sort(less, s[1..]));
    }
  }

  /** A tool with an invalid schema is never shown as available. */
  lemma InvalidIsHidden(st: Setting, tools: seq<CachedTool>, tool: CachedTool)
    requires tool in tools && st.normalize(tool.schema).Failure?
    ensures |Filter(IS_AVAILABLE, Map(AsEntry(st), tools))| < |tools|
  {
    var entries := Map(AsEntry(st), tools);
    var k :| 0 <= k < |tools| && tools[k] == tool;
    assert entries[k] == AsEntry(st)(tool) && !IS_AVAILABLE(entries[k]);
    FilterShortens(IS_AVAILABLE, entries);
  }

  /** Without a profile, one invalid schema is enough to tell the searches apart. */
  lemma InvalidSchemaSeparates(st: Setting, tools: seq<CachedTool>, tool: CachedTool)
    requires st.profile.None? && tool in tools && st.normalize(tool.schema).Failure?
    ensures !Agree(st, tools, |tools|)
  {
    hide Map, Filter, Sort, AsEntry, WithScore, Compatible;
    var entries, hits := Map(AsEntry(st), tools), Map(WithScore(st), Filter(Compatible(st), tools));
    AllAreHits(st, tools);
    InvalidIsHidden(st, tools, tool);
    EntryOrder();
    SortFilter(ENTRY_BEFORE, IS_AVAILABLE, entries);
    SortLength(ENTRY_BEFORE, entries);
    SortLength(ENTRY_BEFORE, Filter(IS_AVAILABLE, entries));
    assert Take(Sort(HIGHER_SCORE, hits), |tools|) == Sort(HIGHER_SCORE, hits);
    assert Take(Sort(ENTRY_BEFORE, entries), |tools|) == Sort(ENTRY_BEFORE, entries);
  }

  /** The exact condition: for every number of hits the searches agree iff a profile is given
      or every schema in the store is valid. */
  lemma AgreementCondition(st: Setting, tools: seq<CachedTool>)
    ensures (forall k: nat :: Agree(st, tools, k))
       <==> st.profile.Some? || forall t <- tools :: st.normalize(t.schema).Success?
  {
    if st.profile.Some? || forall t <- tools :: st.normalize(t.schema).Success? {
      forall k: nat ensures Agree(st, tools, k) {
        forall t <- tools ensures Explain(st, t).available == IsCompatible(st, t) {
          VisibilityAgrees(st, t);
        }
        SearchesAgree(st, tools, k);
      }
    } else {
      var tool :| tool in tools && !st.normalize(tool.schema).Success?;
      InvalidSchemaSeparates(st, tools, tool);
    }
  }
}
