/** The semantic router: direct routing, routing with confidence thresholds, and the prebuilt
    index that has to agree with it. */
module Router {
  import opened Common
  import opened Similarity
  import opened StableSort

  datatype RouterError = NoAgents | DimensionMismatch(expected: nat, got: nat) | NoRoutingCandidate

  datatype Agent = Agent(name: string, embedding: Vector)

  datatype RouteConfig = RouteConfig(confidenceThreshold: real, tieBreakGap: real)

  type Ranked = (string, real)

  datatype RouterDecision =
    | Confident(agentId: string, score: real)
    | NeedsLlmFallback(candidates: seq<Ranked>)

  const BY_SCORE: (Ranked, Ranked) -> bool := (a: Ranked, b: Ranked) => a.1 > b.1

  function Abs(x: real): real {
    if x < 0.0 then -x else x
  }

  /** The decision on a ranking, best candidate first. */
  function Decide(ranked: seq<Ranked>, cfg: RouteConfig): Result<RouterDecision, RouterError> {
    if ranked == [] then Failure(NoRoutingCandidate)
    else
      var best := ranked[0];
      var isTie := |ranked| > 1 && Abs(best.1 - ranked[1].1) < cfg.tieBreakGap;
      if best.1 < cfg.confidenceThreshold || isTie then Success(NeedsLlmFallback(ranked))
      else Success(Confident(best.0, best.1))
  }

  /** Scores of the agents for a query, as the router computes them. */
  function Scores(sqrt: real -> real, agents: seq<Agent>, query: Vector): (r: seq<Ranked>)
    ensures |r| == |agents|
    ensures forall i :: 0 <= i < |agents| ==>
      r[i] == (agents[i].name, Cosine(sqrt, agents[i].embedding, query))
  {
    if agents == [] then []
    else [(agents[0].name, Cosine(sqrt, agents[0].embedding, query))] + Scores(sqrt, agents[1..], query)
  }

  // ----- the index -----

  /** A snapshot of the registered agents together with the thresholds. */
  datatype RouterIndex = RouterIndex(agents: seq<Agent>, cfg: RouteConfig)

  /** The index passes the query first. */
  function IndexScores(sqrt: real -> real, agents: seq<Agent>, query: Vector): seq<Ranked> {
    if agents == [] then []
    else [(agents[0].name, Cosine(sqrt, query, agents[0].embedding))] + IndexScores(sqrt, agents[1..], query)
  }

  function IndexRoute(sqrt: real -> real, index: RouterIndex, query: Vector): Result<RouterDecision, RouterError> {
    if index.agents == [] then Failure(NoAgents)
    else
      var expected := |index.agents[0].embedding|;
      if |query| != expected then Failure(DimensionMismatch(expected, |query|))
      else Decide(Sort(BY_SCORE, IndexScores(sqrt, index.agents, query)), index.cfg)
  }

  // ----- the router -----

  /** Position `i` holds the first of the best scores. */
  ghost predicate IsFirstBest(scores: seq<Ranked>, i: nat) {
    && i < |scores|
    && (forall k :: 0 <= k < |scores| ==> scores[k].1 <= scores[i].1)
    && (forall k :: 0 <= k < i ==> scores[k].1 < scores[i].1)
  }

  lemma FirstBestNext(scores: seq<Ranked>, i: nat, best: nat)
    requires i < |scores| && (i > 0 ==> IsFirstBest(scores[..i], best))
    ensures if i == 0 || scores[i].1 > scores[best].1 then IsFirstBest(scores[..i + 1], i)
            else IsFirstBest(scores[..i + 1], best)
  {
    assert forall k :: 0 <= k < i ==> scores[..i][k] == scores[k];
    assert forall k :: 0 <= k < i ==> scores[k].1 <= scores[best].1;
    assert forall k :: 0 <= k <= i ==> scores[..i + 1][k] == scores[k];
  }

  class SemanticRouter {
    const sqrt: real -> real
    var agents: seq<Agent>
    var dimension: Option<nat>

    ghost predicate Valid()
      reads this
    {
      && (agents == [] <==> dimension.None?)
      && (forall a <- agents :: |a.embedding| == dimension.value)
    }

    constructor (sqrt: real -> real)
      ensures Valid() && agents == [] && this.sqrt == sqrt
    {
      this.sqrt := sqrt;
      agents, dimension := [], None;
    }

    method RegisterAgent(name: string, embedding: Vector) returns (r: Result<(), RouterError>)
      requires Valid()
      modifies this
      ensures Valid()
      ensures if old(dimension).Some? && |embedding| != old(dimension).value
        then r == Failure(DimensionMismatch(old(dimension).value, |embedding|))
             && agents == old(agents) && dimension == old(dimension)
        else r == Success(()) && agents == old(agents) + [Agent(name, embedding)] && dimension == Some(|embedding|)
    {
      if dimension.Some? {
        if |embedding| != dimension.value {
          return Failure(DimensionMismatch(dimension.value, |embedding|));
        }
      } else {
        dimension := Some(|embedding|);
      }
      agents := agents + [Agent(name, embedding)];
      r := Success(());
    }

    /** Why a query cannot be routed, if it cannot. */
    function Objection(query: Vector): Option<RouterError>
      reads this
    {
      if agents == [] then Some(NoAgents)
      else if dimension.Some? && |query| != dimension.value then
        Some(DimensionMismatch(dimension.value, |query|))
      else None
    }

    /** Direct routing: the running best over the agents in order of registration. */
    method Route(query: Vector) returns (r: Result<Ranked, RouterError>)
      ensures match Objection(query)
        case Some(e) => r == Failure(e)
        case None => r.Success? && exists i: nat :: IsFirstBest(Scores(sqrt, agents, query), i)
                                                    && r.value == Scores(sqrt, agents, query)[i]
    {
      var objection := Objection(query);
      if objection.Some? {
        return Failure(objection.value);
      }
      ghost var scores := Scores(sqrt, agents, query);
      var bestName, bestScore: Option<real> := agents[0].name, None;
      ghost var best := 0;
      hide Cosine, Scores, IsFirstBest;
      for i := 0 to |agents|
        invariant i == 0 ==> bestScore == None
        invariant i > 0 ==> best < i && bestScore.Some? && scores[best] == (bestName, bestScore.value)
        invariant i > 0 ==> IsFirstBest(scores[..i], best)
      {
        var score := CosineSimilarity(sqrt, agents[i].embedding, query);
        FirstBestNext(scores, i, best);
        if bestScore.None? || score > bestScore.value {
          bestScore, bestName, best := Some(score), agents[i].name, i;
        }
      }
      assert scores[..|agents|] == scores;
      r := Success((bestName, bestScore.value));
    }

    function RankCandidates(query: Vector): Result<seq<Ranked>, RouterError>
      reads this
    {
      if Objection(query).Some? then Failure(Objection(query).value)
      else Success(Sort(BY_SCORE, Scores(sqrt, agents, query)))
    }

    function RouteWithConfig(query: Vector, cfg: RouteConfig): Result<RouterDecision, RouterError>
      reads this
    {
      match RankCandidates(query)
      case Failure(e) => Failure(e)
      case Success(ranked) => Decide(ranked, cfg)
    }

    /** A copy of the agents as they are now. */
    function BuildIndex(cfg: RouteConfig): RouterIndex
      reads this
    {
      RouterIndex(agents, cfg)
    }

    /** The index answers every query as the router it was built from, errors included. */
    lemma IndexAgrees(query: Vector, cfg: RouteConfig)
      requires Valid()
      ensures IndexRoute(sqrt, BuildIndex(cfg), query) == RouteWithConfig(query, cfg)
    {
      if agents != [] {
        assert agents[0] in agents;
        SameScores(sqrt, agents, query);
      }
    }

    /** Routing fails only without agents, or when the query has not the length that all embeddings have. */
    lemma RefusedWhen(query: Vector, cfg: RouteConfig)
      requires Valid()
      ensures Objection(query) == Some(NoAgents) <==> agents == []
      ensures forall expected, got ::
        Objection(query) == Some(DimensionMismatch(expected, got)) <==>
          agents != [] && got == |query| != expected && forall a <- agents :: |a.embedding| == expected
      ensures Objection(query).Some? ==> !Objection(query).value.NoRoutingCandidate?
      ensures match RouteWithConfig(query, cfg)
        case Failure(e) => Objection(query) == Some(e)
        case Success(_) => Objection(query).None?
    {
      SortSorts(BY_SCORE, Scores(sqrt, agents, query));
      hide Scores, Sort;
      if agents != [] {
        assert agents[0] in agents;
      }
    }

    /** A confident answer is the one that direct routing gives; it meets the threshold and
        leads every other agent by at least the tie gap. Conversely such a lead is confident. */
    lemma ConfidentMeansClear(query: Vector, cfg: RouteConfig, direct: nat)
      requires Valid() && Objection(query).None?
      requires IsFirstBest(Scores(sqrt, agents, query), direct)
      ensures var scores := Scores(sqrt, agents, query);
        var decision := RouteWithConfig(query, cfg);
        && decision.Success?
        && (decision.value.Confident? <==> IsClear(scores, direct, cfg))
        && (decision.value.Confident? ==> decision.value == Confident(scores[direct].0, scores[direct].1))
    {
      var scores := Scores(sqrt, agents, query);
      var i, j := SortedTop(scores);
      FirstBestIsUnique(scores, i, direct);
      ClearLead(scores, i, j, cfg);
    }

    /** Otherwise all agents are offered as candidates, best first. */
    lemma FallbackOffersAll(query: Vector, cfg: RouteConfig)
      requires Valid()
      ensures var decision := RouteWithConfig(query, cfg);
        decision.Success? && decision.value.NeedsLlmFallback? ==>
          && Sorted(BY_SCORE, decision.value.candidates)
          && multiset(decision.value.candidates) == multiset(Scores(sqrt, agents, query))
    {
      SortSorts(BY_SCORE, Scores(sqrt, agents, query));
    }
  }

  /** The first best score meets the threshold and no other score comes within the gap. */
  ghost predicate IsClear(scores: seq<Ranked>, i: nat, cfg: RouteConfig)
    requires i < |scores|
  {
    && scores[i].1 >= cfg.confidenceThreshold
    && forall j :: 0 <= j < |scores| && j != i ==> scores[i].1 - scores[j].1 >= cfg.tieBreakGap
  }

  lemma {:induction false} SameScores(sqrt: real -> real, agents: seq<Agent>, query: Vector)
    ensures IndexScores(sqrt, agents, query) == Scores(sqrt, agents, query)
  {
    if agents != [] {
      SameScores(sqrt, agents[1..], query);
      CosineSymmetric(sqrt, query, agents[0].embedding);
      hide Cosine;
      var a, b := IndexScores(sqrt, agents, query), Scores(sqrt, agents, query);
      assert a == [b[0]] + Scores(sqrt, agents[1..], query);
    }
  }

  lemma FirstBestIsUnique(scores: seq<Ranked>, i: nat, j: nat)
    requires IsFirstBest(scores, i) && IsFirstBest(scores, j)
    ensures i == j
  {
    assert scores[i].1 <= scores[j].1 && scores[j].1 <= scores[i].1;
  }

  /** Position `j` holds a best one of the scores other than the one at `i`. */
  ghost predicate IsBestOther(scores: seq<Ranked>, i: nat, j: nat) {
    && i < |scores| && j < |scores| && i != j
    && forall k :: 0 <= k < |scores| && k != i ==> scores[k].1 <= scores[j].1
  }

  lemma InsertTop(x: Ranked, s: seq<Ranked>)
    requires s != []
    ensures var r := Insert(BY_SCORE, x, s);
      && |r| > 1
      && r[0] == (if s[0].1 > x.1 then s[0] else x)
      && r[1] == (if s[0].1 <= x.1 then s[0] else if |s| > 1 && s[1].1 > x.1 then s[1] else x)
  {
    var tail := Insert(BY_SCORE, x, s[1..]);
    assert tail != [] && tail[0] == if |s| > 1 && s[1].1 > x.1 then s[1] else x;
  }

  /** One more score in front of others whose best two are known. */
  lemma TopStep(scores: seq<Ranked>, a: nat, b: nat)
    requires |scores| > 1 && IsFirstBest(scores[1..], a)
    requires |scores| > 2 ==> IsBestOther(scores[1..], a, b)
    ensures if scores[a + 1].1 > scores[0].1
      then IsFirstBest(scores, a + 1)
           && IsBestOther(scores, a + 1, if |scores| > 2 && scores[b + 1].1 > scores[0].1 then b + 1 else 0)
      else IsFirstBest(scores, 0) && IsBestOther(scores, 0, a + 1)
  {
    var tail := scores[1..];
    assert forall k :: 0 < k < |scores| ==> tail[k - 1] == scores[k];
  }

  /** A stable sort by descending score starts with the first best score, followed by a best
      one of the others. */
  lemma {:induction false} SortedTop(scores: seq<Ranked>) returns (i: nat, j: nat)
    requires scores != []
    ensures IsFirstBest(scores, i)
    ensures |Sort(BY_SCORE, scores)| == |scores| && Sort(BY_SCORE, scores)[0] == scores[i]
    ensures |scores| > 1 ==> IsBestOther(scores, i, j) && Sort(BY_SCORE, scores)[1] == scores[j]
  {
    SortSorts(BY_SCORE, scores);
    i, j := 0, 0;
    if |scores| > 1 {
      var x, rest := scores[0], Sort(BY_SCORE, scores[1..]);
      var a, b := SortedTop(scores[1..]);
      InsertTop(x, rest);
      TopStep(scores, a, b);
      assert Sort(BY_SCORE, scores) == Insert(BY_SCORE, x, rest);
      hide Sort, Insert, IsFirstBest, IsBestOther;
      if rest[0].1 > x.1 {
        i, j := a + 1, if |rest| > 1 && rest[1].1 > x.1 then b + 1 else 0;
      } else {
        j := a + 1;
      }
    }
  }

  /** So the gap to the second decides whether the first is clear of all others. */
  lemma ClearLead(scores: seq<Ranked>, i: nat, j: nat, cfg: RouteConfig)
    requires IsFirstBest(scores, i)
    requires |Sort(BY_SCORE, scores)| == |scores| && Sort(BY_SCORE, scores)[0] == scores[i]
    requires |scores| > 1 ==> IsBestOther(scores, i, j) && Sort(BY_SCORE, scores)[1] == scores[j]
    ensures var decision := Decide(Sort(BY_SCORE, scores), cfg);
      && decision.Success?
      && (decision.value.Confident? <==> IsClear(scores, i, cfg))
      && (decision.value.Confident? ==> decision.value == Confident(scores[i].0, scores[i].1))
  {
    hide Sort;
    if |scores| > 1 {
      assert scores[j].1 <= scores[i].1;
    }
  }
}
