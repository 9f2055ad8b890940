/** Public names of the catalog: distinct, never lost, and held by the strongest offer. */
module ToolCatalogNames {
  import opened Common
  import opened ToolCatalog

  /** 999 aliases to try, one slot for the name itself and one for the fallback. */
  const CAPACITY := 1001

  // ----- aliases are pairwise different -----

  lemma {:induction false} DecimalIsInjective(a: nat, b: nat)
    requires Decimal(a) == Decimal(b)
    ensures a == b
  {
    var x, y := Decimal(a), Decimal(b);
    assert x[|x| - 1] == Digit(a % 10) && y[|y| - 1] == Digit(b % 10);
    if a >= 10 && b >= 10 {
      assert x[..|x| - 1] == Decimal(a / 10) && y[..|y| - 1] == Decimal(b / 10);
      DecimalIsInjective(a / 10, b / 10);
    }
  }

  lemma {:induction false} DecimalIsDigits(n: nat)
    ensures Decimal(n) != [] && '0' <= Decimal(n)[0] <= '9'
  {
    if n >= 10 {
      DecimalIsDigits(n / 10);
    }
  }

  lemma CandidatesDiffer(base: string, k: nat, l: nat)
    requires 1 <= k < l
    ensures Candidate(base, k) != Candidate(base, l)
    ensures Candidate(base, k) != Fallback(base) && Candidate(base, l) != Fallback(base)
  {
    DecimalIsDigits(k);
    DecimalIsDigits(l);
    hide Decimal;
    var n := |base| + 2;
    assert Candidate(base, l)[n..] == Decimal(l);
    assert Fallback(base)[n] == 'f';
    if k > 1 {
      assert Candidate(base, k)[n..] == Decimal(k);
      if Decimal(k) == Decimal(l) {
        DecimalIsInjective(k, l);
      }
    }
  }

  lemma AliasesAreLonger(e: Entry, k: nat)
    ensures |Candidate(Base(e), k)| > |e.publicName| && |Fallback(Base(e))| > |e.publicName|
  {
  }

  // ----- pigeonhole -----

  function Names(tools: seq<Entry>): set<string> {
    if tools == [] then {} else Names(tools[..|tools| - 1]) + {tools[|tools| - 1].publicName}
  }

  lemma {:induction false} NamesAreTaken(tools: seq<Entry>)
    ensures |Names(tools)| <= |tools|
    ensures forall name :: Taken(tools, name) <==> name in Names(tools)
  {
    if tools != [] {
      var before := tools[..|tools| - 1];
      NamesAreTaken(before);
      forall name ensures Taken(tools, name) <==> name in Names(tools) {
        if Taken(before, name) {
          var i :| 0 <= i < |before| && before[i].publicName == name;
          assert tools[i].publicName == name;
        }
        if Taken(tools, name) && tools[|tools| - 1].publicName != name {
          var i :| 0 <= i < |tools| && tools[i].publicName == name;
          assert before[i].publicName == name;
        }
      }
    }
  }

  function Candidates(base: string, n: nat): set<string> {
    if n == 0 then {} else Candidates(base, n - 1) + {Candidate(base, n)}
  }

  lemma {:induction false} CountCandidates(base: string, n: nat)
    ensures |Candidates(base, n)| == n
    ensures Fallback(base) !in Candidates(base, n)
    ensures forall s <- Candidates(base, n) :: exists k :: 1 <= k <= n && s == Candidate(base, k)
  {
    if n > 0 {
      CountCandidates(base, n - 1);
      CandidatesDiffer(base, n, n + 1);
      forall k | 1 <= k < n ensures Candidate(base, k) != Candidate(base, n) {
        CandidatesDiffer(base, k, n);
      }
      hide Candidate, Fallback;
    }
  }

  /** When the search gives up, all candidates are taken. */
  lemma {:induction false} SearchOutcome(tools: seq<Entry>, base: string, k: nat)
    requires 1 <= k <= LAST_SUFFIX + 1
    requires forall j :: 1 <= j < k ==> Taken(tools, Candidate(base, j))
    ensures var alias := FirstFree(tools, base, k);
      || !Taken(tools, alias)
      || (alias == Fallback(base) && forall j :: 1 <= j <= LAST_SUFFIX ==> Taken(tools, Candidate(base, j)))
    decreases LAST_SUFFIX + 1 - k
  {
    hide Candidate, Fallback;
    if k <= LAST_SUFFIX && Taken(tools, Candidate(base, k)) {
      SearchOutcome(tools, base, k + 1);
    }
  }

  lemma {:induction false} CandidatesWithin(base: string, n: nat, names: set<string>)
    requires forall j :: 1 <= j <= n ==> Candidate(base, j) in names
    ensures Candidates(base, n) <= names
  {
    hide Candidate;
    if n > 0 {
      CandidatesWithin(base, n - 1, names);
    }
  }

  lemma SubsetCardinality<T>(a: set<T>, b: set<T>)
    requires a <= b
    ensures |a| <= |b|
  {
    assert b == a + (b - a);
  }

  lemma AliasesAreNotTheName(e: Entry, k: nat)
    ensures Candidate(Base(e), k) != e.publicName && Fallback(Base(e)) != e.publicName
  {
    AliasesAreLonger(e, k);
  }

  /** The name, its 999 candidates and the fallback are 1001 different names. */
  lemma CrowdIsLarge(e: Entry, names: set<string>)
    requires e.publicName in names && Fallback(Base(e)) in names
    requires forall j :: 1 <= j <= LAST_SUFFIX ==> Candidate(Base(e), j) in names
    ensures |names| >= CAPACITY
  {
    var base := Base(e);
    var c := Candidates(base, LAST_SUFFIX);
    CountCandidates(base, LAST_SUFFIX);
    CandidatesWithin(base, LAST_SUFFIX, names);
    forall k: nat ensures Candidate(base, k) != e.publicName && Fallback(base) != e.publicName {
      AliasesAreNotTheName(e, k);
    }
    hide Candidate, Fallback, Candidates, Base;
    assert e.publicName !in c;
    assert |c + {e.publicName}| == LAST_SUFFIX + 1;
    assert |c + {e.publicName} + {Fallback(base)}| == CAPACITY;
    SubsetCardinality(c + {e.publicName} + {Fallback(base)}, names);
  }

  /** An alias for a name that is taken is fresh as long as one more entry fits. */
  lemma AliasIsFresh(tools: seq<Entry>, e: Entry)
    requires Taken(tools, e.publicName) && |tools| < CAPACITY
    ensures !Taken(tools, Alias(tools, e))
  {
    SearchOutcome(tools, Base(e), 1);
    NamesAreTaken(tools);
    hide Candidate, Fallback, Names, Taken, FirstFree, Base;
    if Taken(tools, Alias(tools, e)) {
      CrowdIsLarge(e, Names(tools));
    }
  }

  // ----- names stay distinct -----

  ghost predicate DistinctNames(tools: seq<Entry>) {
    forall i, j :: 0 <= i < j < |tools| ==> tools[i].publicName != tools[j].publicName
  }

  lemma MergeOneKeepsDistinct(tools: seq<Entry>, e: Entry)
    requires DistinctNames(tools) && |tools| < CAPACITY
    ensures DistinctNames(MergeOne(tools, e)) && |MergeOne(tools, e)| == |tools| + 1
  {
    var p := Holder(tools, e.publicName);
    if p.Some? {
      AliasIsFresh(tools, e);
      AliasIsFresh(tools, tools[p.value]);
    }
    hide Alias;
  }

  /** Public names stay pairwise distinct under any merges while the catalog has at most
      1001 entries. */
  lemma {:induction false} NamesStayDistinct(tools: seq<Entry>, entries: seq<Entry>)
    requires DistinctNames(tools) && |tools| + |entries| <= CAPACITY
    ensures DistinctNames(Merge(tools, entries)) && |Merge(tools, entries)| == |tools| + |entries|
  {
    if entries != [] {
      NamesStayDistinct(tools, entries[..|entries| - 1]);
      MergeOneKeepsDistinct(Merge(tools, entries[..|entries| - 1]), entries[|entries| - 1]);
    }
  }

  // ----- the bound is sharp -----

  lemma {:induction false} FreshOffersStay(tools: seq<Entry>, entries: seq<Entry>)
    requires DistinctNames(tools + entries)
    ensures Merge(tools, entries) == tools + entries
  {
    if entries == [] {
      assert tools + entries == tools;
    } else {
      var before, e := entries[..|entries| - 1], entries[|entries| - 1];
      assert tools + entries == tools + before + [e];
      assert tools + before == (tools + entries)[..|tools + before|];
      FreshOffersStay(tools, before);
      assert !Taken(tools + before, e.publicName) by {
        forall i | 0 <= i < |tools + before| ensures (tools + before)[i].publicName != e.publicName {
          assert (tools + entries)[i] == (tools + before)[i] && (tools + entries)[|tools + entries| - 1] == e;
        }
      }
    }
  }

  /** A name, all the aliases it could get, and the fallback. */
  function Crowd(e: Entry): seq<Entry> {
    [e] + seq(LAST_SUFFIX, i requires 0 <= i < LAST_SUFFIX => e.(publicName := Candidate(Base(e), i + 1)))
    + [e.(publicName := Fallback(Base(e)))]
  }

  lemma CrowdNames(e: Entry)
    ensures |Crowd(e)| == CAPACITY && DistinctNames(Crowd(e))
    ensures Crowd(e)[0] == e && Crowd(e)[CAPACITY - 1].publicName == Fallback(Base(e))
    ensures forall k :: 1 <= k <= LAST_SUFFIX ==> Taken(Crowd(e), Candidate(Base(e), k))
  {
    var c, base := Crowd(e), Base(e);
    forall k | 1 <= k <= LAST_SUFFIX ensures Taken(c, Candidate(base, k)) && c[k].publicName == Candidate(base, k) {
      assert c[k].publicName == Candidate(base, k);
    }
    forall i, j | 0 <= i < j < |c| ensures c[i].publicName != c[j].publicName {
      AliasesAreLonger(e, j);
      if 0 < i {
        CandidatesDiffer(base, i, if j <= LAST_SUFFIX then j else i + 1);
      }
    }
  }

  lemma {:induction false} SearchGivesUp(tools: seq<Entry>, base: string, k: nat)
    requires forall j :: 1 <= j <= LAST_SUFFIX ==> Taken(tools, Candidate(base, j))
    requires 1 <= k
    ensures FirstFree(tools, base, k) == Fallback(base)
    decreases LAST_SUFFIX + 1 - k
  {
    hide Candidate, Fallback, Taken;
    if k <= LAST_SUFFIX {
      SearchGivesUp(tools, base, k + 1);
    }
  }

  /** The alias of an entry collides exactly when its 999 candidates and the fallback are all taken. */
  lemma AliasCollides(tools: seq<Entry>, e: Entry)
    ensures Taken(tools, Alias(tools, e))
       <==> && (forall k :: 1 <= k <= LAST_SUFFIX ==> Taken(tools, Candidate(Base(e), k)))
            && Taken(tools, Fallback(Base(e)))
  {
    SearchOutcome(tools, Base(e), 1);
    hide Candidate, Fallback, Taken, FirstFree, Base;
    if forall k :: 1 <= k <= LAST_SUFFIX ==> Taken(tools, Candidate(Base(e), k)) {
      SearchGivesUp(tools, Base(e), 1);
    }
  }

  /** The entry that an offer under a taken name causes to be renamed. */
  function Renamed(tools: seq<Entry>, e: Entry): Entry {
    var p := Holder(tools, e.publicName);
    if p.Some? && Precedence(tools[p.value].kind) > Precedence(e.kind) then tools[p.value] else e
  }

  /** The exact condition for one merge: names stay distinct iff the offered name is free or the
      alias of the entry to rename is. */
  lemma MergeOneCondition(tools: seq<Entry>, e: Entry)
    requires DistinctNames(tools)
    ensures DistinctNames(MergeOne(tools, e))
       <==> !Taken(tools, e.publicName) || !Taken(tools, Alias(tools, Renamed(tools, e)))
  {
    hide Alias;
    var p := Holder(tools, e.publicName);
    var alias, merged := Alias(tools, Renamed(tools, e)), MergeOne(tools, e);
    if p.Some? && Taken(tools, alias) {
      var i :| 0 <= i < |tools| && tools[i].publicName == alias;
      AliasIsNotTheName(tools, Renamed(tools, e));
      assert Renamed(tools, e).publicName == e.publicName == tools[p.value].publicName;
      if Renamed(tools, e) == e && Precedence(tools[p.value].kind) <= Precedence(e.kind) {
        assert merged[i].publicName == merged[|tools|].publicName;
      } else {
        assert merged[i].publicName == merged[p.value].publicName;
      }
    }
  }

  lemma AliasIsNotTheName(tools: seq<Entry>, e: Entry)
    ensures Alias(tools, e) != e.publicName
  {
    SearchedNameIsLonger(tools, e, 1);
  }

  lemma {:induction false} SearchedNameIsLonger(tools: seq<Entry>, e: Entry, k: nat)
    ensures |FirstFree(tools, Base(e), k)| > |e.publicName|
    decreases LAST_SUFFIX + 1 - k
  {
    AliasesAreLonger(e, k);
    hide Candidate, Fallback, Base, Taken;
    if k <= LAST_SUFFIX {
      SearchedNameIsLonger(tools, e, k + 1);
    }
  }

  /** Entries under names that are no alias of anything in the crowd, longer from one to the next. */
  function Bystanders(e: Entry, n: nat): (s: seq<Entry>)
    ensures |s| == n
  {
    if n == 0 then [] else Bystanders(e, n - 1) + [e.(publicName := Fallback(Base(e)) + Stars(n))]
  }

  function Stars(n: nat): (s: string)
    ensures |s| == n
  {
    if n == 0 then "" else Stars(n - 1) + "*"
  }

  lemma {:induction false} BystanderNames(e: Entry, n: nat, i: nat)
    requires i < n
    ensures Bystanders(e, n)[i].publicName == Fallback(Base(e)) + Stars(i + 1)
  {
    if i < n - 1 {
      BystanderNames(e, n - 1, i);
    }
  }

  /** A name longer than the fallback, starting with it, is none of the crowd's. */
  lemma StarredIsNew(e: Entry, k: nat, n: nat)
    requires n >= 1
    ensures Fallback(Base(e)) + Stars(n) != e.publicName
    ensures Fallback(Base(e)) + Stars(n) != Candidate(Base(e), k)
    ensures Fallback(Base(e)) + Stars(n) != Fallback(Base(e))
  {
    AliasesAreLonger(e, k);
    DecimalIsDigits(k);
    hide Decimal, Stars;
    var base := Base(e);
    var m := |base| + 2;
    assert (Fallback(base) + Stars(n))[m] == Fallback(base)[m] == 'f';
    if k > 1 {
      assert Candidate(base, k)[m..] == Decimal(k);
      assert Candidate(base, k)[m] == Decimal(k)[0];
    }
  }

  lemma CrowdMember(e: Entry, i: nat)
    requires i < CAPACITY
    ensures i < |Crowd(e)|
    ensures Crowd(e)[i].publicName == if i == 0 then e.publicName
                                      else if i <= LAST_SUFFIX then Candidate(Base(e), i)
                                      else Fallback(Base(e))
  {
    hide Candidate, Fallback, Base;
  }

  lemma CrowdAndBystanders(e: Entry, n: nat)
    ensures DistinctNames(Crowd(e) + Bystanders(e, n))
  {
    CrowdNames(e);
    var c, b := Crowd(e), Bystanders(e, n);
    var all: seq<Entry> := c + b;
    hide Crowd, Bystanders, Candidate, Fallback, Base, Taken, Stars;
    forall i: nat, j: nat | i < j < |all| ensures all[i].publicName != all[j].publicName {
      if j < |c| {
        assert all[i] == c[i] && all[j] == c[j];
      } else {
        assert all[j] == b[j - |c|];
        BystanderNames(e, n, j - |c|);
        if i < |c| {
          assert all[i] == c[i];
          CrowdMember(e, i);
          StarredIsNew(e, i, j - |c| + 1);
        } else {
          assert all[i] == b[i - |c|];
          BystanderNames(e, n, i - |c|);
        }
      }
    }
  }

  lemma TakenInFront(tools: seq<Entry>, more: seq<Entry>, name: string)
    requires Taken(tools, name)
    ensures Taken(tools + more, name)
  {
    var i :| 0 <= i < |tools| && tools[i].publicName == name;
    assert (tools + more)[i] == tools[i];
  }

  /** Offered again when all its aliases are taken, an entry gets the fallback, which is taken too. */
  lemma OfferedAgain(tools: seq<Entry>, e: Entry, m: nat)
    requires m < |tools| && tools[0] == e && tools[m].publicName == Fallback(Base(e))
    requires DistinctNames(tools)
    requires forall k :: 1 <= k <= LAST_SUFFIX ==> Taken(tools, Candidate(Base(e), k))
    ensures !DistinctNames(MergeOne(tools, e))
  {
    SearchGivesUp(tools, Base(e), 1);
    hide Candidate, Fallback, Base, Taken;
    HolderExists(tools, 0);
    assert Holder(tools, e.publicName).value == 0;
    var merged := MergeOne(tools, e);
    assert merged[m].publicName == merged[|tools|].publicName;
  }

  lemma MergeNext(tools: seq<Entry>, entries: seq<Entry>, e: Entry)
    ensures Merge(tools, entries + [e]) == MergeOne(Merge(tools, entries), e)
  {
    assert (entries + [e])[..|entries + [e]| - 1] == entries;
  }

  /** A name, all the aliases it could get, the fallback, `n` bystanders, and the name again. */
  lemma CrowdCollides(e: Entry, n: nat)
    ensures var offers := Crowd(e) + Bystanders(e, n) + [e];
      |offers| == CAPACITY + 1 + n && !DistinctNames(Merge([], offers))
  {
    hide Crowd, Bystanders, Candidate, Fallback, Base, Taken, DistinctNames, Merge, MergeOne;
    var crowd := Crowd(e) + Bystanders(e, n);
    CrowdNames(e);
    CrowdAndBystanders(e, n);
    assert [] + crowd == crowd;
    FreshOffersStay([], crowd);
    forall k | 1 <= k <= LAST_SUFFIX ensures Taken(crowd, Candidate(Base(e), k)) {
      TakenInFront(Crowd(e), Bystanders(e, n), Candidate(Base(e), k));
    }
    assert crowd[0] == e && crowd[CAPACITY - 1] == Crowd(e)[CAPACITY - 1];
    OfferedAgain(crowd, e, CAPACITY - 1);
    MergeNext([], crowd, e);
  }

  /** The bound is sharp: all catalogs merged from `n` offers have distinct names iff `n` is at most 1001. */
  lemma BoundIsSharp(n: nat)
    ensures (forall offers: seq<Entry> :: |offers| == n ==> DistinctNames(Merge([], offers))) <==> n <= CAPACITY
  {
    hide DistinctNames, Merge;
    if n <= CAPACITY {
      forall offers: seq<Entry> | |offers| == n ensures DistinctNames(Merge([], offers)) {
        NothingIsDistinct();
        NamesStayDistinct([], offers);
      }
    } else {
      var e := Entry("", "", Native, "");
      CrowdCollides(e, n - CAPACITY - 1);
    }
  }

  lemma NothingIsDistinct()
    ensures DistinctNames([])
  {
  }

  lemma HolderExists(tools: seq<Entry>, i: nat)
    requires i < |tools|
    ensures Holder(tools, tools[i].publicName).Some?
  {
    assert Taken(tools, tools[i].publicName);
  }

  // ----- merging only renames -----

  function Nameless(e: Entry): Entry {
    e.(publicName := "")
  }

  ghost predicate SameButNames(a: seq<Entry>, b: seq<Entry>) {
    |a| == |b| && forall i :: 0 <= i < |a| ==> Nameless(a[i]) == Nameless(b[i])
  }

  function ToolIds(tools: seq<Entry>): multiset<string> {
    if tools == [] then multiset{} else ToolIds(tools[..|tools| - 1]) + multiset{tools[|tools| - 1].toolId}
  }

  lemma {:induction false} SameIds(a: seq<Entry>, b: seq<Entry>)
    requires SameButNames(a, b)
    ensures ToolIds(a) == ToolIds(b)
  {
    if a != [] {
      var n := |a| - 1;
      assert Nameless(a[n]) == Nameless(b[n]);
      SameIds(a[..n], b[..n]);
    }
  }

  lemma {:induction false} MergeRenames(tools: seq<Entry>, entries: seq<Entry>)
    ensures SameButNames(Merge(tools, entries), tools + entries)
  {
    if entries == [] {
      assert tools + entries == tools;
    } else {
      var before, e := entries[..|entries| - 1], entries[|entries| - 1];
      MergeRenames(tools, before);
      assert tools + entries == (tools + before) + [e];
      hide Alias;
    }
  }

  /** Merging keeps every offer, in order, and changes nothing but public names. */
  lemma MergeConserves(tools: seq<Entry>, entries: seq<Entry>)
    ensures SameButNames(Merge(tools, entries), tools + entries)
    ensures ToolIds(Merge(tools, entries)) == ToolIds(tools + entries)
  {
    MergeRenames(tools, entries);
    SameIds(Merge(tools, entries), tools + entries);
  }

  // ----- precedence -----

  ghost predicate HeldBy(tools: seq<Entry>, name: string, precedence: nat) {
    exists i :: 0 <= i < |tools| && tools[i].publicName == name && Precedence(tools[i].kind) <= precedence
  }

  lemma MergeOneKeepsHolders(tools: seq<Entry>, e: Entry, name: string, precedence: nat)
    requires HeldBy(tools, name, precedence)
    ensures HeldBy(MergeOne(tools, e), name, precedence)
  {
    hide Alias, Precedence;
    var i :| 0 <= i < |tools| && tools[i].publicName == name && Precedence(tools[i].kind) <= precedence;
    var merged, p := MergeOne(tools, e), Holder(tools, e.publicName);
    if p.Some? && p.value == i && Precedence(tools[i].kind) > Precedence(e.kind) {
      assert merged[|tools|] == e;
    } else {
      assert merged[i] == tools[i];
    }
  }

  lemma MergeOneServes(tools: seq<Entry>, e: Entry)
    ensures HeldBy(MergeOne(tools, e), e.publicName, Precedence(e.kind))
  {
    hide Alias, Precedence;
    var merged, p := MergeOne(tools, e), Holder(tools, e.publicName);
    if p.Some? && Precedence(tools[p.value].kind) <= Precedence(e.kind) {
      assert merged[p.value] == tools[p.value];
    } else {
      assert merged[|tools|] == e;
    }
  }

  /** Every name ever offered stays held by an entry at least as strong as every offer made
      under it, whatever the order of offers and displacements. */
  lemma {:induction false} StrongestOfferHolds(tools: seq<Entry>, entries: seq<Entry>)
    ensures forall i :: 0 <= i < |entries| ==>
      HeldBy(Merge(tools, entries), entries[i].publicName, Precedence(entries[i].kind))
  {
    if entries != [] {
      var n := |entries| - 1;
      var before := Merge(tools, entries[..n]);
      StrongestOfferHolds(tools, entries[..n]);
      hide HeldBy, MergeOne;
      forall i | 0 <= i < |entries|
        ensures HeldBy(Merge(tools, entries), entries[i].publicName, Precedence(entries[i].kind))
      {
        if i < n {
          assert entries[..n][i] == entries[i];
          MergeOneKeepsHolders(before, entries[n], entries[i].publicName, Precedence(entries[i].kind));
        } else {
          MergeOneServes(before, entries[n]);
        }
      }
    }
  }

  /** While names are distinct, the holder is unique, so it beats or equals all offers at once. */
  lemma TheHolderBeatsAllOffers(entries: seq<Entry>, h: nat)
    requires |entries| <= CAPACITY && h < |Merge([], entries)|
    ensures var holder := Merge([], entries)[h];
      forall i :: 0 <= i < |entries| && entries[i].publicName == holder.publicName ==>
        Precedence(holder.kind) <= Precedence(entries[i].kind)
  {
    NamesStayDistinct([], entries);
    StrongestOfferHolds([], entries);
    hide Merge, Precedence;
    var tools := Merge([], entries);
    forall i | 0 <= i < |entries| && entries[i].publicName == tools[h].publicName
      ensures Precedence(tools[h].kind) <= Precedence(entries[i].kind)
    {
      assert HeldBy(tools, entries[i].publicName, Precedence(entries[i].kind));
      var k :| 0 <= k < |tools| && tools[k].publicName == entries[i].publicName
               && Precedence(tools[k].kind) <= Precedence(entries[i].kind);
      assert k == h;
    }
  }

  /** The kinds from the strongest to the weakest, and the words they put in front of an alias. */
  const STRENGTH: seq<ProviderKind> := [Native, WasmSkill, Mcp, ExternalCompat, Remote]

  const WORDS: seq<string> := ["native", "wasmskill", "mcp", "externalcompat", "remote"]

  /** Position `h` is the first one with the name. */
  ghost predicate HeldAt(tools: seq<Entry>, name: string, h: nat) {
    h < |tools| && tools[h].publicName == name && forall k :: 0 <= k < h ==> tools[k].publicName != name
  }

  lemma {:induction false} HolderIsFirst(tools: seq<Entry>, name: string, h: nat)
    requires HeldAt(tools, name, h)
    ensures Holder(tools, name) == Some(h)
  {
    if h > 0 {
      assert tools[0].publicName != name;
      HolderIsFirst(tools[1..], name, h - 1);
    }
  }

  /** An offer takes the name from a holder of a weaker kind, which is renamed; otherwise the holder
      keeps it and the offer is renamed. Nothing else changes. */
  lemma StrongerTakesTheName(tools: seq<Entry>, e: Entry, h: nat, i: nat, j: nat)
    requires HeldAt(tools, e.publicName, h) && i < |STRENGTH| && j < |STRENGTH|
    requires tools[h].kind == STRENGTH[i] && e.kind == STRENGTH[j]
    ensures var merged := MergeOne(tools, e);
      && |merged| == |tools| + 1
      && (forall k :: 0 <= k < |tools| && k != h ==> merged[k] == tools[k])
      && if j < i then merged[|tools|] == e && merged[h].publicName != e.publicName
         else merged[h] == tools[h] && merged[|tools|].publicName != e.publicName
  {
    HolderIsFirst(tools, e.publicName, h);
    AliasIsNotTheName(tools, e);
    AliasIsNotTheName(tools, tools[h]);
    assert Precedence(STRENGTH[i]) == i && Precedence(STRENGTH[j]) == j;
    hide Alias, Precedence;
  }

  /** The number that digits spell. */
  function Read(digits: string): int {
    if digits == "" then 0 else 10 * Read(digits[..|digits| - 1]) + (digits[|digits| - 1] as int - '0' as int)
  }

  lemma {:induction false} DecimalReads(n: nat)
    ensures Read(Decimal(n)) == n
    ensures forall i :: 0 <= i < |Decimal(n)| ==> '0' <= Decimal(n)[i] <= '9'
    ensures n > 0 ==> Decimal(n)[0] != '0'
  {
    if n >= 10 {
      DecimalReads(n / 10);
      DecimalIsDigits(n / 10);
      assert Decimal(n)[..|Decimal(n)| - 1] == Decimal(n / 10);
    } else {
      assert Decimal(n)[..0] == "";
    }
  }

  /** The k-th alias spelled out: the kind's word, two bars and the name; from the second on, two more
      bars and the number. */
  ghost predicate Spells(alias: string, word: string, name: string, k: nat) {
    if k == 1 then alias == word + "__" + name
    else
      exists digits: string :: alias == word + "__" + name + "__" + digits && Read(digits) == k
        && digits != "" && digits[0] != '0' && forall i :: 0 <= i < |digits| ==> '0' <= digits[i] <= '9'
  }

  lemma CandidateIsSpelled(e: Entry, i: nat, k: nat)
    requires i < |STRENGTH| && e.kind == STRENGTH[i] && k >= 1
    ensures Spells(Candidate(Base(e), k), WORDS[i], e.publicName, k)
  {
    assert KindName(STRENGTH[i]) == WORDS[i];
    hide Decimal, Read;
    if k > 1 {
      DecimalReads(k);
      DecimalIsDigits(k);
      assert Candidate(Base(e), k) == WORDS[i] + "__" + e.publicName + "__" + Decimal(k);
    }
  }

  lemma {:induction false} FirstFreeIsFirst(tools: seq<Entry>, base: string, k: nat, n: nat)
    requires k <= n <= LAST_SUFFIX && !Taken(tools, Candidate(base, n))
    requires forall j: nat :: k <= j < n ==> Taken(tools, Candidate(base, j))
    ensures FirstFree(tools, base, k) == Candidate(base, n)
    decreases n - k
  {
    hide Candidate, Fallback, Taken;
    if k < n {
      FirstFreeIsFirst(tools, base, k + 1, n);
    }
  }

  /** The alias given is the first of the 999 that is free, and the fallback when none is. */
  lemma AliasIsTheFirstFree(tools: seq<Entry>, e: Entry, n: nat)
    requires 1 <= n <= LAST_SUFFIX + 1
    requires forall k: nat :: 1 <= k < n ==> Taken(tools, Candidate(Base(e), k))
    requires n <= LAST_SUFFIX ==> !Taken(tools, Candidate(Base(e), n))
    ensures Alias(tools, e) == if n <= LAST_SUFFIX then Candidate(Base(e), n) else Base(e) + "__fallback"
  {
    hide Candidate, Taken, FirstFree, Base;
    if n <= LAST_SUFFIX {
      FirstFreeIsFirst(tools, Base(e), 1, n);
    } else {
      SearchGivesUp(tools, Base(e), 1);
    }
  }
}
