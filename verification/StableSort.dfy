/** Stable sorting by a comparison, as the standard library's `sort_by` does it. */
module StableSort {
  import opened Common

  /** `less(a, b)` says that the comparison puts `a` strictly before `b`. */
  ghost predicate StrictWeakOrder<T(!new)>(less: (T, T) -> bool) {
    && (forall a, b :: less(a, b) ==> !less(b, a))
    && (forall a, b, c :: less(a, c) ==> less(a, b) || less(b, c))
  }

  function Insert<T>(less: (T, T) -> bool, x: T, s: seq<T>): seq<T> {
    if s == [] || !less(s[0], x) then [x] + s else [s[0]] + Insert(less, x, s[1..])
  }

  function Sort<T>(less: (T, T) -> bool, s: seq<T>): seq<T> {
    if s == [] then [] else Insert(less, s[0], Sort(less, s[1..]))
  }

  function Filter<T>(p: T -> bool, s: seq<T>): seq<T> {
    if s == [] then []
    else if p(s[0]) then [s[0]] + Filter(p, s[1..])
    else Filter(p, s[1..])
  }

  function Map<T, U>(f: T -> U, s: seq<T>): (r: seq<U>)
    ensures |r| == |s| && forall i :: 0 <= i < |s| ==> r[i] == f(s[i])
  {
    if s == [] then [] else [f(s[0])] + Map(f, s[1..])
  }

  ghost predicate Sorted<T>(less: (T, T) -> bool, s: seq<T>) {
    forall i, j :: 0 <= i < j < |s| ==> !less(s[j], s[i])
  }

  // ----- what makes it a stable sort -----

  lemma {:induction false} InsertKeepsElements<T>(less: (T, T) -> bool, x: T, s: seq<T>)
    ensures multiset(Insert(less, x, s)) == multiset([x] + s)
  {
    if s != [] && less(s[0], x) {
      InsertKeepsElements(less, x, s[1..]);
      assert s == [s[0]] + s[1..];
    }
  }

  lemma InsertMembers<T>(less: (T, T) -> bool, x: T, s: seq<T>)
    ensures forall y <- Insert(less, x, s) :: y == x || y in s
  {
    InsertKeepsElements(less, x, s);
    hide Insert;
    forall y | y in Insert(less, x, s) ensures y == x || y in s {
      assert y in multiset(Insert(less, x, s));
      assert y in multiset([x] + s);
    }
  }

  lemma {:induction false} InsertKeepsSorted<T(!new)>(less: (T, T) -> bool, x: T, s: seq<T>)
    requires StrictWeakOrder(less) && Sorted(less, s)
    ensures Sorted(less, Insert(less, x, s))
  {
    if s == [] {
    } else if !less(s[0], x) {
      forall j | 0 <= j < |s| ensures !less(s[j], x) {
        if j > 0 {
          assert !less(s[j], s[0]);
        }
      }
    } else {
      var tail := Insert(less, x, s[1..]);
      InsertKeepsSorted(less, x, s[1..]);
      InsertMembers(less, x, s[1..]);
      assert Insert(less, x, s) == [s[0]] + tail;
      hide Insert;
      forall j | 0 <= j < |tail| ensures !less(tail[j], s[0]) {
        if tail[j] != x {
          assert tail[j] in s[1..];
          var k :| 1 <= k < |s| && s[k] == tail[j];
        }
      }
    }
  }

  /** The result is sorted and has the elements of the input. */
  lemma {:induction false} SortSorts<T(!new)>(less: (T, T) -> bool, s: seq<T>)
    requires StrictWeakOrder(less)
    ensures Sorted(less, Sort(less, s)) && multiset(Sort(less, s)) == multiset(s)
    ensures |Sort(less, s)| == |s|
  {
    if s != [] {
      SortSorts(less, s[1..]);
      InsertKeepsSorted(less, s[0], Sort(less, s[1..]));
      InsertKeepsElements(less, s[0], Sort(less, s[1..]));
      assert s == [s[0]] + s[1..];
      assert |Sort(less, s)| == |multiset(Sort(less, s))|;
    }
  }

  /** The first `n` of the sorted sequence, and what they leave out. */
  lemma TopOfSorted<T(!new)>(less: (T, T) -> bool, s: seq<T>, n: nat) returns (rest: seq<T>)
    requires StrictWeakOrder(less)
    ensures var top := Take(Sort(less, s), n);
      && |top| == Min(n, |s|)
      && multiset(top) + multiset(rest) == multiset(s)
      && Sorted(less, top + rest)
      && forall x <- top + rest :: x in s
  {
    SortSorts(less, s);
    hide Sort, StrictWeakOrder;
    var sorted, top := Sort(less, s), Take(Sort(less, s), n);
    rest := sorted[|top|..];
    assert top + rest == sorted;
    assert multiset(top + rest) == multiset(top) + multiset(rest);
    forall x | x in sorted ensures x in s {
      assert x in multiset(sorted);
    }
  }

  lemma {:induction false} FilterInsert<T(!new)>(less: (T, T) -> bool, p: T -> bool, x: T, s: seq<T>)
    requires StrictWeakOrder(less) && Sorted(less, s)
    ensures Filter(p, Insert(less, x, s)) == if p(x) then Insert(less, x, Filter(p, s)) else Filter(p, s)
  {
    if s == [] || !less(s[0], x) {
      assert ([x] + s)[1..] == s;
      FilterMembers(p, s);
      var kept := Filter(p, s);
      if p(x) && kept != [] {
        assert kept[0] in kept;
        var k :| 0 <= k < |s| && s[k] == kept[0];
        assert k > 0 ==> !less(s[k], s[0]);
      }
    } else {
      var rest := Insert(less, x, s[1..]);
      assert ([s[0]] + rest)[1..] == rest;
      FilterInsert(less, p, x, s[1..]);
      var kept := Filter(p, s[1..]);
      assert p(s[0]) ==> ([s[0]] + kept)[1..] == kept;
    }
  }

  lemma {:induction false} FilterMembers<T>(p: T -> bool, s: seq<T>)
    ensures forall x <- Filter(p, s) :: x in s && p(x)
  {
    if s != [] {
      FilterMembers(p, s[1..]);
    }
  }

  /** Sorting commutes with filtering. For a class of equal elements this is stability. */
  lemma {:induction false} SortFilter<T(!new)>(less: (T, T) -> bool, p: T -> bool, s: seq<T>)
    requires StrictWeakOrder(less)
    ensures Filter(p, Sort(less, s)) == Sort(less, Filter(p, s))
  {
    if s != [] {
      SortFilter(less, p, s[1..]);
      SortSorts(less, s[1..]);
      FilterInsert(less, p, s[0], Sort(less, s[1..]));
      assert p(s[0]) ==> ([s[0]] + Filter(p, s[1..]))[1..] == Filter(p, s[1..]);
    }
  }

  lemma {:induction false} InsertMap<T(!new), U>(lessT: (T, T) -> bool, lessU: (U, U) -> bool, f: T -> U,
                                                 x: T, s: seq<T>)
    requires forall a, b :: lessT(a, b) <==> lessU(f(a), f(b))
    ensures Map(f, Insert(lessT, x, s)) == Insert(lessU, f(x), Map(f, s))
  {
    if s == [] || !lessT(s[0], x) {
      assert ([x] + s)[1..] == s;
    } else {
      InsertMap(lessT, lessU, f, x, s[1..]);
      var rest := Insert(lessT, x, s[1..]);
      assert ([s[0]] + rest)[1..] == rest;
      assert Map(f, s)[1..] == Map(f, s[1..]);
    }
  }

  /** Sorting commutes with a map that preserves the order. */
  lemma {:induction false} SortMap<T(!new), U>(lessT: (T, T) -> bool, lessU: (U, U) -> bool, f: T -> U, s: seq<T>)
    requires forall a, b :: lessT(a, b) <==> lessU(f(a), f(b))
    ensures Map(f, Sort(lessT, s)) == Sort(lessU, Map(f, s))
  {
    if s != [] {
      SortMap(lessT, lessU, f, s[1..]);
      InsertMap(lessT, lessU, f, s[0], Sort(lessT, s[1..]));
      assert Map(f, s)[1..] == Map(f, s[1..]);
    }
  }

  ghost predicate ComeFirst<T>(p: T -> bool, s: seq<T>) {
    forall i, j :: 0 <= i < j < |s| && p(s[j]) ==> p(s[i])
  }

  /** Filtering a prefix, when everything that passes the filter comes first. */
  lemma {:induction false} FilterTake<T>(p: T -> bool, s: seq<T>, n: nat)
    requires ComeFirst(p, s)
    ensures Filter(p, Take(s, n)) == Take(Filter(p, s), n)
  {
    if s != [] && n > 0 {
      FilterTake(p, s[1..], n - 1);
      assert Take(s, n)[1..] == Take(s[1..], n - 1);
      if !p(s[0]) {
        FilterNone(p, s);
        FilterNone(p, Take(s, n));
      }
    } else {
      assert Take(s, n) == [];
    }
  }

  lemma {:induction false} FilterNone<T>(p: T -> bool, s: seq<T>)
    requires forall i :: 0 <= i < |s| ==> !p(s[i])
    ensures Filter(p, s) == []
  {
    if s != [] {
      FilterNone(p, s[1..]);
    }
  }
}
