/** Strings: order, splitting and joining, and the words of a text. */
module Text {
  import opened Common

  // ----- lexicographic order -----

  predicate StringLess(a: string, b: string) {
    b != [] && (a == [] || a[0] < b[0] || (a[0] == b[0] && StringLess(a[1..], b[1..])))
  }

  lemma {:induction false} StringLessAsymmetric(a: string, b: string)
    ensures StringLess(a, b) ==> !StringLess(b, a)
  {
    if a != [] && b != [] {
      StringLessAsymmetric(a[1..], b[1..]);
    }
  }

  lemma {:induction false} StringLessNegativelyTransitive(a: string, b: string, c: string)
    requires StringLess(a, c)
    ensures StringLess(a, b) || StringLess(b, c)
  {
    if a != [] && b != [] && c != [] {
      if a[0] == b[0] == c[0] {
        StringLessNegativelyTransitive(a[1..], b[1..], c[1..]);
      }
    }
  }

  lemma {:induction false} StringLessTotal(a: string, b: string)
    ensures StringLess(a, b) || a == b || StringLess(b, a)
  {
    if a != [] && b != [] && a[0] == b[0] {
      StringLessTotal(a[1..], b[1..]);
      assert a == [a[0]] + a[1..] && b == [b[0]] + b[1..];
    }
  }

  /** The first difference decides; a proper prefix comes first. */
  ghost predicate FirstDifference(a: string, b: string, k: nat) {
    k <= |a| && k < |b| && a[..k] == b[..k] && (k == |a| || a[k] < b[k])
  }

  lemma {:induction false} StringLessHasDifference(a: string, b: string) returns (k: nat)
    requires StringLess(a, b)
    ensures FirstDifference(a, b, k)
  {
    if a == [] || a[0] < b[0] {
      k := 0;
    } else {
      var k' := StringLessHasDifference(a[1..], b[1..]);
      k := k' + 1;
      assert a[..k] == [a[0]] + a[1..][..k'] && b[..k] == [b[0]] + b[1..][..k'];
    }
  }

  lemma {:induction false} DifferenceMeansLess(a: string, b: string, k: nat)
    requires FirstDifference(a, b, k)
    ensures StringLess(a, b)
    decreases k
  {
    if k > 0 {
      assert a[..k][0] == a[0] && b[..k][0] == b[0];
      assert a[1..][..k - 1] == a[..k][1..] && b[1..][..k - 1] == b[..k][1..];
      DifferenceMeansLess(a[1..], b[1..], k - 1);
    }
  }

  lemma StringLessMeans(a: string, b: string)
    ensures StringLess(a, b) <==> exists k: nat :: FirstDifference(a, b, k)
  {
    if StringLess(a, b) {
      var k := StringLessHasDifference(a, b);
    } else if k: nat :| FirstDifference(a, b, k) {
      DifferenceMeansLess(a, b, k);
    }
  }

  // ----- splitting and joining -----

  /** All pieces between occurrences of `c`; one piece when there are none. */
  function Split(s: string, c: char): (r: seq<string>)
    ensures r != []
  {
    if s == [] then [[]]
    else
      var rest := Split(s[1..], c);
      if s[0] == c then [[]] + rest else [[s[0]] + rest[0]] + rest[1..]
  }

  /** The parts before and after the first `c`. */
  function SplitOnce(s: string, c: char): Option<(string, string)> {
    if s == [] then None
    else if s[0] == c then Some(([], s[1..]))
    else
      match SplitOnce(s[1..], c)
      case None => None
      case Some((before, after)) => Some(([s[0]] + before, after))
  }

  function Join(pieces: seq<string>, c: char): string {
    if pieces == [] then []
    else if |pieces| == 1 then pieces[0]
    else pieces[0] + [c] + Join(pieces[1..], c)
  }

  ghost predicate Lacks(s: string, c: char) {
    forall i :: 0 <= i < |s| ==> s[i] != c
  }

  lemma {:induction false} SplitFirst(a: string, c: char, b: string)
    requires Lacks(a, c)
    ensures Split(a + [c] + b, c) == [a] + Split(b, c)
  {
    if a != [] {
      SplitFirst(a[1..], c, b);
      assert (a + [c] + b)[1..] == a[1..] + [c] + b;
      assert [a[0]] + a[1..] == a;
    } else {
      assert (a + [c] + b)[1..] == b;
    }
  }

  lemma {:induction false} SplitOnly(a: string, c: char)
    requires Lacks(a, c)
    ensures Split(a, c) == [a]
  {
    if a != [] {
      SplitOnly(a[1..], c);
      assert [a[0]] + a[1..] == a;
    }
  }

  lemma {:induction false} SplitOnceFirst(a: string, c: char, b: string)
    requires Lacks(a, c)
    ensures SplitOnce(a + [c] + b, c) == Some((a, b))
  {
    if a != [] {
      SplitOnceFirst(a[1..], c, b);
      assert (a + [c] + b)[1..] == a[1..] + [c] + b;
      assert [a[0]] + a[1..] == a;
    } else {
      assert (a + [c] + b)[1..] == b;
    }
  }

  /** Splitting undoes joining. */
  lemma {:induction false} SplitJoin(pieces: seq<string>, c: char)
    requires pieces != [] && forall p <- pieces :: Lacks(p, c)
    ensures Split(Join(pieces, c), c) == pieces
  {
    if |pieces| == 1 {
      SplitOnly(pieces[0], c);
    } else {
      SplitJoin(pieces[1..], c);
      SplitFirst(pieces[0], c, Join(pieces[1..], c));
    }
  }

  lemma {:induction false} JoinLacks(pieces: seq<string>, c: char, d: char)
    requires c != d && forall p <- pieces :: Lacks(p, d)
    ensures Lacks(Join(pieces, c), d)
  {
    assert pieces != [] ==> Lacks(pieces[0], d);
    if |pieces| > 1 {
      JoinLacks(pieces[1..], c, d);
    }
  }

  // ----- words -----

  /** Letters and digits that survive normalisation. */
  predicate IsWordChar(c: char) {
    'a' <= c <= 'z' || '0' <= c <= '9'
  }

  /** The maximal runs of word characters. */
  function Words(s: string): (ws: seq<string>)
    ensures s != [] && IsWordChar(s[0]) ==> ws != [] && ws[0] != [] && ws[0][0] == s[0]
  {
    if s == [] then []
    else if !IsWordChar(s[0]) then Words(s[1..])
    else if |s| == 1 || !IsWordChar(s[1]) then [[s[0]]] + Words(s[1..])
    else
      var ws := Words(s[1..]);
      [[s[0]] + ws[0]] + ws[1..]
  }

  ghost predicate IsWord(w: string) {
    w != [] && forall i :: 0 <= i < |w| ==> IsWordChar(w[i])
  }

  ghost predicate AllWords(ws: seq<string>) {
    forall i :: 0 <= i < |ws| ==> IsWord(ws[i])
  }

  lemma {:induction false} WordsAreWords(s: string)
    ensures AllWords(Words(s))
  {
    if s != [] {
      WordsAreWords(s[1..]);
      var ws := Words(s[1..]);
      if IsWordChar(s[0]) && |s| > 1 && IsWordChar(s[1]) {
        assert IsWord(ws[0]);
      }
    }
  }

  lemma {:induction false} WordsOfWord(w: string, rest: string)
    requires IsWord(w) && (rest == [] || !IsWordChar(rest[0]))
    ensures Words(w + rest) == [w] + Words(rest)
  {
    assert (w + rest)[1..] == w[1..] + rest;
    if |w| > 1 {
      WordsOfWord(w[1..], rest);
      assert (w + rest)[1] == w[1];
      assert [w[0]] + w[1..] == w;
    } else {
      assert w[1..] + rest == rest && w == [w[0]];
    }
  }

  /** Joined by any separator that is no word character, words can be read back. */
  lemma {:induction false} WordsOfJoin(ws: seq<string>, c: char)
    requires AllWords(ws) && !IsWordChar(c)
    ensures Words(Join(ws, c)) == ws
  {
    if |ws| == 1 {
      WordsOfWord(ws[0], []);
      assert ws[0] + [] == ws[0];
    } else if |ws| > 1 {
      WordsOfJoin(ws[1..], c);
      var rest := [c] + Join(ws[1..], c);
      WordsOfWord(ws[0], rest);
      assert rest[1..] == Join(ws[1..], c);
      assert ws[0] + [c] + Join(ws[1..], c) == ws[0] + rest;
    }
  }

  // ----- sorted sets of strings -----

  ghost predicate StrictlyIncreasing(s: seq<string>) {
    forall i, j :: 0 <= i < j < |s| ==> StringLess(s[i], s[j])
  }

  function InsertDistinct(x: string, s: seq<string>): seq<string> {
    if s == [] then [x]
    else if x == s[0] then s
    else if StringLess(x, s[0]) then [x] + s
    else [s[0]] + InsertDistinct(x, s[1..])
  }

  /** The distinct strings of `s` in increasing order. */
  function SortedSet(s: seq<string>): seq<string> {
    if s == [] then [] else InsertDistinct(s[0], SortedSet(s[1..]))
  }

  lemma StringLessTransitive(a: string, b: string, c: string)
    requires StringLess(a, b) && StringLess(b, c)
    ensures StringLess(a, c)
  {
    StringLessNegativelyTransitive(a, c, b);
    StringLessAsymmetric(b, c);
  }

  lemma {:induction false} InsertDistinctSorts(x: string, s: seq<string>)
    requires StrictlyIncreasing(s)
    ensures StrictlyIncreasing(InsertDistinct(x, s))
    ensures forall y :: y in InsertDistinct(x, s) <==> y == x || y in s
  {
    if s != [] && x != s[0] {
      if StringLess(x, s[0]) {
        forall j | 0 <= j < |s| ensures StringLess(x, s[j]) {
          if j > 0 {
            StringLessTransitive(x, s[0], s[j]);
          }
        }
      } else {
        var rest := InsertDistinct(x, s[1..]);
        InsertDistinctSorts(x, s[1..]);
        StringLessTotal(x, s[0]);
        forall j | 0 <= j < |rest| ensures StringLess(s[0], rest[j]) {
          assert rest[j] in rest;
        }
      }
    }
  }

  lemma {:induction false} SortedSetSorts(s: seq<string>)
    ensures StrictlyIncreasing(SortedSet(s))
    ensures forall y :: y in SortedSet(s) <==> y in s
  {
    if s != [] {
      SortedSetSorts(s[1..]);
      InsertDistinctSorts(s[0], SortedSet(s[1..]));
    }
  }

  /** A set of strings has one increasing listing. */
  lemma {:induction false} ListingIsUnique(a: seq<string>, b: seq<string>)
    requires StrictlyIncreasing(a) && StrictlyIncreasing(b)
    requires forall y :: y in a <==> y in b
    ensures a == b
  {
    assert (b != [] ==> b[0] in b) && (a != [] ==> a[0] in a);
    if a != [] && b != [] {
      SmallestFirst(a, b);
      assert forall y :: y in a[1..] ==> y in a && y != a[0] by { HeadNotInTail(a); }
      assert forall y :: y in b[1..] ==> y in b && y != b[0] by { HeadNotInTail(b); }
      ListingIsUnique(a[1..], b[1..]);
    }
  }

  lemma HeadNotInTail(a: seq<string>)
    requires a != [] && StrictlyIncreasing(a)
    ensures forall y :: y in a[1..] ==> y in a && y != a[0]
  {
    forall i | 1 <= i < |a| ensures a[i] != a[0] {
      StringLessAsymmetric(a[0], a[i]);
    }
  }

  lemma SmallestFirst(a: seq<string>, b: seq<string>)
    requires a != [] && b != [] && StrictlyIncreasing(a) && StrictlyIncreasing(b)
    requires a[0] in b && b[0] in a
    ensures a[0] == b[0]
  {
    var i :| 0 <= i < |b| && b[i] == a[0];
    var j :| 0 <= j < |a| && a[j] == b[0];
    if i > 0 && j > 0 {
      StringLessAsymmetric(a[0], b[0]);
    }
  }
}
