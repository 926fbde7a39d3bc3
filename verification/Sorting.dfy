// Stable sorting by a total preorder, the specification of the library's
// sort_by and sort_by_key, and what callers need to know about it.
module Sorting {

  ghost predicate TotalPreorder<T(!new)>(leq: (T, T) -> bool) {
    && (forall x, y :: leq(x, y) || leq(y, x))
    && (forall x, y, z :: leq(x, y) && leq(y, z) ==> leq(x, z))
  }

  ghost predicate SortedBy<T>(s: seq<T>, leq: (T, T) -> bool) {
    forall i, j :: 0 <= i < j < |s| ==> leq(s[i], s[j])
  }

  /** Inserts after every element that is not greater, which keeps the sort stable. */
  function Insert<T>(s: seq<T>, x: T, leq: (T, T) -> bool): (r: seq<T>)
    ensures multiset(r) == multiset(s) + multiset{x}
    ensures |r| == |s| + 1
  {
    if s == [] then [x]
    else if leq(s[|s| - 1], x) then s + [x]
    else
      assert s == s[..|s| - 1] + [s[|s| - 1]];
      Insert(s[..|s| - 1], x, leq) + [s[|s| - 1]]
  }

  function Sort<T>(s: seq<T>, leq: (T, T) -> bool): (r: seq<T>)
    ensures multiset(r) == multiset(s)
    ensures |r| == |s|
  {
    if s == [] then []
    else
      assert s == s[..|s| - 1] + [s[|s| - 1]];
      Insert(Sort(s[..|s| - 1], leq), s[|s| - 1], leq)
  }

  lemma {:induction false} InsertSorted<T(!new)>(s: seq<T>, x: T, leq: (T, T) -> bool)
    requires TotalPreorder(leq) && SortedBy(s, leq)
    ensures SortedBy(Insert(s, x, leq), leq)
  {
    if s != [] && !leq(s[|s| - 1], x) {
      var front, last := s[..|s| - 1], s[|s| - 1];
      InsertSorted(front, x, leq);
      var r := Insert(front, x, leq);
      forall i | 0 <= i < |r| ensures leq(r[i], last) {
        assert r[i] in multiset(r);
        if r[i] != x {
          assert r[i] in multiset(front);
          var k :| 0 <= k < |front| && front[k] == r[i];
          assert leq(s[k], s[|s| - 1]);
        }
      }
    } else if s != [] {
      forall i | 0 <= i < |s| ensures leq(s[i], x) {
        assert i == |s| - 1 || leq(s[i], s[|s| - 1]);
      }
    }
  }

  lemma {:induction false} SortSorted<T(!new)>(s: seq<T>, leq: (T, T) -> bool)
    requires TotalPreorder(leq)
    ensures SortedBy(Sort(s, leq), leq)
  {
    if s != [] {
      SortSorted(s[..|s| - 1], leq);
      InsertSorted(Sort(s[..|s| - 1], leq), s[|s| - 1], leq);
    }
  }

  /** A sort leaves an already sorted sequence as it is. */
  lemma {:induction false} SortOfSorted<T(!new)>(s: seq<T>, leq: (T, T) -> bool)
    requires SortedBy(s, leq)
    ensures Sort(s, leq) == s
  {
    if s != [] {
      SortOfSorted(s[..|s| - 1], leq);
      assert s == s[..|s| - 1] + [s[|s| - 1]];
    }
  }

  function Map<A, B>(s: seq<A>, f: A -> B): (r: seq<B>)
    ensures |r| == |s|
    ensures forall i :: 0 <= i < |s| ==> r[i] == f(s[i])
  {
    seq(|s|, i requires 0 <= i < |s| => f(s[i]))
  }

  lemma {:induction false} InsertMap<A(!new), B>(s: seq<A>, x: A, f: A -> B, leqA: (A, A) -> bool, leqB: (B, B) -> bool)
    requires forall x, y :: leqB(f(x), f(y)) == leqA(x, y)
    ensures Insert(Map(s, f), f(x), leqB) == Map(Insert(s, x, leqA), f)
  {
    if s != [] {
      assert Map(s, f)[..|s| - 1] == Map(s[..|s| - 1], f);
      InsertMap(s[..|s| - 1], x, f, leqA, leqB);
    }
  }

  /** Sorting commutes with a change of the elements that the order does not see. */
  lemma {:induction false} SortMap<A(!new), B>(s: seq<A>, f: A -> B, leqA: (A, A) -> bool, leqB: (B, B) -> bool)
    requires forall x, y :: leqB(f(x), f(y)) == leqA(x, y)
    ensures Sort(Map(s, f), leqB) == Map(Sort(s, leqA), f)
  {
    if s != [] {
      assert Map(s, f)[..|s| - 1] == Map(s[..|s| - 1], f);
      SortMap(s[..|s| - 1], f, leqA, leqB);
      InsertMap(Sort(s[..|s| - 1], leqA), s[|s| - 1], f, leqA, leqB);
    }
  }

  lemma RemoveOne<T>(t: seq<T>, k: nat)
    requires k < |t|
    ensures multiset(t) == multiset(t[..k] + t[k + 1..]) + multiset{t[k]}
    ensures forall x :: x in t && x != t[k] ==> x in t[..k] + t[k + 1..]
  {
    assert t == t[..k] + [t[k]] + t[k + 1..];
  }

  /** Distinct elements, all of them found in a sequence of the same length,
      are that sequence in some order. */
  lemma {:induction false} DistinctWithin<T>(s: seq<T>, t: seq<T>)
    requires Distinct(s) && |s| == |t|
    requires forall x :: x in s ==> x in t
    ensures multiset(s) == multiset(t)
  {
    if s != [] {
      var front, last := s[..|s| - 1], s[|s| - 1];
      assert s == front + [last];
      assert last in s;
      var k :| 0 <= k < |t| && t[k] == last;
      RemoveOne(t, k);
      forall x | x in front ensures x in t[..k] + t[k + 1..] {
        assert x in s && x != last;
      }
      DistinctWithin(front, t[..k] + t[k + 1..]);
    }
  }

  lemma SameElements<T>(s: seq<T>, t: seq<T>)
    requires multiset(s) == multiset(t)
    ensures |s| == |t|
    ensures forall x :: x in s <==> x in t
  {
    assert |s| == |multiset(s)| && |t| == |multiset(t)|;
    forall x ensures x in s <==> x in t {
      assert x in s <==> x in multiset(s);
      assert x in t <==> x in multiset(t);
    }
  }

  lemma SortKeepsElements<T>(s: seq<T>, leq: (T, T) -> bool)
    ensures forall x :: x in Sort(s, leq) <==> x in s
  {
    SameElements(s, Sort(s, leq));
  }

  /** The order tells the elements of a sequence apart. */
  ghost predicate Separates<T>(leq: (T, T) -> bool, s: seq<T>) {
    forall x, y :: x in s && y in s && leq(x, y) && leq(y, x) ==> x == y
  }

  lemma LastAgree<T(!new)>(s: seq<T>, t: seq<T>, leq: (T, T) -> bool)
    requires SortedBy(s, leq) && SortedBy(t, leq) && Separates(leq, s)
    requires multiset(s) == multiset(t) && s != [] && t != []
    ensures s[|s| - 1] == t[|t| - 1]
  {
    SameElements(s, t);
    var a, b := s[|s| - 1], t[|t| - 1];
    assert a in t && b in s;
    var i :| 0 <= i < |t| && t[i] == a;
    var j :| 0 <= j < |s| && s[j] == b;
    assert i == |t| - 1 || leq(t[i], b);
    assert j == |s| - 1 || leq(s[j], a);
  }

  lemma FrontOf<T(!new)>(s: seq<T>, leq: (T, T) -> bool)
    requires SortedBy(s, leq) && Separates(leq, s) && s != []
    ensures SortedBy(s[..|s| - 1], leq) && Separates(leq, s[..|s| - 1])
    ensures multiset(s[..|s| - 1]) == multiset(s) - multiset{s[|s| - 1]}
    ensures s == s[..|s| - 1] + [s[|s| - 1]]
  {
    var front := s[..|s| - 1];
    assert s == front + [s[|s| - 1]];
    forall x | x in front ensures x in s {}
  }

  /** Two sorted sequences with the same separated elements are equal. */
  lemma {:induction false} StrictlySortedUnique<T(!new)>(s: seq<T>, t: seq<T>, leq: (T, T) -> bool)
    requires SortedBy(s, leq) && SortedBy(t, leq) && Separates(leq, s)
    requires multiset(s) == multiset(t)
    ensures s == t
  {
    SameElements(s, t);
    if s != [] {
      LastAgree(s, t, leq);
      FrontOf(s, leq);
      SeparatesSame(s, t, leq);
      FrontOf(t, leq);
      StrictlySortedUnique(s[..|s| - 1], t[..|t| - 1], leq);
    }
  }

  lemma SeparatesSame<T(!new)>(s: seq<T>, t: seq<T>, leq: (T, T) -> bool)
    requires Separates(leq, s) && multiset(s) == multiset(t)
    ensures Separates(leq, t)
  {
    SameElements(s, t);
  }

  ghost predicate Distinct<T>(s: seq<T>) {
    forall i, j :: 0 <= i < j < |s| ==> s[i] != s[j]
  }

  lemma {:induction false} DistinctIffCounts<T>(s: seq<T>)
    ensures Distinct(s) <==> forall x :: x in s ==> multiset(s)[x] == 1
  {
    if s != [] {
      var front, last := s[..|s| - 1], s[|s| - 1];
      assert s == front + [last];
      DistinctIffCounts(front);
      assert Distinct(s) <==> Distinct(front) && last !in front;
      if Distinct(s) {
        forall x | x in s ensures multiset(s)[x] == 1 {
          assert x == last || x in front;
        }
      } else if last in front {
        assert last in multiset(front) && multiset(s)[last] >= 2;
      } else {
        var x :| x in front && multiset(front)[x] != 1;
        assert x in multiset(front) && multiset(s)[x] != 1 && x in s;
      }
    }
  }

  /** Rearranging a sequence does not change whether its elements are distinct. */
  lemma DistinctSame<T>(s: seq<T>, t: seq<T>)
    requires multiset(s) == multiset(t)
    ensures Distinct(s) <==> Distinct(t)
  {
    DistinctIffCounts(s);
    DistinctIffCounts(t);
    SameElements(s, t);
  }

  predicate AdjacentEqual(s: seq<int>) {
    exists i :: 0 <= i < |s| - 1 && s[i] == s[i + 1]
  }

  predicate AtMost(x: int, y: int) {
    x <= y
  }

  /** Comparing neighbours after sorting finds every repetition. */
  lemma NeighboursDecide(s: seq<int>)
    ensures AdjacentEqual(Sort(s, AtMost)) <==> !Distinct(s)
  {
    var t := Sort(s, AtMost);
    SortSorted(s, AtMost);
    DistinctSame(s, t);
    if !Distinct(t) {
      var i, j :| 0 <= i < j < |t| && t[i] == t[j];
      assert AtMost(t[i], t[i + 1]);
      assert i + 1 == j || AtMost(t[i + 1], t[j]);
    }
  }
}
