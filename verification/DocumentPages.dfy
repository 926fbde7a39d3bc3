// A recognised page: which lists of observations are accepted as one, and what
// acceptance means for the links from observations to their parents.
module DocumentPages {
  import opened Wrappers
  import Sorting

  const MAXIMUM_OBSERVATIONS: nat := 100_000
  const MAXIMUM_OBSERVATION_BYTES: nat := 65_536

  datatype Observation = Observation(id: string, text: string, confidence: real, polygon: string, order: nat, parent: Option<string>)

  datatype Page = Page(number: nat, width: nat, height: nat, observations: seq<Observation>)

  // ----------------------------------------------------------------------- text

  /** The length of a character in UTF-8. */
  function CharBytes(c: char): (n: nat)
    ensures 1 <= n <= 4
  {
    if c as int < 0x80 then 1 else if c as int < 0x800 then 2 else if c as int < 0x1_0000 then 3 else 4
  }

  function ByteLength(s: string): nat {
    if s == "" then 0 else ByteLength(s[..|s| - 1]) + CharBytes(s[|s| - 1])
  }

  lemma {:induction false} ByteLengthAdds(s: string, t: string)
    ensures ByteLength(s + t) == ByteLength(s) + ByteLength(t)
  {
    if t == "" {
      assert s + t == s;
    } else {
      assert (s + t)[..|s + t| - 1] == s + t[..|t| - 1];
      ByteLengthAdds(s, t[..|t| - 1]);
    }
  }

  /** White space as Unicode defines it. */
  predicate IsWhitespace(c: char) {
    var n := c as int;
    || 0x9 <= n <= 0xd || n == 0x20 || n == 0x85 || n == 0xa0 || n == 0x1680
    || 0x2000 <= n <= 0x200a || n == 0x2028 || n == 0x2029 || n == 0x202f || n == 0x205f || n == 0x3000
  }

  predicate Blank(s: string) {
    forall i :: 0 <= i < |s| ==> IsWhitespace(s[i])
  }

  /** What the constructor of an observation lets through. */
  predicate ValidObservation(o: Observation) {
    !Blank(o.text) && ByteLength(o.text) <= MAXIMUM_OBSERVATION_BYTES && o.parent != Some(o.id)
  }

  // ----------------------------------------------------------------- acceptance

  predicate OrderAtMost(a: Observation, b: Observation) {
    a.order <= b.order
  }

  function Ids(s: seq<Observation>): set<string> {
    set i | 0 <= i < |s| :: s[i].id
  }

  function Orders(s: seq<Observation>): set<nat> {
    set i | 0 <= i < |s| :: s[i].order
  }

  /** The walk over the sorted list finds nothing to refuse. */
  predicate Accepts(s: seq<Observation>) {
    forall i :: 0 <= i < |s| ==> Fits(s[i], Ids(s[..i]), Orders(s[..i]))
  }

  predicate Fits(o: Observation, seenIds: set<string>, seenOrders: set<nat>) {
    o.order !in seenOrders && (o.parent.Some? ==> o.parent.value in seenIds) && o.id !in seenIds
  }

  /** No two observations share an identity or a reading order, and every parent
      is read before its children. */
  ghost predicate IsOrderedForest(s: seq<Observation>) {
    && (forall i, j :: 0 <= i < j < |s| ==> s[i].id != s[j].id && s[i].order != s[j].order)
    && (forall i :: 0 <= i < |s| && s[i].parent.Some? ==> HasParent(s, s[i]))
  }

  ghost predicate HasParent(s: seq<Observation>, o: Observation) {
    o.parent.Some? && exists j :: 0 <= j < |s| && s[j].id == o.parent.value && s[j].order < o.order
  }

  datatype PageError = InvalidDocumentPage

  /** The walk over the observations in reading order. */
  method Walk(sorted: seq<Observation>) returns (accepted: bool)
    ensures accepted <==> Accepts(sorted)
  {
    hide Ids, Orders;
    NothingSeen();
    assert sorted[..0] == [];
    var seenIds: set<string>, seenOrders: set<nat> := {}, {};
    for i := 0 to |sorted|
      invariant seenIds == Ids(sorted[..i]) && seenOrders == Orders(sorted[..i])
      invariant forall k :: 0 <= k < i ==> Fits(sorted[k], Ids(sorted[..k]), Orders(sorted[..k]))
    {
      var o := sorted[i];
      if o.order in seenOrders || (o.parent.Some? && o.parent.value !in seenIds) || o.id in seenIds {
        return false;
      }
      OneMore(sorted, i);
      seenOrders := seenOrders + {o.order};
      seenIds := seenIds + {o.id};
    }
    return true;
  }

  method NewPage(number: nat, width: nat, height: nat, observations: seq<Observation>) returns (r: Result<Page, PageError>)
    ensures r.Ok? <==> width != 0 && height != 0 && |observations| <= MAXIMUM_OBSERVATIONS && IsOrderedForest(observations)
    ensures r.Ok? ==> r.value == Page(number, width, height, Sorting.Sort(observations, OrderAtMost))
  {
    hide IsOrderedForest, Accepts;
    if width == 0 || height == 0 || |observations| > MAXIMUM_OBSERVATIONS {
      return Err(InvalidDocumentPage);
    }
    AcceptanceMeansForest(observations);
    var sorted := Sorting.Sort(observations, OrderAtMost);
    var accepted := Walk(sorted);
    if !accepted {
      return Err(InvalidDocumentPage);
    }
    return Ok(Page(number, width, height, sorted));
  }

  lemma NothingSeen()
    ensures Ids([]) == {} && Orders([]) == {}
  {
  }

  lemma OneMore(s: seq<Observation>, i: nat)
    requires i < |s|
    ensures Ids(s[..i + 1]) == Ids(s[..i]) + {s[i].id}
    ensures Orders(s[..i + 1]) == Orders(s[..i]) + {s[i].order}
  {
    var longer, shorter := s[..i + 1], s[..i];
    assert forall k :: 0 <= k < i ==> longer[k] == shorter[k];
    forall id | id in Ids(longer) ensures id in Ids(shorter) + {s[i].id} {
      var k :| 0 <= k < |longer| && longer[k].id == id;
      assert k < i ==> shorter[k].id == id;
    }
    forall id | id in Ids(shorter) ensures id in Ids(longer) {
      var k :| 0 <= k < |shorter| && shorter[k].id == id;
      assert longer[k].id == id;
    }
    assert longer[i].id == s[i].id && longer[i].order == s[i].order;
    forall n | n in Orders(longer) ensures n in Orders(shorter) + {s[i].order} {
      var k :| 0 <= k < |longer| && longer[k].order == n;
      assert k < i ==> shorter[k].order == n;
    }
    forall n | n in Orders(shorter) ensures n in Orders(longer) {
      var k :| 0 <= k < |shorter| && shorter[k].order == n;
      assert longer[k].order == n;
    }
  }

  lemma ForestInAnyOrder(s: seq<Observation>, t: seq<Observation>)
    requires multiset(s) == multiset(t) && IsOrderedForest(s)
    ensures IsOrderedForest(t)
  {
    Sorting.SameElements(s, t);
    assert Sorting.Distinct(s);
    Sorting.DistinctSame(s, t);
    forall i, j | 0 <= i < j < |t| ensures t[i].id != t[j].id && t[i].order != t[j].order {
      assert t[i] in s && t[j] in s && t[i] != t[j];
      var a :| 0 <= a < |s| && s[a] == t[i];
      var b :| 0 <= b < |s| && s[b] == t[j];
      assert a < b || b < a;
    }
    forall i | 0 <= i < |t| && t[i].parent.Some? ensures HasParent(t, t[i]) {
      assert t[i] in s;
      var a :| 0 <= a < |s| && s[a] == t[i];
      assert HasParent(s, s[a]);
      var b :| 0 <= b < |s| && s[b].id == t[i].parent.value && s[b].order < t[i].order;
      assert s[b] in t;
    }
  }

  lemma SortedForest(s: seq<Observation>)
    requires Sorting.SortedBy(s, OrderAtMost)
    ensures Accepts(s) <==> IsOrderedForest(s)
  {
    if Accepts(s) {
      AcceptedIsForest(s);
    }
    if IsOrderedForest(s) {
      forall i | 0 <= i < |s| ensures Fits(s[i], Ids(s[..i]), Orders(s[..i])) {
        if s[i].parent.Some? {
          assert HasParent(s, s[i]);
          var j :| 0 <= j < |s| && s[j].id == s[i].parent.value && s[j].order < s[i].order;
          assert j > i ==> OrderAtMost(s[i], s[j]);
          assert s[..i][j].id == s[i].parent.value;
        }
      }
    }
  }

  lemma AcceptedIsForest(s: seq<Observation>)
    requires Sorting.SortedBy(s, OrderAtMost) && Accepts(s)
    ensures IsOrderedForest(s)
  {
    forall i, j | 0 <= i < j < |s| ensures s[i].id != s[j].id && s[i].order != s[j].order {
      assert s[..j][i] == s[i];
      assert Fits(s[j], Ids(s[..j]), Orders(s[..j]));
      assert s[i].id in Ids(s[..j]) && s[i].order in Orders(s[..j]);
    }
    forall i | 0 <= i < |s| && s[i].parent.Some? ensures HasParent(s, s[i]) {
      assert Fits(s[i], Ids(s[..i]), Orders(s[..i]));
      var j :| 0 <= j < |s[..i]| && s[..i][j].id == s[i].parent.value;
      assert Fits(s[i], Ids(s[..i]), Orders(s[..i])) && s[..i][j].order in Orders(s[..i]);
      assert s[j].id == s[i].parent.value && OrderAtMost(s[j], s[i]);
    }
  }

  /** The walk accepts exactly the lists, in whatever order they come, whose
      parent links form a forest ordered by distinct reading orders. */
  lemma AcceptanceMeansForest(observations: seq<Observation>)
    ensures Accepts(Sorting.Sort(observations, OrderAtMost)) <==> IsOrderedForest(observations)
  {
    var sorted := Sorting.Sort(observations, OrderAtMost);
    Sorting.SortSorted(observations, OrderAtMost);
    SortedForest(sorted);
    if IsOrderedForest(observations) {
      ForestInAnyOrder(observations, sorted);
    }
    if IsOrderedForest(sorted) {
      ForestInAnyOrder(sorted, observations);
    }
  }

  // ------------------------------------------------------------------ the forest

  /** From an observation up to one without a parent, by identity. */
  ghost predicate IsAncestry(s: seq<Observation>, path: seq<Observation>) {
    && path != []
    && (forall k :: 0 <= k < |path| ==> path[k] in s)
    && (forall k :: 0 < k < |path| ==> path[k - 1].parent == Some(path[k].id) && path[k].order < path[k - 1].order)
    && path[|path| - 1].parent.None?
  }

  /** Every chain of parents ends: each observation hangs below a root. */
  lemma {:induction false} EveryChainEnds(s: seq<Observation>, o: Observation) returns (path: seq<Observation>)
    requires IsOrderedForest(s) && o in s
    ensures IsAncestry(s, path) && path[0] == o
    decreases o.order
  {
    if o.parent.None? {
      path := [o];
    } else {
      var i :| 0 <= i < |s| && s[i] == o;
      assert HasParent(s, s[i]);
      var j :| 0 <= j < |s| && s[j].id == o.parent.value && s[j].order < o.order;
      var rest := EveryChainEnds(s, s[j]);
      path := [o] + rest;
    }
  }

  predicate IsParentIn(s: seq<Observation>, id: string) {
    exists i :: 0 <= i < |s| && s[i].parent == Some(id)
  }

  /** The observations that are nobody's parent, in reading order. */
  function Leaves(all: seq<Observation>, n: nat): (leaves: seq<Observation>)
    requires n <= |all|
    ensures forall o :: o in leaves ==> o in all && !IsParentIn(all, o.id)
  {
    if n == 0 then []
    else Leaves(all, n - 1) + if IsParentIn(all, all[n - 1].id) then [] else [all[n - 1]]
  }

  predicate ValidPage(p: Page) {
    Accepts(p.observations) && forall i :: 0 <= i < |p.observations| ==> ValidObservation(p.observations[i])
  }

  /** The observation that is read last is nobody's parent: a page with any
      observation has a leaf. */
  lemma EveryPageHasALeaf(s: seq<Observation>)
    requires Accepts(s)
    ensures Leaves(s, |s|) == [] <==> s == []
  {
    if s != [] {
      var last := s[|s| - 1];
      assert Fits(last, Ids(s[..|s| - 1]), Orders(s[..|s| - 1]));
      forall i | 0 <= i < |s| ensures s[i].parent != Some(last.id) {
        assert Fits(s[i], Ids(s[..i]), Orders(s[..i]));
        IdsGrow(s, i, |s| - 1);
      }
    }
  }

  lemma IdsGrow(s: seq<Observation>, i: nat, n: nat)
    requires i <= n <= |s|
    ensures Ids(s[..i]) <= Ids(s[..n])
  {
    forall id | id in Ids(s[..i]) ensures id in Ids(s[..n]) {
      var k :| 0 <= k < |s[..i]| && s[..i][k].id == id;
      assert s[..n][k].id == id;
    }
  }

  /** The leaves of a page are exactly the observations that no other names as
      its parent, one after another in reading order. */
  lemma LeavesMean(s: seq<Observation>)
    ensures forall o :: o in Leaves(s, |s|) <==> o in s && forall i :: 0 <= i < |s| ==> s[i].parent != Some(o.id)
    ensures (forall i, j :: 0 <= i < j < |s| ==> s[i].order < s[j].order) ==>
              forall i, j :: 0 <= i < j < |Leaves(s, |s|)| ==> Leaves(s, |s|)[i].order < Leaves(s, |s|)[j].order
  {
    LeavesUpTo(s, |s|);
    assert s[..|s|] == s;
    if forall i, j :: 0 <= i < j < |s| ==> s[i].order < s[j].order {
      LeavesInOrder(s, |s|);
    }
  }

  lemma {:induction false} LeavesUpTo(s: seq<Observation>, n: nat)
    requires n <= |s|
    ensures forall o :: o in Leaves(s, n) <==> o in s[..n] && !IsParentIn(s, o.id)
  {
    hide IsParentIn;
    if n > 0 {
      LeavesUpTo(s, n - 1);
      assert s[..n] == s[..n - 1] + [s[n - 1]];
    }
  }

  lemma {:induction false} LeavesInOrder(s: seq<Observation>, n: nat)
    requires n <= |s| && forall i, j :: 0 <= i < j < |s| ==> s[i].order < s[j].order
    ensures forall i, j :: 0 <= i < j < |Leaves(s, n)| ==> Leaves(s, n)[i].order < Leaves(s, n)[j].order
  {
    hide IsParentIn;
    if n > 0 {
      LeavesInOrder(s, n - 1);
      LeavesUpTo(s, n - 1);
      var front := Leaves(s, n - 1);
      forall i | 0 <= i < |front| ensures front[i].order < s[n - 1].order {
        assert front[i] in s[..n - 1];
      }
    }
  }

  /** The encoding of one character in UTF-8, by section 3 of RFC 3629. */
  function Utf8(c: char): seq<int> {
    var n := c as int;
    if n <= 0x7f then [n]
    else if n <= 0x7ff then [0xc0 + n / 0x40, 0x80 + n % 0x40]
    else if n <= 0xffff then [0xe0 + n / 0x1000, 0x80 + n / 0x40 % 0x40, 0x80 + n % 0x40]
    else [0xf0 + n / 0x4_0000, 0x80 + n / 0x1000 % 0x40, 0x80 + n / 0x40 % 0x40, 0x80 + n % 0x40]
  }

  function Encoded(s: string): seq<int> {
    if s == "" then [] else Utf8(s[0]) + Encoded(s[1..])
  }

  /** The byte length is the length of the encoded text. */
  lemma {:induction false} BytesAreEncoded(s: string)
    ensures ByteLength(s) == |Encoded(s)|
  {
    if s != "" {
      BytesAreEncoded(s[1..]);
      assert s == [s[0]] + s[1..];
      ByteLengthAdds([s[0]], s[1..]);
      assert [s[0]][..0] == "";
      assert ByteLength([s[0]]) == CharBytes(s[0]);
    }
  }

  lemma WhitespaceMeans(c: char)
    ensures IsWhitespace(c) <==>
      c as int in {0x9, 0xa, 0xb, 0xc, 0xd, 0x20, 0x85, 0xa0, 0x1680, 0x2000, 0x2001, 0x2002, 0x2003, 0x2004, 0x2005,
                   0x2006, 0x2007, 0x2008, 0x2009, 0x200a, 0x2028, 0x2029, 0x202f, 0x205f, 0x3000}
  {
  }

  /** A text is blank when all of its characters are white space. */
  lemma BlankMeans(s: string)
    ensures Blank(s) <==> forall c :: c in s ==> IsWhitespace(c)
  {
    hide IsWhitespace;
    if forall c :: c in s ==> IsWhitespace(c) {
      forall i | 0 <= i < |s| ensures IsWhitespace(s[i]) {
        assert s[i] in s;
      }
    }
  }
}
