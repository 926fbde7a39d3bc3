// Greedy selection of detected regions. Coordinates and confidences are exact
// reals; the rounding of the original's floating point numbers is not modelled.
module RegionSelection {
  import opened Wrappers
  import Sorting

  datatype Candidate = Candidate(left: real, top: real, right: real, bottom: real, confidence: real)

  /** What the constructor of a candidate lets through. */
  predicate ValidCandidate(c: Candidate) {
    && 0.0 <= c.left < c.right <= 1.0
    && 0.0 <= c.top < c.bottom <= 1.0
    && 0.0 <= c.confidence <= 1.0
  }

  predicate ValidCandidates(s: seq<Candidate>) {
    forall i :: 0 <= i < |s| ==> ValidCandidate(s[i])
  }

  datatype Limits = Limits(maximumCandidates: nat, overlapThreshold: real)

  predicate ValidLimits(l: Limits) {
    l.maximumCandidates > 0 && 0.0 < l.overlapThreshold <= 1.0
  }

  // -------------------------------------------------------------------- overlap

  function Min(a: real, b: real): real {
    if a <= b then a else b
  }

  function Max(a: real, b: real): real {
    if a >= b then a else b
  }

  function Area(c: Candidate): real {
    (c.right - c.left) * (c.bottom - c.top)
  }

  /** How far two intervals overlap. */
  function Shared(low: real, high: real, low': real, high': real): real {
    Max(Min(high, high') - Max(low, low'), 0.0)
  }

  function Intersection(a: Candidate, b: Candidate): real {
    Shared(a.left, a.right, b.left, b.right) * Shared(a.top, a.bottom, b.top, b.bottom)
  }

  lemma ProductAtMost(a: real, b: real, c: real, d: real)
    requires 0.0 <= a <= c && 0.0 <= b <= d
    ensures 0.0 <= a * b <= c * d
  {
    assert c * d - a * b == c * (d - b) + (c - a) * b;
  }

  lemma AreaPositive(c: Candidate)
    requires ValidCandidate(c)
    ensures Area(c) > 0.0
  {
  }

  lemma SharedBounded(low: real, high: real, low': real, high': real)
    requires low < high && low' < high'
    ensures 0.0 <= Shared(low, high, low', high') <= high - low
    ensures Shared(low, high, low', high') == Shared(low', high', low, high)
  {
  }

  lemma IntersectionBounded(a: Candidate, b: Candidate)
    requires ValidCandidate(a) && ValidCandidate(b)
    ensures 0.0 <= Intersection(a, b) <= Area(a)
    ensures Intersection(a, b) == Intersection(b, a)
  {
    hide Shared;
    SharedBounded(a.left, a.right, b.left, b.right);
    SharedBounded(a.top, a.bottom, b.top, b.bottom);
    ProductAtMost(Shared(a.left, a.right, b.left, b.right), Shared(a.top, a.bottom, b.top, b.bottom),
                  a.right - a.left, a.bottom - a.top);
  }

  function IntersectionOverUnion(a: Candidate, b: Candidate): real
    requires ValidCandidate(a) && ValidCandidate(b)
  {
    IntersectionBounded(a, b);
    IntersectionBounded(b, a);
    AreaPositive(b);
    Intersection(a, b) / (Area(a) + Area(b) - Intersection(a, b))
  }

  predicate SameBox(a: Candidate, b: Candidate) {
    a.left == b.left && a.top == b.top && a.right == b.right && a.bottom == b.bottom
  }

  /** Overlap is symmetric, and a box overlaps itself completely. */
  lemma OverlapFacts(a: Candidate, b: Candidate)
    requires ValidCandidate(a) && ValidCandidate(b)
    ensures IntersectionOverUnion(a, b) == IntersectionOverUnion(b, a)
    ensures SameBox(a, b) ==> IntersectionOverUnion(a, b) == 1.0
  {
    IntersectionBounded(a, b);
    AreaPositive(a);
    AreaPositive(b);
  }

  // --------------------------------------------------------------------- orders

  /** Confidence downwards, then top, then left. */
  predicate RankedBefore(a: Candidate, b: Candidate) {
    || a.confidence > b.confidence
    || (a.confidence == b.confidence && (a.top < b.top || (a.top == b.top && a.left <= b.left)))
  }

  /** Top, left, bottom, right. */
  predicate ReadBefore(a: Candidate, b: Candidate) {
    || a.top < b.top
    || (a.top == b.top &&
        (a.left < b.left
         || (a.left == b.left && (a.bottom < b.bottom || (a.bottom == b.bottom && a.right <= b.right)))))
  }

  lemma OrdersAreTotal()
    ensures Sorting.TotalPreorder(RankedBefore) && Sorting.TotalPreorder(ReadBefore)
  {
  }

  // ---------------------------------------------------------------- the selection

  predicate Clear(c: Candidate, selected: seq<Candidate>, threshold: real)
    requires ValidCandidate(c) && ValidCandidates(selected)
  {
    forall i :: 0 <= i < |selected| ==> IntersectionOverUnion(c, selected[i]) < threshold
  }

  /** Walks the ranked candidates and keeps those clear of all kept before. */
  function Greedy(ranked: seq<Candidate>, threshold: real): (selected: seq<Candidate>)
    requires ValidCandidates(ranked)
    ensures ValidCandidates(selected)
  {
    if ranked == [] then []
    else
      var selected := Greedy(ranked[..|ranked| - 1], threshold);
      var c := ranked[|ranked| - 1];
      if Clear(c, selected, threshold) then selected + [c] else selected
  }

  function Ranked(candidates: seq<Candidate>): seq<Candidate> {
    Sorting.Sort(candidates, RankedBefore)
  }

  lemma RankedValid(candidates: seq<Candidate>)
    requires ValidCandidates(candidates)
    ensures ValidCandidates(Ranked(candidates)) && Sorting.SortedBy(Ranked(candidates), RankedBefore)
  {
    OrdersAreTotal();
    Sorting.SortSorted(candidates, RankedBefore);
    Sorting.SameElements(candidates, Ranked(candidates));
    forall i | 0 <= i < |Ranked(candidates)| ensures ValidCandidate(Ranked(candidates)[i]) {
      assert Ranked(candidates)[i] in candidates;
    }
  }

  function Selection(candidates: seq<Candidate>, threshold: real): (selected: seq<Candidate>)
    requires ValidCandidates(candidates)
  {
    RankedValid(candidates);
    Sorting.Sort(Greedy(Ranked(candidates), threshold), ReadBefore)
  }

  datatype SelectionError = DetectionOutputLimitExceeded(candidates: nat, limit: nat)

  method IsClear(c: Candidate, selected: seq<Candidate>, threshold: real) returns (clear: bool)
    requires ValidCandidate(c) && ValidCandidates(selected)
    ensures clear <==> Clear(c, selected, threshold)
  {
    hide IntersectionOverUnion;
    for k := 0 to |selected|
      invariant forall j :: 0 <= j < k ==> IntersectionOverUnion(c, selected[j]) < threshold
    {
      if IntersectionOverUnion(c, selected[k]) >= threshold {
        return false;
      }
    }
    return true;
  }

  method SelectRegions(candidates: seq<Candidate>, limits: Limits) returns (r: Result<seq<Candidate>, SelectionError>)
    requires ValidCandidates(candidates) && ValidLimits(limits)
    ensures |candidates| > limits.maximumCandidates ==> r == Err(DetectionOutputLimitExceeded(|candidates|, limits.maximumCandidates))
    ensures |candidates| <= limits.maximumCandidates ==> r == Ok(Selection(candidates, limits.overlapThreshold))
  {
    if |candidates| > limits.maximumCandidates {
      return Err(DetectionOutputLimitExceeded(|candidates|, limits.maximumCandidates));
    }
    hide Clear, Ranked;
    RankedValid(candidates);
    var ranked := Ranked(candidates);
    var selected: seq<Candidate> := [];
    for i := 0 to |ranked|
      invariant ValidCandidates(selected)
      invariant selected == Greedy(ranked[..i], limits.overlapThreshold)
    {
      assert ranked[..i + 1][..i] == ranked[..i];
      var clear := IsClear(ranked[i], selected, limits.overlapThreshold);
      if clear {
        selected := selected + [ranked[i]];
      }
    }
    assert ranked[..|ranked|] == ranked;
    return Ok(Sorting.Sort(selected, ReadBefore));
  }

  // ------------------------------------------------- the unique set that is kept

  /** A set of ranks in which a candidate is kept exactly when no better-ranked
      kept candidate overlaps it at or above the threshold. */
  ghost predicate Settled(ranked: seq<Candidate>, threshold: real, kept: set<nat>)
    requires ValidCandidates(ranked)
  {
    && (forall i :: i in kept ==> i < |ranked|)
    && forall i :: 0 <= i < |ranked| ==> (i in kept <==> ClearOfBetter(ranked, threshold, kept, i))
  }

  predicate ClearOfBetter(ranked: seq<Candidate>, threshold: real, kept: set<nat>, i: nat)
    requires ValidCandidates(ranked) && i < |ranked|
  {
    forall j :: j in kept && j < i ==> IntersectionOverUnion(ranked[i], ranked[j]) < threshold
  }

  /** There is only one such set. */
  lemma {:induction false} SettledIsUnique(ranked: seq<Candidate>, threshold: real, a: set<nat>, b: set<nat>, n: nat)
    requires ValidCandidates(ranked) && Settled(ranked, threshold, a) && Settled(ranked, threshold, b) && n <= |ranked|
    ensures forall i :: 0 <= i < n ==> (i in a <==> i in b)
  {
    if n > 0 {
      SettledIsUnique(ranked, threshold, a, b, n - 1);
    }
  }

  function KeptRanks(ranked: seq<Candidate>, threshold: real): (kept: set<nat>)
    requires ValidCandidates(ranked)
    ensures forall i :: i in kept ==> i < |ranked|
  {
    if ranked == [] then {}
    else
      var n := |ranked| - 1;
      KeptRanks(ranked[..n], threshold) + if Clear(ranked[n], Greedy(ranked[..n], threshold), threshold) then {n} else {}
  }

  /** The elements at some ranks, in order. */
  function AtRanks(ranked: seq<Candidate>, kept: set<nat>): seq<Candidate> {
    if ranked == [] then []
    else
      var n := |ranked| - 1;
      AtRanks(ranked[..n], kept) + if n in kept then [ranked[n]] else []
  }

  lemma {:induction false} AtRanksSame(ranked: seq<Candidate>, a: set<nat>, b: set<nat>)
    requires forall i :: 0 <= i < |ranked| ==> (i in a <==> i in b)
    ensures AtRanks(ranked, a) == AtRanks(ranked, b)
  {
    if ranked != [] {
      AtRanksSame(ranked[..|ranked| - 1], a, b);
    }
  }

  lemma {:induction false} AtRanksMembers(ranked: seq<Candidate>, kept: set<nat>, c: Candidate)
    ensures c in AtRanks(ranked, kept) <==> exists i: nat :: i in kept && i < |ranked| && ranked[i] == c
  {
    if ranked != [] {
      var n := |ranked| - 1;
      AtRanksMembers(ranked[..n], kept, c);
      if exists i: nat :: i in kept && i < n && ranked[..n][i] == c {
        var i: nat :| i in kept && i < n && ranked[..n][i] == c;
        assert ranked[i] == c;
      }
      if exists i: nat :: i in kept && i < |ranked| && ranked[i] == c {
        var i: nat :| i in kept && i < |ranked| && ranked[i] == c;
        assert i < n ==> ranked[..n][i] == c;
      }
    }
  }

  /** The walk keeps exactly the elements at the settled ranks. */
  lemma {:induction false} GreedyKeeps(ranked: seq<Candidate>, threshold: real)
    requires ValidCandidates(ranked)
    ensures Greedy(ranked, threshold) == AtRanks(ranked, KeptRanks(ranked, threshold))
  {
    if ranked != [] {
      var n := |ranked| - 1;
      GreedyKeeps(ranked[..n], threshold);
      AtRanksSame(ranked[..n], KeptRanks(ranked[..n], threshold), KeptRanks(ranked, threshold));
    }
  }

  lemma ClearOfRanks(ranked: seq<Candidate>, threshold: real, c: Candidate)
    requires ValidCandidates(ranked) && ValidCandidate(c)
    ensures Clear(c, Greedy(ranked, threshold), threshold)
            <==> forall j :: j in KeptRanks(ranked, threshold) ==> IntersectionOverUnion(c, ranked[j]) < threshold
  {
    var kept, selected := KeptRanks(ranked, threshold), Greedy(ranked, threshold);
    GreedyKeeps(ranked, threshold);
    if Clear(c, selected, threshold) {
      forall j | j in kept ensures IntersectionOverUnion(c, ranked[j]) < threshold {
        AtRanksMembers(ranked, kept, ranked[j]);
        var k :| 0 <= k < |selected| && selected[k] == ranked[j];
      }
    } else {
      var k :| 0 <= k < |selected| && IntersectionOverUnion(c, selected[k]) >= threshold;
      AtRanksMembers(ranked, kept, selected[k]);
      assert selected[k] in selected;
    }
  }

  /** Only better ranks matter. */
  lemma BetterRanksOnly(ranked: seq<Candidate>, longer: seq<Candidate>, threshold: real, a: set<nat>, b: set<nat>, i: nat)
    requires ValidCandidates(ranked) && ValidCandidates(longer) && ranked <= longer && i < |ranked|
    requires forall j: nat :: j < i ==> (j in a <==> j in b)
    ensures ClearOfBetter(ranked, threshold, a, i) <==> ClearOfBetter(longer, threshold, b, i)
  {
  }

  lemma KeptGrows(ranked: seq<Candidate>, threshold: real)
    requires ValidCandidates(ranked) && ranked != []
    ensures forall j: nat :: j < |ranked| - 1 ==>
                               (j in KeptRanks(ranked, threshold) <==> j in KeptRanks(ranked[..|ranked| - 1], threshold))
  {
  }

  lemma SettledGrows(ranked: seq<Candidate>, threshold: real, before: set<nat>, kept: set<nat>)
    requires ValidCandidates(ranked) && ranked != [] && Settled(ranked[..|ranked| - 1], threshold, before)
    requires forall j :: j in kept ==> j < |ranked|
    requires forall j: nat :: j < |ranked| - 1 ==> (j in kept <==> j in before)
    requires |ranked| - 1 in kept <==> ClearOfBetter(ranked, threshold, kept, |ranked| - 1)
    ensures Settled(ranked, threshold, kept)
  {
    hide ClearOfBetter;
    var n := |ranked| - 1;
    forall i | 0 <= i < |ranked| ensures i in kept <==> ClearOfBetter(ranked, threshold, kept, i) {
      if i < n {
        BetterRanksOnly(ranked[..n], ranked, threshold, before, kept, i);
      }
    }
  }

  lemma {:induction false} KeptIsSettled(ranked: seq<Candidate>, threshold: real)
    requires ValidCandidates(ranked)
    ensures Settled(ranked, threshold, KeptRanks(ranked, threshold))
  {
    if ranked != [] {
      hide KeptRanks, ClearOfBetter, Settled;
      var n := |ranked| - 1;
      KeptIsSettled(ranked[..n], threshold);
      KeptGrows(ranked, threshold);
      LastRank(ranked, threshold);
      SettledGrows(ranked, threshold, KeptRanks(ranked[..n], threshold), KeptRanks(ranked, threshold));
    }
  }

  lemma LastRank(ranked: seq<Candidate>, threshold: real)
    requires ValidCandidates(ranked) && ranked != []
    ensures var n := |ranked| - 1;
            n in KeptRanks(ranked, threshold) <==> ClearOfBetter(ranked, threshold, KeptRanks(ranked, threshold), n)
  {
    ClearOfRanks(ranked[..|ranked| - 1], threshold, ranked[|ranked| - 1]);
  }

  /** The regions are those at the one settled set of ranks, in reading order. */
  lemma SelectionIsTheSettledSet(candidates: seq<Candidate>, threshold: real, kept: set<nat>)
    requires ValidCandidates(candidates) && ValidCandidates(Ranked(candidates))
    requires Settled(Ranked(candidates), threshold, kept)
    ensures Selection(candidates, threshold) == Sorting.Sort(AtRanks(Ranked(candidates), kept), ReadBefore)
  {
    var ranked := Ranked(candidates);
    KeptIsSettled(ranked, threshold);
    SettledIsUnique(ranked, threshold, kept, KeptRanks(ranked, threshold), |ranked|);
    AtRanksSame(ranked, kept, KeptRanks(ranked, threshold));
    GreedyKeeps(ranked, threshold);
  }

  // ----------------------------------------------------------- what callers rely on

  ghost predicate PairwiseClear(s: seq<Candidate>, threshold: real)
    requires ValidCandidates(s)
  {
    forall i, j :: 0 <= i < j < |s| ==> IntersectionOverUnion(s[i], s[j]) < threshold
  }

  lemma {:induction false} GreedyIsClear(ranked: seq<Candidate>, threshold: real)
    requires ValidCandidates(ranked)
    ensures PairwiseClear(Greedy(ranked, threshold), threshold)
    ensures multiset(Greedy(ranked, threshold)) <= multiset(ranked)
  {
    if ranked != [] {
      hide IntersectionOverUnion;
      var n := |ranked| - 1;
      GreedyIsClear(ranked[..n], threshold);
      assert ranked == ranked[..n] + [ranked[n]];
      forall i | 0 <= i < |Greedy(ranked[..n], threshold)|
        ensures IntersectionOverUnion(Greedy(ranked[..n], threshold)[i], ranked[n])
             == IntersectionOverUnion(ranked[n], Greedy(ranked[..n], threshold)[i])
      {
        OverlapFacts(ranked[n], Greedy(ranked[..n], threshold)[i]);
      }
    }
  }

  /** Regions that do not overlap have different boxes. */
  lemma ClearIsDistinct(s: seq<Candidate>, threshold: real)
    requires ValidCandidates(s) && PairwiseClear(s, threshold) && threshold <= 1.0
    ensures forall i, j :: 0 <= i < j < |s| ==> !SameBox(s[i], s[j])
    ensures Sorting.Distinct(s)
  {
    forall i, j | 0 <= i < j < |s| ensures !SameBox(s[i], s[j]) {
      OverlapFacts(s[i], s[j]);
    }
  }

  /** Rearranging regions does not make them overlap. */
  lemma ClearInAnyOrder(s: seq<Candidate>, t: seq<Candidate>, threshold: real)
    requires ValidCandidates(s) && PairwiseClear(s, threshold) && threshold <= 1.0
    requires multiset(s) == multiset(t)
    ensures ValidCandidates(t) && PairwiseClear(t, threshold)
  {
    Sorting.SameElements(s, t);
    forall i | 0 <= i < |t| ensures ValidCandidate(t[i]) {
      assert t[i] in s;
    }
    ClearIsDistinct(s, threshold);
    Sorting.DistinctSame(s, t);
    forall i, j | 0 <= i < j < |t| ensures IntersectionOverUnion(t[i], t[j]) < threshold {
      assert t[i] in s && t[j] in s;
      var a :| 0 <= a < |s| && s[a] == t[i];
      var b :| 0 <= b < |s| && s[b] == t[j];
      OverlapFacts(s[a], s[b]);
      assert a < b || b < a;
    }
  }

  /** The regions come from the candidates and do not overlap each other. */
  lemma SelectedAreClear(candidates: seq<Candidate>, threshold: real)
    requires ValidCandidates(candidates) && 0.0 < threshold <= 1.0
    ensures ValidCandidates(Selection(candidates, threshold))
    ensures multiset(Selection(candidates, threshold)) <= multiset(candidates)
    ensures PairwiseClear(Selection(candidates, threshold), threshold)
  {
    RankedValid(candidates);
    GreedyIsClear(Ranked(candidates), threshold);
    ClearInAnyOrder(Greedy(Ranked(candidates), threshold), Selection(candidates, threshold), threshold);
  }

  /** They come out strictly in reading order. */
  lemma SelectedAreInReadingOrder(candidates: seq<Candidate>, threshold: real)
    requires ValidCandidates(candidates) && 0.0 < threshold <= 1.0
    ensures var s := Selection(candidates, threshold);
            forall i, j :: 0 <= i < j < |s| ==> ReadBefore(s[i], s[j]) && !ReadBefore(s[j], s[i])
  {
    var s := Selection(candidates, threshold);
    RankedValid(candidates);
    OrdersAreTotal();
    Sorting.SortSorted(Greedy(Ranked(candidates), threshold), ReadBefore);
    SelectedAreClear(candidates, threshold);
    ClearIsDistinct(s, threshold);
  }

  /** A candidate that is not selected is covered by a selected one that is at
      least as confident. */
  lemma DroppedIsCovered(candidates: seq<Candidate>, threshold: real, c: Candidate)
    requires ValidCandidates(candidates) && 0.0 < threshold <= 1.0
    requires c in candidates && c !in Selection(candidates, threshold)
    ensures ValidCandidates(Selection(candidates, threshold))
    ensures exists k :: 0 <= k < |Selection(candidates, threshold)|
                        && ValidCandidate(c)
                        && IntersectionOverUnion(c, Selection(candidates, threshold)[k]) >= threshold
                        && Selection(candidates, threshold)[k].confidence >= c.confidence
  {
    hide IntersectionOverUnion, Greedy, KeptRanks;
    var ranked := Ranked(candidates);
    var s := Selection(candidates, threshold);
    RankedValid(candidates);
    SelectedAreClear(candidates, threshold);
    Sorting.SameElements(candidates, ranked);
    Sorting.SameElements(Greedy(ranked, threshold), s);
    GreedyKeeps(ranked, threshold);
    var kept := KeptRanks(ranked, threshold);
    var i :| 0 <= i < |ranked| && ranked[i] == c;
    AtRanksMembers(ranked, kept, c);
    KeptIsSettled(ranked, threshold);
    var j :| j in kept && j < i && IntersectionOverUnion(ranked[i], ranked[j]) >= threshold;
    AtRanksMembers(ranked, kept, ranked[j]);
    assert ranked[j] in s;
    assert RankedBefore(ranked[j], ranked[i]);
    var k :| 0 <= k < |s| && s[k] == ranked[j];
  }

  lemma LastIsClear(ranked: seq<Candidate>, threshold: real)
    requires ValidCandidates(ranked) && PairwiseClear(ranked, threshold) && ranked != []
    ensures Clear(ranked[|ranked| - 1], ranked[..|ranked| - 1], threshold)
  {
    hide IntersectionOverUnion;
    var n := |ranked| - 1;
    forall i | 0 <= i < n ensures IntersectionOverUnion(ranked[n], ranked[i]) < threshold {
      OverlapFacts(ranked[n], ranked[i]);
    }
  }

  lemma {:induction false} ClearIsKept(ranked: seq<Candidate>, threshold: real)
    requires ValidCandidates(ranked) && PairwiseClear(ranked, threshold)
    ensures Greedy(ranked, threshold) == ranked
  {
    if ranked != [] {
      hide IntersectionOverUnion, Clear;
      ClearIsKept(ranked[..|ranked| - 1], threshold);
      LastIsClear(ranked, threshold);
      assert ranked == ranked[..|ranked| - 1] + [ranked[|ranked| - 1]];
    }
  }

  /** Selecting from a selection changes nothing. */
  lemma SelectionIsIdempotent(candidates: seq<Candidate>, threshold: real)
    requires ValidCandidates(candidates) && 0.0 < threshold <= 1.0
    ensures ValidCandidates(Selection(candidates, threshold))
    ensures Selection(Selection(candidates, threshold), threshold) == Selection(candidates, threshold)
  {
    hide IntersectionOverUnion, Greedy;
    var s := Selection(candidates, threshold);
    SelectedAreClear(candidates, threshold);
    SelectedAreInReadingOrder(candidates, threshold);
    ClearInAnyOrder(s, Ranked(s), threshold);
    ClearIsKept(Ranked(s), threshold);
    ClearIsDistinct(s, threshold);
    OrdersAreTotal();
    var again := Sorting.Sort(Ranked(s), ReadBefore);
    Sorting.SortSorted(Ranked(s), ReadBefore);
    Sorting.StrictlySortedUnique(s, again, ReadBefore);
  }

  // ------------------------------------------------------------ overlap, by points

  predicate Inside(c: Candidate, x: real, y: real) {
    c.left <= x <= c.right && c.top <= y <= c.bottom
  }

  /** Two boxes without common points share nothing. */
  lemma DisjointShareNothing(a: Candidate, b: Candidate)
    requires ValidCandidate(a) && ValidCandidate(b)
    requires forall x, y :: !(Inside(a, x, y) && Inside(b, x, y))
    ensures Intersection(a, b) == 0.0
  {
    hide Intersection;
    var left, right := Max(a.left, b.left), Min(a.right, b.right);
    var top, bottom := Max(a.top, b.top), Min(a.bottom, b.bottom);
    if left <= right && top <= bottom {
      TheirCorner(a, b, left, top);
      assert false;
    }
    NothingShared(a, b);
  }

  /** The top left corner of what two boxes share is in both. */
  lemma TheirCorner(a: Candidate, b: Candidate, left: real, top: real)
    requires ValidCandidate(a) && ValidCandidate(b) && left == Max(a.left, b.left) && top == Max(a.top, b.top)
    requires left <= Min(a.right, b.right) && top <= Min(a.bottom, b.bottom)
    ensures Inside(a, left, top) && Inside(b, left, top)
  {
  }

  /** The common points of two boxes, where there are any, are a box again, whose
      area is the intersection. */
  lemma CommonBox(a: Candidate, b: Candidate, common: Candidate)
    requires ValidCandidate(a) && ValidCandidate(b) && common.left <= common.right && common.top <= common.bottom
    requires forall x, y :: Inside(common, x, y) <==> Inside(a, x, y) && Inside(b, x, y)
    ensures Intersection(a, b) == (common.right - common.left) * (common.bottom - common.top)
  {
    CommonCorners(a, b, common);
    assert Shared(a.left, a.right, b.left, b.right) == common.right - common.left;
    assert Shared(a.top, a.bottom, b.top, b.bottom) == common.bottom - common.top;
  }

  lemma CommonCorners(a: Candidate, b: Candidate, common: Candidate)
    requires ValidCandidate(a) && ValidCandidate(b) && common.left <= common.right && common.top <= common.bottom
    requires forall x, y :: Inside(common, x, y) <==> Inside(a, x, y) && Inside(b, x, y)
    ensures common.left == Max(a.left, b.left) && common.right == Min(a.right, b.right)
    ensures common.top == Max(a.top, b.top) && common.bottom == Min(a.bottom, b.bottom)
  {
    var left, right := Max(a.left, b.left), Min(a.right, b.right);
    var top, bottom := Max(a.top, b.top), Min(a.bottom, b.bottom);
    assert Inside(common, common.left, common.top) && Inside(common, common.right, common.bottom);
    assert Inside(a, left, top) && Inside(b, left, top) && Inside(a, right, bottom) && Inside(b, right, bottom);
    assert Inside(common, left, top) && Inside(common, right, bottom);
  }

  lemma NothingShared(a: Candidate, b: Candidate)
    requires Max(a.left, b.left) > Min(a.right, b.right) || Max(a.top, b.top) > Min(a.bottom, b.bottom)
    ensures Intersection(a, b) == 0.0
  {
  }

  /** The overlap is the share of the common points in all points of the two. */
  lemma OverlapMeans(a: Candidate, b: Candidate)
    requires ValidCandidate(a) && ValidCandidate(b)
    ensures var all := (a.right - a.left) * (a.bottom - a.top) + (b.right - b.left) * (b.bottom - b.top) - Intersection(a, b);
            all > 0.0 && IntersectionOverUnion(a, b) * all == Intersection(a, b)
  {
    hide Intersection;
    IntersectionBounded(a, b);
    IntersectionBounded(b, a);
    AreaPositive(b);
  }

  /** The order of the walk: confidence downwards, then top, then left. */
  lemma RankMeans(candidates: seq<Candidate>, i: nat, j: nat)
    requires ValidCandidates(candidates) && i < j < |candidates|
    ensures |Ranked(candidates)| == |candidates|
    ensures var a, b := Ranked(candidates)[i], Ranked(candidates)[j];
            && a.confidence >= b.confidence
            && (a.confidence == b.confidence ==> a.top <= b.top)
            && (a.confidence == b.confidence && a.top == b.top ==> a.left <= b.left)
  {
    hide Sorting.Sort;
    RankedValid(candidates);
    assert RankedBefore(Ranked(candidates)[i], Ranked(candidates)[j]);
  }
}
