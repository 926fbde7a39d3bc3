// The edit distance of the text evaluation: two rows that swap roles, the
// shorter input along the columns.
module Levenshtein {
  import opened Wrappers

  // ------------------------------------------------- what the distance is about

  datatype Edit<T> = Keep | Substitute(item: T) | Insert(item: T) | Delete

  /** How many items of the left side are used up and what has been produced. */
  datatype Progress<T> = Progress(used: nat, made: seq<T>)

  function PlayEdit<T>(p: Progress<T>, edit: Edit<T>, left: seq<T>): (r: Option<Progress<T>>)
    requires p.used <= |left|
    ensures r.Some? ==> r.value.used <= |left|
  {
    if !edit.Insert? && p.used == |left| then None
    else
      match edit
      case Keep => Some(Progress(p.used + 1, p.made + [left[p.used]]))
      case Substitute(item) => Some(Progress(p.used + 1, p.made + [item]))
      case Insert(item) => Some(Progress(p.used, p.made + [item]))
      case Delete => Some(Progress(p.used + 1, p.made))
  }

  /** Plays edits from left to right. */
  function Play<T>(script: seq<Edit<T>>, left: seq<T>): (r: Option<Progress<T>>)
    ensures r.Some? ==> r.value.used <= |left|
  {
    if script == [] then Some(Progress(0, []))
    else
      match Play(script[..|script| - 1], left)
      case None => None
      case Some(p) => PlayEdit(p, script[|script| - 1], left)
  }

  function Cost<T>(script: seq<Edit<T>>): nat {
    if script == [] then 0
    else Cost(script[..|script| - 1]) + if script[|script| - 1].Keep? then 0 else 1
  }

  predicate Transforms<T(==)>(script: seq<Edit<T>>, left: seq<T>, right: seq<T>) {
    Play(script, left) == Some(Progress(|left|, right))
  }

  /** The least cost of any script that turns one into the other. */
  ghost predicate IsEditDistance<T(!new)>(left: seq<T>, right: seq<T>, distance: nat) {
    && (exists script: seq<Edit<T>> :: Transforms(script, left, right) && Cost(script) == distance)
    && (forall script: seq<Edit<T>> :: Transforms(script, left, right) ==> distance <= Cost(script))
  }

  // -------------------------------------------------------------- the recurrence

  function Min(a: nat, b: nat): nat {
    if a <= b then a else b
  }

  /** The cell of a row, from the cells to its left, above it and diagonally above. */
  function Cell(beside: nat, above: nat, diagonal: nat, same: bool): nat {
    Min(Min(beside + 1, above + 1), diagonal + if same then 0 else 1)
  }

  /** The distance between the first i items of one side and the first j of the other. */
  function Distance<T(==)>(left: seq<T>, right: seq<T>, i: nat, j: nat): nat
    requires i <= |left| && j <= |right|
    decreases i + j
  {
    if i == 0 then j
    else if j == 0 then i
    else
      Cell(Distance(left, right, i, j - 1), Distance(left, right, i - 1, j), Distance(left, right, i - 1, j - 1),
           left[i - 1] == right[j - 1])
  }

  lemma DistanceCell<T>(left: seq<T>, right: seq<T>, i: nat, j: nat)
    requires i <= |left| && j <= |right|
    ensures i == 0 ==> Distance(left, right, i, j) == j
    ensures j == 0 ==> Distance(left, right, i, j) == i
    ensures i > 0 && j > 0 ==>
              Distance(left, right, i, j)
              == Cell(Distance(left, right, i, j - 1), Distance(left, right, i - 1, j), Distance(left, right, i - 1, j - 1),
                      left[i - 1] == right[j - 1])
  {
  }

  /** No script that produces a prefix of `right` undercuts the recurrence. */
  lemma {:induction false} NoScriptIsCheaper<T>(script: seq<Edit<T>>, left: seq<T>, right: seq<T>)
    requires Play(script, left).Some? && Play(script, left).value.made <= right
    ensures Distance(left, right, Play(script, left).value.used, |Play(script, left).value.made|) <= Cost(script)
  {
    if script != [] {
      NoScriptIsCheaper(script[..|script| - 1], left, right);
    }
  }

  lemma Extend<T>(front: seq<Edit<T>>, edit: Edit<T>, left: seq<T>)
    requires Play(front, left).Some?
    ensures Play(front + [edit], left) == PlayEdit(Play(front, left).value, edit, left)
    ensures Cost(front + [edit]) == Cost(front) + if edit.Keep? then 0 else 1
  {
    assert (front + [edit])[..|front|] == front;
  }

  lemma NoEdits<T>(left: seq<T>)
    ensures Play([], left) == Some(Progress(0, [])) && Cost<T>([]) == 0
  {
  }

  /** Some script costs no more than the recurrence says. */
  lemma {:induction false} SomeScriptCosts<T>(left: seq<T>, right: seq<T>, i: nat, j: nat) returns (script: seq<Edit<T>>)
    requires i <= |left| && j <= |right|
    ensures Play(script, left) == Some(Progress(i, right[..j])) && Cost(script) == Distance(left, right, i, j)
    decreases i + j
  {
    hide Distance, Play, Cost;
    DistanceCell(left, right, i, j);
    if j > 0 { DistanceCell(left, right, i, j - 1); }
    if i > 0 { DistanceCell(left, right, i - 1, j); }
    assert right[..0] == [];
    assert j > 0 ==> right[..j] == right[..j - 1] + [right[j - 1]];
    var d := Distance(left, right, i, j);
    if i == 0 && j == 0 {
      script := [];
      NoEdits(left);
    } else if j > 0 && (i == 0 || d == Distance(left, right, i, j - 1) + 1) {
      var front := SomeScriptCosts(left, right, i, j - 1);
      Extend(front, Insert(right[j - 1]), left);
      script := front + [Insert(right[j - 1])];
    } else if j == 0 || d == Distance(left, right, i - 1, j) + 1 {
      var front := SomeScriptCosts(left, right, i - 1, j);
      Extend(front, Delete, left);
      script := front + [Delete];
    } else {
      var front := SomeScriptCosts(left, right, i - 1, j - 1);
      var edit := if left[i - 1] == right[j - 1] then Keep else Substitute(right[j - 1]);
      Extend(front, edit, left);
      script := front + [edit];
    }
  }

  /** The recurrence computes the least cost over all scripts. */
  lemma DistanceIsEditDistance<T(!new)>(left: seq<T>, right: seq<T>)
    ensures IsEditDistance(left, right, Distance(left, right, |left|, |right|))
  {
    var script := SomeScriptCosts(left, right, |left|, |right|);
    assert right[..|right|] == right;
    assert Transforms(script, left, right);
    forall s: seq<Edit<T>> | Transforms(s, left, right) ensures Distance(left, right, |left|, |right|) <= Cost(s) {
      NoScriptIsCheaper(s, left, right);
    }
  }

  /** The order of the two inputs does not matter, which is why the method may
      put the shorter one along the columns. */
  lemma {:induction false} DistanceIsSymmetric<T>(left: seq<T>, right: seq<T>, i: nat, j: nat)
    requires i <= |left| && j <= |right|
    ensures Distance(left, right, i, j) == Distance(right, left, j, i)
    decreases i + j
  {
    hide Distance;
    DistanceCell(left, right, i, j);
    DistanceCell(right, left, j, i);
    if i > 0 && j > 0 {
      DistanceIsSymmetric(left, right, i - 1, j);
      DistanceIsSymmetric(left, right, i, j - 1);
      DistanceIsSymmetric(left, right, i - 1, j - 1);
    }
  }

  /** The distance never exceeds the longer input, so the counts in the rows stay
      within the lengths of the inputs. */
  lemma {:induction false} DistanceAtMost<T>(left: seq<T>, right: seq<T>, i: nat, j: nat)
    requires i <= |left| && j <= |right|
    ensures Distance(left, right, i, j) <= if i >= j then i else j
    decreases i + j
  {
    if i > 0 && j > 0 {
      DistanceAtMost(left, right, i - 1, j - 1);
    }
  }

  /** Reversing the roles reverses the scripts: the least cost is the same. */
  lemma EditDistanceIsSymmetric<T(!new)>(left: seq<T>, right: seq<T>, distance: nat)
    ensures IsEditDistance(left, right, distance) <==> IsEditDistance(right, left, distance)
  {
    DistanceIsEditDistance(left, right);
    DistanceIsEditDistance(right, left);
    DistanceIsSymmetric(left, right, |left|, |right|);
    OnlyOneDistance(left, right, distance, Distance(left, right, |left|, |right|));
    OnlyOneDistance(right, left, distance, Distance(left, right, |left|, |right|));
  }

  lemma OnlyOneDistance<T(!new)>(left: seq<T>, right: seq<T>, a: nat, b: nat)
    requires IsEditDistance(left, right, b)
    ensures IsEditDistance(left, right, a) <==> a == b
  {
  }

  // ------------------------------------------------------------------ the method

  /** What a cell is computed from never exceeds a length, so that adding one
      stays within a `usize`. */
  lemma NextCell<T>(rows: seq<T>, columns: seq<T>, i: nat, k: nat, beside: nat, above: nat, diagonal: nat)
    requires i < |rows| && k < |columns| <= |rows|
    requires beside == Distance(rows, columns, i + 1, k)
    requires above == Distance(rows, columns, i, k + 1) && diagonal == Distance(rows, columns, i, k)
    ensures beside <= |rows| && above <= |rows| && diagonal <= |rows|
    ensures Distance(rows, columns, i + 1, k + 1)
         == Min(Min(beside + 1, above + 1), diagonal + if rows[i] == columns[k] then 0 else 1)
  {
    hide Distance;
    DistanceCell(rows, columns, i + 1, k + 1);
    DistanceAtMost(rows, columns, i + 1, k);
    DistanceAtMost(rows, columns, i, k + 1);
    DistanceAtMost(rows, columns, i, k);
  }

  method EditDistance<T(==, !new)>(left: seq<T>, right: seq<T>) returns (distance: nat)
    ensures IsEditDistance(left, right, distance)
    ensures distance <= if |left| >= |right| then |left| else |right|
  {
    hide Distance, IsEditDistance;
    var rows, columns := left, right;
    if |left| < |right| {
      rows, columns := right, left;
    }
    var previous := new nat[|columns| + 1](j => j);
    var current := new nat[|columns| + 1](_ => 0);
    forall j | 0 <= j <= |columns| ensures Distance(rows, columns, 0, j) == j {
      DistanceCell(rows, columns, 0, j);
    }
    for i := 0 to |rows|
      invariant previous.Length == current.Length == |columns| + 1 && previous != current
      invariant fresh(previous) && fresh(current)
      invariant forall j :: 0 <= j <= |columns| ==> previous[j] == Distance(rows, columns, i, j)
    {
      current[0] := i + 1;
      DistanceCell(rows, columns, i + 1, 0);
      for k := 0 to |columns|
        invariant forall j :: 0 <= j <= |columns| ==> previous[j] == Distance(rows, columns, i, j)
        invariant forall j :: 0 <= j <= k ==> current[j] == Distance(rows, columns, i + 1, j)
      {
        NextCell(rows, columns, i, k, current[k], previous[k + 1], previous[k]);
        current[k + 1] := Min(Min(current[k] + 1, previous[k + 1] + 1),
                              previous[k] + if rows[i] == columns[k] then 0 else 1);
      }
      previous, current := current, previous;
    }
    DistanceAtMost(rows, columns, |rows|, |columns|);
    DistanceIsEditDistance(rows, columns);
    EditDistanceIsSymmetric(left, right, previous[|columns|]);
    return previous[|columns|];
  }
}
