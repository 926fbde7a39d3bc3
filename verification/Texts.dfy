// Joining texts with a separator, as the JSON and plain-text writers do.
module Texts {

  function Join(parts: seq<string>, separator: string): string {
    if parts == [] then ""
    else if |parts| == 1 then parts[0]
    else parts[0] + separator + Join(parts[1..], separator)
  }

  lemma {:induction false} JoinLength(parts: seq<string>, separator: string, bound: nat)
    requires forall i :: 0 <= i < |parts| ==> |parts[i]| <= bound
    ensures |Join(parts, separator)| <= |parts| * (bound + |separator|)
  {
    if |parts| > 1 {
      JoinLength(parts[1..], separator, bound);
      assert |parts| * (bound + |separator|) == (|parts| - 1) * (bound + |separator|) + (bound + |separator|);
    } else if |parts| == 1 {
      assert |parts| * (bound + |separator|) == bound + |separator|;
    }
  }

  /** Joining one more part. */
  lemma {:induction false} JoinAppend(parts: seq<string>, last: string, separator: string)
    ensures Join(parts + [last], separator) == if parts == [] then last else Join(parts, separator) + separator + last
  {
    if |parts| > 1 {
      assert (parts + [last])[1..] == parts[1..] + [last];
      JoinAppend(parts[1..], last, separator);
      assert parts[0] + separator + (Join(parts[1..], separator) + separator + last)
          == parts[0] + separator + Join(parts[1..], separator) + separator + last;
    } else if |parts| == 1 {
      assert (parts + [last])[1..] == [last];
    } else {
      assert parts + [last] == [last];
    }
  }

  /** The join of the first parts is where the join of all begins. */
  lemma {:induction false} JoinGrows(parts: seq<string>, n: nat, separator: string)
    requires n <= |parts|
    ensures Join(parts[..n], separator) <= Join(parts, separator)
    decreases |parts| - n
  {
    if n == |parts| {
      assert parts[..n] == parts;
    } else {
      assert parts[..n + 1] == parts[..n] + [parts[n]];
      JoinAppend(parts[..n], parts[n], separator);
      JoinGrows(parts, n + 1, separator);
    }
  }
}
