/** The few JavaScript built-in behaviours the extension relies on: truthiness of a nullable number,
    `x || 0`, `Array.prototype.filter` and `Array.prototype.slice(0, end)`. */
module Js {
  import opened Wrappers

  /** `if (n)` for a nullable number: `null` and `0` are falsy. */
  predicate Truthy(n: Option<int>) {
    n.Some? && n.value != 0
  }

  /** `n || 0` for a nullable number. */
  function OrZero(n: Option<int>): (r: int)
    ensures Truthy(n) ==> Some(r) == n
    ensures !Truthy(n) ==> r == 0
  {
    if Truthy(n) then n.value else 0
  }

  /** `s.filter(keep)`: the elements of `s` that `keep` accepts, in their original order. */
  function Filter<T>(s: seq<T>, keep: T -> bool): (r: seq<T>)
    ensures |r| <= |s|
    ensures forall x :: x in r ==> x in s && keep(x)
  {
    if |s| == 0 then []
    else if keep(s[0]) then [s[0]] + Filter(s[1..], keep)
    else Filter(s[1..], keep)
  }

  /** An element is kept exactly when it occurs in `s` and `keep` accepts it. */
  lemma {:induction false} FilterMembership<T>(s: seq<T>, keep: T -> bool, x: T)
    ensures x in Filter(s, keep) <==> x in s && keep(x)
  {
    if |s| > 0 {
      FilterMembership(s[1..], keep, x);
      assert s == [s[0]] + s[1..];
    }
  }

  /** Filtering distributes over concatenation: this fixes the order of what is kept. */
  lemma {:induction false} FilterConcat<T>(a: seq<T>, b: seq<T>, keep: T -> bool)
    ensures Filter(a + b, keep) == Filter(a, keep) + Filter(b, keep)
  {
    if |a| == 0 {
      assert a + b == b;
    } else {
      assert (a + b)[1..] == a[1..] + b;
      FilterConcat(a[1..], b, keep);
    }
  }

  /** When every element is accepted, the filter returns its input. */
  lemma {:induction false} FilterKeepsAll<T>(s: seq<T>, keep: T -> bool)
    requires forall i :: 0 <= i < |s| ==> keep(s[i])
    ensures Filter(s, keep) == s
  {
    if |s| > 0 {
      FilterKeepsAll(s[1..], keep);
      assert s == [s[0]] + s[1..];
    }
  }

  /** When no element is accepted, the filter returns the empty sequence. */
  lemma {:induction false} FilterDropsAll<T>(s: seq<T>, keep: T -> bool)
    requires forall i :: 0 <= i < |s| ==> !keep(s[i])
    ensures Filter(s, keep) == []
  {
    if |s| > 0 {
      FilterDropsAll(s[1..], keep);
    }
  }

  /** `s.slice(0, end)`, including JavaScript's reading of a negative `end` as counted from the back. */
  function SlicePrefix<T>(s: seq<T>, end: int): (r: seq<T>)
    ensures 0 <= end ==> |r| == if end < |s| then end else |s|
    ensures end < 0 ==> |r| == if |s| + end < 0 then 0 else |s| + end
    ensures r == s[..|r|]
  {
    var stop := if end < 0 then (if |s| + end < 0 then 0 else |s| + end)
                else (if end < |s| then end else |s|);
    s[..stop]
  }
}
