/** `Array.prototype.filter` and `slice(0, n)` on sequences, with the facts the engine needs. */
module Seqs {

  /** The elements of `s` that satisfy `p`, in their original order. */
  function Filter<T(!new)>(s: seq<T>, p: T -> bool): (r: seq<T>)
    ensures |r| <= |s|
    ensures forall x :: x in r <==> x in s && p(x)
    ensures multiset(r) <= multiset(s)
  {
    if s == [] then []
    else
      assert s == [s[0]] + s[1..];
      (if p(s[0]) then [s[0]] else []) + Filter(s[1..], p)
  }

  /** `s.slice(0, n)`: the first `n` elements, or all of them when there are fewer. */
  function Take<T(!new)>(s: seq<T>, n: nat): (r: seq<T>)
    ensures |r| == if |s| < n then |s| else n
    ensures r == s[..|r|]
  {
    if |s| <= n then s else s[..n]
  }

  lemma {:induction false} FilterConcat<T(!new)>(a: seq<T>, b: seq<T>, p: T -> bool)
    ensures Filter(a + b, p) == Filter(a, p) + Filter(b, p)
  {
    if a == [] {
      assert a + b == b;
    } else {
      assert (a + b)[1..] == a[1..] + b;
      FilterConcat(a[1..], b, p);
    }
  }

  /** Filtering with a predicate that every element satisfies changes nothing. */
  lemma {:induction false} FilterKeepsAll<T(!new)>(s: seq<T>, p: T -> bool)
    requires forall x :: x in s ==> p(x)
    ensures Filter(s, p) == s
  {
    if s != [] {
      FilterKeepsAll(s[1..], p);
    }
  }

  /** One step of a filter pipeline: applying `p` when `active` holds, to what an earlier
      stage kept, is filtering once with the conjunction. */
  lemma {:induction false} FilterStep<T(!new)>(s: seq<T>, prev: T -> bool, active: bool, p: T -> bool, next: T -> bool)
    requires forall x :: next(x) == (prev(x) && (active ==> p(x)))
    ensures (if active then Filter(Filter(s, prev), p) else Filter(s, prev)) == Filter(s, next)
  {
    if s != [] {
      FilterStep(s[1..], prev, active, p, next);
      var head := if prev(s[0]) then [s[0]] else [];
      assert Filter(s, prev) == head + Filter(s[1..], prev);
      assert Filter(s, next) == (if next(s[0]) then [s[0]] else []) + Filter(s[1..], next);
      if active {
        FilterConcat(head, Filter(s[1..], prev), p);
        if prev(s[0]) {
          assert Filter(head, p) == (if p(s[0]) then [s[0]] else []) + Filter([], p);
        }
      }
    }
  }
}
