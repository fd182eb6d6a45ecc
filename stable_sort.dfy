/** The result ordering: the comparator handed to `Array.prototype.sort`, the stable sort
    that applies it (as an insertion sort on an array), and what that sort guarantees. */
module StableSort {
  import opened Json
  import opened Doctors
  import opened Seqs

  /** The key the comparator orders by, ascending: fees, experience negated (so that more
      experience comes first), or one key for everyone when the sort string is unknown. */
  function Key(d: Doctor, order: Option<SortOption>): int
  {
    match order
    case Some(Fees) => d.fees
    case Some(Experience) => -d.experience
    case None => 0
  }

  /** The comparator: positive when `a` belongs after `b`. */
  function Compare(a: Doctor, b: Doctor, order: Option<SortOption>): (c: int)
    ensures c > 0 <==> Key(a, order) > Key(b, order)
    ensures c == 0 <==> Key(a, order) == Key(b, order)
  {
    match order
    case Some(Fees) => a.fees - b.fees
    case Some(Experience) => b.experience - a.experience
    case None => 0
  }

  /** Inserts `x` after the last element the comparator does not put after it. */
  function Insert(s: seq<Doctor>, x: Doctor, order: Option<SortOption>): seq<Doctor>
  {
    if s == [] || Compare(s[|s| - 1], x, order) <= 0 then s + [x]
    else Insert(s[..|s| - 1], x, order) + [s[|s| - 1]]
  }

  /** The stable sort of `s`: each element inserted in turn into the sorted prefix. */
  function Sorted(s: seq<Doctor>, order: Option<SortOption>): seq<Doctor>
  {
    if s == [] then []
    else Insert(Sorted(s[..|s| - 1], order), s[|s| - 1], order)
  }

  predicate Ascending(s: seq<Doctor>, order: Option<SortOption>)
  {
    forall i, j :: 0 <= i < j < |s| ==> Key(s[i], order) <= Key(s[j], order)
  }

  /** The elements of `s` whose key is `k`, in their order in `s`. */
  function WithKey(s: seq<Doctor>, order: Option<SortOption>, k: int): seq<Doctor>
  {
    if s == [] then []
    else WithKey(s[..|s| - 1], order, k) + (if Key(s[|s| - 1], order) == k then [s[|s| - 1]] else [])
  }

  lemma {:induction false} WithKeyConcat(a: seq<Doctor>, b: seq<Doctor>, order: Option<SortOption>, k: int)
    ensures WithKey(a + b, order, k) == WithKey(a, order, k) + WithKey(b, order, k)
  {
    if b == [] {
      assert a + b == a;
    } else {
      WithKeyConcat(a, b[..|b| - 1], order, k);
      assert (a + b)[..|a + b| - 1] == a + b[..|b| - 1];
    }
  }

  lemma {:induction false} InsertPermutes(s: seq<Doctor>, x: Doctor, order: Option<SortOption>)
    ensures multiset(Insert(s, x, order)) == multiset(s) + multiset{x}
  {
    if s != [] && Compare(s[|s| - 1], x, order) > 0 {
      InsertPermutes(s[..|s| - 1], x, order);
      assert s == s[..|s| - 1] + [s[|s| - 1]];
    }
  }

  lemma {:induction false} InsertAscending(s: seq<Doctor>, x: Doctor, order: Option<SortOption>)
    requires Ascending(s, order)
    ensures Ascending(Insert(s, x, order), order)
  {
    if s != [] && Compare(s[|s| - 1], x, order) > 0 {
      var init, last := s[..|s| - 1], s[|s| - 1];
      InsertAscending(init, x, order);
      InsertPermutes(init, x, order);
      var t := Insert(init, x, order);
      forall i | 0 <= i < |t|
        ensures Key(t[i], order) <= Key(last, order)
      {
        assert t[i] in multiset(t);
        if t[i] != x {
          assert t[i] in multiset(init);
          var j :| 0 <= j < |init| && init[j] == t[i];
        }
      }
    }
  }

  /** Among the elements with any one key, insertion keeps `x` behind the others. */
  lemma {:induction false} InsertStable(s: seq<Doctor>, x: Doctor, order: Option<SortOption>, k: int)
    ensures WithKey(Insert(s, x, order), order, k) == WithKey(s, order, k) + (if Key(x, order) == k then [x] else [])
  {
    if s != [] && Compare(s[|s| - 1], x, order) > 0 {
      var init, last := s[..|s| - 1], s[|s| - 1];
      InsertStable(init, x, order, k);
      WithKeyConcat(Insert(init, x, order), [last], order, k);
      assert WithKey([last], order, k) == WithKey([], order, k) + (if Key(last, order) == k then [last] else []);
    }
  }

  /** The sort yields keys in ascending order. */
  lemma {:induction false} SortedIsAscending(s: seq<Doctor>, order: Option<SortOption>)
    ensures Ascending(Sorted(s, order), order)
  {
    if s != [] {
      SortedIsAscending(s[..|s| - 1], order);
      InsertAscending(Sorted(s[..|s| - 1], order), s[|s| - 1], order);
    }
  }

  /** The sort rearranges its input and nothing more. */
  lemma {:induction false} SortedIsPermutation(s: seq<Doctor>, order: Option<SortOption>)
    ensures multiset(Sorted(s, order)) == multiset(s)
  {
    if s != [] {
      SortedIsPermutation(s[..|s| - 1], order);
      InsertPermutes(Sorted(s[..|s| - 1], order), s[|s| - 1], order);
      assert s == s[..|s| - 1] + [s[|s| - 1]];
    }
  }

  /** The sort is stable: the elements sharing a key keep their relative order. */
  lemma {:induction false} SortedIsStable(s: seq<Doctor>, order: Option<SortOption>, k: int)
    ensures WithKey(Sorted(s, order), order, k) == WithKey(s, order, k)
  {
    if s != [] {
      var init, last := s[..|s| - 1], s[|s| - 1];
      SortedIsStable(init, order, k);
      InsertStable(Sorted(init, order), last, order, k);
    }
  }

  /** With no recognised sort key the comparator always returns 0 and the order is kept. */
  lemma {:induction false} SortedWithoutKeyIsIdentity(s: seq<Doctor>)
    ensures Sorted(s, None) == s
  {
    if s != [] {
      SortedWithoutKeyIsIdentity(s[..|s| - 1]);
      assert s == s[..|s| - 1] + [s[|s| - 1]];
    }
  }

  /** Shifting past one element that belongs after `x` leaves the insertion unchanged. */
  lemma InsertShift(p: seq<Doctor>, j: nat, x: Doctor, order: Option<SortOption>)
    requires 0 < j <= |p| && Compare(p[j - 1], x, order) > 0
    ensures Insert(p[..j], x, order) + p[j..] == Insert(p[..j - 1], x, order) + p[j - 1..]
  {
    assert p[..j][..j - 1] == p[..j - 1];
    assert p[j - 1..] == [p[j - 1]] + p[j..];
  }

  /** One pass of the insertion sort: `a[i]` moves left past the elements of the sorted
      prefix `a[..i]` that belong after it. */
  method InsertAt(a: array<Doctor>, i: nat, order: Option<SortOption>)
    requires i < a.Length
    modifies a
    ensures a[..] == Insert(old(a[..i]), old(a[i]), order) + old(a[i + 1..])
  {
    var x := a[i];
    ghost var p, rest := a[..i], a[i + 1..];
    var j := i;
    assert p[..j] == p && p[j..] == [];
    assert a[..] == p[..j] + [a[j]] + p[j..] + rest;
    while j > 0 && Compare(a[j - 1], x, order) > 0
      invariant 0 <= j <= i
      invariant a[..] == p[..j] + [a[j]] + p[j..] + rest
      invariant Insert(p, x, order) == Insert(p[..j], x, order) + p[j..]
    {
      ghost var before := a[..];
      ShiftLayout(p, rest, j, before);
      InsertShift(p, j, x, order);
      a[j] := a[j - 1];
      assert a[..] == before[j := before[j - 1]];
      j := j - 1;
    }
    assert Insert(p[..j], x, order) == p[..j] + [x] by {
      if j > 0 {
        assert p[..j][j - 1] == p[j - 1];
      } else {
        assert p[..j] == [];
      }
    }
    ghost var before := a[..];
    PlaceLayout(p, rest, j, before, x);
    a[j] := x;
    assert a[..] == before[j := x];
  }

  /** The array layout during a pass, after copying `p[j - 1]` one place to the right. */
  lemma ShiftLayout(p: seq<Doctor>, rest: seq<Doctor>, j: nat, cur: seq<Doctor>)
    requires 0 < j <= |p| && j < |cur|
    requires cur == p[..j] + [cur[j]] + p[j..] + rest
    ensures cur[j - 1] == p[j - 1]
    ensures cur[j := cur[j - 1]] == p[..j - 1] + [p[j - 1]] + p[j - 1..] + rest
  {
    assert cur[j - 1] == p[..j][j - 1];
    assert p[..j] == p[..j - 1] + [p[j - 1]];
    assert p[j - 1..] == [p[j - 1]] + p[j..];
  }

  /** The array layout at the end of a pass, once `x` is written into the gap. */
  lemma PlaceLayout(p: seq<Doctor>, rest: seq<Doctor>, j: nat, cur: seq<Doctor>, x: Doctor)
    requires j <= |p| && j < |cur|
    requires cur == p[..j] + [cur[j]] + p[j..] + rest
    ensures cur[j := x] == p[..j] + [x] + p[j..] + rest
  {
  }

  /** `filtered.sort(comparator)` on the array of filtered doctors, as an insertion sort. */
  method SortInPlace(a: array<Doctor>, order: Option<SortOption>)
    modifies a
    ensures a[..] == Sorted(old(a[..]), order)
  {
    var i := 0;
    while i < a.Length
      invariant 0 <= i <= a.Length
      invariant a[..i] == Sorted(old(a[..])[..i], order)
      invariant a[i..] == old(a[..])[i..]
    {
      ghost var before := a[..];
      assert before[i] == old(a[..])[i] by {
        assert a[i..][0] == a[i];
      }
      assert before[i + 1..] == old(a[..])[i + 1..] by {
        assert a[i..][1..] == a[i + 1..];
      }
      InsertAt(a, i, order);
      assert old(a[..])[..i + 1][..i] == old(a[..])[..i];
      ghost var inserted := Insert(before[..i], before[i], order);
      InsertPermutes(before[..i], before[i], order);
      assert |inserted| == i + 1 by {
        assert |multiset(inserted)| == i + 1;
      }
      assert a[..i + 1] == inserted;
      i := i + 1;
    }
    assert a[..] == a[..a.Length] && old(a[..]) == old(a[..])[..a.Length];
  }
}
