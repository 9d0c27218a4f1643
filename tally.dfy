/**
  Counting occurrences, as a Python dict of counts or a `collections.Counter`
  does it: how often each value occurs, the distinct values in the order they
  were first seen (the dict's key order), and the fact that the counts of a
  set of keys covering a sequence add up to its length.
*/
module Tally {

  /** Number of occurrences of `x` in `s`. */
  function Count<T(==)>(s: seq<T>, x: T): (n: nat)
    ensures n <= |s|
    ensures n > 0 <==> x in s
  {
    if s == [] then 0
    else
      assert s == s[..|s| - 1] + [s[|s| - 1]];
      Count(s[..|s| - 1], x) + (if s[|s| - 1] == x then 1 else 0)
  }

  lemma CountSnoc<T>(s: seq<T>, z: T, x: T)
    ensures Count(s + [z], x) == Count(s, x) + (if z == x then 1 else 0)
  {
    assert (s + [z])[..|s|] == s;
  }

  predicate Distinct<T(==)>(s: seq<T>)
  {
    forall i, j :: 0 <= i < j < |s| ==> s[i] != s[j]
  }

  /** Index of the first occurrence of `x` in `s`. */
  function FirstIndex<T(==)>(s: seq<T>, x: T): (k: nat)
    requires x in s
    ensures k < |s| && s[k] == x
    ensures forall j :: 0 <= j < k ==> s[j] != x
  {
    if s[0] == x then 0 else 1 + FirstIndex(s[1..], x)
  }

  lemma FirstIndexInPrefix<T>(p: seq<T>, q: seq<T>, x: T)
    requires x in p
    ensures FirstIndex(p + q, x) == FirstIndex(p, x)
  {
    var k1, k2 := FirstIndex(p + q, x), FirstIndex(p, x);
    assert (p + q)[k2] == x;
    assert k1 <= k2 ==> p[k1] == x;
  }

  /** The values of `s` in order of first occurrence, as the keys of a dict filled from `s` in order. */
  function FirstSeen<T(==)>(s: seq<T>): seq<T>
  {
    if s == [] then []
    else
      var prev := FirstSeen(s[..|s| - 1]);
      if s[|s| - 1] in prev then prev else prev + [s[|s| - 1]]
  }

  /** FirstSeen lists every value of `s`, nothing else, and each value once. */
  lemma {:induction false} FirstSeenMembers<T>(s: seq<T>)
    ensures forall i :: 0 <= i < |s| ==> s[i] in FirstSeen(s)
    ensures forall i :: 0 <= i < |FirstSeen(s)| ==> FirstSeen(s)[i] in s
    ensures Distinct(FirstSeen(s))
  {
    if s != [] {
      var p, z := s[..|s| - 1], s[|s| - 1];
      FirstSeenMembers(p);
      assert s == p + [z];
      var prev, keys := FirstSeen(p), FirstSeen(s);
      forall i | 0 <= i < |s|
        ensures s[i] in keys
      {
        if i < |p| {
          assert s[i] == p[i];
        }
      }
      forall i | 0 <= i < |keys|
        ensures keys[i] in s
      {
        if i < |prev| {
          assert keys[i] == prev[i];
        }
      }
    }
  }

  /** FirstSeen lists values in the order of their first occurrences in `s`. */
  lemma {:induction false} FirstSeenKeepsOrder<T>(s: seq<T>, x: T, y: T)
    requires x in s && y in s && FirstIndex(s, x) < FirstIndex(s, y)
    ensures x in FirstSeen(s) && y in FirstSeen(s)
    ensures FirstIndex(FirstSeen(s), x) < FirstIndex(FirstSeen(s), y)
  {
    var p, z := s[..|s| - 1], s[|s| - 1];
    assert s == p + [z];
    var prev := FirstSeen(p);
    FirstSeenMembers(s);
    FirstSeenMembers(p);
    if y in p {
      assert x in p by {
        assert s[FirstIndex(s, x)] == p[FirstIndex(s, x)];
      }
      FirstIndexInPrefix(p, [z], x);
      FirstIndexInPrefix(p, [z], y);
      FirstSeenKeepsOrder(p, x, y);
      if z !in prev {
        FirstIndexInPrefix(prev, [z], x);
        FirstIndexInPrefix(prev, [z], y);
      }
    } else {
      // y first occurs at the end of s, so it is the key added last
      assert FirstIndex(s, y) == |p|;
      assert x in p;
      assert FirstSeen(s) == prev + [y];
      FirstIndexInPrefix(prev, [y], x);
      assert FirstIndex(prev + [y], y) == |prev|;
    }
  }

  /** The sum of the counts in `s` of each of `keys`. */
  function SumCounts<T(==)>(keys: seq<T>, s: seq<T>): nat
  {
    if keys == [] then 0
    else SumCounts(keys[..|keys| - 1], s) + Count(s, keys[|keys| - 1])
  }

  lemma {:induction false} SumCountsSnoc<T>(keys: seq<T>, s: seq<T>, z: T)
    requires Distinct(keys)
    ensures SumCounts(keys, s + [z]) == SumCounts(keys, s) + (if z in keys then 1 else 0)
  {
    if keys != [] {
      var init, k := keys[..|keys| - 1], keys[|keys| - 1];
      assert keys == init + [k];
      SumCountsSnoc(init, s, z);
      CountSnoc(s, z, k);
      assert z in keys <==> z in init || z == k;
      assert z == k ==> z !in init;
    }
  }

  /** Counting every value of `s` under distinct keys that cover it accounts for all of `s`. */
  lemma {:induction false} SumCountsCovering<T>(keys: seq<T>, s: seq<T>)
    requires Distinct(keys)
    requires forall i :: 0 <= i < |s| ==> s[i] in keys
    ensures SumCounts(keys, s) == |s|
  {
    if s == [] {
      SumCountsOfEmpty(keys, s);
    } else {
      var p, z := s[..|s| - 1], s[|s| - 1];
      assert s == p + [z];
      SumCountsCovering(keys, p);
      SumCountsSnoc(keys, p, z);
    }
  }

  lemma {:induction false} SumCountsOfEmpty<T>(keys: seq<T>, s: seq<T>)
    requires s == []
    ensures SumCounts(keys, s) == 0
  {
    if keys != [] {
      SumCountsOfEmpty(keys[..|keys| - 1], s);
    }
  }

  /** The counts of the distinct values of `s` add up to its length. */
  lemma FirstSeenCountsSum<T>(s: seq<T>)
    ensures SumCounts(FirstSeen(s), s) == |s|
  {
    FirstSeenMembers(s);
    SumCountsCovering(FirstSeen(s), s);
  }
}
