/** Duplicate-free sequences in first-appearance order: what every "append unless already in the map" loop computes. */
module Sequences {
  ghost predicate NoDup<T>(s: seq<T>) {
    forall i, j :: 0 <= i < j < |s| ==> s[i] != s[j]
  }

  /** The distinct elements of s, each at the place where it first appears. */
  function FirstSeen<T(==)>(s: seq<T>): seq<T> {
    if s == [] then []
    else
      var r := FirstSeen(s[..|s| - 1]);
      if s[|s| - 1] in s[..|s| - 1] then r else r + [s[|s| - 1]]
  }

  /** The first position of x in s. */
  function FirstIndex<T(==)>(s: seq<T>, x: T): (k: nat)
    requires x in s
    ensures k < |s| && s[k] == x && x !in s[..k]
  {
    if s[0] == x then 0 else
      assert s == [s[0]] + s[1..];
      var k := FirstIndex(s[1..], x);
      assert s[..k + 1] == [s[0]] + s[1..][..k];
      k + 1
  }

  lemma FirstIndexUnique<T>(s: seq<T>, x: T, k: nat)
    requires k < |s| && s[k] == x && x !in s[..k]
    ensures FirstIndex(s, x) == k
  {
    var j := FirstIndex(s, x);
    assert forall p :: 0 <= p < k ==> s[p] in s[..k];
    assert forall p :: 0 <= p < j ==> s[p] in s[..j];
  }

  /** FirstSeen is a set-preserving, duplicate-free selection. */
  lemma {:induction false} FirstSeenMeaning<T>(s: seq<T>)
    ensures NoDup(FirstSeen(s))
    ensures forall x :: x in FirstSeen(s) <==> x in s
  {
    if s != [] {
      var n := |s| - 1;
      FirstSeenMeaning(s[..n]);
      assert s == s[..n] + [s[n]];
    }
  }

  /** ... and lists its elements by first position. */
  lemma {:induction false} FirstSeenOrdered<T>(s: seq<T>)
    ensures forall x :: x in FirstSeen(s) ==> x in s
    ensures forall i, j :: 0 <= i < j < |FirstSeen(s)| ==>
              FirstIndex(s, FirstSeen(s)[i]) < FirstIndex(s, FirstSeen(s)[j])
  {
    FirstSeenMeaning(s);
    if s != [] {
      var n := |s| - 1;
      var t, r := s[..n], FirstSeen(s[..n]);
      FirstSeenOrdered(t);
      FirstSeenMeaning(t);
      forall x | x in t
        ensures FirstIndex(s, x) == FirstIndex(t, x)
      {
        var k := FirstIndex(t, x);
        assert t[..k] == s[..k];
        FirstIndexUnique(s, x, k);
      }
      if s[n] !in t {
        FirstIndexUnique(s, s[n], n);
      }
    }
  }

  /** r lists the elements of s at some positions, in the order of s. */
  ghost predicate Picked<T>(r: seq<T>, s: seq<T>, positions: seq<nat>) {
    && |r| == |positions|
    && (forall k :: 0 <= k < |r| ==> positions[k] < |s| && r[k] == s[positions[k]])
    && (forall j, k :: 0 <= j < k < |r| ==> positions[j] < positions[k])
  }

  /** Going through s one by one, the last element is picked or not. */
  lemma PickedStep<T>(r: seq<T>, s: seq<T>, positions: seq<nat>, keep: bool) returns (positions': seq<nat>)
    requires s != [] && Picked(r, s[..|s| - 1], positions)
    ensures Picked(if keep then r + [s[|s| - 1]] else r, s, positions')
    ensures forall i :: 0 <= i < |s| - 1 ==> (i in positions' <==> i in positions)
    ensures |s| - 1 in positions' <==> keep
  {
    var n := |s| - 1;
    positions' := positions;
    assert forall k :: 0 <= k < |r| ==> positions[k] < n && s[positions[k]] == r[k];
    if keep {
      positions' := positions + [n];
      var r' := r + [s[n]];
      assert positions'[|positions|] == n;
      assert forall k :: 0 <= k < |r| ==> r'[k] == r[k] && positions'[k] == positions[k];
      assert forall i :: i in positions' <==> i in positions || i == n;
    }
    assert n !in positions;
  }

  ghost predicate Ranked(s: seq<int>, rank: int -> int) {
    forall i, j :: 0 <= i < j < |s| ==> rank(s[i]) < rank(s[j])
  }

  lemma RankedLast(a: seq<int>, rank: int -> int, x: int)
    requires Ranked(a, rank) && x in a
    ensures rank(x) <= rank(a[|a| - 1])
    ensures x in a[..|a| - 1] <==> x != a[|a| - 1]
    ensures rank(x) == rank(a[|a| - 1]) ==> x == a[|a| - 1]
  {
    var i :| 0 <= i < |a| && a[i] == x;
    assert i < |a| - 1 ==> a[..|a| - 1][i] == x;
  }

  /** A duplicate-free list is determined by its set of elements and a strict ranking it is sorted by. */
  lemma {:induction false} RankedUnique(a: seq<int>, b: seq<int>, rank: int -> int)
    requires forall x :: x in a <==> x in b
    requires Ranked(a, rank) && Ranked(b, rank)
    ensures a == b
    decreases |a|
  {
    Inhabited(a, b);
    Inhabited(b, a);
    if |a| > 0 {
      var m, n := |a| - 1, |b| - 1;
      var x, y := a[m], b[n];
      assert x in a && y in b;
      RankedLast(a, rank, y);
      RankedLast(b, rank, x);
      assert x == y;
      forall z
        ensures z in a[..m] <==> z in b[..n]
      {
        if z in a {
          RankedLast(a, rank, z);
          RankedLast(b, rank, z);
        }
        assert z in a[..m] ==> z in a;
        assert z in b[..n] ==> z in b;
      }
      RankedUnique(a[..m], b[..n], rank);
      assert a == a[..m] + [x] && b == b[..n] + [y];
    }
  }

  lemma Inhabited(a: seq<int>, b: seq<int>)
    requires forall x :: x in a ==> x in b
    ensures |a| > 0 ==> |b| > 0
  {
    if |a| > 0 {
      var x := a[0];
      assert x in a;
    }
  }

  /** Two sequences with equal multisets have the same elements; one is duplicate-free when the other is. */
  lemma PermutationKeepsNoDup<T>(s: seq<T>, t: seq<T>)
    requires multiset(s) == multiset(t)
    ensures |s| == |t|
    ensures forall x :: x in s <==> x in t
    ensures NoDup(s) ==> NoDup(t)
  {
    assert |s| == |multiset(s)| && |t| == |multiset(t)|;
    forall x
      ensures x in s <==> x in t
    {
      assert x in s <==> x in multiset(s);
      assert x in t <==> x in multiset(t);
    }
    if NoDup(s) && !NoDup(t) {
      var i, j :| 0 <= i < j < |t| && t[i] == t[j];
      MultiplicityTwo(t, i, j);
      MultiplicityOne(s, t[i]);
      assert false;
    }
  }

  lemma MultiplicityTwo<T>(t: seq<T>, i: nat, j: nat)
    requires i < j < |t| && t[i] == t[j]
    ensures multiset(t)[t[i]] >= 2
  {
    assert t == t[..j] + [t[j]] + t[j + 1..];
    assert t[..j][i] == t[i];
    assert multiset(t) == multiset(t[..j]) + multiset([t[j]]) + multiset(t[j + 1..]);
    assert t[i] in multiset(t[..j]);
  }

  lemma {:induction false} MultiplicityOne<T>(s: seq<T>, x: T)
    requires NoDup(s)
    ensures multiset(s)[x] <= 1
  {
    if s != [] {
      var n := |s| - 1;
      MultiplicityOne(s[..n], x);
      assert s == s[..n] + [s[n]];
      assert multiset(s) == multiset(s[..n]) + multiset{s[n]};
      if s[n] == x {
        assert x !in s[..n];
        assert x !in multiset(s[..n]);
      }
    }
  }

  lemma MultisetSplit<T>(s: seq<T>)
    requires s != []
    ensures multiset(s) == multiset(s[..|s| - 1]) + multiset{s[|s| - 1]}
  {
    assert s == s[..|s| - 1] + [s[|s| - 1]];
  }

  /** Removing one occurrence of the same element from two permutations leaves permutations. */
  lemma RemoveOne<T>(a: seq<T>, b: seq<T>, i: nat)
    requires multiset(a) == multiset(b) && i < |b| && a != [] && b[i] == a[|a| - 1]
    ensures multiset(a[..|a| - 1]) == multiset(b[..i] + b[i + 1..])
  {
    var x := b[i];
    assert a == a[..|a| - 1] + [x];
    assert b == b[..i] + [x] + b[i + 1..];
    assert multiset(b[..i] + b[i + 1..]) + multiset{x} == multiset(b);
    assert multiset(a[..|a| - 1]) == multiset(a) - multiset{x};
    assert multiset(b[..i] + b[i + 1..]) == multiset(b) - multiset{x};
  }

  function Map<A, B>(s: seq<A>, f: A -> B): (r: seq<B>)
    ensures |r| == |s| && forall i :: 0 <= i < |s| ==> r[i] == f(s[i])
  {
    seq(|s|, i requires 0 <= i < |s| => f(s[i]))
  }

  /** Mapping keeps permutations. */
  lemma {:induction false} MapPermuted<A, B>(a: seq<A>, b: seq<A>, f: A -> B)
    requires multiset(a) == multiset(b)
    ensures multiset(Map(a, f)) == multiset(Map(b, f))
    decreases |a|
  {
    PermutationKeepsNoDup(a, b);
    if a != [] {
      var n := |a| - 1;
      assert a[n] in a && a[n] in b;
      var i :| 0 <= i < |b| && b[i] == a[n];
      RemoveOne(a, b, i);
      var c := b[..i] + b[i + 1..];
      MapPermuted(a[..n], c, f);
      assert Map(a, f) == Map(a[..n], f) + [f(a[n])];
      assert Map(c, f) == Map(b, f)[..i] + Map(b, f)[i + 1..];
      assert Map(b, f) == Map(b, f)[..i] + [f(b[i])] + Map(b, f)[i + 1..];
    } else {
      assert b == [];
    }
  }
}
