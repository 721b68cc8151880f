/** Sorting lists of process identifiers. */
module Sorting {
  import opened Basics

  method SwapBack(a: array<Pid>, j: nat)
    requires 0 < j < a.Length
    modifies a
    ensures multiset(a[..]) == old(multiset(a[..]))
    ensures a[j] == old(a[j - 1]) && a[j - 1] == old(a[j])
    ensures forall x :: 0 <= x < a.Length && x != j && x != j - 1 ==> a[x] == old(a[x])
  {
    a[j], a[j - 1] := a[j - 1], a[j];
  }

  /** Insertion sort: each element is swapped back past the larger ones before it. */
  method SortAscending(a: array<Pid>)
    modifies a
    ensures multiset(a[..]) == old(multiset(a[..]))
    ensures forall i, j :: 0 <= i < j < a.Length ==> a[i] <= a[j]
  {
    var i := 1;
    while i < a.Length
      invariant 1 <= i
      invariant multiset(a[..]) == old(multiset(a[..]))
      invariant forall x, y :: 0 <= x < y < i && y < a.Length ==> a[x] <= a[y]
    {
      var j := i;
      while j > 0 && a[j] < a[j - 1]
        invariant 0 <= j <= i < a.Length
        invariant multiset(a[..]) == old(multiset(a[..]))
        invariant forall x, y :: 0 <= x < y <= i && y != j ==> a[x] <= a[y]
      {
        SwapBack(a, j);
        j := j - 1;
      }
      i := i + 1;
    }
  }

  /** All keys of the index, collected in whatever order the map yields them, then sorted. */
  method SortedKeys<V>(m: map<Pid, V>) returns (pids: seq<Pid>)
    ensures pids == SortedOf(m.Keys)
  {
    var all: seq<Pid> := [];
    var rest := m.Keys;
    while rest != {}
      invariant rest <= m.Keys
      invariant forall p :: p in all <==> p in m.Keys - rest
      invariant Distinct(all)
      decreases rest
    {
      var p :| p in rest;
      assert p !in all;
      assert forall i :: 0 <= i < |all| ==> all[i] in all;
      all := all + [p];
      rest := rest - {p};
    }
    pids := Sorted(all);
    DistinctStays(all, pids);
    AscendingUnique(pids, SortedOf(m.Keys));
  }

  ghost predicate NonDescending(s: seq<int>) {
    forall i, j :: 0 <= i < j < |s| ==> s[i] <= s[j]
  }

  /** A sorted copy. */
  method Sorted(s: seq<Pid>) returns (r: seq<Pid>)
    ensures NonDescending(r) && multiset(r) == multiset(s)
  {
    var a := new Pid[|s|](i requires 0 <= i < |s| => s[i]);
    assert a[..] == s;
    SortAscending(a);
    r := a[..];
  }

  lemma DistinctStays(a: seq<Pid>, b: seq<Pid>)
    requires multiset(a) == multiset(b) && Distinct(a) && NonDescending(b)
    ensures Ascending(b)
    ensures forall x :: x in a <==> x in b
  {
    PermutedDistinct(a, b);
  }

  /** A permutation has the same elements, and none twice if the list has none twice. */
  lemma PermutedDistinct<T>(a: seq<T>, b: seq<T>)
    requires multiset(a) == multiset(b) && Distinct(a)
    ensures Distinct(b) && forall x :: x in a <==> x in b
  {
    forall x ensures x in a <==> x in b {
      assert x in multiset(a) <==> x in multiset(b);
    }
    forall i, j | 0 <= i < j < |b| ensures b[i] != b[j] {
      DistinctCount(a, b[i]);
      assert b == b[..j] + b[j..];
      assert b[i] in b[..j] && b[j] in b[j..];
      assert multiset(b)[b[i]] == multiset(b[..j])[b[i]] + multiset(b[j..])[b[i]];
    }
  }

  lemma {:induction false} DistinctCount<T>(a: seq<T>, x: T)
    requires Distinct(a)
    ensures multiset(a)[x] == if x in a then 1 else 0
  {
    if a != [] {
      assert a == [a[0]] + a[1..];
      DistinctCount(a[1..], x);
    }
  }

  /** Lists without repetitions and with the same elements are permutations of each other. */
  lemma DistinctPermuted<T>(a: seq<T>, b: seq<T>)
    requires Distinct(a) && Distinct(b) && forall x :: x in a <==> x in b
    ensures multiset(a) == multiset(b)
  {
    forall x ensures multiset(a)[x] == multiset(b)[x] {
      DistinctCount(a, x);
      DistinctCount(b, x);
    }
  }

  /** Sorting leaves no choice. */
  lemma {:induction false} SortedUnique(a: seq<int>, b: seq<int>)
    requires NonDescending(a) && NonDescending(b) && multiset(a) == multiset(b)
    ensures a == b
    decreases |a|
  {
    assert |a| == |multiset(a)| == |multiset(b)| == |b|;
    if a != [] {
      assert a[0] in multiset(b) && b[0] in multiset(a);
      assert a == [a[0]] + a[1..] && b == [b[0]] + b[1..];
      assert a[0] == b[0];
      Cancel(multiset(a[1..]), multiset(b[1..]), a[0]);
      SortedUnique(a[1..], b[1..]);
    }
  }

  lemma Cancel<T>(a: multiset<T>, b: multiset<T>, x: T)
    requires multiset{x} + a == multiset{x} + b
    ensures a == b
  {
    assert a == (multiset{x} + a) - multiset{x};
    assert b == (multiset{x} + b) - multiset{x};
  }

  function Map<S, T>(s: seq<S>, f: S -> T): (r: seq<T>)
    ensures |r| == |s| && forall i :: 0 <= i < |s| ==> r[i] == f(s[i])
  {
    seq(|s|, i requires 0 <= i < |s| => f(s[i]))
  }

  /** What is made of a permutation element by element is a permutation. */
  lemma {:induction false} MapPermuted<S, T>(a: seq<S>, b: seq<S>, f: S -> T)
    requires multiset(a) == multiset(b)
    ensures multiset(Map(a, f)) == multiset(Map(b, f))
    decreases |a|
  {
    hide Map;
    assert |a| == |multiset(a)| == |multiset(b)| == |b|;
    if a != [] {
      assert a[0] in multiset(b);
      var k :| 0 <= k < |b| && b[k] == a[0];
      var x, y := a[..0] + a[1..], b[..k] + b[k + 1..];
      TakeOut(a, 0, f);
      TakeOut(b, k, f);
      Cancel(multiset(x), multiset(y), a[0]);
      MapPermuted(x, y, f);
    } else {
      assert Map(a, f) == Map(b, f);
    }
  }

  lemma TakeOut<S, T>(s: seq<S>, k: nat, f: S -> T)
    requires k < |s|
    ensures multiset(s) == multiset{s[k]} + multiset(s[..k] + s[k + 1..])
    ensures multiset(Map(s, f)) == multiset{f(s[k])} + multiset(Map(s[..k] + s[k + 1..], f))
  {
    assert s == s[..k] + [s[k]] + s[k + 1..];
    var m := Map(s, f);
    assert m == m[..k] + [m[k]] + m[k + 1..];
    assert Map(s[..k] + s[k + 1..], f) == m[..k] + m[k + 1..];
  }

  ghost predicate Descends<T>(s: seq<T>, key: T -> int) {
    forall i, j :: 0 <= i < j < |s| ==> key(s[i]) >= key(s[j])
  }

  lemma {:induction false} LargestExists<T>(s: seq<T>, key: T -> int)
    requires s != []
    ensures exists i :: IsLargest(s, key, i)
  {
    var n := |s| - 1;
    if n == 0 {
      assert IsLargest(s, key, 0);
    } else {
      LargestExists(s[..n], key);
      var i :| IsLargest(s[..n], key, i);
      assert IsLargest(s, key, if key(s[n]) > key(s[i]) then n else i);
    }
  }

  predicate IsLargest<T>(s: seq<T>, key: T -> int, i: int) {
    0 <= i < |s| && forall j :: 0 <= j < |s| ==> key(s[j]) <= key(s[i])
  }

  /** The largest of the rest goes to the end of what is sorted. */
  lemma TakeLargest<T>(r: seq<T>, rest: seq<T>, key: T -> int, i: nat)
    requires Descends(r, key) && i < |rest| && IsLargest(rest, key, i)
    requires forall a, b :: 0 <= a < |r| && 0 <= b < |rest| ==> key(r[a]) >= key(rest[b])
    ensures var r', rest' := r + [rest[i]], rest[..i] + rest[i + 1..];
      && multiset(r') + multiset(rest') == multiset(r) + multiset(rest) && Descends(r', key)
      && forall a, b :: 0 <= a < |r'| && 0 <= b < |rest'| ==> key(r'[a]) >= key(rest'[b])
  {
    assert rest == rest[..i] + [rest[i]] + rest[i + 1..];
    var rest' := rest[..i] + rest[i + 1..];
    forall b | 0 <= b < |rest'| ensures key(rest[i]) >= key(rest'[b]) {
      assert rest'[b] == rest[if b < i then b else b + 1];
    }
    assert forall b :: 0 <= b < |rest'| ==> rest'[b] == rest[if b < i then b else b + 1];
  }

  /** Sorting by a key, largest first. The order of equal keys is left open, as it is for an unstable sort. */
  method SortDescending<T>(s: seq<T>, key: T -> int) returns (r: seq<T>)
    ensures Descends(r, key) && multiset(r) == multiset(s)
  {
    var rest := s;
    r := [];
    assert Descends(r, key);
    while rest != []
      invariant multiset(r) + multiset(rest) == multiset(s)
      invariant Descends(r, key)
      invariant forall i, j :: 0 <= i < |r| && 0 <= j < |rest| ==> key(r[i]) >= key(rest[j])
      decreases |rest|
    {
      LargestExists(rest, key);
      var i :| 0 <= i < |rest| && IsLargest(rest, key, i);
      TakeLargest(r, rest, key, i);
      r := r + [rest[i]];
      rest := rest[..i] + rest[i + 1..];
    }
  }
}
