/**
 * Depth-first listings as sets of paths. A tree walk is given by a function from the path walked so far
 * to the children visited next. The walk lists every valid path once, in dictionary order: that is what
 * a preorder with ascending siblings means, and it leaves no freedom to the listing.
 */
module Preorder {
  import opened Basics

  type Path = seq<Pid>
  type Next = Path -> seq<Pid>

  ghost predicate Valid(next: Next, q: Path) {
    forall i :: 0 <= i < |q| ==> q[i] in next(q[..i])
  }

  ghost predicate Bounded(next: Next, n: nat) {
    forall q: Path :: Valid(next, q) ==> |q| <= n
  }

  ghost predicate SiblingsAscend(next: Next) {
    forall q: Path :: Valid(next, q) ==> Ascending(next(q))
  }

  lemma ValidChild(next: Next, path: Path, c: Pid)
    requires Valid(next, path) && c in next(path)
    ensures Valid(next, path + [c])
  {
    var q := path + [c];
    forall i | 0 <= i < |q| ensures q[i] in next(q[..i]) {
      assert q[..i] == path[..i];
      if i == |path| { assert q[..i] == path; }
    }
  }

  lemma ValidPrefix(next: Next, q: Path, k: nat)
    requires Valid(next, q) && k <= |q|
    ensures Valid(next, q[..k])
  {
    forall i | 0 <= i < k ensures q[..k][i] in next(q[..k][..i]) {
      assert q[..k][..i] == q[..i];
    }
  }

  /** The walk below path, from the i-th child on. */
  ghost function From(next: Next, path: Path, i: nat, n: nat): seq<Path>
    requires Bounded(next, n) && Valid(next, path) && i <= |next(path)|
    decreases n - |path|, |next(path)| - i
  {
    if i == |next(path)| then [] else
      var q := path + [next(path)[i]];
      ValidChild(next, path, next(path)[i]);
      assert |path| < |q| <= n;
      [q] + From(next, q, 0, n) + From(next, path, i + 1, n)
  }

  /** Visiting the i-th child moves its part of the listing from what is left to what is done. */
  lemma VisitChild(next: Next, path: Path, i: nat, n: nat, done: seq<Path>)
    requires Bounded(next, n) && Valid(next, path) && i < |next(path)|
    ensures Valid(next, path + [next(path)[i]]) && |path| < n
    ensures done + From(next, path, i, n)
      == (done + [path + [next(path)[i]]] + From(next, path + [next(path)[i]], 0, n)) + From(next, path, i + 1, n)
  {
    var q := path + [next(path)[i]];
    ValidChild(next, path, next(path)[i]);
    assert |q| <= n;
    Regroup(done, [q], From(next, q, 0, n), From(next, path, i + 1, n));
  }

  lemma VisitedAll(next: Next, path: Path, n: nat, done: seq<Path>)
    requires Bounded(next, n) && Valid(next, path)
    ensures done + From(next, path, |next(path)|, n) == done
  {
  }

  /** The dictionary order on paths: a prefix comes first, otherwise the first difference decides. */
  ghost predicate Before(p: Path, q: Path) {
    p < q || exists k :: Splits(p, q, k)
  }

  ghost predicate Splits(p: Path, q: Path, k: int) {
    0 <= k < |p| && k < |q| && (forall t :: 0 <= t < k ==> p[t] == q[t]) && p[k] < q[k]
  }

  ghost predicate Ordered(l: seq<Path>) {
    forall i, j :: 0 <= i < j < |l| ==> Before(l[i], l[j])
  }

  lemma BeforeAsym(p: Path, q: Path)
    requires Before(p, q)
    ensures p != q && !Before(q, p)
  {
    if k :| Splits(p, q, k) {
      assert forall j :: Splits(q, p, j) ==> j == k;
    } else {
      assert forall j :: 0 <= j < |p| ==> p[j] == q[j];
    }
  }

  /** The path extends the prefix through one of the children from i on. */
  ghost predicate Under(next: Next, path: Path, i: nat, q: Path)
    requires i <= |next(path)|
  {
    Valid(next, q) && path < q && q[|path|] in next(path)[i..]
  }

  /** The listing holds exactly the valid paths below the prefix. */
  lemma {:induction false} Listed(next: Next, path: Path, i: nat, n: nat, q: Path)
    requires Bounded(next, n) && Valid(next, path) && i <= |next(path)|
    ensures q in From(next, path, i, n) <==> Under(next, path, i, q)
    decreases n - |path|, |next(path)| - i
  {
    if i < |next(path)| {
      var p := path + [next(path)[i]];
      ValidChild(next, path, next(path)[i]);
      assert |path| < |p| <= n;
      Listed(next, p, 0, n, q);
      Listed(next, path, i + 1, n, q);
      FirstChild(next, path, i, q);
    }
  }

  /** The listing is in dictionary order. */
  lemma {:induction false} ListedInOrder(next: Next, path: Path, i: nat, n: nat)
    requires Bounded(next, n) && Valid(next, path) && i <= |next(path)|
    requires SiblingsAscend(next)
    ensures Ordered(From(next, path, i, n))
    decreases n - |path|, |next(path)| - i
  {
    if i < |next(path)| {
      hide Before, Ordered;
      var p := path + [next(path)[i]];
      ValidChild(next, path, next(path)[i]);
      assert |path| < |p| <= n;
      ListedInOrder(next, p, 0, n);
      ListedInOrder(next, path, i + 1, n);
      ChildParts(next, path, i, n);
      OrderedJoin(p, From(next, p, 0, n), From(next, path, i + 1, n));
    } else {
      assert From(next, path, i, n) == [];
    }
  }

  lemma OrderedJoin(p: Path, a: seq<Path>, b: seq<Path>)
    requires Ordered(a) && Ordered(b)
    requires forall x :: x in a ==> Before(p, x)
    requires forall x, y :: x in [p] + a && y in b ==> Before(x, y)
    ensures Ordered([p] + a + b)
  {
    hide Before;
    OrderedConcat([p], a);
    OrderedConcat([p] + a, b);
  }

  /** A child comes before its descendants, and those before the next child's. */
  lemma ChildParts(next: Next, path: Path, i: nat, n: nat)
    requires Bounded(next, n) && Valid(next, path) && i < |next(path)| && Ascending(next(path))
    requires Valid(next, path + [next(path)[i]])
    ensures var p := path + [next(path)[i]];
      (forall x :: x in From(next, p, 0, n) ==> Before(p, x))
      && forall x, y :: x in [p] + From(next, p, 0, n) && y in From(next, path, i + 1, n) ==> Before(x, y)
  {
    hide Bounded, Before, From, Valid;
    var p := path + [next(path)[i]];
    forall x | x in From(next, p, 0, n) ensures p < x && Before(p, x) {
      Listed(next, p, 0, n, x);
      PrefixBefore(p, x);
    }
    forall x, y | x in [p] + From(next, p, 0, n) && y in From(next, path, i + 1, n) ensures Before(x, y) {
      Listed(next, path, i + 1, n, y);
      ChildBeforeLater(next, path, i, x, y);
    }
  }

  lemma PrefixBefore(p: Path, q: Path)
    requires p < q
    ensures Before(p, q)
  {
  }

  lemma ChildBeforeLater(next: Next, path: Path, i: nat, x: Path, y: Path)
    requires i < |next(path)| && Ascending(next(path))
    requires path + [next(path)[i]] <= x
    requires Under(next, path, i + 1, y)
    ensures Before(x, y)
  {
    assert x[|path|] == (path + [next(path)[i]])[|path|];
    forall t | 0 <= t < |path| ensures x[t] == y[t] {
      assert x[t] == (path + [next(path)[i]])[t];
    }
    assert Splits(x, y, |path|);
  }

  lemma OrderedConcat(a: seq<Path>, b: seq<Path>)
    requires Ordered(a) && Ordered(b)
    requires forall x, y :: x in a && y in b ==> Before(x, y)
    ensures Ordered(a + b)
  {
    forall i, j | 0 <= i < j < |a + b| ensures Before((a + b)[i], (a + b)[j]) {
      if i < |a| <= j {
        assert a[i] in a && b[j - |a|] in b;
      }
    }
  }

  lemma FirstChild(next: Next, path: Path, i: nat, q: Path)
    requires Valid(next, path) && i < |next(path)|
    ensures Under(next, path, i, q) <==>
      q == path + [next(path)[i]]
      || (Valid(next, path + [next(path)[i]]) && Under(next, path + [next(path)[i]], 0, q))
      || Under(next, path, i + 1, q)
  {
    var c := next(path)[i];
    var p := path + [c];
    ValidChild(next, path, c);
    if Under(next, path, i, q) && q[|path|] == c && q != p {
      assert p < q;
      assert q[..|p|] == p;
      assert q[|p|] in next(q[..|p|]);
    }
  }

  /** A listing in dictionary order is determined by its members: no iteration order can show in it. */
  lemma {:induction false} OrderedUnique(a: seq<Path>, b: seq<Path>)
    requires Ordered(a) && Ordered(b)
    requires forall q :: q in a <==> q in b
    ensures a == b
  {
    assert a != [] ==> a[0] in b;
    assert b != [] ==> b[0] in a;
    if a != [] && b != [] {
      if a[0] != b[0] {
        var i :| 0 <= i < |b| && b[i] == a[0];
        var j :| 0 <= j < |a| && a[j] == b[0];
        assert Before(b[0], b[i]) && Before(a[0], a[j]);
        BeforeAsym(a[0], b[0]);
      }
      forall q ensures q in a[1..] <==> q in b[1..] {
        TailMembers(a, q);
        TailMembers(b, q);
      }
      OrderedUnique(a[1..], b[1..]);
    }
  }

  lemma TailMembers(a: seq<Path>, q: Path)
    requires Ordered(a) && a != []
    ensures q in a[1..] <==> q in a && q != a[0]
  {
    if q in a[1..] {
      var i :| 0 <= i < |a[1..]| && a[1..][i] == q;
      assert Before(a[0], a[i + 1]);
      BeforeAsym(a[0], q);
    }
  }

  /** Entry j is the nearest entry before i on a higher level, and it is the parent of entry i. */
  ghost predicate ParentAt(l: seq<Path>, i: nat, j: nat)
    requires i < |l| && l[i] != []
  {
    j < i && l[j] == l[i][..|l[i]| - 1] && forall k :: j < k < i ==> |l[k]| >= |l[i]|
  }

  /** In the listing below a path, the parent of an entry is the nearest earlier entry one level up. */
  lemma NearestParent(next: Next, path: Path, n: nat, i: nat)
    requires Bounded(next, n) && Valid(next, path) && SiblingsAscend(next)
    requires i < |From(next, path, 0, n)| && |From(next, path, 0, n)[i]| > |path| + 1
    ensures exists j :: ParentAt(From(next, path, 0, n), i, j)
  {
    var l := From(next, path, 0, n);
    ListedInOrder(next, path, 0, n);
    var q := l[i];
    assert q in l;
    var parent := q[..|q| - 1];
    ParentListed(next, path, n, q);
    var j :| 0 <= j < |l| && l[j] == parent;
    ParentPrecedes(l, i, j);
  }

  lemma ParentListed(next: Next, path: Path, n: nat, q: Path)
    requires Bounded(next, n) && Valid(next, path)
    requires q in From(next, path, 0, n) && |q| > |path| + 1
    ensures q[..|q| - 1] in From(next, path, 0, n)
  {
    Listed(next, path, 0, n, q);
    Listed(next, path, 0, n, q[..|q| - 1]);
    ParentUnder(next, path, q);
  }

  lemma ParentUnder(next: Next, path: Path, q: Path)
    requires Under(next, path, 0, q) && |q| > |path| + 1
    ensures Under(next, path, 0, q[..|q| - 1])
  {
    ValidPrefix(next, q, |q| - 1);
  }

  lemma ParentPrecedes(l: seq<Path>, i: nat, j: nat)
    requires Ordered(l) && i < |l| && j < |l| && l[i] != []
    requires l[j] == l[i][..|l[i]| - 1]
    ensures ParentAt(l, i, j)
  {
    BeforeAsym(l[j], l[i]);
    assert j < i;
    forall k | j < k < i ensures |l[k]| >= |l[i]| {
      assert Before(l[j], l[k]) && Before(l[k], l[i]);
      Between(l[j], l[k], l[i]);
    }
  }

  lemma Between(p: Path, x: Path, q: Path)
    requires p < q && Before(p, x) && Before(x, q)
    ensures p < x
  {
    BeforeAsym(x, q);
    assert forall k :: Splits(p, x, k) ==> Splits(q, x, k);
  }
}
