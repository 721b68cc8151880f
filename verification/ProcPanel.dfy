/**
 * The process panel: flattening the parent links of a snapshot into an indented list.
 * The links may be anything, cycles and self-parents included.
 */
module ProcPanel {
  import opened Basics
  import opened Snapshot
  import opened Preorder
  import opened Sorting

  datatype MemLabel = NoMem | Kilo(n: nat) | Mega(n: nat)

  datatype Entry = Entry(pid: Pid, comm: string, depth: nat, hasKids: bool, mem: MemLabel)

  type Expansion = map<Pid, bool>

  predicate IsRoot(m: Index, p: Pid)
    requires p in m
  {
    m[p].ppid == 0 || m[p].ppid == 2 || m[p].ppid !in m
  }

  predicate Expanded(exp: Expansion, p: Pid) {
    p in exp && exp[p]
  }

  ghost function RootSet(m: Index): set<Pid> {
    set p | p in m && IsRoot(m, p)
  }

  ghost function KidSet(m: Index, p: Pid): set<Pid> {
    set q | q in m && !IsRoot(m, q) && m[q].ppid == p
  }

  /** The walk order: roots first level, then the children of expanded nodes, each ascending. */
  ghost function NextOf(m: Index, exp: Expansion, path: Path): seq<Pid> {
    if path == [] then SortedOf(RootSet(m))
    else if Expanded(exp, Last(path)) then SortedOf(KidSet(m, Last(path)))
    else []
  }

  ghost function PanelNext(m: Index, exp: Expansion): Next {
    path => NextOf(m, exp, path)
  }

  /** The i-th node of a chain: first a root, then each a child of the one before. */
  ghost predicate Link(m: Index, q: Path, i: nat)
    requires i < |q|
  {
    q[i] in m && if i == 0 then IsRoot(m, q[i]) else !IsRoot(m, q[i]) && m[q[i]].ppid == q[i - 1]
  }

  /** A chain from a root down parent links. */
  ghost predicate RootPath(m: Index, q: Path) {
    q != [] && forall i :: 0 <= i < |q| ==> Link(m, q, i)
  }

  /** A chain from a root whose proper ancestors are all expanded. */
  ghost predicate Visible(m: Index, exp: Expansion, q: Path) {
    RootPath(m, q) && forall i :: 0 <= i < |q| - 1 ==> q[i] in exp && exp[q[i]]
  }

  lemma LinkIsStep(m: Index, exp: Expansion, q: Path, i: nat)
    requires i < |q|
    ensures q[i] in PanelNext(m, exp)(q[..i]) <==> Link(m, q, i) && (i == 0 || Expanded(exp, q[i - 1]))
  {
    if i > 0 { assert Last(q[..i]) == q[i - 1]; }
  }

  lemma ValidIsVisible(m: Index, exp: Expansion, q: Path)
    requires q != []
    ensures Valid(PanelNext(m, exp), q) <==> Visible(m, exp, q)
  {
    hide PanelNext, Link;
    if Valid(PanelNext(m, exp), q) {
      forall i | 0 <= i < |q| - 1 ensures Expanded(exp, q[i]) {
        LinkIsStep(m, exp, q, i + 1);
      }
      forall i | 0 <= i < |q| ensures Link(m, q, i) {
        LinkIsStep(m, exp, q, i);
      }
    }
    if Visible(m, exp, q) {
      forall i | 0 <= i < |q| ensures q[i] in PanelNext(m, exp)(q[..i]) {
        LinkIsStep(m, exp, q, i);
      }
    }
  }

  lemma RootPathPrefix(m: Index, q: Path, k: nat)
    requires RootPath(m, q) && 0 < k <= |q|
    ensures RootPath(m, q[..k])
  {
    forall i | 0 <= i < k ensures Link(m, q[..k], i) {
      assert Link(m, q, i);
    }
  }

  lemma RootPathSnoc(m: Index, q: Path, p: Pid)
    requires RootPath(m, q) && p in m && !IsRoot(m, p) && m[p].ppid == Last(q)
    ensures RootPath(m, q + [p]) && Last(q + [p]) == p
  {
    forall i | 0 <= i < |q| + 1 ensures Link(m, q + [p], i) {
      assert i < |q| ==> Link(m, q, i);
    }
  }

  /** A node has one parent and a root is nobody's child, so a node ends at most one chain from a root. */
  lemma {:induction false} OneRootPath(m: Index, p: Path, q: Path)
    requires RootPath(m, p) && RootPath(m, q) && Last(p) == Last(q)
    ensures p == q
    decreases |p|
  {
    assert Link(m, p, |p| - 1) && Link(m, q, |q| - 1);
    if |p| > 1 && |q| > 1 {
      RootPathPrefix(m, p, |p| - 1);
      RootPathPrefix(m, q, |q| - 1);
      OneRootPath(m, p[..|p| - 1], q[..|q| - 1]);
      assert p == p[..|p| - 1] + [Last(p)] && q == q[..|q| - 1] + [Last(q)];
    }
  }

  /** So a walk from the roots cannot come back to a node, and is never longer than the snapshot is large. */
  lemma RootPathDistinct(m: Index, q: Path, i: nat, j: nat)
    requires RootPath(m, q) && i < j < |q|
    ensures q[i] != q[j]
  {
    if q[i] == q[j] {
      RootPathPrefix(m, q, i + 1);
      RootPathPrefix(m, q, j + 1);
      OneRootPath(m, q[..i + 1], q[..j + 1]);
    }
  }

  lemma RootPathBounded(m: Index, q: Path)
    requires RootPath(m, q)
    ensures |q| <= |m|
  {
    forall i, j | 0 <= i < j < |q| ensures q[i] != q[j] {
      RootPathDistinct(m, q, i, j);
    }
    forall i | 0 <= i < |q| ensures q[i] in m.Keys {
      assert Link(m, q, i);
    }
    DistinctSize(q, m.Keys);
  }

  lemma PanelBounded(m: Index, exp: Expansion)
    ensures Bounded(PanelNext(m, exp), |m|)
  {
    forall q: Path | Valid(PanelNext(m, exp), q) ensures |q| <= |m| {
      if q != [] {
        ValidIsVisible(m, exp, q);
        RootPathBounded(m, q);
      }
    }
  }

  /** The paths the panel shows, in the order it shows them. */
  ghost function Shown(m: Index, exp: Expansion): seq<Path> {
    PanelBounded(m, exp);
    From(PanelNext(m, exp), [], 0, |m|)
  }

  /** What the panel shows at the end of a path. */
  ghost function EntryAt(m: Index, q: Path): Entry
    requires q != [] && Last(q) in m
  {
    var p := Last(q);
    Entry(p, m[p].comm, |q| - 1, KidSet(m, p) != {}, MemOf(m[p].memoryUsage))
  }

  function MemOf(kb: nat): MemLabel {
    if kb > 1024 then Mega(kb / 1024) else if kb > 0 then Kilo(kb) else NoMem
  }

  ghost predicate Renders(m: Index, entries: seq<Entry>, l: seq<Path>) {
    |entries| == |l| && forall i :: 0 <= i < |l| ==> l[i] != [] && Last(l[i]) in m && entries[i] == EntryAt(m, l[i])
  }

  // ---------------------------------------------------------------- the construction

  /** The pids done so far are split: roots in order, and every other under its parent in order. */
  ghost predicate SplitUpTo(m: Index, done: seq<Pid>, roots: seq<Pid>, kids: map<Pid, seq<Pid>>) {
    && (forall q :: q in done ==> q in m)
    && Ascending(roots)
    && (forall q :: q in roots <==> q in done && IsRoot(m, q))
    && (forall p :: p in kids ==> kids[p] != [] && Ascending(kids[p]))
    && (forall p, q :: p in kids && q in kids[p] ==> q in done && !IsRoot(m, q) && m[q].ppid == p)
    && (forall q :: q in done && !IsRoot(m, q) ==> m[q].ppid in kids && q in kids[m[q].ppid])
  }

  ghost predicate IsSplit(m: Index, roots: seq<Pid>, kids: map<Pid, seq<Pid>>) {
    && roots == SortedOf(RootSet(m))
    && (forall p :: p in kids <==> KidSet(m, p) != {})
    && (forall p :: p in kids ==> kids[p] == SortedOf(KidSet(m, p)))
  }

  /** Where the next PID goes. */
  ghost predicate Placed(m: Index, pid: Pid, roots: seq<Pid>, kids: map<Pid, seq<Pid>>,
                         roots': seq<Pid>, kids': map<Pid, seq<Pid>>)
    requires pid in m
  {
    if IsRoot(m, pid) then roots' == roots + [pid] && kids' == kids
    else
      var siblings := if m[pid].ppid in kids then kids[m[pid].ppid] else [];
      roots' == roots && kids' == kids[m[pid].ppid := siblings + [pid]]
  }

  lemma NextSplit(m: Index, pids: seq<Pid>, n: nat, roots: seq<Pid>, kids: map<Pid, seq<Pid>>,
                  roots': seq<Pid>, kids': map<Pid, seq<Pid>>)
    requires Ascending(pids) && n < |pids| && pids[n] in m
    requires SplitUpTo(m, pids[..n], roots, kids)
    requires Placed(m, pids[n], roots, kids, roots', kids')
    ensures SplitUpTo(m, pids[..n + 1], roots', kids')
  {
    assert pids[..n + 1] == pids[..n] + [pids[n]];
    if IsRoot(m, pids[n]) {
      NextRoot(m, pids[..n], pids[n], roots, kids);
    } else {
      NextChild(m, pids[..n], pids[n], roots, kids);
    }
  }

  lemma NextRoot(m: Index, done: seq<Pid>, pid: Pid, roots: seq<Pid>, kids: map<Pid, seq<Pid>>)
    requires SplitUpTo(m, done, roots, kids) && pid in m && IsRoot(m, pid)
    requires forall q :: q in done ==> q < pid
    ensures SplitUpTo(m, done + [pid], roots + [pid], kids)
  {
    AscendingSnoc(roots, pid);
  }

  lemma NextChild(m: Index, done: seq<Pid>, pid: Pid, roots: seq<Pid>, kids: map<Pid, seq<Pid>>)
    requires SplitUpTo(m, done, roots, kids) && pid in m && !IsRoot(m, pid)
    requires forall q :: q in done ==> q < pid
    ensures var siblings := if m[pid].ppid in kids then kids[m[pid].ppid] else [];
      SplitUpTo(m, done + [pid], roots, kids[m[pid].ppid := siblings + [pid]])
  {
    var siblings := if m[pid].ppid in kids then kids[m[pid].ppid] else [];
    forall q | q in siblings ensures q < pid {
      assert q in done;
    }
    AscendingSnoc(siblings, pid);
  }

  lemma SplitDone(m: Index, roots: seq<Pid>, kids: map<Pid, seq<Pid>>)
    requires SplitUpTo(m, SortedOf(m.Keys), roots, kids)
    ensures IsSplit(m, roots, kids)
  {
    AscendingUnique(roots, SortedOf(RootSet(m)));
    forall p ensures p in kids <==> KidSet(m, p) != {} {
      if p in kids { assert kids[p][0] in KidSet(m, p); }
      if q :| q in KidSet(m, p) { assert q in SortedOf(m.Keys); }
    }
    forall p | p in kids ensures kids[p] == SortedOf(KidSet(m, p)) {
      KidsDone(m, roots, kids, p);
    }
  }

  lemma KidsDone(m: Index, roots: seq<Pid>, kids: map<Pid, seq<Pid>>, p: Pid)
    requires SplitUpTo(m, SortedOf(m.Keys), roots, kids) && p in kids
    ensures kids[p] == SortedOf(KidSet(m, p))
  {
    forall q ensures q in kids[p] <==> q in KidSet(m, p) {
      KidDone(m, SortedOf(m.Keys), roots, kids, p, q);
    }
    AscendingUnique(kids[p], SortedOf(KidSet(m, p)));
  }

  lemma KidDone(m: Index, all: seq<Pid>, roots: seq<Pid>, kids: map<Pid, seq<Pid>>, p: Pid, q: Pid)
    requires SplitUpTo(m, all, roots, kids) && p in kids
    requires q in m ==> q in all
    ensures q in kids[p] <==> q in KidSet(m, p)
  {
    if q in KidSet(m, p) { assert q in all; }
  }

  method SplitRootsAndChildren(m: Index) returns (roots: seq<Pid>, childrenMap: map<Pid, seq<Pid>>)
    ensures IsSplit(m, roots, childrenMap)
  {
    hide SplitUpTo, IsSplit, SortedOf;
    var pids := SortedKeys(m);
    roots, childrenMap := [], map[];
    NothingSplit(m);
    var n := 0;
    ghost var done := [];
    while n < |pids|
      invariant n <= |pids|
      invariant done == pids[..n] && SplitUpTo(m, done, roots, childrenMap)
    {
      var pid := pids[n];
      ghost var roots0, children0 := roots, childrenMap;
      var parent := m[pid].ppid;
      if parent == 0 || parent == 2 || parent !in m {
        roots := roots + [pid];
      } else {
        var siblings := if parent in childrenMap then childrenMap[parent] else [];
        childrenMap := childrenMap[parent := siblings + [pid]];
      }
      NextSplit(m, pids, n, roots0, children0, roots, childrenMap);
      done := pids[..n + 1];
      n := n + 1;
    }
    assert done == pids;
    SplitDone(m, roots, childrenMap);
  }

  lemma NothingSplit(m: Index)
    ensures SplitUpTo(m, [], [], map[])
  {
  }

  lemma RendersSnoc(m: Index, entries: seq<Entry>, l: seq<Path>, e: Entry, q: Path)
    requires Renders(m, entries, l)
    requires q != [] && Last(q) in m && e == EntryAt(m, q)
    ensures Renders(m, entries + [e], l + [q])
  {
  }

  /** Below an expanded process the walk goes on to its children. */
  lemma NextIsKids(m: Index, exp: Expansion, roots: seq<Pid>, kids: map<Pid, seq<Pid>>, path: Path)
    requires IsSplit(m, roots, kids) && path != [] && Expanded(exp, Last(path)) && Last(path) in kids
    ensures PanelNext(m, exp)(path) == kids[Last(path)]
    ensures forall i :: 0 <= i < |kids[Last(path)]| ==> kids[Last(path)][i] in m
  {
    var s := SortedOf(KidSet(m, Last(path)));
    assert forall i :: 0 <= i < |s| ==> s[i] in s;
  }

  /** The walk closure: it reads the snapshot, the expansion state and the children, and appends to entries. */
  class Walker {
    const snap: Index
    const expanded: Expansion
    const childrenMap: map<Pid, seq<Pid>>
    var entries: seq<Entry>
    ghost var shown: seq<Path>

    constructor (snap: Index, expanded: Expansion, childrenMap: map<Pid, seq<Pid>>)
      ensures this.snap == snap && this.expanded == expanded && this.childrenMap == childrenMap
      ensures entries == [] && shown == []
    {
      this.snap, this.expanded, this.childrenMap := snap, expanded, childrenMap;
      entries, shown := [], [];
    }

    /** One call of the recursive walk. The path is the chain of calls that led here. */
    method Walk(pid: Pid, depth: nat, ghost path: Path, ghost roots: seq<Pid>)
      requires IsSplit(snap, roots, childrenMap) && Bounded(PanelNext(snap, expanded), |snap|)
      requires path != [] && Last(path) == pid && depth == |path| - 1 && pid in snap
      requires Valid(PanelNext(snap, expanded), path)
      requires Renders(snap, entries, shown)
      modifies this
      ensures Renders(snap, entries, shown)
      ensures shown == old(shown) + [path] + From(PanelNext(snap, expanded), path, 0, |snap|)
      decreases |snap| - |path|
    {
      ghost var next := PanelNext(snap, expanded);
      var p := snap[pid];
      var hasKids := pid in childrenMap;
      var e := Entry(pid, p.comm, depth, hasKids, MemOf(p.memoryUsage));
      RendersSnoc(snap, entries, shown, e, path);
      entries := entries + [e];
      shown := shown + [path];
      if pid in expanded && expanded[pid] && hasKids {
        WalkKids(pid, depth, path, roots);
      } else {
        assert next(path) == [];
      }
    }

    /** The loop of the recursive step. */
    method WalkKids(pid: Pid, depth: nat, ghost path: Path, ghost roots: seq<Pid>)
      requires IsSplit(snap, roots, childrenMap) && Bounded(PanelNext(snap, expanded), |snap|)
      requires path != [] && Last(path) == pid && depth == |path| - 1 && pid in childrenMap
      requires Valid(PanelNext(snap, expanded), path) && Expanded(expanded, pid)
      requires Renders(snap, entries, shown)
      modifies this
      ensures Renders(snap, entries, shown)
      ensures shown == old(shown) + From(PanelNext(snap, expanded), path, 0, |snap|)
      decreases |snap| - |path|, 0
    {
      hide Renders, From, Valid, Bounded, IsSplit, PanelNext, Expanded;
      ghost var next := PanelNext(snap, expanded);
      var kids := childrenMap[pid];
      NextIsKids(snap, expanded, roots, childrenMap, path);
      var i := 0;
      while i < |kids|
        invariant i <= |kids|
        invariant Renders(snap, entries, shown)
        invariant old(shown) + From(next, path, 0, |snap|) == shown + From(next, path, i, |snap|)
      {
        VisitChild(next, path, i, |snap|, shown);
        Walk(kids[i], depth + 1, path + [kids[i]], roots);
        i := i + 1;
      }
      VisitedAll(next, path, |snap|, shown);
    }
  }

  /** buildProcTree: a nil snapshot has no entries; otherwise the shown paths, in order. */
  method BuildProcTree(snap: Option<Index>, expanded: Expansion) returns (entries: seq<Entry>)
    ensures snap.None? ==> entries == []
    ensures snap.Some? ==> Renders(snap.value, entries, Shown(snap.value, expanded))
  {
    hide Renders, From, Valid, Bounded, IsSplit, PanelNext;
    if snap.None? { return []; }
    var m := snap.value;
    var roots, childrenMap := SplitRootsAndChildren(m);
    var w := new Walker(m, expanded, childrenMap);
    ghost var next := PanelNext(m, expanded);
    StartsAtRoots(m, expanded, roots, childrenMap);
    var i := 0;
    while i < |roots|
      invariant i <= |roots|
      invariant Renders(m, w.entries, w.shown)
      invariant Shown(m, expanded) == w.shown + From(next, [], i, |m|)
    {
      VisitChild(next, [], i, |m|, w.shown);
      w.Walk(roots[i], 0, [] + [roots[i]], roots);
      i := i + 1;
    }
    VisitedAll(next, [], |m|, w.shown);
    entries := w.entries;
  }

  lemma StartsAtRoots(m: Index, exp: Expansion, roots: seq<Pid>, kids: map<Pid, seq<Pid>>)
    requires IsSplit(m, roots, kids)
    ensures PanelNext(m, exp)([]) == roots && Valid(PanelNext(m, exp), []) && Bounded(PanelNext(m, exp), |m|)
    ensures forall i :: 0 <= i < |roots| ==> roots[i] in m
    ensures Renders(m, [], []) && Shown(m, exp) == [] + From(PanelNext(m, exp), [], 0, |m|)
  {
    PanelBounded(m, exp);
    forall i | 0 <= i < |roots| ensures roots[i] in m { assert roots[i] in RootSet(m); }
    assert [] + Shown(m, exp) == Shown(m, exp);
  }

  // ---------------------------------------------------------------- what the list is

  /** The list is a preorder: exactly the visible root chains, in dictionary order. */
  lemma ShownExactly(m: Index, exp: Expansion)
    ensures Ordered(Shown(m, exp))
    ensures forall q :: q in Shown(m, exp) <==> q != [] && Visible(m, exp, q)
  {
    PanelBounded(m, exp);
    ListedInOrder(PanelNext(m, exp), [], 0, |m|);
    forall q ensures q in Shown(m, exp) <==> q != [] && Visible(m, exp, q) {
      Listed(PanelNext(m, exp), [], 0, |m|, q);
      if q != [] {
        ValidIsVisible(m, exp, q);
        if Valid(PanelNext(m, exp), q) {
          assert q[0] in PanelNext(m, exp)(q[..0]);
          assert q[..0] == [];
        }
      }
    }
  }

  /** No other list of chains has those two properties, so map iteration order cannot show. */
  lemma ShownUnique(m: Index, exp: Expansion, l: seq<Path>)
    requires Ordered(l)
    requires forall q :: q in l <==> q != [] && Visible(m, exp, q)
    ensures l == Shown(m, exp)
  {
    ShownExactly(m, exp);
    OrderedUnique(l, Shown(m, exp));
  }

  /** No PID is listed twice. */
  lemma NoPidTwice(m: Index, exp: Expansion, i: nat, j: nat)
    requires i < j < |Shown(m, exp)|
    ensures Shown(m, exp)[i] != [] && Shown(m, exp)[j] != []
    ensures Last(Shown(m, exp)[i]) != Last(Shown(m, exp)[j])
  {
    var l := Shown(m, exp);
    ShownExactly(m, exp);
    assert l[i] in l && l[j] in l;
    if Last(l[i]) == Last(l[j]) {
      OneRootPath(m, l[i], l[j]);
      BeforeAsym(l[i], l[j]);
    }
  }

  /** Every entry below the top level comes after its parent, with nothing shallower in between. */
  lemma ParentRowAbove(m: Index, exp: Expansion, i: nat)
    requires i < |Shown(m, exp)| && |Shown(m, exp)[i]| > 1
    ensures exists j :: ParentRow(m, Shown(m, exp), i, j)
  {
    hide RootPath, PanelNext;
    var l := Shown(m, exp);
    ParentShown(m, exp, i);
    var j :| ParentAt(l, i, j);
    ShownLink(m, exp, i, |l[i]| - 1);
    assert ParentRow(m, l, i, j);
  }

  lemma ParentShown(m: Index, exp: Expansion, i: nat)
    requires i < |Shown(m, exp)| && |Shown(m, exp)[i]| > 1
    ensures exists j :: ParentAt(Shown(m, exp), i, j)
  {
    hide Valid, From, ParentAt;
    PanelBounded(m, exp);
    NoneYet(m, exp);
    NearestParent(PanelNext(m, exp), [], |m|, i);
  }

  lemma NoneYet(m: Index, exp: Expansion)
    ensures Valid(PanelNext(m, exp), []) && SiblingsAscend(PanelNext(m, exp))
  {
  }

  lemma ShownLink(m: Index, exp: Expansion, i: nat, k: nat)
    requires i < |Shown(m, exp)| && k < |Shown(m, exp)[i]|
    ensures Link(m, Shown(m, exp)[i], k)
  {
    ShownExactly(m, exp);
    assert Shown(m, exp)[i] in Shown(m, exp);
  }

  ghost predicate ParentRow(m: Index, l: seq<Path>, i: nat, j: nat)
    requires i < |l| && |l[i]| > 1
  {
    ParentAt(l, i, j) && Last(l[i]) in m && m[Last(l[i])].ppid == Last(l[j])
  }

  /** The nearest earlier entry a level up is that of the parent. */
  ghost predicate ParentEntry(m: Index, entries: seq<Entry>, i: nat, j: nat)
    requires i < |entries| && entries[i].pid in m
  {
    && j < i && entries[j].pid == m[entries[i].pid].ppid && entries[j].depth + 1 == entries[i].depth
    && forall k :: j < k < i ==> entries[k].depth >= entries[i].depth
  }

  /**
   * What an entry shows: exactly the roots are at depth 0, any other is a level below the nearest earlier entry of
   * smaller depth, which is its parent's, and the mark for children is at those that have some that are no roots.
   */
  lemma EntryTells(m: Index, exp: Expansion, entries: seq<Entry>, i: nat)
    requires Renders(m, entries, Shown(m, exp)) && i < |entries|
    ensures var e := entries[i];
      && e.pid in m && e.comm == m[e.pid].comm
      && (e.depth == 0 <==> m[e.pid].ppid == 0 || m[e.pid].ppid == 2 || m[e.pid].ppid !in m)
      && (e.depth > 0 ==> exists j: nat :: ParentEntry(m, entries, i, j))
      && (match e.mem
           case NoMem => m[e.pid].memoryUsage == 0
           case Kilo(n) => n == m[e.pid].memoryUsage <= 1024
           case Mega(n) => m[e.pid].memoryUsage > 1024 && n * 1024 <= m[e.pid].memoryUsage < (n + 1) * 1024)
      && (e.hasKids <==> e.pid != 0 && e.pid != 2 && exists c :: c in m && m[c].ppid == e.pid)
  {
    var l := Shown(m, exp);
    ShownExactly(m, exp);
    assert l[i] in l;
    assert Link(m, l[i], |l[i]| - 1);
    if entries[i].depth > 0 {
      ParentRowAbove(m, exp, i);
      var j :| ParentRow(m, l, i, j);
      assert ParentEntry(m, entries, i, j);
    }
    var e := entries[i];
    assert e.hasKids <==> exists c :: c in KidSet(m, e.pid);
    forall c | c in m && m[c].ppid == e.pid && e.pid != 0 && e.pid != 2 ensures c in KidSet(m, e.pid) {}
  }

  ghost predicate ListedPid(m: Index, exp: Expansion, p: Pid) {
    exists q :: q in Shown(m, exp) && q != [] && Last(q) == p
  }

  /** A set of processes each of which has its parent in the set, and none of which is a root. */
  ghost predicate Rootless(m: Index, s: set<Pid>) {
    forall p :: p in s ==> p in m && !IsRoot(m, p) && m[p].ppid in s
  }

  /** Whatever is expanded, a process on or below a PPID cycle is never listed. */
  lemma {:induction false} CycleHidden(m: Index, exp: Expansion, s: set<Pid>, p: Pid)
    requires Rootless(m, s) && p in s
    ensures !ListedPid(m, exp, p)
  {
    ShownExactly(m, exp);
    forall q | q in Shown(m, exp) && q != [] && Last(q) == p ensures false {
      RootPathAvoids(m, s, q);
    }
  }

  lemma LinkAt(m: Index, q: Path, i: int)
    requires RootPath(m, q)
    ensures q != [] && (0 <= i < |q| ==> Link(m, q, i))
  {
  }

  lemma {:induction false} RootPathAvoids(m: Index, s: set<Pid>, q: Path)
    requires Rootless(m, s) && RootPath(m, q)
    ensures Last(q) !in s
  {
    hide RootPath;
    LinkAt(m, q, |q| - 1);
    if |q| > 1 {
      RootPathPrefix(m, q, |q| - 1);
      RootPathAvoids(m, s, q[..|q| - 1]);
    }
  }

  /** With everything expanded, those are the only processes missing. */
  lemma MissingIffRootless(m: Index, exp: Expansion, p: Pid)
    requires forall q :: q in m ==> Expanded(exp, q)
    requires p in m
    ensures !ListedPid(m, exp, p) <==> exists s :: Rootless(m, s) && p in s
  {
    if !ListedPid(m, exp, p) {
      var s := set q | q in m && !ListedPid(m, exp, q);
      forall q | q in s ensures !IsRoot(m, q) && m[q].ppid in s {
        if IsRoot(m, q) {
          RootListed(m, exp, q);
        } else if ListedPid(m, exp, m[q].ppid) {
          ListedBelow(m, exp, q);
        }
      }
      assert Rootless(m, s) && p in s;
    }
    if s :| Rootless(m, s) && p in s {
      CycleHidden(m, exp, s, p);
    }
  }

  lemma RootListed(m: Index, exp: Expansion, p: Pid)
    requires p in m && IsRoot(m, p)
    ensures ListedPid(m, exp, p)
  {
    ShownExactly(m, exp);
    assert Link(m, [p], 0);
    assert Visible(m, exp, [p]) && Last([p]) == p;
  }

  lemma ListedBelow(m: Index, exp: Expansion, q: Pid)
    requires q in m && !IsRoot(m, q)
    requires ListedPid(m, exp, m[q].ppid) && Expanded(exp, m[q].ppid)
    ensures ListedPid(m, exp, q)
  {
    ShownExactly(m, exp);
    var path :| path in Shown(m, exp) && path != [] && Last(path) == m[q].ppid;
    RootPathSnoc(m, path, q);
    assert Visible(m, exp, path + [q]);
  }
}
