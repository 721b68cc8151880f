/** The two family queries: the indented text and the nested structure, proved to show exactly the view's paths. */
module FamilyPrinter {
  import opened Basics
  import opened Snapshot
  import opened Climb
  import opened Preorder
  import opened Sorting
  import opened Family

  /** One printed row; depth stands for the drawn connectors. */
  datatype Row = Row(pid: Pid, comm: string, depth: nat, target: bool)

  datatype FamilyNode = FamilyNode(pid: Pid, comm: string, isTarget: bool, children: seq<FamilyNode>)

  ghost function RowAt(v: View, q: seq<Rec>): Row
    requires q != [] && PidOf(Last(q)) in Known(v.f)
  {
    Row(PidOf(Last(q)), Known(v.f)[PidOf(Last(q))].comm, |q| - 1, PidOf(Last(q)) == v.target)
  }

  /** The rows are those of the paths, in order. */
  ghost predicate Renders(v: View, rows: seq<Row>, l: seq<seq<Rec>>) {
    |rows| == |l| && forall i :: 0 <= i < |l| ==> RendersRow(v, rows[i], l[i])
  }

  ghost predicate RendersRow(v: View, row: Row, q: seq<Rec>) {
    q != [] && PidOf(Last(q)) in Known(v.f) && row == RowAt(v, q)
  }

  lemma RendersSnoc(v: View, rows: seq<Row>, l: seq<seq<Rec>>, r: Row, q: seq<Rec>)
    requires Renders(v, rows, l) && RendersRow(v, r, q)
    ensures Renders(v, rows + [r], l + [q])
  {
  }

  // ---------------------------------------------------------------- children and the climb

  /** The children lists hold exactly the records done so far, each once, under its PPID; recs says which is where. */
  ghost predicate ListsChildren(f: Frozen, done: set<Rec>, kids: map<Pid, seq<Pid>>, recs: map<Pid, seq<Rec>>) {
    && kids.Keys == recs.Keys
    && (forall p :: p in recs ==> recs[p] != [] && Distinct(recs[p]) && kids[p] == Pids(recs[p]))
    && (forall p, r :: p in recs && r in recs[p] ==> r in done && IsKid(f, p, r))
    && (forall r :: r in done ==> Recorded(f, r) && Holds(recs, NodeOf(f, r).ppid, r))
  }

  ghost predicate IsKid(f: Frozen, p: Pid, r: Rec) {
    Recorded(f, r) && NodeOf(f, r).ppid == p
  }

  ghost predicate Holds(recs: map<Pid, seq<Rec>>, p: Pid, r: Rec) {
    p in recs && r in recs[p]
  }

  /** One more process under its PPID. */
  lemma ListChild(f: Frozen, done: set<Rec>, kids: map<Pid, seq<Pid>>, recs: map<Pid, seq<Rec>>, r: Rec, p: Pid)
    requires ListsChildren(f, done, kids, recs) && IsKid(f, p, r) && r !in done
    ensures ListsChildren(f, done + {r}, kids[p := ListAt(kids, p) + [PidOf(r)]], recs[p := ListAt(recs, p) + [r]])
  {
    var siblings := ListAt(recs, p);
    assert forall i :: 0 <= i < |siblings| ==> siblings[i] in siblings;
    assert Pids(siblings + [r]) == ListAt(kids, p) + [PidOf(r)];
  }

  function ListAt(m: map<Pid, seq<nat>>, p: Pid): seq<nat> {
    if p in m then m[p] else []
  }

  /** One of the two loops over the processes of a snapshot, in map order. */
  method AddChildren(f: Frozen, live: bool, kids: map<Pid, seq<Pid>>, ghost done: set<Rec>,
          ghost recs: map<Pid, seq<Rec>>)
    returns (r: map<Pid, seq<Pid>>, ghost all: map<Pid, seq<Rec>>)
    requires ListsChildren(f, done, kids, recs) && forall x :: x in done ==> x % 2 != Parity(live)
    ensures ListsChildren(f, done + RecordsOf(Part(f, live), Parity(live)), r, all)
  {
    hide ListsChildren, RecordsOf;
    var part := if live then f.byPID else f.ghosts;
    r, all := kids, recs;
    var rest := part.Keys;
    ghost var seen: set<Pid> := {};
    RecordsNone(Parity(live));
    assert done + {} == done;
    while rest != {}
      invariant rest + seen == part.Keys && rest !! seen
      invariant ListsChildren(f, done + RecordsOf(seen, Parity(live)), r, all)
      decreases rest
    {
      var c :| c in rest;
      var ppid := part[c].ppid;
      ghost var x := 2 * c + Parity(live);
      NewRecord(f, live, done, seen, c);
      ListChild(f, done + RecordsOf(seen, Parity(live)), r, all, x, ppid);
      r := r[ppid := (if ppid in r then r[ppid] else []) + [c]];
      all := all[ppid := ListAt(all, ppid) + [x]];
      seen, rest := seen + {c}, rest - {c};
    }
  }

  function Parity(live: bool): nat {
    if live then 0 else 1
  }

  ghost function Part(f: Frozen, live: bool): set<Pid> {
    if live then f.byPID.Keys else f.ghosts.Keys
  }

  ghost function RecordsOf(s: set<Pid>, parity: nat): set<Rec> {
    set p | p in s :: 2 * p + parity
  }

  lemma RecordsNone(parity: nat)
    ensures RecordsOf({}, parity) == {}
  {
  }

  lemma NewRecord(f: Frozen, live: bool, done: set<Rec>, seen: set<Pid>, c: Pid)
    requires c in Part(f, live) && c !in seen && forall x :: x in done ==> x % 2 != Parity(live)
    ensures var x := 2 * c + Parity(live);
            PidOf(x) == c && IsKid(f, (if live then f.byPID[c] else f.ghosts[c]).ppid, x) &&
            x !in done + RecordsOf(seen, Parity(live)) &&
            done + RecordsOf(seen, Parity(live)) + {x} == done + RecordsOf(seen + {c}, Parity(live))
  {
  }

  /** The children of every PID, in ascending order. */
  ghost predicate SortedChildren(f: Frozen, kids: map<Pid, seq<Pid>>) {
    && (forall p :: p in kids <==> Kids(f, p) != {})
    && (forall p :: p in kids ==> kids[p] == Pids(SortedOf(Kids(f, p))))
  }

  /** The children of every process, live or exited, collected in map order and then sorted. */
  method ChildrenMap(f: Frozen) returns (kids: map<Pid, seq<Pid>>)
    ensures SortedChildren(f, kids)
  {
    hide ListsChildren;
    ghost var recs: map<Pid, seq<Rec>> := map[];
    kids := map[];
    NoChildren(f);
    kids, recs := AddChildren(f, true, kids, {}, recs);
    kids, recs := AddChildren(f, false, kids, {} + RecordsOf(f.byPID.Keys, 0), recs);
    assert {} + RecordsOf(f.byPID.Keys, 0) + RecordsOf(f.ghosts.Keys, 1) == Records(f);
    kids := SortChildren(f, kids, recs);
  }

  lemma NoChildren(f: Frozen)
    ensures ListsChildren(f, {}, map[], map[])
  {
  }

  method SortChildren(f: Frozen, all: map<Pid, seq<Pid>>, ghost recs: map<Pid, seq<Rec>>)
    returns (kids: map<Pid, seq<Pid>>)
    requires ListsChildren(f, Records(f), all, recs)
    ensures SortedChildren(f, kids)
  {
    hide ListsChildren, Kids, Pids;
    kids := all;
    var rest := all.Keys;
    while rest != {}
      invariant rest <= all.Keys && kids.Keys == all.Keys
      invariant forall p :: p in rest ==> kids[p] == all[p]
      invariant forall p :: p in all.Keys - rest ==> kids[p] == Pids(SortedOf(Kids(f, p)))
      decreases rest
    {
      var p :| p in rest;
      var sorted := Sorted(all[p]);
      KidsListed(f, all, recs, p);
      SortedUnique(sorted, Pids(SortedOf(Kids(f, p))));
      kids := kids[p := sorted];
      rest := rest - {p};
    }
    ParentsListed(f, all, recs);
  }

  lemma ParentsListed(f: Frozen, kids: map<Pid, seq<Pid>>, recs: map<Pid, seq<Rec>>)
    requires ListsChildren(f, Records(f), kids, recs)
    ensures forall p :: p in kids <==> Kids(f, p) != {}
  {
    forall p ensures p in kids <==> Kids(f, p) != {} {
      if p in kids { assert recs[p][0] in recs[p] && recs[p][0] in Kids(f, p); }
      if r :| r in Kids(f, p) { assert r in Records(f) && Holds(recs, p, r); }
    }
  }

  /** A list of children is a permutation of the children in ascending order. */
  lemma KidsListed(f: Frozen, kids: map<Pid, seq<Pid>>, recs: map<Pid, seq<Rec>>, p: Pid)
    requires ListsChildren(f, Records(f), kids, recs) && p in kids
    ensures multiset(kids[p]) == multiset(Pids(SortedOf(Kids(f, p)))) && NonDescending(Pids(SortedOf(Kids(f, p))))
  {
    var sorted := SortedOf(Kids(f, p));
    forall r ensures r in recs[p] <==> r in sorted {
      if r in sorted { assert r in Records(f) && Holds(recs, p, r); }
    }
    DistinctPermuted(recs[p], sorted);
    MapPermuted(recs[p], sorted, PidOf);
    assert Map(recs[p], PidOf) == Pids(recs[p]) && Map(sorted, PidOf) == Pids(sorted);
  }

  /** The climb to the family root. It needs the parent chain of the target to end, see ClimbLoopsIff. */
  method ClimbToRoot(m: Index, target: Pid) returns (root: Pid, chain: set<Pid>)
    requires target in m && Climbs(m, target)
    ensures root == RootOf(m, target) && chain == ChainOf(m, target)
    ensures root in m
  {
    ghost var up := Up(m);
    root, chain := target, {target};
    while true
      invariant root in m && StopsWithin(up, root, |m|)
      invariant RootOf(m, root) == RootOf(m, target)
      invariant chain + Above(up, root, |m|) == ChainOf(m, target)
      decreases Height(up, root, |m|)
    {
      var ppid := m[root].ppid;
      if ppid == 0 || ppid == 1 || ppid == 2 { break; }
      if ppid !in m { break; }
      FollowedStep(up, root, |m|);
      root := ppid;
      chain := chain + {root};
    }
  }

  // ---------------------------------------------------------------- the text view

  /** A path stands at pid, and inSubtree says whether the target was passed before. */
  ghost predicate StandsAt(v: View, path: seq<Rec>, pid: Pid, inSubtree: bool) {
    path != [] && PidOf(Last(path)) == pid && pid in Known(v.f) &&
        (inSubtree || pid == v.target <==> v.target in Pids(path))
  }

  lemma StandsBelow(v: View, path: seq<Rec>, pid: Pid, inSubtree: bool, r: Rec)
    requires StandsAt(v, path, pid, inSubtree) && PidOf(r) in Known(v.f)
    ensures StandsAt(v, path + [r], PidOf(r), inSubtree || pid == v.target)
  {
    assert Pids(path + [r]) == Pids(path) + [PidOf(r)];
  }

  class Printer {
    const view: View
    const chain: set<Pid>
    const childrenMap: map<Pid, seq<Pid>>
    var rows: seq<Row>
    ghost var shown: seq<seq<Rec>>

    constructor (view: View, chain: set<Pid>, childrenMap: map<Pid, seq<Pid>>)
      ensures this.view == view && this.chain == chain && this.childrenMap == childrenMap
      ensures rows == [] && shown == []
    {
      this.view, this.chain, this.childrenMap := view, chain, childrenMap;
      rows, shown := [], [];
    }

    ghost predicate Ready() {
      view.Good() && !view.all && chain == view.Chain() && SortedChildren(view.f, childrenMap)
    }

    /** The children of a node the text view prints: the PIDs of the records the walk goes on to. */
    method ToPrint(pid: Pid, inSubtree: bool, ghost path: seq<Rec>) returns (toPrint: seq<Pid>)
      requires Ready() && StandsAt(view, path, pid, inSubtree)
      ensures toPrint == Pids(view.Walk()(path))
      ensures forall i :: 0 <= i < |toPrint| ==> toPrint[i] in Known(view.f)
    {
      hide Ready, SortedChildren, View.KeptKids, View.Walk, Kids, View.Good, SortedOf, KeptSoFar, PidOf;
      toPrint := [];
      ghost var kept: seq<Rec> := [];
      var children := if pid in childrenMap then childrenMap[pid] else [];
      ghost var recs := SortedOf(Kids(view.f, pid));
      ChildrenAre(pid, children);
      NoneKept(recs, path);
      var i := 0;
      while i < |children|
        invariant i <= |children| && toPrint == Pids(kept) && KeptSoFar(kept, recs, i, path)
      {
        var c := children[i];
        assert recs[i] in recs;
        KeptIff(path, inSubtree, pid, recs[i]);
        KeptMore(kept, recs, i, path);
        if c in chain || pid == view.Parent() || inSubtree || pid == view.target {
          if c != pid {
            kept := kept + [recs[i]];
            toPrint := toPrint + [c];
          }
        }
        i := i + 1;
      }
      KeptDone(path, pid, inSubtree, kept);
    }

    /** Of the first i children, those that the walk goes on to. */
    ghost predicate KeptSoFar(kept: seq<Rec>, recs: seq<Rec>, i: nat, path: seq<Rec>)
      requires view.Rooted() && path != [] && i <= |recs|
    {
      Ascending(kept) && forall r :: r in kept <==> r in recs[..i] && r in view.KeptKids(path)
    }

    lemma NoneKept(recs: seq<Rec>, path: seq<Rec>)
      requires view.Rooted() && path != []
      ensures KeptSoFar([], recs, 0, path)
    {
    }

    lemma KeptMore(kept: seq<Rec>, recs: seq<Rec>, i: nat, path: seq<Rec>)
      requires view.Rooted() && path != [] && Ascending(recs) && i < |recs| && KeptSoFar(kept, recs, i, path)
      ensures KeptSoFar(if recs[i] in view.KeptKids(path) then kept + [recs[i]] else kept, recs, i + 1, path)
    {
      hide View.KeptKids, View.Rooted;
      assert recs[..i + 1] == recs[..i] + [recs[i]];
      assert forall x :: x in recs[..i] ==> x < recs[i];
      AscendingSnoc(kept, recs[i]);
    }

    lemma ChildrenAre(pid: Pid, children: seq<Pid>)
      requires Ready() && children == if pid in childrenMap then childrenMap[pid] else []
      ensures view.Good() && view.Rooted() && !view.all && chain == view.Chain()
      ensures Ascending(SortedOf(Kids(view.f, pid))) && children == Pids(SortedOf(Kids(view.f, pid)))
    {
    }

    lemma KeptIff(path: seq<Rec>, inSubtree: bool, pid: Pid, r: Rec)
      requires Ready() && StandsAt(view, path, pid, inSubtree) && r in SortedOf(Kids(view.f, pid))
      ensures view.Rooted()
      ensures r in view.KeptKids(path) <==>
        PidOf(r) != pid && (PidOf(r) in chain || pid == view.Parent() || inSubtree || pid == view.target)
    {
      hide View.Ends, Kids, SortedChildren;
      assert r in Kids(view.f, pid);
    }

    lemma KeptDone(path: seq<Rec>, pid: Pid, inSubtree: bool, kept: seq<Rec>)
      requires Ready() && StandsAt(view, path, pid, inSubtree) && view.Rooted()
      requires var recs := SortedOf(Kids(view.f, pid)); KeptSoFar(kept, recs, |recs|, path)
      ensures kept == view.Walk()(path)
      ensures forall i :: 0 <= i < |kept| ==> PidOf(kept[i]) in Known(view.f)
    {
      hide View.Ends, SortedChildren;
      var recs := SortedOf(Kids(view.f, pid));
      assert recs[..|recs|] == recs;
      assert forall r :: r in recs <==> r in Kids(view.f, pid);
      AscendingUnique(kept, SortedOf(view.KeptKids(path)));
      assert forall i :: 0 <= i < |kept| ==> kept[i] in kept;
    }

    /** printTree: one row, then the chosen children in order. */
    method PrintTree(pid: Pid, inSubtree: bool, depth: nat, ghost path: seq<Rec>)
      requires Ready() && StandsAt(view, path, pid, inSubtree) && depth == |path| - 1
      requires Valid(view.Walk(), path) && Renders(view, rows, shown)
      modifies this
      ensures Renders(view, rows, shown)
      ensures shown == old(shown) + [path] + From(view.Walk(), path, 0, |Known(view.f)|)
      decreases |Known(view.f)| - |path|, 1
    {
      var r := Row(pid, Known(view.f)[pid].comm, depth, pid == view.target);
      RendersSnoc(view, rows, shown, r, path);
      rows := rows + [r];
      shown := shown + [path];
      PrintChildren(pid, inSubtree, depth, path);
    }

    method PrintChildren(pid: Pid, inSubtree: bool, depth: nat, ghost path: seq<Rec>)
      requires Ready() && StandsAt(view, path, pid, inSubtree) && depth == |path| - 1
      requires Valid(view.Walk(), path) && Renders(view, rows, shown)
      modifies this
      ensures Renders(view, rows, shown)
      ensures shown == old(shown) + From(view.Walk(), path, 0, |Known(view.f)|)
      decreases |Known(view.f)| - |path|, 0
    {
      hide Bounded, Valid, From, View.Walk, View.NextOf, View.Rooted, Renders, StandsAt, Known, SortedChildren;
      ghost var next := view.Walk();
      ghost var n := |Known(view.f)|;
      var toPrint := ToPrint(pid, inSubtree, path);
      var nextInSubtree := inSubtree || pid == view.target;
      var i := 0;
      while i < |toPrint|
        invariant i <= |toPrint|
        invariant Renders(view, rows, shown)
        invariant old(shown) + From(next, path, 0, n) == shown + From(next, path, i, n)
      {
        ghost var r := next(path)[i];
        VisitChild(next, path, i, n, shown);
        StandsBelow(view, path, pid, inSubtree, r);
        PrintTree(toPrint[i], nextInSubtree, depth + 1, path + [r]);
        i := i + 1;
      }
      VisitedAll(next, path, n, shown);
    }
  }

  /**
   * ProcessFamily: an unknown target is an error, otherwise the rows of the text view. The climb and the
   * recursion have to end: see Family.ClimbLoopsIff and FamilyLoops.TextLoopsIff.
   */
  method ProcessFamily(f: Frozen, pid: Pid) returns (r: Option<seq<Row>>)
    requires pid in Known(f) ==> View(f, pid, false).Good()
    ensures r.None? <==> pid !in Known(f)
    ensures r.Some? ==> var v := View(f, pid, false); v.Good() && Renders(v, r.value, Shown(v))
  {
    if pid !in f.byPID && pid !in f.ghosts { return None; }
    hide Renders, Shown, SortedChildren, View.Ends;
    var kids := ChildrenMap(f);
    var root, chain := ClimbToRoot(Known(f), pid);
    var rows := PrintAll(View(f, pid, false), root, chain, kids);
    r := Some(rows);
  }

  method PrintAll(v: View, root: Pid, chain: set<Pid>, kids: map<Pid, seq<Pid>>) returns (rows: seq<Row>)
    requires v.Good() && !v.all && root in Known(v.f)
    requires root == v.Root() && chain == v.Chain() && SortedChildren(v.f, kids)
    ensures Renders(v, rows, Shown(v))
  {
    hide Valid, From, SortedChildren, View.Rooted, View.Ends, View.Walk, Shown, View.Root, View.Chain;
    StartsAtRoot(v);
    var p := new Printer(v, chain, kids);
    StandsAtRoot(v, root);
    p.PrintTree(root, false, 0, [2 * root]);
    assert p.shown == Shown(v);
    rows := p.rows;
  }

  lemma StandsAtRoot(v: View, root: Pid)
    requires root in Known(v.f)
    ensures StandsAt(v, [2 * root], root, false)
  {
    assert Pids([2 * root]) == [root];
  }

  lemma StartsAtRoot(v: View)
    requires v.Good()
    ensures Valid(v.Walk(), [2 * v.Root()])
    ensures Shown(v) == [[2 * v.Root()]] + From(v.Walk(), [2 * v.Root()], 0, |Known(v.f)|)
  {
    var root := 2 * v.Root();
    assert v.Walk()([]) == [root];
    VisitChild(v.Walk(), [], 0, |Known(v.f)|, []);
    VisitedAll(v.Walk(), [], |Known(v.f)|, []);
    assert [] + [root] == [root];
    var all := From(v.Walk(), [], 0, |Known(v.f)|);
    assert [] + all == all;
  }

  // ---------------------------------------------------------------- what a row tells

  /** The nearest earlier row a level up is that of a PID of which a record of this row's PID is a child. */
  ghost predicate ParentRow(f: Frozen, rows: seq<Row>, i: nat, j: nat)
    requires i < |rows|
  {
    && j < i && Child(f, rows[j].pid, rows[i].pid) && rows[j].depth + 1 == rows[i].depth
    && forall k :: j < k < i ==> rows[k].depth >= rows[i].depth
  }

  /**
   * The first row, and no other, is at depth 0, and is the family root's; any other is a level below the nearest
   * earlier row of smaller depth, which is its parent's. The target mark is at the rows of the target.
   */
  lemma RowTells(v: View, rows: seq<Row>, i: nat)
    requires v.Good() && Renders(v, rows, Shown(v)) && i < |rows|
    ensures var r := rows[i];
      && (r.pid in v.f.byPID || r.pid in v.f.ghosts)
      && r.comm == (if r.pid in v.f.byPID then v.f.byPID[r.pid] else v.f.ghosts[r.pid]).comm
      && (r.target <==> r.pid == v.target)
      && (r.depth == 0 <==> i == 0) && (i == 0 ==> r.pid == v.Root())
      && (r.depth > 0 ==> exists j: nat :: ParentRow(v.f, rows, i, j))
  {
    hide View.Walk, View.Ends, View.Rooted, View.Root, From, Shown;
    var l := Shown(v);
    StartsAtRoot(v);
    ShownExactly(v);
    assert l[i] in l && RendersRow(v, rows[i], l[i]);
    if rows[i].depth == 0 { FirstIsRoot(v, i); }
    if rows[i].depth > 0 {
      ParentPath(v, i);
      var j :| ParentAt(l, i, j);
      assert forall k :: 0 <= k < |l| ==> RendersRow(v, rows[k], l[k]);
      StepDown(v, l[i], |l[i]| - 1);
      assert ParentRow(v.f, rows, i, j);
    }
  }

  lemma FirstIsRoot(v: View, i: nat)
    requires v.Good() && i < |Shown(v)| && |Shown(v)[i]| == 1
    ensures i == 0
  {
    hide Before, View.Walk, View.Ends, View.Rooted, View.Root, From, Shown;
    StartsAtRoot(v);
    ShownExactly(v);
    assert Shown(v)[i] in Shown(v);
    if i > 0 { BeforeAsym(Shown(v)[0], Shown(v)[i]); }
  }

  lemma ParentPath(v: View, i: nat)
    requires v.Good() && i < |Shown(v)| && |Shown(v)[i]| > 1
    ensures exists j :: ParentAt(Shown(v), i, j)
  {
    NearestParent(v.Walk(), [], |Known(v.f)|, i);
  }

  // ---------------------------------------------------------------- the nested view

  /** The paths of a nested node, in preorder. */
  function Paths(t: FamilyNode, path: seq<Pid>): seq<seq<Pid>> {
    [path + [t.pid]] + AllPaths(t.children, path + [t.pid])
  }

  function AllPaths(ts: seq<FamilyNode>, path: seq<Pid>): seq<seq<Pid>> {
    if ts == [] then [] else Paths(ts[0], path) + AllPaths(ts[1..], path)
  }

  lemma {:induction false} AllPathsSnoc(ts: seq<FamilyNode>, t: FamilyNode, path: seq<Pid>)
    ensures AllPaths(ts + [t], path) == AllPaths(ts, path) + Paths(t, path)
  {
    if ts == [] {
      assert AllPaths([t], path) == Paths(t, path) + AllPaths([], path);
    } else {
      AllPathsSnoc(ts[1..], t, path);
      assert (ts + [t])[1..] == ts[1..] + [t];
    }
  }

  /** The paths of a listing, read as PIDs. */
  ghost function PidPaths(l: seq<seq<Rec>>): (r: seq<seq<Pid>>)
    ensures |r| == |l| && forall i :: 0 <= i < |l| ==> r[i] == Pids(l[i])
  {
    Map(l, Pids)
  }

  lemma PidPathsConcat(a: seq<seq<Rec>>, b: seq<seq<Rec>>)
    ensures PidPaths(a + b) == PidPaths(a) + PidPaths(b)
  {
  }

  /** Every node is labelled after its process, and marked as the target when it is. */
  predicate Labelled(v: View, t: FamilyNode) {
    t.pid in Known(v.f) && t.comm == Known(v.f)[t.pid].comm && (t.isTarget <==> t.pid == v.target)
    && forall i :: 0 <= i < |t.children| ==> Labelled(v, t.children[i])
  }

  /** buildNode: a node with the nodes of all its children, ascending. */
  method BuildNode(v: View, kids: map<Pid, seq<Pid>>, pid: Pid, ghost path: seq<Rec>) returns (t: FamilyNode)
    requires v.Good() && v.all && SortedChildren(v.f, kids)
    requires pid in Known(v.f) && path != [] && pid == PidOf(Last(path)) && Valid(v.Walk(), path)
    ensures Labelled(v, t) && t.pid == pid
    ensures Paths(t, Pids(path[..|path| - 1])) == PidPaths([path] + From(v.Walk(), path, 0, |Known(v.f)|))
    decreases |Known(v.f)| - |path|, 1
  {
    hide From, View.Walk, View.NextOf, View.Rooted, SortedChildren;
    var nodes := BuildChildren(v, kids, pid, path);
    t := FamilyNode(pid, Known(v.f)[pid].comm, pid == v.target, nodes);
    LabelledNode(v, t);
    assert Pids(path[..|path| - 1]) + [pid] == Pids(path);
    PidPathsConcat([path], From(v.Walk(), path, 0, |Known(v.f)|));
    assert PidPaths([path]) == [Pids(path)];
  }

  method BuildChildren(v: View, kids: map<Pid, seq<Pid>>, pid: Pid, ghost here: seq<Rec>)
    returns (nodes: seq<FamilyNode>)
    requires v.Good() && v.all && SortedChildren(v.f, kids)
    requires here != [] && PidOf(Last(here)) == pid && Valid(v.Walk(), here)
    ensures forall k :: 0 <= k < |nodes| ==> Labelled(v, nodes[k])
    ensures AllPaths(nodes, Pids(here)) == PidPaths(From(v.Walk(), here, 0, |Known(v.f)|))
    decreases |Known(v.f)| - |here|, 0
  {
    hide Valid, From, View.Walk, View.NextOf, View.Rooted, View.Ends, Paths, Labelled, SortedChildren, Bounded, Known,
        PidOf, PidPaths, Pids, BuiltSoFar;
    ghost var next, n := v.Walk(), |Known(v.f)|;
    EndsBounded(v);
    var children := if pid in kids then kids[pid] else [];
    NextIsKids(v, here, kids);
    nodes := [];
    BuiltNone(next, here, n);
    var i := 0;
    while i < |children|
      invariant i <= |children|
      invariant forall k :: 0 <= k < |nodes| ==> Labelled(v, nodes[k])
      invariant BuiltSoFar(next, here, nodes, i, n)
    {
      ghost var q := here + [next(here)[i]];
      VisitPids(next, here, i, n);
      assert q[..|here|] == here;
      var node := BuildNode(v, kids, children[i], q);
      BuiltMore(next, here, nodes, i, n, node);
      nodes := nodes + [node];
      i := i + 1;
    }
    BuiltAll(next, here, nodes, n);
  }

  lemma VisitPids(next: Next, path: seq<Rec>, i: nat, n: nat)
    requires Bounded(next, n) && Valid(next, path) && i < |next(path)|
    ensures var q := path + [next(path)[i]];
            Valid(next, q) && |path| < n &&
            PidPaths(From(next, path, i, n)) ==
                PidPaths([q] + From(next, q, 0, n)) + PidPaths(From(next, path, i + 1, n))
  {
    hide Valid, Bounded, From, PidPaths;
    var q := path + [next(path)[i]];
    VisitChild(next, path, i, n, []);
    assert [] + From(next, path, i, n) == From(next, path, i, n) && [] + [q] == [q];
    PidPathsConcat([q] + From(next, q, 0, n), From(next, path, i + 1, n));
  }

  /** The nodes built so far hold the part of the listing before the i-th child. */
  ghost predicate BuiltSoFar(next: Next, path: seq<Rec>, nodes: seq<FamilyNode>, i: nat, n: nat)
    requires Bounded(next, n) && Valid(next, path) && i <= |next(path)|
  {
    PidPaths(From(next, path, 0, n)) == AllPaths(nodes, Pids(path)) + PidPaths(From(next, path, i, n))
  }

  lemma BuiltNone(next: Next, path: seq<Rec>, n: nat)
    requires Bounded(next, n) && Valid(next, path)
    ensures BuiltSoFar(next, path, [], 0, n)
  {
  }

  lemma BuiltMore(next: Next, path: seq<Rec>, nodes: seq<FamilyNode>, i: nat, n: nat, node: FamilyNode)
    requires Bounded(next, n) && Valid(next, path) && i < |next(path)| && BuiltSoFar(next, path, nodes, i, n)
    requires var q := path + [next(path)[i]];
             Valid(next, q) && Paths(node, Pids(path)) == PidPaths([q] + From(next, q, 0, n))
    ensures BuiltSoFar(next, path, nodes + [node], i + 1, n)
  {
    hide Valid, Bounded, From, PidPaths, Pids, Paths, AllPaths;
    VisitPids(next, path, i, n);
    AllPathsSnoc(nodes, node, Pids(path));
    Assoc(AllPaths(nodes, Pids(path)), Paths(node, Pids(path)), PidPaths(From(next, path, i + 1, n)));
  }

  lemma BuiltAll(next: Next, path: seq<Rec>, nodes: seq<FamilyNode>, n: nat)
    requires Bounded(next, n) && Valid(next, path) && BuiltSoFar(next, path, nodes, |next(path)|, n)
    ensures PidPaths(From(next, path, 0, n)) == AllPaths(nodes, Pids(path))
  {
    assert From(next, path, |next(path)|, n) == [];
  }

  lemma EndsBounded(v: View)
    requires v.Good()
    ensures Bounded(v.Walk(), |Known(v.f)|)
  {
  }

  lemma LabelledNode(v: View, t: FamilyNode)
    requires t.pid in Known(v.f) && t.comm == Known(v.f)[t.pid].comm && t.isTarget == (t.pid == v.target)
    requires forall i :: 0 <= i < |t.children| ==> Labelled(v, t.children[i])
    ensures Labelled(v, t)
  {
  }

  lemma NextIsKids(v: View, path: seq<Rec>, kids: map<Pid, seq<Pid>>)
    requires v.Good() && v.all && path != [] && SortedChildren(v.f, kids)
    ensures Pids(v.Walk()(path)) == if PidOf(Last(path)) in kids then kids[PidOf(Last(path))] else []
    ensures forall i :: 0 <= i < |v.Walk()(path)| ==> PidOf(v.Walk()(path)[i]) in Known(v.f)
  {
    hide View.Ends;
    var s := SortedOf(Kids(v.f, PidOf(Last(path))));
    assert v.KeptKids(path) == Kids(v.f, PidOf(Last(path)));
    assert forall i :: 0 <= i < |s| ==> s[i] in s;
  }

  /**
   * ProcessFamilyJSON: an unknown target is an error, otherwise the whole tree of the family root. The climb and
   * the recursion have to end: see Family.ClimbLoopsIff and FamilyLoops.TreeLoopsIff.
   */
  method ProcessFamilyJSON(f: Frozen, pid: Pid) returns (r: Option<FamilyNode>)
    requires pid in Known(f) ==> View(f, pid, true).Good()
    ensures r.None? <==> pid !in Known(f)
    ensures r.Some? ==>
      var v := View(f, pid, true); v.Good() && Labelled(v, r.value) && Paths(r.value, []) == PidPaths(Shown(v))
  {
    if pid !in f.byPID && pid !in f.ghosts { return None; }
    hide Shown, SortedChildren, Labelled, Paths, View.Ends;
    var kids := ChildrenMap(f);
    var root, _ := ClimbToRoot(Known(f), pid);
    var t := BuildAll(View(f, pid, true), root, kids);
    r := Some(t);
  }

  method BuildAll(v: View, root: Pid, kids: map<Pid, seq<Pid>>) returns (t: FamilyNode)
    requires v.Good() && v.all && root in Known(v.f)
    requires root == v.Root() && SortedChildren(v.f, kids)
    ensures Labelled(v, t) && Paths(t, []) == PidPaths(Shown(v))
  {
    hide Valid, From, SortedChildren, View.Rooted, View.Ends, View.Walk, Shown, Labelled, Paths, View.Root;
    StartsAtRoot(v);
    t := BuildNode(v, kids, root, [2 * root]);
    assert Pids([2 * root][..0]) == [];
  }
}
