/**
 * Family views of a process. The text view prints the chain from the topmost ancestor to the target, the
 * target's siblings and the target's whole subtree; the structured view holds the topmost ancestor's whole
 * subtree. A PID may have a live record and an exited one: children are collected from both, names and parents
 * are looked up in the live one first. Nothing is added from the proc file system.
 */
module Family {
  import opened Basics
  import opened Snapshot
  import opened Climb
  import opened Preorder

  // ---------------------------------------------------------------- records

  /** The live record of PID p has number 2p and the exited one 2p + 1, so sorting numbers sorts by PID. */
  type Rec = nat

  function PidOf(r: Rec): Pid {
    r / 2
  }

  function Pids(q: seq<Rec>): (s: seq<Pid>)
    ensures |s| == |q| && forall i :: 0 <= i < |q| ==> s[i] == PidOf(q[i])
  {
    seq(|q|, i requires 0 <= i < |q| => PidOf(q[i]))
  }

  predicate Recorded(f: Frozen, r: Rec) {
    if r % 2 == 0 then PidOf(r) in f.byPID else PidOf(r) in f.ghosts
  }

  function NodeOf(f: Frozen, r: Rec): Node
    requires Recorded(f, r)
  {
    if r % 2 == 0 then f.byPID[PidOf(r)] else f.ghosts[PidOf(r)]
  }

  ghost function Records(f: Frozen): (s: set<Rec>)
    ensures forall r :: r in s <==> Recorded(f, r)
  {
    (set p | p in f.byPID :: 2 * p) + (set p | p in f.ghosts :: 2 * p + 1)
  }

  /** What a PID is looked up as. */
  function Known(f: Frozen): Index {
    f.ghosts + f.byPID
  }

  function Primary(f: Frozen, p: Pid): Rec {
    if p in f.byPID then 2 * p else 2 * p + 1
  }

  /** The records that name p as parent. */
  ghost function Kids(f: Frozen, p: Pid): set<Rec> {
    set r | r in Records(f) && NodeOf(f, r).ppid == p
  }

  predicate Child(f: Frozen, p: Pid, c: Pid) {
    (c in f.byPID && f.byPID[c].ppid == p) || (c in f.ghosts && f.ghosts[c].ppid == p)
  }

  lemma ChildRecord(f: Frozen, p: Pid, c: Pid) returns (r: Rec)
    requires Child(f, p, c)
    ensures r in Kids(f, p) && PidOf(r) == c
  {
    r := if c in f.byPID && f.byPID[c].ppid == p then 2 * c else 2 * c + 1;
  }

  /** A chain of records' parents, read downwards. */
  ghost predicate DownPath(f: Frozen, d: seq<Pid>) {
    d != [] && forall i :: 0 <= i < |d| - 1 ==> Child(f, d[i], d[i + 1])
  }

  ghost predicate Leads(f: Frozen, d: seq<Pid>, t: Pid, p: Pid) {
    DownPath(f, d) && d[0] == t && Last(d) == p
  }

  /** p is t or below it. */
  ghost predicate AtOrBelow(f: Frozen, p: Pid, t: Pid) {
    exists d :: Leads(f, d, t, p)
  }

  /** p is strictly below t; below itself, if it is on a cycle. */
  ghost predicate Below(f: Frozen, p: Pid, t: Pid) {
    exists d :: Leads(f, d, t, p) && |d| > 1
  }

  // ---------------------------------------------------------------- the climb

  /** The parent the climb to the family root moves to. */
  function UpOf(m: Index, p: Pid): Option<Pid> {
    if p !in m || m[p].ppid == 0 || m[p].ppid == 1 || m[p].ppid == 2 then None
    else if m[p].ppid in m then Some(m[p].ppid) else None
  }

  function Up(m: Index): Step {
    p => UpOf(m, p)
  }

  predicate Climbs(m: Index, p: Pid) {
    StopsWithin(Up(m), p, |m|)
  }

  function ChainOf(m: Index, t: Pid): set<Pid>
    requires Climbs(m, t)
  {
    {t} + Above(Up(m), t, |m|)
  }

  function RootOf(m: Index, t: Pid): Pid
    requires Climbs(m, t)
  {
    Top(Up(m), t, |m|)
  }

  /** The climb runs forever exactly when the target leads into processes that all climb on into each other. */
  lemma ClimbLoopsIff(m: Index, p: Pid)
    ensures !Climbs(m, p) <==> exists s :: p in s && Trap(Up(m), s)
  {
    assert |m.Keys| == |m|;
    LoopsIffTrapped(Up(m), m.Keys, p);
  }

  /**
   * The ancestor chain is the least set that holds the target and, with a process, its parent if that is known and not
   * 0, 1 or 2; it ends in the root, which has no such parent.
   */
  lemma ChainExactly(m: Index, t: Pid)
    requires t in m && Climbs(m, t)
    ensures t in ChainOf(m, t) && ChainOf(m, t) <= m.Keys && RootOf(m, t) in ChainOf(m, t)
    ensures m[RootOf(m, t)].ppid in {0, 1, 2} || m[RootOf(m, t)].ppid !in m
    ensures forall p :: p in ChainOf(m, t) && p != RootOf(m, t) ==> m[p].ppid > 2 && m[p].ppid in ChainOf(m, t)
    ensures forall s: set<Pid> :: t in s && ClosedUpwards(m, s) ==> ChainOf(m, t) <= s
  {
    RootKnown(m, t);
    AboveInside(Up(m), m.Keys, t, |m|);
    forall p | p in ChainOf(m, t) && p != RootOf(m, t) ensures m[p].ppid > 2 && m[p].ppid in ChainOf(m, t) {
      if p != t { AboveTrans(Up(m), t, p, |m|); }
      TopReached(Up(m), p, |m|);
      FollowedStep(Up(m), p, |m|);
    }
    forall s: set<Pid> | t in s && ClosedUpwards(m, s) ensures ChainOf(m, t) <= s {
      AboveIn(m, s, t, |m|);
    }
  }

  ghost predicate ClosedUpwards(m: Index, s: set<Pid>) {
    forall p :: p in s && p in m && m[p].ppid > 2 && m[p].ppid in m ==> m[p].ppid in s
  }

  lemma {:induction false} AboveIn(m: Index, s: set<Pid>, p: Pid, k: nat)
    requires StopsWithin(Up(m), p, k) && p in s && ClosedUpwards(m, s)
    ensures Above(Up(m), p, k) <= s
    decreases k
  {
    if UpOf(m, p).Some? { AboveIn(m, s, UpOf(m, p).value, k - 1); }
  }

  lemma RootKnown(m: Index, t: Pid)
    requires t in m && Climbs(m, t)
    ensures RootOf(m, t) in m && RootOf(m, t) in ChainOf(m, t)
    ensures RootOf(m, t) != t <==> UpOf(m, t).Some?
  {
    TopReached(Up(m), t, |m|);
    TopInside(Up(m), m.Keys, t, |m|);
  }

  // ---------------------------------------------------------------- the walk

  /** A view: of everything below the root, or only of the target's relatives. */
  datatype View = View(f: Frozen, target: Pid, all: bool) {

    function Parent(): Pid
      requires target in Known(f)
    {
      Known(f)[target].ppid
    }

    /** The target is known and the climb from it ends. */
    predicate Rooted() {
      target in Known(f) && Climbs(Known(f), target)
    }

    function Root(): Pid
      requires Rooted()
    {
      RootOf(Known(f), target)
    }

    function Chain(): set<Pid>
      requires Rooted()
    {
      ChainOf(Known(f), target)
    }

    /** Which children of a node the view goes on to. */
    predicate Keeps(inSubtree: bool, node: Pid, c: Pid)
      requires Rooted()
    {
      all || ((c in Chain() || node == Parent() || inSubtree || node == target) && c != node)
    }

    ghost function KeptKids(path: seq<Rec>): set<Rec>
      requires Rooted() && path != []
    {
      var node := PidOf(Last(path));
      set r | r in Kids(f, node) && Keeps(target in Pids(path), node, PidOf(r))
    }

    ghost function NextOf(path: seq<Rec>): seq<Rec>
      requires Rooted()
    {
      if path == [] then [2 * Root()] else SortedOf(KeptKids(path))
    }

    ghost function Walk(): Next
      requires Rooted()
    {
      path => NextOf(path)
    }

    /** The walk goes no deeper than there are PIDs: the recursion ends. FamilyLoops says when. */
    ghost predicate Ends()
      requires Rooted()
    {
      Bounded(Walk(), |Known(f)|)
    }

    ghost predicate Good() {
      Rooted() && Ends()
    }
  }

  /** A chain of records from the family root down, each step kept. */
  ghost predicate ViewPath(v: View, q: seq<Rec>)
    requires v.Rooted()
  {
    q != [] && q[0] == 2 * v.Root() && forall i :: 0 < i < |q| ==> q[i] in v.KeptKids(q[..i])
  }

  lemma ValidIsViewPath(v: View, q: seq<Rec>)
    requires v.Rooted() && q != []
    ensures Valid(v.Walk(), q) <==> ViewPath(v, q)
  {
    assert q[0] in v.Walk()(q[..0]) <==> q[0] == 2 * v.Root();
    forall i | 0 < i < |q| ensures q[i] in v.Walk()(q[..i]) <==> q[i] in v.KeptKids(q[..i]) {}
  }

  lemma RootPath(v: View)
    requires v.Rooted()
    ensures ViewPath(v, [2 * v.Root()])
  {
  }

  lemma ShorterPath(v: View, q: seq<Rec>, k: nat)
    requires v.Rooted() && ViewPath(v, q) && 0 < k < |q|
    ensures ViewPath(v, q[..k]) && q[k] in v.KeptKids(q[..k])
  {
    hide View.KeptKids;
    forall i | 0 < i < k ensures q[..k][i] in v.KeptKids(q[..k][..i]) {
      assert q[..k][..i] == q[..i];
    }
  }

  lemma LongerPath(v: View, q: seq<Rec>, r: Rec)
    requires v.Rooted() && ViewPath(v, q) && r in v.KeptKids(q)
    ensures ViewPath(v, q + [r])
  {
    hide View.KeptKids;
    var p := q + [r];
    forall i | 0 < i < |p| ensures p[i] in v.KeptKids(p[..i]) {
      assert p[..i] == q[..i];
      if i == |q| { assert q[..i] == q; }
    }
  }

  lemma KeptIsChild(v: View, path: seq<Rec>, r: Rec)
    requires v.Rooted() && path != [] && r in v.KeptKids(path)
    ensures Child(v.f, PidOf(Last(path)), PidOf(r))
  {
  }

  /** One step down a path of the view. */
  lemma StepDown(v: View, q: seq<Rec>, k: nat)
    requires v.Rooted() && ViewPath(v, q) && 0 < k < |q|
    ensures Child(v.f, PidOf(q[k - 1]), PidOf(q[k]))
  {
    hide View.KeptKids, Child, Recorded;
    ShorterPath(v, q, k);
    KeptIsChild(v, q[..k], q[k]);
  }

  /** Read as PIDs, a path of the view leads down from the root. */
  lemma PathLeads(v: View, q: seq<Rec>, i: nat)
    requires v.Rooted() && ViewPath(v, q) && i < |q|
    ensures Leads(v.f, Pids(q[i..]), PidOf(q[i]), PidOf(Last(q)))
    ensures AtOrBelow(v.f, PidOf(Last(q)), PidOf(q[i]))
  {
    hide View.Rooted, ViewPath, Child;
    var d := Pids(q[i..]);
    forall k | 0 <= k < |d| - 1 ensures Child(v.f, d[k], d[k + 1]) {
      StepDown(v, q, i + k + 1);
    }
    assert Leads(v.f, d, PidOf(q[i]), PidOf(Last(q)));
  }

  lemma PathKnown(v: View, q: seq<Rec>)
    requires v.Rooted() && ViewPath(v, q)
    ensures forall i :: 0 <= i < |q| ==> PidOf(q[i]) in Known(v.f)
  {
    RootKnown(Known(v.f), v.target);
    forall i | 0 < i < |q| ensures PidOf(q[i]) in Known(v.f) {
      ShorterPath(v, q, i);
    }
  }

  // ---------------------------------------------------------------- the listing

  /** The paths a view shows, in order. */
  ghost function Shown(v: View): seq<seq<Rec>>
    requires v.Good()
  {
    From(v.Walk(), [], 0, |Known(v.f)|)
  }

  lemma ShownExactly(v: View)
    requires v.Good()
    ensures Ordered(Shown(v))
    ensures forall q :: q in Shown(v) <==> q != [] && ViewPath(v, q)
  {
    ListedInOrder(v.Walk(), [], 0, |Known(v.f)|);
    forall q ensures q in Shown(v) <==> q != [] && ViewPath(v, q) {
      Listed(v.Walk(), [], 0, |Known(v.f)|, q);
      if q != [] {
        ValidIsViewPath(v, q);
        assert q[..0] == [];
        assert q[0] in v.Walk()(q[..0]) <==> q[0] in v.Walk()([]);
      }
    }
  }

  ghost predicate Shows(v: View, q: seq<Rec>, p: Pid)
    requires v.Good()
  {
    q in Shown(v) && q != [] && PidOf(Last(q)) == p
  }

  ghost predicate ShowsPid(v: View, p: Pid)
    requires v.Good()
  {
    exists q :: Shows(v, q, p)
  }

  lemma PathShows(v: View, q: seq<Rec>)
    requires v.Good() && ViewPath(v, q)
    ensures Shows(v, q, PidOf(Last(q))) && ShowsPid(v, PidOf(Last(q)))
  {
    ShownExactly(v);
    assert Shows(v, q, PidOf(Last(q)));
  }

  // ---------------------------------------------------------------- what is shown

  /** Every process on the target's ancestor chain ends a path. */
  lemma {:induction false} ChainPath(v: View, p: Pid) returns (q: seq<Rec>)
    requires v.Rooted() && p in v.Chain()
    ensures q != [] && ViewPath(v, q) && PidOf(Last(q)) == p
    decreases if StopsWithin(Up(Known(v.f)), p, |Known(v.f)|) then Height(Up(Known(v.f)), p, |Known(v.f)|) else 0
  {
    hide View.KeptKids, ViewPath, View.Chain, ChainOf, View.Root;
    var m := Known(v.f);
    ChainIs(v);
    ChainStep(m, v.target, p);
    if UpOf(m, p).None? {
      q := [2 * v.Root()];
      RootPath(v);
    } else {
      var u := UpOf(m, p).value;
      q := ChainPath(v, u);
      PrimaryKept(v, q, p);
      LongerPath(v, q, Primary(v.f, p));
      q := q + [Primary(v.f, p)];
    }
  }

  lemma ChainIs(v: View)
    requires v.Rooted()
    ensures v.Chain() == ChainOf(Known(v.f), v.target) && v.Root() == RootOf(Known(v.f), v.target)
  {
  }

  lemma PrimaryKept(v: View, q: seq<Rec>, p: Pid)
    requires v.Rooted() && q != [] && p in v.Chain()
    requires UpOf(Known(v.f), p) == Some(PidOf(Last(q))) && PidOf(Last(q)) != p
    ensures Primary(v.f, p) in v.KeptKids(q) && PidOf(Primary(v.f, p)) == p
  {
    hide View.Rooted, View.Chain, Kids, Primary;
    PrimaryIsKid(v.f, p);
  }

  lemma PrimaryIsKid(f: Frozen, p: Pid)
    requires p in Known(f)
    ensures Primary(f, p) in Kids(f, Known(f)[p].ppid) && PidOf(Primary(f, p)) == p
  {
  }

  /** The chain is climbed link by link, up to the root. */
  lemma ChainStep(m: Index, t: Pid, p: Pid)
    requires t in m && Climbs(m, t) && p in ChainOf(m, t)
    ensures p in m && StopsWithin(Up(m), p, |m|)
    ensures UpOf(m, p).None? ==> p == RootOf(m, t)
    ensures UpOf(m, p).Some? ==>
      var u := UpOf(m, p).value;
      u != p && u in ChainOf(m, t) && StopsWithin(Up(m), u, |m|) && Height(Up(m), u, |m|) < Height(Up(m), p, |m|)
  {
    var up := Up(m);
    if p != t {
      AboveTrans(up, t, p, |m|);
      AboveInside(up, m.Keys, t, |m|);
    }
    if up(p).Some? { FollowedStep(up, p, |m|); }
  }

  /**
   * In a subtree that is shown whole, every descent can be walked; only a process that is its own parent is skipped.
   */
  lemma {:induction false} Descend(v: View, q: seq<Rec>, d: seq<Pid>) returns (w: seq<Rec>)
    requires v.Rooted() && ViewPath(v, q) && (v.all || v.target in Pids(q))
    requires DownPath(v.f, d) && d[0] == PidOf(Last(q))
    ensures ViewPath(v, w) && q <= w && PidOf(Last(w)) == Last(d)
    ensures |d| > 1 && (v.all || d[|d| - 2] != Last(d)) ==> |w| > |q|
    decreases |d|
  {
    hide View.Rooted, View.KeptKids, Child;
    if |d| == 1 {
      w := q;
    } else {
      var init := d[..|d| - 1];
      assert DownPath(v.f, init) && Child(v.f, Last(init), Last(d));
      w := Descend(v, q, init);
      if v.all || Last(init) != Last(d) {
        var r := ChildRecord(v.f, Last(init), Last(d));
        assert v.all || v.target in Pids(w) by { TargetStays(v, q, w); }
        KeptBelow(v, w, r);
        LongerPath(v, w, r);
        w := w + [r];
      }
    }
  }

  lemma KeptBelow(v: View, w: seq<Rec>, r: Rec)
    requires v.Rooted() && w != [] && r in Kids(v.f, PidOf(Last(w)))
    requires v.all || (v.target in Pids(w) && PidOf(r) != PidOf(Last(w)))
    ensures r in v.KeptKids(w)
  {
    hide View.Rooted, View.Chain, Kids;
  }

  lemma TargetStays(v: View, q: seq<Rec>, w: seq<Rec>)
    requires q <= w
    ensures v.target in Pids(q) ==> v.target in Pids(w)
  {
    if v.target in Pids(q) {
      var i :| 0 <= i < |q| && Pids(q)[i] == v.target;
      assert Pids(w)[i] == v.target;
    }
  }

  /** Every process at or below the target ends a path through the target. */
  lemma SubtreePath(v: View, p: Pid) returns (q: seq<Rec>)
    requires v.Rooted() && AtOrBelow(v.f, p, v.target)
    ensures ViewPath(v, q) && PidOf(Last(q)) == p && v.target in Pids(q)
  {
    var d :| Leads(v.f, d, v.target, p);
    var w := ChainPath(v, v.target);
    assert Pids(w)[|w| - 1] == v.target;
    q := Descend(v, w, d);
    TargetStays(v, w, q);
  }

  /** The target has a parent row and p is recorded as a child of that parent. */
  ghost predicate Sibling(v: View, p: Pid)
    requires v.Rooted()
  {
    v.Root() != v.target && Child(v.f, v.Parent(), p)
  }

  lemma SiblingPath(v: View, p: Pid) returns (q: seq<Rec>)
    requires v.Rooted() && Sibling(v, p)
    ensures ViewPath(v, q) && PidOf(Last(q)) == p
  {
    RootKnown(Known(v.f), v.target);
    ChainStep(Known(v.f), v.target, v.target);
    q := ChainPath(v, v.Parent());
    if p != v.Parent() {
      var r := ChildRecord(v.f, v.Parent(), p);
      LongerPath(v, q, r);
      q := q + [r];
    }
  }

  lemma PathReason(v: View, q: seq<Rec>)
    requires v.Rooted() && !v.all && ViewPath(v, q)
    ensures var p := PidOf(Last(q)); p in v.Chain() || Sibling(v, p) || AtOrBelow(v.f, p, v.target)
  {
    RootKnown(Known(v.f), v.target);
    if |q| > 1 {
      var k := |q| - 1;
      ShorterPath(v, q, k);
      if v.target in Pids(q[..k]) {
        var i :| 0 <= i < k && Pids(q[..k])[i] == v.target;
        PathLeads(v, q, i);
      } else {
        assert Pids(q[..k])[0] == v.Root() && Pids(q[..k])[k - 1] == PidOf(Last(q[..k]));
      }
    }
  }

  /** ProcessFamily prints the ancestor chain, the target's siblings, the target's subtree, and nothing else. */
  lemma FamilyExactly(v: View, p: Pid)
    requires v.Good() && !v.all
    ensures ShowsPid(v, p) <==> p in v.Chain() || Sibling(v, p) || AtOrBelow(v.f, p, v.target)
  {
    hide View.Ends, ViewPath, Shown;
    ShownExactly(v);
    if ShowsPid(v, p) {
      var q :| Shows(v, q, p);
      PathReason(v, q);
    }
    if p in v.Chain() {
      var q := ChainPath(v, p);
      PathShows(v, q);
    }
    if Sibling(v, p) {
      var q := SiblingPath(v, p);
      PathShows(v, q);
    }
    if AtOrBelow(v.f, p, v.target) {
      var q := SubtreePath(v, p);
      PathShows(v, q);
    }
  }

  /** ProcessFamilyJSON holds the family root and everything below it. */
  lemma FamilyTreeExactly(v: View, p: Pid)
    requires v.Good() && v.all
    ensures ShowsPid(v, p) <==> AtOrBelow(v.f, p, v.Root())
  {
    hide View.Ends, ViewPath, Shown, View.Root, Leads;
    ShownExactly(v);
    if ShowsPid(v, p) {
      var q :| Shows(v, q, p);
      FromRoot(v, q);
    }
    if AtOrBelow(v.f, p, v.Root()) {
      var q := BelowRootPath(v, p);
      PathShows(v, q);
    }
  }

  lemma FromRoot(v: View, q: seq<Rec>)
    requires v.Rooted() && ViewPath(v, q)
    ensures AtOrBelow(v.f, PidOf(Last(q)), v.Root())
  {
    hide View.KeptKids, Leads;
    assert PidOf(q[0]) == v.Root();
    PathLeads(v, q, 0);
  }

  lemma BelowRootPath(v: View, p: Pid) returns (q: seq<Rec>)
    requires v.Rooted() && v.all && AtOrBelow(v.f, p, v.Root())
    ensures ViewPath(v, q) && PidOf(Last(q)) == p
  {
    var d :| Leads(v.f, d, v.Root(), p);
    RootPath(v);
    q := Descend(v, [2 * v.Root()], d);
  }

  /** The target itself is always shown, in both views. */
  lemma TargetShown(v: View)
    requires v.Good()
    ensures ShowsPid(v, v.target)
  {
    var q := ChainPath(v, v.target);
    PathShows(v, q);
  }
}
