/** When the family walks end, and when they show a PID twice. */
module FamilyLoops {
  import opened Basics
  import opened Snapshot
  import opened Climb
  import opened Preorder
  import opened Family

  // ---------------------------------------------------------------- going round

  /** What is kept depends on the node and on whether the target has been passed, which stays so. */
  lemma KeptAgain(v: View, q: seq<Rec>, w: seq<Rec>, r: Rec)
    requires v.Rooted() && q != [] && w != [] && r in v.KeptKids(q) && PidOf(Last(q)) == PidOf(Last(w))
    requires v.target in Pids(q) ==> v.target in Pids(w)
    ensures r in v.KeptKids(w)
  {
    hide View.Rooted, View.Chain, Kids;
  }

  /** A path that has come back to a PID can go the same way again. */
  lemma {:induction false} GoAgain(v: View, q: seq<Rec>, i: nat, k: nat)
    requires v.Rooted() && ViewPath(v, q) && i < k <= |q| && PidOf(q[i]) == PidOf(Last(q))
    ensures ViewPath(v, q + q[i + 1..k])
  {
    hide View.KeptKids, ViewPath, View.Rooted, Pids;
    if k == i + 1 {
      assert q + q[i + 1..k] == q;
    } else {
      GoAgain(v, q, i, k - 1);
      OneMoreStep(v, q, k - 1, q + q[i + 1..k - 1]);
      assert q + q[i + 1..k - 1] + [q[k - 1]] == q + q[i + 1..k];
    }
  }

  /** Where a longer path stands as q stood before step k, it can take that step too. */
  lemma OneMoreStep(v: View, q: seq<Rec>, k: nat, w: seq<Rec>)
    requires v.Rooted() && ViewPath(v, q) && 0 < k < |q| && ViewPath(v, w) && q <= w
    requires PidOf(Last(w)) == PidOf(q[k - 1])
    ensures ViewPath(v, w + [q[k]])
  {
    hide View.KeptKids, ViewPath, View.Rooted, Pids;
    ShorterPath(v, q, k);
    TargetKept(v, q, k, w);
    KeptAgain(v, q[..k], w, q[k]);
    LongerPath(v, w, q[k]);
  }

  lemma TargetKept(v: View, q: seq<Rec>, k: nat, w: seq<Rec>)
    requires k <= |q| && q <= w
    ensures v.target in Pids(q[..k]) ==> v.target in Pids(w)
  {
    if v.target in Pids(q[..k]) {
      var i :| 0 <= i < k && Pids(q[..k])[i] == v.target;
      assert Pids(w)[i] == v.target;
    }
  }

  /** So there are paths of any length. */
  lemma {:induction false} GoOn(v: View, q: seq<Rec>, i: nat, n: nat) returns (w: seq<Rec>)
    requires v.Rooted() && ViewPath(v, q) && i < |q| - 1 && PidOf(q[i]) == PidOf(Last(q))
    ensures ViewPath(v, w) && |w| > n
    decreases n + 1 - |q|
  {
    hide ViewPath, PidOf, View.Rooted;
    if |q| > n {
      w := q;
    } else {
      GoAgain(v, q, i, |q|);
      var more := q + q[i + 1..|q|];
      assert Last(more) == Last(q) && more[i] == q[i];
      w := GoOn(v, more, i, n);
    }
  }

  /** The walk ends exactly if no path comes back to a PID ... */
  lemma EndsIff(v: View)
    requires v.Rooted()
    ensures v.Ends() <==> forall q :: ViewPath(v, q) ==> Distinct(Pids(q))
  {
    if v.Ends() {
      forall q | ViewPath(v, q) ensures Distinct(Pids(q)) {
        NoRepeat(v, |Known(v.f)|, q);
      }
    }
    if forall q :: ViewPath(v, q) ==> Distinct(Pids(q)) {
      forall q: Path | Valid(v.Walk(), q) ensures |q| <= |Known(v.f)| {
        if q != [] {
          ValidIsViewPath(v, q);
          PathKnown(v, q);
          DistinctSize(Pids(q), Known(v.f).Keys);
        }
      }
    }
  }

  lemma PathPrefix(v: View, q: seq<Rec>, k: nat)
    requires v.Rooted() && ViewPath(v, q) && 0 < k <= |q|
    ensures ViewPath(v, q[..k])
  {
    if k < |q| { ShorterPath(v, q, k); } else { assert q[..k] == q; }
  }

  lemma NoRepeat(v: View, n: nat, q: seq<Rec>)
    requires v.Rooted() && Bounded(v.Walk(), n) && ViewPath(v, q)
    ensures Distinct(Pids(q))
  {
    hide ViewPath, View.Walk, PidOf, View.Rooted;
    forall i, j | 0 <= i < j < |q| ensures Pids(q)[i] != Pids(q)[j] {
      if PidOf(q[i]) == PidOf(q[j]) {
        PathPrefix(v, q, j + 1);
        assert Last(q[..j + 1]) == q[j];
        var w := GoOn(v, q[..j + 1], i, n);
        ValidIsViewPath(v, w);
        assert false;
      }
    }
  }

  /** ... and if it ends at any depth, it ends within as many levels as there are PIDs. */
  lemma EndsWithinSize(v: View, n: nat)
    requires v.Rooted() && Bounded(v.Walk(), n)
    ensures v.Ends()
  {
    forall q | ViewPath(v, q) ensures Distinct(Pids(q)) {
      NoRepeat(v, n, q);
    }
    EndsIff(v);
  }

  lemma RepeatLoops(v: View, q: seq<Rec>, i: nat)
    requires v.Rooted() && ViewPath(v, q) && i < |q| - 1 && PidOf(q[i]) == PidOf(Last(q))
    ensures !v.Ends()
  {
    EndsIff(v);
    assert Pids(q)[i] == Pids(q)[|q| - 1];
  }

  /** A walk that does not end has a path that ends where it was before. */
  lemma LoopPath(v: View) returns (q: seq<Rec>, i: nat)
    requires v.Rooted() && !v.Ends()
    ensures ViewPath(v, q) && i < |q| - 1 && PidOf(q[i]) == PidOf(Last(q))
  {
    hide ViewPath, PidOf, View.Rooted, View.Ends;
    EndsIff(v);
    var w :| ViewPath(v, w) && !Distinct(Pids(w));
    var k, j :| 0 <= k < j < |Pids(w)| && Pids(w)[k] == Pids(w)[j];
    PathPrefix(v, w, j + 1);
    q, i := w[..j + 1], k;
    assert Last(q) == w[j];
  }

  // ---------------------------------------------------------------- exact conditions

  /** ProcessFamilyJSON recurses forever exactly if some process at or below the family root is below itself. */
  lemma TreeLoopsIff(v: View)
    requires v.Rooted() && v.all
    ensures !v.Ends() <==> exists p :: AtOrBelow(v.f, p, v.Root()) && Below(v.f, p, p)
  {
    hide View.Ends, ViewPath, View.Root;
    if !v.Ends() {
      var q, i := LoopPath(v);
      PathLeads(v, q, i);
      FromRoot(v, q);
      assert Below(v.f, PidOf(Last(q)), PidOf(q[i]));
    }
    if p :| AtOrBelow(v.f, p, v.Root()) && Below(v.f, p, p) {
      var q := BelowRootPath(v, p);
      var d :| Leads(v.f, d, p, p) && |d| > 1;
      var w := Descend(v, q, d);
      assert w[|q| - 1] == Last(q);
      RepeatLoops(v, w, |q| - 1);
    }
  }

  /** A way back to its start on which no process is its own parent. */
  ghost predicate Round(f: Frozen, d: seq<Pid>) {
    DownPath(f, d) && |d| > 1 && d[0] == Last(d) && forall i :: 0 <= i < |d| - 1 ==> d[i] != d[i + 1]
  }

  /** All of it printed for the chain's sake, or as siblings of the target. */
  ghost predicate Printed(v: View, d: seq<Pid>)
    requires v.Rooted()
  {
    forall i :: 0 <= i < |d| - 1 ==> d[i + 1] in v.Chain() || d[i] == v.Parent()
  }

  /**
   * A cycle that the text view walks round: at or below the target, or one of chain and siblings that meets the chain.
   */
  ghost predicate Circles(v: View, d: seq<Pid>)
    requires v.Rooted()
  {
    Round(v.f, d) && (AtOrBelow(v.f, d[0], v.target) || (d[0] in v.Chain() && Printed(v, d)))
  }

  /** For any snapshot, ProcessFamily recurses forever exactly if the records hold such a cycle. */
  lemma TextLoopsIff(v: View)
    requires v.Rooted() && !v.all
    ensures !v.Ends() <==> exists d :: Circles(v, d)
  {
    hide View.Ends, ViewPath, Circles, View.Rooted;
    if !v.Ends() {
      var d := CircleOf(v);
    }
    if d :| Circles(v, d) {
      CircleLoops(v, d);
    }
  }

  lemma CircleLoops(v: View, d: seq<Pid>)
    requires v.Rooted() && !v.all && Circles(v, d)
    ensures !v.Ends()
  {
    hide View.Ends, ViewPath, View.KeptKids, Leads, View.Rooted, View.Chain;
    var q, w;
    if AtOrBelow(v.f, d[0], v.target) {
      q := SubtreePath(v, d[0]);
      assert d[|d| - 2] != d[|d| - 1];
      w := Descend(v, q, d);
    } else {
      q := ChainPath(v, d[0]);
      w := WalkPrinted(v, q, d);
    }
    assert w[|q| - 1] == Last(q);
    RepeatLoops(v, w, |q| - 1);
  }

  /** What is printed for the chain's sake or as siblings can be walked. */
  lemma {:induction false} WalkPrinted(v: View, q: seq<Rec>, d: seq<Pid>) returns (w: seq<Rec>)
    requires v.Rooted() && ViewPath(v, q) && q != [] && DownPath(v.f, d) && d[0] == PidOf(Last(q)) && Printed(v, d)
    requires forall i :: 0 <= i < |d| - 1 ==> d[i] != d[i + 1]
    ensures ViewPath(v, w) && q <= w && |w| == |q| + |d| - 1 && PidOf(Last(w)) == Last(d)
    decreases |d|
  {
    hide View.Rooted, View.Chain, ViewPath, View.KeptKids, PidOf, Child;
    if |d| == 1 {
      w := q;
    } else {
      var init := d[..|d| - 1];
      w := WalkPrinted(v, q, init);
      assert Child(v.f, d[|d| - 2], d[|d| - 1]) && Last(init) == d[|d| - 2];
      var r := ChildRecord(v.f, Last(init), Last(d));
      PrintedKept(v, w, r);
      LongerPath(v, w, r);
      w := w + [r];
    }
  }

  lemma PrintedKept(v: View, w: seq<Rec>, r: Rec)
    requires v.Rooted() && w != [] && r in Kids(v.f, PidOf(Last(w))) && PidOf(r) != PidOf(Last(w))
    requires PidOf(r) in v.Chain() || PidOf(Last(w)) == v.Parent()
    ensures r in v.KeptKids(w)
  {
  }

  /** The cycle that a text view walks round. */
  lemma CircleOf(v: View) returns (d: seq<Pid>)
    requires v.Rooted() && !v.all && !v.Ends()
    ensures Circles(v, d)
  {
    hide View.Ends, ViewPath, View.KeptKids, Leads, View.Rooted, View.Chain, PidOf, Child;
    var q, i := LoopPath(v);
    RoundOf(v, q, i);
    d := Pids(q[i..]);
    if v.target in Pids(q) {
      var a :| 0 <= a < |q| && Pids(q)[a] == v.target;
      PathLeads(v, q, a);
    } else {
      var n := |d| - 1;
      StartsAtRoot(v, q);
      assert Pids(q)[0] == v.Root();
      RootParent(v);
      if d[0] !in v.Chain() {
        assert d[n] !in v.Chain() && d[n - 1] == v.Parent();
        d := Turned(v, d);
      }
    }
  }

  lemma RoundOf(v: View, q: seq<Rec>, i: nat)
    requires v.Rooted() && !v.all && ViewPath(v, q) && i < |q| - 1 && PidOf(q[i]) == PidOf(Last(q))
    ensures Round(v.f, Pids(q[i..])) && Pids(q[i..])[0] == PidOf(Last(q))
    ensures v.target in Pids(q) || Printed(v, Pids(q[i..]))
  {
    hide View.KeptKids, ViewPath, View.Chain, PidOf, Child, ChainOf, Climbs;
    var d := Pids(q[i..]);
    forall k | 0 <= k < |d| - 1
      ensures Child(v.f, d[k], d[k + 1]) && d[k] != d[k + 1]
      ensures v.target in Pids(q) || d[k + 1] in v.Chain() || d[k] == v.Parent()
    {
      KeptBecause(v, q, i + k + 1);
    }
  }

  /** A cycle that ends with a child of the target's parent, begun one step earlier. */
  lemma Turned(v: View, d: seq<Pid>) returns (e: seq<Pid>)
    requires v.Rooted() && Round(v.f, d) && Printed(v, d) && d[|d| - 2] == v.Parent()
    ensures Round(v.f, e) && Printed(v, e) && e[0] == v.Parent()
  {
    hide View.Chain, Child, ChainOf, Climbs;
    var n := |d| - 1;
    e := [d[n - 1]] + d[..n];
    assert Child(v.f, d[n - 1], d[n]) && d[n - 1] != d[n];
    forall k | 0 <= k < |e| - 1
      ensures Child(v.f, e[k], e[k + 1]) && e[k] != e[k + 1] && (e[k + 1] in v.Chain() || e[k] == v.Parent())
    {
      if k > 0 { assert Child(v.f, d[k - 1], d[k]) && d[k - 1] != d[k]; }
    }
  }

  /** No PID has both a live and an exited record. */
  predicate OneRecord(f: Frozen) {
    f.byPID.Keys !! f.ghosts.Keys
  }

  lemma ParentIs(f: Frozen, p: Pid, c: Pid)
    requires OneRecord(f)
    ensures Child(f, p, c) <==> c in Known(f) && Known(f)[c].ppid == p
  {
  }

  /** Then only the root can be come back to first, as all other PIDs have one parent. */
  lemma {:induction false} BackToRoot(v: View, q: seq<Rec>, i: nat, j: nat)
    requires OneRecord(v.f) && v.Rooted() && ViewPath(v, q) && i < j < |q| && PidOf(q[i]) == PidOf(q[j])
    ensures PidOf(q[j - i]) == v.Root()
  {
    hide PidOf, View.Rooted, ViewPath, Child, Known, OneRecord;
    if i > 0 {
      StepDown(v, q, i);
      StepDown(v, q, j);
      ParentIs(v.f, PidOf(q[i - 1]), PidOf(q[i]));
      ParentIs(v.f, PidOf(q[j - 1]), PidOf(q[j]));
      BackToRoot(v, q, i - 1, j - 1);
    } else {
      StartsAtRoot(v, q);
    }
  }

  lemma StartsAtRoot(v: View, q: seq<Rec>)
    requires v.Rooted() && ViewPath(v, q)
    ensures q != [] && PidOf(q[0]) == v.Root()
  {
  }

  lemma RootLoop(v: View) returns (q: seq<Rec>)
    requires OneRecord(v.f) && v.Rooted() && !v.Ends()
    ensures ViewPath(v, q) && |q| > 1 && PidOf(Last(q)) == v.Root()
    ensures Below(v.f, v.Root(), v.Root())
  {
    hide View.Ends, ViewPath, Leads, PidOf, OneRecord, View.Rooted, View.Root;
    var w, i := LoopPath(v);
    var k := |w| - 1 - i;
    BackToRoot(v, w, i, |w| - 1);
    PathPrefix(v, w, k + 1);
    q := w[..k + 1];
    assert Last(q) == w[k];
    PathLeads(v, q, 0);
    StartsAtRoot(v, q);
    assert q[0..] == q;
    assert |Pids(q[0..])| > 1;
  }

  /** With one record per PID: exactly if the root is its own ancestor. A cycle elsewhere does not matter. */
  lemma TreeLoopsIffRoot(v: View)
    requires OneRecord(v.f) && v.Rooted() && v.all
    ensures !v.Ends() <==> Below(v.f, v.Root(), v.Root())
  {
    hide View.Ends, ViewPath, View.Root, Leads;
    if !v.Ends() {
      var _ := RootLoop(v);
    }
    if Below(v.f, v.Root(), v.Root()) {
      SelfBelow(v.f, v.Root());
      TreeLoopsIff(v);
    }
  }

  lemma SelfBelow(f: Frozen, p: Pid)
    ensures AtOrBelow(f, p, p)
  {
    assert Leads(f, [p], p, p);
  }

  /** The root's recorded parent is the target's sibling. */
  predicate ParentIsSibling(v: View)
    requires v.Rooted() && v.Root() in Known(v.f)
  {
    var x := Known(v.f)[v.Root()].ppid;
    x in Known(v.f) && Known(v.f)[x].ppid == v.Parent()
  }

  /**
   * With one record per PID: exactly if the root is its own ancestor but not its own parent, and the way round is
   * printed: the target is on it, or the root's parent is printed as the target's sibling.
   */
  lemma TextLoopsIffRoot(v: View)
    requires OneRecord(v.f) && v.Rooted() && !v.all
    ensures v.Root() in Known(v.f)
    ensures !v.Ends() <==> Below(v.f, v.Root(), v.Root()) && Known(v.f)[v.Root()].ppid != v.Root() &&
                           (AtOrBelow(v.f, v.Root(), v.target) || ParentIsSibling(v))
  {
    hide View.Ends, ViewPath, View.KeptKids, Leads, Child;
    RootKnown(Known(v.f), v.target);
    var parent := Known(v.f)[v.Root()].ppid;
    if !v.Ends() {
      var q := RootLoop(v);
      LoopReason(v, q);
    }
    if Below(v.f, v.Root(), v.Root()) && parent != v.Root() {
      if AtOrBelow(v.f, v.Root(), v.target) {
        TargetLoops(v);
      } else if ParentIsSibling(v) {
        SelfBelow(v.f, v.target);
        SiblingLoops(v);
      }
    }
  }

  /** The root's parent, if known, is one of the PIDs at which a climb stops; so no climb passes it. */
  lemma RootParent(v: View)
    requires v.Rooted()
    ensures v.Root() in Known(v.f)
    ensures var x := Known(v.f)[v.Root()].ppid; x in Known(v.f) && x in v.Chain() ==> x == v.target
    ensures v.Root() != v.target ==> v.Parent() in v.Chain() && Known(v.f)[v.Root()].ppid != v.Parent()
  {
    var m := Known(v.f);
    RootKnown(m, v.target);
    assert UpOf(m, v.Root()).None?;
    var x := m[v.Root()].ppid;
    if x in m && x in v.Chain() && x != v.target {
      AboveIsUp(Up(m), v.target, |m|, x);
    }
    if v.Root() != v.target { ChainStep(m, v.target, v.target); }
  }

  lemma {:induction false} AboveIsUp(up: Step, p: Pid, k: nat, q: Pid)
    requires StopsWithin(up, p, k) && q in Above(up, p, k)
    ensures exists y :: up(y) == Some(q)
    decreases k
  {
    if up(p).value != q {
      AboveIsUp(up, up(p).value, k - 1, q);
    }
  }

  /** Why the text view comes back to the root. */
  lemma LoopReason(v: View, q: seq<Rec>)
    requires OneRecord(v.f) && v.Rooted() && !v.all && ViewPath(v, q) && |q| > 1 && PidOf(Last(q)) == v.Root()
    ensures v.Root() in Known(v.f) && Known(v.f)[v.Root()].ppid != v.Root()
    ensures AtOrBelow(v.f, v.Root(), v.target) || ParentIsSibling(v)
  {
    hide Leads, View.Ends, PidOf, ViewPath, View.Rooted, View.Root, View.Chain, Child, OneRecord, Known, View.KeptKids,
        View.Keeps;
    var k := |q| - 1;
    RootParent(v);
    KeptBecause(v, q, k);
    var x := PidOf(q[k - 1]);
    ParentIs(v.f, x, v.Root());
    StartsAtRoot(v, q);
    assert k > 1;
    KeptBecause(v, q, k - 1);
    ParentIs(v.f, PidOf(q[k - 2]), x);
    if v.target in Pids(q) {
      var i :| 0 <= i < |q| && Pids(q)[i] == v.target;
      PathLeads(v, q, i);
    } else {
      assert Pids(q)[k - 1] == x && Pids(q)[k - 2] == PidOf(q[k - 2]);
    }
  }

  /** Why the text view goes on to the k-th process of a path. */
  lemma KeptBecause(v: View, q: seq<Rec>, k: nat)
    requires v.Rooted() && !v.all && ViewPath(v, q) && 0 < k < |q|
    ensures var u, c := PidOf(q[k - 1]), PidOf(q[k]);
            Child(v.f, u, c) && c != u && (c in v.Chain() || u == v.Parent() || v.target in Pids(q))
  {
    hide PidOf, View.Chain;
    StepDown(v, q, k);
    ShorterPath(v, q, k);
    assert Last(q[..k]) == q[k - 1] && Pids(q)[k - 1] == PidOf(q[k - 1]);
    TargetKept(v, q, k, q);
  }

  /** The root is below the target: from the target the walk comes back to it. */
  lemma TargetLoops(v: View)
    requires OneRecord(v.f) && v.Rooted() && v.Root() in Known(v.f) && Known(v.f)[v.Root()].ppid != v.Root()
    requires Below(v.f, v.Root(), v.Root()) && AtOrBelow(v.f, v.Root(), v.target)
    ensures !v.Ends()
  {
    hide View.Ends, View.KeptKids, Child;
    var q := ChainPath(v, v.target);
    assert Pids(q)[|q| - 1] == v.target;
    var d :| Leads(v.f, d, v.target, v.Root()) && (v.target == v.Root() ==> |d| > 1);
    if |d| > 1 { ParentIs(v.f, d[|d| - 2], v.Root()); }
    var w := Descend(v, q, d);
    assert PidOf(w[0]) == v.Root();
    assert |w| > 1;
    RepeatLoops(v, w, 0);
  }

  /** The root's parent is printed as the target's sibling, and the root below it as part of the chain. */
  lemma SiblingLoops(v: View)
    requires OneRecord(v.f) && v.Rooted() && v.Root() in Known(v.f) && v.Root() != v.target && !v.all
    requires Known(v.f)[v.Root()].ppid != v.Root() && ParentIsSibling(v)
    ensures !v.Ends()
  {
    hide View.Ends, Leads;
    var x := Known(v.f)[v.Root()].ppid;
    ParentIs(v.f, v.Parent(), x);
    ParentIs(v.f, x, v.Root());
    RootKnown(Known(v.f), v.target);
    var q := SiblingPath(v, x);
    var r := ChildRecord(v.f, x, v.Root());
    LongerPath(v, q, r);
    var w := q + [r];
    assert PidOf(w[0]) == v.Root();
    RepeatLoops(v, w, 0);
  }

  // ---------------------------------------------------------------- a PID shown twice

  /** A record's row: its parent is shown, and what is printed below that includes it. */
  ghost predicate RecordShown(v: View, r: Rec)
    requires v.Good()
  {
    Recorded(v.f, r) &&
    var u := NodeOf(v.f, r).ppid;
    ShowsPid(v, u) && v.Keeps(AtOrBelow(v.f, u, v.target), u, PidOf(r))
  }

  lemma RecordShownIff(v: View, r: Rec)
    requires v.Good()
    ensures RecordShown(v, r) <==> exists q :: EndsIn(v, q, r)
  {
    hide Shown, View.Ends, Leads;
    if q :| EndsIn(v, q, r) { RowOfRecord(v, q, r); }
    if RecordShown(v, r) {
      var _ := RecordPath(v, r);
    }
  }

  ghost predicate EndsIn(v: View, q: seq<Rec>, r: Rec)
    requires v.Rooted()
  {
    ViewPath(v, q) && |q| > 1 && Last(q) == r
  }

  lemma RowOfRecord(v: View, q: seq<Rec>, r: Rec)
    requires v.Good() && EndsIn(v, q, r)
    ensures RecordShown(v, r)
  {
    hide Shown, View.Ends, Leads;
    var k := |q| - 1;
    ShorterPath(v, q, k);
    PathShows(v, q[..k]);
    if v.target in Pids(q[..k]) {
      var i :| 0 <= i < k && Pids(q[..k])[i] == v.target;
      PathLeads(v, q[..k], i);
    }
  }

  lemma RecordPath(v: View, r: Rec) returns (q: seq<Rec>)
    requires v.Good() && RecordShown(v, r)
    ensures EndsIn(v, q, r)
  {
    hide View.Ends, Leads;
    var u := NodeOf(v.f, r).ppid;
    var p;
    if AtOrBelow(v.f, u, v.target) {
      p := SubtreePath(v, u);
    } else {
      ShownExactly(v);
      p :| Shows(v, p, u);
    }
    LongerPath(v, p, r);
    q := p + [r];
  }

  /** Two different paths to one PID part where a PID has both its records shown. */
  lemma {:induction false} Parting(v: View, a: seq<Rec>, b: seq<Rec>) returns (p: Pid)
    requires v.Good() && ViewPath(v, a) && ViewPath(v, b) && a != b && PidOf(Last(a)) == PidOf(Last(b))
    ensures RecordShown(v, 2 * p) && RecordShown(v, 2 * p + 1)
    decreases |a|
  {
    hide View.Ends, RecordShown, View.Rooted, ViewPath, PidOf, View.Root;
    StartsAtRoot(v, a);
    StartsAtRoot(v, b);
    RootOnce(v, a);
    RootOnce(v, b);
    assert |a| > 1 && |b| > 1;
    if Last(a) != Last(b) {
      p := PidOf(Last(a));
      RowOfRecord(v, a, Last(a));
      RowOfRecord(v, b, Last(b));
      TwoRecords(Last(a), Last(b));
    } else {
      StripBoth(v, a, b);
      p := Parting(v, a[..|a| - 1], b[..|b| - 1]);
    }
  }

  lemma TwoRecords(x: Rec, y: Rec)
    requires PidOf(x) == PidOf(y) && x != y
    ensures (x == 2 * PidOf(x) && y == 2 * PidOf(x) + 1) || (y == 2 * PidOf(x) && x == 2 * PidOf(x) + 1)
  {
  }

  /** Two different paths to one record have different paths to its parent before them. */
  lemma StripBoth(v: View, a: seq<Rec>, b: seq<Rec>)
    requires v.Rooted() && ViewPath(v, a) && ViewPath(v, b) && |a| > 1 && |b| > 1 && a != b && Last(a) == Last(b)
    ensures var c, d := a[..|a| - 1], b[..|b| - 1];
            c != d && ViewPath(v, c) && ViewPath(v, d) && PidOf(Last(c)) == PidOf(Last(d))
  {
    hide View.Rooted, ViewPath, PidOf, View.KeptKids;
    ShorterPath(v, a, |a| - 1);
    ShorterPath(v, b, |b| - 1);
    SameParent(v, a[..|a| - 1], b[..|b| - 1], Last(a));
    InitAndLast(a);
    InitAndLast(b);
  }

  lemma InitAndLast(q: seq<Rec>)
    requires q != []
    ensures q == q[..|q| - 1] + [Last(q)]
  {
  }

  lemma SameParent(v: View, c: seq<Rec>, d: seq<Rec>, r: Rec)
    requires v.Rooted() && c != [] && d != [] && r in v.KeptKids(c) && r in v.KeptKids(d)
    ensures PidOf(Last(c)) == PidOf(Last(d))
  {
    hide View.Rooted, View.Keeps;
  }

  lemma RootOnce(v: View, q: seq<Rec>)
    requires v.Good() && ViewPath(v, q)
    ensures PidOf(Last(q)) == v.Root() <==> q == [2 * v.Root()]
  {
    NoRepeat(v, |Known(v.f)|, q);
    if |q| > 1 { assert Pids(q)[0] != Pids(q)[|q| - 1]; }
  }

  ghost predicate BothShown(v: View, p: Pid)
    requires v.Good()
  {
    RecordShown(v, 2 * p) && RecordShown(v, 2 * p + 1)
  }

  ghost predicate RowsOf(v: View, i: int, j: int)
    requires v.Good()
  {
    0 <= i < j < |Shown(v)| && Shown(v)[i] != [] && Shown(v)[j] != [] &&
    PidOf(Last(Shown(v)[i])) == PidOf(Last(Shown(v)[j]))
  }

  /** Some PID is shown twice exactly if some PID has a live and an exited record, both of them shown. */
  lemma PidTwiceIff(v: View)
    requires v.Good()
    ensures (exists i, j :: RowsOf(v, i, j)) <==> exists p :: BothShown(v, p)
  {
    hide View.Ends, RecordShown, ViewPath, Before, Shown, View.Rooted;
    var l := Shown(v);
    ShownExactly(v);
    if i, j :| RowsOf(v, i, j) {
      assert l[i] in l && l[j] in l && Before(l[i], l[j]);
      BeforeAsym(l[i], l[j]);
      var p := Parting(v, l[i], l[j]);
      assert BothShown(v, p);
    }
    if p: Pid :| BothShown(v, p) {
      var a := RecordPath(v, 2 * p);
      var b := RecordPath(v, 2 * p + 1);
      var i :| 0 <= i < |l| && l[i] == a;
      var j :| 0 <= j < |l| && l[j] == b;
      assert RowsOf(v, if i < j then i else j, if i < j then j else i);
    }
  }

  lemma RecordedBoth(v: View, p: Pid)
    requires v.Good()
    ensures BothShown(v, p) ==> p in v.f.byPID && p in v.f.ghosts
  {
    hide View.Rooted, View.Ends, View.Keeps, ShowsPid, AtOrBelow, NodeOf;
  }

  /** With one record per PID, no process is shown twice; in particular there is exactly one target row. */
  lemma NoPidTwice(v: View, i: nat, j: nat)
    requires v.Good() && OneRecord(v.f)
    ensures !RowsOf(v, i, j)
  {
    hide View.Ends, RecordShown, View.Rooted, RowsOf, Recorded;
    PidTwiceIff(v);
    forall p ensures !BothShown(v, p) {
      RecordedBoth(v, p);
    }
  }

  // ---------------------------------------------------------------- examples

  /** If children always have the larger PID, as when they were numbered in order, every walk ends. */
  lemma LaterChildrenEnd(v: View)
    requires v.Rooted() && forall p, c :: Child(v.f, p, c) ==> p < c
    ensures v.Ends()
  {
    forall q | ViewPath(v, q) ensures Distinct(Pids(q)) {
      forall i, j | 0 <= i < j < |q| ensures PidOf(q[i]) < PidOf(q[j]) {
        Ascends(v, q, i, j);
      }
    }
    EndsIff(v);
  }

  lemma {:induction false} Ascends(v: View, q: seq<Rec>, i: nat, j: nat)
    requires v.Rooted() && ViewPath(v, q) && i < j < |q|
    requires forall p, c :: Child(v.f, p, c) ==> p < c
    ensures PidOf(q[i]) < PidOf(q[j])
    decreases j
  {
    hide View.Rooted, ViewPath, Child, PidOf;
    StepDown(v, q, j);
    if i < j - 1 { Ascends(v, q, i, j - 1); }
  }

  function Process(pid: Pid, ppid: Pid): Node {
    Node(pid, ppid, "", "", map[], 0, None, [], 0, true)
  }

  /** PID 30 was used by a child of 20 that exited, and is used again by a child of 10: both rows are shown. */
  lemma ReusedPidTwice()
    ensures exists v: View, i, j :: v.Good() && RowsOf(v, i, j)
  {
    hide View.Ends, RowsOf, Below, Leads, ShowsPid, BothShown, Child;
    var v := Reused();
    ReusedRooted();
    LaterChildrenEnd(v);
    FamilyTreeExactly(v, 10);
    FamilyTreeExactly(v, 20);
    ReusedLeads();
    ReusedShown();
    PidTwiceIff(v);
  }

  lemma ReusedShown()
    requires Reused().Good() && ShowsPid(Reused(), 10) && ShowsPid(Reused(), 20)
    ensures BothShown(Reused(), 30)
  {
    hide View.Rooted, View.Ends, ShowsPid, AtOrBelow;
  }

  function Reused(): View {
    View(Frozen(map[10 := Process(10, 1), 20 := Process(20, 10), 30 := Process(30, 10)],
                map[30 := Process(30, 20).(end := Some(0))]), 10, true)
  }

  lemma ReusedRooted()
    ensures Reused().Rooted() && Reused().Root() == 10
    ensures forall p, c :: Child(Reused().f, p, c) ==> p < c
  {
    assert UpOf(Known(Reused().f), 10) == None;
  }

  lemma ReusedLeads()
    ensures AtOrBelow(Reused().f, 10, 10) && AtOrBelow(Reused().f, 20, 10)
  {
    assert Leads(Reused().f, [10], 10, 10) && Leads(Reused().f, [10, 20], 10, 20);
  }

  /** The root 10 and PID 1 name each other as parent; 20, a child of 10, is not on the cycle, but 1 is its sibling. */
  lemma SiblingCycleLoops()
    ensures exists v: View :: OneRecord(v.f) && v.Rooted() && !v.all && !AtOrBelow(v.f, v.Root(), v.target) && !v.Ends()
  {
    hide View.Ends, Leads, Child;
    var v := Cycle();
    CycleRooted();
    CycleLeads();
    TextLoopsIffRoot(v);
  }

  function Cycle(): View {
    View(Frozen(map[1 := Process(1, 10), 10 := Process(10, 1), 20 := Process(20, 10)], map[]), 20, false)
  }

  lemma CycleRooted()
    ensures OneRecord(Cycle().f) && Cycle().Rooted() && Cycle().Root() == 10 && ParentIsSibling(Cycle())
  {
    var up := Up(Known(Cycle().f));
    assert up(20) == Some(10) && up(10) == None;
    assert StopsWithin(up, 10, 2);
    assert |Known(Cycle().f)| == 3;
  }

  lemma CycleLeads()
    ensures Below(Cycle().f, 10, 10) && !AtOrBelow(Cycle().f, 10, 20)
  {
    assert Leads(Cycle().f, [10, 1, 10], 10, 10);
    forall d: seq<Pid> | DownPath(Cycle().f, d) && d[0] == 20 ensures Last(d) != 10 {
      assert |d| > 1 ==> Child(Cycle().f, d[0], d[1]);
    }
  }
}
