/**
 * Who is listed as whose child: over whole runs, the children of a live process are exactly those it was named the
 * parent of since it last started, in the order in which that first happened.
 */
module ChildLog {
  import opened Basics
  import opened Snapshot
  import opened TreeModel

  /** In this state the step names p as the parent of c: a live process is enriched, or an unknown one discovered. */
  predicate Names(t: Frozen, s: Step, p: Pid, c: Pid) {
    p > 0 &&
    ((s.Enrich? && s.pid == c && c in t.byPID && s.m.ppid == p) ||
     (s.Find? && s.pid == c && c !in t.byPID && s.ppid == p))
  }

  /** The step ends p, or starts it anew. */
  predicate Resets(cfg: Config, s: Step, p: Pid) {
    s.Handle? && s.e.pid == p && (s.e.Exit? || (s.e.Exec? && s.e.comm !in cfg.ignored))
  }

  /** Step i named p as the parent of c, p was live right after it, and was not reset since. */
  ghost predicate NamedAt(cfg: Config, steps: seq<Step>, p: Pid, c: Pid, i: int) {
    && 0 <= i < |steps| && Names(Run(cfg, steps[..i]), steps[i], p, c) && p in Run(cfg, steps[..i + 1]).byPID
    && forall k :: i < k < |steps| ==> !Resets(cfg, steps[k], p)
  }

  ghost predicate Named(cfg: Config, steps: seq<Step>, p: Pid, c: Pid) {
    exists i :: NamedAt(cfg, steps, p, c, i)
  }

  /** Step i was the first to do so. */
  ghost predicate FirstNamedAt(cfg: Config, steps: seq<Step>, p: Pid, c: Pid, i: int) {
    NamedAt(cfg, steps, p, c, i) && forall k :: 0 <= k < i ==> !NamedAt(cfg, steps, p, c, k)
  }

  /** The children of a process: none if it is not live. */
  function ChildrenOf(t: Frozen, p: Pid): seq<Pid> {
    if p in t.byPID then t.byPID[p].children else []
  }

  /** Exactly those named, each once, in the order in which they first were. */
  ghost predicate ExactlyNamed(cfg: Config, steps: seq<Step>, p: Pid, children: seq<Pid>) {
    && Distinct(children) && (forall c :: c in children <==> Named(cfg, steps, p, c))
    && forall a, b :: 0 <= a < b < |children| ==> NamedEarlier(cfg, steps, p, children[a], children[b])
  }

  ghost predicate NamedEarlier(cfg: Config, steps: seq<Step>, p: Pid, c: Pid, d: Pid) {
    forall i, k :: FirstNamedAt(cfg, steps, p, c, i) && FirstNamedAt(cfg, steps, p, d, k) ==> i < k
  }

  // ---------------------------------------------------------------- one step

  /** What a step does to the children of p. */
  lemma StepChildren(cfg: Config, t: Frozen, s: Step, p: Pid)
    ensures var u := Apply(cfg, t, s);
      && (Resets(cfg, s, p) ==> ChildrenOf(u, p) == [])
      && (!Resets(cfg, s, p) && p in t.byPID ==> p in u.byPID)
      && (!Resets(cfg, s, p) ==>
           ChildrenOf(u, p) == if s.Enrich? || s.Find? then Grown(t, s, p, p in u.byPID) else ChildrenOf(t, p))
  {
    hide RecordOpen, RecordConnect, EnrichEffect, ConnectKey;
    if s.Handle? { HandleChildren(cfg, t, s.e, s.k, p); }
    if s.EnrichConn? { LookupChildren(t, s.pid, s.key, s.d, p); }
  }

  function Grown(t: Frozen, s: Step, p: Pid, live: bool): seq<Pid>
    requires s.Enrich? || s.Find?
  {
    var was := ChildrenOf(t, p);
    if live && Names(t, s, p, s.pid) && s.pid !in was then was + [s.pid] else was
  }

  lemma HandleChildren(cfg: Config, t: Frozen, e: Event, k: Ticks, p: Pid)
    ensures var u := HandleEvent(cfg, t, e, k);
      && (e.Exit? || (e.Exec? && e.comm !in cfg.ignored) ==> ChildrenOf(u, e.pid) == [])
      && (!Resets(cfg, Handle(e, k), p) ==>
           (p in t.byPID ==> p in u.byPID) && ChildrenOf(u, p) == ChildrenOf(t, p))
  {
    hide ConnectKey;
  }

  lemma LookupChildren(t: Frozen, pid: Pid, key: string, d: Option<Endpoint>, p: Pid)
    ensures var u := EnrichConnection(t, pid, key, d);
      (p in t.byPID <==> p in u.byPID) && ChildrenOf(u, p) == ChildrenOf(t, p)
  {
    hide EndpointKey;
  }

  // ---------------------------------------------------------------- whole runs

  /** What earlier steps named, they still have named after a step that does not reset p. */
  lemma NamedBefore(cfg: Config, steps: seq<Step>, p: Pid, c: Pid, i: int)
    requires steps != [] && i < |steps| - 1
    ensures NamedAt(cfg, steps, p, c, i) <==>
      NamedAt(cfg, steps[..|steps| - 1], p, c, i) && !Resets(cfg, steps[|steps| - 1], p)
  {
    var prev := steps[..|steps| - 1];
    if 0 <= i {
      assert prev[..i] == steps[..i] && prev[..i + 1] == steps[..i + 1];
    }
  }

  lemma NamedLast(cfg: Config, steps: seq<Step>, p: Pid, c: Pid)
    requires steps != []
    ensures NamedAt(cfg, steps, p, c, |steps| - 1) <==>
      Names(Run(cfg, steps[..|steps| - 1]), steps[|steps| - 1], p, c) && p in Run(cfg, steps).byPID
  {
    assert steps[..|steps|] == steps;
  }

  lemma NamedSplit(cfg: Config, steps: seq<Step>, p: Pid, c: Pid)
    requires steps != []
    ensures Named(cfg, steps, p, c) <==>
      NamedAt(cfg, steps, p, c, |steps| - 1) ||
      (Named(cfg, steps[..|steps| - 1], p, c) && !Resets(cfg, steps[|steps| - 1], p))
  {
    hide NamedAt, Resets;
    var n := |steps| - 1;
    if i :| NamedAt(cfg, steps, p, c, i) {
      NamedInside(cfg, steps, p, c, i);
      if i < n { NamedBefore(cfg, steps, p, c, i); }
    }
    if i :| NamedAt(cfg, steps[..n], p, c, i) {
      NamedInside(cfg, steps[..n], p, c, i);
      NamedBefore(cfg, steps, p, c, i);
    }
  }

  lemma NamedInside(cfg: Config, steps: seq<Step>, p: Pid, c: Pid, i: int)
    requires NamedAt(cfg, steps, p, c, i)
    ensures 0 <= i < |steps|
  {
  }

  /** A child named before the last step was first named when it was first named then. */
  lemma FirstBefore(cfg: Config, steps: seq<Step>, p: Pid, c: Pid, i: int)
    requires steps != [] && FirstNamedAt(cfg, steps, p, c, i) && Named(cfg, steps[..|steps| - 1], p, c)
    requires !Resets(cfg, steps[|steps| - 1], p)
    ensures FirstNamedAt(cfg, steps[..|steps| - 1], p, c, i) && i < |steps| - 1
  {
    hide NamedAt, Resets;
    var n := |steps| - 1;
    NamedInside(cfg, steps, p, c, i);
    var k :| NamedAt(cfg, steps[..n], p, c, k);
    NamedInside(cfg, steps[..n], p, c, k);
    NamedBefore(cfg, steps, p, c, k);
    assert i <= k;
    forall j | 0 <= j <= i ensures NamedAt(cfg, steps, p, c, j) <==> NamedAt(cfg, steps[..n], p, c, j) {
      NamedBefore(cfg, steps, p, c, j);
    }
  }

  /** If nobody is listed anew, the order stays; a child listed anew was first named by the last step. */
  lemma OrderKept(cfg: Config, steps: seq<Step>, p: Pid, was: seq<Pid>, children: seq<Pid>)
    requires steps != [] && !Resets(cfg, steps[|steps| - 1], p) && ExactlyNamed(cfg, steps[..|steps| - 1], p, was)
    requires children == was || exists c :: c !in was && children == was + [c]
    ensures forall a, b :: 0 <= a < b < |children| ==> NamedEarlier(cfg, steps, p, children[a], children[b])
  {
    hide FirstNamedAt, Named, Resets;
    var n := |steps| - 1;
    forall a, b, i, k | 0 <= a < b < |children| &&
        FirstNamedAt(cfg, steps, p, children[a], i) && FirstNamedAt(cfg, steps, p, children[b], k)
      ensures i < k
    {
      assert children[a] == was[a];
      FirstBefore(cfg, steps, p, was[a], i);
      if b < |was| {
        assert children[b] == was[b];
        FirstBefore(cfg, steps, p, was[b], k);
      } else {
        assert !Named(cfg, steps[..n], p, children[b]);
        FirstLast(cfg, steps, p, children[b], k);
      }
    }
  }

  lemma FirstLast(cfg: Config, steps: seq<Step>, p: Pid, c: Pid, k: int)
    requires steps != [] && !Named(cfg, steps[..|steps| - 1], p, c) && FirstNamedAt(cfg, steps, p, c, k)
    ensures k == |steps| - 1
  {
    hide NamedAt;
    NamedInside(cfg, steps, p, c, k);
    if k < |steps| - 1 { NamedBefore(cfg, steps, p, c, k); }
  }

  /** One more step keeps the list exact. */
  lemma NextNamed(cfg: Config, steps: seq<Step>, p: Pid)
    requires steps != []
    requires ExactlyNamed(cfg, steps[..|steps| - 1], p, ChildrenOf(Run(cfg, steps[..|steps| - 1]), p))
    ensures ExactlyNamed(cfg, steps, p, ChildrenOf(Run(cfg, steps), p))
  {
    hide NamedAt, Named, FirstNamedAt, Resets, Run, Apply;
    var n := |steps| - 1;
    var t := Run(cfg, steps[..n]);
    RunUnfold(cfg, steps);
    StepChildren(cfg, t, steps[n], p);
    var was, children := ChildrenOf(t, p), ChildrenOf(Run(cfg, steps), p);
    forall c ensures c in children <==> Named(cfg, steps, p, c) {
      NamedSplit(cfg, steps, p, c);
      NamedLast(cfg, steps, p, c);
      NoReset(cfg, t, steps[n], p, c);
    }
    if !Resets(cfg, steps[n], p) {
      OrderKept(cfg, steps, p, was, children);
    }
  }

  lemma NoReset(cfg: Config, t: Frozen, s: Step, p: Pid, c: Pid)
    ensures Names(t, s, p, c) ==> !Resets(cfg, s, p) && s.pid == c
  {
  }

  /**
   * After any run, the children of a live process are exactly the processes it was named the parent of, when they
   * were enriched or discovered, since it last started; they stand in the order in which they first were.
   */
  lemma {:induction false} ChildrenExact(cfg: Config, steps: seq<Step>, p: Pid)
    ensures ExactlyNamed(cfg, steps, p, ChildrenOf(Run(cfg, steps), p))
  {
    if steps == [] {
      assert forall c, i :: !NamedAt(cfg, steps, p, c, i);
    } else {
      ChildrenExact(cfg, steps[..|steps| - 1], p);
      NextNamed(cfg, steps, p);
    }
  }
}
