/**
 * Taking a snapshot while the index is in use. The lock is given up to enrich a process, so handlers, discovery and
 * sweeps can come in between; a process can then be gone, or be another one, when the lock is taken again.
 */
module SharedCopy {
  import opened Basics
  import opened ProcessIndex
  import opened FrozenCopy
  import S = Snapshot
  import M = TreeModel

  /** The steps so far lead from the state at the start to the present one. */
  ghost predicate After(tree: ProcessTree, start: S.Frozen, steps: seq<M.Step>)
    reads tree
  {
    tree.Model == ApplyAll(tree.cfg, start, steps)
  }

  lemma AfterSnoc(cfg: M.Config, start: S.Frozen, steps: seq<M.Step>, s: M.Step)
    ensures ApplyAll(cfg, start, steps + [s]) == M.Apply(cfg, ApplyAll(cfg, start, steps), s)
  {
    assert (steps + [s])[..|steps|] == steps;
  }

  /** One operation, by whomever. */
  method Do(tree: ProcessTree, fs: FrozenSnapshot, s: M.Step, ghost start: S.Frozen, ghost before: seq<M.Step>)
    returns (ghost steps: seq<M.Step>)
    requires Apart(tree, fs) && After(tree, start, before)
    modifies tree, tree.Repr
    ensures Apart(tree, fs) && fresh(tree.Repr - old(tree.Repr)) && unchanged(fs)
    ensures After(tree, start, steps) && before <= steps && (!s.Evict? ==> steps == before + [s])
  {
    hide Holding, ApplyAll, M.Apply;
    ghost var done := Perform(tree, s);
    AfterSnoc(tree.cfg, start, before, done);
    steps := before + [done];
  }

  /** Any operations. */
  method Meanwhile(tree: ProcessTree, fs: FrozenSnapshot, ghost start: S.Frozen, ghost before: seq<M.Step>)
    returns (ghost steps: seq<M.Step>)
    requires Apart(tree, fs) && After(tree, start, before)
    modifies tree, tree.Repr
    ensures Apart(tree, fs) && fresh(tree.Repr - old(tree.Repr)) && unchanged(fs)
    ensures After(tree, start, steps) && before <= steps
  {
    hide Apart, After;
    steps := before;
    var n: nat :| n >= 0;
    for i := 0 to n
      invariant Apart(tree, fs) && fresh(tree.Repr - old(tree.Repr)) && unchanged(fs)
      invariant After(tree, start, steps) && before <= steps
    {
      var s: M.Step :| true;
      steps := Do(tree, fs, s, start, steps);
    }
  }

  predicate NewMeta(s: M.Step, p: Pid) {
    s.Enrich? && s.pid == p
  }

  /** The key is one of a connect of p in every state these steps go through. */
  ghost predicate StaysConnect(cfg: M.Config, t: S.Frozen, b: seq<M.Step>, p: Pid, key: string) {
    forall n :: 0 <= n <= |b| ==> ConnectAt(ApplyAll(cfg, t, b[..n]), p, key)
  }

  /** Among the steps is a lookup for each key in a set that stays that of a connect. */
  ghost predicate WalkedOver(cfg: M.Config, t: S.Frozen, b: seq<M.Step>, p: Pid, keys: set<string>) {
    forall key :: key in keys && StaysConnect(cfg, t, b, p, key) ==> LookedUp(b, p, key)
  }

  /** Metadata, then a walk over the connects: each is looked up or ceases to be one; then the mark. */
  ghost predicate Enriches(cfg: M.Config, t: S.Frozen, b: seq<M.Step>, p: Pid) {
    exists x, l :: IsEnrichment(cfg, t, b, p, x, l)
  }

  ghost predicate IsEnrichment(cfg: M.Config, t: S.Frozen, b: seq<M.Step>, p: Pid, x: seq<M.Step>, l: seq<M.Step>) {
    b == x + l + [M.Mark(p)] && (exists i :: 0 <= i < |x| && NewMeta(x[i], p)) &&
    forall key :: StaysConnect(cfg, ApplyAll(cfg, t, x), l, p, key) ==> LookedUp(l, p, key)
  }

  lemma {:induction false} ApplyAllConcat(cfg: M.Config, t: S.Frozen, a: seq<M.Step>, b: seq<M.Step>)
    ensures ApplyAll(cfg, t, a + b) == ApplyAll(cfg, ApplyAll(cfg, t, a), b)
    decreases |b|
  {
    if b == [] {
      assert a + b == a;
    } else {
      var n := |b| - 1;
      assert a + b == (a + b[..n]) + [b[n]] && b == b[..n] + [b[n]];
      AfterSnoc(cfg, t, a + b[..n], b[n]);
      AfterSnoc(cfg, ApplyAll(cfg, t, a), b[..n], b[n]);
      ApplyAllConcat(cfg, t, a, b[..n]);
    }
  }

  /** More steps: what was looked up stays so, and what stays a connect was one before. */
  lemma WalkedOn(cfg: M.Config, t: S.Frozen, before: seq<M.Step>, b: seq<M.Step>, p: Pid, keys: set<string>)
    requires WalkedOver(cfg, t, before, p, keys) && before <= b
    ensures WalkedOver(cfg, t, b, p, keys)
  {
    forall key | key in keys && StaysConnect(cfg, t, b, p, key) ensures LookedUp(b, p, key) {
      forall n | 0 <= n <= |before| ensures ConnectAt(ApplyAll(cfg, t, before[..n]), p, key) {
        assert before[..n] == b[..n];
      }
      var i :| 0 <= i < |before| && IsLookup(before[i], p, key);
      assert IsLookup(b[i], p, key);
    }
  }

  lemma WalkedOne(cfg: M.Config, t: S.Frozen, b: seq<M.Step>, p: Pid, keys: set<string>, key: string)
    requires WalkedOver(cfg, t, b, p, keys)
    requires LookedUp(b, p, key) || !ConnectAt(ApplyAll(cfg, t, b), p, key)
    ensures WalkedOver(cfg, t, b, p, keys + {key})
  {
    assert b[..|b|] == b;
  }

  /**
   * The walk over the connects of the process that has the PID when it begins, if any. Keys that come in on the way
   * may be met as well, and so may those of a process that had the PID before.
   */
  method WalkConnects(tree: ProcessTree, fs: FrozenSnapshot, p: Pid) returns (ghost b: seq<M.Step>)
    requires Apart(tree, fs)
    modifies tree, tree.Repr
    ensures Apart(tree, fs) && fresh(tree.Repr - old(tree.Repr)) && unchanged(fs) && After(tree, old(tree.Model), b)
    ensures forall key :: StaysConnect(tree.cfg, old(tree.Model), b, p, key) ==> LookedUp(b, p, key)
  {
    hide Apart, After, WalkedOver, StaysConnect;
    ghost var t := tree.Model;
    var todo := ConnectKeys(tree, fs, p);
    ghost var all, done: set<string> := todo, {};
    b := [];
    StartsWalking(tree, t, p);
    var extra: nat :| extra >= 0;
    while todo != {} || extra > 0
      invariant Apart(tree, fs) && fresh(tree.Repr - old(tree.Repr)) && unchanged(fs)
      invariant After(tree, t, b) && WalkedOver(tree.cfg, t, b, p, done) && all <= todo + done
      decreases |todo| + extra
    {
      var key: string :| key in todo || todo == {};
      ghost var before := b;
      b := LookUpUnlocked(tree, fs, p, key, t, b);
      WalkedOn(tree.cfg, t, before, b, p, done);
      WalkedOne(tree.cfg, t, b, p, done, key);
      done := done + {key};
      if key in todo { todo := todo - {key}; } else { extra := extra - 1; }
      before := b;
      b := Meanwhile(tree, fs, t, b);
      WalkedOn(tree.cfg, t, before, b, p, done);
    }
    AllWalked(tree.cfg, t, b, p, all, done);
  }

  lemma StartsWalking(tree: ProcessTree, t: S.Frozen, p: Pid)
    requires t == tree.Model
    ensures After(tree, t, []) && WalkedOver(tree.cfg, t, [], p, {})
  {
  }

  lemma AllWalked(cfg: M.Config, t: S.Frozen, b: seq<M.Step>, p: Pid, all: set<string>, done: set<string>)
    requires WalkedOver(cfg, t, b, p, done) && all <= done && forall key :: ConnectAt(t, p, key) ==> key in all
    ensures forall key :: StaysConnect(cfg, t, b, p, key) ==> LookedUp(b, p, key)
  {
    forall key | StaysConnect(cfg, t, b, p, key) ensures LookedUp(b, p, key) {
      assert ConnectAt(ApplyAll(cfg, t, b[..0]), p, key);
    }
  }

  method ConnectKeys(tree: ProcessTree, fs: FrozenSnapshot, p: Pid) returns (keys: set<string>)
    requires Apart(tree, fs)
    ensures forall key :: ConnectAt(tree.Model, p, key) ==> key in keys
  {
    SameKeys(tree);
    keys := {};
    if p in tree.byPID {
      KeysOf(tree, p);
      keys := tree.byPID[p].effects.Keys;
    }
  }

  /** One key of the walk: a connect is looked up, anything else may be. */
  method LookUpUnlocked(tree: ProcessTree, fs: FrozenSnapshot, p: Pid, key: string, ghost t: S.Frozen,
          ghost before: seq<M.Step>)
    returns (ghost b: seq<M.Step>)
    requires Apart(tree, fs) && After(tree, t, before)
    modifies tree, tree.Repr
    ensures Apart(tree, fs) && fresh(tree.Repr - old(tree.Repr)) && unchanged(fs) && After(tree, t, b) && before <= b
    ensures LookedUp(b, p, key) || !ConnectAt(ApplyAll(tree.cfg, t, b), p, key)
  {
    hide ApplyAll;
    SameKeys(tree);
    b := before;
    var connect: bool := *;
    if p in tree.byPID {
      var now := IsConnect(tree, p, key);
      connect := connect || now;
    }
    if connect {
      var d := AnyEndpoint();
      b := Do(tree, fs, M.EnrichConn(p, key, d), t, b);
      LookedUpSnoc(before, M.EnrichConn(p, key, d), p, key);
    }
  }

  /** Enriching a process without the lock: metadata, endpoints, and the mark, with anything in between. */
  method EnrichUnlocked(tree: ProcessTree, fs: FrozenSnapshot, p: Pid) returns (ghost b: seq<M.Step>)
    requires Apart(tree, fs)
    modifies tree, tree.Repr
    ensures Apart(tree, fs) && fresh(tree.Repr - old(tree.Repr)) && unchanged(fs)
    ensures After(tree, old(tree.Model), b) && Enriches(tree.cfg, old(tree.Model), b, p)
  {
    hide Apart, Enriches, ApplyAll, StaysConnect;
    ghost var t := tree.Model;
    ApplyNone(tree.cfg, t);
    b := Meanwhile(tree, fs, t, []);
    var m := AnyMeta();
    ghost var middle := b;
    b := Do(tree, fs, M.Enrich(p, m), t, b);
    b := Meanwhile(tree, fs, t, b);
    ghost var x := b;
    ghost var l := WalkConnects(tree, fs, p);
    ApplyAllConcat(tree.cfg, t, x, l);
    b := Do(tree, fs, M.Mark(p), t, x + l);
    EnrichesNow(tree.cfg, t, p, middle, m, x, l);
  }

  lemma ApplyNone(cfg: M.Config, t: S.Frozen)
    ensures ApplyAll(cfg, t, []) == t
  {
  }

  lemma EnrichesNow(cfg: M.Config, t: S.Frozen, p: Pid, middle: seq<M.Step>, m: M.Meta, x: seq<M.Step>, l: seq<M.Step>)
    requires middle + [M.Enrich(p, m)] <= x
    requires forall key :: StaysConnect(cfg, ApplyAll(cfg, t, x), l, p, key) ==> LookedUp(l, p, key)
    ensures Enriches(cfg, t, x + l + [M.Mark(p)], p)
  {
    assert x[|middle|] == M.Enrich(p, m);
    assert NewMeta(x[|middle|], p);
    assert IsEnrichment(cfg, t, x + l + [M.Mark(p)], p, x, l);
  }

  /** A visit between step a and step b: p was there at its start, and was then left alone or else enriched. */
  ghost predicate IsVisit(cfg: M.Config, start: S.Frozen, steps: seq<M.Step>, a: nat, b: nat, p: Pid) {
    a <= b <= |steps| && var t := ApplyAll(cfg, start, steps[..a]);
    p in t.byPID && if t.byPID[p].enriched then a == b else Enriches(cfg, t, steps[a..b], p)
  }

  ghost predicate Visits(cfg: M.Config, start: S.Frozen, steps: seq<M.Step>, from: map<Pid, nat>, when: map<Pid, nat>) {
    from.Keys == when.Keys && forall p :: p in when ==> IsVisit(cfg, start, steps, from[p], when[p], p)
  }

  lemma VisitsLater(cfg: M.Config, start: S.Frozen, before: seq<M.Step>, steps: seq<M.Step>, from: map<Pid, nat>,
          when: map<Pid, nat>)
    requires Visits(cfg, start, before, from, when) && before <= steps
    ensures Visits(cfg, start, steps, from, when)
  {
    forall p | p in when ensures IsVisit(cfg, start, steps, from[p], when[p], p) {
      assert IsVisit(cfg, start, before, from[p], when[p], p);
      assert steps[..from[p]] == before[..from[p]] && steps[from[p]..when[p]] == before[from[p]..when[p]];
    }
  }

  /** A visit that is just over. */
  lemma VisitsNow(cfg: M.Config, start: S.Frozen, steps: seq<M.Step>, from: map<Pid, nat>, when: map<Pid, nat>, a: nat,
          p: Pid)
    requires Visits(cfg, start, steps, from, when) && a <= |steps|
    requires IsVisit(cfg, start, steps, a, |steps|, p)
    ensures Visits(cfg, start, steps, from[p := a], when[p := |steps|])
  {
  }

  lemma VisitMade(cfg: M.Config, start: S.Frozen, before: seq<M.Step>, b: seq<M.Step>, p: Pid)
    requires var t := ApplyAll(cfg, start, before);
      p in t.byPID && if t.byPID[p].enriched then b == [] else Enriches(cfg, t, b, p)
    ensures IsVisit(cfg, start, before + b, |before|, |before| + |b|, p)
    ensures ApplyAll(cfg, start, before + b) == ApplyAll(cfg, ApplyAll(cfg, start, before), b)
  {
    var steps := before + b;
    assert steps[..|before|] == before && steps[|before|..|before| + |b|] == b;
    ApplyAllConcat(cfg, start, before, b);
  }

  /** One visit of the loop: a process that is there at its end is copied. */
  method Visit(tree: ProcessTree, fs: FrozenSnapshot, p: Pid, ghost start: S.Frozen, ghost before: seq<M.Step>,
          ghost from: map<Pid, nat>, ghost when: map<Pid, nat>)
    returns (ghost steps: seq<M.Step>, ghost from': map<Pid, nat>, ghost when': map<Pid, nat>)
    requires Apart(tree, fs) && After(tree, start, before) && CopiedAt(tree.cfg, start, before, when, fs.Model.byPID)
    requires Visits(tree.cfg, start, before, from, when)
    modifies tree, tree.Repr, fs
    ensures Apart(tree, fs) && fresh(tree.Repr - old(tree.Repr) + (fs.Repr - old(fs.Repr)))
    ensures After(tree, start, steps) && before <= steps
    ensures CopiedAt(tree.cfg, start, steps, when', fs.Model.byPID) && Visits(tree.cfg, start, steps, from', when')
    ensures fs.Model.ghosts == old(fs.Model).ghosts && old(fs.Model).byPID.Keys <= fs.Model.byPID.Keys
    ensures p in tree.Model.byPID ==> p in fs.Model.byPID
  {
    hide CopiedAt, ApplyAll, Holding, Visits, IsVisit, Enriches;
    steps, from', when' := before, from, when;
    SameKeys(tree);
    if p in tree.byPID {
      ghost var b := [];
      ApplyNone(tree.cfg, tree.Model);
      var enriched := IsEnriched(tree, p);
      if !enriched { b := EnrichUnlocked(tree, fs, p); }
      VisitMade(tree.cfg, start, before, b, p);
      steps := before + b;
    }
    CopiedLater(tree.cfg, start, before, steps, when, fs.Model.byPID);
    VisitsLater(tree.cfg, start, before, steps, from, when);
    SameKeys(tree);
    if p in tree.byPID {
      ghost var copied := fs.Model.byPID;
      CloneInto(tree, fs, p);
      CopiedNow(tree.cfg, start, steps, when, copied, p);
      VisitsNow(tree.cfg, start, steps, from, when, |before|, p);
      from', when' := from[p := |before|], when[p := |steps|];
    }
  }

  lemma SameKeys(tree: ProcessTree)
    requires tree.Valid()
    ensures tree.byPID.Keys == tree.Model.byPID.Keys
  {
  }

  /** The process is live in every state gone through. */
  ghost predicate LiveAllAlong(cfg: M.Config, start: S.Frozen, steps: seq<M.Step>, p: Pid) {
    forall n :: 0 <= n <= |steps| ==> p in ApplyAll(cfg, start, steps[..n]).byPID
  }

  /** Those of the processes done that were live all along are in the copy. */
  ghost predicate NoneMissed(cfg: M.Config, start: S.Frozen, steps: seq<M.Step>, done: set<Pid>, copied: set<Pid>) {
    forall p :: p in done && LiveAllAlong(cfg, start, steps, p) ==> p in copied
  }

  lemma MissesNone(cfg: M.Config, start: S.Frozen, before: seq<M.Step>, steps: seq<M.Step>, done: set<Pid>, p: Pid,
          copied: set<Pid>, copied': set<Pid>)
    requires NoneMissed(cfg, start, before, done, copied) && before <= steps && copied <= copied'
    requires p in ApplyAll(cfg, start, steps).byPID ==> p in copied'
    ensures NoneMissed(cfg, start, steps, done + {p}, copied')
  {
    forall q | q in done + {p} && LiveAllAlong(cfg, start, steps, q) ensures q in copied' {
      assert steps[..|steps|] == steps;
      forall n | 0 <= n <= |before| ensures q in ApplyAll(cfg, start, before[..n]).byPID {
        assert before[..n] == steps[..n];
      }
    }
  }

  /** What holds between two visits. */
  ghost predicate Between(tree: ProcessTree, fs: FrozenSnapshot, start: S.Frozen, steps: seq<M.Step>,
          from: map<Pid, nat>, when: map<Pid, nat>, todo: set<Pid>, done: set<Pid>)
    reads tree, fs
  {
    && After(tree, start, steps) && fs.Model.ghosts == map[]
    && CopiedAt(tree.cfg, start, steps, when, fs.Model.byPID) && Visits(tree.cfg, start, steps, from, when)
    && start.byPID.Keys <= todo + done && NoneMissed(tree.cfg, start, steps, done, fs.Model.byPID.Keys)
  }

  method VisitNext(tree: ProcessTree, fs: FrozenSnapshot, p: Pid, ghost start: S.Frozen, ghost before: seq<M.Step>,
          ghost from: map<Pid, nat>, ghost when: map<Pid, nat>, ghost todo: set<Pid>, ghost done: set<Pid>)
    returns (ghost steps: seq<M.Step>, ghost from': map<Pid, nat>, ghost when': map<Pid, nat>)
    requires Apart(tree, fs) && Between(tree, fs, start, before, from, when, todo, done)
    modifies tree, tree.Repr, fs
    ensures Apart(tree, fs) && fresh(tree.Repr - old(tree.Repr) + (fs.Repr - old(fs.Repr)))
    ensures Between(tree, fs, start, steps, from', when', todo - {p}, done + {p})
  {
    hide CopiedAt, Holding, ApplyAll, Visits, NoneMissed;
    ghost var copied := fs.Model.byPID.Keys;
    steps, from', when' := Visit(tree, fs, p, start, before, from, when);
    MissesNone(tree.cfg, start, before, steps, done, p, copied, fs.Model.byPID.Keys);
  }

  /**
   * TakeSnapshot beside other operations. The copy is still apart from the index, each process in it is as it was in
   * some state the index went through meanwhile, and had been enriched before, by its visit if need be. A process
   * that was live all along is in it. The exited ones are those of the last state.
   */
  method TakeSnapshotShared(tree: ProcessTree)
    returns (fs: FrozenSnapshot, ghost steps: seq<M.Step>, ghost from: map<Pid, nat>, ghost when: map<Pid, nat>)
    requires tree.Valid()
    modifies tree, tree.Repr
    ensures fresh(fs) && fresh(fs.Repr) && Apart(tree, fs)
    ensures tree.Model == ApplyAll(tree.cfg, old(tree.Model), steps)
    ensures CopiedAt(tree.cfg, old(tree.Model), steps, when, fs.Model.byPID) && fs.Model.ghosts == tree.Model.ghosts
    ensures Visits(tree.cfg, old(tree.Model), steps, from, when)
    ensures forall p :: LiveAllAlong(tree.cfg, old(tree.Model), steps, p) ==> p in fs.Model.byPID
  {
    hide CopiedAt, Holding, ApplyAll, Visits, NoneMissed, Between, LiveAllAlong;
    fs := new FrozenSnapshot();
    ghost var start := tree.Model;
    StartsVisiting(tree, fs);
    steps, from, when := [], map[], map[];
    var todo := tree.byPID.Keys;
    ghost var done: set<Pid> := {};
    var extra: nat :| extra >= 0;
    while todo != {} || extra > 0
      invariant fresh(fs) && fresh(fs.Repr) && Apart(tree, fs) && fresh(tree.Repr - old(tree.Repr))
      invariant Between(tree, fs, start, steps, from, when, todo, done)
      decreases |todo| + extra
    {
      var p: Pid :| p in todo || todo == {};
      steps, from, when := VisitNext(tree, fs, p, start, steps, from, when, todo, done);
      done := done + {p};
      assert p !in todo ==> todo - {p} == todo;
      if p in todo { todo := todo - {p}; } else { extra := extra - 1; }
    }
    AllVisited(tree, fs, start, steps, from, when, done);
    CopyGhosts(tree, fs);
  }

  lemma StartsVisiting(tree: ProcessTree, fs: FrozenSnapshot)
    requires tree.Valid() && fs.Model == M.EMPTY
    ensures Between(tree, fs, tree.Model, [], map[], map[], tree.byPID.Keys, {})
  {
    NothingCopied(tree.cfg, tree.Model);
    SameKeys(tree);
  }

  lemma AllVisited(tree: ProcessTree, fs: FrozenSnapshot, start: S.Frozen, steps: seq<M.Step>, from: map<Pid, nat>,
          when: map<Pid, nat>, done: set<Pid>)
    requires Between(tree, fs, start, steps, from, when, {}, done)
    ensures After(tree, start, steps) && fs.Model.ghosts == map[]
    ensures CopiedAt(tree.cfg, start, steps, when, fs.Model.byPID) && Visits(tree.cfg, start, steps, from, when)
    ensures forall p :: LiveAllAlong(tree.cfg, start, steps, p) ==> p in fs.Model.byPID
  {
    AllThere(tree.cfg, start, steps, done, fs.Model.byPID.Keys);
  }

  lemma AllThere(cfg: M.Config, start: S.Frozen, steps: seq<M.Step>, done: set<Pid>, copied: set<Pid>)
    requires NoneMissed(cfg, start, steps, done, copied) && start.byPID.Keys <= done
    ensures forall p :: LiveAllAlong(cfg, start, steps, p) ==> p in copied
  {
    assert steps[..0] == [];
    forall p | LiveAllAlong(cfg, start, steps, p) ensures p in start.byPID {
      assert p in ApplyAll(cfg, start, steps[..0]).byPID;
    }
  }

  lemma NothingCopied(cfg: M.Config, start: S.Frozen)
    ensures ApplyAll(cfg, start, []) == start && CopiedAt(cfg, start, [], map[], map[])
    ensures Visits(cfg, start, [], map[], map[]) && NoneMissed(cfg, start, [], {}, {})
  {
  }

  // ---------------------------------------------------------------- what such a copy keeps

  /** Steps that may follow on a state: times[i] is when step i may start, times[|steps|] is the present. */
  ghost predicate MayFollow(cfg: M.Config, start: S.Frozen, steps: seq<M.Step>, times: seq<int>) {
    |times| == |steps| + 1 && forall i :: 0 <= i < |steps| ==> MayTake(cfg, start, steps, times, i)
  }

  ghost predicate MayTake(cfg: M.Config, start: S.Frozen, steps: seq<M.Step>, times: seq<int>, i: nat)
    requires i < |steps| && |times| == |steps| + 1
  {
    M.Allowed(ApplyAll(cfg, start, steps[..i]), steps[i], times[i], times[i + 1])
  }

  lemma {:induction false} StateInv(cfg: M.Config, start: S.Frozen, steps: seq<M.Step>, times: seq<int>, n: nat)
    requires MayFollow(cfg, start, steps, times) && n <= |steps| && M.Inv(cfg, start, times[0])
    ensures M.Inv(cfg, ApplyAll(cfg, start, steps[..n]), times[n]) && times[n] <= times[|steps|]
    decreases n, 1
  {
    hide M.Inv, M.Allowed, M.Apply;
    if n > 0 {
      StateInv(cfg, start, steps, times, n - 1);
      assert MayTake(cfg, start, steps, times, n - 1);
      assert steps[..n] == steps[..n - 1] + [steps[n - 1]];
      AfterSnoc(cfg, start, steps[..n - 1], steps[n - 1]);
      M.StepInv(cfg, ApplyAll(cfg, start, steps[..n - 1]), steps[n - 1], times[n - 1], times[n]);
    }
    TimesRise(cfg, start, steps, times, n);
  }

  lemma {:induction false} TimesRise(cfg: M.Config, start: S.Frozen, steps: seq<M.Step>, times: seq<int>, n: nat)
    requires MayFollow(cfg, start, steps, times) && n <= |steps|
    ensures times[n] <= times[|steps|]
    decreases |steps| - n
  {
    if n < |steps| {
      assert MayTake(cfg, start, steps, times, n);
      TimesRise(cfg, start, steps, times, n + 1);
    }
  }

  /** Whatever came in between: if the steps were such as a run may hold, the copy has every invariant of the index. */
  lemma SharedInOrder(cfg: M.Config, start: S.Frozen, steps: seq<M.Step>, times: seq<int>, when: map<Pid, nat>,
          copy: S.Frozen)
    requires MayFollow(cfg, start, steps, times) && M.Inv(cfg, start, times[0])
    requires CopiedAt(cfg, start, steps, when, copy.byPID) && copy.ghosts == ApplyAll(cfg, start, steps).ghosts
    ensures M.Inv(cfg, copy, times[|steps|])
  {
    var now := times[|steps|];
    forall p | p in copy.byPID ensures M.NodeInv(cfg, p, copy.byPID[p], now) && copy.byPID[p].end.None? {
      StateInv(cfg, start, steps, times, when[p]);
      M.LaterInv(cfg, ApplyAll(cfg, start, steps[..when[p]]), times[when[p]], now);
      assert IsNodeOf(ApplyAll(cfg, start, steps[..when[p]]), p, copy.byPID[p]);
    }
    StateInv(cfg, start, steps, times, |steps|);
    assert steps[..|steps|] == steps;
  }
}
