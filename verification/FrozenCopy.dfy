/** Frozen snapshots: deep copies of the live index that nothing done to the index later can change. */
module FrozenCopy {
  import opened Basics
  import opened ProcessIndex
  import S = Snapshot
  import M = TreeModel

  class FrozenSnapshot {
    var byPID: Cells
    var ghosts: Cells
    ghost var Model: S.Frozen
    ghost var Repr: set<object>

    ghost predicate Valid()
      reads this, Repr
    {
      this !in Repr && Holding(Repr, byPID, ghosts, Model)
    }

    constructor ()
      ensures Valid() && Repr == {} && Model == M.EMPTY
    {
      byPID, ghosts := map[], map[];
      Model, Repr := M.EMPTY, {};
    }

    method AddLive(pid: Pid, c: ProcessCell)
      requires Valid() && c.Valid() && c.slot == Live(pid)
      modifies this
      ensures Valid() && Repr == old(Repr) + {c} + c.effects.Values
      ensures Model == M.Put(old(Model), pid, c.Model)
    {
      hide Holds;
      Repr := Repr + {c} + c.effects.Values;
      HoldingMore(old(Repr), Repr, byPID, ghosts, Model);
      StillHeld(Repr, c);
      byPID := byPID[pid := c];
      Model := M.Put(Model, pid, c.Model);
    }

    method AddGhost(pid: Pid, c: ProcessCell)
      requires Valid() && c.Valid() && c.slot == Ghost(pid)
      modifies this
      ensures Valid() && Repr == old(Repr) + {c} + c.effects.Values
      ensures Model == PutAt(old(Model), Ghost(pid), c.Model)
    {
      hide Holds;
      Repr := Repr + {c} + c.effects.Values;
      HoldingMore(old(Repr), Repr, byPID, ghosts, Model);
      StillHeld(Repr, c);
      ghosts := ghosts[pid := c];
      Model := PutAt(Model, Ghost(pid), c.Model);
    }
  }

  // ---------------------------------------------------------------- enrichment on the way

  function ApplyAll(cfg: M.Config, t: S.Frozen, steps: seq<M.Step>): S.Frozen {
    if steps == [] then t else M.Apply(cfg, ApplyAll(cfg, t, steps[..|steps| - 1]), steps[|steps| - 1])
  }

  /** Enrichment steps only, endpoints only for connects. */
  ghost predicate Enriching(cfg: M.Config, t: S.Frozen, steps: seq<M.Step>) {
    forall i :: 0 <= i < |steps| ==>
      && (steps[i].Enrich? || steps[i].EnrichConn? || steps[i].Mark?)
      && (steps[i].EnrichConn? ==> M.OnlyConnect(ApplyAll(cfg, t, steps[..i]), steps[i].pid, steps[i].key))
  }

  lemma EnrichingSnoc(cfg: M.Config, t: S.Frozen, steps: seq<M.Step>, s: M.Step)
    requires Enriching(cfg, t, steps) && (s.Enrich? || s.EnrichConn? || s.Mark?)
    requires s.EnrichConn? ==> M.OnlyConnect(ApplyAll(cfg, t, steps), s.pid, s.key)
    ensures Enriching(cfg, t, steps + [s])
    ensures ApplyAll(cfg, t, steps + [s]) == M.Apply(cfg, ApplyAll(cfg, t, steps), s)
  {
    var more := steps + [s];
    assert more[..|steps|] == steps;
    forall i | 0 <= i < |more| && more[i].EnrichConn?
      ensures M.OnlyConnect(ApplyAll(cfg, t, more[..i]), more[i].pid, more[i].key) {
      assert i < |steps| ==> more[..i] == steps[..i];
    }
  }

  lemma EnrichingPrefix(cfg: M.Config, t: S.Frozen, steps: seq<M.Step>, n: nat)
    requires Enriching(cfg, t, steps) && n <= |steps|
    ensures Enriching(cfg, t, steps[..n])
  {
    forall i | 0 <= i < n && steps[..n][i].EnrichConn?
      ensures M.OnlyConnect(ApplyAll(cfg, t, steps[..n][..i]), steps[..n][i].pid, steps[..n][i].key)
    {
      assert steps[..n][..i] == steps[..i];
    }
  }

  ghost predicate OnlyLive(t: S.Frozen, steps: seq<M.Step>) {
    forall i :: 0 <= i < |steps| ==>
      (steps[i].Enrich? || steps[i].EnrichConn? || steps[i].Mark?) && steps[i].pid in t.byPID
  }

  /** Enrichment neither starts nor ends a process, and never touches a ghost of a PID that is live. */
  lemma {:induction false} EnrichingKeeps(cfg: M.Config, t: S.Frozen, steps: seq<M.Step>)
    requires Enriching(cfg, t, steps)
    requires OnlyLive(t, steps)
    ensures ApplyAll(cfg, t, steps).byPID.Keys == t.byPID.Keys && ApplyAll(cfg, t, steps).ghosts == t.ghosts
  {
    if steps != [] {
      var n := |steps| - 1;
      EnrichingPrefix(cfg, t, steps, n);
      EnrichingKeeps(cfg, t, steps[..n]);
    }
  }

  /** ... and every state on the way is in order if the first was. */
  lemma {:induction false} EnrichingInv(cfg: M.Config, t: S.Frozen, steps: seq<M.Step>, now: int)
    requires Enriching(cfg, t, steps) && M.Inv(cfg, t, now)
    ensures M.Inv(cfg, ApplyAll(cfg, t, steps), now)
  {
    if steps != [] {
      var n := |steps| - 1;
      EnrichingPrefix(cfg, t, steps, n);
      EnrichingInv(cfg, t, steps[..n], now);
      M.StepInv(cfg, ApplyAll(cfg, t, steps[..n]), steps[n], now, now);
    }
  }

  lemma Applies(cfg: M.Config, t: S.Frozen, p: Pid, m: M.Meta, key: string, d: Option<M.Endpoint>)
    ensures M.Apply(cfg, t, M.Enrich(p, m)) == M.EnrichProcess(t, p, m)
    ensures M.Apply(cfg, t, M.EnrichConn(p, key, d)) == M.EnrichConnection(t, p, key, d)
    ensures p in t.byPID ==> M.Apply(cfg, t, M.Mark(p)) == M.Put(t, p, t.byPID[p].(enriched := true))
  {
  }

  /** The enrichment steps taken so far lead from the state at the start to the present one. */
  ghost predicate Traced(tree: ProcessTree, start: S.Frozen, steps: seq<M.Step>)
    reads tree
  {
    Enriching(tree.cfg, start, steps) && tree.Model == ApplyAll(tree.cfg, start, steps)
  }

  ghost predicate About(s: M.Step, p: Pid) {
    (s.Enrich? || s.EnrichConn? || s.Mark?) && s.pid == p
  }

  /** One trace prolongs another by steps about one process. */
  ghost predicate Prolongs(before: seq<M.Step>, steps: seq<M.Step>, p: Pid) {
    before <= steps && forall i :: |before| <= i < |steps| ==> About(steps[i], p)
  }

  /** A lookup of the endpoint of one of p's effects, whatever the system answers. */
  predicate IsLookup(s: M.Step, p: Pid, key: string) {
    s.EnrichConn? && s.pid == p && s.key == key
  }

  /** Endpoint lookups for one process, one at least for each of its connect effects. */
  ghost predicate Lookups(b: seq<M.Step>, p: Pid, effects: map<string, S.Effect>) {
    && (forall i :: 0 <= i < |b| ==> b[i].EnrichConn? && b[i].pid == p)
    && (forall key :: key in effects && effects[key].kind.Connect? ==> LookedUp(b, p, key))
  }

  ghost predicate LookedUp(b: seq<M.Step>, p: Pid, key: string) {
    exists i :: 0 <= i < |b| && IsLookup(b[i], p, key)
  }

  lemma LookedUpSnoc(b: seq<M.Step>, s: M.Step, p: Pid, key: string)
    ensures LookedUp(b, p, key) || IsLookup(s, p, key) ==> LookedUp(b + [s], p, key)
  {
    if i :| 0 <= i < |b| && IsLookup(b[i], p, key) {
      assert IsLookup((b + [s])[i], p, key);
    }
    if IsLookup(s, p, key) {
      assert IsLookup((b + [s])[|b|], p, key);
    }
  }

  /** How a process is enriched: its metadata, then its connects, then the mark. */
  ghost predicate IsBlock(b: seq<M.Step>, p: Pid, effects: map<string, S.Effect>) {
    |b| >= 2 && b[0].Enrich? && b[0].pid == p && Lookups(b[1..|b| - 1], p, effects) && b[|b| - 1] == M.Mark(p)
  }

  ghost predicate ConnectAt(t: S.Frozen, p: Pid, key: string) {
    p in t.byPID && key in t.byPID[p].effects && t.byPID[p].effects[key].kind.Connect?
  }

  ghost function EffectsAt(t: S.Frozen, p: Pid): map<string, S.Effect> {
    if p in t.byPID then t.byPID[p].effects else map[]
  }

  /** New metadata leaves the effects alone. */
  lemma MetaKeepsEffects(t: S.Frozen, p: Pid, m: M.Meta)
    ensures EffectsAt(M.EnrichProcess(t, p, m), p) == EffectsAt(t, p)
  {
  }

  /** Enriching one connect leaves the others connects, whatever is re-keyed onto them. */
  lemma OthersStayConnects(t: S.Frozen, p: Pid, key: string, d: Option<M.Endpoint>, k: string)
    requires ConnectAt(t, p, key) && ConnectAt(t, p, k) && k != key
    ensures ConnectAt(M.EnrichConnection(t, p, key, d), p, k)
  {
  }

  method EnrichMeta(tree: ProcessTree, p: Pid, m: M.Meta, ghost start: S.Frozen, ghost before: seq<M.Step>)
    returns (ghost steps: seq<M.Step>)
    requires tree.Valid() && Traced(tree, start, before)
    modifies tree`Model, tree`Repr, tree.Repr
    ensures tree.Valid() && fresh(tree.Repr - old(tree.Repr)) && old(tree.Repr) <= tree.Repr
    ensures Traced(tree, start, steps) && steps == before + [M.Enrich(p, m)]
    ensures EffectsAt(tree.Model, p) == EffectsAt(old(tree.Model), p)
  {
    hide Holding, M.Apply, M.OnlyConnect, Enriching, ApplyAll, M.EnrichProcess, EffectsAt;
    tree.EnrichProcessMetadata(p, m);
    EnrichingSnoc(tree.cfg, start, before, M.Enrich(p, m));
    steps := before + [M.Enrich(p, m)];
    MetaKeepsEffects(ApplyAll(tree.cfg, start, before), p, m);
    Applies(tree.cfg, ApplyAll(tree.cfg, start, before), p, m, "", None);
  }

  method EnrichMark(tree: ProcessTree, p: Pid, ghost start: S.Frozen, ghost before: seq<M.Step>)
    returns (ghost steps: seq<M.Step>)
    requires tree.Valid() && p in tree.byPID && Traced(tree, start, before)
    modifies tree`Model, tree`Repr, tree.Repr
    ensures tree.Valid() && fresh(tree.Repr - old(tree.Repr)) && old(tree.Repr) <= tree.Repr
    ensures Traced(tree, start, steps) && steps == before + [M.Mark(p)]
  {
    hide Holding, M.Apply, M.OnlyConnect, Enriching, ApplyAll;
    tree.MarkEnrichedAt(p);
    EnrichingSnoc(tree.cfg, start, before, M.Mark(p));
    steps := before + [M.Mark(p)];
    Applies(tree.cfg, ApplyAll(tree.cfg, start, before), p, M.Meta(None, 0, ""), "", None);
  }

  /** What the system answers when asked for an endpoint: anything. */
  method AnyEndpoint() returns (d: Option<M.Endpoint>) {
    var found: bool, ip: string, port: nat, domain: string, sent: nat, received: nat :| true;
    d := if found then Some(S.ConnectDetail(ip, port, domain, sent, received)) else None;
  }

  /** What the system says of a process when asked: anything. */
  method AnyMeta() returns (m: M.Meta) {
    var comm: Option<string>, ppid: Pid, binaryPath: string :| true;
    m := M.Meta(comm, ppid, binaryPath);
  }

  /** The endpoint of an effect is looked up if the effect is there and is a connect. */
  method EnrichKey(tree: ProcessTree, p: Pid, key: string, ghost start: S.Frozen, ghost before: seq<M.Step>)
    returns (ghost steps: seq<M.Step>)
    requires tree.Valid() && p in tree.byPID && Traced(tree, start, before)
    modifies tree`Model, tree`Repr, tree.Repr
    ensures tree.Valid() && fresh(tree.Repr - old(tree.Repr)) && old(tree.Repr) <= tree.Repr
    ensures Traced(tree, start, steps)
    ensures if ConnectAt(old(tree.Model), p, key) then OneLookup(before, steps, p, key) else steps == before
    ensures forall k :: k != key && ConnectAt(old(tree.Model), p, k) ==> ConnectAt(tree.Model, p, k)
  {
    hide Holding, Traced;
    var connect := IsConnect(tree, p, key);
    if connect {
      steps := EnrichEndpoint(tree, p, key, start, before);
    } else {
      steps := before;
    }
  }

  method EnrichEndpoint(tree: ProcessTree, p: Pid, key: string, ghost start: S.Frozen, ghost before: seq<M.Step>)
    returns (ghost steps: seq<M.Step>)
    requires tree.Valid() && Traced(tree, start, before) && ConnectAt(tree.Model, p, key)
    modifies tree`Model, tree`Repr, tree.Repr
    ensures tree.Valid() && fresh(tree.Repr - old(tree.Repr)) && old(tree.Repr) <= tree.Repr
    ensures Traced(tree, start, steps) && OneLookup(before, steps, p, key)
    ensures forall k :: k != key && ConnectAt(old(tree.Model), p, k) ==> ConnectAt(tree.Model, p, k)
  {
    hide Holding, M.Apply, M.OnlyConnect, Enriching, ApplyAll, M.EnrichConnection, ConnectAt;
    ghost var t := tree.Model;
    var d := AnyEndpoint();
    ConnectIsOnly(t, p, key);
    tree.EnrichConnectionMetadata(p, key, d);
    EnrichingSnoc(tree.cfg, start, before, M.EnrichConn(p, key, d));
    steps := before + [M.EnrichConn(p, key, d)];
    Applies(tree.cfg, t, p, M.Meta(None, 0, ""), key, d);
    forall k | k != key && ConnectAt(t, p, k) ensures ConnectAt(tree.Model, p, k) {
      OthersStayConnects(t, p, key, d, k);
    }
  }

  ghost predicate OneLookup(before: seq<M.Step>, steps: seq<M.Step>, p: Pid, key: string) {
    |steps| == |before| + 1 && steps == before + [Last(steps)] && IsLookup(Last(steps), p, key)
  }

  lemma ConnectIsOnly(t: S.Frozen, p: Pid, key: string)
    requires ConnectAt(t, p, key)
    ensures M.OnlyConnect(t, p, key)
  {
  }

  method IsConnect(tree: ProcessTree, p: Pid, key: string) returns (connect: bool)
    requires tree.Valid() && p in tree.byPID
    ensures connect <==> ConnectAt(tree.Model, p, key)
  {
    var c := tree.byPID[p];
    assert Holds(tree.Repr, c, Live(p), tree.Model.byPID[p]);
    assert key in c.effects ==> c.Keeps(key, c.effects[key], c.Model.effects[key]);
    connect := key in c.effects && c.effects[key].kind.Connect?;
  }

  /**
   * The connect effects of one process, in map order. Effects re-keyed during the walk may or may not be met
   * again, so besides the keys there at the start any number of further keys is visited.
   */
  method EnrichConnects(tree: ProcessTree, p: Pid, ghost start: S.Frozen, ghost before: seq<M.Step>)
    returns (ghost steps: seq<M.Step>, ghost b: seq<M.Step>)
    requires tree.Valid() && p in tree.byPID && Traced(tree, start, before)
    modifies tree`Model, tree`Repr, tree.Repr
    ensures tree.Valid() && fresh(tree.Repr - old(tree.Repr)) && old(tree.Repr) <= tree.Repr
    ensures Traced(tree, start, steps) && steps == before + b
    ensures Lookups(b, p, EffectsAt(old(tree.Model), p))
  {
    hide Holding, Traced;
    ghost var t := tree.Model;
    KeysOf(tree, p);
    var todo := tree.byPID[p].effects.Keys;
    var extra: nat :| extra >= 0;
    b := [];
    steps := before;
    while todo != {} || extra > 0
      invariant tree.Valid() && fresh(tree.Repr - old(tree.Repr)) && old(tree.Repr) <= tree.Repr
      invariant Traced(tree, start, steps) && steps == before + b
      invariant forall i :: 0 <= i < |b| ==> b[i].EnrichConn? && b[i].pid == p
      invariant forall k :: ConnectAt(t, p, k) ==> if k in todo then ConnectAt(tree.Model, p, k) else LookedUp(b, p, k)
      decreases |todo| + extra
    {
      var key: string := *;
      if todo != {} {
        key :| key in todo;
        todo := todo - {key};
      } else {
        extra := extra - 1;
      }
      ghost var now, was := tree.Model, b;
      steps := EnrichKey(tree, p, key, start, steps);
      if ConnectAt(now, p, key) {
        b := b + [Last(steps)];
        forall k ensures LookedUp(was, p, k) || k == key ==> LookedUp(b, p, k) {
          LookedUpSnoc(was, Last(steps), p, k);
        }
      }
    }
  }

  lemma KeysOf(tree: ProcessTree, p: Pid)
    requires tree.Valid() && p in tree.byPID
    ensures p in tree.Model.byPID && tree.byPID[p].effects.Keys == tree.Model.byPID[p].effects.Keys
  {
    assert Holds(tree.Repr, tree.byPID[p], Live(p), tree.Model.byPID[p]);
  }

  /** One process is enriched: its metadata, then its connects, then the mark. */
  method EnrichNode(tree: ProcessTree, p: Pid, ghost start: S.Frozen, ghost before: seq<M.Step>)
    returns (ghost steps: seq<M.Step>, ghost b: seq<M.Step>)
    requires tree.Valid() && p in tree.byPID && Traced(tree, start, before)
    modifies tree`Model, tree`Repr, tree.Repr
    ensures tree.Valid() && fresh(tree.Repr - old(tree.Repr)) && old(tree.Repr) <= tree.Repr
    ensures Traced(tree, start, steps) && steps == before + b && IsBlock(b, p, EffectsAt(old(tree.Model), p))
  {
    hide Holding, Traced, EffectsAt, Lookups;
    ghost var lookups;
    var m := AnyMeta();
    steps := EnrichMeta(tree, p, m, start, before);
    steps, lookups := EnrichConnects(tree, p, start, steps);
    steps := EnrichMark(tree, p, start, steps);
    b := [M.Enrich(p, m)] + lookups + [M.Mark(p)];
    assert b[1..|b| - 1] == lookups;
  }

  // ---------------------------------------------------------------- taking a snapshot

  /** Each process was copied as it was after some of the enrichment steps. */
  ghost predicate CopiedAt(cfg: M.Config, start: S.Frozen, steps: seq<M.Step>, when: map<Pid, nat>, copy: S.Index) {
    && copy.Keys == when.Keys
    && (forall p :: p in copy ==> (when[p] <= |steps| && IsNodeOf(ApplyAll(cfg, start, steps[..when[p]]), p, copy[p])))
  }

  ghost predicate IsNodeOf(t: S.Frozen, p: Pid, n: S.Node) {
    p in t.byPID && t.byPID[p] == n
  }

  ghost predicate AllEnriched(t: S.Frozen) {
    forall p :: p in t.byPID ==> t.byPID[p].enriched
  }

  /** Index and copy are each in order, and nothing is reached from both. */
  ghost predicate Apart(tree: ProcessTree, fs: FrozenSnapshot)
    reads tree, tree.Repr, fs, fs.Repr
  {
    tree.Valid() && fs.Valid() && tree.Repr !! fs.Repr && tree !in fs.Repr && fs !in tree.Repr
  }

  lemma CopiedLater(cfg: M.Config, start: S.Frozen, before: seq<M.Step>, steps: seq<M.Step>, when: map<Pid, nat>,
          copy: S.Index)
    requires CopiedAt(cfg, start, before, when, copy) && before <= steps
    ensures CopiedAt(cfg, start, steps, when, copy)
  {
    forall p | p in copy ensures steps[..when[p]] == before[..when[p]] {}
  }

  lemma CopiedNow(cfg: M.Config, start: S.Frozen, steps: seq<M.Step>, when: map<Pid, nat>, copy: S.Index, p: Pid)
    requires CopiedAt(cfg, start, steps, when, copy) && p in ApplyAll(cfg, start, steps).byPID
    ensures CopiedAt(cfg, start, steps, when[p := |steps|], copy[p := ApplyAll(cfg, start, steps).byPID[p]])
  {
    assert steps[..|steps|] == steps;
  }

  /** One live process: enriched if need be, then copied. */
  method CopyOne(tree: ProcessTree, fs: FrozenSnapshot, p: Pid, ghost start: S.Frozen, ghost before: seq<M.Step>,
          ghost when: map<Pid, nat>)
    returns (ghost steps: seq<M.Step>)
    requires Apart(tree, fs) && p in tree.byPID
    requires Traced(tree, start, before) && CopiedAt(tree.cfg, start, before, when, fs.Model.byPID)
    modifies tree`Model, tree`Repr, tree.Repr, fs
    ensures Apart(tree, fs)
    ensures fresh(tree.Repr - old(tree.Repr) + (fs.Repr - old(fs.Repr)))
    ensures Traced(tree, start, steps) && Prolongs(before, steps, p)
    ensures CopiedAt(tree.cfg, start, steps, when[p := |steps|], fs.Model.byPID)
    ensures fs.Model.byPID.Keys == old(fs.Model).byPID.Keys + {p} && fs.Model.ghosts == old(fs.Model).ghosts
    ensures p in old(tree.Model).byPID && Treated(before, steps, p, old(tree.Model).byPID[p])
  {
    hide Traced, CopiedAt, ApplyAll, Apart, Treated;
    steps := EnrichIfNeeded(tree, fs, p, start, before);
    CopiedLater(tree.cfg, start, before, steps, when, fs.Model.byPID);
    CloneInto(tree, fs, p);
    CopiedTraced(tree, start, steps, when, old(fs.Model).byPID, p);
  }

  method EnrichIfNeeded(tree: ProcessTree, fs: FrozenSnapshot, p: Pid, ghost start: S.Frozen, ghost before: seq<M.Step>)
    returns (ghost steps: seq<M.Step>)
    requires Apart(tree, fs) && p in tree.byPID && Traced(tree, start, before)
    modifies tree`Model, tree`Repr, tree.Repr
    ensures Apart(tree, fs) && fresh(tree.Repr - old(tree.Repr)) && tree.byPID == old(tree.byPID)
    ensures Traced(tree, start, steps) && Prolongs(before, steps, p) && unchanged(fs)
    ensures p in old(tree.Model).byPID && Treated(before, steps, p, old(tree.Model).byPID[p])
  {
    hide Traced, Holding, IsBlock;
    var enriched := IsEnriched(tree, p);
    steps := before;
    if !enriched {
      ghost var b;
      steps, b := EnrichNode(tree, p, start, before);
      BlockAbout(before, b, p, EffectsAt(old(tree.Model), p));
      assert steps[|before|..] == b;
    }
  }

  /** The steps taken for one process: none if it was enriched, else a block. */
  ghost predicate Treated(before: seq<M.Step>, steps: seq<M.Step>, p: Pid, n: S.Node) {
    before <= steps && if n.enriched then steps == before else IsBlock(steps[|before|..], p, n.effects)
  }

  lemma BlockAbout(before: seq<M.Step>, b: seq<M.Step>, p: Pid, effects: map<string, S.Effect>)
    ensures IsBlock(b, p, effects) ==> Prolongs(before, before + b, p)
  {
    if IsBlock(b, p, effects) {
      forall i | 0 <= i < |b| ensures About(b[i], p) {
        assert 0 < i < |b| - 1 ==> b[i] == b[1..|b| - 1][i - 1];
      }
    }
  }

  method CloneInto(tree: ProcessTree, fs: FrozenSnapshot, p: Pid)
    requires Apart(tree, fs) && p in tree.byPID
    modifies fs
    ensures Apart(tree, fs) && fresh(fs.Repr - old(fs.Repr))
    ensures p in tree.Model.byPID && fs.Model == M.Put(old(fs.Model), p, tree.Model.byPID[p])
  {
    hide Holding;
    var copy := CloneAt(tree, p);
    fs.AddLive(p, copy);
  }

  lemma CopiedTraced(tree: ProcessTree, start: S.Frozen, steps: seq<M.Step>, when: map<Pid, nat>, copy: S.Index, p: Pid)
    requires Traced(tree, start, steps) && CopiedAt(tree.cfg, start, steps, when, copy) && p in tree.Model.byPID
    ensures CopiedAt(tree.cfg, start, steps, when[p := |steps|], copy[p := tree.Model.byPID[p]])
  {
    CopiedNow(tree.cfg, start, steps, when, copy, p);
  }

  method IsEnriched(tree: ProcessTree, p: Pid) returns (enriched: bool)
    requires tree.Valid() && p in tree.byPID
    ensures p in tree.Model.byPID && enriched == tree.Model.byPID[p].enriched
  {
    assert Holds(tree.Repr, tree.byPID[p], Live(p), tree.Model.byPID[p]);
    enriched := tree.byPID[p].enriched;
  }

  method CloneAt(tree: ProcessTree, p: Pid) returns (c: ProcessCell)
    requires tree.Valid() && p in tree.byPID
    ensures fresh(c) && fresh(c.effects.Values) && c.Valid() && c.slot == Live(p)
    ensures p in tree.Model.byPID && c.Model == tree.Model.byPID[p]
  {
    assert Holds(tree.Repr, tree.byPID[p], Live(p), tree.Model.byPID[p]);
    c := tree.byPID[p].Clone();
  }

  method CloneGhostAt(tree: ProcessTree, p: Pid) returns (c: ProcessCell)
    requires tree.Valid() && p in tree.ghosts
    ensures fresh(c) && fresh(c.effects.Values) && c.Valid() && c.slot == Ghost(p)
    ensures p in tree.Model.ghosts && c.Model == tree.Model.ghosts[p]
  {
    assert Holds(tree.Repr, tree.ghosts[p], Ghost(p), tree.Model.ghosts[p]);
    c := tree.ghosts[p].Clone();
  }

  ghost predicate NoneAbout(steps: seq<M.Step>, p: Pid) {
    forall i :: 0 <= i < |steps| ==> !About(steps[i], p)
  }

  /** All steps about p are the block from m to n. */
  ghost predicate BlockAt(steps: seq<M.Step>, m: nat, n: nat, p: Pid, effects: map<string, S.Effect>) {
    m <= n <= |steps| && IsBlock(steps[m..n], p, effects) && NoneAbout(steps[..m], p) && NoneAbout(steps[n..], p)
  }

  /** A process that was enriched at the start is left alone; another is enriched by one block, up to step n. */
  ghost predicate EnrichedBy(start: S.Frozen, steps: seq<M.Step>, n: nat, p: Pid) {
    p in start.byPID &&
    if start.byPID[p].enriched then NoneAbout(steps, p) else exists m :: BlockAt(steps, m, n, p, start.byPID[p].effects)
  }

  lemma NoneAboutMore(before: seq<M.Step>, steps: seq<M.Step>, p: Pid, q: Pid)
    requires NoneAbout(before, q) && Prolongs(before, steps, p) && p != q
    ensures NoneAbout(steps, q)
  {
    forall i | 0 <= i < |steps| ensures !About(steps[i], q) {
      if i < |before| { assert steps[i] == before[i]; } else { assert About(steps[i], p); }
    }
  }

  lemma EnrichedByMore(start: S.Frozen, before: seq<M.Step>, steps: seq<M.Step>, n: nat, p: Pid, q: Pid)
    requires EnrichedBy(start, before, n, q) && Prolongs(before, steps, p) && p != q
    ensures EnrichedBy(start, steps, n, q)
  {
    hide IsBlock;
    if start.byPID[q].enriched {
      NoneAboutMore(before, steps, p, q);
    } else {
      var m: nat :| BlockAt(before, m, n, q, start.byPID[q].effects);
      assert steps[m..n] == before[m..n] && steps[..m] == before[..m];
      forall i | n <= i < |steps| ensures !About(steps[i], q) {
        if i < |before| { assert steps[i] == before[n..][i - n]; } else { assert About(steps[i], p); }
      }
      assert BlockAt(steps, m, n, q, start.byPID[q].effects);
    }
  }

  lemma EnrichedByNew(start: S.Frozen, before: seq<M.Step>, steps: seq<M.Step>, p: Pid, n: S.Node)
    requires Treated(before, steps, p, n) && NoneAbout(before, p)
    requires p in start.byPID && start.byPID[p].enriched == n.enriched && start.byPID[p].effects == n.effects
    ensures EnrichedBy(start, steps, |steps|, p)
  {
    hide IsBlock;
    if !n.enriched {
      assert steps[|before|..|steps|] == steps[|before|..] && steps[..|before|] == before;
      assert BlockAt(steps, |before|, |steps|, p, n.effects);
    }
  }

  /** Steps about others leave the effects and the mark of a process alone. */
  lemma {:induction false} NotAboutSame(cfg: M.Config, start: S.Frozen, steps: seq<M.Step>, p: Pid)
    requires OnlyLive(start, steps) && p in start.byPID && NoneAbout(steps, p)
    ensures var t := ApplyAll(cfg, start, steps);
            p in t.byPID && t.byPID[p].effects == start.byPID[p].effects &&
                t.byPID[p].enriched == start.byPID[p].enriched
  {
    if steps != [] {
      hide M.Apply;
      var n := |steps| - 1;
      NotAboutSame(cfg, start, steps[..n], p);
      OneNotAbout(cfg, ApplyAll(cfg, start, steps[..n]), steps[n], p);
    }
  }

  lemma OneNotAbout(cfg: M.Config, t: S.Frozen, s: M.Step, p: Pid)
    requires (s.Enrich? || s.EnrichConn? || s.Mark?) && !About(s, p) && p in t.byPID
    ensures var u := M.Apply(cfg, t, s);
            p in u.byPID && u.byPID[p].effects == t.byPID[p].effects && u.byPID[p].enriched == t.byPID[p].enriched
  {
  }

  /** The processes done so far have been enriched if need be and copied; nothing has been done to the others. */
  ghost predicate Copying(tree: ProcessTree, fs: FrozenSnapshot, start: S.Frozen, steps: seq<M.Step>,
          when: map<Pid, nat>, done: set<Pid>)
    reads tree, fs
  {
    && Traced(tree, start, steps) && OnlyLive(start, steps) && tree.byPID.Keys == start.byPID.Keys
    && CopiedAt(tree.cfg, start, steps, when, fs.Model.byPID)
    && fs.Model.byPID.Keys == done && fs.Model.ghosts == map[]
    && Worked(start, steps, when, done)
  }

  ghost predicate Worked(start: S.Frozen, steps: seq<M.Step>, when: map<Pid, nat>, done: set<Pid>) {
    && (forall p :: p in done ==> p in when && EnrichedBy(start, steps, when[p], p))
    && (forall p :: p in start.byPID && p !in done ==> NoneAbout(steps, p))
  }

  lemma WorkedMore(start: S.Frozen, before: seq<M.Step>, steps: seq<M.Step>, when: map<Pid, nat>, done: set<Pid>,
          p: Pid, n: S.Node)
    requires Worked(start, before, when, done) && p !in done && Prolongs(before, steps, p) &&
        Treated(before, steps, p, n)
    requires p in start.byPID && start.byPID[p].enriched == n.enriched && start.byPID[p].effects == n.effects
    ensures Worked(start, steps, when[p := |steps|], done + {p})
  {
    hide EnrichedBy, NoneAbout, Prolongs, Treated;
    EnrichedByNew(start, before, steps, p, n);
    forall q | q in done ensures EnrichedBy(start, steps, when[q], q) {
      EnrichedByMore(start, before, steps, when[q], p, q);
    }
    forall q | q in start.byPID && q !in done + {p} ensures NoneAbout(steps, q) {
      NoneAboutMore(before, steps, p, q);
    }
  }

  method CopyNext(tree: ProcessTree, fs: FrozenSnapshot, p: Pid, ghost start: S.Frozen, ghost before: seq<M.Step>,
          ghost when: map<Pid, nat>, ghost done: set<Pid>)
    returns (ghost steps: seq<M.Step>)
    requires Apart(tree, fs) && p in tree.byPID && p !in done
    requires Copying(tree, fs, start, before, when, done)
    modifies tree`Model, tree`Repr, tree.Repr, fs
    ensures Apart(tree, fs)
    ensures fresh(tree.Repr - old(tree.Repr) + (fs.Repr - old(fs.Repr)))
    ensures Copying(tree, fs, start, steps, when[p := |steps|], done + {p}) && tree.byPID == old(tree.byPID)
  {
    hide Traced, CopiedAt, Holding, OnlyLive, Prolongs, Worked, Treated;
    ghost var t := tree.Model;
    NotYet(tree, start, before, when, done, p);
    steps := CopyOne(tree, fs, p, start, before, when);
    OnlyLiveMore(start, before, steps, p);
    WorkedMore(start, before, steps, when, done, p, t.byPID[p]);
  }

  lemma NotYet(tree: ProcessTree, start: S.Frozen, steps: seq<M.Step>, when: map<Pid, nat>, done: set<Pid>, p: Pid)
    requires Traced(tree, start, steps) && OnlyLive(start, steps) && Worked(start, steps, when, done)
    requires p in start.byPID && p !in done
    ensures var t := tree.Model;
            p in t.byPID && t.byPID[p].effects == start.byPID[p].effects &&
                t.byPID[p].enriched == start.byPID[p].enriched
  {
    NotAboutSame(tree.cfg, start, steps, p);
  }

  /** The live part of a snapshot: every live process once, in map order. */
  method CopyLive(tree: ProcessTree, fs: FrozenSnapshot) returns (ghost steps: seq<M.Step>, ghost when: map<Pid, nat>)
    requires Apart(tree, fs) && fs.Model == M.EMPTY
    modifies tree`Model, tree`Repr, tree.Repr, fs
    ensures Apart(tree, fs)
    ensures fresh(tree.Repr - old(tree.Repr) + (fs.Repr - old(fs.Repr)))
    ensures Copying(tree, fs, old(tree.Model), steps, when, old(tree.Model).byPID.Keys)
  {
    hide Copying, Apart;
    StartsCopying(tree, fs);
    steps, when := [], map[];
    var rest := tree.byPID.Keys;
    ghost var all := rest;
    while rest != {}
      invariant rest <= all == tree.byPID.Keys
      invariant Apart(tree, fs)
      invariant fresh(tree.Repr - old(tree.Repr) + (fs.Repr - old(fs.Repr)))
      invariant Copying(tree, fs, old(tree.Model), steps, when, all - rest)
      decreases rest
    {
      var p :| p in rest;
      steps := CopyNext(tree, fs, p, old(tree.Model), steps, when, all - rest);
      when := when[p := |steps|];
      TakeOne(all, rest, p);
      rest := rest - {p};
    }
    TookAll(all, rest);
  }

  lemma StartsCopying(tree: ProcessTree, fs: FrozenSnapshot)
    requires Apart(tree, fs) && fs.Model == M.EMPTY
    ensures Copying(tree, fs, tree.Model, [], map[], {}) && tree.byPID.Keys == tree.Model.byPID.Keys
    ensures tree.byPID.Keys - tree.byPID.Keys == {}
  {
  }

  lemma OnlyLiveMore(t: S.Frozen, before: seq<M.Step>, steps: seq<M.Step>, p: Pid)
    requires OnlyLive(t, before) && Prolongs(before, steps, p) && p in t.byPID
    ensures OnlyLive(t, steps)
  {
    forall i | 0 <= i < |steps|
      ensures (steps[i].Enrich? || steps[i].EnrichConn? || steps[i].Mark?) && steps[i].pid in t.byPID {
      if i < |before| { assert steps[i] == before[i]; } else { assert About(steps[i], p); }
    }
  }

  /** The exited part of a snapshot. */
  method CopyGhosts(tree: ProcessTree, fs: FrozenSnapshot)
    requires Apart(tree, fs) && fs.Model.ghosts == map[]
    modifies fs
    ensures Apart(tree, fs) && fresh(fs.Repr - old(fs.Repr))
    ensures fs.Model == old(fs.Model).(ghosts := tree.Model.ghosts)
  {
    hide Apart;
    GhostKeys(tree, fs);
    var rest := tree.ghosts.Keys;
    while rest != {}
      invariant rest <= tree.ghosts.Keys
      invariant Apart(tree, fs) && fresh(fs.Repr - old(fs.Repr))
      invariant fs.Model == old(fs.Model).(ghosts := tree.Model.ghosts - rest)
      decreases rest
    {
      var p :| p in rest;
      CopyGhost(tree, fs, p);
      OneLess(tree.Model.ghosts, rest, p);
      rest := rest - {p};
    }
    NoneLess(tree.Model.ghosts, rest);
  }

  lemma NoneLess(m: S.Index, rest: set<Pid>)
    ensures rest == {} ==> m - rest == m
    ensures rest == m.Keys ==> m - rest == map[]
  {
  }

  lemma GhostKeys(tree: ProcessTree, fs: FrozenSnapshot)
    requires Apart(tree, fs)
    ensures tree.ghosts.Keys == tree.Model.ghosts.Keys && tree.Model.ghosts - tree.ghosts.Keys == map[]
  {
  }

  method CopyGhost(tree: ProcessTree, fs: FrozenSnapshot, p: Pid)
    requires Apart(tree, fs) && p in tree.ghosts
    modifies fs
    ensures Apart(tree, fs) && fresh(fs.Repr - old(fs.Repr))
    ensures p in tree.Model.ghosts && fs.Model == PutAt(old(fs.Model), Ghost(p), tree.Model.ghosts[p])
  {
    hide Holding;
    var copy := CloneGhostAt(tree, p);
    fs.AddGhost(p, copy);
  }

  lemma OneLess(m: S.Index, rest: set<Pid>, p: Pid)
    requires p in rest && p in m
    ensures (m - rest)[p := m[p]] == m - (rest - {p})
  {
  }

  /**
   * TakeSnapshot. The copy is apart from the index; the ghosts are exact; each live process that was not enriched
   * has been, once, and each is copied as it was then. If nothing needed enriching, all is exact.
   */
  method TakeSnapshot(tree: ProcessTree)
    returns (fs: FrozenSnapshot, ghost steps: seq<M.Step>, ghost when: map<Pid, nat>)
    requires tree.Valid()
    modifies tree`Model, tree`Repr, tree.Repr
    ensures fresh(fs) && fresh(fs.Repr) && Apart(tree, fs)
    ensures fresh(tree.Repr - old(tree.Repr))
    ensures Enriching(tree.cfg, old(tree.Model), steps) && tree.Model == ApplyAll(tree.cfg, old(tree.Model), steps)
    ensures CopiedAt(tree.cfg, old(tree.Model), steps, when, fs.Model.byPID)
    ensures forall p :: p in old(tree.Model).byPID ==> p in when && EnrichedBy(old(tree.Model), steps, when[p], p)
    ensures fs.Model.byPID.Keys == old(tree.Model).byPID.Keys && fs.Model.ghosts == old(tree.Model).ghosts
    ensures AllEnriched(old(tree.Model)) ==> fs.Model == old(tree.Model) && tree.Model == old(tree.Model)
  {
    hide Holding, Copying, CopiedAt, ApplyAll, Enriching, EnrichedBy;
    fs := new FrozenSnapshot();
    steps, when := CopyLive(tree, fs);
    SnapshotDone(tree, fs, old(tree.Model), steps, when);
    CopyGhosts(tree, fs);
  }

  lemma SnapshotDone(tree: ProcessTree, fs: FrozenSnapshot, start: S.Frozen, steps: seq<M.Step>, when: map<Pid, nat>)
    requires Copying(tree, fs, start, steps, when, start.byPID.Keys)
    ensures Enriching(tree.cfg, start, steps) && tree.Model == ApplyAll(tree.cfg, start, steps)
    ensures tree.Model.ghosts == start.ghosts && fs.Model.byPID.Keys == start.byPID.Keys && fs.Model.ghosts == map[]
    ensures CopiedAt(tree.cfg, start, steps, when, fs.Model.byPID)
    ensures forall p :: p in start.byPID ==> p in when && EnrichedBy(start, steps, when[p], p)
    ensures AllEnriched(start) ==> fs.Model.byPID == start.byPID && tree.Model == start
  {
    EnrichingKeeps(tree.cfg, start, steps);
    if AllEnriched(start) {
      NothingToDo(start, steps, when);
      forall p | p in fs.Model.byPID ensures fs.Model.byPID[p] == start.byPID[p] {
        assert steps[..when[p]] == [];
      }
    }
  }

  lemma NothingToDo(start: S.Frozen, steps: seq<M.Step>, when: map<Pid, nat>)
    requires AllEnriched(start) && OnlyLive(start, steps) && Worked(start, steps, when, start.byPID.Keys)
    ensures steps == []
  {
    assert |steps| > 0 ==> steps[0].pid in start.byPID && About(steps[0], steps[0].pid);
    forall p | p in start.byPID ensures NoneAbout(steps, p) {
      assert EnrichedBy(start, steps, when[p], p);
    }
  }

  /** Whatever an orderly index hands out is in order. */
  lemma SnapshotInOrder(cfg: M.Config, start: S.Frozen, steps: seq<M.Step>, when: map<Pid, nat>, copy: S.Frozen,
          now: int)
    requires M.Inv(cfg, start, now) && Enriching(cfg, start, steps)
    requires CopiedAt(cfg, start, steps, when, copy.byPID) && copy.ghosts == start.ghosts
    ensures M.Inv(cfg, copy, now)
  {
    forall p | p in copy.byPID ensures M.NodeInv(cfg, p, copy.byPID[p], now) && copy.byPID[p].end.None? {
      EnrichingPrefix(cfg, start, steps, when[p]);
      EnrichingInv(cfg, start, steps[..when[p]], now);
      assert IsNodeOf(ApplyAll(cfg, start, steps[..when[p]]), p, copy.byPID[p]);
    }
  }

  // ---------------------------------------------------------------- isolation

  /** Any operation on the live index. A sweep reports which ghosts it kept. */
  method Perform(tree: ProcessTree, s: M.Step) returns (ghost done: M.Step)
    requires tree.Valid()
    modifies tree, tree.Repr
    ensures tree.Valid() && fresh(tree.Repr - old(tree.Repr))
    ensures tree.Model == M.Apply(tree.cfg, old(tree.Model), done)
    ensures if s.Evict? then IsSweep(old(tree.Model), s, done) else done == s
  {
    hide Holding, M.HandleEvent, M.EnrichProcess, M.EnrichConnection, M.Discover, M.Sweep, M.SweepOk;
    done := s;
    match s
    case Handle(e, k) => tree.HandleEvent(e, k);
    case Enrich(pid, m) => tree.EnrichProcessMetadata(pid, m);
    case EnrichConn(pid, key, d) => tree.EnrichConnectionMetadata(pid, key, d);
    case Mark(pid) => tree.MarkEnriched(pid);
    case Find(pid, comm, ppid, binaryPath, now) => tree.DiscoverProcess(pid, comm, ppid, binaryPath, now);
    case Evict(_, maxAge, t0, t1) =>
      var end := if t0 <= t1 then t1 else t0;
      ghost var kept := tree.SweepGhosts(maxAge, t0, end);
      done := M.Evict(kept, maxAge, t0, end);
  }

  /** A sweep that was asked for, with what it kept. */
  ghost predicate IsSweep(t: S.Frozen, s: M.Step, done: M.Step)
    requires s.Evict?
  {
    done.Evict? && done.maxAge == s.maxAge && done.t0 == s.t0 && M.SweepOk(t, done.kept, done.maxAge, done.t0, done.t1)
  }

  /** Isolation: no sequence of operations on the index changes anything a snapshot can reach. */
  method RunBeside(tree: ProcessTree, fs: FrozenSnapshot, steps: seq<M.Step>)
    requires Apart(tree, fs)
    modifies tree, tree.Repr
    ensures Apart(tree, fs) && fresh(tree.Repr - old(tree.Repr))
    ensures unchanged(fs) && unchanged(fs.Repr) && fs.Model == old(fs.Model)
  {
    hide Holding;
    for i := 0 to |steps|
      invariant Apart(tree, fs) && fresh(tree.Repr - old(tree.Repr))
      invariant unchanged(fs) && unchanged(fs.Repr)
    {
      ghost var _ := Perform(tree, steps[i]);
    }
  }
}
