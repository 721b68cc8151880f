/**
 * The live process index as it is kept in memory: cells updated in place, reached from two maps.
 * Every method is tied to its value-level counterpart in TreeModel. An effect knows the process it belongs to
 * and a process the map entry it belongs to, so nothing can be reached twice (NothingShared).
 */
module ProcessIndex {
  import opened Basics
  import S = Snapshot
  import M = TreeModel

  class EffectCell {
    var kind: S.EffectKind
    var target: string
    var count: nat
    var first: int
    var last: int
    var detail: S.Detail
    ghost const home: ProcessCell

    constructor (e: S.Effect, ghost home: ProcessCell)
      ensures View() == e && this.home == home
    {
      kind, target, count, first, last, detail := e.kind, e.target, e.count, e.first, e.last, e.detail;
      this.home := home;
    }

    ghost function View(): S.Effect
      reads this
    {
      S.Effect(kind, target, count, first, last, detail)
    }

    method Clone(ghost home: ProcessCell) returns (c: EffectCell)
      ensures fresh(c) && c.View() == View() && c.home == home
    {
      c := new EffectCell(S.Effect(kind, target, count, first, last, detail), home);
    }
  }

  /** The map entry a process is reached from. */
  datatype Slot = Live(pid: Pid) | Ghost(pid: Pid)

  class ProcessCell {
    var pid: Pid
    var ppid: Pid
    var binaryPath: string
    var comm: string
    var effects: map<string, EffectCell>
    var start: int
    var end: Option<int>
    var children: seq<Pid>
    var memoryUsage: nat
    var enriched: bool
    ghost var Model: S.Node  // the value of this cell and its effects
    ghost var slot: Slot

    ghost predicate Valid()
      reads this, effects.Values
    {
      && Model == S.Node(pid, ppid, binaryPath, comm, Model.effects, start, end, children, memoryUsage, enriched)
      && Model.effects.Keys == effects.Keys
      && (forall k :: k in effects ==> Keeps(k, effects[k], Model.effects[k]))
    }

    ghost predicate Keeps(key: string, c: EffectCell, e: S.Effect)
      reads c
    {
      c.home == this && c.target == key && c.View() == e
    }

    constructor (pid: Pid, binaryPath: string, comm: string, start: int)
      ensures Valid() && Model == M.NewNode(pid, binaryPath, comm, start)
      ensures effects == map[] && slot == Live(pid)
    {
      this.pid, this.ppid, this.binaryPath, this.comm := pid, 0, binaryPath, comm;
      effects, this.start, end, children, memoryUsage, enriched := map[], start, None, [], 0, false;
      Model := M.NewNode(pid, binaryPath, comm, start);
      slot := Live(pid);
    }

    lemma SameSize()
      requires Valid()
      ensures |effects| == |Model.effects|
    {
      assert |effects| == |effects.Keys| && |Model.effects| == |Model.effects.Keys|;
    }

    /** One more use of a known effect. */
    method Bump(key: string, now: int)
      requires Valid() && key in effects
      modifies this`Model, effects[key]
      ensures Valid()
      ensures var e := old(Model).effects[key];
        Model == old(Model).(effects := old(Model).effects[key := e.(count := e.count + 1, last := now)])
    {
      var eff := effects[key];
      assert Keeps(key, eff, Model.effects[key]);
      eff.count := eff.count + 1;
      eff.last := now;
      Model := Model.(effects := Model.effects[key := eff.View()]);
    }

    /** An effect of this process put under a key, over whatever was there. */
    method Store(key: string, eff: EffectCell)
      requires Valid() && eff.home == this && eff.target == key
      requires forall k :: k in effects && effects[k] == eff ==> k == key
      modifies this`effects, this`Model
      ensures Valid() && effects == old(effects)[key := eff] && effects.Values <= old(effects.Values) + {eff}
      ensures Model == old(Model).(effects := old(Model).effects[key := eff.View()])
    {
      effects := effects[key := eff];
      Model := Model.(effects := Model.effects[key := eff.View()]);
    }

    method RecordOpen(path: string, cap: int, k: M.Ticks)
      requires Valid()
      modifies this`effects, this`Model, effects.Values
      ensures Valid() && fresh(effects.Values - old(effects.Values))
      ensures Model == M.RecordOpen(old(Model), path, cap, k)
    {
      SameSize();
      if path in effects {
        Bump(path, k.t1);
      } else {
        if |effects| >= cap { return; }
        var eff := new EffectCell(M.NewEffect(S.Open, path, k.t1, k.t2), this);
        Store(path, eff);
      }
    }

    method RecordConnect(key: string, cap: int, k: M.Ticks)
      requires Valid()
      modifies this`effects, this`Model, effects.Values
      ensures Valid() && fresh(effects.Values - old(effects.Values))
      ensures Model == M.RecordConnect(old(Model), key, cap, k)
    {
      SameSize();
      if |effects| >= cap { return; }
      var eff := new EffectCell(M.NewEffect(S.Connect, key, k.t2, k.t3), this);
      Store(key, eff);
    }

    method SetDetail(key: string, d: S.Detail)
      requires Valid() && key in effects
      modifies this`Model, effects[key]
      ensures Valid()
      ensures Model == old(Model).(effects := old(Model).effects[key := old(Model).effects[key].(detail := d)])
    {
      assert Keeps(key, effects[key], Model.effects[key]);
      effects[key].detail := d;
      Model := Model.(effects := Model.effects[key := effects[key].View()]);
    }

    /** The effect moves to a new key, over whatever was there. */
    method Rekey(key: string, newKey: string)
      requires Valid() && key in effects
      modifies this`effects, this`Model, effects[key]
      ensures Valid() && effects.Values <= old(effects.Values)
      ensures Model ==
          old(Model).(effects := (old(Model).effects - {key})[newKey := old(Model).effects[key].(target := newKey)])
    {
      var eff := effects[key];
      assert Keeps(key, eff, Model.effects[key]);
      effects := effects - {key};
      eff.target := newKey;
      Model := Model.(effects := Model.effects - {key});
      Store(newKey, eff);
    }

    static lemma DropUpdated(m: map<string, S.Effect>, key: string, e: S.Effect)
      ensures m[key := e] - {key} == m - {key}
    {
    }

    method EnrichEffect(key: string, d: M.Endpoint)
      requires Valid()
      modifies this`effects, this`Model, effects.Values
      ensures Valid() && fresh(effects.Values - old(effects.Values))
      ensures Model == M.EnrichEffect(old(Model), key, d)
    {
      if key !in effects { return; }
      var eff := effects[key];
      assert Keeps(key, eff, Model.effects[key]);
      var detail: S.Detail := d;
      if eff.detail.ConnectDetail? {
        detail := d.(bytesSent := d.bytesSent + eff.detail.bytesSent, bytesRecv := d.bytesRecv + eff.detail.bytesRecv);
      }
      UpdateEffect(key, detail, d);
    }

    method UpdateEffect(key: string, detail: S.Detail, d: M.Endpoint)
      requires Valid() && key in effects
      modifies this`effects, this`Model, effects[key]
      ensures Valid() && effects.Values <= old(effects.Values)
      ensures var e := old(Model).effects[key].(detail := detail);
        Model == old(Model).(effects :=
          if M.CONNECT_PREFIX <= key && d.ip != ""
          then (old(Model).effects - {key})[M.EndpointKey(d) := e.(target := M.EndpointKey(d))]
          else old(Model).effects[key := e])
    {
      SetDetail(key, detail);
      if M.CONNECT_PREFIX <= key && d.ip != "" {
        Rekey(key, M.EndpointKey(d));
        DropUpdated(old(Model).effects, key, old(Model).effects[key].(detail := detail));
      }
    }

    method AddChild(c: Pid)
      requires Valid()
      modifies this`children, this`Model
      ensures Valid() && Model == M.AddChild(old(Model), c)
    {
      var found := false;
      var i := 0;
      while i < |children|
        invariant i <= |children|
        invariant found <==> c in children[..i]
      {
        if children[i] == c {
          found := true;
          assert c in children[..i + 1];
          break;
        }
        i := i + 1;
      }
      assert found <==> c in children;
      if !found {
        children := children + [c];
        Model := Model.(children := children);
      }
    }

    method SetMetadata(comm: string, ppid: Pid, binaryPath: string)
      requires Valid()
      modifies this`comm, this`ppid, this`binaryPath, this`Model
      ensures Valid()
      ensures Model == old(Model).(comm := comm, ppid := ppid, binaryPath := binaryPath)
    {
      this.comm, this.ppid, this.binaryPath := comm, ppid, binaryPath;
      Model := Model.(comm := comm, ppid := ppid, binaryPath := binaryPath);
    }

    method SetEnd(now: int)
      requires Valid()
      modifies this`end, this`Model
      ensures Valid() && Model == old(Model).(end := Some(now))
    {
      end := Some(now);
      Model := Model.(end := end);
    }

    method MarkEnriched()
      requires Valid()
      modifies this`enriched, this`Model
      ensures Valid() && Model == old(Model).(enriched := true)
    {
      enriched := true;
      Model := Model.(enriched := true);
    }

    ghost method Relocate(slot: Slot)
      requires Valid()
      modifies this`slot
      ensures Valid() && this.slot == slot
    {
      this.slot := slot;
    }

    /** The shallow part of a copy: every field but the effects. */
    constructor Shallow(n: ProcessCell)
      requires n.Valid()
      ensures Valid() && effects == map[] && Model == n.Model.(effects := map[]) && slot == n.slot
    {
      pid, ppid, binaryPath, comm := n.pid, n.ppid, n.binaryPath, n.comm;
      effects, start, end := map[], n.start, n.end;
      children, memoryUsage, enriched := n.children, n.memoryUsage, n.enriched;
      Model := n.Model.(effects := map[]);
      slot := n.slot;
    }

    /** A deep copy: equal in value, sharing nothing. */
    method Clone() returns (c: ProcessCell)
      requires Valid()
      ensures fresh(c) && fresh(c.effects.Values) && c.Valid() && c.Model == Model && c.slot == slot
    {
      c := new ProcessCell.Shallow(this);
      CloneEffects(c);
    }

    method CloneEffects(c: ProcessCell)
      requires Valid() && c.Valid() && c.effects == map[] && c != this
      modifies c`effects, c`Model
      ensures c.Valid() && fresh(c.effects.Values)
      ensures c.Model == old(c.Model).(effects := Model.effects)
    {
      var rest := effects.Keys;
      while rest != {}
        invariant rest <= effects.Keys && c.Valid() && fresh(c.effects.Values)
        invariant c.Model == old(c.Model).(effects := c.Model.effects)
        invariant c.Model.effects == Model.effects - rest
        decreases rest
      {
        var k :| k in rest;
        assert Keeps(k, effects[k], Model.effects[k]);
        var copy := effects[k].Clone(c);
        Restored(Model.effects, rest, k);
        c.Store(k, copy);
        rest := rest - {k};
      }
      assert Model.effects - {} == Model.effects;
    }

    static lemma Restored(m: map<string, S.Effect>, rest: set<string>, k: string)
      requires k in rest && k in m
      ensures (m - rest)[k := m[k]] == m - (rest - {k})
    {
    }
  }

  type Cells = map<Pid, ProcessCell>

  /** A process held in a map entry: it and its effects lie in the representation, and its value is the model's. */
  ghost predicate Holds(repr: set<object>, c: ProcessCell, slot: Slot, n: S.Node)
    reads repr
  {
    c in repr && c.effects.Values <= repr && c.slot == slot && c.Valid() && c.Model == n
  }

  lemma HoldsMore(repr: set<object>, more: set<object>, c: ProcessCell, slot: Slot, n: S.Node)
    requires Holds(repr, c, slot, n) && repr <= more
    ensures Holds(more, c, slot, n)
  {
  }

  /** Two processes in order in different map entries are different, and have no effect in common. */
  lemma NothingShared(repr: set<object>, c: ProcessCell, slot: Slot, n: S.Node, d: ProcessCell, slot': Slot, n': S.Node)
    requires Holds(repr, c, slot, n) && Holds(repr, d, slot', n') && slot != slot'
    ensures c != d && c.effects.Values !! d.effects.Values
    ensures forall j, k :: j in c.effects && k in c.effects && j != k ==> c.effects[j] != c.effects[k]
  {
    assert forall j :: j in c.effects ==> c.Keeps(j, c.effects[j], c.Model.effects[j]);
    assert forall k :: k in d.effects ==> d.Keeps(k, d.effects[k], d.Model.effects[k]);
  }

  /** Two maps of processes in the state the model describes. */
  ghost predicate Holding(repr: set<object>, byPID: Cells, ghosts: Cells, model: S.Frozen)
    reads repr
  {
    && model.byPID.Keys == byPID.Keys && model.ghosts.Keys == ghosts.Keys
    && (forall p :: p in byPID ==> Holds(repr, byPID[p], Live(p), model.byPID[p]))
    && (forall p :: p in ghosts ==> Holds(repr, ghosts[p], Ghost(p), model.ghosts[p]))
  }

  function PutAt(t: S.Frozen, slot: Slot, n: S.Node): S.Frozen {
    match slot
    case Live(p) => t.(byPID := t.byPID[p := n])
    case Ghost(p) => t.(ghosts := t.ghosts[p := n])
  }

  /** One held process about to change in place. */
  datatype Change = Change(repr: set<object>, cell: ProcessCell, slot: Slot, byPID: Cells, ghosts: Cells,
          model: S.Frozen) {
    ghost predicate Starts()
      reads repr
    {
      && Holding(repr, byPID, ghosts, model)
      && (match slot case Live(p) => p in byPID && byPID[p] == cell case Ghost(p) => p in ghosts && ghosts[p] == cell)
    }

    ghost predicate OthersHold(more: set<object>)
      reads more
    {
      && model.byPID.Keys == byPID.Keys && model.ghosts.Keys == ghosts.Keys
      && (forall p :: p in byPID && Live(p) != slot ==> Holds(more, byPID[p], Live(p), model.byPID[p]))
      && (forall p :: p in ghosts && Ghost(p) != slot ==> Holds(more, ghosts[p], Ghost(p), model.ghosts[p]))
    }
  }

  /** A held process, and another about to change. */
  datatype Bystander = Bystander(repr: set<object>, changing: ProcessCell, cell: ProcessCell, slot: Slot, n: S.Node)

  /** An effect belongs to one process, so what belongs to another is not touched. */
  twostate lemma Untouched(b: Bystander)
    requires old(b.changing.Valid()) && old(Holds(b.repr, b.cell, b.slot, b.n)) && b.cell != b.changing
    requires forall o :: o in b.repr && o != b.changing && o !in old(b.changing.effects.Values) ==> unchanged(o)
    ensures Holds(b.repr, b.cell, b.slot, b.n)
  {
    var c, d := b.changing, b.cell;
    assert forall j :: j in old(c.effects) ==> old(c.Keeps(j, c.effects[j], c.Model.effects[j]));
    assert forall k :: k in old(d.effects) ==> old(d.Keeps(k, d.effects[k], d.Model.effects[k]));
  }

  /** A change to one process and its effects leaves every other process as it was. */
  twostate lemma OthersUntouched(ch: Change)
    requires old(ch.Starts())
    requires forall o :: o in ch.repr && o != ch.cell && o !in old(ch.cell.effects.Values) ==> unchanged(o)
    ensures ch.OthersHold(ch.repr)
  {
    var c := ch.cell;
    assert old(Holds(ch.repr, c, ch.slot, c.Model));
    forall p | p in ch.byPID && Live(p) != ch.slot ensures Holds(ch.repr, ch.byPID[p], Live(p), ch.model.byPID[p]) {
      assert old(Holds(ch.repr, ch.byPID[p], Live(p), ch.model.byPID[p]));
      Untouched(Bystander(ch.repr, c, ch.byPID[p], Live(p), ch.model.byPID[p]));
    }
    forall p | p in ch.ghosts && Ghost(p) != ch.slot
      ensures Holds(ch.repr, ch.ghosts[p], Ghost(p), ch.model.ghosts[p]) {
      assert old(Holds(ch.repr, ch.ghosts[p], Ghost(p), ch.model.ghosts[p]));
      Untouched(Bystander(ch.repr, c, ch.ghosts[p], Ghost(p), ch.model.ghosts[p]));
    }
  }

  /** The changed process joins the others again, with its new value. */
  lemma Rejoins(ch: Change, more: set<object>, n: S.Node)
    requires ch.OthersHold(ch.repr) && ch.repr <= more && Holds(more, ch.cell, ch.slot, n)
    requires match ch.slot
      case Live(p) => p in ch.byPID && ch.byPID[p] == ch.cell
      case Ghost(p) => p in ch.ghosts && ch.ghosts[p] == ch.cell
    ensures Holding(more, ch.byPID, ch.ghosts, PutAt(ch.model, ch.slot, n))
  {
    forall p | p in ch.byPID && Live(p) != ch.slot ensures Holds(more, ch.byPID[p], Live(p), ch.model.byPID[p]) {
      HoldsMore(ch.repr, more, ch.byPID[p], Live(p), ch.model.byPID[p]);
    }
    forall p | p in ch.ghosts && Ghost(p) != ch.slot ensures Holds(more, ch.ghosts[p], Ghost(p), ch.model.ghosts[p]) {
      HoldsMore(ch.repr, more, ch.ghosts[p], Ghost(p), ch.model.ghosts[p]);
    }
  }

  lemma StillHeld(repr: set<object>, c: ProcessCell)
    requires c.Valid() && c in repr && c.effects.Values <= repr
    ensures Holds(repr, c, c.slot, c.Model)
  {
  }

  /** So the index is in order again, with the changed process's new value. */
  twostate lemma Settled(ch: Change)
    requires old(ch.Starts()) && ch.cell.Valid() && ch.cell.slot == ch.slot
    requires forall o :: o in ch.repr && o != ch.cell && o !in old(ch.cell.effects.Values) ==> unchanged(o)
    ensures Holding(ch.repr + ch.cell.effects.Values, ch.byPID, ch.ghosts, PutAt(ch.model, ch.slot, ch.cell.Model))
  {
    assert old(Holds(ch.repr, ch.cell, ch.slot, ch.cell.Model));
    OthersUntouched(ch);
    StillHeld(ch.repr + ch.cell.effects.Values, ch.cell);
    Rejoins(ch, ch.repr + ch.cell.effects.Values, ch.cell.Model);
  }

  /** The changed process has moved from the live index to the ghosts. */
  lemma Moved(ch: Change, pid: Pid)
    requires ch.OthersHold(ch.repr) && ch.slot == Live(pid)
    requires ch.cell.Valid() && ch.cell in ch.repr && ch.cell.effects.Values <= ch.repr && ch.cell.slot == Ghost(pid)
    ensures Holding(ch.repr, ch.byPID - {pid}, ch.ghosts[pid := ch.cell],
                    S.Frozen(ch.model.byPID - {pid}, ch.model.ghosts[pid := ch.cell.Model]))
  {
    StillHeld(ch.repr, ch.cell);
  }

  lemma HoldingMore(repr: set<object>, more: set<object>, byPID: Cells, ghosts: Cells, model: S.Frozen)
    requires Holding(repr, byPID, ghosts, model) && repr <= more
    ensures Holding(more, byPID, ghosts, model)
  {
    forall p | p in byPID ensures Holds(more, byPID[p], Live(p), model.byPID[p]) {
      HoldsMore(repr, more, byPID[p], Live(p), model.byPID[p]);
    }
    forall p | p in ghosts ensures Holds(more, ghosts[p], Ghost(p), model.ghosts[p]) {
      HoldsMore(repr, more, ghosts[p], Ghost(p), model.ghosts[p]);
    }
  }

  class ProcessTree {
    const cfg: M.Config
    var byPID: Cells
    var ghosts: Cells
    ghost var Model: S.Frozen
    ghost var Repr: set<object>  // the processes and effects, and what they replaced

    ghost predicate Valid()
      reads this, Repr
    {
      this !in Repr && Holding(Repr, byPID, ghosts, Model)
    }

    constructor (cfg: M.Config)
      ensures Valid() && Repr == {} && Model == M.EMPTY && this.cfg == cfg
    {
      this.cfg := cfg;
      byPID, ghosts := map[], map[];
      Model, Repr := M.EMPTY, {};
    }

    /** A new process takes the place of whatever the PID stood for. */
    method Install(pid: Pid, c: ProcessCell)
      requires Valid() && c.Valid() && c.effects == map[] && c.slot == Live(pid)
      modifies this
      ensures Valid() && Repr == old(Repr) + {c} && byPID == old(byPID)[pid := c]
      ensures Model == M.Put(old(Model), pid, c.Model)
    {
      hide Holds;
      Repr := Repr + {c};
      HoldingMore(old(Repr), Repr, byPID, ghosts, Model);
      HoldsNew(Repr, c);
      byPID := byPID[pid := c];
      Model := M.Put(Model, pid, c.Model);
    }

    lemma StartsAt(ch: Change)
      requires Valid() && ch.repr == Repr && ch.byPID == byPID && ch.ghosts == ghosts && ch.model == Model
      requires match ch.slot
        case Live(p) => p in byPID && byPID[p] == ch.cell
        case Ghost(p) => p in ghosts && ghosts[p] == ch.cell
      ensures ch.Starts() && ch.cell.Valid() && ch.cell.effects.Values <= Repr && ch.cell in Repr &&
          ch.cell.slot == ch.slot
      ensures match ch.slot case Live(p) => p in Model.byPID && ch.cell.Model == Model.byPID[p]
                case Ghost(p) => p in Model.ghosts && ch.cell.Model == Model.ghosts[p]
    {
      assert Holds(Repr, ch.cell, ch.slot, ch.cell.Model);
    }

    lemma HoldsNew(repr: set<object>, c: ProcessCell)
      requires c.Valid() && c.effects == map[] && c in repr
      ensures Holds(repr, c, c.slot, c.Model)
    {
    }

    method HandleExec(pid: Pid, comm: string, path: string, k: M.Ticks)
      requires Valid()
      modifies this
      ensures Valid() && fresh(Repr - old(Repr)) && old(Repr) <= Repr
      ensures Model == M.HandleEvent(cfg, old(Model), M.Exec(pid, comm, path), k)
    {
      if comm in cfg.ignored { return; }
      var c := new ProcessCell(pid, path, comm, k.t0);
      Install(pid, c);
    }

    /** The live process, or a stub for a PID whose exec was not seen. */
    method GetOrCreateProc(pid: Pid, comm: string, now: int) returns (c: ProcessCell)
      requires Valid()
      modifies this
      ensures Valid() && fresh(Repr - old(Repr)) && old(Repr) <= Repr
      ensures pid in byPID && byPID[pid] == c
      ensures Model == M.Put(old(Model), pid, M.GetOrCreate(old(Model), pid, comm, now))
    {
      if pid in byPID {
        c := byPID[pid];
        assert Model == M.Put(Model, pid, Model.byPID[pid]);
      } else {
        c := new ProcessCell(pid, "", comm, now);
        Install(pid, c);
      }
    }

    method RecordOpenAt(pid: Pid, path: string, k: M.Ticks)
      requires Valid() && pid in byPID
      modifies this`Model, this`Repr, Repr
      ensures Valid() && fresh(Repr - old(Repr)) && old(Repr) <= Repr
      ensures pid in old(Model).byPID &&
          Model == M.Put(old(Model), pid, M.RecordOpen(old(Model).byPID[pid], path, cfg.maxEffects, k))
    {
      hide Holds, Holding, Change.Starts, Change.OthersHold, ProcessCell.Valid, M.RecordOpen;
      var c := byPID[pid];
      ghost var ch := Change(Repr, c, Live(pid), byPID, ghosts, Model);
      StartsAt(ch);
      c.RecordOpen(path, cfg.maxEffects, k);
      Repr := Repr + c.effects.Values;
      Model := M.Put(Model, pid, c.Model);
      Settled(ch);
    }

    method RecordConnectAt(pid: Pid, key: string, k: M.Ticks)
      requires Valid() && pid in byPID
      modifies this`Model, this`Repr, Repr
      ensures Valid() && fresh(Repr - old(Repr)) && old(Repr) <= Repr
      ensures pid in old(Model).byPID &&
          Model == M.Put(old(Model), pid, M.RecordConnect(old(Model).byPID[pid], key, cfg.maxEffects, k))
    {
      hide Holds, Holding, Change.Starts, Change.OthersHold, ProcessCell.Valid, M.RecordConnect;
      var c := byPID[pid];
      ghost var ch := Change(Repr, c, Live(pid), byPID, ghosts, Model);
      StartsAt(ch);
      c.RecordConnect(key, cfg.maxEffects, k);
      Repr := Repr + c.effects.Values;
      Model := M.Put(Model, pid, c.Model);
      Settled(ch);
    }

    method EnrichEffectAt(pid: Pid, key: string, d: M.Endpoint)
      requires Valid() && pid in byPID
      modifies this`Model, this`Repr, Repr
      ensures Valid() && fresh(Repr - old(Repr)) && old(Repr) <= Repr
      ensures pid in old(Model).byPID && Model == M.Put(old(Model), pid, M.EnrichEffect(old(Model).byPID[pid], key, d))
    {
      hide Holds, Holding, Change.Starts, Change.OthersHold, ProcessCell.Valid, M.EnrichEffect;
      var c := byPID[pid];
      ghost var ch := Change(Repr, c, Live(pid), byPID, ghosts, Model);
      StartsAt(ch);
      c.EnrichEffect(key, d);
      Repr := Repr + c.effects.Values;
      Model := M.Put(Model, pid, c.Model);
      Settled(ch);
    }

    method AddChildAt(pid: Pid, child: Pid)
      requires Valid() && pid in byPID
      modifies this`Model, this`Repr, Repr
      ensures Valid() && fresh(Repr - old(Repr)) && old(Repr) <= Repr
      ensures pid in old(Model).byPID && Model == M.Put(old(Model), pid, M.AddChild(old(Model).byPID[pid], child))
    {
      hide Holds, Holding, Change.Starts, Change.OthersHold, ProcessCell.Valid, M.AddChild;
      var c := byPID[pid];
      ghost var ch := Change(Repr, c, Live(pid), byPID, ghosts, Model);
      StartsAt(ch);
      c.AddChild(child);
      Repr := Repr + c.effects.Values;
      Model := M.Put(Model, pid, c.Model);
      Settled(ch);
    }

    method SetMetadataAt(pid: Pid, comm: string, ppid: Pid, binaryPath: string)
      requires Valid() && pid in byPID
      modifies this`Model, this`Repr, Repr
      ensures Valid() && fresh(Repr - old(Repr)) && old(Repr) <= Repr
      ensures pid in old(Model).byPID &&
          Model == M.Put(old(Model), pid, old(Model).byPID[pid].(comm := comm, ppid := ppid, binaryPath := binaryPath))
    {
      hide Holds, Holding, Change.Starts, Change.OthersHold, ProcessCell.Valid;
      var c := byPID[pid];
      ghost var ch := Change(Repr, c, Live(pid), byPID, ghosts, Model);
      StartsAt(ch);
      c.SetMetadata(comm, ppid, binaryPath);
      Repr := Repr + c.effects.Values;
      Model := M.Put(Model, pid, c.Model);
      Settled(ch);
    }

    method MarkEnrichedAt(pid: Pid)
      requires Valid() && pid in byPID
      modifies this`Model, this`Repr, Repr
      ensures Valid() && fresh(Repr - old(Repr)) && old(Repr) <= Repr
      ensures pid in old(Model).byPID && Model == M.Put(old(Model), pid, old(Model).byPID[pid].(enriched := true))
    {
      hide Holds, Holding, Change.Starts, Change.OthersHold, ProcessCell.Valid;
      var c := byPID[pid];
      ghost var ch := Change(Repr, c, Live(pid), byPID, ghosts, Model);
      StartsAt(ch);
      c.MarkEnriched();
      Repr := Repr + c.effects.Values;
      Model := M.Put(Model, pid, c.Model);
      Settled(ch);
    }

    method EnrichGhostAt(pid: Pid, key: string, d: M.Endpoint)
      requires Valid() && pid in ghosts
      modifies this`Model, this`Repr, Repr
      ensures Valid() && fresh(Repr - old(Repr)) && old(Repr) <= Repr
      ensures Model == PutAt(old(Model), Ghost(pid), M.EnrichEffect(old(Model).ghosts[pid], key, d))
    {
      hide Holds, Holding, Change.Starts, Change.OthersHold, ProcessCell.Valid, M.EnrichEffect;
      var c := ghosts[pid];
      ghost var ch := Change(Repr, c, Ghost(pid), byPID, ghosts, Model);
      StartsAt(ch);
      c.EnrichEffect(key, d);
      Repr := Repr + c.effects.Values;
      Model := PutAt(Model, Ghost(pid), c.Model);
      Settled(ch);
    }

    method HandleOpen(pid: Pid, comm: string, path: string, k: M.Ticks)
      requires Valid() && cfg.captureFileIO
      modifies this, Repr
      ensures Valid() && fresh(Repr - old(Repr)) && old(Repr) <= Repr
      ensures Model == M.HandleEvent(cfg, old(Model), M.OpenFile(pid, comm, path), k)
    {
      hide Valid, M.RecordOpen, M.GetOrCreate;
      var _ := GetOrCreateProc(pid, comm, k.t0);
      RecordOpenAt(pid, path, k);
    }

    method HandleConnect(pid: Pid, comm: string, k: M.Ticks)
      requires Valid() && cfg.captureNetwork
      modifies this, Repr
      ensures Valid() && fresh(Repr - old(Repr)) && old(Repr) <= Repr
      ensures Model == M.HandleEvent(cfg, old(Model), M.Conn(pid, comm), k)
    {
      hide Valid, M.RecordConnect, M.GetOrCreate, M.ConnectKey;
      var _ := GetOrCreateProc(pid, comm, k.t0);
      var key := M.ConnectKey(pid, k.t1);
      RecordConnectAt(pid, key, k);
    }

    /** The process moves from the live index to the ghosts, replacing an older ghost with its PID. */
    method HandleExit(pid: Pid, k: M.Ticks)
      requires Valid()
      modifies this, Repr
      ensures Valid() && Repr == old(Repr)
      ensures Model == M.HandleEvent(cfg, old(Model), M.Exit(pid), k)
    {
      if pid !in byPID { return; }
      hide Valid, M.HandleEvent;
      SetEndAt(pid, k.t0);
      MoveToGhosts(pid);
      ExitModel(cfg, old(Model), pid, k);
    }

    static lemma ExitModel(cfg: M.Config, t: S.Frozen, pid: Pid, k: M.Ticks)
      requires pid in t.byPID
      ensures var n := t.byPID[pid].(end := Some(k.t0));
        M.HandleEvent(cfg, t, M.Exit(pid), k) == S.Frozen(t.byPID[pid := n] - {pid}, t.ghosts[pid := n])
    {
      var n := t.byPID[pid].(end := Some(k.t0));
      assert t.byPID[pid := n] - {pid} == t.byPID - {pid};
    }

    method SetEndAt(pid: Pid, now: int)
      requires Valid() && pid in byPID
      modifies this`Model, Repr
      ensures Valid() && pid in old(Model).byPID
      ensures Model == M.Put(old(Model), pid, old(Model).byPID[pid].(end := Some(now)))
    {
      hide Holds, Holding, Change.Starts, Change.OthersHold, ProcessCell.Valid;
      var c := byPID[pid];
      ghost var ch := Change(Repr, c, Live(pid), byPID, ghosts, Model);
      StartsAt(ch);
      c.SetEnd(now);
      Model := M.Put(Model, pid, c.Model);
      Settled(ch);
      assert Repr + c.effects.Values == Repr;
    }

    method MoveToGhosts(pid: Pid)
      requires Valid() && pid in byPID
      modifies this`byPID, this`ghosts, this`Model, Repr
      ensures Valid()
      ensures Model == S.Frozen(old(Model).byPID - {pid}, old(Model).ghosts[pid := old(Model).byPID[pid]])
    {
      hide Holds, Holding, Change.Starts, Change.OthersHold, ProcessCell.Valid;
      var c := byPID[pid];
      ghost var ch := Change(Repr, c, Live(pid), byPID, ghosts, Model);
      StartsAt(ch);
      c.Relocate(Ghost(pid));
      ghosts := ghosts[pid := c];
      byPID := byPID - {pid};
      Model := S.Frozen(Model.byPID - {pid}, Model.ghosts[pid := c.Model]);
      OthersUntouched(ch);
      Moved(ch, pid);
    }

    method HandleEvent(e: M.Event, k: M.Ticks)
      requires Valid()
      modifies this, Repr
      ensures Valid() && fresh(Repr - old(Repr)) && old(Repr) <= Repr
      ensures Model == M.HandleEvent(cfg, old(Model), e, k)
    {
      match e
      case Exec(pid, comm, path) => HandleExec(pid, comm, path, k);
      case OpenFile(pid, comm, path) => if cfg.captureFileIO { HandleOpen(pid, comm, path, k); }
      case Exit(pid) => HandleExit(pid, k);
      case Conn(pid, comm) => if cfg.captureNetwork { HandleConnect(pid, comm, k); }
      case Unknown(_) =>
    }

    method LinkChild(ppid: Pid, pid: Pid)
      requires Valid()
      modifies this`Model, this`Repr, Repr
      ensures Valid() && fresh(Repr - old(Repr)) && old(Repr) <= Repr
      ensures Model == M.LinkChild(old(Model), ppid, pid)
    {
      if ppid > 0 && ppid in byPID {
        AddChildAt(ppid, pid);
      }
    }

    method EnrichProcessMetadata(pid: Pid, m: M.Meta)
      requires Valid()
      modifies this`Model, this`Repr, Repr
      ensures Valid() && fresh(Repr - old(Repr)) && old(Repr) <= Repr
      ensures Model == M.EnrichProcess(old(Model), pid, m)
    {
      if pid !in byPID { return; }
      EnrichLive(pid, m);
    }

    method EnrichLive(pid: Pid, m: M.Meta)
      requires Valid() && pid in byPID
      modifies this`Model, this`Repr, Repr
      ensures Valid() && fresh(Repr - old(Repr)) && old(Repr) <= Repr
      ensures Model == M.EnrichProcess(old(Model), pid, m)
    {
      hide Valid, M.LinkChild, M.Put, M.EnrichProcess;
      var comm := CommOf(pid, m);
      SetMetadataAt(pid, comm, m.ppid, m.binaryPath);
      LinkChild(m.ppid, pid);
      EnrichModel(old(Model), pid, m);
    }

    static lemma EnrichModel(t: S.Frozen, pid: Pid, m: M.Meta)
      requires pid in t.byPID
      ensures var comm := if m.comm.Some? then m.comm.value else t.byPID[pid].comm;
        M.EnrichProcess(t, pid, m)
        == M.LinkChild(M.Put(t, pid, t.byPID[pid].(comm := comm, ppid := m.ppid, binaryPath := m.binaryPath)),
                       m.ppid, pid)
    {
    }

    method CommOf(pid: Pid, m: M.Meta) returns (comm: string)
      requires Valid() && pid in byPID
      ensures pid in Model.byPID && comm == if m.comm.Some? then m.comm.value else Model.byPID[pid].comm
    {
      assert Holds(Repr, byPID[pid], Live(pid), Model.byPID[pid]);
      comm := if m.comm.Some? then m.comm.value else byPID[pid].comm;
    }

    method EnrichConnectionMetadata(pid: Pid, key: string, d: Option<M.Endpoint>)
      requires Valid()
      modifies this`Model, this`Repr, Repr
      ensures Valid() && fresh(Repr - old(Repr)) && old(Repr) <= Repr
      ensures Model == M.EnrichConnection(old(Model), pid, key, d)
    {
      hide M.EnrichEffect;
      if d.None? { return; }
      if pid in byPID {
        EnrichEffectAt(pid, key, d.value);
      } else if pid in ghosts {
        EnrichGhostAt(pid, key, d.value);
      }
    }

    method MarkEnriched(pid: Pid)
      requires Valid()
      modifies this`Model, this`Repr, Repr
      ensures Valid() && fresh(Repr - old(Repr)) && old(Repr) <= Repr
      ensures Model == M.MarkEnriched(old(Model), pid)
    {
      if pid in byPID {
        MarkEnrichedAt(pid);
      }
    }

    /** One entry of the start-up sweep of the proc file system. */
    method DiscoverProcess(pid: Pid, comm: string, ppid: Pid, binaryPath: string, now: int)
      requires Valid()
      modifies this, Repr
      ensures Valid() && fresh(Repr - old(Repr)) && old(Repr) <= Repr
      ensures Model == M.Discover(old(Model), pid, comm, ppid, binaryPath, now)
    {
      if pid in byPID { return; }
      hide Valid, M.LinkChild, M.NewNode;
      InstallEnriched(pid, comm, ppid, binaryPath, now);
      LinkChild(ppid, pid);
    }

    method InstallEnriched(pid: Pid, comm: string, ppid: Pid, binaryPath: string, now: int)
      requires Valid()
      modifies this
      ensures Valid() && fresh(Repr - old(Repr)) && old(Repr) <= Repr
      ensures Model == M.Put(old(Model), pid, M.NewNode(pid, binaryPath, comm, now).(ppid := ppid, enriched := true))
    {
      hide Holding;
      var c := new ProcessCell(pid, binaryPath, comm, now);
      c.SetMetadata(comm, ppid, binaryPath);
      c.MarkEnriched();
      Install(pid, c);
    }

    /**
     * One tick of EvictGhosts: every ghost is looked at once, in map order, at its own clock reading. No ghost is
     * left that was too old at the start, none is gone that was not too old at the end, and nothing else changes.
     */
    method SweepGhosts(maxAge: int, t0: int, t1: int) returns (ghost kept: set<Pid>)
      requires Valid() && t0 <= t1
      modifies this
      ensures Valid() && Repr == old(Repr) && byPID == old(byPID)
      ensures Model == M.Sweep(old(Model), kept) && M.SweepOk(old(Model), kept, maxAge, t0, t1)
      ensures forall p :: p in ghosts ==> p in old(ghosts) && ghosts[p] == old(ghosts[p])
      ensures forall p :: p in Model.ghosts ==> p in ghosts && !TooOld(Model.ghosts[p], maxAge, t0)
      ensures forall p :: p in old(Model).ghosts && p !in Model.ghosts ==> TooOld(old(Model).ghosts[p], maxAge, t1)
    {
      KeptAll();
      hide TooOld, Valid, Judged, M.Sweep, M.SweepOk;
      kept := ghosts.Keys;
      var rest := ghosts.Keys;
      while rest != {}
        invariant rest <= kept <= old(Model).ghosts.Keys && ghosts.Keys == kept
        invariant forall p :: p in ghosts ==> p in old(ghosts) && ghosts[p] == old(ghosts)[p]
        invariant Valid() && Model == M.Sweep(old(Model), kept) && Repr == old(Repr) && byPID == old(byPID)
        invariant Judged(old(Model).ghosts, rest, kept, maxAge, t0, t1)
        decreases rest
      {
        var p :| p in rest;
        ghost var before := kept;
        SweptAt(old(Model), kept, p);
        kept := SweepOne(p, maxAge, t0, t1, kept);
        SweepStep(old(Model), rest, before, kept, p, maxAge, t0, t1);
        rest := rest - {p};
      }
      AllJudged(old(Model), kept, maxAge, t0, t1);
    }

    lemma KeptAll()
      requires Valid()
      ensures Model == M.Sweep(Model, ghosts.Keys) && ghosts.Keys == Model.ghosts.Keys
      ensures forall maxAge, t0, t1 :: Judged(Model.ghosts, ghosts.Keys, ghosts.Keys, maxAge, t0, t1)
    {
      assert M.Sweep(Model, ghosts.Keys).ghosts == Model.ghosts;
    }

    static lemma AllJudged(t: S.Frozen, kept: set<Pid>, maxAge: int, t0: int, t1: int)
      requires Judged(t.ghosts, {}, kept, maxAge, t0, t1) && t0 <= t1 && kept <= t.ghosts.Keys
      ensures M.SweepOk(t, kept, maxAge, t0, t1) && M.Sweep(t, kept).ghosts.Keys == kept
      ensures forall p :: p in kept ==> !TooOld(M.Sweep(t, kept).ghosts[p], maxAge, t0)
      ensures forall p :: p in t.ghosts && p !in kept ==> TooOld(t.ghosts[p], maxAge, t1)
    {
      assert forall p :: p in t.ghosts ==> JudgedOne(t.ghosts[p], p in kept, maxAge, t0, t1);
    }

    /** A process that ended longer than maxAge before, or at the zero time. */
    static ghost predicate TooOld(n: S.Node, maxAge: int, now: int) {
      n.end.None? || now - n.end.value > maxAge
    }

    method SweepOne(p: Pid, maxAge: int, t0: int, t1: int, ghost kept: set<Pid>) returns (ghost kept': set<Pid>)
      requires Valid() && p in ghosts && t0 <= t1 && p in kept
      modifies this`ghosts, this`Model
      ensures Valid() && p in old(Model).ghosts
      ensures kept' == kept || kept' == kept - {p}
      ensures kept' == kept ==> ghosts == old(ghosts) && Model == old(Model)
      ensures kept' != kept ==> ghosts == old(ghosts) - {p} && Model == old(Model).(ghosts := old(Model).ghosts - {p})
      ensures JudgedOne(old(Model).ghosts[p], p in kept', maxAge, t0, t1)
    {
      var now: int :| t0 <= now <= t1;
      var end := EndOf(p);
      kept' := kept;
      if end.None? || now - end.value > maxAge {
        DropGhost(p);
        kept' := kept - {p};
      }
    }

    static ghost predicate JudgedOne(n: S.Node, kept: bool, maxAge: int, t0: int, t1: int) {
      (kept ==> !TooOld(n, maxAge, t0)) && (!kept ==> TooOld(n, maxAge, t1))
    }

    static lemma SweptAt(t: S.Frozen, kept: set<Pid>, p: Pid)
      requires p in kept && kept <= t.ghosts.Keys
      ensures p in M.Sweep(t, kept).ghosts && M.Sweep(t, kept).ghosts[p] == t.ghosts[p]
    {
    }

    static lemma SweepStep(t: S.Frozen, rest: set<Pid>, kept: set<Pid>, kept': set<Pid>, p: Pid, maxAge: int, t0: int,
            t1: int)
      requires p in rest && rest <= kept <= t.ghosts.Keys && (kept' == kept || kept' == kept - {p})
      requires Judged(t.ghosts, rest, kept, maxAge, t0, t1) && JudgedOne(t.ghosts[p], p in kept', maxAge, t0, t1)
      ensures Judged(t.ghosts, rest - {p}, kept', maxAge, t0, t1)
      ensures M.Sweep(t, kept).(ghosts := M.Sweep(t, kept).ghosts - {p}) == M.Sweep(t, kept - {p})
    {
      assert M.Sweep(t, kept).ghosts - {p} == M.Sweep(t, kept - {p}).ghosts;
    }

    static ghost predicate Judged(all: S.Index, rest: set<Pid>, kept: set<Pid>, maxAge: int, t0: int, t1: int) {
      forall p :: p in all && p !in rest ==> JudgedOne(all[p], p in kept, maxAge, t0, t1)
    }

    method EndOf(p: Pid) returns (end: Option<int>)
      requires Valid() && p in ghosts
      ensures p in Model.ghosts && end == Model.ghosts[p].end
    {
      assert Holds(Repr, ghosts[p], Ghost(p), Model.ghosts[p]);
      end := ghosts[p].end;
    }

    method DropGhost(p: Pid)
      requires Valid()
      modifies this`ghosts, this`Model
      ensures Valid() && ghosts == old(ghosts) - {p} && Model == old(Model).(ghosts := old(Model).ghosts - {p})
    {
      hide Holds;
      ghosts := ghosts - {p};
      Model := Model.(ghosts := Model.ghosts - {p});
    }
  }
}
