/**
 * What each operation of the live process index does, on values: the specification the mutable index
 * in ProcessIndex is proved against, and the home of everything that is said about whole runs.
 */
module TreeModel {
  import opened Basics
  import opened Snapshot

  datatype Config = Config(maxEffects: int, captureNetwork: bool, captureFileIO: bool, ignored: set<string>)

  datatype Event =
    | Exec(pid: Pid, comm: string, path: string)
    | OpenFile(pid: Pid, comm: string, path: string)
    | Exit(pid: Pid)
    | Conn(pid: Pid, comm: string)
    | Unknown(pid: Pid)

  /** The successive clock readings one handler takes. */
  datatype Ticks = Ticks(t0: int, t1: int, t2: int, t3: int) {
    predicate Ordered() { t0 <= t1 <= t2 <= t3 }
  }

  /** What the proc file system says about a process; an unreadable command line is None. */
  datatype Meta = Meta(comm: Option<string>, ppid: Pid, binaryPath: string)

  type Endpoint = d: Detail | d.ConnectDetail? witness ConnectDetail("", 0, "", 0, 0)

  // ---------------------------------------------------------------- nodes

  function NewNode(pid: Pid, binaryPath: string, comm: string, start: int): Node {
    Node(pid, 0, binaryPath, comm, map[], start, None, [], 0, false)
  }

  function NewEffect(kind: EffectKind, target: string, t1: int, t2: int): Effect {
    Effect(kind, target, 1, t1, t2, if kind.Open? then OpenDetail(0) else ConnectDetail("", 0, "", 0, 0))
  }

  function RecordOpen(n: Node, path: string, cap: int, t: Ticks): Node {
    if path in n.effects then
      var e := n.effects[path];
      n.(effects := n.effects[path := e.(count := e.count + 1, last := t.t1)])
    else if |n.effects| >= cap then n
    else n.(effects := n.effects[path := NewEffect(Open, path, t.t1, t.t2)])
  }

  function RecordConnect(n: Node, key: string, cap: int, t: Ticks): Node {
    if |n.effects| >= cap then n
    else n.(effects := n.effects[key := NewEffect(Connect, key, t.t2, t.t3)])
  }

  function Decimal(n: nat): string {
    if n < 10 then ["0123456789"[n]] else Decimal(n / 10) + ["0123456789"[n % 10]]
  }

  const CONNECT_PREFIX := "connect:"

  function ConnectKey(pid: Pid, nanos: int): string {
    CONNECT_PREFIX + Decimal(pid) + ":" + if nanos < 0 then "-" + Decimal(-nanos) else Decimal(nanos)
  }

  function EndpointKey(d: Endpoint): string {
    var hostPort := d.ip + ":" + Decimal(d.port);
    if d.domain != "" then hostPort + " (" + d.domain + ")" else hostPort
  }

  /** A connect effect learns its endpoint; a fallback key gives way to the endpoint's. */
  function EnrichEffect(n: Node, key: string, d: Endpoint): Node {
    if key !in n.effects then n else
      var e := n.effects[key];
      var detail := if e.detail.ConnectDetail?
        then d.(bytesSent := d.bytesSent + e.detail.bytesSent, bytesRecv := d.bytesRecv + e.detail.bytesRecv)
        else d;
      if CONNECT_PREFIX <= key && d.ip != "" then
        var newKey := EndpointKey(d);
        n.(effects := (n.effects - {key})[newKey := e.(detail := detail, target := newKey)])
      else
        n.(effects := n.effects[key := e.(detail := detail)])
  }

  function AddChild(n: Node, c: Pid): Node {
    if c in n.children then n else n.(children := n.children + [c])
  }

  // ---------------------------------------------------------------- the index

  function GetOrCreate(t: Frozen, pid: Pid, comm: string, now: int): Node {
    if pid in t.byPID then t.byPID[pid] else NewNode(pid, "", comm, now)
  }

  function Put(t: Frozen, pid: Pid, n: Node): Frozen {
    t.(byPID := t.byPID[pid := n])
  }

  function HandleEvent(cfg: Config, t: Frozen, e: Event, k: Ticks): Frozen {
    match e
    case Exec(pid, comm, path) =>
      if comm in cfg.ignored then t else Put(t, pid, NewNode(pid, path, comm, k.t0))
    case OpenFile(pid, comm, path) =>
      if !cfg.captureFileIO then t
      else Put(t, pid, RecordOpen(GetOrCreate(t, pid, comm, k.t0), path, cfg.maxEffects, k))
    case Exit(pid) =>
      if pid !in t.byPID then t
      else Frozen(t.byPID - {pid}, t.ghosts[pid := t.byPID[pid].(end := Some(k.t0))])
    case Conn(pid, comm) =>
      if !cfg.captureNetwork then t
      else Put(t, pid, RecordConnect(GetOrCreate(t, pid, comm, k.t0), ConnectKey(pid, k.t1), cfg.maxEffects, k))
    case Unknown(_) => t
  }

  /** The parent, when it is live, gains the child. */
  function LinkChild(t: Frozen, ppid: Pid, pid: Pid): Frozen {
    if ppid > 0 && ppid in t.byPID then Put(t, ppid, AddChild(t.byPID[ppid], pid)) else t
  }

  function EnrichProcess(t: Frozen, pid: Pid, m: Meta): Frozen {
    if pid !in t.byPID then t else
      var n := t.byPID[pid];
      var comm := if m.comm.Some? then m.comm.value else n.comm;
      LinkChild(Put(t, pid, n.(comm := comm, ppid := m.ppid, binaryPath := m.binaryPath)), m.ppid, pid)
  }

  /** No endpoint found changes nothing; a live process is preferred to an exited one with its PID. */
  function EnrichConnection(t: Frozen, pid: Pid, key: string, d: Option<Endpoint>): Frozen {
    if d.None? then t
    else if pid in t.byPID then Put(t, pid, EnrichEffect(t.byPID[pid], key, d.value))
    else if pid in t.ghosts then t.(ghosts := t.ghosts[pid := EnrichEffect(t.ghosts[pid], key, d.value)])
    else t
  }

  function Discover(t: Frozen, pid: Pid, comm: string, ppid: Pid, binaryPath: string, now: int): Frozen {
    if pid in t.byPID then t else
      LinkChild(Put(t, pid, NewNode(pid, binaryPath, comm, now).(ppid := ppid, enriched := true)), ppid, pid)
  }

  function MarkEnriched(t: Frozen, pid: Pid): Frozen {
    if pid in t.byPID then Put(t, pid, t.byPID[pid].(enriched := true)) else t
  }

  function Sweep(t: Frozen, kept: set<Pid>): Frozen {
    t.(ghosts := map p | p in t.ghosts && p in kept :: t.ghosts[p])
  }

  /** A sweep that reads the clock between t0 and t1 for every ghost it looks at. */
  ghost predicate SweepOk(t: Frozen, kept: set<Pid>, maxAge: int, t0: int, t1: int) {
    t0 <= t1 && forall p :: p in t.ghosts && t.ghosts[p].end.Some? ==>
      && (p in kept ==> t0 - t.ghosts[p].end.value <= maxAge)
      && (p !in kept ==> t1 - t.ghosts[p].end.value > maxAge)
  }

  // ---------------------------------------------------------------- steps and runs

  datatype Step =
    | Handle(e: Event, k: Ticks)
    | Enrich(pid: Pid, m: Meta)
    | EnrichConn(pid: Pid, key: string, d: Option<Endpoint>)
    | Mark(pid: Pid)
    | Find(pid: Pid, comm: string, ppid: Pid, binaryPath: string, now: int)
    | Evict(kept: set<Pid>, maxAge: int, t0: int, t1: int)

  function Apply(cfg: Config, t: Frozen, s: Step): Frozen {
    match s
    case Handle(e, k) => HandleEvent(cfg, t, e, k)
    case Enrich(pid, m) => EnrichProcess(t, pid, m)
    case EnrichConn(pid, key, d) => EnrichConnection(t, pid, key, d)
    case Mark(pid) => MarkEnriched(t, pid)
    case Find(pid, comm, ppid, binaryPath, now) => Discover(t, pid, comm, ppid, binaryPath, now)
    case Evict(kept, _, _, _) => Sweep(t, kept)
  }

  /** When the step may happen, and at what time it is over: the clock never goes back. */
  ghost predicate Allowed(t: Frozen, s: Step, before: int, after: int) {
    before <= after && match s
      case Handle(e, k) => before <= k.t0 && k.Ordered() && k.t3 <= after
      case EnrichConn(pid, key, d) => OnlyConnect(t, pid, key)
      case Find(pid, comm, ppid, binaryPath, now) => before <= now <= after
      case Evict(kept, maxAge, t0, t1) => before <= t0 && t1 <= after && SweepOk(t, kept, maxAge, t0, t1)
      case _ => true
  }

  /** Endpoints are only looked up for connect effects. */
  ghost predicate OnlyConnect(t: Frozen, pid: Pid, key: string) {
    && (pid in t.byPID && key in t.byPID[pid].effects ==> t.byPID[pid].effects[key].kind.Connect?)
    && (pid !in t.byPID && pid in t.ghosts && key in t.ghosts[pid].effects ==> t.ghosts[pid].effects[key].kind.Connect?)
  }

  const EMPTY := Frozen(map[], map[])

  function Run(cfg: Config, steps: seq<Step>): Frozen {
    if steps == [] then EMPTY else Apply(cfg, Run(cfg, steps[..|steps| - 1]), steps[|steps| - 1])
  }

  /** times[i] is when step i may start; times[|steps|] is the present. */
  ghost predicate RunOk(cfg: Config, steps: seq<Step>, times: seq<int>) {
    |times| == |steps| + 1
    && forall i :: 0 <= i < |steps| ==> Allowed(Run(cfg, steps[..i]), steps[i], times[i], times[i + 1])
  }

  // ---------------------------------------------------------------- what every run keeps

  ghost predicate EffectInv(key: string, e: Effect, now: int) {
    && e.target == key && e.count >= 1 && e.first <= e.last <= now
    && (e.kind.Open? <==> e.detail.OpenDetail?)
  }

  ghost predicate NodeInv(cfg: Config, p: Pid, n: Node, now: int) {
    && n.pid == p
    && (n.effects != map[] ==> |n.effects| <= cfg.maxEffects)
    && (forall key :: key in n.effects ==> EffectInv(key, n.effects[key], now))
    && (forall i, j :: 0 <= i < j < |n.children| ==> n.children[i] != n.children[j])
  }

  ghost predicate Inv(cfg: Config, t: Frozen, now: int) {
    && (forall p :: p in t.byPID ==> NodeInv(cfg, p, t.byPID[p], now) && t.byPID[p].end.None?)
    && (forall p :: p in t.ghosts ==> NodeInv(cfg, p, t.ghosts[p], now) && t.ghosts[p].end.Some?)
  }

  lemma LaterInv(cfg: Config, t: Frozen, now: int, later: int)
    requires Inv(cfg, t, now) && now <= later
    ensures Inv(cfg, t, later)
  {
    forall p | p in t.byPID ensures NodeInv(cfg, p, t.byPID[p], later) {
      LaterNode(cfg, p, t.byPID[p], now, later);
    }
    forall p | p in t.ghosts ensures NodeInv(cfg, p, t.ghosts[p], later) {
      LaterNode(cfg, p, t.ghosts[p], now, later);
    }
  }

  lemma LaterNode(cfg: Config, p: Pid, n: Node, now: int, later: int)
    requires NodeInv(cfg, p, n, now) && now <= later
    ensures NodeInv(cfg, p, n, later)
  {
    forall key | key in n.effects ensures EffectInv(key, n.effects[key], later) {
      assert EffectInv(key, n.effects[key], now);
    }
  }

  /** Storing one more effect keeps the node in order, if there is room for it. */
  lemma StoreInv(cfg: Config, p: Pid, n: Node, effects: map<string, Effect>, key: string, e: Effect, now: int)
    requires NodeInv(cfg, p, n, now) && EffectInv(key, e, now)
    requires effects.Keys <= n.effects.Keys && forall x :: x in effects ==> effects[x] == n.effects[x]
    requires key in effects || |effects| < cfg.maxEffects
    ensures NodeInv(cfg, p, n.(effects := effects[key := e]), now)
  {
    var m := effects[key := e];
    assert |m| <= cfg.maxEffects by {
      SubsetSize(effects.Keys, n.effects.Keys);
      assert m.Keys == effects.Keys + {key};
      assert |effects.Keys| == |effects| && |n.effects.Keys| == |n.effects| && |m.Keys| == |m|;
    }
    forall x | x in m ensures EffectInv(x, m[x], now) {
      if x != key { assert EffectInv(x, n.effects[x], now); }
    }
  }

  lemma RecordOpenInv(cfg: Config, p: Pid, n: Node, path: string, k: Ticks, now: int)
    requires NodeInv(cfg, p, n, k.t0) && k.Ordered() && k.t3 <= now
    ensures NodeInv(cfg, p, RecordOpen(n, path, cfg.maxEffects, k), now)
  {
    LaterNode(cfg, p, n, k.t0, now);
    if path in n.effects {
      var e := n.effects[path];
      assert EffectInv(path, e, k.t0);
      StoreInv(cfg, p, n, n.effects, path, e.(count := e.count + 1, last := k.t1), now);
    } else if |n.effects| < cfg.maxEffects {
      StoreInv(cfg, p, n, n.effects, path, NewEffect(Open, path, k.t1, k.t2), now);
    }
  }

  lemma RecordConnectInv(cfg: Config, p: Pid, n: Node, key: string, k: Ticks, now: int)
    requires NodeInv(cfg, p, n, k.t0) && k.Ordered() && k.t3 <= now
    ensures NodeInv(cfg, p, RecordConnect(n, key, cfg.maxEffects, k), now)
  {
    LaterNode(cfg, p, n, k.t0, now);
    if |n.effects| < cfg.maxEffects {
      StoreInv(cfg, p, n, n.effects, key, NewEffect(Connect, key, k.t2, k.t3), now);
    }
  }

  lemma EnrichEffectInv(cfg: Config, p: Pid, n: Node, key: string, d: Endpoint, now: int)
    requires NodeInv(cfg, p, n, now)
    requires key in n.effects ==> n.effects[key].kind.Connect?
    ensures NodeInv(cfg, p, EnrichEffect(n, key, d), now)
  {
    if key in n.effects {
      var e := n.effects[key];
      assert EffectInv(key, e, now);
      var detail := d.(bytesSent := d.bytesSent + e.detail.bytesSent, bytesRecv := d.bytesRecv + e.detail.bytesRecv);
      if CONNECT_PREFIX <= key && d.ip != "" {
        var newKey := EndpointKey(d);
        assert (n.effects - {key}).Keys == n.effects.Keys - {key};
        assert |n.effects.Keys - {key}| == |n.effects| - 1;
        assert |(n.effects - {key}).Keys| == |n.effects - {key}|;
        StoreInv(cfg, p, n, n.effects - {key}, newKey, e.(detail := detail, target := newKey), now);
      } else {
        StoreInv(cfg, p, n, n.effects, key, e.(detail := detail), now);
      }
    }
  }

  lemma PutInv(cfg: Config, t: Frozen, p: Pid, n: Node, now: int)
    requires Inv(cfg, t, now) && NodeInv(cfg, p, n, now) && n.end.None?
    ensures Inv(cfg, Put(t, p, n), now)
  {
  }

  lemma LinkChildInv(cfg: Config, t: Frozen, ppid: Pid, pid: Pid, now: int)
    requires Inv(cfg, t, now)
    ensures Inv(cfg, LinkChild(t, ppid, pid), now)
  {
    if ppid > 0 && ppid in t.byPID {
      var n := t.byPID[ppid];
      assert NodeInv(cfg, ppid, n, now);
      assert NodeInv(cfg, ppid, AddChild(n, pid), now);
      PutInv(cfg, t, ppid, AddChild(n, pid), now);
    }
  }

  lemma GetOrCreateInv(cfg: Config, t: Frozen, pid: Pid, comm: string, start: int, now: int)
    requires Inv(cfg, t, now)
    ensures NodeInv(cfg, pid, GetOrCreate(t, pid, comm, start), now)
    ensures GetOrCreate(t, pid, comm, start).end.None?
  {
  }

  lemma OpenInv(cfg: Config, t: Frozen, pid: Pid, comm: string, path: string, k: Ticks, now: int)
    requires Inv(cfg, t, k.t0) && k.Ordered() && k.t3 <= now
    ensures Inv(cfg, Put(t, pid, RecordOpen(GetOrCreate(t, pid, comm, k.t0), path, cfg.maxEffects, k)), now)
  {
    hide NodeInv, Inv, GetOrCreate;
    LaterInv(cfg, t, k.t0, now);
    GetOrCreateInv(cfg, t, pid, comm, k.t0, k.t0);
    var n := GetOrCreate(t, pid, comm, k.t0);
    RecordOpenInv(cfg, pid, n, path, k, now);
    PutInv(cfg, t, pid, RecordOpen(n, path, cfg.maxEffects, k), now);
  }

  lemma ConnInv(cfg: Config, t: Frozen, pid: Pid, comm: string, k: Ticks, now: int)
    requires Inv(cfg, t, k.t0) && k.Ordered() && k.t3 <= now
    ensures var n := RecordConnect(GetOrCreate(t, pid, comm, k.t0), ConnectKey(pid, k.t1), cfg.maxEffects, k);
            Inv(cfg, Put(t, pid, n), now)
  {
    hide NodeInv, Inv, GetOrCreate;
    LaterInv(cfg, t, k.t0, now);
    GetOrCreateInv(cfg, t, pid, comm, k.t0, k.t0);
    var n := GetOrCreate(t, pid, comm, k.t0);
    RecordConnectInv(cfg, pid, n, ConnectKey(pid, k.t1), k, now);
    PutInv(cfg, t, pid, RecordConnect(n, ConnectKey(pid, k.t1), cfg.maxEffects, k), now);
  }

  lemma HandleInv(cfg: Config, t: Frozen, e: Event, k: Ticks, now: int)
    requires Inv(cfg, t, k.t0) && k.Ordered() && k.t3 <= now
    ensures Inv(cfg, HandleEvent(cfg, t, e, k), now)
  {
    hide NodeInv, Inv;
    LaterInv(cfg, t, k.t0, now);
    match e
    case Exec(pid, comm, path) => NewNodeInv(cfg, t, pid, path, comm, k.t0, now);
    case OpenFile(pid, comm, path) => OpenInv(cfg, t, pid, comm, path, k, now);
    case Exit(pid) => ExitInv(cfg, t, pid, k, now);
    case Conn(pid, comm) => ConnInv(cfg, t, pid, comm, k, now);
    case Unknown(_) =>
  }

  lemma NewNodeInv(cfg: Config, t: Frozen, pid: Pid, path: string, comm: string, start: int, now: int)
    requires Inv(cfg, t, now)
    ensures Inv(cfg, Put(t, pid, NewNode(pid, path, comm, start)), now)
  {
    PutInv(cfg, t, pid, NewNode(pid, path, comm, start), now);
  }

  lemma ExitInv(cfg: Config, t: Frozen, pid: Pid, k: Ticks, now: int)
    requires Inv(cfg, t, now)
    ensures Inv(cfg, HandleEvent(cfg, t, Exit(pid), k), now)
  {
    if pid in t.byPID {
      assert NodeInv(cfg, pid, t.byPID[pid], now);
      assert NodeInv(cfg, pid, t.byPID[pid].(end := Some(k.t0)), now);
    }
  }

  lemma EnrichConnectionInv(cfg: Config, t: Frozen, pid: Pid, key: string, d: Option<Endpoint>, now: int)
    requires Inv(cfg, t, now) && OnlyConnect(t, pid, key)
    ensures Inv(cfg, EnrichConnection(t, pid, key, d), now)
  {
    if d.Some? && pid in t.byPID {
      EnrichEffectInv(cfg, pid, t.byPID[pid], key, d.value, now);
    } else if d.Some? && pid in t.ghosts {
      EnrichEffectInv(cfg, pid, t.ghosts[pid], key, d.value, now);
    }
  }

  lemma EnrichProcessInv(cfg: Config, t: Frozen, pid: Pid, m: Meta, now: int)
    requires Inv(cfg, t, now)
    ensures Inv(cfg, EnrichProcess(t, pid, m), now)
  {
    if pid in t.byPID {
      var n := t.byPID[pid];
      var comm := if m.comm.Some? then m.comm.value else n.comm;
      var n' := n.(comm := comm, ppid := m.ppid, binaryPath := m.binaryPath);
      PutInv(cfg, t, pid, n', now);
      LinkChildInv(cfg, Put(t, pid, n'), m.ppid, pid, now);
    }
  }

  /** Every step, from any state in order, leads to a state in order. */
  lemma StepInv(cfg: Config, t: Frozen, s: Step, before: int, after: int)
    requires Inv(cfg, t, before) && Allowed(t, s, before, after)
    ensures Inv(cfg, Apply(cfg, t, s), after)
  {
    LaterInv(cfg, t, before, after);
    match s
    case Handle(e, k) =>
      LaterInv(cfg, t, before, k.t0);
      HandleInv(cfg, t, e, k, after);
    case Enrich(pid, m) => EnrichProcessInv(cfg, t, pid, m, after);
    case EnrichConn(pid, key, d) => EnrichConnectionInv(cfg, t, pid, key, d, after);
    case Mark(pid) =>
    case Find(pid, comm, ppid, binaryPath, now) =>
      if pid !in t.byPID {
        var n := NewNode(pid, binaryPath, comm, now).(ppid := ppid, enriched := true);
        PutInv(cfg, t, pid, n, after);
        LinkChildInv(cfg, Put(t, pid, n), ppid, pid, after);
      }
    case Evict(kept, _, _, _) =>
  }

  lemma RunOkPrefix(cfg: Config, steps: seq<Step>, times: seq<int>)
    requires RunOk(cfg, steps, times) && steps != []
    ensures RunOk(cfg, steps[..|steps| - 1], times[..|steps|])
    ensures Allowed(Run(cfg, steps[..|steps| - 1]), steps[|steps| - 1], times[|steps| - 1], times[|steps|])
  {
    var n := |steps| - 1;
    forall i | 0 <= i < n
      ensures Allowed(Run(cfg, steps[..n][..i]), steps[..n][i], times[..n + 1][i], times[..n + 1][i + 1])
    {
      assert steps[..n][..i] == steps[..i];
    }
  }

  /** Every reachable state is in order. */
  lemma {:induction false} RunInv(cfg: Config, steps: seq<Step>, times: seq<int>)
    requires RunOk(cfg, steps, times)
    ensures Inv(cfg, Run(cfg, steps), times[|steps|])
  {
    if steps != [] {
      var n := |steps| - 1;
      var prev := steps[..n];
      RunOkPrefix(cfg, steps, times);
      RunInv(cfg, prev, times[..n + 1]);
      StepInv(cfg, Run(cfg, prev), steps[n], times[n], times[n + 1]);
    }
  }

  // ---------------------------------------------------------------- ghosts

  /** A step that ends the stay of p among the ghosts, or starts a new one. */
  ghost predicate Disturbs(t: Frozen, s: Step, p: Pid) {
    match s
    case Handle(e, _) => e.Exit? && e.pid == p && p in t.byPID
    case Evict(kept, _, _, _) => p !in kept
    case _ => false
  }

  /** Nothing else does: the ghost stays, with its end time. */
  lemma GhostStays(cfg: Config, t: Frozen, s: Step, p: Pid)
    requires p in t.ghosts
    ensures Disturbs(t, s, p) || (p in Apply(cfg, t, s).ghosts && Apply(cfg, t, s).ghosts[p].end == t.ghosts[p].end)
  {
  }

  ghost predicate GhostSince(t: Frozen, p: Pid, end: int) {
    p in t.ghosts && t.ghosts[p].end == Some(end)
  }

  /**
   * Retention: p exited at the time its ghost shows. If since then p has not exited again and no sweep was
   * still running past the retention time, p is still a ghost with that end time.
   */
  lemma {:induction false} GhostRetained(cfg: Config, steps: seq<Step>, times: seq<int>, i: nat, p: Pid, end: int)
    requires RunOk(cfg, steps, times) && i <= |steps|
    requires GhostSince(Run(cfg, steps[..i]), p, end)
    requires forall j :: i <= j < |steps| && steps[j].Handle? && steps[j].e.Exit? ==> steps[j].e.pid != p
    requires forall j :: i <= j < |steps| && steps[j].Evict? ==> steps[j].t1 - end <= steps[j].maxAge
    ensures GhostSince(Run(cfg, steps), p, end)
    decreases |steps|
  {
    if i == |steps| {
      assert steps[..i] == steps;
    } else {
      hide Apply, Run, GhostSince;
      var n := |steps| - 1;
      RunOkPrefix(cfg, steps, times);
      assert steps[..n][..i] == steps[..i];
      GhostRetained(cfg, steps[..n], times[..n + 1], i, p, end);
      GhostKept(cfg, Run(cfg, steps[..n]), steps[n], p, end, times[n], times[n + 1]);
      RunUnfold(cfg, steps);
    }
  }

  lemma RunUnfold(cfg: Config, steps: seq<Step>)
    requires steps != []
    ensures Run(cfg, steps) == Apply(cfg, Run(cfg, steps[..|steps| - 1]), steps[|steps| - 1])
  {
  }

  lemma GhostKept(cfg: Config, t: Frozen, s: Step, p: Pid, end: int, before: int, after: int)
    requires Allowed(t, s, before, after) && GhostSince(t, p, end)
    requires s.Handle? && s.e.Exit? ==> s.e.pid != p
    requires s.Evict? ==> s.t1 - end <= s.maxAge
    ensures GhostSince(Apply(cfg, t, s), p, end)
  {
    GhostStays(cfg, t, s, p);
  }

  /** An exit moves the process, whole, from the live index to the ghosts. */
  lemma ExitMoves(cfg: Config, t: Frozen, p: Pid, k: Ticks)
    requires p in t.byPID
    ensures var t' := HandleEvent(cfg, t, Exit(p), k);
      && p !in t'.byPID && GhostSince(t', p, k.t0)
      && t'.ghosts[p] == t.byPID[p].(end := Some(k.t0))
      && t'.byPID == t.byPID - {p} && t'.ghosts - {p} == t.ghosts - {p}
  {
  }

  /** So an exited process stays visible until it is old enough to be swept, or its PID exits again. */
  lemma ExitedStaysVisible(cfg: Config, steps: seq<Step>, times: seq<int>, i: nat, p: Pid)
    requires RunOk(cfg, steps, times) && i < |steps|
    requires steps[i].Handle? && steps[i].e == Exit(p) && p in Run(cfg, steps[..i]).byPID
    requires forall j :: i < j < |steps| && steps[j].Handle? && steps[j].e.Exit? ==> steps[j].e.pid != p
    requires forall j :: i < j < |steps| && steps[j].Evict? ==> steps[j].t1 - steps[i].k.t0 <= steps[j].maxAge
    ensures GhostSince(Run(cfg, steps), p, steps[i].k.t0)
  {
    hide RunOk;
    var upTo := steps[..i + 1];
    assert upTo[..|upTo| - 1] == steps[..i];
    RunUnfold(cfg, upTo);
    ExitMoves(cfg, Run(cfg, steps[..i]), p, steps[i].k);
    GhostRetained(cfg, steps, times, i + 1, p, steps[i].k.t0);
  }
}
