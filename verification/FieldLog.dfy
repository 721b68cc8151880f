/**
 * What is known of a process besides its effects and children: over whole runs, its name, path, parent, start and
 * mark are those of its latest start and of the metadata and marks since; and what is known of an endpoint.
 */
module FieldLog {
  import opened Basics
  import opened Snapshot
  import opened TreeModel
  import opened ChildLog

  /** What a step that starts a process says of it. */
  datatype Birth = Birth(comm: string, binaryPath: string, ppid: Pid, start: int, enriched: bool)

  function BirthBy(s: Step): Option<Birth> {
    match s
    case Handle(Exec(_, comm, path), k) => Some(Birth(comm, path, 0, k.t0, false))
    case Handle(OpenFile(_, comm, _), k) => Some(Birth(comm, "", 0, k.t0, false))
    case Handle(Conn(_, comm), k) => Some(Birth(comm, "", 0, k.t0, false))
    case Find(_, comm, ppid, binaryPath, now) => Some(Birth(comm, binaryPath, ppid, now, true))
    case _ => None
  }

  /** The step is an exec of p that is not ignored, or p was not live before it and is live after. */
  ghost predicate Starts(cfg: Config, t: Frozen, s: Step, p: Pid) {
    (Resets(cfg, s, p) && s.e.Exec?) || (p !in t.byPID && p in Apply(cfg, t, s).byPID)
  }

  /** Step b started p, and p was not reset since. */
  ghost predicate StartedAt(cfg: Config, steps: seq<Step>, p: Pid, b: int) {
    0 <= b < |steps| && Starts(cfg, Run(cfg, steps[..b]), steps[b], p) &&
    forall k :: b < k < |steps| ==> !Resets(cfg, steps[k], p)
  }

  /** The latest metadata of p after step b. */
  function MetaSince(steps: seq<Step>, p: Pid, b: nat): Option<Meta> {
    if |steps| <= b + 1 then None else
      var last := steps[|steps| - 1];
      if last.Enrich? && last.pid == p then Some(last.m) else MetaSince(steps[..|steps| - 1], p, b)
  }

  /** The latest command line of p that could be read after step b. */
  function CommSince(steps: seq<Step>, p: Pid, b: nat): Option<string> {
    if |steps| <= b + 1 then None else
      var last := steps[|steps| - 1];
      if last.Enrich? && last.pid == p && last.m.comm.Some? then last.m.comm
      else CommSince(steps[..|steps| - 1], p, b)
  }

  /** A process that step b started is as that step, the metadata and the marks since say. */
  ghost predicate AsTold(steps: seq<Step>, p: Pid, b: nat, n: Node)
    requires b < |steps|
  {
    BirthBy(steps[b]).Some? && var birth, meta, comm :=
      BirthBy(steps[b]).value, MetaSince(steps, p, b), CommSince(steps, p, b);
    && n.pid == p && n.start == birth.start
    && n.comm == (if comm.Some? then comm.value else birth.comm)
    && n.ppid == (if meta.Some? then meta.value.ppid else birth.ppid)
    && n.binaryPath == (if meta.Some? then meta.value.binaryPath else birth.binaryPath)
    && (n.enriched <==> birth.enriched || Mark(p) in steps[b + 1..])
  }

  // ---------------------------------------------------------------- one step

  lemma StartStep(cfg: Config, t: Frozen, s: Step, p: Pid)
    requires Starts(cfg, t, s, p) && p in Apply(cfg, t, s).byPID
    ensures BirthBy(s).Some?
    ensures var n, birth := Apply(cfg, t, s).byPID[p], BirthBy(s).value;
      && n.pid == p && n.start == birth.start && n.comm == birth.comm && n.ppid == birth.ppid
      && n.binaryPath == birth.binaryPath && n.enriched == birth.enriched
  {
    hide ConnectKey, RecordOpen, RecordConnect;
    if s.Handle? { RecordsKeep(cfg, t, s, p); }
  }

  /** The fields in question. */
  ghost predicate SameFields(n: Node, n': Node) {
    n'.pid == n.pid && n'.start == n.start && n'.comm == n.comm && n'.ppid == n.ppid
    && n'.binaryPath == n.binaryPath && n'.enriched == n.enriched
  }

  /** Recording an effect leaves them alone. */
  lemma RecordsKeep(cfg: Config, t: Frozen, s: Step, p: Pid)
    requires s.Handle?
    ensures match s.e
      case OpenFile(_, comm, path) =>
        var n := GetOrCreate(t, p, comm, s.k.t0); SameFields(n, RecordOpen(n, path, cfg.maxEffects, s.k))
      case Conn(_, comm) =>
        var n := GetOrCreate(t, p, comm, s.k.t0);
        SameFields(n, RecordConnect(n, ConnectKey(p, s.k.t1), cfg.maxEffects, s.k))
      case _ => true
  {
    hide ConnectKey;
  }

  /** A live process stays, and only metadata and marks about it change what is known of it. */
  lemma LaterStep(cfg: Config, t: Frozen, s: Step, p: Pid)
    requires p in t.byPID && !Resets(cfg, s, p)
    ensures p in Apply(cfg, t, s).byPID
    ensures var n, n' := t.byPID[p], Apply(cfg, t, s).byPID[p];
      && n'.pid == n.pid && n'.start == n.start
      && n'.comm == (if s.Enrich? && s.pid == p && s.m.comm.Some? then s.m.comm.value else n.comm)
      && n'.ppid == (if s.Enrich? && s.pid == p then s.m.ppid else n.ppid)
      && n'.binaryPath == (if s.Enrich? && s.pid == p then s.m.binaryPath else n.binaryPath)
      && n'.enriched == (n.enriched || s == Mark(p))
  {
    hide ConnectKey, RecordOpen, RecordConnect, EnrichEffect;
    if s.Handle? { RecordsKeep(cfg, t, s, p); }
    if s.EnrichConn? && s.d.Some? { LookupKeeps(t.byPID[p], s.key, s.d.value); }
  }

  lemma LookupKeeps(n: Node, key: string, d: Endpoint)
    ensures SameFields(n, EnrichEffect(n, key, d))
  {
    hide EndpointKey;
  }

  lemma ResetStep(cfg: Config, t: Frozen, s: Step, p: Pid)
    requires Resets(cfg, s, p)
    ensures p in Apply(cfg, t, s).byPID <==> s.e.Exec?
  {
  }

  // ---------------------------------------------------------------- whole runs

  ghost predicate Told(cfg: Config, steps: seq<Step>, p: Pid) {
    p in Run(cfg, steps).byPID ==>
      exists b: nat :: StartedAt(cfg, steps, p, b) && AsTold(steps, p, b, Run(cfg, steps).byPID[p])
  }

  lemma ToldAnew(cfg: Config, steps: seq<Step>, p: Pid)
    requires steps != [] && p in Run(cfg, steps).byPID
    requires Starts(cfg, Run(cfg, steps[..|steps| - 1]), steps[|steps| - 1], p)
    ensures Told(cfg, steps, p)
  {
    hide Apply, Run, Starts;
    var b := |steps| - 1;
    RunUnfold(cfg, steps);
    StartStep(cfg, Run(cfg, steps[..b]), steps[b], p);
    assert steps[b + 1..] == [];
    assert StartedAt(cfg, steps, p, b) && AsTold(steps, p, b, Run(cfg, steps).byPID[p]);
  }

  lemma ToldOn(cfg: Config, steps: seq<Step>, p: Pid, b: nat)
    requires steps != [] && p in Run(cfg, steps[..|steps| - 1]).byPID && !Resets(cfg, steps[|steps| - 1], p)
    requires StartedAt(cfg, steps[..|steps| - 1], p, b)
    requires AsTold(steps[..|steps| - 1], p, b, Run(cfg, steps[..|steps| - 1]).byPID[p])
    ensures Told(cfg, steps, p)
  {
    hide Apply, Run, Starts;
    var last := |steps| - 1;
    RunUnfold(cfg, steps);
    LaterStep(cfg, Run(cfg, steps[..last]), steps[last], p);
    assert steps[..last][..b] == steps[..b] && steps[..last][b] == steps[b];
    assert steps[b + 1..] == steps[..last][b + 1..] + [steps[last]];
    assert StartedAt(cfg, steps, p, b) && AsTold(steps, p, b, Run(cfg, steps).byPID[p]);
  }

  /** After any run, a live process is as its latest start and the metadata and marks since then say. */
  lemma {:induction false} FieldsExact(cfg: Config, steps: seq<Step>, p: Pid)
    requires p in Run(cfg, steps).byPID
    ensures exists b: nat :: StartedAt(cfg, steps, p, b) && AsTold(steps, p, b, Run(cfg, steps).byPID[p])
  {
    hide Apply, AsTold;
    if steps != [] {
      var last := |steps| - 1;
      var t := Run(cfg, steps[..last]);
      if Starts(cfg, t, steps[last], p) {
        ToldAnew(cfg, steps, p);
      } else {
        if Resets(cfg, steps[last], p) { ResetStep(cfg, t, steps[last], p); }
        FieldsExact(cfg, steps[..last], p);
        var b: nat :| StartedAt(cfg, steps[..last], p, b) && AsTold(steps[..last], p, b, t.byPID[p]);
        ToldOn(cfg, steps, p, b);
      }
    }
  }

  // ---------------------------------------------------------------- endpoints

  /** The answers of lookups of one effect, one after the other. */
  function EnrichAll(n: Node, key: string, answers: seq<Endpoint>): Node {
    if answers == [] then n
    else EnrichEffect(EnrichAll(n, key, answers[..|answers| - 1]), key, answers[|answers| - 1])
  }

  function Sent(answers: seq<Endpoint>): nat {
    if answers == [] then 0 else Sent(answers[..|answers| - 1]) + answers[|answers| - 1].bytesSent
  }

  function Received(answers: seq<Endpoint>): nat {
    if answers == [] then 0 else Received(answers[..|answers| - 1]) + answers[|answers| - 1].bytesRecv
  }

  /** The effect under a key is e, but for the address, which is the last answer's, and counters raised by the sums. */
  ghost predicate AddedUp(e: Effect, answers: seq<Endpoint>, e': Effect)
    requires e.detail.ConnectDetail?
  {
    && e' == e.(detail := e'.detail) && e'.detail.ConnectDetail?
    && e'.detail.bytesSent == e.detail.bytesSent + Sent(answers)
    && e'.detail.bytesRecv == e.detail.bytesRecv + Received(answers)
    && var d := if answers == [] then e.detail else Last(answers);
       e'.detail.ip == d.ip && e'.detail.port == d.port && e'.detail.domain == d.domain
  }

  /** Over lookups of one key that is not a fallback key, the counters are sums, and no other effect changes. */
  lemma {:induction false} LookupsAddUp(n: Node, key: string, answers: seq<Endpoint>)
    requires key in n.effects && n.effects[key].detail.ConnectDetail? && !(CONNECT_PREFIX <= key)
    ensures var n' := EnrichAll(n, key, answers);
      && n' == n.(effects := n'.effects) && n'.effects.Keys == n.effects.Keys && n'.effects - {key} == n.effects - {key}
      && AddedUp(n.effects[key], answers, n'.effects[key])
  {
    if answers != [] {
      LookupsAddUp(n, key, answers[..|answers| - 1]);
    }
  }

  /** An answer is about the live process if there is one, else about the exited one, and about one effect of it. */
  lemma LookupLands(t: Frozen, pid: Pid, key: string, d: Option<Endpoint>)
    ensures var u := EnrichConnection(t, pid, key, d);
      && u.byPID.Keys == t.byPID.Keys && u.ghosts.Keys == t.ghosts.Keys
      && u.byPID - {pid} == t.byPID - {pid} && u.ghosts - {pid} == t.ghosts - {pid}
      && (pid in t.byPID ==> u.ghosts == t.ghosts && Answered(t.byPID[pid], key, d, u.byPID[pid]))
      && (pid !in t.byPID && pid in t.ghosts ==> Answered(t.ghosts[pid], key, d, u.ghosts[pid]))
  {
    hide EndpointKey, Decimal;
    if d.Some? { assert [d.value][..0] == [] && Sent([d.value]) == d.value.bytesSent; }
    if d.Some? { assert Received([d.value]) == d.value.bytesRecv; }
  }

  ghost predicate Answered(n: Node, key: string, d: Option<Endpoint>, n': Node) {
    && n' == n.(effects := n'.effects) && (d.None? || key !in n.effects ==> n' == n)
    && (d.Some? && key in n.effects && n.effects[key].detail.ConnectDetail? && !(CONNECT_PREFIX <= key) ==>
         n'.effects.Keys == n.effects.Keys && n'.effects - {key} == n.effects - {key} &&
         AddedUp(n.effects[key], [d.value], n'.effects[key]))
  }

  /** The first answer for a fallback key moves the effect to the endpoint's name, with its counters added. */
  lemma FallbackMoves(n: Node, key: string, d: Endpoint)
    requires key in n.effects && n.effects[key].detail.ConnectDetail? && CONNECT_PREFIX <= key && d.ip != ""
    ensures var address := d.ip + ":" + Decimal(d.port);
      var name := if d.domain == "" then address else address + " (" + d.domain + ")";
      var n' := EnrichEffect(n, key, d);
      && n' == n.(effects := n'.effects) && name in n'.effects
      && n'.effects - {name} == n.effects - {key, name}
      && n'.effects[name].target == name
      && AddedUp(n.effects[key], [d], n'.effects[name].(target := n.effects[key].target))
  {
    hide Decimal;
    assert [d][..0] == [] && Sent([]) == 0 == Received([]);
    assert Sent([d]) == d.bytesSent && Received([d]) == d.bytesRecv;
    var name, n' := EndpointKey(d), EnrichEffect(n, key, d);
    assert n'.effects - {name} == n.effects - {key, name};
  }
}
