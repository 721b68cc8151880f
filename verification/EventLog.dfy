/**
 * The live index as a digest of the event stream: what is kept of a process is a function of the events
 * captured for it since its last reset, however those are interleaved with other processes' events.
 */
module EventLog {
  import opened Basics
  import opened Snapshot
  import opened TreeModel

  /** A captured event: what it touched and when. */
  datatype Capture = Capture(kind: EffectKind, target: string, first: int, last: int)

  type Log = seq<Capture>

  /** What a step of the index adds to the log of p, or that it resets it: a non-ignored exec, or an exit. */
  function Logged(cfg: Config, log: Log, s: Step, p: Pid): Log {
    if !s.Handle? || s.e.pid != p then log else
      match s.e
      case Exec(_, comm, _) => if comm !in cfg.ignored then [] else log
      case Exit(_) => []
      case OpenFile(_, _, path) => if cfg.captureFileIO then log + [Capture(Open, path, s.k.t1, s.k.t2)] else log
      case Conn(_, _) =>
        if cfg.captureNetwork then log + [Capture(Connect, ConnectKey(p, s.k.t1), s.k.t2, s.k.t3)] else log
      case Unknown(_) => log
  }

  /** The events captured for p since its last reset. */
  function LogOf(cfg: Config, steps: seq<Step>, p: Pid): Log {
    if steps == [] then [] else Logged(cfg, LogOf(cfg, steps[..|steps| - 1], p), steps[|steps| - 1], p)
  }

  ghost function Targets(log: Log): set<string> {
    set i | 0 <= i < |log| :: log[i].target
  }

  /** The i-th capture is the first of its target. */
  ghost predicate FirstAt(log: Log, key: string, i: nat) {
    i < |log| && log[i].target == key && key !in Targets(log[..i])
  }

  /** The first capture of a target, and the time of its latest one. */
  ghost function FirstOf(log: Log, key: string): Capture
    requires key in Targets(log)
  {
    var n := |log| - 1;
    TargetsSplit(log);
    if key in Targets(log[..n]) then FirstOf(log[..n], key) else log[n]
  }

  /** A later open of a known target moves its last time to the handler's first clock reading. */
  ghost function LastTime(log: Log, key: string): int
    requires key in Targets(log)
  {
    var n := |log| - 1;
    TargetsSplit(log);
    if log[n].target != key then LastTime(log[..n], key)
    else if key in Targets(log[..n]) then log[n].first
    else log[n].last
  }

  lemma TargetsSplit(log: Log)
    requires log != []
    ensures Targets(log) == Targets(log[..|log| - 1]) + {log[|log| - 1].target}
  {
    var n := |log| - 1;
    assert log == log[..n] + [log[n]];
    TargetsSnoc(log[..n], log[n]);
  }

  /** The target is among the first cap distinct ones. */
  ghost predicate Kept(log: Log, cap: int, key: string) {
    exists i: nat :: FirstAt(log, key, i) && |Targets(log[..i])| < cap
  }

  function Occurrences(log: Log, key: string): nat {
    if log == [] then 0
    else Occurrences(log[..|log| - 1], key) + if log[|log| - 1].target == key then 1 else 0
  }

  /** No connect key is a target already kept: the clock moves on between two connects of a process. */
  ghost predicate FreshConnects(log: Log, cap: int) {
    forall i :: 0 <= i < |log| && log[i].kind.Connect? ==> !Kept(log[..i], cap, log[i].target)
  }

  /** The effects are exactly the kept targets, counted exactly. */
  ghost predicate Digest(effects: map<string, Effect>, log: Log, cap: int) {
    && (forall key :: key in effects <==> Kept(log, cap, key))
    && (forall key :: key in effects ==> Digested(effects[key], log, key))
  }

  /** One effect: its target, exact count, the kind and time of its first capture, the time of its last. */
  ghost predicate Digested(e: Effect, log: Log, key: string) {
    && e.target == key && e.count == Occurrences(log, key)
    && key in Targets(log) && e.kind == FirstOf(log, key).kind && e.first == FirstOf(log, key).first
    && e.last == LastTime(log, key)
  }

  /** With as many effects as there are distinct targets, up to the cap. */
  ghost predicate Full(effects: map<string, Effect>, log: Log, cap: int) {
    && effects.Keys <= Targets(log)
    && (|Targets(log)| <= cap ==> effects.Keys == Targets(log))
    && (|Targets(log)| > cap ==> |effects| >= cap)
  }

  lemma TargetsSnoc(log: Log, c: Capture)
    ensures Targets(log + [c]) == Targets(log) + {c.target}
  {
    var l := log + [c];
    forall x ensures x in Targets(l) <==> x in Targets(log) + {c.target} {
      if x in Targets(log) {
        var i :| 0 <= i < |log| && log[i].target == x;
        assert l[i].target == x;
      }
      if x == c.target { assert l[|log|].target == x; }
    }
  }

  /** A further capture leaves the earlier keeps as they are, and keeps its own target if there is room. */
  lemma KeptSnoc(log: Log, c: Capture, cap: int, key: string)
    ensures Kept(log + [c], cap, key) <==>
      Kept(log, cap, key) || (key == c.target && key !in Targets(log) && |Targets(log)| < cap)
  {
    var l := log + [c];
    if Kept(log, cap, key) {
      var i: nat :| FirstAt(log, key, i) && |Targets(log[..i])| < cap;
      assert l[..i] == log[..i];
      assert FirstAt(l, key, i);
    }
    if key == c.target && key !in Targets(log) && |Targets(log)| < cap {
      assert l[..|log|] == log;
      assert FirstAt(l, key, |log|);
    }
    if Kept(l, cap, key) {
      var i: nat :| FirstAt(l, key, i) && |Targets(l[..i])| < cap;
      assert l[..i] == log[..i];
      assert i < |log| ==> FirstAt(log, key, i);
    }
  }

  lemma KeptIsTarget(log: Log, cap: int, key: string)
    requires Kept(log, cap, key)
    ensures key in Targets(log)
  {
  }

  lemma OccurrencesSnoc(log: Log, c: Capture, key: string)
    ensures Occurrences(log + [c], key) == Occurrences(log, key) + if c.target == key then 1 else 0
  {
    assert (log + [c])[..|log|] == log;
  }

  lemma {:induction false} NoOccurrence(log: Log, key: string)
    requires key !in Targets(log)
    ensures Occurrences(log, key) == 0
  {
    if log != [] {
      var n := |log| - 1;
      assert log == log[..n] + [log[n]];
      TargetsSnoc(log[..n], log[n]);
      NoOccurrence(log[..n], key);
    }
  }

  // ---------------------------------------------------------------- one capture

  /** What recording a capture does to the effects, in the one form common to opens and fresh connects. */
  ghost predicate Recorded(effects: map<string, Effect>, c: Capture, cap: int, effects': map<string, Effect>) {
    if c.target in effects then
      var e := effects[c.target];
      effects' == effects[c.target := e.(count := e.count + 1, last := c.first)]
    else if |effects| >= cap then effects' == effects
    else exists e :: NewFor(e, c) && effects' == effects[c.target := e]
  }

  ghost predicate NewFor(e: Effect, c: Capture) {
    e.kind == c.kind && e.target == c.target && e.count == 1 && e.first == c.first && e.last == c.last
  }

  lemma RoomIff(effects: map<string, Effect>, log: Log, c: Capture, cap: int)
    requires Full(effects, log, cap)
    ensures |effects| < cap && c.target !in effects ==> c.target !in Targets(log) && |Targets(log)| < cap
    ensures |effects| >= cap ==> |Targets(log)| >= cap
  {
    assert |effects.Keys| == |effects|;
    SubsetSize(effects.Keys, Targets(log));
  }

  lemma RecordedFull(effects: map<string, Effect>, log: Log, c: Capture, cap: int, effects': map<string, Effect>)
    requires Full(effects, log, cap) && Recorded(effects, c, cap, effects')
    ensures Full(effects', log + [c], cap)
  {
    TargetsSnoc(log, c);
    RoomIff(effects, log, c, cap);
    assert |effects.Keys| == |effects| && |effects'.Keys| == |effects'|;
    if c.target in Targets(log) {
      assert Targets(log) + {c.target} == Targets(log);
    } else {
      assert |Targets(log) + {c.target}| == |Targets(log)| + 1;
      assert c.target !in effects;
    }
  }

  lemma RecordedDigest(effects: map<string, Effect>, log: Log, c: Capture, cap: int, effects': map<string, Effect>)
    requires Digest(effects, log, cap) && Full(effects, log, cap) && Recorded(effects, c, cap, effects')
    ensures Digest(effects', log + [c], cap)
  {
    RoomIff(effects, log, c, cap);
    forall key ensures key in effects' <==> Kept(log + [c], cap, key) {
      KeptSnoc(log, c, cap, key);
      if Kept(log, cap, key) { KeptIsTarget(log, cap, key); }
    }
    forall key | key in effects' ensures Digested(effects'[key], log + [c], key) {
      if key !in effects {
        DigestedFirst(effects'[key], log, c);
      } else {
        DigestedNext(effects[key], log, c, key, effects'[key]);
      }
    }
  }

  lemma DigestedFirst(e: Effect, log: Log, c: Capture)
    requires NewFor(e, c) && c.target !in Targets(log)
    ensures Digested(e, log + [c], c.target)
  {
    assert (log + [c])[..|log|] == log;
    TargetsSnoc(log, c);
    OccurrencesSnoc(log, c, c.target);
    NoOccurrence(log, c.target);
  }

  lemma DigestedNext(e: Effect, log: Log, c: Capture, key: string, e': Effect)
    requires Digested(e, log, key)
    requires e' == if key == c.target then e.(count := e.count + 1, last := c.first) else e
    ensures Digested(e', log + [c], key)
  {
    assert (log + [c])[..|log|] == log;
    TargetsSnoc(log, c);
    OccurrencesSnoc(log, c, key);
  }

  // ---------------------------------------------------------------- whole runs

  lemma EmptyDigest(cap: int)
    ensures Digest(map[], [], cap) && Full(map[], [], cap)
  {
  }

  lemma OpenIsRecorded(n: Node, path: string, cap: int, k: Ticks)
    ensures Recorded(n.effects, Capture(Open, path, k.t1, k.t2), cap, RecordOpen(n, path, cap, k).effects)
  {
    assert NewFor(NewEffect(Open, path, k.t1, k.t2), Capture(Open, path, k.t1, k.t2));
  }

  lemma ConnectIsRecorded(n: Node, key: string, cap: int, k: Ticks)
    requires key !in n.effects
    ensures Recorded(n.effects, Capture(Connect, key, k.t2, k.t3), cap, RecordConnect(n, key, cap, k).effects)
  {
    assert NewFor(NewEffect(Connect, key, k.t2, k.t3), Capture(Connect, key, k.t2, k.t3));
  }

  /** What is known of one process. */
  ghost predicate RefinesAt(cfg: Config, t: Frozen, log: Log, p: Pid) {
    if p in t.byPID then Digest(t.byPID[p].effects, log, cfg.maxEffects) &&
        Full(t.byPID[p].effects, log, cfg.maxEffects)
    else log == []
  }

  lemma CreatedRefines(cfg: Config, t: Frozen, log: Log, p: Pid, comm: string, now: int)
    requires RefinesAt(cfg, t, log, p)
    ensures Digest(GetOrCreate(t, p, comm, now).effects, log, cfg.maxEffects)
    ensures Full(GetOrCreate(t, p, comm, now).effects, log, cfg.maxEffects)
  {
    EmptyDigest(cfg.maxEffects);
  }

  lemma CaptureRefines(cfg: Config, t: Frozen, log: Log, p: Pid, effects: map<string, Effect>, c: Capture, n: Node)
    requires Digest(effects, log, cfg.maxEffects) && Full(effects, log, cfg.maxEffects)
    requires Recorded(effects, c, cfg.maxEffects, n.effects)
    ensures RefinesAt(cfg, Put(t, p, n), log + [c], p)
  {
    RecordedDigest(effects, log, c, cfg.maxEffects, n.effects);
    RecordedFull(effects, log, c, cfg.maxEffects, n.effects);
  }

  /** An event of another process changes nothing for p. */
  lemma OthersUntouched(cfg: Config, t: Frozen, e: Event, k: Ticks, p: Pid)
    requires e.pid != p
    ensures p in HandleEvent(cfg, t, e, k).byPID <==> p in t.byPID
    ensures p in t.byPID ==> HandleEvent(cfg, t, e, k).byPID[p] == t.byPID[p]
  {
  }

  /** Sweeps, discovery, metadata and marks leave the effects of a live process alone. */
  lemma OtherSteps(cfg: Config, t: Frozen, s: Step, log: Log, p: Pid)
    requires RefinesAt(cfg, t, log, p) && !s.Handle? && !s.EnrichConn?
    ensures RefinesAt(cfg, Apply(cfg, t, s), log, p)
  {
    hide Digest, Full;
    EmptyDigest(cfg.maxEffects);
    var u := Apply(cfg, t, s);
    assert p in t.byPID ==> p in u.byPID && u.byPID[p].effects == t.byPID[p].effects;
    assert p !in t.byPID && p in u.byPID ==> u.byPID[p].effects == map[];
  }

  /** One more step keeps the refinement, as long as its connect key, if any, is new to the process. */
  lemma NextRefines(cfg: Config, t: Frozen, s: Step, log: Log, p: Pid)
    requires RefinesAt(cfg, t, log, p) && !s.EnrichConn?
    requires FreshConnects(Logged(cfg, log, s, p), cfg.maxEffects)
    ensures RefinesAt(cfg, Apply(cfg, t, s), Logged(cfg, log, s, p), p)
  {
    if !s.Handle? {
      OtherSteps(cfg, t, s, log, p);
    } else if s.e.pid != p {
      OthersUntouched(cfg, t, s.e, s.k, p);
    } else {
      match s.e
      case Exec(_, comm, path) => EmptyDigest(cfg.maxEffects);
      case OpenFile(_, comm, path) =>
        if cfg.captureFileIO {
          OpenRefines(cfg, t, log, p, comm, path, s.k);
        }
      case Exit(_) =>
      case Conn(_, comm) =>
        if cfg.captureNetwork {
          var c := Capture(Connect, ConnectKey(p, s.k.t1), s.k.t2, s.k.t3);
          assert (log + [c])[|log|] == c && (log + [c])[..|log|] == log;
          ConnRefines(cfg, t, log, p, comm, s.k);
        }
      case Unknown(_) =>
    }
  }

  lemma OpenRefines(cfg: Config, t: Frozen, log: Log, p: Pid, comm: string, path: string, k: Ticks)
    requires cfg.captureFileIO && RefinesAt(cfg, t, log, p)
    ensures RefinesAt(cfg, HandleEvent(cfg, t, OpenFile(p, comm, path), k), log + [Capture(Open, path, k.t1, k.t2)], p)
  {
    hide Digest, Full, Recorded;
    var n := GetOrCreate(t, p, comm, k.t0);
    CreatedRefines(cfg, t, log, p, comm, k.t0);
    OpenIsRecorded(n, path, cfg.maxEffects, k);
    CaptureRefines(cfg, t, log, p, n.effects, Capture(Open, path, k.t1, k.t2), RecordOpen(n, path, cfg.maxEffects, k));
  }

  lemma ConnRefines(cfg: Config, t: Frozen, log: Log, p: Pid, comm: string, k: Ticks)
    requires cfg.captureNetwork && RefinesAt(cfg, t, log, p)
    requires !Kept(log, cfg.maxEffects, ConnectKey(p, k.t1))
    ensures var c := Capture(Connect, ConnectKey(p, k.t1), k.t2, k.t3);
            RefinesAt(cfg, HandleEvent(cfg, t, Conn(p, comm), k), log + [c], p)
  {
    var key := ConnectKey(p, k.t1);
    var n := GetOrCreate(t, p, comm, k.t0);
    CreatedRefines(cfg, t, log, p, comm, k.t0);
    assert key !in n.effects;
    hide Digest, Full, Recorded;
    ConnectIsRecorded(n, key, cfg.maxEffects, k);
    CaptureRefines(cfg, t, log, p, n.effects, Capture(Connect, key, k.t2, k.t3),
        RecordConnect(n, key, cfg.maxEffects, k));
  }

  /** The condition is exact: a connect whose key is already kept loses count, whether or not there is room. */
  lemma ConnectDigestIff(n: Node, log: Log, key: string, cap: int, k: Ticks)
    requires Digest(n.effects, log, cap) && Full(n.effects, log, cap)
    ensures Digest(RecordConnect(n, key, cap, k).effects, log + [Capture(Connect, key, k.t2, k.t3)], cap)
      <==> !Kept(log, cap, key)
  {
    var c := Capture(Connect, key, k.t2, k.t3);
    var after := RecordConnect(n, key, cap, k).effects;
    if Kept(log, cap, key) {
      OccurrencesSnoc(log, c, key);
      assert Digested(n.effects[key], log, key) && n.effects[key].count >= 1 by { OccursOnce(log, key); }
      assert after[key].count != Occurrences(log + [c], key);
    } else {
      ConnectIsRecorded(n, key, cap, k);
      RecordedDigest(n.effects, log, c, cap, after);
    }
  }

  /** Two connects of one process at one clock reading are such a run: the index counts one of them. */
  lemma ConnectsCollide(cfg: Config, p: Pid, comm: string, t: int)
    requires cfg.captureNetwork && cfg.maxEffects >= 1
    ensures var k := Ticks(t, t, t, t);
            var steps := [Handle(Conn(p, comm), k), Handle(Conn(p, comm), k)];
            var key := ConnectKey(p, t);
            RunOk(cfg, steps, [t, t, t]) && Occurrences(LogOf(cfg, steps, p), key) == 2 &&
            CountedOnce(Run(cfg, steps), p, key)
  {
    hide ConnectKey, Decimal, LogOf, Run, Apply, HandleEvent, Occurrences;
    var s := Handle(Conn(p, comm), Ticks(t, t, t, t));
    LogTwice(cfg, s, p);
    RunUnfold(cfg, [s]);
    RunUnfold(cfg, [s, s]);
    assert [s][..0] == [] && [s, s][..1] == [s];
    StartsEmpty(cfg);
    ConnectFirst(cfg, p, comm, t);
    ConnectAgain(cfg, Run(cfg, [s]), p, comm, t);
  }

  lemma StartsEmpty(cfg: Config)
    ensures Run(cfg, []) == EMPTY
  {
  }

  lemma LogTwice(cfg: Config, s: Step, p: Pid)
    requires ConnectsAt(s, p) && cfg.captureNetwork
    ensures Occurrences(LogOf(cfg, [s, s], p), ConnectKey(p, s.k.t1)) == 2
  {
    hide ConnectKey, Decimal;
    var c := Capture(Connect, ConnectKey(p, s.k.t1), s.k.t2, s.k.t3);
    assert [s, s][..1] == [s] && [s][..0] == [];
    assert LogOf(cfg, [s], p) == Logged(cfg, LogOf(cfg, [], p), s, p) == [] + [c];
    assert LogOf(cfg, [s, s], p) == Logged(cfg, LogOf(cfg, [s], p), s, p);
    OccurrencesSnoc([], c, c.target);
    OccurrencesSnoc([] + [c], c, c.target);
  }

  ghost predicate CountedOnce(t: Frozen, p: Pid, key: string) {
    p in t.byPID && key in t.byPID[p].effects && t.byPID[p].effects[key].count == 1
  }

  lemma ConnectFirst(cfg: Config, p: Pid, comm: string, t: int)
    requires cfg.captureNetwork && cfg.maxEffects >= 1
    ensures CountedOnce(Apply(cfg, EMPTY, Handle(Conn(p, comm), Ticks(t, t, t, t))), p, ConnectKey(p, t))
  {
    hide ConnectKey, Decimal;
    assert GetOrCreate(EMPTY, p, comm, t).effects == map[];
  }

  /** A connect under a key that is there leaves its count at one, whether there is room or not. */
  lemma ConnectAgain(cfg: Config, u: Frozen, p: Pid, comm: string, t: int)
    requires cfg.captureNetwork && CountedOnce(u, p, ConnectKey(p, t))
    ensures CountedOnce(Apply(cfg, u, Handle(Conn(p, comm), Ticks(t, t, t, t))), p, ConnectKey(p, t))
  {
    hide ConnectKey, Decimal;
  }

  lemma {:induction false} OccursOnce(log: Log, key: string)
    requires key in Targets(log)
    ensures Occurrences(log, key) >= 1
  {
    TargetsSplit(log);
    if log[|log| - 1].target != key {
      OccursOnce(log[..|log| - 1], key);
    }
  }

  /** Every step but the endpoint lookups, which re-key effects. */
  predicate NoLookups(steps: seq<Step>) {
    forall i :: 0 <= i < |steps| ==> !steps[i].EnrichConn?
  }

  /**
   * Refinement: after any run of events, sweeps, discovery, metadata and marks, a live process holds exactly the
   * first maxEffects distinct targets captured since its last reset, each with its exact number of occurrences.
   */
  lemma {:induction false} IndexRefinesLog(cfg: Config, steps: seq<Step>, p: Pid)
    requires NoLookups(steps)
    requires forall n :: 0 <= n <= |steps| ==> FreshConnects(LogOf(cfg, steps[..n], p), cfg.maxEffects)
    ensures RefinesAt(cfg, Run(cfg, steps), LogOf(cfg, steps, p), p)
  {
    if steps != [] {
      hide RefinesAt, Apply, FreshConnects, Logged;
      var n := |steps| - 1;
      forall i | 0 <= i <= n ensures FreshConnects(LogOf(cfg, steps[..n][..i], p), cfg.maxEffects) {
        assert steps[..n][..i] == steps[..i];
      }
      IndexRefinesLog(cfg, steps[..n], p);
      assert steps[..|steps|] == steps;
      NextRefines(cfg, Run(cfg, steps[..n]), steps[n], LogOf(cfg, steps[..n], p), p);
    }
  }

  // ---------------------------------------------------------------- when connect keys are fresh

  lemma {:induction false} DecimalInjective(a: nat, b: nat)
    requires Decimal(a) == Decimal(b)
    ensures a == b
  {
    DecimalDigits(a);
    DecimalDigits(b);
    if a >= 10 && b >= 10 {
      var x, y := Decimal(a / 10), Decimal(b / 10);
      assert Decimal(a) == x + ["0123456789"[a % 10]] && Decimal(b) == y + ["0123456789"[b % 10]];
      assert x == Decimal(a)[..|x|] && y == Decimal(b)[..|y|];
      DecimalInjective(a / 10, b / 10);
    }
  }

  /** A number of one digit has one character, a larger one more; none starts with a minus. */
  lemma {:induction false} DecimalDigits(n: nat)
    ensures |Decimal(n)| > 0 && (|Decimal(n)| == 1 <==> n < 10) && Decimal(n)[0] != '-'
  {
    if n >= 10 { DecimalDigits(n / 10); }
  }

  function Signed(nanos: int): string {
    if nanos < 0 then "-" + Decimal(-nanos) else Decimal(nanos)
  }

  /** The first character of a number says whether it is negative, and the others, or all of them, how large it is. */
  lemma SignedParts(a: int)
    ensures Signed(a) != [] && (Signed(a)[0] == '-' <==> a < 0)
    ensures a < 0 ==> Signed(a)[1..] == Decimal(-a)
  {
    hide Decimal;
    DecimalDigits(if a < 0 then -a else a);
  }

  lemma SignedInjective(a: int, b: int)
    requires Signed(a) == Signed(b)
    ensures a == b
  {
    hide Decimal;
    SignedParts(a);
    SignedParts(b);
    if a < 0 {
      DecimalInjective(-a, -b);
    } else {
      DecimalInjective(a, b);
    }
  }

  /** Two connects of a process at different times have different fallback keys. */
  lemma ConnectKeyInjective(p: Pid, a: int, b: int)
    requires ConnectKey(p, a) == ConnectKey(p, b)
    ensures a == b
  {
    hide Decimal;
    var stem := CONNECT_PREFIX + Decimal(p) + ":";
    assert ConnectKey(p, a) == stem + Signed(a) && ConnectKey(p, b) == stem + Signed(b);
    assert Signed(a) == ConnectKey(p, a)[|stem|..] && Signed(b) == ConnectKey(p, b)[|stem|..];
    SignedInjective(a, b);
  }

  predicate ConnectsAt(s: Step, p: Pid) {
    s.Handle? && s.e.Conn? && s.e.pid == p
  }

  /** The clock moves on between two connects of p, and p opens no file with the name of a fallback key. */
  ghost predicate ClockMoves(steps: seq<Step>, p: Pid) {
    (forall i, j :: 0 <= i < j < |steps| && ConnectsAt(steps[i], p) && ConnectsAt(steps[j], p) ==>
       steps[i].k.t1 < steps[j].k.t1) &&
    forall i :: 0 <= i < |steps| && steps[i].Handle? && steps[i].e.OpenFile? && steps[i].e.pid == p ==>
      !(CONNECT_PREFIX <= steps[i].e.path)
  }

  /** Where a target in the log comes from. */
  ghost predicate Origin(s: Step, p: Pid, x: string) {
    s.Handle? && s.e.pid == p &&
    ((s.e.OpenFile? && s.e.path == x) || (s.e.Conn? && ConnectKey(p, s.k.t1) == x))
  }

  lemma {:induction false} TargetOrigin(cfg: Config, steps: seq<Step>, p: Pid, x: string)
    requires x in Targets(LogOf(cfg, steps, p))
    ensures exists i :: 0 <= i < |steps| && Origin(steps[i], p, x)
  {
    hide ConnectKey, Decimal;
    var n := |steps| - 1;
    var log := LogOf(cfg, steps[..n], p);
    TargetsSplit(LogOf(cfg, steps, p));
    assert LogOf(cfg, steps, p) == Logged(cfg, log, steps[n], p);
    if !Origin(steps[n], p, x) {
      assert x in Targets(log) by { TargetBefore(cfg, log, steps[n], p, x); }
      TargetOrigin(cfg, steps[..n], p, x);
      var i :| 0 <= i < n && Origin(steps[..n][i], p, x);
      assert Origin(steps[i], p, x);
    }
  }

  lemma TargetBefore(cfg: Config, log: Log, s: Step, p: Pid, x: string)
    requires x in Targets(Logged(cfg, log, s, p)) && !Origin(s, p, x)
    ensures x in Targets(log)
  {
    hide ConnectKey, Decimal;
    if Logged(cfg, log, s, p) != log {
      assert Logged(cfg, log, s, p) != [];
      TargetsSplit(Logged(cfg, log, s, p));
      var l := Logged(cfg, log, s, p);
      assert l[..|l| - 1] == log;
    }
  }

  /** Then every connect key is fresh. */
  lemma {:induction false} ClockFresh(cfg: Config, steps: seq<Step>, p: Pid)
    requires ClockMoves(steps, p)
    ensures FreshConnects(LogOf(cfg, steps, p), cfg.maxEffects)
  {
    if steps != [] {
      hide ConnectKey, Decimal, Kept;
      var n := |steps| - 1;
      var log := LogOf(cfg, steps[..n], p);
      ClockFresh(cfg, steps[..n], p);
      if ConnectsAt(steps[n], p) && cfg.captureNetwork {
        var key := ConnectKey(p, steps[n].k.t1);
        KeyNotBefore(cfg, steps, p);
        if Kept(log, cfg.maxEffects, key) { KeptIsTarget(log, cfg.maxEffects, key); }
      }
      FreshSnoc(cfg, log, steps[n], p);
    }
  }

  lemma KeyNotBefore(cfg: Config, steps: seq<Step>, p: Pid)
    requires steps != [] && ClockMoves(steps, p) && ConnectsAt(steps[|steps| - 1], p)
    ensures ConnectKey(p, steps[|steps| - 1].k.t1) !in Targets(LogOf(cfg, steps[..|steps| - 1], p))
  {
    var n := |steps| - 1;
    var key := ConnectKey(p, steps[n].k.t1);
    if key in Targets(LogOf(cfg, steps[..n], p)) {
      TargetOrigin(cfg, steps[..n], p, key);
      var i :| 0 <= i < n && Origin(steps[..n][i], p, key);
      assert steps[..n][i] == steps[i];
      if steps[i].e.Conn? { ConnectKeyInjective(p, steps[i].k.t1, steps[n].k.t1); }
    }
  }

  lemma FreshSnoc(cfg: Config, log: Log, s: Step, p: Pid)
    requires FreshConnects(log, cfg.maxEffects)
    requires ConnectsAt(s, p) && cfg.captureNetwork ==> !Kept(log, cfg.maxEffects, ConnectKey(p, s.k.t1))
    ensures FreshConnects(Logged(cfg, log, s, p), cfg.maxEffects)
  {
    hide ConnectKey, Decimal, Kept;
    var l := Logged(cfg, log, s, p);
    forall i | 0 <= i < |l| && l[i].kind.Connect? ensures !Kept(l[..i], cfg.maxEffects, l[i].target) {
      assert l == log || (|l| == |log| + 1 && l[..|log|] == log);
      assert i < |log| ==> l[..i] == log[..i] && l[i] == log[i];
    }
  }

  /** So the refinement holds of every run in which the clock moves on between the connects of a process. */
  lemma ClockRefines(cfg: Config, steps: seq<Step>, p: Pid)
    requires NoLookups(steps) && ClockMoves(steps, p)
    ensures RefinesAt(cfg, Run(cfg, steps), LogOf(cfg, steps, p), p)
  {
    forall n | 0 <= n <= |steps| ensures FreshConnects(LogOf(cfg, steps[..n], p), cfg.maxEffects) {
      assert forall i :: 0 <= i < n ==> steps[..n][i] == steps[i];
      ClockFresh(cfg, steps[..n], p);
    }
    IndexRefinesLog(cfg, steps, p);
  }
}
