/** The sliding-window limiter in front of the VirusTotal API, on a clock that only moves forward. */
module RateLimiter {
  import Basics
  import opened Sorting

  /** Wall-clock nanoseconds. Time passes by an unknown amount at every reading. */
  class Clock {
    var t: int

    constructor (start: int)
      ensures t == start
    {
      t := start;
    }

    method Now() returns (now: int)
      modifies this
      ensures old(t) <= t == now
    {
      var passed :| passed >= 0;
      t := t + passed;
      now := t;
    }

    method Sleep(d: int)
      modifies this
      ensures old(t) <= t && old(t) + d <= t
    {
      var late :| late >= 0;
      t := t + (if d > 0 then d else 0) + late;
    }
  }

  const MARGIN := 50_000_000

  /** Request times without those before the cutoff, up to the first that is not. */
  function Prune(times: seq<int>, cutoff: int): seq<int> {
    if times != [] && times[0] < cutoff then Prune(times[1..], cutoff) else times
  }

  /** How long a call asks to sleep, from the pruned times it saw. */
  function WaitFor(pruned: seq<int>, maxReqs: int, window: int, now: int): int {
    if pruned != [] && |pruned| >= maxReqs then window - (now - pruned[0]) + MARGIN else 0
  }

  /** Any maxReqs + 1 consecutive requests take longer than the window. */
  ghost predicate Spaced(all: seq<int>, maxReqs: int, window: int) {
    forall i, j :: 0 <= i < |all| && 0 <= j < |all| && j == i + maxReqs ==> all[j] - all[i] > window
  }

  /** How many requests were made at or after a time. */
  ghost function CountSince(all: seq<int>, from: int): nat {
    if all == [] then 0
    else CountSince(all[..|all| - 1], from) + if all[|all| - 1] >= from then 1 else 0
  }

  /** What the limiter remembers of all requests made up to now. */
  ghost predicate Remembers(all: seq<int>, last: seq<int>, maxReqs: int, window: int, now: int) {
    && maxReqs >= 1 && window >= 0
    && NonDescending(all) && (all != [] ==> all[|all| - 1] <= now)
    && |last| <= |all| && last == all[|all| - |last|..]
    && (forall i :: 0 <= i < |all| - |last| ==> all[i] < now - window)
    && |last| <= maxReqs + 1
    && (|last| == maxReqs + 1 ==> last[|last| - 1] - last[0] > window)
    && Spaced(all, maxReqs, window)
  }

  lemma RemembersLater(all: seq<int>, last: seq<int>, maxReqs: int, window: int, now: int, later: int)
    requires Remembers(all, last, maxReqs, window, now) && now <= later
    ensures Remembers(all, last, maxReqs, window, later)
  {
  }

  lemma {:induction false} PruneIsSuffix(times: seq<int>, cutoff: int)
    requires NonDescending(times)
    ensures var k := |times| - |Prune(times, cutoff)|;
      && 0 <= k && Prune(times, cutoff) == times[k..]
      && (forall i :: 0 <= i < k ==> times[i] < cutoff)
      && (forall i :: k <= i < |times| ==> times[i] >= cutoff)
  {
    if times != [] && times[0] < cutoff {
      PruneIsSuffix(times[1..], cutoff);
    }
  }

  /** At a later reading, the pruned list is what is left of all requests within the window, at most maxReqs. */
  lemma Pruned(all: seq<int>, last: seq<int>, maxReqs: int, window: int, before: int, now: int)
    requires Remembers(all, last, maxReqs, window, before) && before <= now
    ensures var p := Prune(last, now - window);
      && |p| <= maxReqs && |p| <= |all| && p == all[|all| - |p|..]
      && (forall i :: 0 <= i < |all| - |p| ==> all[i] < now - window)
      && (forall i :: |all| - |p| <= i < |all| ==> all[i] >= now - window)
  {
    PruneIsSuffix(last, now - window);
  }

  lemma {:induction false} CountSuffix(all: seq<int>, from: int, k: nat)
    requires k <= |all|
    requires forall i :: 0 <= i < k ==> all[i] < from
    requires forall i :: k <= i < |all| ==> all[i] >= from
    ensures CountSince(all, from) == |all| - k
  {
    if all != [] {
      var n := |all| - 1;
      CountSuffix(all[..n], from, if k <= n then k else n);
    }
  }

  lemma OldestRecent(all: seq<int>, last: seq<int>, maxReqs: int, window: int, before: int, now: int)
    requires Remembers(all, last, maxReqs, window, before) && before <= now
    ensures maxReqs >= 1 && window >= 0
    ensures var p := Prune(last, now - window); p != [] ==> now - window <= p[0] <= now
  {
    Pruned(all, last, maxReqs, window, before, now);
  }

  /** A request recorded after the wait keeps the spacing. */
  lemma Recorded(all: seq<int>, last: seq<int>, maxReqs: int, window: int, before: int, now: int, t: int)
    requires Remembers(all, last, maxReqs, window, before) && before <= now
    requires t >= now + WaitFor(Prune(last, now - window), maxReqs, window, now) && t >= now
    ensures Remembers(all + [t], Prune(last, now - window) + [t], maxReqs, window, t)
  {
    var p := Prune(last, now - window);
    Pruned(all, last, maxReqs, window, before, now);
    RecordedSpaced(all, p, maxReqs, window, now, t);
    assert p + [t] == (all + [t])[|all| - |p|..];
  }

  lemma RecordedSpaced(all: seq<int>, p: seq<int>, maxReqs: int, window: int, now: int, t: int)
    requires Spaced(all, maxReqs, window) && |p| <= maxReqs && |p| <= |all| && p == all[|all| - |p|..]
    requires forall i :: 0 <= i < |all| - |p| ==> all[i] < now - window
    requires maxReqs >= 1 && t >= now && t >= now + WaitFor(p, maxReqs, window, now)
    ensures Spaced(all + [t], maxReqs, window)
  {
    var more := all + [t];
    forall i, j | 0 <= i < |more| && 0 <= j < |more| && j == i + maxReqs ensures more[j] - more[i] > window {
      if j < |all| {
        assert all[j] - all[i] > window;
      } else if |p| == maxReqs {
        assert all[i] == p[0];
      }
    }
  }

  class Limiter {
    const maxReqs: int
    const window: int
    const clock: Clock
    var lastReqs: seq<int>
    ghost var all: seq<int>  // every request ever recorded

    ghost predicate Valid()
      reads this, clock
    {
      Remembers(all, lastReqs, maxReqs, window, clock.t)
    }

    constructor (maxReqs: int, window: int, clock: Clock)
      requires maxReqs >= 1 && window >= 0
      ensures Valid() && all == [] && this.maxReqs == maxReqs && this.window == window && this.clock == clock
    {
      this.maxReqs, this.window, this.clock := maxReqs, window, clock;
      lastReqs, all := [], [];
    }

    /**
     * Wait, called by one caller at a time. The request is recorded at the end; the call asks to sleep only
     * if maxReqs requests lie within the window at its start, and for no longer than the window and the margin.
     */
    method Wait() returns (asked: int, ghost start: int)
      requires Valid()
      modifies this, clock
      ensures Valid()
      ensures old(clock.t) <= start <= clock.t && all == old(all) + [clock.t]
      ensures 0 <= asked <= window + MARGIN && clock.t >= start + asked
      ensures asked > 0 <==> CountSince(old(all), start - window) >= maxReqs
    {
      hide Remembers;
      start, asked := Look();
      var wait := asked;
      if wait > 0 { clock.Sleep(wait); }
      LaterRecord(all, old(lastReqs), maxReqs, window, old(clock.t), start, clock.t);
      Record();
    }

    /** The first half, under the lock: forget what is too old, and see how long to sleep. */
    method Look() returns (now: int, asked: int)
      requires Valid()
      modifies this`lastReqs, clock
      ensures old(clock.t) <= now == clock.t && lastReqs == Prune(old(lastReqs), now - window)
      ensures asked == WaitFor(lastReqs, maxReqs, window, now) && 0 <= asked <= window + MARGIN
      ensures asked > 0 <==> CountSince(all, now - window) >= maxReqs
    {
      hide Remembers;
      now := clock.Now();
      Pruned(all, lastReqs, maxReqs, window, old(clock.t), now);
      OldestRecent(all, lastReqs, maxReqs, window, old(clock.t), now);
      DropExpired(now - window);
      CountSuffix(all, now - window, |all| - |lastReqs|);
      asked := 0;
      if |lastReqs| >= maxReqs {
        var wait := window - (now - lastReqs[0]) + MARGIN;
        if wait > 0 { asked := wait; }
      }
    }

    method DropExpired(cutoff: int)
      modifies this`lastReqs
      ensures lastReqs == Prune(old(lastReqs), cutoff)
    {
      var i := 0;
      while i < |lastReqs| && lastReqs[i] < cutoff
        invariant i <= |lastReqs| && Prune(lastReqs, cutoff) == Prune(lastReqs[i..], cutoff)
      {
        assert lastReqs[i..][1..] == lastReqs[i + 1..];
        i := i + 1;
      }
      lastReqs := lastReqs[i..];
    }

    /** The second half, under the lock again: record the request. */
    method Record()
      modifies this, clock
      ensures old(clock.t) <= clock.t && all == old(all) + [clock.t] && lastReqs == old(lastReqs) + [clock.t]
    {
      var t := clock.Now();
      lastReqs := lastReqs + [t];
      all := all + [t];
    }
  }

  /** It does not matter how much later than asked the request is recorded. */
  lemma LaterRecord(all: seq<int>, last: seq<int>, maxReqs: int, window: int, before: int, now: int, t: int)
    requires Remembers(all, last, maxReqs, window, before) && before <= now
    requires t >= now + WaitFor(Prune(last, now - window), maxReqs, window, now) && t >= now
    ensures forall u :: u >= t ==> Remembers(all + [u], Prune(last, now - window) + [u], maxReqs, window, u)
  {
    hide Remembers;
    forall u | u >= t ensures Remembers(all + [u], Prune(last, now - window) + [u], maxReqs, window, u) {
      Recorded(all, last, maxReqs, window, before, now, u);
    }
  }

  // ---------------------------------------------------------------- overlapping calls

  /**
   * The lock is given up during the sleep, so the halves of different calls can interleave: all requests recorded,
   * what is remembered of them, and when each sleeping caller will wake.
   */
  datatype State = State(all: seq<int>, last: seq<int>, sleeping: seq<int>, now: int)

  /** A caller looks, and if it need not sleep has recorded by done; or a sleeping caller wakes and records. */
  datatype Step = Look(at: int, done: int) | Wake(who: nat, at: int)

  function Next(maxReqs: int, window: int, s: State, step: Step): State {
    match step
    case Look(at, done) =>
      var p := Prune(s.last, at - window);
      var wait := WaitFor(p, maxReqs, window, at);
      if wait > 0 then State(s.all, p, s.sleeping + [at + wait], at)
      else State(s.all + [done], p + [done], s.sleeping, done)
    case Wake(who, at) =>
      var others := if who < |s.sleeping| then s.sleeping[..who] + s.sleeping[who + 1..] else s.sleeping;
      State(s.all + [at], s.last + [at], others, at)
  }

  predicate MayStep(s: State, step: Step) {
    step.at >= s.now &&
    match step
    case Look(at, done) => done >= at
    case Wake(who, at) => who < |s.sleeping| && at >= s.sleeping[who]
  }

  function Run(maxReqs: int, window: int, s: State, steps: seq<Step>): State
    decreases |steps|
  {
    if steps == [] then s else Run(maxReqs, window, Next(maxReqs, window, s, steps[0]), steps[1..])
  }

  predicate MayRun(maxReqs: int, window: int, s: State, steps: seq<Step>)
    decreases |steps|
  {
    steps == [] || (MayStep(s, steps[0]) && MayRun(maxReqs, window, Next(maxReqs, window, s, steps[0]), steps[1..]))
  }

  function Looks(times: seq<int>): seq<Step> {
    seq(|times|, i requires 0 <= i < |times| => Look(times[i], times[i]))
  }

  /** Callers that look before anyone records all see the same oldest request, so all are to wake at one time. */
  lemma {:induction false} AllSleep(maxReqs: int, window: int, s: State, times: seq<int>)
    requires maxReqs >= 1 && window >= 0 && |s.last| == maxReqs
    requires NonDescending([s.now] + times) && (times != [] ==> times[|times| - 1] <= s.last[0] + window)
    requires NonDescending(s.last)
    ensures MayRun(maxReqs, window, s, Looks(times))
    ensures var t := Run(maxReqs, window, s, Looks(times));
            t.all == s.all && t.last == s.last && t.now == (if times == [] then s.now else times[|times| - 1]) &&
            t.sleeping == s.sleeping + seq(|times|, i => s.last[0] + window + MARGIN)
    decreases |times|
  {
    if times == [] {
      assert Looks(times) == [];
    } else {
      var all := [s.now] + times;
      assert all[0] <= all[1] <= all[|times|];
      var u := Next(maxReqs, window, s, Look(times[0], times[0]));
      assert u == State(s.all, s.last, s.sleeping + [s.last[0] + window + MARGIN], times[0]);
      assert Looks(times)[1..] == Looks(times[1..]) && [u.now] + times[1..] == all[1..];
      AllSleep(maxReqs, window, u, times[1..]);
    }
  }

  function Wakes(times: seq<int>): seq<Step> {
    seq(|times|, i requires 0 <= i < |times| => Wake(0, times[i]))
  }

  /** When they all wake, their requests may come at any times from then on. */
  lemma {:induction false} AnyWake(maxReqs: int, window: int, s: State, wake: int, times: seq<int>)
    requires s.sleeping == seq(|times|, i => wake) && NonDescending(times)
    requires forall i :: 0 <= i < |times| ==> times[i] >= wake && times[i] >= s.now
    ensures MayRun(maxReqs, window, s, Wakes(times)) && Run(maxReqs, window, s, Wakes(times)).all == s.all + times
    decreases |times|
  {
    if times == [] {
      assert Wakes(times) == [];
    } else {
      var u := Next(maxReqs, window, s, Wake(0, times[0]));
      assert Wakes(times)[1..] == Wakes(times[1..]);
      assert u.sleeping == seq(|times[1..]|, i => wake);
      Basics.Assoc(s.all, [times[0]], times[1..]);
      assert [times[0]] + times[1..] == times;
      AnyWake(maxReqs, window, u, wake, times[1..]);
    }
  }

  /** The first k remembered requests are so close together that the margin covers them. */
  predicate Close(last: seq<int>, k: nat) {
    k <= |last| && (k > 0 ==> last[k - 1] - last[0] < MARGIN)
  }

  lemma {:induction false} RunConcat(maxReqs: int, window: int, s: State, a: seq<Step>, b: seq<Step>)
    ensures Run(maxReqs, window, s, a + b) == Run(maxReqs, window, Run(maxReqs, window, s, a), b)
    ensures MayRun(maxReqs, window, s, a + b) <==>
        MayRun(maxReqs, window, s, a) && MayRun(maxReqs, window, Run(maxReqs, window, s, a), b)
    decreases |a|
  {
    if a == [] {
      assert a + b == b;
    } else {
      assert (a + b)[1..] == a[1..] + b;
      RunConcat(maxReqs, window, Next(maxReqs, window, s, a[0]), a[1..], b);
    }
  }

  /** How many calls begin. */
  function LooksIn(steps: seq<Step>): nat {
    if steps == [] then 0 else (if steps[0].Look? then 1 else 0) + LooksIn(steps[1..])
  }

  lemma {:induction false} LooksConcat(a: seq<Step>, b: seq<Step>)
    ensures LooksIn(a + b) == LooksIn(a) + LooksIn(b)
  {
    if a == [] {
      assert a + b == b;
    } else {
      assert (a + b)[1..] == a[1..] + b;
      LooksConcat(a[1..], b);
    }
  }

  lemma {:induction false} LooksCount(times: seq<int>)
    ensures LooksIn(Looks(times)) == |times| && LooksIn(Wakes(times)) == 0
  {
    if times != [] {
      assert Looks(times)[1..] == Looks(times[1..]) && Wakes(times)[1..] == Wakes(times[1..]);
      LooksCount(times[1..]);
    }
  }

  /** Nobody sleeps. */
  ghost predicate Quiet(maxReqs: int, window: int, s: State) {
    Remembers(s.all, s.last, maxReqs, window, s.now) && s.sleeping == []
  }

  /** The requests that are still in the window. */
  function Recent(window: int, s: State): seq<int> {
    Prune(s.last, s.now - window)
  }

  /** However at most k calls interleave from here on, the spacing is kept. */
  ghost predicate KeepsSpacing(maxReqs: int, window: int, s: State, k: nat) {
    forall steps :: LooksIn(steps) <= k && MayRun(maxReqs, window, s, steps) ==>
      Spaced(Run(maxReqs, window, s, steps).all, maxReqs, window)
  }

  /**
   * Of k calls so many more fill the window up to the limit. Of the others there is at most one, or no more than
   * there are recent requests within the margin of the oldest.
   */
  predicate Harmless(maxReqs: int, recent: seq<int>, k: nat) {
    var n := k - (maxReqs - |recent|);
    n <= 1 || Close(recent, n)
  }

  /**
   * Overlapping calls keep the spacing exactly if they are harmless: for any number of calls, from any state in which
   * nobody sleeps, and whichever way their halves interleave. (A window shorter than the margin would have to be full.)
   */
  lemma OverlapSafeIff(maxReqs: int, window: int, s: State, k: nat)
    requires Quiet(maxReqs, window, s) && (window >= MARGIN || |Recent(window, s)| == maxReqs)
    ensures KeepsSpacing(maxReqs, window, s, k) <==> Harmless(maxReqs, Recent(window, s), k)
  {
    hide Run, MayRun, Spaced, Remembers;
    if Harmless(maxReqs, Recent(window, s), k) {
      HarmlessKeeps(maxReqs, window, s, k);
    } else {
      var steps := Attack(maxReqs, window, s, k);
    }
  }

  // ---------------------------------------------------------------- harmless calls

  /** Pruning at once changes nothing: the first to look would do it. */
  lemma PrunedSame(maxReqs: int, window: int, s: State, steps: seq<Step>)
    requires Quiet(maxReqs, window, s)
    ensures var t := s.(last := Recent(window, s));
            MayRun(maxReqs, window, s, steps) == MayRun(maxReqs, window, t, steps) &&
            (MayRun(maxReqs, window, s, steps) ==>
              Run(maxReqs, window, s, steps).all == Run(maxReqs, window, t, steps).all)
  {
    hide Prune, WaitFor, Remembers;
    if steps != [] && steps[0].Look? && steps[0].at >= s.now {
      var t := s.(last := Recent(window, s));
      PruneMore(s.last, s.now - window, steps[0].at - window);
      assert Next(maxReqs, window, s, steps[0]) == Next(maxReqs, window, t, steps[0]);
    }
  }

  lemma {:induction false} PruneMore(times: seq<int>, a: int, b: int)
    requires a <= b
    ensures Prune(Prune(times, a), b) == Prune(times, b)
  {
    if times != [] && times[0] < a { PruneMore(times[1..], a, b); }
  }

  /**
   * What holds after some steps: base are the requests recorded before, and q are the recent ones among them and those
   * recorded since. Everything forgotten is out of the window, whoever sleeps does so until the margin has passed
   * after the oldest of q has left it, and a request beyond the limit came then too, or well after its predecessor.
   */
  ghost predicate Overlapping(maxReqs: int, window: int, base: seq<int>, q: seq<int>, u: State) {
    && maxReqs >= 1 && window >= 0
    && u.all == base + q && NonDescending(q) && (q != [] ==> q[|q| - 1] <= u.now)
    && |u.last| <= |q| && u.last == q[|q| - |u.last|..]
    && (forall i :: 0 <= i < |q| - |u.last| ==> q[i] < u.now - window)
    && (forall x :: x in u.sleeping ==> q != [] && x >= q[0] + window + MARGIN)
  }

  ghost predicate LateEnough(maxReqs: int, window: int, q: seq<int>, i: nat)
    requires 1 <= maxReqs <= i < |q|
  {
    q[i] >= q[0] + window + MARGIN || q[i] > q[i - maxReqs] + window
  }

  /** So it is with all requests recorded since a time, those from an index on. */
  ghost predicate AllLate(maxReqs: int, window: int, q: seq<int>, from: nat, since: int)
    requires maxReqs >= 1
  {
    (forall i :: from <= i < |q| && i >= maxReqs ==> LateEnough(maxReqs, window, q, i)) &&
    forall i :: from <= i < |q| ==> q[i] >= since
  }

  lemma LateSnoc(maxReqs: int, window: int, q: seq<int>, t: int, from: nat, since: int)
    requires maxReqs >= 1 && AllLate(maxReqs, window, q, from, since) && t >= since
    requires |q| >= maxReqs ==> t >= q[0] + window + MARGIN || t > q[|q| - maxReqs] + window
    ensures AllLate(maxReqs, window, q + [t], from, since)
  {
    var r := q + [t];
    forall i | from <= i < |r| && i >= maxReqs ensures LateEnough(maxReqs, window, r, i) {
      if i < |q| { assert LateEnough(maxReqs, window, q, i); }
    }
  }

  /** One step keeps that, and records at most one request. */
  lemma OverlappingStep(maxReqs: int, window: int, base: seq<int>, q: seq<int>, u: State, step: Step, from: nat,
          since: int)
    returns (r: seq<int>)
    requires since <= u.now && Overlapping(maxReqs, window, base, q, u) && MayStep(u, step) &&
        AllLate(maxReqs, window, q, from, since)
    ensures Overlapping(maxReqs, window, base, r, Next(maxReqs, window, u, step)) && q <= r
    ensures since <= Next(maxReqs, window, u, step).now
    ensures AllLate(maxReqs, window, r, from, since)
    ensures |r| + |Next(maxReqs, window, u, step).sleeping| <= |q| + |u.sleeping| + if step.Look? then 1 else 0
  {
    match step
    case Look(at, done) => r := LookStep(maxReqs, window, base, q, u, at, done, from, since);
    case Wake(who, at) => r := WakeStep(maxReqs, window, base, q, u, who, at, from, since);
  }

  lemma LookStep(maxReqs: int, window: int, base: seq<int>, q: seq<int>, u: State, at: int, done: int, from: nat,
          since: int)
    returns (r: seq<int>)
    requires since <= u.now <= at <= done && Overlapping(maxReqs, window, base, q, u)
    requires AllLate(maxReqs, window, q, from, since)
    ensures var v := Next(maxReqs, window, u, Look(at, done));
            Overlapping(maxReqs, window, base, r, v) && q <= r && AllLate(maxReqs, window, r, from, since) &&
            since <= v.now && |r| + |v.sleeping| <= |q| + |u.sleeping| + 1
  {
    hide AllLate, Prune;
    var p := Prune(u.last, at - window);
    var v := Next(maxReqs, window, u, Look(at, done));
    StillRecent(q, |q| - |u.last|, at - window);
    if |p| >= maxReqs {
      r := q;
      assert p[0] == q[|q| - |p|] && q[0] <= p[0];
      assert WaitFor(p, maxReqs, window, at) == p[0] + window + MARGIN - at;
      assert v.sleeping == u.sleeping + [p[0] + window + MARGIN];
    } else {
      r := q + [done];
      LateSnoc(maxReqs, window, q, done, from, since);
      RecordOne(maxReqs, window, base, q, u, v, |q| - |p|, done);
    }
  }

  /** What is left of the end of a list after pruning is an end of it, and the rest is too old. */
  lemma {:induction false} StillRecent(q: seq<int>, k: nat, cutoff: int)
    requires NonDescending(q) && k <= |q| && forall i :: 0 <= i < k ==> q[i] < cutoff
    ensures var n := |q| - |Prune(q[k..], cutoff)|;
            0 <= n && Prune(q[k..], cutoff) == q[n..] && (forall i :: 0 <= i < n ==> q[i] < cutoff) &&
            forall i :: n <= i < |q| ==> q[i] >= cutoff
    decreases |q| - k
  {
    if k < |q| && q[k] < cutoff {
      assert q[k..][1..] == q[k + 1..];
      StillRecent(q, k + 1, cutoff);
    }
  }

  lemma WakeStep(maxReqs: int, window: int, base: seq<int>, q: seq<int>, u: State, who: nat, at: int, from: nat,
          since: int)
    returns (r: seq<int>)
    requires since <= u.now <= at && Overlapping(maxReqs, window, base, q, u)
    requires who < |u.sleeping| && at >= u.sleeping[who] && AllLate(maxReqs, window, q, from, since)
    ensures var v := Next(maxReqs, window, u, Wake(who, at));
            Overlapping(maxReqs, window, base, r, v) && q <= r && AllLate(maxReqs, window, r, from, since) &&
            since <= v.now && |r| + |v.sleeping| <= |q| + |u.sleeping|
  {
    hide AllLate, Prune, WaitFor;
    var v := Next(maxReqs, window, u, Wake(who, at));
    assert u.sleeping[who] in u.sleeping;
    assert forall x :: x in v.sleeping ==> x in u.sleeping;
    r := q + [at];
    LateSnoc(maxReqs, window, q, at, from, since);
    RecordOne(maxReqs, window, base, q, u, v, |q| - |u.last|, at);
  }

  /** A request recorded at the end of what is remembered, which is all but the first k. */
  lemma RecordOne(maxReqs: int, window: int, base: seq<int>, q: seq<int>, u: State, v: State, k: nat, t: int)
    requires Overlapping(maxReqs, window, base, q, u) && t >= u.now && v.all == u.all + [t] && v.now == t
    requires k <= |q| && v.last == q[k..] + [t] && forall i :: 0 <= i < k ==> q[i] < t - window
    requires forall x :: x in v.sleeping ==> x in u.sleeping
    ensures Overlapping(maxReqs, window, base, q + [t], v)
  {
    hide NonDescending;
    var r := q + [t];
    SuffixSnoc(q, k, t);
    SnocAscends(q, t);
    Basics.Assoc(base, q, [t]);
    assert |r| - |v.last| == k;
    assert forall i :: 0 <= i < k ==> r[i] == q[i];
    assert forall x :: x in v.sleeping ==> q != [] && r[0] == q[0];
  }

  lemma SuffixSnoc(q: seq<int>, k: nat, t: int)
    requires k <= |q|
    ensures (q + [t])[k..] == q[k..] + [t]
  {
  }

  lemma SnocAscends(q: seq<int>, t: int)
    requires NonDescending(q) && (q != [] ==> q[|q| - 1] <= t)
    ensures NonDescending(q + [t])
  {
  }

  lemma SuffixAscends(q: seq<int>, k: nat)
    requires NonDescending(q) && k <= |q|
    ensures NonDescending(q[k..])
  {
  }

  lemma {:induction false} OverlappingRun(maxReqs: int, window: int, base: seq<int>, q: seq<int>, u: State,
          steps: seq<Step>, from: nat, since: int)
    returns (r: seq<int>)
    requires since <= u.now && Overlapping(maxReqs, window, base, q, u) && MayRun(maxReqs, window, u, steps)
    requires AllLate(maxReqs, window, q, from, since)
    ensures Run(maxReqs, window, u, steps).all == base + r && q <= r && NonDescending(r)
    ensures AllLate(maxReqs, window, r, from, since) && |r| <= |q| + |u.sleeping| + LooksIn(steps)
    decreases |steps|
  {
    hide Overlapping, AllLate, Next;
    if steps == [] {
      OverlappingAll(maxReqs, window, base, q, u);
      r := q;
    } else {
      var q' := OverlappingStep(maxReqs, window, base, q, u, steps[0], from, since);
      r := OverlappingRun(maxReqs, window, base, q', Next(maxReqs, window, u, steps[0]), steps[1..], from, since);
    }
  }

  lemma OverlappingAll(maxReqs: int, window: int, base: seq<int>, q: seq<int>, u: State)
    requires Overlapping(maxReqs, window, base, q, u)
    ensures u.all == base + q && NonDescending(q)
  {
  }

  lemma HarmlessKeeps(maxReqs: int, window: int, s: State, k: nat)
    requires Quiet(maxReqs, window, s) && Harmless(maxReqs, Recent(window, s), k)
    ensures KeepsSpacing(maxReqs, window, s, k)
  {
    hide Run, MayRun, LooksIn, Spaced, Harmless, Remembers;
    forall steps | LooksIn(steps) <= k && MayRun(maxReqs, window, s, steps)
      ensures Spaced(Run(maxReqs, window, s, steps).all, maxReqs, window)
    {
      HarmlessRun(maxReqs, window, s, k, steps);
    }
  }

  lemma HarmlessRun(maxReqs: int, window: int, s: State, k: nat, steps: seq<Step>)
    requires Quiet(maxReqs, window, s) && Harmless(maxReqs, Recent(window, s), k)
    requires LooksIn(steps) <= k && MayRun(maxReqs, window, s, steps)
    ensures Spaced(Run(maxReqs, window, s, steps).all, maxReqs, window)
  {
    hide Run, MayRun, LooksIn, Spaced, Harmless, Remembers, AllLate, Overlapping, Recent, NonDescending;
    var recent := Recent(window, s);
    var base := Starts(maxReqs, window, s);
    PrunedSame(maxReqs, window, s, steps);
    var r := OverlappingRun(maxReqs, window, base, recent, s.(last := recent), steps, |recent|, s.now);
    HarmlessSpaced(maxReqs, window, s, k, base, r);
  }

  lemma Starts(maxReqs: int, window: int, s: State) returns (base: seq<int>)
    requires Quiet(maxReqs, window, s)
    ensures var recent := Recent(window, s);
            maxReqs >= 1 && s.all == base + recent && (forall i :: 0 <= i < |base| ==> base[i] < s.now - window) &&
            Overlapping(maxReqs, window, base, recent, s.(last := recent)) &&
            AllLate(maxReqs, window, recent, |recent|, s.now)
  {
    hide Remembers, Recent, NonDescending;
    RecentFacts(maxReqs, window, s);
    var recent := Recent(window, s);
    base := s.all[..|s.all| - |recent|];
    assert s.all == base + recent;
    assert recent == recent[|recent| - |recent|..];
  }

  lemma HarmlessSpaced(maxReqs: int, window: int, s: State, k: nat, base: seq<int>, r: seq<int>)
    requires Quiet(maxReqs, window, s) && Harmless(maxReqs, Recent(window, s), k)
    requires s.all == base + Recent(window, s) && Recent(window, s) <= r && NonDescending(r)
    requires AllLate(maxReqs, window, r, |Recent(window, s)|, s.now) && |r| <= |Recent(window, s)| + k
    requires forall i :: 0 <= i < |base| ==> base[i] < s.now - window
    ensures Spaced(base + r, maxReqs, window)
  {
    var more, n, j := base + r, |base|, |Recent(window, s)|;
    forall a, b | 0 <= a < |more| && 0 <= b < |more| && b == a + maxReqs ensures more[b] - more[a] > window {
      if b < |s.all| {
        assert more[a] == s.all[a] && more[b] == s.all[b];
      } else if a >= n {
        assert LateEnough(maxReqs, window, r, b - n);
        assert more[a] == r[a - n] && more[b] == r[b - n];
        assert r[0] <= r[a - n];
      }
    }
  }

  // ---------------------------------------------------------------- an attack

  /** Calls that look while there is room go at once. */
  lemma {:induction false} AllGo(maxReqs: int, window: int, s: State, at: int, f: nat)
    requires window >= 0 && s.sleeping == [] && s.now <= at && |s.last| + f <= maxReqs
    requires s.last != [] && at <= s.last[0] + window
    ensures var times := seq(f, i => at);
            MayRun(maxReqs, window, s, Looks(times)) &&
            Run(maxReqs, window, s, Looks(times)) ==
              State(s.all + times, s.last + times, [], if f == 0 then s.now else at)
    decreases f
  {
    var times := seq(f, i => at);
    if f == 0 {
      assert Looks(times) == [] && s.all + times == s.all && s.last + times == s.last;
    } else {
      var rest := seq(f - 1, i => at);
      var u := Next(maxReqs, window, s, Look(at, at));
      assert u == State(s.all + [at], s.last + [at], [], at);
      assert Looks(times)[1..] == Looks(rest) && [at] + rest == times;
      Basics.Assoc(s.all, [at], rest);
      Basics.Assoc(s.last, [at], rest);
      AllGo(maxReqs, window, u, at, f - 1);
    }
  }

  /** With the limit reached, c calls that look together and wake together. */
  lemma Crowd(maxReqs: int, window: int, s: State, at: int, c: nat) returns (steps: seq<Step>)
    requires maxReqs >= 1 && window >= 0 && s.sleeping == [] && NonDescending(s.last) && |s.last| == maxReqs
    requires s.now <= at <= s.last[0] + window
    ensures MayRun(maxReqs, window, s, steps) && LooksIn(steps) == c
    ensures Run(maxReqs, window, s, steps).all == s.all + seq(c, i => s.last[0] + window + MARGIN)
  {
    hide Run, MayRun, LooksIn, Looks, Wakes;
    var wake := s.last[0] + window + MARGIN;
    var sleeping, waking := seq(c, i => at), seq(c, i => wake);
    AllSleep(maxReqs, window, s, sleeping);
    var u := Run(maxReqs, window, s, Looks(sleeping));
    assert u.sleeping == seq(|waking|, i => wake);
    AnyWake(maxReqs, window, u, wake, waking);
    RunConcat(maxReqs, window, s, Looks(sleeping), Wakes(waking));
    LooksConcat(Looks(sleeping), Wakes(waking));
    LooksCount(sleeping);
    LooksCount(waking);
    steps := Looks(sleeping) + Wakes(waking);
  }

  /** Filling the window, then such a crowd. */
  lemma Assault(maxReqs: int, window: int, s: State, at: int, c: nat) returns (steps: seq<Step>)
    requires maxReqs >= 1 && window >= 0 && s.sleeping == [] && NonDescending(s.last) && 0 < |s.last| <= maxReqs
    requires s.last[|s.last| - 1] <= s.now <= at <= s.last[0] + window
    ensures MayRun(maxReqs, window, s, steps) && LooksIn(steps) == maxReqs - |s.last| + c
    ensures Run(maxReqs, window, s, steps).all ==
      s.all + (seq(maxReqs - |s.last|, i => at) + seq(c, i => s.last[0] + window + MARGIN))
  {
    hide Run, MayRun, LooksIn, Looks;
    var f := maxReqs - |s.last|;
    var going := seq(f, i => at);
    AllGo(maxReqs, window, s, at, f);
    var t := Run(maxReqs, window, s, Looks(going));
    assert t.last == s.last + going;
    var more := Crowd(maxReqs, window, t, at, c);
    RunConcat(maxReqs, window, s, Looks(going), more);
    LooksConcat(Looks(going), more);
    LooksCount(going);
    Basics.Assoc(s.all, going, seq(c, i => s.last[0] + window + MARGIN));
    steps := Looks(going) + more;
  }

  /** If calls are not harmless, there is a schedule for them that breaks the spacing. */
  lemma Attack(maxReqs: int, window: int, s: State, k: nat) returns (steps: seq<Step>)
    requires Quiet(maxReqs, window, s) && (window >= MARGIN || |Recent(window, s)| == maxReqs)
    requires !Harmless(maxReqs, Recent(window, s), k)
    ensures LooksIn(steps) <= k && MayRun(maxReqs, window, s, steps)
    ensures !Spaced(Run(maxReqs, window, s, steps).all, maxReqs, window)
  {
    hide Run, MayRun, LooksIn, Spaced, Remembers, Recent, NonDescending, Close;
    RecentFacts(maxReqs, window, s);
    var t := s.(last := Recent(window, s));
    if t.last == [] {
      steps := AttackEmpty(maxReqs, window, t, k);
    } else {
      steps := AttackRecent(maxReqs, window, t, k);
    }
    PrunedSame(maxReqs, window, s, steps);
  }

  lemma RecentFacts(maxReqs: int, window: int, s: State)
    requires Quiet(maxReqs, window, s)
    ensures var recent := Recent(window, s);
            maxReqs >= 1 && window >= 0 && |recent| <= maxReqs && NonDescending(recent) &&
            |recent| <= |s.all| && recent == s.all[|s.all| - |recent|..] &&
            (recent != [] ==> recent[|recent| - 1] <= s.now <= recent[0] + window) &&
            forall i :: 0 <= i < |s.all| - |recent| ==> s.all[i] < s.now - window
  {
    Pruned(s.all, s.last, maxReqs, window, s.now, s.now);
    SuffixAscends(s.all, |s.all| - |Recent(window, s)|);
  }

  /** With an empty window, one more call starts to fill it. */
  lemma AttackEmpty(maxReqs: int, window: int, s: State, k: nat) returns (steps: seq<Step>)
    requires maxReqs >= 1 && window >= MARGIN && s.sleeping == [] && s.last == [] && !Harmless(maxReqs, [], k)
    ensures LooksIn(steps) <= k && MayRun(maxReqs, window, s, steps)
    ensures !Spaced(Run(maxReqs, window, s, steps).all, maxReqs, window)
  {
    hide Run, MayRun, LooksIn, Spaced;
    var first := Look(s.now, s.now);
    var u := Next(maxReqs, window, s, first);
    assert u == State(s.all + [s.now], [s.now], [], s.now);
    var more := AttackRecent(maxReqs, window, u, k - 1);
    steps := [first] + more;
    StepBefore(maxReqs, window, s, first, more);
  }

  lemma StepBefore(maxReqs: int, window: int, s: State, first: Step, steps: seq<Step>)
    requires MayStep(s, first)
    ensures MayRun(maxReqs, window, s, [first] + steps) ==
        MayRun(maxReqs, window, Next(maxReqs, window, s, first), steps)
    ensures Run(maxReqs, window, s, [first] + steps) == Run(maxReqs, window, Next(maxReqs, window, s, first), steps)
    ensures LooksIn([first] + steps) == LooksIn(steps) + if first.Look? then 1 else 0
  {
    assert ([first] + steps)[1..] == steps;
  }

  lemma AttackRecent(maxReqs: int, window: int, s: State, k: nat) returns (steps: seq<Step>)
    requires maxReqs >= 1 && window >= 0 && s.sleeping == [] && NonDescending(s.last) && 0 < |s.last| <= maxReqs
    requires window >= MARGIN || |s.last| == maxReqs
    requires |s.last| <= |s.all| && s.last == s.all[|s.all| - |s.last|..]
    requires s.last[|s.last| - 1] <= s.now <= s.last[0] + window && !Harmless(maxReqs, s.last, k)
    ensures LooksIn(steps) <= k && MayRun(maxReqs, window, s, steps)
    ensures !Spaced(Run(maxReqs, window, s, steps).all, maxReqs, window)
  {
    hide Run, MayRun, LooksIn;
    var j := |s.last|;
    var n := k - (maxReqs - j);
    var oldest := s.last[0];
    var at := if n <= j || j == maxReqs || s.now >= oldest + MARGIN then s.now else oldest + MARGIN;
    var c := if n <= j then n else j + 1;
    steps := Assault(maxReqs, window, s, at, c);
    var tail := seq(maxReqs - j, i => at) + seq(c, i => oldest + window + MARGIN);
    var all := s.all + tail;
    var b := |all| - 1;
    assert all[b] == oldest + window + MARGIN;
    assert all[b - maxReqs] >= oldest + MARGIN by {
      assert b - maxReqs == |s.all| - j + c - 1;
      if c <= j { assert all[b - maxReqs] == s.last[c - 1]; }
    }
    assert all[b] - all[b - maxReqs] <= window;
  }

  const START := State([], [], [], 0)

  /** The limiter of the lookups, four requests a minute, from its start: five calls are harmless, six are not. */
  lemma OverlapBreaksSpacing()
    ensures KeepsSpacing(4, 60_000_000_000, START, 5) && !KeepsSpacing(4, 60_000_000_000, START, 6)
  {
    OverlapSafeIff(4, 60_000_000_000, START, 5);
    OverlapSafeIff(4, 60_000_000_000, START, 6);
  }
}
