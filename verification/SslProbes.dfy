/**
 * The TLS read probes. A read call's buffer is filled only by the time the call returns, so the entry probe
 * stashes the buffer pointer under the thread id in a bounded map shared by all threads and libraries, and
 * the return probe takes it out again. The OpenSSL, NSS and Go probes have the same two bodies.
 */
module SslProbes {
  import opened Basics

  type Tid = nat
  type Ptr = nat

  const MAX_ENTRIES := 8192
  const MAX_DATA := 4096

  /** A captured read: where the bytes are taken from, and how many. */
  datatype ReadEvent = ReadEvent(pid: nat, tid: Tid, buf: Ptr, len: nat)

  datatype Kernel = Kernel(bufPtrs: map<Tid, Ptr>, events: seq<ReadEvent>)

  /** The return register cut to 32 bits and read as a signed number. */
  function ToS32(rc: nat): (r: int)
    ensures -0x8000_0000 <= r < 0x8000_0000 && (r - rc) % 0x1_0000_0000 == 0
  {
    var low := rc % 0x1_0000_0000;
    if low < 0x8000_0000 then low else low - 0x1_0000_0000
  }

  function Min(a: nat, b: nat): (m: nat)
    ensures m <= a && m <= b && (m == a || m == b)
  {
    if a < b then a else b
  }

  /** A full map takes a new value for a key it has, but no new key. */
  predicate Accepts(k: Kernel, tid: Tid) {
    tid in k.bufPtrs || |k.bufPtrs| < MAX_ENTRIES
  }

  /** What a read returns that got nothing: 0, or a negative number of 32 bits, extended to 64. */
  predicate IsFailure(rc: nat) {
    rc == 0 || 0x1_0000_0000_0000_0000 - 0x8000_0000 <= rc < 0x1_0000_0000_0000_0000
  }

  function OnEntry(k: Kernel, tid: Tid, p: Ptr): Kernel {
    if Accepts(k, tid) then k.(bufPtrs := k.bufPtrs[tid := p]) else k
  }

  function OnReturn(k: Kernel, pid: nat, tid: Tid, rc: nat, reserved: bool): Kernel {
    var ret := ToS32(rc);
    var taken := k.(bufPtrs := k.bufPtrs - {tid});
    if ret > 0 && tid in k.bufPtrs && reserved
    then taken.(events := k.events + [ReadEvent(pid, tid, k.bufPtrs[tid], Min(ret, MAX_DATA))])
    else taken
  }

  class Probes {
    var bufPtrs: map<Tid, Ptr>
    var events: seq<ReadEvent>

    ghost function State(): Kernel
      reads this
    {
      Kernel(bufPtrs, events)
    }

    constructor ()
      ensures State() == Kernel(map[], [])
    {
      bufPtrs, events := map[], [];
    }

    method ReadEntry(tid: Tid, p: Ptr)
      modifies this
      ensures State() == OnEntry(old(State()), tid, p)
    {
      if tid in bufPtrs || |bufPtrs| < MAX_ENTRIES {
        bufPtrs := bufPtrs[tid := p];
      }
    }

    /** The ring buffer may have no room, in which case the event is lost. */
    method Emit(pid: nat, tid: Tid, buf: Ptr, len: nat, reserved: bool)
      modifies this`events
      ensures events == if reserved then old(events) + [ReadEvent(pid, tid, buf, Min(len, MAX_DATA))] else old(events)
    {
      if !reserved { return; }
      var cap := if len < MAX_DATA then len else MAX_DATA;
      events := events + [ReadEvent(pid, tid, buf, cap)];
    }

    method ReadReturn(pid: nat, tid: Tid, rc: nat, reserved: bool)
      modifies this
      ensures State() == OnReturn(old(State()), pid, tid, rc, reserved)
      ensures bufPtrs == old(bufPtrs) - {tid}
      ensures IsFailure(rc) || tid !in old(bufPtrs) || !reserved ==> events == old(events)
      ensures 0 < rc < 0x8000_0000 && tid in old(bufPtrs) && reserved ==>
        events == old(events) + [ReadEvent(pid, tid, old(bufPtrs)[tid], if rc < 4096 then rc else 4096)]
    {
      var ret := ToS32(rc);
      if ret <= 0 {
        bufPtrs := bufPtrs - {tid};
        return;
      }
      if tid !in bufPtrs {
        assert bufPtrs - {tid} == bufPtrs;
        return;
      }
      Emit(pid, tid, bufPtrs[tid], ret, reserved);
      bufPtrs := bufPtrs - {tid};
    }
  }

  // ---------------------------------------------------------------- threads

  datatype Lib = OpenSSL | NSS | GoTLS

  /**
   * An open read call. Whether the map took its pointer, and whether another read was opened inside it,
   * is remembered for the statement of the theorems only: the probes know nothing of it.
   */
  datatype Call = Call(id: nat, lib: Lib, buf: Ptr, accepted: bool, nested: bool)

  datatype Return = Return(call: Call, pid: nat, tid: Tid, rc: nat, reserved: bool)

  /** The kernel state, each thread's open read calls with the innermost last, and the returns so far. */
  datatype World = World(kernel: Kernel, stacks: map<Tid, seq<Call>>, returned: seq<Return>, nextId: nat)

  datatype Step =
    | Enter(tid: Tid, lib: Lib, buf: Ptr)
    | Leave(pid: nat, tid: Tid, rc: nat, reserved: bool)
    | Die(tid: Tid)  // the thread ends inside its calls; its id may be used again

  function Stack(w: World, tid: Tid): seq<Call> {
    if tid in w.stacks then w.stacks[tid] else []
  }

  /** Opening a call inside another marks the outer one. */
  function MarkTop(s: seq<Call>): seq<Call> {
    if s == [] then [] else s[..|s| - 1] + [s[|s| - 1].(nested := true)]
  }

  /** A return probe fires only for a call that is open. */
  function Next(w: World, s: Step): World {
    match s
    case Enter(tid, lib, buf) =>
      var call := Call(w.nextId, lib, buf, Accepts(w.kernel, tid), false);
      World(OnEntry(w.kernel, tid, buf), w.stacks[tid := MarkTop(Stack(w, tid)) + [call]], w.returned, w.nextId + 1)
    case Leave(pid, tid, rc, reserved) =>
      var stack := Stack(w, tid);
      if stack == [] then w else
      var call := stack[|stack| - 1];
      World(OnReturn(w.kernel, pid, tid, rc, reserved), w.stacks[tid := stack[..|stack| - 1]],
            w.returned + [Return(call, pid, tid, rc, reserved)], w.nextId)
    case Die(tid) => w.(stacks := w.stacks - {tid})
  }

  const START := World(Kernel(map[], []), map[], [], 0)

  function Run(steps: seq<Step>): World {
    if steps == [] then START else Next(Run(steps[..|steps| - 1]), steps[|steps| - 1])
  }

  // ---------------------------------------------------------------- what every interleaving keeps

  /** The stashed pointer is there exactly if the innermost call's was taken and nothing was opened inside it. */
  ghost predicate TopStashed(w: World, tid: Tid)
    requires Stack(w, tid) != []
  {
    var top := Stack(w, tid)[|Stack(w, tid)| - 1];
    && (tid in w.kernel.bufPtrs <==> top.accepted && !top.nested)
    && (tid in w.kernel.bufPtrs ==> w.kernel.bufPtrs[tid] == top.buf)
  }

  ghost predicate OuterNested(s: seq<Call>) {
    forall i :: 0 <= i < |s| - 1 ==> s[i].nested
  }

  /** A result that is positive as a signed number of 32 bits. */
  predicate IsPositive(rc: nat) {
    0 < rc % 0x1_0000_0000 < 0x8000_0000
  }

  predicate Emits(r: Return) {
    IsPositive(r.rc) && r.call.accepted && !r.call.nested && r.reserved
  }

  /** The event a return should give: its own call's buffer, and as many bytes as it returned, up to the cap. */
  function EventOf(r: Return): ReadEvent {
    ReadEvent(r.pid, r.tid, r.call.buf, Min(r.rc % 0x1_0000_0000, MAX_DATA))
  }

  function EventsOf(returned: seq<Return>): seq<ReadEvent> {
    if returned == [] then [] else
      var r := returned[|returned| - 1];
      EventsOf(returned[..|returned| - 1]) + if Emits(r) then [EventOf(r)] else []
  }

  ghost predicate Inv(w: World) {
    && |w.kernel.bufPtrs| <= MAX_ENTRIES
    && (forall tid :: tid in w.stacks ==> OuterNested(w.stacks[tid]) && (w.stacks[tid] != [] ==> TopStashed(w, tid)))
    && w.kernel.events == EventsOf(w.returned)
  }

  lemma EnterInv(w: World, tid: Tid, lib: Lib, buf: Ptr)
    requires Inv(w)
    ensures Inv(Next(w, Enter(tid, lib, buf)))
  {
    var v := Next(w, Enter(tid, lib, buf));
    Grows(w.kernel.bufPtrs, tid, buf);
    forall t | t in v.stacks ensures OuterNested(v.stacks[t]) && (v.stacks[t] != [] ==> TopStashed(v, t)) {
      if t != tid && v.stacks[t] != [] {
        assert TopStashed(w, t);
      }
    }
  }

  /** What a return adds to the events, and that only its thread's entry goes. */
  lemma Returns(k: Kernel, pid: nat, tid: Tid, rc: nat, reserved: bool)
    ensures var k' := OnReturn(k, pid, tid, rc, reserved);
      && k'.bufPtrs == k.bufPtrs - {tid}
      && k'.events == k.events + if IsPositive(rc) && tid in k.bufPtrs && reserved
        then [ReadEvent(pid, tid, k.bufPtrs[tid], Min(rc % 0x1_0000_0000, MAX_DATA))] else []
  {
  }

  lemma LeaveEvents(w: World, pid: nat, tid: Tid, rc: nat, reserved: bool)
    requires Stack(w, tid) != [] && TopStashed(w, tid) && w.kernel.events == EventsOf(w.returned)
    ensures var v := Next(w, Leave(pid, tid, rc, reserved));
            v.kernel.events == EventsOf(v.returned) && v.kernel.bufPtrs == w.kernel.bufPtrs - {tid}
  {
    hide OnReturn;
    Returns(w.kernel, pid, tid, rc, reserved);
    assert Next(w, Leave(pid, tid, rc, reserved)).returned[..|w.returned|] == w.returned;
  }

  lemma LeaveInv(w: World, pid: nat, tid: Tid, rc: nat, reserved: bool)
    requires Inv(w) && Stack(w, tid) != []
    ensures Inv(Next(w, Leave(pid, tid, rc, reserved)))
  {
    hide OnReturn, EventsOf;
    var v := Next(w, Leave(pid, tid, rc, reserved));
    Shrinks(w.kernel.bufPtrs, tid);
    assert TopStashed(w, tid);
    LeaveEvents(w, pid, tid, rc, reserved);
    forall t | t in v.stacks ensures OuterNested(v.stacks[t]) && (v.stacks[t] != [] ==> TopStashed(v, t)) {
      if t != tid && v.stacks[t] != [] {
        assert TopStashed(w, t);
      }
    }
  }

  lemma Grows(k: map<Tid, Ptr>, tid: Tid, p: Ptr)
    ensures |k[tid := p]| == if tid in k then |k| else |k| + 1
  {
    assert k[tid := p].Keys == k.Keys + {tid};
    assert tid in k ==> k.Keys + {tid} == k.Keys;
    assert |k[tid := p]| == |k[tid := p].Keys| && |k| == |k.Keys|;
  }

  lemma Shrinks(k: map<Tid, Ptr>, tid: Tid)
    ensures |k - {tid}| <= |k|
  {
    assert (k - {tid}).Keys == k.Keys - {tid};
    assert |k.Keys - {tid}| <= |k.Keys|;
    assert |k - {tid}| == |(k - {tid}).Keys| && |k| == |k.Keys|;
  }

  lemma NextInv(w: World, s: Step)
    requires Inv(w)
    ensures Inv(Next(w, s))
  {
    match s
    case Enter(tid, lib, buf) => EnterInv(w, tid, lib, buf);
    case Leave(pid, tid, rc, reserved) => if Stack(w, tid) != [] { LeaveInv(w, pid, tid, rc, reserved); }
    case Die(tid) =>
      forall t | t in Next(w, s).stacks && w.stacks[t] != [] ensures TopStashed(Next(w, s), t) {
        assert TopStashed(w, t);
      }
  }

  /** Whatever the interleaving, however calls nest and whatever inserts are refused. */
  lemma {:induction false} RunInv(steps: seq<Step>)
    ensures Inv(Run(steps))
  {
    if steps != [] {
      RunInv(steps[..|steps| - 1]);
      NextInv(Run(steps[..|steps| - 1]), steps[|steps| - 1]);
    }
  }

  /** The map holds, for a thread inside a read, nothing or the innermost call's buffer. */
  lemma StashIsInnermost(steps: seq<Step>, tid: Tid)
    requires Stack(Run(steps), tid) != []
    ensures var w := Run(steps);
      var top := Stack(w, tid)[|Stack(w, tid)| - 1];
      && (tid in w.kernel.bufPtrs ==> w.kernel.bufPtrs[tid] == top.buf)
      && (tid in w.kernel.bufPtrs <==> top.accepted && !top.nested)
  {
    RunInv(steps);
    assert TopStashed(Run(steps), tid);
  }

  /**
   * The captured reads are exactly those of the returns with a positive result whose pointer was taken, inside
   * which no read was opened, and for which the ring buffer had room; in order of return, with their own buffer.
   */
  lemma EventsExact(steps: seq<Step>)
    ensures Run(steps).kernel.events == EventsOf(Run(steps).returned)
    ensures |Run(steps).kernel.bufPtrs| <= MAX_ENTRIES
  {
    RunInv(steps);
  }

  // ---------------------------------------------------------------- when the map has room

  /** The threads that entered a read. */
  ghost function Threads(steps: seq<Step>): set<Tid> {
    if steps == [] then {} else
      var last := steps[|steps| - 1];
      Threads(steps[..|steps| - 1]) + if last.Enter? then {last.tid} else {}
  }

  ghost predicate AllAccepted(w: World) {
    && (forall t, i :: t in w.stacks && 0 <= i < |w.stacks[t]| ==> w.stacks[t][i].accepted)
    && (forall i :: 0 <= i < |w.returned| ==> w.returned[i].call.accepted)
  }

  /** As long as no more than 8192 thread ids have been seen, no read's pointer is refused. */
  lemma {:induction false} NoneRefused(steps: seq<Step>)
    requires |Threads(steps)| <= 8192
    ensures AllAccepted(Run(steps)) && Run(steps).kernel.bufPtrs.Keys <= Threads(steps)
  {
    if steps != [] {
      var init, last := steps[..|steps| - 1], steps[|steps| - 1];
      SubsetSize(Threads(init), Threads(steps));
      NoneRefused(init);
      NextAccepted(Run(init), last, Threads(init), Threads(steps));
    }
  }

  lemma NextAccepted(w: World, s: Step, before: set<Tid>, after: set<Tid>)
    requires AllAccepted(w) && w.kernel.bufPtrs.Keys <= before <= after && |after| <= 8192
    requires s.Enter? ==> s.tid in after
    ensures AllAccepted(Next(w, s)) && Next(w, s).kernel.bufPtrs.Keys <= after
  {
    hide OnReturn, OnEntry;
    if s.Enter? { EnterAccepted(w, s.tid, s.lib, s.buf, after); }
    if s.Leave? { Returns(w.kernel, s.pid, s.tid, s.rc, s.reserved); }
  }

  lemma EnterAccepted(w: World, tid: Tid, lib: Lib, buf: Ptr, threads: set<Tid>)
    requires AllAccepted(w) && w.kernel.bufPtrs.Keys <= threads && |threads| <= 8192 && tid in threads
    ensures AllAccepted(Next(w, Enter(tid, lib, buf)))
    ensures OnEntry(w.kernel, tid, buf).bufPtrs.Keys <= threads
  {
    var k, stack := w.kernel.bufPtrs, Stack(w, tid);
    if tid !in k {
      SubsetSize(k.Keys + {tid}, threads);
      assert |k.Keys + {tid}| == |k.Keys| + 1 && |k| == |k.Keys|;
    }
    assert forall i :: 0 <= i < |stack| ==> MarkTop(stack)[i].accepted == stack[i].accepted;
  }

  // ---------------------------------------------------------------- at most once per call

  ghost predicate Ids(w: World) {
    && (forall i, j :: 0 <= i < j < |w.returned| ==> w.returned[i].call.id != w.returned[j].call.id)
    && (forall i :: 0 <= i < |w.returned| ==> w.returned[i].call.id < w.nextId)
    && (forall t, i :: t in w.stacks && 0 <= i < |w.stacks[t]| ==> Open(w, w.stacks[t][i].id))
    && Apart(w.stacks)
  }

  /** No call is open twice. */
  ghost predicate Apart(stacks: map<Tid, seq<Call>>) {
    forall t, i, u, j :: t in stacks && u in stacks && 0 <= i < |stacks[t]| && 0 <= j < |stacks[u]| ==>
      (stacks[t][i].id == stacks[u][j].id ==> t == u && i == j)
  }

  ghost predicate Open(w: World, id: nat) {
    id < w.nextId && forall k :: 0 <= k < |w.returned| ==> w.returned[k].call.id != id
  }

  lemma EnterApart(stacks: map<Tid, seq<Call>>, tid: Tid, stack: seq<Call>, call: Call)
    requires Apart(stacks) && stack == if tid in stacks then stacks[tid] else []
    requires forall t, i :: t in stacks && 0 <= i < |stacks[t]| ==> stacks[t][i].id != call.id
    ensures Apart(stacks[tid := MarkTop(stack) + [call]])
  {
    assert forall i :: 0 <= i < |MarkTop(stack)| ==> MarkTop(stack)[i].id == stack[i].id;
  }

  lemma EnterIds(w: World, tid: Tid, lib: Lib, buf: Ptr)
    requires Ids(w)
    ensures Ids(Next(w, Enter(tid, lib, buf)))
  {
    hide Apart;
    var v := Next(w, Enter(tid, lib, buf));
    forall t, i | t in w.stacks && 0 <= i < |w.stacks[t]| ensures w.stacks[t][i].id != w.nextId {
      assert Open(w, w.stacks[t][i].id);
    }
    EnterApart(w.stacks, tid, Stack(w, tid), Call(w.nextId, lib, buf, Accepts(w.kernel, tid), false));
    forall t, i | t in v.stacks && 0 <= i < |v.stacks[t]| ensures Open(v, v.stacks[t][i].id) {
      if t != tid || i < |v.stacks[t]| - 1 {
        assert Open(w, w.stacks[t][i].id);
      }
    }
  }

  lemma LeaveIds(w: World, pid: nat, tid: Tid, rc: nat, reserved: bool)
    requires Ids(w) && Stack(w, tid) != []
    ensures Ids(Next(w, Leave(pid, tid, rc, reserved)))
  {
    var v := Next(w, Leave(pid, tid, rc, reserved));
    assert Open(w, w.stacks[tid][|w.stacks[tid]| - 1].id);
    forall t, i | t in v.stacks && 0 <= i < |v.stacks[t]| ensures Open(v, v.stacks[t][i].id) {
      assert Open(w, w.stacks[t][i].id);
      assert v.stacks[t][i] == w.stacks[t][i];
    }
  }

  /** Each call returns at most once, so by EventsExact each read call is captured at most once. */
  lemma {:induction false} ReturnsOnce(steps: seq<Step>)
    ensures Ids(Run(steps))
  {
    if steps != [] {
      var w := Run(steps[..|steps| - 1]);
      ReturnsOnce(steps[..|steps| - 1]);
      match steps[|steps| - 1]
      case Enter(tid, lib, buf) => EnterIds(w, tid, lib, buf);
      case Leave(pid, tid, rc, reserved) => if Stack(w, tid) != [] { LeaveIds(w, pid, tid, rc, reserved); }
      case Die(tid) => DieIds(w, tid);
    }
  }

  lemma DieIds(w: World, tid: Tid)
    requires Ids(w)
    ensures Ids(Next(w, Die(tid)))
  {
    forall t, i | t in Next(w, Die(tid)).stacks && 0 <= i < |w.stacks[t]| ensures Open(w, w.stacks[t][i].id) {}
  }
}
