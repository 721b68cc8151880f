/** Grouping processes by "app": the highest ancestor reached without passing a generic system daemon. */
module GroupKey {
  import opened Basics
  import opened Snapshot
  import opened Climb

  predicate Generic(comm: string) {
    comm == "systemd" || comm == "bash" || comm == "zsh" || comm == "sshd" || comm == "tmux: server"
  }

  /** The parent the walk moves to, if it moves. */
  function FollowOf(m: Index, p: Pid): Option<Pid> {
    if p !in m || m[p].ppid == 0 || m[p].ppid == 1 || m[p].ppid == 2 then None
    else if m[p].ppid !in m || Generic(m[m[p].ppid].comm) then None
    else Some(m[p].ppid)
  }

  function Follow(m: Index): Step {
    p => FollowOf(m, p)
  }

  function NameOf(n: Node): string {
    if |n.binaryPath| > 0 then n.binaryPath else n.comm
  }

  /** The walk from p ends. EndsWithinSize and LoopsIff say when. */
  predicate Ends(m: Index, p: Pid) {
    StopsWithin(Follow(m), p, |m|)
  }

  function KeyOf(m: Index, p: Pid): string
    requires p in m && Ends(m, p)
  {
    TopInside(Follow(m), m.Keys, p, |m|);
    NameOf(m[Top(Follow(m), p, |m|)])
  }

  /** groupKey and groupKeyFrozen: the same loop over a live or a frozen index. */
  method GroupKeyFrozen(m: Index, p: Pid) returns (name: string)
    requires p in m && Ends(m, p)
    ensures name == KeyOf(m, p)
  {
    var curr := p;
    ghost var up := Follow(m);
    while true
      invariant curr in m && Ends(m, curr) && KeyOf(m, curr) == KeyOf(m, p)
      decreases Height(up, curr, |m|)
    {
      var node := m[curr];
      if node.ppid == 0 || node.ppid == 1 || node.ppid == 2 { break; }
      if node.ppid !in m { break; }
      var parent := m[node.ppid];
      if Generic(parent.comm) { break; }
      FollowedStep(up, curr, |m|);
      curr := node.ppid;
    }
    name := if |m[curr].binaryPath| > 0 then m[curr].binaryPath else m[curr].comm;
  }

  /** If the loop ends for p after any number of steps, it ends within as many steps as there are processes ... */
  lemma EndsWithinSize(m: Index, p: Pid, k: nat)
    requires StopsWithin(Follow(m), p, k)
    ensures Ends(m, p)
  {
    StopsWithinSize(Follow(m), m.Keys, p, k);
  }

  /** ... and runs forever exactly when p leads into a set of processes that all follow their parents into it. */
  lemma LoopsIff(m: Index, p: Pid)
    ensures !Ends(m, p) <==> exists s :: p in s && Trap(Follow(m), s)
  {
    assert |m.Keys| == |m|;
    LoopsIffTrapped(Follow(m), m.Keys, p);
  }

  /** Two processes that name each other as parent are such a set: no number of steps is enough. */
  lemma MutualParentsLoop(m: Index, p: Pid, q: Pid, k: nat)
    requires p in m && q in m && m[p].ppid == q && m[q].ppid == p && p > 2 && q > 2
    requires !Generic(m[p].comm) && !Generic(m[q].comm)
    ensures !StopsWithin(Follow(m), p, k)
  {
    assert Trap(Follow(m), {p, q});
    TrappedNeverStops(Follow(m), {p, q}, p, k);
  }

  /** Nothing to move on to: no parent of its own, an unknown one, or a daemon of the system. */
  predicate StaysPut(m: Index, p: Pid)
    requires p in m
  {
    m[p].ppid in {0, 1, 2} || m[p].ppid !in m
    || m[m[p].ppid].comm in {"systemd", "bash", "zsh", "sshd", "tmux: server"}
  }

  /** Such a process is its own app, under its binary path if that is known and else under its name. */
  lemma OwnKey(m: Index, p: Pid)
    requires p in m && StaysPut(m, p)
    ensures Ends(m, p)
    ensures m[p].binaryPath != "" ==> KeyOf(m, p) == m[p].binaryPath
    ensures m[p].binaryPath == "" ==> KeyOf(m, p) == m[p].comm
  {
    assert FollowOf(m, p).None?;
  }

  /** Any other process, if the walk from it ends, has the key of its parent. */
  lemma ParentsKey(m: Index, p: Pid)
    requires p in m && !StaysPut(m, p) && Ends(m, p)
    ensures Ends(m, m[p].ppid) && KeyOf(m, p) == KeyOf(m, m[p].ppid)
  {
    SameKeyAsParent(m, p);
  }

  /** Child and followed parent have one key ... */
  lemma SameKeyAsParent(m: Index, p: Pid)
    requires p in m && Ends(m, p) && FollowOf(m, p).Some?
    ensures FollowOf(m, p).value in m && Ends(m, FollowOf(m, p).value)
    ensures KeyOf(m, p) == KeyOf(m, FollowOf(m, p).value)
  {
    FollowedStep(Follow(m), p, |m|);
  }

  /** ... so all processes below an app root down to the next generic daemon share the root's name. */
  lemma SameKeyAsAncestor(m: Index, p: Pid, q: Pid)
    requires p in m && Ends(m, p) && q in Above(Follow(m), p, |m|)
    ensures q in m && Ends(m, q) && KeyOf(m, p) == KeyOf(m, q)
    ensures FollowOf(m, q).None? ==> KeyOf(m, p) == NameOf(m[q])
  {
    AboveTrans(Follow(m), p, q, |m|);
    AboveInside(Follow(m), m.Keys, p, |m|);
  }
}
