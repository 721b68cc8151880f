/** Upward walks: repeatedly following a partial "parent" step. Used for grouping by ancestor and for family views. */
module Climb {
  import opened Basics

  type Step = Pid -> Option<Pid>

  /** The walk from p leaves the step relation after at most k steps. */
  predicate StopsWithin(up: Step, p: Pid, k: nat)
    decreases k
  {
    up(p).None? || (k > 0 && StopsWithin(up, up(p).value, k - 1))
  }

  /** Every step lands in a known node. */
  ghost predicate LandsIn(up: Step, dom: set<Pid>) {
    forall p :: up(p).Some? ==> up(p).value in dom
  }

  /** The number of steps the walk makes. */
  function Height(up: Step, p: Pid, k: nat): (h: nat)
    requires StopsWithin(up, p, k)
    ensures h <= k
    decreases k
  {
    if up(p).None? then 0 else 1 + Height(up, up(p).value, k - 1)
  }

  /** The nodes strictly above p on the walk. */
  function Above(up: Step, p: Pid, k: nat): set<Pid>
    requires StopsWithin(up, p, k)
    decreases k
  {
    if up(p).None? then {} else {up(p).value} + Above(up, up(p).value, k - 1)
  }

  /** Where the walk ends. */
  function Top(up: Step, p: Pid, k: nat): (t: Pid)
    requires StopsWithin(up, p, k)
    ensures up(t).None?
    decreases k
  {
    if up(p).None? then p else Top(up, up(p).value, k - 1)
  }

  // None of the four notions depends on the bound.
  lemma {:induction false} BoundIrrelevant(up: Step, p: Pid, k: nat, n: nat)
    requires StopsWithin(up, p, k) && StopsWithin(up, p, n)
    ensures Height(up, p, k) == Height(up, p, n)
    ensures Above(up, p, k) == Above(up, p, n)
    ensures Top(up, p, k) == Top(up, p, n)
    decreases k
  {
    if up(p).Some? {
      BoundIrrelevant(up, up(p).value, k - 1, n - 1);
    }
  }

  lemma {:induction false} StopsAtHeight(up: Step, p: Pid, k: nat, n: nat)
    requires StopsWithin(up, p, k)
    requires Height(up, p, k) <= n
    ensures StopsWithin(up, p, n)
    decreases k
  {
    if up(p).Some? {
      StopsAtHeight(up, up(p).value, k - 1, n - 1);
    }
  }

  /** Walking up loses height at every step. */
  lemma {:induction false} AboveIsLower(up: Step, p: Pid, k: nat, q: Pid)
    requires StopsWithin(up, p, k) && q in Above(up, p, k)
    ensures StopsWithin(up, q, k) && Height(up, q, k) < Height(up, p, k)
    decreases k
  {
    var u := up(p).value;
    if q != u {
      AboveIsLower(up, u, k - 1, q);
    }
    StopsAtHeight(up, q, k - 1, k);
    BoundIrrelevant(up, q, k - 1, k);
  }

  /** So the walk meets exactly Height-many different nodes above p. */
  lemma {:induction false} AboveSize(up: Step, p: Pid, k: nat)
    requires StopsWithin(up, p, k)
    ensures |Above(up, p, k)| == Height(up, p, k)
    decreases k
  {
    if up(p).Some? {
      var u := up(p).value;
      AboveSize(up, u, k - 1);
      if u in Above(up, u, k - 1) {
        AboveIsLower(up, u, k - 1, u);
      }
    }
  }

  /** Pigeonhole: a walk over n known nodes that stops at all stops within n steps. */
  lemma StopsWithinSize(up: Step, dom: set<Pid>, p: Pid, k: nat)
    requires LandsIn(up, dom) && StopsWithin(up, p, k)
    ensures StopsWithin(up, p, |dom|)
  {
    AboveSize(up, p, k);
    AboveInside(up, dom, p, k);
    SubsetSize(Above(up, p, k), dom);
    StopsAtHeight(up, p, k, |dom|);
  }

  lemma {:induction false} AboveInside(up: Step, dom: set<Pid>, p: Pid, k: nat)
    requires LandsIn(up, dom) && StopsWithin(up, p, k)
    ensures Above(up, p, k) <= dom
    decreases k
  {
    if up(p).Some? {
      AboveInside(up, dom, up(p).value, k - 1);
    }
  }

  /** Once a step is followed, both ends share everything above. */
  lemma FollowedStep(up: Step, p: Pid, k: nat)
    requires StopsWithin(up, p, k) && up(p).Some?
    ensures StopsWithin(up, up(p).value, k)
    ensures Above(up, p, k) == {up(p).value} + Above(up, up(p).value, k)
    ensures Height(up, p, k) == 1 + Height(up, up(p).value, k)
    ensures Top(up, p, k) == Top(up, up(p).value, k)
  {
    StopsAtHeight(up, up(p).value, k - 1, k);
    BoundIrrelevant(up, up(p).value, k - 1, k);
  }

  lemma {:induction false} AboveTrans(up: Step, p: Pid, q: Pid, k: nat)
    requires StopsWithin(up, p, k) && q in Above(up, p, k)
    ensures StopsWithin(up, q, k)
    ensures Above(up, q, k) <= Above(up, p, k)
    ensures Top(up, q, k) == Top(up, p, k)
    decreases k
  {
    FollowedStep(up, p, k);
    var u := up(p).value;
    if q != u {
      assert q in Above(up, u, k - 1);
      AboveTrans(up, u, q, k - 1);
      StopsAtHeight(up, q, k - 1, k);
      BoundIrrelevant(up, q, k - 1, k);
      BoundIrrelevant(up, u, k - 1, k);
    }
  }

  lemma {:induction false} TopReached(up: Step, p: Pid, k: nat)
    requires StopsWithin(up, p, k)
    ensures if up(p).None? then Top(up, p, k) == p else Top(up, p, k) != p && Top(up, p, k) in Above(up, p, k)
    decreases k
  {
    if up(p).Some? {
      TopReached(up, up(p).value, k - 1);
    }
  }

  lemma TopInside(up: Step, dom: set<Pid>, p: Pid, k: nat)
    requires LandsIn(up, dom) && StopsWithin(up, p, k) && p in dom
    ensures Top(up, p, k) in dom
  {
    TopReached(up, p, k);
    AboveInside(up, dom, p, k);
  }

  /** A walk that never stops stays in a set with no way out, and only such a walk does. */
  lemma LoopsIffTrapped(up: Step, dom: set<Pid>, p: Pid)
    requires LandsIn(up, dom)
    ensures !StopsWithin(up, p, |dom|) <==> exists s :: p in s && Trap(up, s)
  {
    if !StopsWithin(up, p, |dom|) {
      var s := set q | q in dom + {p} && !StopsWithin(up, q, |dom|);
      forall q | q in s ensures up(q).Some? && up(q).value in s {
        StopsBack(up, dom, q);
      }
      assert p in s && Trap(up, s);
    }
    if s :| p in s && Trap(up, s) {
      TrappedNeverStops(up, s, p, |dom|);
    }
  }

  lemma StopsBack(up: Step, dom: set<Pid>, q: Pid)
    requires LandsIn(up, dom) && !StopsWithin(up, q, |dom|)
    ensures up(q).Some? && up(q).value in dom && !StopsWithin(up, up(q).value, |dom|)
  {
    if StopsWithin(up, up(q).value, |dom|) {
      StopsWithinSize(up, dom, q, |dom| + 1);
    }
  }

  ghost predicate Trap(up: Step, s: set<Pid>) {
    forall q :: q in s ==> up(q).Some? && up(q).value in s
  }

  lemma {:induction false} TrappedNeverStops(up: Step, s: set<Pid>, p: Pid, k: nat)
    requires p in s && Trap(up, s)
    ensures !StopsWithin(up, p, k)
    decreases k
  {
    if k > 0 {
      TrappedNeverStops(up, s, up(p).value, k - 1);
    }
  }
}
