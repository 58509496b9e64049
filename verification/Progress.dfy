/**
  Waiting in libmsh: threads spin on the xchg lock or, leaving a blockable call, on their own flag.
  Whoever is waited for holds the lock, never waits itself, and lets go after boundedly many of its
  own actions.
 */
module Progress {
  import opened Tables
  import opened SlotList
  import opened Scheduler
  import opened Allocator
  import opened Protocol
  import opened Invariant
  import opened InvariantProof
  import opened RunTheorems

  predicate WaitsForLock(c: Pc) {
    c.FinishWait? || c.SwapWait? || c.AllocWait?
  }

  /** How many more actions of its own a lock holder can take before it releases the lock. */
  function Remaining(s: Sys, u: nat): int
    requires u < |s.pc|
  {
    match s.pc[u]
    case Donors(_, need, d, _) => 2 + |s.w.ss| + (|s.pc| - d) * (need + 2)
    case Stealing(_, need, d, _, cnt) => 1 + |s.w.ss| + (|s.pc| - d) * (need + 2) - cnt
    case Pool(_, _, i, _) => 1 + |s.w.ss| - i
    case _ => 1
  }

  lemma Distribute(n: int, k: int)
    ensures (n - 1) * k == n * k - k
  {
  }

  lemma ProductIsNat(a: nat, b: nat)
    ensures 0 <= a * b
  {
  }

  lemma StealBounds(s: Sys, u: nat)
    requires At(s, u)
    ensures s.pc[u].Stealing? ==> s.pc[u].d < |s.pc| && s.pc[u].cnt <= s.pc[u].need
    ensures s.pc[u].Donors? ==> s.pc[u].d <= |s.pc|
    ensures s.pc[u].Pool? ==> s.pc[u].i <= |s.w.ss|
  {
  }

  lemma RemainingIsPositive(s: Sys, u: nat)
    requires At(s, u) && Holds(s.pc[u])
    ensures 1 <= Remaining(s, u)
  {
    hide WorldShape;
    var c := s.pc[u];
    hide PcTyped;
    if c.Stealing? {
      assert PcTyped(s, u);
      StealBounds(s, u);
      Distribute(|s.pc| - c.d, c.need + 2);
      ProductIsNat(|s.pc| - c.d - 1, c.need + 2);
    } else if c.Donors? {
      StealBounds(s, u);
      ProductIsNat(|s.pc| - c.d, c.need + 2);
    } else {
      StealBounds(s, u);
    }
  }

  /** Every action of a holder brings it closer to the release; no flag or lock can stop it. */
  lemma HolderAdvances(s: Sys, u: nat, e: InitEffect)
    requires At(s, u) && Holds(s.pc[u])
    ensures Enabled(s, u, Advance(e))
    ensures
      var s' := Apply(s, u, Advance(e));
      && |s'.pc| == |s.pc|
      && (if Holds(s'.pc[u]) then s'.lock == s.lock && Remaining(s', u) < Remaining(s, u) else s'.lock == 0)
  {
    hide WorldShape, Retire, Swap, PoolOne, StealOne, AfterFinish, UpdateNextMap;
    var c := s.pc[u];
    match c
    case FinishLocked(_) => RetireReleases(s, u);
    case Donors(_, need, d, _) => Distribute(|s.pc| - d, need + 2);
    case Stealing(_, need, d, _, _) => Distribute(|s.pc| - d, need + 2);
    case _ =>
  }

  lemma RetireReleases(s: Sys, u: nat)
    requires At(s, u) && s.pc[u].FinishLocked?
    ensures
      var s' := DoRetire(s, u);
      |s'.pc| == |s.pc| && !Holds(s'.pc[u]) && s'.lock == 0
  {
    hide WorldShape, Retire, UpdateNextMap, FirstUsed;
  }

  /** The state after k actions of u, while u still holds the lock. */
  function Solo(s: Sys, u: nat, k: nat, e: InitEffect): (r: Sys)
    requires Inv(s) && u < |s.pc|
    ensures Inv(r) && |r.pc| == |s.pc|
    decreases k
  {
    if k == 0 || !Holds(s.pc[u]) then s
    else
      HolderAdvances(s, u, e);
      ActionKeepsInv(s, u, Advance(e));
      Solo(Apply(s, u, Advance(e)), u, k - 1, e)
  }

  /** A holder left alone releases the lock within the number of actions computed beforehand. */
  lemma {:induction false} LockIsReleased(s: Sys, u: nat, k: nat, e: InitEffect)
    requires Inv(s) && u < |s.pc| && Holds(s.pc[u]) && Remaining(s, u) <= k
    ensures Solo(s, u, k, e).lock == 0 && !Holds(Solo(s, u, k, e).pc[u])
    decreases k
  {
    hide Remaining, ThreadsOK, Placed, ScavsOK, CountOK, FlagOK, DoAdvance, WorldShape;
    RemainingIsPositive(s, u);
    HolderAdvances(s, u, e);
    ActionKeepsInv(s, u, Advance(e));
    var s' := Apply(s, u, Advance(e));
    if Holds(s'.pc[u]) {
      LockIsReleased(s', u, k - 1, e);
    } else {
      assert Solo(s', u, k - 1, e) == s';
    }
  }

  /** Solo actions of u leave the program counters of all others where they are. */
  lemma {:induction false} SoloKeepsOthers(s: Sys, u: nat, k: nat, e: InitEffect, t: nat)
    requires Inv(s) && u < |s.pc| && t < |s.pc| && t != u
    ensures Solo(s, u, k, e).pc[t] == s.pc[t]
    decreases k
  {
    hide Inv;
    if k > 0 && Holds(s.pc[u]) {
      HolderStep(s, u, e);
      PcOfOthers(s, u, Advance(e));
      SoloKeepsOthers(Apply(s, u, Advance(e)), u, k - 1, e, t);
    }
  }

  lemma HolderStep(s: Sys, u: nat, e: InitEffect)
    requires Inv(s) && u < |s.pc| && Holds(s.pc[u])
    ensures Enabled(s, u, Advance(e)) && Inv(Apply(s, u, Advance(e))) && |Apply(s, u, Advance(e)).pc| == |s.pc|
  {
    hide ThreadsOK, Placed, ScavsOK, CountOK, FlagOK, LockOK, DoAdvance;
    HolderAdvances(s, u, e);
    ActionKeepsInv(s, u, Advance(e));
  }

  /** With the lock free nobody is being robbed, so whoever is in a call has its flag up. */
  lemma FreeLockRaisesFlags(s: Sys, t: nat)
    requires |s.pc| == |s.w.prims| && LockOK(s) && FlagOK(s) && s.lock == 0 && t < |s.pc|
    ensures s.w.prims[t].reallocatable <==> AtCall(s.pc[t])
  {
    assert forall v :: 0 <= v < |s.pc| ==> !Holds(s.pc[v]);
  }

  // ----- Interleaved runs --------------------------------------------------------------------------

  /** How many of the actions j, ..., k - 1 are u's. */
  function ActsOf(acts: seq<Act>, j: nat, k: nat, u: nat): nat
    requires j <= k <= |acts|
  {
    if j == k then 0 else ActsOf(acts, j, k - 1, u) + if acts[k - 1].t == u then 1 else 0
  }

  /** What is left for a holder depends on its own program counter only. */
  lemma RemainingKept(s: Sys, s': Sys, u: nat)
    requires u < |s.pc| == |s'.pc| && s'.pc[u] == s.pc[u] && |s'.w.ss| == |s.w.ss|
    ensures Remaining(s', u) == Remaining(s, u)
  {
  }

  /** A lock holder has no action but its next internal one. */
  lemma HolderActs(s: Sys, act: Act)
    requires Inv(s) && Enabled(s, act.t, act.a) && Holds(s.pc[act.t])
    ensures act.a.Advance?
    ensures
      var s' := Apply(s, act.t, act.a);
      |s'.pc| == |s.pc| && (Holds(s'.pc[act.t]) ==> Remaining(s', act.t) < Remaining(s, act.t))
  {
    hide ThreadsOK, Placed, ScavsOK, CountOK, FlagOK, LockOK, DoAdvance, Remaining;
    assert act.a.Advance?;
    HolderAdvances(s, act.t, act.a.e);
  }

  /**
    Whatever the others do meanwhile: while u holds the lock, each of its actions uses up one of
    those that `Remaining` allowed when it was last looked at. So at most that many actions of u
    can pass before the lock is free.
   */
  lemma {:induction false} HolderIsBounded(trace: seq<Sys>, acts: seq<Act>, j: nat, k: nat, u: nat)
    requires RunBy(trace, acts) && j <= k <= |acts|
    requires forall m :: j <= m <= k ==> u < |trace[m].pc| && Holds(trace[m].pc[u])
    ensures 1 <= Remaining(trace[k], u)
    ensures ActsOf(acts, j, k, u) + Remaining(trace[k], u) <= Remaining(trace[j], u)
    decreases k - j
  {
    hide Enabled, Apply, Remaining, Inv;
    RunByIsRun(trace, acts);
    RunKeepsInv(trace, k);
    HoldsSomething(trace[k], u);
    if j < k {
      var h := k - 1;
      HolderIsBounded(trace, acts, j, h, u);
      assert Does(trace[h], acts[h], trace[h + 1]);
      RunKeepsInv(trace, h);
      if acts[h].t == u {
        HolderActs(trace[h], acts[h]);
      } else {
        PcOfOthers(trace[h], acts[h].t, acts[h].a);
        TableSize(trace[h], acts[h]);
        RemainingKept(trace[h], trace[k], u);
      }
    }
  }

  lemma HoldsSomething(s: Sys, u: nat)
    requires Inv(s) && u < |s.pc| && Holds(s.pc[u])
    ensures 1 <= Remaining(s, u)
  {
    hide ThreadsOK, Placed, ScavsOK, CountOK, FlagOK, LockOK;
    RemainingIsPositive(s, u);
  }

  /** The thread that a waiting thread waits for. */
  lemma WaitedFor(s: Sys, t: nat) returns (u: nat)
    requires Inv(s) && t < |s.pc|
    requires (WaitsForLock(s.pc[t]) && s.lock != 0) || (s.pc[t].Exiting? && !s.w.prims[t].reallocatable)
    ensures At(s, u) && u != t && Holds(s.pc[u]) && (s.pc[t].Exiting? ==> Robs(s.pc[u], t))
  {
    hide ThreadsOK, Placed, ScavsOK, CountOK, WorldShape;
    if s.pc[t].Exiting? {
      u :| 0 <= u < |s.pc| && Robs(s.pc[u], t);
    } else {
      u :| 0 <= u < |s.pc| && Holds(s.pc[u]);
    }
    assert PcTyped(s, u);
  }

  /**
    No deadlock. In every state of every run: a thread that finds the lock taken, or finds its own
    flag taken on the way out of a call, waits for a thread that holds the lock, is not itself
    waiting, and releases the lock within a bounded number of its own actions.
   */
  lemma NoDeadlock(trace: seq<Sys>, k: nat, t: nat) returns (u: nat)
    requires Run(trace) && k < |trace| && t < |trace[k].pc|
    requires
      var s := trace[k];
      || (WaitsForLock(s.pc[t]) && s.lock != 0)
      || (s.pc[t].Exiting? && t < |s.w.prims| && !s.w.prims[t].reallocatable)
    ensures u < |trace[k].pc| && u != t && Holds(trace[k].pc[u]) && !WaitsForLock(trace[k].pc[u])
    ensures trace[k].pc[t].Exiting? ==> Robs(trace[k].pc[u], t)
    ensures Inv(trace[k])
    ensures forall e :: Enabled(trace[k], u, Advance(e))
    ensures forall e :: Remaining(trace[k], u) >= 0 && Solo(trace[k], u, Remaining(trace[k], u), e).lock == 0
    ensures forall e ::
      var s' := Solo(trace[k], u, Remaining(trace[k], u), e);
      s'.pc[t] == trace[k].pc[t]
      && (trace[k].pc[t].Exiting? ==> t < |s'.w.prims| && s'.w.prims[t].reallocatable)
  {
    RunKeepsInv(trace, k);
    var s := trace[k];
    u := WaitedFor(s, t);
    HoldsSomething(s, u);
    hide Inv, Remaining, PcTyped, LockOK, Solo;
    forall e
      ensures Enabled(s, u, Advance(e))
      ensures
        var s' := Solo(s, u, Remaining(s, u), e);
        s'.lock == 0 && s'.pc[t] == s.pc[t]
        && (s.pc[t].Exiting? ==> t < |s'.w.prims| && s'.w.prims[t].reallocatable)
    {
      WaitEnds(s, t, u, e);
    }
  }

  /** Once the holder is done, the lock is free and the flag of a thread leaving its call is up. */
  lemma WaitEnds(s: Sys, t: nat, u: nat, e: InitEffect)
    requires Inv(s) && t < |s.pc| && u < |s.pc| && t != u && Holds(s.pc[u]) && 0 <= Remaining(s, u)
    ensures Enabled(s, u, Advance(e))
    ensures
      var s' := Solo(s, u, Remaining(s, u), e);
      s'.lock == 0 && s'.pc[t] == s.pc[t]
      && (s.pc[t].Exiting? ==> t < |s'.w.prims| && s'.w.prims[t].reallocatable)
  {
    hide Remaining, Solo, LockOK, FlagOK, ThreadsOK, Placed, ScavsOK, CountOK;
    HolderStep(s, u, e);
    LockIsReleased(s, u, Remaining(s, u), e);
    SoloKeepsOthers(s, u, Remaining(s, u), e, t);
    FreeLockRaisesFlags(Solo(s, u, Remaining(s, u), e), t);
  }
}
