/** Consequences of the invariant for every run of any number of threads. */
module RunTheorems {
  import opened Wrappers
  import opened Tables
  import opened SlotList
  import opened Scheduler
  import opened Allocator
  import opened Protocol
  import opened Invariant
  import opened InvariantProof
  import Events

  // ----- Placement and lifecycle -----------------------------------------------------------------

  /**
    In every state of every run, a scavenger's `yc` names a slot exactly if that slot lists the
    scavenger; so no scavenger is in two slots, of one thread or of two.
   */
  lemma PlacementOverRuns(trace: seq<Sys>, k: nat, i: nat)
    requires Run(trace) && k < |trace| && i < |trace[k].w.ss|
    ensures
      var w := trace[k].w;
      forall t, q :: 0 <= t < |w.prims| && 0 <= q < |w.prims[t].idx| ==>
        (w.prims[t].idx[q] == i <==> w.ss[i].yc == Some(Loc(t, q)))
  {
    RunKeepsInv(trace, k);
    var w := trace[k].w;
    forall t, q | 0 <= t < |w.prims| && 0 <= q < |w.prims[t].idx|
      ensures w.prims[t].idx[q] == i <==> w.ss[i].yc == Some(Loc(t, q))
    {
      if w.prims[t].idx[q] == i {
        assert LivesAt(w.ss, i, t, q);
      }
      if w.ss[i].yc == Some(Loc(t, q)) {
        assert PointsHome(w, i);
      }
    }
  }

  predicate HostedScav(c: Scav) {
    c.loaded && c.yc.Some? && !c.finished
  }

  predicate DoneScav(c: Scav) {
    c.loaded && c.yc.None? && c.finished
  }

  /** A loaded scavenger is in exactly one of the pool, a slot, and the finished set. */
  lemma LifecycleIsPartition(trace: seq<Sys>, k: nat, i: nat)
    requires Run(trace) && k < |trace| && i < |trace[k].w.ss| && trace[k].w.ss[i].loaded
    ensures
      var c := trace[k].w.ss[i];
      && (InPool(c) || HostedScav(c) || DoneScav(c))
      && !(InPool(c) && HostedScav(c)) && !(InPool(c) && DoneScav(c)) && !(HostedScav(c) && DoneScav(c))
  {
    RunKeepsInv(trace, k);
    var w := trace[k].w;
    if w.ss[i].yc.Some? {
      assert PointsHome(w, i);
      var at := w.ss[i].yc.value;
      assert LivesAt(w.ss, w.prims[at.tid].idx[at.pos], at.tid, at.pos);
    }
    assert ScavOK(w.ss[i]);
  }

  /** How a scavenger's record may change: finishing is final, and nothing returns to the pool. */
  predicate Evolves(c: Scav, c': Scav) {
    && c'.loaded == c.loaded && c'.hasInit == c.hasInit
    && c'.entry == c.entry && c'.retToSched == c.retToSched
    && (c.finished ==> c'.finished) && (InPool(c') ==> InPool(c))
    && (c.inited ==> c'.inited) && c.initCalls <= c'.initCalls
  }

  predicate TableEvolves(ss: seq<Scav>, ss': seq<Scav>) {
    |ss'| == |ss| && forall i :: 0 <= i < |ss| ==> Evolves(ss[i], ss'[i])
  }

  lemma ActionEvolves(s: Sys, t: nat, a: Action)
    requires Enabled(s, t, a)
    ensures TableEvolves(s.w.ss, Apply(s, t, a).w.ss)
  {
    hide UpdateNextMap, SetSpecialNext, FirstUsed, Count, Typed;
    if a.Advance? {
      AdvanceEvolves(s, t, a.e);
    }
  }

  lemma AdvanceEvolves(s: Sys, t: nat, e: InitEffect)
    requires Enabled(s, t, Advance(e))
    ensures TableEvolves(s.w.ss, DoAdvance(s, t, e).w.ss)
  {
    hide UpdateNextMap, SetSpecialNext, FirstUsed, Count, SwapPrim, Robbed, Received;
    match s.pc[t]
    case FinishLocked(pos) => {
      assert DoRetire(s, t).w.ss == Retire(LocalOf(s.w, t), pos).ss;
    }
    case SwapLocked(a, b) => {
      assert DoSwap(s, t).w.ss == Swap(LocalOf(s.w, t), t, a, b).ss;
    }
    case Stealing(_, _, d, _, _) => {
      var y := StealOne(Pair(s.w.prims[d], s.w.prims[t], s.w.ss), t).0;
      assert DoSteal(s, t).w.ss == y.ss || DoSteal(s, t).w.ss == s.w.ss;
    }
    case _ =>
  }

  lemma {:induction false} RunEvolves(trace: seq<Sys>, j: nat, k: nat)
    requires Run(trace) && j <= k < |trace|
    ensures TableEvolves(trace[j].w.ss, trace[k].w.ss)
    decreases k - j
  {
    hide Apply, Enabled, TableEvolves, Init;
    SelfEvolves(trace[j].w.ss);
    if j < k {
      RunEvolves(trace, j, k - 1);
      assert Step(trace[k - 1], trace[k - 1 + 1]);
      var t: nat, a: Action :| Enabled(trace[k - 1], t, a) && trace[k] == Apply(trace[k - 1], t, a);
      ActionEvolves(trace[k - 1], t, a);
      EvolvesFurther(trace[j].w.ss, trace[k - 1].w.ss, trace[k].w.ss);
    }
  }

  lemma SelfEvolves(ss: seq<Scav>)
    ensures TableEvolves(ss, ss)
  {
  }

  lemma EvolvesFurther(x: seq<Scav>, y: seq<Scav>, z: seq<Scav>)
    requires TableEvolves(x, y) && TableEvolves(y, z)
    ensures TableEvolves(x, z)
  {
    forall i | 0 <= i < |x| ensures Evolves(x[i], z[i]) {
      assert Evolves(x[i], y[i]) && Evolves(y[i], z[i]);
    }
  }

  /** Once finished, a scavenger is never hosted again. */
  lemma FinishedForever(trace: seq<Sys>, j: nat, k: nat, i: nat)
    requires Run(trace) && j <= k < |trace| && i < |trace[j].w.ss| && trace[j].w.ss[i].finished
    ensures i < |trace[k].w.ss| && trace[k].w.ss[i].finished && trace[k].w.ss[i].yc.None?
  {
    RunEvolves(trace, j, k);
    RunKeepsInv(trace, k);
    assert Evolves(trace[j].w.ss[i], trace[k].w.ss[i]);
    assert ScavOK(trace[k].w.ss[i]);
  }

  /** A finish event that names neither the primary nor a used slot. */
  predicate Missed(s: Sys, act: Act)
    requires Enabled(s, act.t, act.a)
  {
    act.a.Finish? && act.a.pos != 0 && s.w.prims[act.t].idx[act.a.pos] == EMPTY
  }

  lemma ActionMisses(s: Sys, act: Act)
    requires Enabled(s, act.t, act.a)
    ensures Apply(s, act.t, act.a).misses == s.misses + if Missed(s, act) then 1 else 0
  {
    hide UpdateNextMap, SetSpecialNext, FirstUsed, Count, Retire, Swap, StealOne, PoolOne, InitOne,
      SelfLinks, WorldShape;
  }

  /** The events among the first k actions of a run that named neither the primary nor a used slot. */
  ghost function MissedEvents(trace: seq<Sys>, acts: seq<Act>, k: nat): set<nat>
    requires RunBy(trace, acts) && k <= |acts|
  {
    set j: nat | j < k && Does(trace[j], acts[j], trace[j + 1]) && Missed(trace[j], acts[j])
  }

  lemma {:induction false} MissesCounted(trace: seq<Sys>, acts: seq<Act>, k: nat)
    requires RunBy(trace, acts) && k <= |acts|
    ensures trace[k].misses == |MissedEvents(trace, acts, k)|
  {
    hide Enabled, Apply, Missed;
    if k == 0 {
      assert MissedEvents(trace, acts, 0) == {};
    } else {
      MissesCounted(trace, acts, k - 1);
      assert Does(trace[k - 1], acts[k - 1], trace[k - 1 + 1]);
      ActionMisses(trace[k - 1], acts[k - 1]);
      var a, b := MissedEvents(trace, acts, k - 1), MissedEvents(trace, acts, k);
      if Missed(trace[k - 1], acts[k - 1]) {
        assert b == a + {k - 1};
      } else {
        assert b == a;
      }
    }
  }

  /**
    With no finish event in progress, finished_scav_cnt exceeds the number of finished scavengers
    by the number of events that named neither the primary nor a used slot. So the two are equal
    exactly if every Finish(pos) of the run named 0 or a used slot.
   */
  lemma FinishedCountExact(trace: seq<Sys>, acts: seq<Act>, k: nat)
    requires RunBy(trace, acts) && k <= |acts|
    requires forall t :: 0 <= t < |trace[k].pc| ==> !IsPending(trace[k].pc[t])
    ensures trace[k].finishedCnt == |Finished(trace[k].w.ss)| + |MissedEvents(trace, acts, k)|
    ensures trace[k].finishedCnt == |Finished(trace[k].w.ss)| <==>
      forall j: nat :: j < k && acts[j].a.Finish? ==>
        Does(trace[j], acts[j], trace[j + 1]) && !Missed(trace[j], acts[j])
  {
    RunByIsRun(trace, acts);
    RunKeepsInv(trace, k);
    assert Pending(trace[k].pc) == {};
    MissesCounted(trace, acts, k);
    hide Enabled, Apply, Inv;
    var m := MissedEvents(trace, acts, k);
    if m == {} {
      forall j: nat | j < k ensures Does(trace[j], acts[j], trace[j + 1]) && !Missed(trace[j], acts[j]) {
        assert Does(trace[j], acts[j], trace[j + 1]);
        assert j !in m;
      }
    } else {
      var j :| j in m;
      assert acts[j].a.Finish?;
    }
  }

  /** The scavenger in slot q has its crt_pos in bytes, and it decodes to pos. */
  predicate ReportedBy(l: Local, q: nat, pos: nat)
    requires Sound(l) && q < |l.p.idx|
  {
    l.p.idx[q] != EMPTY && Events.Scaled(l, q) && pos == Events.Decode(l.ss[l.p.idx[q]].crtPos)
  }

  /** The event is the primary's, or that of a scavenger whose crt_pos is in bytes. */
  predicate WellReported(s: Sys, act: Act)
    requires Enabled(s, act.t, act.a) && act.a.Finish?
  {
    var l := LocalOf(s.w, act.t);
    act.a.pos == 0 || exists q :: 0 <= q < |l.p.idx| && ReportedBy(l, q, act.a.pos)
  }

  /** Where every scavenger that finishes still has its position in bytes, the count is exact. */
  lemma FinishedCountOfScaled(trace: seq<Sys>, acts: seq<Act>, k: nat)
    requires RunBy(trace, acts) && k <= |acts|
    requires forall t :: 0 <= t < |trace[k].pc| ==> !IsPending(trace[k].pc[t])
    requires forall j: nat :: j < k && acts[j].a.Finish? ==>
      Does(trace[j], acts[j], trace[j + 1]) && WellReported(trace[j], acts[j])
    ensures trace[k].finishedCnt == |Finished(trace[k].w.ss)|
  {
    hide Apply, Enabled, Missed, WellReported;
    FinishedCountExact(trace, acts, k);
    forall j: nat | j < k && acts[j].a.Finish?
      ensures Does(trace[j], acts[j], trace[j + 1]) && !Missed(trace[j], acts[j])
    {
      ReportedIsNoMiss(trace[j], acts[j]);
    }
  }

  lemma ReportedIsNoMiss(s: Sys, act: Act)
    requires Enabled(s, act.t, act.a) && act.a.Finish? && WellReported(s, act)
    ensures !Missed(s, act)
  {
  }

  // ----- Bounds ----------------------------------------------------------------------------------

  /** No thread ever hosts more than 2 * max - 1 scavengers; with a cap of 1 the cap is exact. */
  lemma HostedBound(trace: seq<Sys>, k: nat, t: nat)
    requires Run(trace) && k < |trace| && t < |trace[k].w.prims|
    ensures
      var n := Count(trace[k].w.prims[t].idx);
      n <= Cap(trace[k].max) && (trace[k].max == 1 ==> n <= 1)
  {
    RunKeepsInv(trace, k);
    var s := trace[k];
    assert ThreadOK(s.w.prims[t], s.pc[t], s.w.ss, s.max);
  }

  // ----- Init ------------------------------------------------------------------------------------

  /** The action calls the init function of scavenger i. */
  predicate CallsInit(s: Sys, act: Act, i: nat)
    requires Enabled(s, act.t, act.a)
  {
    && act.a.Advance? && s.pc[act.t].Initing? && s.pc[act.t].pos < s.slots
    && s.w.prims[act.t].idx[s.pc[act.t].pos] == i && NeedsInit(s.w.ss[i])
  }

  lemma ActionInits(s: Sys, act: Act, i: nat)
    requires Enabled(s, act.t, act.a) && i < |s.w.ss|
    ensures |Apply(s, act.t, act.a).w.ss| == |s.w.ss|
    ensures Apply(s, act.t, act.a).w.ss[i].inited <==> s.w.ss[i].inited || CallsInit(s, act, i)
  {
    hide UpdateNextMap, SetSpecialNext, FirstUsed, Count, SwapPrim, Robbed, Received, SelfLinks, FirstFree, LastUsed;
    if act.a.Advance? {
      AdvanceInits(s, act.t, act.a.e, i);
      hide DoAdvance;
    }
  }

  lemma AdvanceInits(s: Sys, t: nat, e: InitEffect, i: nat)
    requires Enabled(s, t, Advance(e)) && i < |s.w.ss|
    ensures |DoAdvance(s, t, e).w.ss| == |s.w.ss|
    ensures DoAdvance(s, t, e).w.ss[i].inited <==> s.w.ss[i].inited || CallsInit(s, Act(t, Advance(e)), i)
  {
    hide UpdateNextMap, SetSpecialNext, FirstUsed, Count, SwapPrim, Robbed, Received, SelfLinks, FirstFree, LastUsed;
    match s.pc[t]
    case FinishLocked(pos) => {
      assert DoRetire(s, t).w.ss == Retire(LocalOf(s.w, t), pos).ss;
    }
    case SwapLocked(a, b) => {
      assert DoSwap(s, t).w.ss == Swap(LocalOf(s.w, t), t, a, b).ss;
    }
    case Stealing(_, _, d, _, _) => {
      var y := StealOne(Pair(s.w.prims[d], s.w.prims[t], s.w.ss), t).0;
      assert DoSteal(s, t).w.ss == y.ss || DoSteal(s, t).w.ss == s.w.ss;
    }
    case _ =>
  }

  /** No scavenger's init function is called twice in a run, wherever the scavenger is taken. */
  lemma InitAtMostOnce(trace: seq<Sys>, acts: seq<Act>, j: nat, k: nat, i: nat)
    requires RunBy(trace, acts) && j < k < |acts| && i < |trace[j].w.ss|
    requires Does(trace[j], acts[j], trace[j + 1]) && Does(trace[k], acts[k], trace[k + 1])
    requires CallsInit(trace[j], acts[j], i)
    ensures !CallsInit(trace[k], acts[k], i)
  {
    hide Enabled, Apply;
    ActionInits(trace[j], acts[j], i);
    RunByIsRun(trace, acts);
    RunEvolves(trace, j + 1, k);
    assert Evolves(trace[j + 1].w.ss[i], trace[k].w.ss[i]);
  }

  /**
    In every state of every run each scavenger's init function has been called at most once, and
    the scavenger is marked inited exactly if an earlier action of the run called it.
   */
  lemma {:induction false} InitedIsCalled(trace: seq<Sys>, acts: seq<Act>, k: nat, i: nat)
    requires RunBy(trace, acts) && k <= |acts| && i < |trace[k].w.ss|
    ensures trace[k].w.ss[i].initCalls == if trace[k].w.ss[i].inited then 1 else 0
    ensures trace[k].w.ss[i].inited <==>
      exists j: nat :: j < k && Does(trace[j], acts[j], trace[j + 1]) && CallsInit(trace[j], acts[j], i)
  {
    hide Enabled, Apply, CallsInit;
    RunByIsRun(trace, acts);
    RunKeepsInv(trace, k);
    assert ScavOK(trace[k].w.ss[i]);
    if k > 0 {
      assert Does(trace[k - 1], acts[k - 1], trace[k - 1 + 1]);
      TableSize(trace[k - 1], acts[k - 1]);
      InitedIsCalled(trace, acts, k - 1, i);
      ActionInits(trace[k - 1], acts[k - 1], i);
    }
  }

  lemma TableSize(s: Sys, act: Act)
    requires Enabled(s, act.t, act.a)
    ensures |Apply(s, act.t, act.a).w.ss| == |s.w.ss|
  {
    ActionEvolves(s, act.t, act.a);
  }

  /**
    A scavenger with an init function has had it called, once, before it can be resumed (its
    thread runs or drains) or stolen (its thread is in a call).
   */
  lemma InitBeforeUse(trace: seq<Sys>, acts: seq<Act>, k: nat, t: nat, q: nat)
    requires RunBy(trace, acts) && k <= |acts| && t < |trace[k].pc| && 1 <= q < trace[k].slots
    requires var c := trace[k].pc[t]; c.Running? || c.Draining? || AtCall(c)
    ensures t < |trace[k].w.prims| && q < |trace[k].w.prims[t].idx|
    ensures
      var i := trace[k].w.prims[t].idx[q];
      i != EMPTY ==>
        && 0 <= i < |trace[k].w.ss|
        && (trace[k].w.ss[i].hasInit ==>
          && trace[k].w.ss[i].initCalls == 1
          && exists j: nat :: j < k && Does(trace[j], acts[j], trace[j + 1]) && CallsInit(trace[j], acts[j], i))
  {
    RunByIsRun(trace, acts);
    RunKeepsInv(trace, k);
    var s := trace[k];
    assert ThreadOK(s.w.prims[t], s.pc[t], s.w.ss, s.max);
    var i := s.w.prims[t].idx[q];
    if i != EMPTY && s.w.ss[i].hasInit {
      assert ScavOK(s.w.ss[i]);
      hide Enabled, Apply, CallsInit, Inv, ThreadOK, RunBy;
      InitedIsCalled(trace, acts, k, i);
    }
  }

  // ----- Positions -------------------------------------------------------------------------------

  /** What one action does to the place of a scavenger and to the position it reports. */
  predicate PositionMoves(c: Scav, c': Scav) {
    c'.yc.Some? ==>
      && (c.yc.None? ==> c'.crtPos == c'.yc.value.pos * YC_SIZE)
      && (c.yc == c'.yc ==> c'.crtPos == c.crtPos)
      && (c.yc.Some? && c.yc != c'.yc ==> c'.crtPos == c'.yc.value.pos)
  }

  lemma ActionPositions(s: Sys, act: Act, i: nat)
    requires Inv(s) && Enabled(s, act.t, act.a) && i < |s.w.ss|
    ensures |Apply(s, act.t, act.a).w.ss| == |s.w.ss|
    ensures PositionMoves(s.w.ss[i], Apply(s, act.t, act.a).w.ss[i])
  {
    hide LockOK, FlagOK, Placed, ScavsOK, ThreadsOK, CountOK, PositionMoves, DoSwap, DoSteal;
    var t := act.t;
    TableSize(s, act);
    if act.a.Advance? && s.pc[t].SwapLocked? {
      SwapPositions(s, t, i);
    } else if act.a.Advance? && s.pc[t].Stealing? {
      StealPositions(s, t, i);
    } else {
      hide Apply;
      OtherPositions(s, act, i);
    }
  }

  lemma OtherPositions(s: Sys, act: Act, i: nat)
    requires Enabled(s, act.t, act.a) && i < |s.w.ss|
    requires act.a.Advance? ==> !s.pc[act.t].SwapLocked? && !s.pc[act.t].Stealing?
    ensures |Apply(s, act.t, act.a).w.ss| == |s.w.ss|
    ensures PositionMoves(s.w.ss[i], Apply(s, act.t, act.a).w.ss[i])
  {
    hide UpdateNextMap, SetSpecialNext, FirstUsed, Count, SelfLinks, StealOne, Swap;
    if act.a.Advance? && s.pc[act.t].FinishLocked? {
      assert DoRetire(s, act.t).w.ss == Retire(LocalOf(s.w, act.t), s.pc[act.t].pos).ss;
    }
  }

  lemma SwapPositions(s: Sys, t: nat, i: nat)
    requires Inv(s) && At(s, t) && s.pc[t].SwapLocked? && i < |s.w.ss|
    ensures |DoSwap(s, t).w.ss| == |s.w.ss| && PositionMoves(s.w.ss[i], DoSwap(s, t).w.ss[i])
  {
    var a, b, p := s.pc[t].a, s.pc[t].b, s.w.prims[t];
    assert ThreadOK(p, s.pc[t], s.w.ss, s.max);
    assert p.idx[a] == EMPTY && p.idx[b] != EMPTY;
    assert LivesAt(s.w.ss, p.idx[b], t, b);
    hide Inv, ThreadOK;
    assert DoSwap(s, t).w.ss == MoveScav(s.w.ss, p.idx[b], Loc(t, a));
  }

  lemma StealPositions(s: Sys, t: nat, i: nat)
    requires Inv(s) && At(s, t) && s.pc[t].Stealing? && i < |s.w.ss|
    ensures |DoSteal(s, t).w.ss| == |s.w.ss| && PositionMoves(s.w.ss[i], DoSteal(s, t).w.ss[i])
  {
    hide LockOK, FlagOK, ScavsOK, ThreadsOK, CountOK, StealOne, Count, Prefix, LiveSlots, WorldShape, Robbed, Received;
    var d := s.pc[t].d;
    var x := Pair(s.w.prims[d], s.w.prims[t], s.w.ss);
    StealReady(s, t);
    StealSlots(x, t);
    var n, m := Count(x.from.idx), Count(x.to.idx);
    if n > 0 {
      assert x.from.idx[n] != EMPTY ==> LivesAt(s.w.ss, x.from.idx[n], d, n);
    }
    assert DoSteal(s, t).w.ss == s.w.ss || DoSteal(s, t).w.ss == MoveScav(s.w.ss, x.from.idx[n], Loc(t, m + 1));
  }

  /** At step m scavenger i was taken from the pool, to the slot where it still is in state k. */
  predicate StaysSince(trace: seq<Sys>, i: nat, m: nat, k: nat)
    requires m < k < |trace|
  {
    && i < |trace[m].w.ss| && trace[m].w.ss[i].yc.None?
    && forall j :: m < j <= k ==> i < |trace[j].w.ss| && i < |trace[k].w.ss| && trace[j].w.ss[i].yc == trace[k].w.ss[i].yc
  }

  /** crt_pos of scavenger i is in bytes in state k exactly if it has stayed where the pool put it. */
  ghost predicate ScaledIffStayed(trace: seq<Sys>, k: nat, i: nat)
    requires k < |trace| && i < |trace[k].w.ss| && trace[k].w.ss[i].yc.Some?
  {
    var c := trace[k].w.ss[i];
    c.crtPos == c.yc.value.pos * YC_SIZE <==> exists m :: 0 <= m < k && StaysSince(trace, i, m, k)
  }

  lemma StayedStep(trace: seq<Sys>, h: nat, k: nat, i: nat)
    requires k == h + 1 < |trace| && i < |trace[h].w.ss| == |trace[k].w.ss|
    requires trace[k].w.ss[i].yc.Some? && 1 <= trace[k].w.ss[i].yc.value.pos
    requires PositionMoves(trace[h].w.ss[i], trace[k].w.ss[i])
    requires trace[h].w.ss[i].yc.Some? ==> ScaledIffStayed(trace, h, i)
    ensures ScaledIffStayed(trace, k, i)
  {
    var c, c' := trace[h].w.ss[i], trace[k].w.ss[i];
    if c.yc.None? {
      assert StaysSince(trace, i, h, k);
    } else if c.yc == c'.yc {
      forall m | 0 <= m < h ensures StaysSince(trace, i, m, h) <==> StaysSince(trace, i, m, k) {
        StayExtends(trace, i, m, h);
      }
      assert !StaysSince(trace, i, h, k);
    } else {
      forall m | 0 <= m < k ensures !StaysSince(trace, i, m, k) {
        assert m < h ==> trace[h].w.ss[i].yc != trace[k].w.ss[i].yc;
      }
    }
  }

  /**
    In every state of every run, a hosted scavenger's crt_pos is in bytes, and so decodes to its
    slot, exactly if no swap and no steal has moved it since it came from the pool.
   */
  lemma {:induction false} ScaledIffNeverMoved(trace: seq<Sys>, acts: seq<Act>, k: nat, i: nat)
    requires RunBy(trace, acts) && k <= |acts| && i < |trace[k].w.ss| && trace[k].w.ss[i].yc.Some?
    ensures ScaledIffStayed(trace, k, i)
  {
    RunByIsRun(trace, acts);
    RunKeepsInv(trace, k);
    PlacedSlot(trace[k], i);
    hide Inv, Enabled, Apply, ScaledIffStayed;
    if k == 0 {
      assert false;
    } else {
      var h := k - 1;
      assert Does(trace[h], acts[h], trace[h + 1]);
      RunKeepsInv(trace, h);
      TableSize(trace[h], acts[h]);
      ActionPositions(trace[h], acts[h], i);
      if trace[h].w.ss[i].yc.Some? {
        ScaledIffNeverMoved(trace, acts, h, i);
      }
      StayedStep(trace, h, k, i);
    }
  }

  lemma StayExtends(trace: seq<Sys>, i: nat, m: nat, h: nat)
    requires m < h && h + 1 < |trace| && i < |trace[h].w.ss| == |trace[h + 1].w.ss|
    requires trace[h].w.ss[i].yc == trace[h + 1].w.ss[i].yc
    ensures StaysSince(trace, i, m, h) <==> StaysSince(trace, i, m, h + 1)
  {
  }

  lemma PlacedSlot(s: Sys, i: nat)
    requires Inv(s) && i < |s.w.ss| && s.w.ss[i].yc.Some?
    ensures 1 <= s.w.ss[i].yc.value.pos
  {
    assert PointsHome(s.w, i);
    var at := s.w.ss[i].yc.value;
    assert LivesAt(s.w.ss, s.w.prims[at.tid].idx[at.pos], at.tid, at.pos);
  }

  /**
    In every state of every run, the finish event of a hosted scavenger retires that scavenger
    exactly if no swap and no steal has moved it since it came from the pool.
   */
  lemma FinishHitsIffNeverMoved(trace: seq<Sys>, acts: seq<Act>, k: nat, i: nat)
    requires RunBy(trace, acts) && k <= |acts| && i < |trace[k].w.ss| && trace[k].w.ss[i].yc.Some?
    ensures trace[k].w.ss[i].yc.value.tid < |trace[k].w.prims| && 0 <= trace[k].w.ss[i].crtPos
    ensures
      var l := LocalOf(trace[k].w, trace[k].w.ss[i].yc.value.tid);
      var pos := Events.Decode(trace[k].w.ss[i].crtPos);
      && Sound(l) && pos < |l.p.idx|
      && (Scheduler.Finish(l, pos).ss[i].finished <==> exists m :: 0 <= m < k && StaysSince(trace, i, m, k))
  {
    ScaledIffNeverMoved(trace, acts, k, i);
    RunByIsRun(trace, acts);
    RunKeepsInv(trace, k);
    var w := trace[k].w;
    var at := w.ss[i].yc.value;
    assert PointsHome(w, i);
    hide Inv, RunBy, Run;
    var l := LocalOf(w, at.tid);
    HostIsLocal(trace[k], i);
    Events.DecodeIffScaled(l, at.tid, at.pos);
    Events.FinishHitsIffScaled(l, at.tid, at.pos);
  }

  /**
    In every state of every run, the finish event of a hosted scavenger retires another one exactly
    if its own has been moved, lives in slot 20 or above, and slot q / 20 is used (on the hole-free
    list of a live thread it always is).
   */
  lemma FinishHitsAnotherIff(trace: seq<Sys>, acts: seq<Act>, k: nat, i: nat)
    requires RunBy(trace, acts) && k <= |acts| && i < |trace[k].w.ss| && trace[k].w.ss[i].yc.Some?
    ensures trace[k].w.ss[i].yc.value.tid < |trace[k].w.prims| == |trace[k].pc| && 0 <= trace[k].w.ss[i].crtPos
    ensures
      var at := trace[k].w.ss[i].yc.value;
      var l := LocalOf(trace[k].w, at.tid);
      var pos := Events.Decode(trace[k].w.ss[i].crtPos);
      && Sound(l) && pos < |l.p.idx| && at.pos < |l.p.idx|
      && ((exists j :: 0 <= j < |l.ss| && j != i && Events.Retires(l, pos, j)) <==>
        && !(exists m :: 0 <= m < k && StaysSince(trace, i, m, k))
        && at.pos >= YC_SIZE && l.p.idx[at.pos / YC_SIZE] != EMPTY)
      && (trace[k].pc[at.tid].Running? && at.pos >= YC_SIZE ==> l.p.idx[at.pos / YC_SIZE] != EMPTY)
  {
    ScaledIffNeverMoved(trace, acts, k, i);
    RunByIsRun(trace, acts);
    RunKeepsInv(trace, k);
    var w := trace[k].w;
    var at := w.ss[i].yc.value;
    assert PointsHome(w, i);
    HostIsLocal(trace[k], i);
    if trace[k].pc[at.tid].Running? {
      LinksOverRuns(trace, k, at.tid);
    }
    hide Inv, RunBy, Run, Events.Retires;
    Events.RetiresAnotherIff(LocalOf(w, at.tid), at.tid, at.pos);
  }

  lemma HostIsLocal(s: Sys, i: nat)
    requires Inv(s) && i < |s.w.ss| && s.w.ss[i].yc.Some? && PointsHome(s.w, i)
    ensures
      var at := s.w.ss[i].yc.value;
      var l := LocalOf(s.w, at.tid);
      Sound(l) && Events.LocallyPlaced(l, at.tid) && at.pos < |l.p.idx| && l.p.idx[at.pos] == i
  {
    var at := s.w.ss[i].yc.value;
    assert ThreadOK(s.w.prims[at.tid], s.pc[at.tid], s.w.ss, s.max);
  }

  // ----- Links -----------------------------------------------------------------------------------

  /**
    Whenever a live primary runs, both scans of the scheduler find the same slot, the primary's
    link names it, and the walk over the links visits the n hosted scavengers once each and returns,
    exactly if the links are up to date and the last slot is free.
   */
  lemma LinksOverRuns(trace: seq<Sys>, k: nat, t: nat)
    requires Run(trace) && k < |trace| && t < |trace[k].pc| && trace[k].pc[t].Running?
    ensures t < |trace[k].w.prims| && WellShaped(trace[k].w.prims[t])
    ensures
      var p := trace[k].w.prims[t];
      var n := Count(p.idx);
      && Prefix(p.idx)
      && p.ycs[0].normal == YC_SIZE * FirstUsed(p.idx, 1)
      && FirstLive(p.ycs, 1) == FirstUsed(p.idx, 1)
      && (1 <= n ==> (Ring(p, n) <==> trace[k].pc[t].linked && n < |p.idx| - 1))
  {
    RunKeepsInv(trace, k);
    var s := trace[k];
    var p := s.w.prims[t];
    assert ThreadOK(p, s.pc[t], s.w.ss, s.max);
    ScansAgree(p, 1);
    if 1 <= Count(p.idx) {
      Events.LinkedRing(p, s.pc[t].linked);
    }
  }

  /** A slot is runnable exactly if it is used, in every state of every run, but for a slot in the
      middle of finishing. */
  lemma LivenessAgreement(trace: seq<Sys>, k: nat, t: nat, q: nat)
    requires Run(trace) && k < |trace| && t < |trace[k].pc| && 1 <= q < trace[k].slots
    requires IsPending(trace[k].pc[t]) ==> q != trace[k].pc[t].pos
    ensures t < |trace[k].w.prims| && q < |trace[k].w.prims[t].idx| == |trace[k].w.prims[t].ycs|
    ensures
      var p := trace[k].w.prims[t];
      p.idx[0] == EMPTY && (p.idx[q] != EMPTY <==> p.ycs[q].normal != EMPTY)
  {
    RunKeepsInv(trace, k);
    var s := trace[k];
    hide Placed, ScavsOK, CountOK, LockOK, FlagOK, Prefix, Linked, Handshake, AllInited;
    assert ThreadOK(s.w.prims[t], s.pc[t], s.w.ss, s.max);
    if s.pc[t].Running? {
      LinksOverRuns(trace, k, t);
      assert LiveSlots(s.w.prims[t]) by {
        LinkedIsLive(s.w.prims[t], s.pc[t].linked);
      }
    }
  }

  lemma LinkedIsLive(p: Prim, linked: bool)
    requires WellShaped(p) && Linked(p, linked)
    ensures LiveSlots(p)
  {
  }

  // ----- Ownership -------------------------------------------------------------------------------

  /** The thread contexts that t's next action may read or write, flags apart. */
  function Touches(s: Sys, t: nat): set<int>
    requires t < |s.pc| == |s.w.prims|
  {
    var c := s.pc[t];
    (if c.Blocked? || (c.Exiting? && !s.w.prims[t].reallocatable) then {} else {t})
    + (if c.Stealing? then {c.d} else {})
  }

  /** Two threads never have the same context in hand: a donor is frozen while it is robbed. */
  lemma ThreadsNeverCollide(trace: seq<Sys>, k: nat, t: nat, u: nat)
    requires Run(trace) && k < |trace| && t < |trace[k].pc| && u < |trace[k].pc| && t != u
    ensures |trace[k].w.prims| == |trace[k].pc|
    ensures Touches(trace[k], t) !! Touches(trace[k], u)
    ensures trace[k].pc[t].Stealing? ==> trace[k].pc[t].d != t
  {
    RunKeepsInv(trace, k);
    var s := trace[k];
    assert PcTyped(s, t) && PcTyped(s, u);
    if s.pc[t].Stealing? {
      assert Robs(s.pc[t], s.pc[t].d);
    }
    if s.pc[u].Stealing? {
      assert Robs(s.pc[u], s.pc[u].d);
    }
    if s.pc[t].Stealing? && s.pc[u].Stealing? {
      OneThief(s, t, u);
    }
  }

  /** An action changes no context outside that footprint, except a flag by compare-and-swap. */
  lemma ActionsStayInside(s: Sys, t: nat, a: Action, u: nat)
    requires Enabled(s, t, a) && u < |s.pc| && u !in Touches(s, t)
    ensures |Apply(s, t, a).w.prims| == |s.w.prims|
    ensures
      var p := Apply(s, t, a).w.prims[u];
      p == s.w.prims[u].(reallocatable := p.reallocatable)
  {
    hide UpdateNextMap, SetSpecialNext, FirstUsed, Count, Retire, Swap, StealOne, PoolOne, InitOne,
      AfterFinish, SelfLinks;
    if a.Finish? || a.Cleanup? || (a.Advance? && s.pc[t].FinishLocked?) {
      EventsStayInside(s, t, a, u);
    }
  }

  lemma EventsStayInside(s: Sys, t: nat, a: Action, u: nat)
    requires Enabled(s, t, a) && u < |s.pc| && u != t
    requires a.Finish? || a.Cleanup? || (a.Advance? && s.pc[t].FinishLocked?)
    ensures |Apply(s, t, a).w.prims| == |s.w.prims|
    ensures Apply(s, t, a).w.prims[u] == s.w.prims[u]
  {
    hide UpdateNextMap, FirstUsed, Retire, SelfLinks;
  }

  /** The scavenger table is written under the lock, or by a host about its own scavenger's init. */
  lemma TableIsGuarded(s: Sys, t: nat, a: Action)
    requires Enabled(s, t, a) && Apply(s, t, a).w.ss != s.w.ss
    ensures a.Advance?
    ensures Holds(s.pc[t]) || s.pc[t].Initing?
    ensures s.pc[t].Initing? ==>
      && s.pc[t].pos < |s.w.prims[t].idx|
      && var i := s.w.prims[t].idx[s.pc[t].pos];
         && 0 <= i < |s.w.ss| && |Apply(s, t, a).w.ss| == |s.w.ss|
         && Apply(s, t, a).w.ss == s.w.ss[i := Apply(s, t, a).w.ss[i]]
  {
    hide UpdateNextMap, SetSpecialNext, FirstUsed, Count, Retire, Swap, StealOne, PoolOne, SelfLinks;
  }

  // ----- The primary's own context -----------------------------------------------------------------

  /** The primary's saved stack pointer, instruction pointer and registers are the same. */
  predicate SamePrimary(p: Prim, p': Prim) {
    && 0 < |p.ycs| && 0 < |p.regs| && 0 < |p'.ycs| && 0 < |p'.regs|
    && p'.ycs[0].sp == p.ycs[0].sp && p'.ycs[0].ip == p.ycs[0].ip && p'.regs[0] == p.regs[0]
  }

  lemma LinksKeepPrimary(p: Prim)
    requires WellShaped(p)
    ensures SamePrimary(p, UpdateNextMap(p)) && WellShaped(UpdateNextMap(p))
    ensures SamePrimary(p, SetSpecialNext(p)) && WellShaped(SetSpecialNext(p))
    ensures SamePrimary(p, SelfLinks(p)) && WellShaped(SelfLinks(p))
    ensures forall v :: SamePrimary(p, SetNormal(p, 0, v)) && WellShaped(SetNormal(p, 0, v))
  {
    hide FirstLive;
  }

  lemma AfterFinishKeepsPrimary(s: Sys, t: nat)
    requires t < |s.pc| == |s.w.prims| && WellShaped(s.w.prims[t])
    ensures |AfterFinish(s, t).w.prims| == |s.w.prims| && SamePrimary(s.w.prims[t], AfterFinish(s, t).w.prims[t])
  {
    hide UpdateNextMap, FirstUsed;
    LinksKeepPrimary(s.w.prims[t]);
    LinksKeepPrimary(UpdateNextMap(s.w.prims[t]));
  }

  lemma SwapKeepsPrimary(p: Prim, a: nat, b: nat)
    requires WellShaped(p) && 1 <= a < b < |p.idx|
    ensures SamePrimary(p, SwapPrim(p, a, b))
  {
  }

  lemma StealKeepsPrimary(x: Pair, t: nat)
    requires SoundPair(x)
    ensures
      var y := StealOne(x, t).0;
      SamePrimary(x.from, y.from) && SamePrimary(x.to, y.to)
  {
    hide IdxInRange;
  }

  lemma PoolKeepsPrimary(l: Local, t: nat, i: nat)
    requires Sound(l) && i < |l.ss|
    ensures SamePrimary(l.p, PoolOne(l, t, i).0.p)
  {
    hide IdxInRange;
  }

  lemma AllocatedKeepsPrimary(s: Sys, t: nat, who: Caller, got: nat, p: Prim)
    requires t < |s.pc| == |s.w.prims| && WellShaped(p)
    ensures |Allocated(s, t, who, got, p).w.prims| == |s.w.prims|
    ensures SamePrimary(p, Allocated(s, t, who, got, p).w.prims[t])
  {
    hide UpdateNextMap;
    LinksKeepPrimary(p);
  }

  lemma AdvanceKeepsPrimary(s: Sys, t: nat, e: InitEffect)
    requires Enabled(s, t, Advance(e))
    ensures |DoAdvance(s, t, e).w.prims| == |s.w.prims| && SamePrimary(s.w.prims[t], DoAdvance(s, t, e).w.prims[t])
  {
    hide UpdateNextMap, SetSpecialNext, FirstUsed, SwapPrim, StealOne, PoolOne, AfterFinish, Allocated;
    var p := s.w.prims[t];
    match s.pc[t]
    case FinishLocked(pos) =>
      AfterFinishKeepsPrimary(Unlocked(s.(w := WithLocal(s.w, t, Retire(LocalOf(s.w, t), pos)))), t);
    case Packing(_) => {
      LinksKeepPrimary(p);
      LinksKeepPrimary(SetSpecialNext(p));
    }
    case SwapLocked(a, b) => SwapKeepsPrimary(p, a, b);
    case Stealing(_, _, d, _, _) => StealKeepsPrimary(Pair(s.w.prims[d], p, s.w.ss), t);
    case Pool(_, _, i, _) => {
      if i < |s.w.ss| {
        PoolKeepsPrimary(LocalOf(s.w, t), t, i);
      }
    }
    case Initing(who, pos, got) => {
      if pos == s.slots {
        LinksKeepPrimary(p);
        AllocatedKeepsPrimary(s, t, who, got, SetSpecialNext(p));
      }
    }
    case _ =>
  }

  lemma EventKeepsPrimary(s: Sys, t: nat, a: Action)
    requires Enabled(s, t, a) && !a.Advance? && !a.Save?
    ensures |Apply(s, t, a).w.prims| == |s.w.prims| && SamePrimary(s.w.prims[t], Apply(s, t, a).w.prims[t])
  {
    hide UpdateNextMap, FirstUsed, SelfLinks, AfterFinish, Count;
    var p := s.w.prims[t];
    LinksKeepPrimary(p);
    if a.Finish? {
      var f := if a.pos == 0 then 0 else 1;
      AfterFinishKeepsPrimary(Put(s, t, SetNormal(p, a.pos, EMPTY), s.pc[t]).(
        finishedCnt := s.finishedCnt + f, misses := s.misses + f), t);
    } else if a.Cleanup? {
      LinksKeepPrimary(SelfLinks(p));
      AfterFinishKeepsPrimary(Put(s, t, SetNormal(SelfLinks(p), 0, EMPTY), s.pc[t]), t);
    } else if a.TryExit? {
      LinksKeepPrimary(p.(reallocatable := false));
    }
  }

  /** An action saves the primary's context, or leaves every primary's context as it is. */
  lemma ActionKeepsPrimary(s: Sys, act: Act, u: nat)
    requires Enabled(s, act.t, act.a) && u < |s.pc|
    ensures |Apply(s, act.t, act.a).w.prims| == |s.w.prims| == |s.pc|
    ensures
      var p, p' := s.w.prims[u], Apply(s, act.t, act.a).w.prims[u];
      if act.t == u && act.a.Save? && act.a.pos == 0 then
        && 0 < |p'.ycs| && 0 < |p'.regs|
        && p'.ycs[0].sp == act.a.v.sp && p'.ycs[0].ip == act.a.v.ip && p'.regs[0] == act.a.v.regs
      else SamePrimary(p, p')
  {
    if u == act.t {
      if act.a.Advance? {
        AdvanceKeepsPrimary(s, u, act.a.e);
        hide DoAdvance;
      } else if !act.a.Save? {
        hide Apply;
        EventKeepsPrimary(s, u, act.a);
      }
    } else {
      OthersKeepPrimary(s, act, u);
    }
  }

  lemma OthersKeepPrimary(s: Sys, act: Act, u: nat)
    requires Enabled(s, act.t, act.a) && u < |s.pc| && u != act.t
    ensures |Apply(s, act.t, act.a).w.prims| == |s.w.prims| == |s.pc|
    ensures SamePrimary(s.w.prims[u], Apply(s, act.t, act.a).w.prims[u])
  {
    if u in Touches(s, act.t) {
      var t := act.t;
      StealKeepsPrimary(Pair(s.w.prims[u], s.w.prims[t], s.w.ss), t);
      hide StealOne;
    } else {
      hide Apply;
      ActionsStayInside(s, act.t, act.a, u);
    }
  }

  /**
    Between two points of a run at which thread t did not save its primary's context, that context is
    the same, whatever else happened: scavengers finishing and moving, thefts, allocation, cleanup.
   */
  lemma {:induction false} PrimarySurvives(trace: seq<Sys>, acts: seq<Act>, j: nat, k: nat, t: nat)
    requires RunBy(trace, acts) && j <= k <= |acts| && t < |trace[j].pc| == |trace[j].w.prims|
    requires 0 < |trace[j].w.prims[t].ycs| && 0 < |trace[j].w.prims[t].regs|
    requires forall m :: j <= m < k ==> !(acts[m].t == t && acts[m].a.Save? && acts[m].a.pos == 0)
    ensures t < |trace[k].pc| == |trace[k].w.prims| && SamePrimary(trace[j].w.prims[t], trace[k].w.prims[t])
    decreases k - j
  {
    hide Enabled, Apply;
    if j < k {
      PrimarySurvives(trace, acts, j, k - 1, t);
      assert Does(trace[k - 1], acts[k - 1], trace[k - 1 + 1]);
      ActionKeepsPrimary(trace[k - 1], acts[k - 1], t);
      PcCount(trace[k - 1], acts[k - 1]);
    }
  }

  /** A thread that has just been created counts in scav_num the scavengers it hosts. */
  lemma BirthCounts(trace: seq<Sys>, acts: seq<Act>, k: nat)
    requires RunBy(trace, acts) && k < |acts| && Does(trace[k], acts[k], trace[k + 1])
    requires
      var t := acts[k].t;
      acts[k].a.Create? || (t < |trace[k].pc| && trace[k].pc[t].Initing? && trace[k].pc[t].who.Birth?)
    requires acts[k].t < |trace[k + 1].pc| && trace[k + 1].pc[acts[k].t].Running?
    ensures acts[k].t < |trace[k + 1].w.prims|
    ensures
      var p := trace[k + 1].w.prims[acts[k].t];
      p.scavNum == Count(p.idx) && !p.reallocatable && !p.reallocated
      && 0 < |p.ycs| && p.ycs[0].normal == if Count(p.idx) == 0 then 0 else 20
  {
    var s, t := trace[k], acts[k].t;
    RunByIsRun(trace, acts);
    RunKeepsInv(trace, k);
    hide Run, RunBy;
    assert ThreadOK(s.w.prims[t], s.pc[t], s.w.ss, s.max);
    hide LockOK, FlagOK, Placed, ScavsOK, CountOK, Count, InitOne, UpdateNextMap;
    if acts[k].a.Advance? {
      SpecialKeepsShape(s.w.prims[t]);
      hide SetSpecialNext;
      assert s.pc[t].pos == s.slots;
    }
  }

  // ----- The blockable-call handshake ------------------------------------------------------------

  lemma SnapKept(s: Sys, u: nat, a: Action, t: nat)
    requires Enabled(s, u, a) && t < |s.pc|
    ensures |Apply(s, u, a).pc| == |s.pc|
    ensures AtCall(Apply(s, u, a).pc[t]) && AtCall(s.pc[t]) ==> Apply(s, u, a).pc[t].snap == s.pc[t].snap
    ensures AtCall(Apply(s, u, a).pc[t]) && !AtCall(s.pc[t]) ==> Apply(s, u, a).pc[t].snap == s.w.prims[t]
  {
    PcOfOthers(s, u, a);
    if u == t {
      if a.Advance? {
        hide Apply, DoAdvance;
        AdvanceStaysOut(s, u, a.e);
      } else {
        hide DoAdvance, UpdateNextMap, FirstUsed, Count, SelfLinks, WorldShape;
      }
    } else {
      hide Apply;
    }
  }

  lemma {:induction false} SnapOverCall(trace: seq<Sys>, j: nat, k: nat, t: nat)
    requires Run(trace) && j < k < |trace| && t < |trace[j].pc| && !AtCall(trace[j].pc[t])
    requires forall i :: j < i <= k ==> t < |trace[i].pc| && AtCall(trace[i].pc[t])
    ensures t < |trace[j].w.prims| && AtCall(trace[k].pc[t]) && trace[k].pc[t].snap == trace[j].w.prims[t]
    decreases k
  {
    hide Apply, Init, WorldShape, PcTyped;
    assert Step(trace[k - 1], trace[k - 1 + 1]);
    var u: nat, a: Action :| Enabled(trace[k - 1], u, a) && trace[k] == Apply(trace[k - 1], u, a);
    if j < k - 1 {
      SnapOverCall(trace, j, k - 1, t);
    }
    SnapKept(trace[k - 1], u, a, t);
  }

  /**
    From the last state before a thread enters a blockable call to any state inside the call: if
    `reallocated` is false its context is exactly what it was, and if it is true a proper suffix of
    its scavengers is gone and everything else is what it was.
   */
  lemma HandshakeOverCall(trace: seq<Sys>, j: nat, k: nat, t: nat)
    requires Run(trace) && j < k < |trace| && t < |trace[j].pc| && !AtCall(trace[j].pc[t])
    requires forall i :: j < i <= k ==> t < |trace[i].pc| && AtCall(trace[i].pc[t])
    ensures t < |trace[j].w.prims| && t < |trace[k].w.prims|
    ensures
      var before, now := trace[j].w.prims[t], trace[k].w.prims[t];
      && (!now.reallocated ==> now == before.(reallocatable := now.reallocatable))
      && (now.reallocated ==>
        Count(now.idx) < Count(before.idx) && LostSuffix(before, now, Count(now.idx)))
  {
    SnapOverCall(trace, j, k, t);
    RunKeepsInv(trace, k);
    var s := trace[k];
    assert ThreadOK(s.w.prims[t], s.pc[t], s.w.ss, s.max);
  }

  // ----- Work conservation -----------------------------------------------------------------------

  /** What a pool scan has passed is no longer in the pool. */
  predicate PoolScanned(s: Sys) {
    forall t :: 0 <= t < |s.pc| && s.pc[t].Pool? ==>
      forall j :: 0 <= j < s.pc[t].i && j < |s.w.ss| ==> !InPool(s.w.ss[j])
  }

  lemma ActionScans(s: Sys, t: nat, a: Action)
    requires Enabled(s, t, a) && PoolScanned(s)
    ensures PoolScanned(Apply(s, t, a))
  {
    var s' := Apply(s, t, a);
    ActionEvolves(s, t, a);
    PcOfOthers(s, t, a);
    if s'.pc[t].Pool? {
      PoolRound(s, t, a.e);
    }
    hide Apply, Enabled;
    forall u | 0 <= u < |s'.pc| && s'.pc[u].Pool?
      ensures forall j :: 0 <= j < s'.pc[u].i && j < |s'.w.ss| ==> !InPool(s'.w.ss[j])
    {
      forall j | 0 <= j < s'.pc[u].i && j < |s'.w.ss| ensures !InPool(s'.w.ss[j]) {
        assert Evolves(s.w.ss[j], s'.w.ss[j]);
      }
    }
  }

  lemma PcOfOthers(s: Sys, t: nat, a: Action)
    requires Enabled(s, t, a)
    ensures
      var s' := Apply(s, t, a);
      && |s'.pc| == |s.pc|
      && (forall u :: 0 <= u < |s.pc| && u != t ==> s'.pc[u] == s.pc[u])
      && (s'.pc[t].Pool? ==> a.Advance? && (s.pc[t].Donors? || s.pc[t].Pool?))
  {
    hide UpdateNextMap, SetSpecialNext, FirstUsed, Count, Retire, Swap, StealOne, InitOne, SelfLinks,
      PoolOne, WorldShape, NeedMore;
    if a.Finish? || a.Cleanup? || (a.Advance? && s.pc[t].FinishLocked?) {
      hide AfterFinish;
      EventPcs(s, t, a);
    }
  }

  lemma EventPcs(s: Sys, t: nat, a: Action)
    requires Enabled(s, t, a)
    requires a.Finish? || a.Cleanup? || (a.Advance? && s.pc[t].FinishLocked?)
    ensures
      var s' := Apply(s, t, a);
      && |s'.pc| == |s.pc|
      && (forall u :: 0 <= u < |s.pc| && u != t ==> s'.pc[u] == s.pc[u])
      && !s'.pc[t].Pool? && !AtCall(s'.pc[t])
  {
    hide UpdateNextMap, FirstUsed, Retire, SelfLinks, WorldShape;
  }

  lemma AdvanceStaysOut(s: Sys, t: nat, e: InitEffect)
    requires Enabled(s, t, Advance(e))
    ensures
      var s' := Apply(s, t, Advance(e));
      |s'.pc| == |s.pc| && !AtCall(s'.pc[t])
  {
    if s.pc[t].FinishLocked? {
      hide Apply;
      EventPcs(s, t, Advance(e));
    } else {
      hide UpdateNextMap, SetSpecialNext, FirstUsed, Count, Swap, StealOne, InitOne, PoolOne, WorldShape, NeedMore;
    }
  }

  /** One round of a pool scan moves on by one entry, which is then not in the pool. */
  lemma PoolRound(s: Sys, t: nat, e: InitEffect)
    requires Enabled(s, t, Advance(e)) && (s.pc[t].Donors? || s.pc[t].Pool?)
    requires Apply(s, t, Advance(e)).pc[t].Pool?
    ensures
      var s' := Apply(s, t, Advance(e));
      || (s.pc[t].Donors? && s'.pc[t].i == 0)
      || (s.pc[t].Pool? && s'.pc[t].i == s.pc[t].i + 1 && s.pc[t].i < |s.w.ss| == |s'.w.ss|
          && !InPool(s'.w.ss[s.pc[t].i]))
  {
    hide WorldShape;
  }

  lemma {:induction false} RunScans(trace: seq<Sys>, k: nat)
    requires Run(trace) && k < |trace|
    ensures PoolScanned(trace[k])
  {
    if k > 0 {
      RunScans(trace, k - 1);
      assert Step(trace[k - 1], trace[k - 1 + 1]);
      var t: nat, a: Action :| Enabled(trace[k - 1], t, a) && trace[k] == Apply(trace[k - 1], t, a);
      ActionScans(trace[k - 1], t, a);
    }
  }

  /**
    When a thread leaves the pool loop with less than it needs, then at that moment no loaded
    scavenger is left in the pool, or the thread has no free slot.
   */
  lemma WorkConservation(trace: seq<Sys>, k: nat, t: nat, e: InitEffect)
    requires Run(trace) && k < |trace| && Enabled(trace[k], t, Advance(e)) && trace[k].pc[t].Pool?
    requires
      var c' := Apply(trace[k], t, Advance(e)).pc[t];
      c'.Initing? && c'.got < trace[k].pc[t].need
    ensures
      var w := Apply(trace[k], t, Advance(e)).w;
      || FirstFree(w.prims[t].idx, 1) == -1
      || forall i :: 0 <= i < |w.ss| && w.ss[i].loaded ==> w.ss[i].yc.Some? || w.ss[i].finished
  {
    RunScans(trace, k);
  }

  // ----- Lock ------------------------------------------------------------------------------------

  /** In every state of every run, at most one thread holds the lock, and its byte is 0 iff none does. */
  lemma LockOverRuns(trace: seq<Sys>, k: nat, t: nat, u: nat)
    requires Run(trace) && k < |trace| && t < |trace[k].pc| && u < |trace[k].pc|
    ensures Holds(trace[k].pc[t]) && Holds(trace[k].pc[u]) ==> t == u
    ensures trace[k].lock == 0 <==> forall v :: 0 <= v < |trace[k].pc| ==> !Holds(trace[k].pc[v])
  {
    RunKeepsInv(trace, k);
  }

  // ----- Stale links -----------------------------------------------------------------------------

  predicate Unlinked(c: Pc) {
    (c.Running? || AtCall(c)) && !c.linked
  }

  /** Thread t leaves a call in which it was robbed, but still has the cap: it relinks nothing. */
  predicate StaleExit(s: Sys, act: Act, t: nat)
    requires Enabled(s, act.t, act.a)
  {
    && act.t == t && act.a.TryExit?
    && s.w.prims[t].reallocatable && s.w.prims[t].reallocated && Count(s.w.prims[t].idx) >= s.max
  }

  /** The action is not by t, or a call, a save or an exit: it does not set t's special links. */
  predicate KeepsLinks(act: Act, t: nat) {
    act.t == t ==> act.a.Enter? || act.a.Return? || act.a.TryExit? || act.a.Save?
  }

  predicate Calm(c: Pc) {
    c.Running? || AtCall(c)
  }

  lemma ActionUnlinks(s: Sys, act: Act, t: nat)
    requires Enabled(s, act.t, act.a) && t < |s.pc|
    ensures |Apply(s, act.t, act.a).pc| == |s.pc|
    ensures
      var c, c' := s.pc[t], Apply(s, act.t, act.a).pc[t];
      && (Unlinked(c') <==> StaleExit(s, act, t) || (KeepsLinks(act, t) && Unlinked(c) && Calm(c')))
      && (StaleExit(s, act, t) ==> Calm(c'))
      && (KeepsLinks(act, t) && Calm(c') ==> Calm(c))
  {
    PcOfOthers(s, act.t, act.a);
    if act.t == t {
      if act.a.Advance? {
        AdvanceLinks(s, t, act.a.e);
        hide Apply, Enabled;
      } else {
        hide DoAdvance, UpdateNextMap, FirstUsed, SelfLinks, WorldShape;
      }
    } else {
      hide Apply, Enabled;
    }
  }

  /** Step j of the run left t's special links stale, and nothing up to step k has set them since. */
  predicate StaleSince(trace: seq<Sys>, acts: seq<Act>, j: nat, k: nat, t: nat)
    requires RunBy(trace, acts) && k <= |acts|
  {
    && j < k && Does(trace[j], acts[j], trace[j + 1]) && StaleExit(trace[j], acts[j], t)
    && forall m :: j < m < k ==> KeepsLinks(acts[m], t)
  }

  lemma {:induction false} UnlinkedSince(trace: seq<Sys>, acts: seq<Act>, k: nat, t: nat)
    requires RunBy(trace, acts) && k <= |acts| && t < |trace[k].pc|
    ensures Unlinked(trace[k].pc[t]) <==>
      Calm(trace[k].pc[t]) && exists j :: 0 <= j < k && StaleSince(trace, acts, j, k, t)
  {
    hide Enabled, Apply, StaleExit, KeepsLinks;
    if k > 0 {
      var i := k - 1;
      assert Does(trace[i], acts[i], trace[i + 1]);
      PcCount(trace[i], acts[i]);
      UnlinkedSince(trace, acts, i, t);
      ActionUnlinks(trace[i], acts[i], t);
      hide Unlinked, Calm;
      if StaleExit(trace[i], acts[i], t) {
        assert StaleSince(trace, acts, i, k, t);
      } else if KeepsLinks(acts[i], t) {
        forall j | 0 <= j < i ensures StaleSince(trace, acts, j, i, t) <==> StaleSince(trace, acts, j, k, t) {
        }
      } else {
        forall j | 0 <= j < k ensures !StaleSince(trace, acts, j, k, t) {
        }
      }
    }
  }

  lemma PcCount(s: Sys, act: Act)
    requires Enabled(s, act.t, act.a)
    ensures |Apply(s, act.t, act.a).pc| == |s.pc|
  {
    PcOfOthers(s, act.t, act.a);
  }

  /**
    The ring of a running thread with n scavengers and a free last slot is broken in one way only:
    some time before, the thread left a call in which it had been robbed, with at least the cap
    of scavengers left, and since then no finish event or allocation has set its links again.
   */
  lemma StaleOnlyAfterTheft(trace: seq<Sys>, acts: seq<Act>, k: nat, t: nat)
    requires RunBy(trace, acts) && k <= |acts| && t < |trace[k].pc| && trace[k].pc[t].Running?
    ensures t < |trace[k].w.prims| && WellShaped(trace[k].w.prims[t])
    ensures
      var p := trace[k].w.prims[t];
      var n := Count(p.idx);
      1 <= n < |p.idx| - 1 ==>
        (!Ring(p, n) <==> exists j :: 0 <= j < k && StaleSince(trace, acts, j, k, t))
  {
    RunByIsRun(trace, acts);
    LinksOverRuns(trace, k, t);
    UnlinkedSince(trace, acts, k, t);
  }

  /** With a cap below 2 no thread ever loses its ring: a robbed thread has nothing left to link. */
  lemma CapOneKeepsRing(trace: seq<Sys>, k: nat, t: nat)
    requires Run(trace) && k < |trace| && t < |trace[k].pc| && trace[k].pc[t].Running? && trace[k].max <= 1
    ensures t < |trace[k].w.prims| && WellShaped(trace[k].w.prims[t])
    ensures
      var p := trace[k].w.prims[t];
      1 <= Count(p.idx) < |p.idx| - 1 ==> Ring(p, Count(p.idx))
  {
    LinksOverRuns(trace, k, t);
    var p := trace[k].w.prims[t];
    HostedBound(trace, k, t);
    if 1 <= Count(p.idx) < |p.idx| - 1 {
      var acts := RunHasActs(trace);
      hide Enabled, Apply, Inv, StaleExit, Ring;
      StaleOnlyAfterTheft(trace, acts, k, t);
      forall j | 0 <= j < k ensures !StaleSince(trace, acts, j, k, t) {
        MaxOverRun(trace, acts, j, k);
        RunKeepsInv(trace, j);
        assert Does(trace[j], acts[j], trace[j + 1]);
        NoStaleExit(trace[j], acts[j], t);
      }
    }
  }

  lemma MaxKept(s: Sys, act: Act)
    requires Enabled(s, act.t, act.a)
    ensures Apply(s, act.t, act.a).max == s.max
  {
    hide UpdateNextMap, SetSpecialNext, FirstUsed, Count, Retire, Swap, StealOne, PoolOne, InitOne,
      SelfLinks, WorldShape;
  }

  lemma {:induction false} MaxOverRun(trace: seq<Sys>, acts: seq<Act>, j: nat, k: nat)
    requires RunBy(trace, acts) && j <= k <= |acts|
    ensures trace[k].max == trace[j].max
    decreases k - j
  {
    hide Enabled, Apply;
    if j < k {
      MaxOverRun(trace, acts, j, k - 1);
      assert Does(trace[k - 1], acts[k - 1], trace[k - 1 + 1]);
      MaxKept(trace[k - 1], acts[k - 1]);
    }
  }

  lemma NoStaleExit(s: Sys, act: Act, t: nat)
    requires Inv(s) && Enabled(s, act.t, act.a) && s.max == 1
    ensures !StaleExit(s, act, t)
  {
    if act.a.TryExit? {
      assert ThreadOK(s.w.prims[act.t], s.pc[act.t], s.w.ss, s.max);
    }
  }

  lemma AdvanceLinks(s: Sys, t: nat, e: InitEffect)
    requires Enabled(s, t, Advance(e))
    ensures
      var s' := Apply(s, t, Advance(e));
      |s'.pc| == |s.pc| && !Unlinked(s'.pc[t])
  {
    hide WorldShape;
    match s.pc[t]
    case FinishLocked(_) => {
      hide UpdateNextMap, FirstUsed, Retire;
    }
    case Packing(_) => {
      hide UpdateNextMap, SetSpecialNext, FirstUsed, NeedMore;
    }
    case Stealing(_, _, _, _, _) => {
      hide StealOne;
    }
    case Pool(_, _, _, _) => {
      hide PoolOne;
    }
    case Initing(_, _, _) => {
      hide InitOne, UpdateNextMap, SetSpecialNext;
    }
    case SwapLocked(_, _) => {
      hide Swap;
    }
    case _ =>
  }

  // ----- What a reachable state offers to the events ----------------------------------------------

  /**
    In every state of every run each thread meets the assumptions of the event theorems: FinishEvent
    and AllocateScavKeepsSteady while its primary runs, AllocationExact and OverallocatesIff when it is
    about to allocate, ExitRestoresRingIff behind its successful CAS, CleanupDrainsIff in cleanup.
   */
  lemma RunsMeetEvents(trace: seq<Sys>, k: nat, t: nat)
    requires Run(trace) && k < |trace| && t < |trace[k].pc|
    ensures t < |trace[k].w.prims| && Sound(LocalOf(trace[k].w, t))
    ensures Events.LocallyPlaced(LocalOf(trace[k].w, t), t)
    ensures trace[k].pc[t].Running? ==>
      && Events.DonorsReady(trace[k].w, t, trace[k].slots)
      && trace[k].w.prims[t].ycs[0].normal != EMPTY && 0 <= trace[k].w.prims[t].scavNum
    ensures Events.AllKnown(trace[k].w)
    ensures trace[k].pc[t].AllocWait? ==>
      && Events.DonorsReady(trace[k].w, t, trace[k].slots)
      && 1 <= trace[k].pc[t].need == NeedMore(trace[k].w.prims[t], trace[k].max)
    ensures trace[k].pc[t].Exiting? && trace[k].w.prims[t].reallocatable ==>
      var p := trace[k].w.prims[t].(reallocatable := false);
      && Events.DonorsReady(WithLocal(trace[k].w, t, Local(p, trace[k].w.ss)), t, trace[k].slots)
      && p.ycs[0].normal != EMPTY && 0 <= p.scavNum
      && WellShaped(trace[k].pc[t].snap) && Linked(trace[k].pc[t].snap, trace[k].pc[t].linked)
      && Handshake(trace[k].pc[t].snap, p)
    ensures trace[k].pc[t].Draining? ==> Events.Dead(trace[k].w.prims[t])
  {
    hide ThreadOK, Steady, Linked, CountOK, ScavsOK, LockOK, Handshake, Run;
    RunKeepsInv(trace, k);
    var s := trace[k];
    ReadyThreads(s);
    ReadyThread(s.w.prims[t], s.pc[t], s.w.ss, s.max);
    AskingThread(s, t);
    HostsAreKnown(s);
  }

  lemma AskingThread(s: Sys, t: nat)
    requires Inv(s) && t < |s.pc|
    ensures s.pc[t].AllocWait? ==>
      && Steady(s.w.prims[t]) && !s.w.prims[t].reallocatable
      && 1 <= s.pc[t].need == NeedMore(s.w.prims[t], s.max)
  {
    if s.pc[t].AllocWait? {
      assert PcTyped(s, t);
      assert ThreadOK(s.w.prims[t], s.pc[t], s.w.ss, s.max);
      AllocatedFlag(s, t);
    }
  }

  lemma HostsAreKnown(s: Sys)
    requires Inv(s)
    ensures Events.AllKnown(s.w)
  {
    hide LockOK, FlagOK, ScavsOK, ThreadsOK, CountOK;
    forall d | 0 <= d < |s.w.prims| ensures Events.ListKnown(s.w.prims[d].idx, s.w.ss) {
      forall q | 0 <= q < |s.w.prims[d].idx| && s.w.prims[d].idx[q] != EMPTY
        ensures 0 <= s.w.prims[d].idx[q] < |s.w.ss| && s.w.ss[s.w.prims[d].idx[q]].yc.Some?
      {
        assert LivesAt(s.w.ss, s.w.prims[d].idx[q], d, q);
      }
    }
  }

  lemma ReadyThread(p: Prim, c: Pc, ss: seq<Scav>, max: int)
    requires WellShaped(p) && IdxInRange(p.idx, |ss|) && ThreadOK(p, c, ss, max)
    ensures p.idx[0] == EMPTY && 0 <= p.scavNum
    ensures c.Running? || c.Exiting? ==> p.ycs[0].normal != EMPTY
    ensures c.Draining? ==> Events.Dead(p)
    ensures c.Exiting? ==>
      && Handshake(c.snap, p.(reallocatable := false)) && WellShaped(c.snap) && Linked(c.snap, c.linked)
      && Steady(p.(reallocatable := false))
  {
  }

  lemma ReadyThreads(s: Sys)
    requires Inv(s)
    ensures forall d :: 0 <= d < |s.pc| && (s.pc[d].Running? || s.w.prims[d].reallocatable) ==> Steady(s.w.prims[d])
  {
    hide Placed, CountOK, ScavsOK, LockOK, Prefix, LiveSlots, Handshake;
    forall d | 0 <= d < |s.pc| && (s.pc[d].Running? || s.w.prims[d].reallocatable)
      ensures Steady(s.w.prims[d])
    {
      assert ThreadOK(s.w.prims[d], s.pc[d], s.w.ss, s.max);
    }
  }
}
