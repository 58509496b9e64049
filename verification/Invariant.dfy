/** What every reachable state of the protocol satisfies. */
module Invariant {
  import opened Wrappers
  import opened Tables
  import opened SlotList
  import opened Scheduler
  import opened Allocator
  import opened Protocol

  // ----- Placement -----------------------------------------------------------------------------

  /** Scavenger i lives in slot q of thread t and knows it, in bytes or (once moved) in slots. */
  predicate LivesAt(ss: seq<Scav>, i: int, t: nat, q: nat) {
    && 0 <= i < |ss| && 1 <= q
    && ss[i].yc == Some(Loc(t, q)) && ss[i].loaded && !ss[i].finished
    && (ss[i].crtPos == q || ss[i].crtPos == q * YC_SIZE)
  }

  predicate PointsHome(w: World, i: nat)
    requires i < |w.ss| && w.ss[i].yc.Some?
  {
    var at := w.ss[i].yc.value;
    at.tid < |w.prims| && at.pos < |w.prims[at.tid].idx| && w.prims[at.tid].idx[at.pos] == i
  }

  /** The index lists and the scavengers' `yc` pointers are inverse to each other. */
  predicate Placed(w: World) {
    && (forall t, q :: 0 <= t < |w.prims| && 0 <= q < |w.prims[t].idx| && w.prims[t].idx[q] != EMPTY ==>
      LivesAt(w.ss, w.prims[t].idx[q], t, q))
    && (forall i :: 0 <= i < |w.ss| && w.ss[i].yc.Some? ==> PointsHome(w, i))
  }

  /** Lifecycle and init bookkeeping of one scavenger. */
  predicate ScavOK(c: Scav) {
    && (c.finished ==> c.loaded && c.yc.None?)
    && (c.inited ==> c.hasInit)
    && c.initCalls == if c.inited then 1 else 0
  }

  predicate ScavsOK(ss: seq<Scav>) {
    forall i :: 0 <= i < |ss| ==> ScavOK(ss[i])
  }

  // ----- Lock and flags ------------------------------------------------------------------------

  predicate LockOK(s: Sys) {
    && (s.lock == 0 || s.lock == 1)
    && (s.lock == 0 <==> forall t :: 0 <= t < |s.pc| ==> !Holds(s.pc[t]))
    && (forall t, u :: 0 <= t < |s.pc| && 0 <= u < |s.pc| && Holds(s.pc[t]) && Holds(s.pc[u]) ==> t == u)
  }

  predicate Robs(c: Pc, d: nat) {
    c.Stealing? && c.d == d
  }

  /** A flag is up exactly while its owner is in a call and nobody is stealing from it. */
  predicate FlagOK(s: Sys)
    requires |s.pc| == |s.w.prims|
  {
    forall d :: 0 <= d < |s.pc| ==>
      && (s.w.prims[d].reallocatable ==> AtCall(s.pc[d]))
      && (AtCall(s.pc[d]) && !s.w.prims[d].reallocatable ==>
        exists u :: 0 <= u < |s.pc| && Robs(s.pc[u], d))
      && (forall u :: 0 <= u < |s.pc| && Robs(s.pc[u], d) ==>
        AtCall(s.pc[d]) && !s.w.prims[d].reallocatable)
  }

  // ----- One thread ----------------------------------------------------------------------------

  predicate Steady(p: Prim)
    requires WellShaped(p)
  {
    Prefix(p.idx) && LiveSlots(p)
  }

  /** A slot is runnable exactly if it is used; slot `but` is left out. */
  predicate SlotsAgreeBut(p: Prim, but: nat)
    requires WellShaped(p)
  {
    forall q :: 1 <= q < |p.idx| && q != but ==> (p.ycs[q].normal != EMPTY <==> p.idx[q] != EMPTY)
  }

  predicate LiveSlotsBut(p: Prim, but: nat)
    requires WellShaped(p)
  {
    forall q :: 1 <= q < |p.idx| && q != but ==>
      p.ycs[q].normal == if p.idx[q] == EMPTY then EMPTY else 0
  }

  /** No hole below `pos` has a used slot behind it. */
  predicate PackedTo(idx: seq<int>, pos: nat) {
    forall q, r :: 1 <= q < pos && q < r < |idx| && idx[q] == EMPTY ==> idx[r] == EMPTY
  }

  predicate InitedBelow(idx: seq<int>, ss: seq<Scav>, pos: nat)
    requires IdxInRange(idx, |ss|)
  {
    forall q :: 1 <= q < pos && q < |idx| && idx[q] != EMPTY ==> !NeedsInit(ss[idx[q]])
  }

  predicate AllInited(idx: seq<int>, ss: seq<Scav>)
    requires IdxInRange(idx, |ss|)
  {
    InitedBelow(idx, ss, |idx|)
  }

  /** The bound on hosted scavengers. */
  function Cap(max: int): int {
    if max >= 1 then 2 * max - 1 else 0
  }

  /**
    A live primary between events: its link names the first used slot, every scavenger links to the
    next slot, and the last one back to the primary exactly if `linked` and the last slot is free.
   */
  predicate Linked(p: Prim, linked: bool)
    requires WellShaped(p)
  {
    && Steady(p)
    && p.ycs[0].normal == YC_SIZE * FirstUsed(p.idx, 1)
    && LinksSet(p, Count(p.idx), linked && Count(p.idx) < |p.idx| - 1)
  }

  /** The donor's context against its snapshot: exactly the scavengers behind slot r are gone. */
  predicate LostSuffix(snap: Prim, p: Prim, r: nat) {
    && |p.idx| == |snap.idx| && |p.ycs| == |snap.ycs| == |p.idx|
    && p.regs == snap.regs && p.scavNum == snap.scavNum
    && (forall q :: 0 <= q < |p.idx| && q <= r ==> p.idx[q] == snap.idx[q] && p.ycs[q] == snap.ycs[q])
    && (forall q :: r < q < |p.idx| ==>
      p.idx[q] == EMPTY && p.ycs[q] == snap.ycs[q].(normal := EMPTY))
  }

  /** Between enter and exit: unchanged, or a proper suffix of the scavengers has been stolen. */
  predicate Handshake(snap: Prim, p: Prim) {
    if p.reallocated then Count(p.idx) < Count(snap.idx) && LostSuffix(snap, p, Count(p.idx))
    else p == snap.(reallocatable := p.reallocatable)
  }

  predicate CallerOK(who: Caller, p: Prim)
    requires WellShaped(p)
  {
    && (!who.Birth? ==> p.ycs[0].normal != EMPTY)
    && (p.reallocated ==> who.Exit?)
  }

  predicate Allocating(p: Prim, who: Caller, need: nat, got: nat, max: int)
    requires WellShaped(p)
  {
    && Steady(p) && CallerOK(who, p)
    && need <= max && Count(p.idx) == max - need + got
    && (who.Birth? ==> need == max)
  }

  predicate ThreadOK(p: Prim, c: Pc, ss: seq<Scav>, max: int)
    requires WellShaped(p) && IdxInRange(p.idx, |ss|)
  {
    && p.idx[0] == EMPTY && 0 <= p.scavNum && Count(p.idx) <= Cap(max)
    && match c
       case Unborn => Count(p.idx) == 0 && Steady(p) && !p.reallocated
       case Running(linked) => Linked(p, linked) && AllInited(p.idx, ss) && !p.reallocated
       case Draining =>
         p.ycs[0].normal == EMPTY && SlotsAgreeBut(p, 0) && AllInited(p.idx, ss) && !p.reallocated
       case Blocked(snap, linked) => InCall(p, snap, linked, ss) && Count(snap.idx) <= Cap(max)
       case Exiting(snap, linked) => InCall(p, snap, linked, ss) && Count(snap.idx) <= Cap(max)
       case FinishWait(pos) => Finishing(p, pos, ss)
       case FinishLocked(pos) => Finishing(p, pos, ss)
       case Packing(pos) => Compacting(p, pos, ss)
       case SwapWait(a, b) => Compacting(p, a, ss) && 1 <= a < |p.idx| && b != 0 && b == SwapPartner(p.idx, a)
       case SwapLocked(a, b) => Compacting(p, a, ss) && 1 <= a < |p.idx| && b != 0 && b == SwapPartner(p.idx, a)
       case AllocWait(who, need) => Allocating(p, who, need, 0, max)
       case Donors(who, need, _, got) => Allocating(p, who, need, got, max)
       case Stealing(who, need, _, got, cnt) => Allocating(p, who, need, got + cnt, max)
       case Pool(who, need, _, got) => Allocating(p, who, need, got, max)
       case Initing(who, pos, got) =>
         && Steady(p) && CallerOK(who, p) && InitedBelow(p.idx, ss, pos)
         && (who.Birth? ==> Count(p.idx) == got)
  }

  predicate InCall(p: Prim, snap: Prim, linked: bool, ss: seq<Scav>)
    requires WellShaped(p) && IdxInRange(p.idx, |ss|)
  {
    && Steady(p) && p.ycs[0].normal != EMPTY && AllInited(p.idx, ss)
    && WellShaped(snap) && Linked(snap, linked) && Handshake(snap, p)
  }

  predicate Finishing(p: Prim, pos: nat, ss: seq<Scav>)
    requires WellShaped(p) && IdxInRange(p.idx, |ss|)
  {
    && 1 <= pos < |p.idx| && p.idx[pos] != EMPTY && p.ycs[pos].normal == EMPTY
    && AllInited(p.idx, ss) && !p.reallocated
    && (if p.ycs[0].normal == EMPTY then SlotsAgreeBut(p, pos) else LiveSlotsBut(p, pos))
  }

  predicate Compacting(p: Prim, pos: nat, ss: seq<Scav>)
    requires WellShaped(p) && IdxInRange(p.idx, |ss|)
  {
    && p.ycs[0].normal != EMPTY && LiveSlots(p) && PackedTo(p.idx, pos)
    && AllInited(p.idx, ss) && !p.reallocated
  }

  // ----- The whole system ----------------------------------------------------------------------

  predicate ThreadsOK(s: Sys)
    requires Typed(s)
  {
    forall t :: 0 <= t < |s.pc| ==> ThreadOK(s.w.prims[t], s.pc[t], s.w.ss, s.max)
  }

  function Finished(ss: seq<Scav>): set<int> {
    set i | 0 <= i < |ss| && ss[i].finished
  }

  /** The threads that have counted a finish but not yet retired the scavenger. */
  function Pending(pc: seq<Pc>): set<int> {
    set t | 0 <= t < |pc| && (pc[t].FinishWait? || pc[t].FinishLocked?)
  }

  /** finished_scav_cnt counts the finished, the finishing, and the events that hit a free slot. */
  predicate CountOK(s: Sys) {
    s.finishedCnt == |Finished(s.w.ss)| + |Pending(s.pc)| + s.misses
  }

  predicate Inv(s: Sys) {
    && Typed(s) && LockOK(s) && FlagOK(s)
    && Placed(s.w) && ScavsOK(s.w.ss) && ThreadsOK(s) && CountOK(s)
  }

  lemma InitEstablishesInv(s: Sys)
    requires Init(s)
    ensures Inv(s)
  {
    assert Typed(s);
    forall t | 0 <= t < |s.pc| ensures ThreadOK(s.w.prims[t], s.pc[t], s.w.ss, s.max) {
      CountToBounds(s.w.prims[t].idx, s.slots);
    }
    assert Finished(s.w.ss) == {} && Pending(s.pc) == {};
  }

  // ----- Placement survives relocating one scavenger ---------------------------------------------

  predicate SameSpot(a: Scav, b: Scav) {
    a.yc == b.yc && a.loaded == b.loaded && a.finished == b.finished && a.crtPos == b.crtPos
  }

  predicate SameSizes(w: World, w': World) {
    && |w'.prims| == |w.prims| && |w'.ss| == |w.ss|
    && forall t :: 0 <= t < |w.prims| ==> |w'.prims[t].idx| == |w.prims[t].idx|
  }

  /** w' is w with scavenger i taken from where it was, if anywhere, to dst, if anywhere. */
  predicate Relocates(w: World, w': World, i: nat, dst: Option<Loc>)
    requires i < |w.ss|
  {
    && SameSizes(w, w')
    && (forall j :: 0 <= j < |w.ss| && j != i ==> SameSpot(w'.ss[j], w.ss[j]))
    && (forall t, q :: 0 <= t < |w.prims| && 0 <= q < |w.prims[t].idx| ==>
      w'.prims[t].idx[q] ==
        if Some(Loc(t, q)) == dst then i
        else if Some(Loc(t, q)) == w.ss[i].yc then EMPTY
        else w.prims[t].idx[q])
    && (dst.None? ==> w'.ss[i].yc.None?)
    && (dst.Some? ==>
      && dst.value.tid < |w.prims| && dst.value.pos < |w.prims[dst.value.tid].idx|
      && w.prims[dst.value.tid].idx[dst.value.pos] == EMPTY
      && LivesAt(w'.ss, i, dst.value.tid, dst.value.pos))
  }

  /** Swap, steal, pool allocation and finish all keep the tables inverse to each other. */
  lemma RelocatingKeepsPlaced(w: World, w': World, i: nat, dst: Option<Loc>)
    requires i < |w.ss| && Placed(w) && Relocates(w, w', i, dst)
    ensures Placed(w')
  {
    forall t, q | 0 <= t < |w'.prims| && 0 <= q < |w'.prims[t].idx| && w'.prims[t].idx[q] != EMPTY
      ensures LivesAt(w'.ss, w'.prims[t].idx[q], t, q)
    {
      if Some(Loc(t, q)) != dst {
        assert w'.prims[t].idx[q] == w.prims[t].idx[q];
        assert LivesAt(w.ss, w.prims[t].idx[q], t, q);
      }
    }
    forall j | 0 <= j < |w'.ss| && w'.ss[j].yc.Some? ensures PointsHome(w', j) {
      if j != i {
        assert PointsHome(w, j);
      }
    }
  }

  /** Nothing that placement is about has changed. */
  lemma PlacedKept(w: World, w': World)
    requires Placed(w) && SameSizes(w, w')
    requires forall t :: 0 <= t < |w.prims| ==> w'.prims[t].idx == w.prims[t].idx
    requires forall j :: 0 <= j < |w.ss| ==> SameSpot(w'.ss[j], w.ss[j])
    ensures Placed(w')
  {
    forall t, q | 0 <= t < |w'.prims| && 0 <= q < |w'.prims[t].idx| && w'.prims[t].idx[q] != EMPTY
      ensures LivesAt(w'.ss, w'.prims[t].idx[q], t, q)
    {
      assert LivesAt(w.ss, w.prims[t].idx[q], t, q);
    }
    forall j | 0 <= j < |w'.ss| && w'.ss[j].yc.Some? ensures PointsHome(w', j) {
      assert PointsHome(w, j);
    }
  }

  /** A scavenger is hosted by at most one slot of one thread. */
  lemma HostIsUnique(w: World, t: nat, q: nat, u: nat, r: nat)
    requires Placed(w) && t < |w.prims| && u < |w.prims|
    requires q < |w.prims[t].idx| && r < |w.prims[u].idx|
    requires w.prims[t].idx[q] == w.prims[u].idx[r] != EMPTY
    ensures t == u && q == r
  {
    assert LivesAt(w.ss, w.prims[t].idx[q], t, q);
    assert LivesAt(w.ss, w.prims[u].idx[r], u, r);
  }

  // ----- Reassembling the invariant after an action of one thread --------------------------------

  /** Init calls only ever make scavengers inited; nothing else about init changes. */
  predicate InitGrows(ss: seq<Scav>, ss': seq<Scav>) {
    && |ss'| == |ss|
    && forall i :: 0 <= i < |ss| ==> ss'[i].hasInit == ss[i].hasInit && (ss[i].inited ==> ss'[i].inited)
  }

  lemma ThreadOKKept(p: Prim, c: Pc, ss: seq<Scav>, ss': seq<Scav>, max: int)
    requires WellShaped(p) && IdxInRange(p.idx, |ss|) && ThreadOK(p, c, ss, max) && InitGrows(ss, ss')
    ensures ThreadOK(p, c, ss', max)
  {
    hide Steady, Linked, Handshake, LiveSlots, PackedTo, Count;
  }

  predicate LockMoves(s: Sys, s': Sys, t: nat)
    requires t < |s.pc| == |s'.pc|
  {
    var before, after := Holds(s.pc[t]), Holds(s'.pc[t]);
    || (before == after && s'.lock == s.lock)
    || (!before && after && s.lock == 0 && s'.lock == 1)
    || (before && !after && s'.lock == 0)
  }

  lemma LockKept(s: Sys, s': Sys, t: nat)
    requires LockOK(s) && t < |s.pc| == |s'.pc| && LockMoves(s, s', t)
    requires forall u :: 0 <= u < |s.pc| && u != t ==> s'.pc[u] == s.pc[u]
    ensures LockOK(s')
  {
    assert Holds(s.pc[t]) ==> s.lock == 1;
  }

  /** Between s and s', thread t moved within its own context. */
  predicate OwnMove(s: Sys, s': Sys, t: nat)
    requires t < |s.pc| == |s.w.prims|
  {
    && s'.slots == s.slots && s'.max == s.max
    && |s'.pc| == |s.pc| && |s'.w.prims| == |s.w.prims| && |s'.w.ss| == |s.w.ss|
    && (forall u :: 0 <= u < |s.pc| && u != t ==> s'.pc[u] == s.pc[u] && s'.w.prims[u] == s.w.prims[u])
    && Shape(s'.w.prims[t], s.slots) && IdxInRange(s'.w.prims[t].idx, |s.w.ss|)
    && InitGrows(s.w.ss, s'.w.ss)
  }

  predicate Quiet(c: Pc) {
    !AtCall(c) && !c.Stealing?
  }

  lemma TypedKept(s: Sys, s': Sys, t: nat)
    requires Typed(s) && t < |s.pc| && OwnMove(s, s', t)
    requires WorldShape(s'.w, s'.slots) ==> PcTyped(s', t)
    ensures Typed(s')
  {
    assert WorldShape(s'.w, s'.slots);
    forall u | 0 <= u < |s'.pc| ensures PcTyped(s', u) {
      assert PcTyped(s, u);
    }
  }

  lemma FlagKept(s: Sys, s': Sys, t: nat)
    requires Typed(s) && FlagOK(s) && t < |s.pc| && OwnMove(s, s', t)
    requires Quiet(s.pc[t]) && Quiet(s'.pc[t])
    requires s'.w.prims[t].reallocatable == s.w.prims[t].reallocatable
    ensures FlagOK(s')
  {
    forall d | 0 <= d < |s'.pc| && AtCall(s'.pc[d]) && !s'.w.prims[d].reallocatable
      ensures exists u :: 0 <= u < |s'.pc| && Robs(s'.pc[u], d)
    {
      var u :| 0 <= u < |s.pc| && Robs(s.pc[u], d);
      assert Robs(s'.pc[u], d);
    }
  }

  /** An action on the thread's own context keeps the invariant if it keeps its own part of it. */
  lemma OwnMoveKeepsInv(s: Sys, s': Sys, t: nat)
    requires Inv(s) && t < |s.pc| && OwnMove(s, s', t)
    requires Quiet(s.pc[t]) && Quiet(s'.pc[t])
    requires s'.w.prims[t].reallocatable == s.w.prims[t].reallocatable
    requires LockMoves(s, s', t)
    requires WorldShape(s'.w, s'.slots) ==> PcTyped(s', t)
    requires ThreadOK(s'.w.prims[t], s'.pc[t], s'.w.ss, s'.max)
    requires Placed(s'.w) && ScavsOK(s'.w.ss) && CountOK(s')
    ensures Inv(s')
  {
    hide LockOK, FlagOK, Placed, ScavsOK, CountOK, ThreadOK, PcTyped;
    TypedKept(s, s', t);
    LockKept(s, s', t);
    FlagKept(s, s', t);
    forall u | 0 <= u < |s'.pc| ensures ThreadOK(s'.w.prims[u], s'.pc[u], s'.w.ss, s'.max) {
      if u != t {
        ThreadOKKept(s.w.prims[u], s.pc[u], s.w.ss, s'.w.ss, s.max);
      }
    }
  }
}
