/**
  Why the grain of Protocol's actions is fine enough. A thread's stretches of code on its own context
  commute with every action of every other thread, so it makes no difference where within such a
  stretch the others act. What does not commute is the lock byte, the flags, and the tables that they
  guard, and of those an action has one access each.
 */
module Commute {
  import opened Wrappers
  import opened Tables
  import opened SlotList
  import opened Scheduler
  import opened Allocator
  import opened Protocol
  import opened Invariant
  import opened InvariantProof
  import opened RunTheorems

  /** An action on t's own context: no lock byte, no flag, no table entry but its own scavenger's. */
  predicate OwnAction(s: Sys, t: nat, a: Action)
    requires t < |s.pc|
  {
    match a
    case Create => true
    case Return => true
    case Finish(_) => true
    case Cleanup => true
    case Save(_, _) => true
    case Advance(_) => s.pc[t].Packing? || s.pc[t].Initing?
    case _ => false
  }

  /** s with t's context and program counter replaced, and both counters moved on. */
  function Over(s: Sys, t: nat, p: Prim, c: Pc, x: int, y: int): Sys
    requires t < |s.pc| == |s.w.prims|
  {
    s.(w := s.w.(prims := s.w.prims[t := p]), pc := s.pc[t := c],
       finishedCnt := s.finishedCnt + x, misses := s.misses + y)
  }

  lemma PutCommutes(s: Sys, t: nat, u: nat, p: Prim, c: Pc, x: int, y: int, q: Prim, d: Pc)
    requires t < |s.pc| == |s.w.prims| && u < |s.pc| && t != u
    ensures Put(Over(s, t, p, c, x, y), u, q, d) == Over(Put(s, u, q, d), t, p, c, x, y)
  {
    assert s.w.prims[t := p][u := q] == s.w.prims[u := q][t := p];
    assert s.pc[t := c][u := d] == s.pc[u := d][t := c];
  }

  lemma AfterFinishCommutes(s: Sys, t: nat, u: nat, p: Prim, c: Pc, x: int, y: int)
    requires t < |s.pc| == |s.w.prims| && u < |s.pc| && t != u && WellShaped(s.w.prims[u])
    ensures |AfterFinish(s, u).pc| == |s.pc| && |AfterFinish(s, u).w.prims| == |s.w.prims|
    ensures AfterFinish(Over(s, t, p, c, x, y), u) == Over(AfterFinish(s, u), t, p, c, x, y)
  {
    hide UpdateNextMap, FirstUsed;
    var s' := AfterFinish(s, u);
    PutCommutes(s, t, u, p, c, x, y, s'.w.prims[u], s'.pc[u]);
  }

  /** Acting after the replacement is acting first and then replacing. */
  ghost predicate Frames(s: Sys, t: nat, u: nat, b: Action, p: Prim, c: Pc, x: int, y: int)
    requires Enabled(s, u, b) && t < |s.pc| && Enabled(Over(s, t, p, c, x, y), u, b)
  {
    && |Apply(s, u, b).pc| == |s.pc| && |Apply(s, u, b).w.prims| == |s.w.prims|
    && Apply(Over(s, t, p, c, x, y), u, b) == Over(Apply(s, u, b), t, p, c, x, y)
  }

  lemma FrameFinish(s: Sys, t: nat, u: nat, pos: nat, p: Prim, c: Pc, x: int, y: int)
    requires Enabled(s, u, Finish(pos)) && t < |s.pc| && t != u && Enabled(Over(s, t, p, c, x, y), u, Finish(pos))
    ensures Frames(s, t, u, Finish(pos), p, c, x, y)
  {
    var f := if pos == 0 then 0 else 1;
    var q := SetNormal(s.w.prims[u], pos, EMPTY);
    var s1 := Put(s, u, q, s.pc[u]).(finishedCnt := s.finishedCnt + f);
    PutCommutes(s, t, u, p, c, x, y, q, s.pc[u]);
    PutCommutes(s, t, u, p, c, x, y, q, FinishWait(pos));
    AfterFinishCommutes(s1.(misses := s.misses + f), t, u, p, c, x, y);
    hide AfterFinish, WorldShape, PcTyped;
    assert s.pc[u := s.pc[u]] == s.pc;
    assert s1.pc[u := FinishWait(pos)] == s.pc[u := FinishWait(pos)];
  }

  lemma FrameCleanup(s: Sys, t: nat, u: nat, p: Prim, c: Pc, x: int, y: int)
    requires Enabled(s, u, Cleanup) && t < |s.pc| && t != u && Enabled(Over(s, t, p, c, x, y), u, Cleanup)
    ensures Frames(s, t, u, Cleanup, p, c, x, y)
  {
    var p1 := SelfLinks(s.w.prims[u]);
    var q := SetNormal(p1, 0, EMPTY);
    PutCommutes(s, t, u, p, c, x, y, q, s.pc[u]);
    PutCommutes(s, t, u, p, c, x, y, SetNormal(p1, 0, 0), Running(true));
    AfterFinishCommutes(Put(s, u, q, s.pc[u]), t, u, p, c, x, y);
    hide AfterFinish, WorldShape, PcTyped, SelfLinks, FirstUsed;
  }

  /** The action of u sees nothing of t's context, and leaves it alone. */
  lemma FrameOuter(s: Sys, t: nat, u: nat, b: Action, p: Prim, c: Pc, x: int, y: int)
    requires Enabled(s, u, b) && t < |s.pc| && t != u && !b.Advance? && Enabled(Over(s, t, p, c, x, y), u, b)
    ensures Frames(s, t, u, b, p, c, x, y)
  {
    if b.Finish? {
      FrameFinish(s, t, u, b.pos, p, c, x, y);
    } else if b.Cleanup? {
      FrameCleanup(s, t, u, p, c, x, y);
    } else {
      hide UpdateNextMap, FirstUsed, SelfLinks, AfterFinish, PcTyped, Count;
      var s' := Apply(s, u, b);
      PutCommutes(s, t, u, p, c, x, y, s'.w.prims[u], s'.pc[u]);
      assert s.w.prims[u := s.w.prims[u]] == s.w.prims && s.pc[u := s.pc[u]] == s.pc;
    }
  }

  lemma FrameRetire(s: Sys, t: nat, u: nat, e: InitEffect, p: Prim, c: Pc, x: int, y: int)
    requires Enabled(s, u, Advance(e)) && t < |s.pc| && t != u && Enabled(Over(s, t, p, c, x, y), u, Advance(e))
    requires s.pc[u].FinishLocked?
    ensures Frames(s, t, u, Advance(e), p, c, x, y)
  {
    var l := Retire(LocalOf(s.w, u), s.pc[u].pos);
    var s1 := Unlocked(s.(w := WithLocal(s.w, u, l)));
    AfterFinishCommutes(s1, t, u, p, c, x, y);
    assert s.w.prims[t := p][u := l.p] == s.w.prims[u := l.p][t := p];
    hide AfterFinish, WorldShape, PcTyped, Retire;
  }

  lemma FrameSteal(s: Sys, t: nat, u: nat, e: InitEffect, p: Prim, c: Pc, x: int, y: int)
    requires Enabled(s, u, Advance(e)) && t < |s.pc| && t != u && Enabled(Over(s, t, p, c, x, y), u, Advance(e))
    requires s.pc[u].Stealing? && s.pc[u].d != t
    ensures Frames(s, t, u, Advance(e), p, c, x, y)
  {
    hide WorldShape, StealOne;
    var d, s' := s.pc[u].d, Apply(s, u, Advance(e));
    var q, r := s'.w.prims[d], s'.w.prims[u];
    assert s.w.prims[t := p][d := q] == s.w.prims[d := q][t := p];
    assert s.w.prims[t := p][d := q][u := r] == s.w.prims[d := q][u := r][t := p];
    assert s.pc[t := c][u := s'.pc[u]] == s.pc[u := s'.pc[u]][t := c];
  }

  lemma FrameDonor(s: Sys, t: nat, u: nat, e: InitEffect, p: Prim, c: Pc, x: int, y: int)
    requires Enabled(s, u, Advance(e)) && t < |s.pc| && t != u && Enabled(Over(s, t, p, c, x, y), u, Advance(e))
    requires s.pc[u].Donors? && (s.pc[u].d == t ==> !s.w.prims[t].reallocatable && !p.reallocatable)
    ensures Frames(s, t, u, Advance(e), p, c, x, y)
  {
    hide WorldShape;
    var d, s' := s.pc[u].d, Apply(s, u, Advance(e));
    assert s.pc[t := c][u := s'.pc[u]] == s.pc[u := s'.pc[u]][t := c];
    if d < |s.pc| && s.w.prims[d].reallocatable {
      var q := s'.w.prims[d];
      assert s.w.prims[t := p][d := q] == s.w.prims[d := q][t := p];
    }
  }

  lemma FrameInner(s: Sys, t: nat, u: nat, e: InitEffect, p: Prim, c: Pc, x: int, y: int)
    requires Enabled(s, u, Advance(e)) && t < |s.pc| && t != u && Enabled(Over(s, t, p, c, x, y), u, Advance(e))
    requires !s.pc[u].Stealing? && !s.pc[u].Donors? && !s.pc[u].FinishLocked?
    ensures Frames(s, t, u, Advance(e), p, c, x, y)
  {
    hide WorldShape, PoolOne, InitOne, SetSpecialNext, UpdateNextMap, Swap, FirstUsed, Count;
    if s.pc[u].FinishWait? || s.pc[u].SwapWait? || s.pc[u].AllocWait? {
      hide DoPack, DoSwap, DoPool, DoInit, PcTyped;
      FrameLock(s, t, u, p, c, x, y);
    } else if s.pc[u].Packing? {
      FramePack(s, t, u, p, c, x, y);
      hide DoPack, PcTyped;
    } else if s.pc[u].SwapLocked? {
      FrameSwap(s, t, u, p, c, x, y);
      hide DoSwap, PcTyped;
    } else if s.pc[u].Pool? {
      FramePool(s, t, u, p, c, x, y);
      hide DoPool, PcTyped;
    } else {
      FrameInit(s, t, u, e, p, c, x, y);
      hide DoInit, PcTyped;
    }
  }

  lemma FrameLock(s: Sys, t: nat, u: nat, p: Prim, c: Pc, x: int, y: int)
    requires t < |s.pc| == |s.w.prims| && u < |s.pc| && t != u
    ensures forall d :: TryLock(Over(s, t, p, c, x, y), u, d) == Over(TryLock(s, u, d), t, p, c, x, y)
  {
    forall d ensures TryLock(Over(s, t, p, c, x, y), u, d) == Over(TryLock(s, u, d), t, p, c, x, y) {
      assert s.pc[t := c][u := d] == s.pc[u := d][t := c];
    }
  }

  lemma FramePack(s: Sys, t: nat, u: nat, p: Prim, c: Pc, x: int, y: int)
    requires At(s, u) && s.pc[u].Packing? && t < |s.pc| && t != u && At(Over(s, t, p, c, x, y), u)
    ensures |DoPack(s, u).pc| == |s.pc| && |DoPack(s, u).w.prims| == |s.w.prims|
    ensures DoPack(Over(s, t, p, c, x, y), u) == Over(DoPack(s, u), t, p, c, x, y)
  {
    hide WorldShape, SetSpecialNext, UpdateNextMap, NeedMore, SwapPartner;
    var s' := DoPack(s, u);
    var q, d := s'.w.prims[u], s'.pc[u];
    assert s.w.prims[t := p][u := q] == s.w.prims[u := q][t := p];
    assert s.pc[t := c][u := d] == s.pc[u := d][t := c];
  }

  lemma FrameSwap(s: Sys, t: nat, u: nat, p: Prim, c: Pc, x: int, y: int)
    requires At(s, u) && s.pc[u].SwapLocked? && t < |s.pc| && t != u && At(Over(s, t, p, c, x, y), u)
    ensures |DoSwap(s, u).pc| == |s.pc| && |DoSwap(s, u).w.prims| == |s.w.prims|
    ensures DoSwap(Over(s, t, p, c, x, y), u) == Over(DoSwap(s, u), t, p, c, x, y)
  {
    hide WorldShape, Swap;
    var s' := DoSwap(s, u);
    var q, d := s'.w.prims[u], s'.pc[u];
    assert s.w.prims[t := p][u := q] == s.w.prims[u := q][t := p];
    assert s.pc[t := c][u := d] == s.pc[u := d][t := c];
  }

  lemma FramePool(s: Sys, t: nat, u: nat, p: Prim, c: Pc, x: int, y: int)
    requires At(s, u) && s.pc[u].Pool? && t < |s.pc| && t != u && At(Over(s, t, p, c, x, y), u)
    ensures |DoPool(s, u).pc| == |s.pc| && |DoPool(s, u).w.prims| == |s.w.prims|
    ensures DoPool(Over(s, t, p, c, x, y), u) == Over(DoPool(s, u), t, p, c, x, y)
  {
    hide WorldShape, PoolOne;
    var s' := DoPool(s, u);
    var q, d := s'.w.prims[u], s'.pc[u];
    assert s.w.prims[t := p][u := q] == s.w.prims[u := q][t := p];
    assert s.pc[t := c][u := d] == s.pc[u := d][t := c];
  }

  lemma FrameInit(s: Sys, t: nat, u: nat, e: InitEffect, p: Prim, c: Pc, x: int, y: int)
    requires At(s, u) && s.pc[u].Initing? && t < |s.pc| && t != u && At(Over(s, t, p, c, x, y), u)
    ensures |DoInit(s, u, e).pc| == |s.pc| && |DoInit(s, u, e).w.prims| == |s.w.prims|
    ensures DoInit(Over(s, t, p, c, x, y), u, e) == Over(DoInit(s, u, e), t, p, c, x, y)
  {
    hide WorldShape, InitOne, SetSpecialNext, UpdateNextMap;
    var s' := DoInit(s, u, e);
    var q, d := s'.w.prims[u], s'.pc[u];
    assert s.w.prims[t := p][u := q] == s.w.prims[u := q][t := p];
    assert s.pc[t := c][u := d] == s.pc[u := d][t := c];
  }

  /** u's next action takes or holds the flag of t, or robs t. */
  predicate Reaches(s: Sys, u: nat, b: Action, t: nat)
    requires u < |s.pc|
  {
    b.Advance? && ((s.pc[u].Donors? && s.pc[u].d == t) || (s.pc[u].Stealing? && s.pc[u].d == t))
  }

  /** An action of u that does not reach for t neither sees nor changes t's context and counter. */
  lemma FrameAction(s: Sys, t: nat, u: nat, b: Action, p: Prim, c: Pc, x: int, y: int)
    requires Enabled(s, u, b) && t < |s.pc| && t != u && Enabled(Over(s, t, p, c, x, y), u, b)
    requires !Reaches(s, u, b, t) || (s.pc[u].Donors? && !s.w.prims[t].reallocatable && !p.reallocatable)
    ensures Frames(s, t, u, b, p, c, x, y)
  {
    hide Frames;
    if !b.Advance? {
      FrameOuter(s, t, u, b, p, c, x, y);
    } else if s.pc[u].FinishLocked? {
      FrameRetire(s, t, u, b.e, p, c, x, y);
    } else if s.pc[u].Stealing? {
      FrameSteal(s, t, u, b.e, p, c, x, y);
    } else if s.pc[u].Donors? {
      FrameDonor(s, t, u, b.e, p, c, x, y);
    } else {
      FrameInner(s, t, u, b.e, p, c, x, y);
    }
  }

  // ----- Own actions -------------------------------------------------------------------------------

  /** A call of an init function; it writes one entry of the scavenger table. */
  predicate InitStep(s: Sys, t: nat, a: Action)
    requires t < |s.pc|
  {
    a.Advance? && s.pc[t].Initing? && s.pc[t].pos < s.slots
  }

  lemma OwnFinish(s: Sys, t: nat)
    requires t < |s.pc| == |s.w.prims| && WellShaped(s.w.prims[t])
    ensures
      var s1 := AfterFinish(s, t);
      && |s1.pc| == |s.pc| && |s1.w.prims| == |s.w.prims|
      && s1 == Over(s, t, s1.w.prims[t], s1.pc[t], 0, 0)
  {
    hide UpdateNextMap, FirstUsed;
  }

  /** An own action replaces the thread's context and counter, and nothing else. */
  lemma OwnIsOver(s: Sys, t: nat, a: Action)
    requires Enabled(s, t, a) && OwnAction(s, t, a) && !InitStep(s, t, a)
    ensures
      var s1 := Apply(s, t, a);
      && |s1.pc| == |s.pc| && |s1.w.prims| == |s.w.prims|
      && s1 == Over(s, t, s1.w.prims[t], s1.pc[t], s1.finishedCnt - s.finishedCnt, s1.misses - s.misses)
  {
    var s1, p := Apply(s, t, a), s.w.prims[t];
    if a.Finish? {
      var f := if a.pos == 0 then 0 else 1;
      OwnFinish(Put(s, t, SetNormal(p, a.pos, EMPTY), s.pc[t]).(
        finishedCnt := s.finishedCnt + f, misses := s.misses + f), t);
      hide AfterFinish;
    } else if a.Cleanup? {
      OwnFinish(Put(s, t, SetNormal(SelfLinks(p), 0, EMPTY), s.pc[t]), t);
      hide AfterFinish, SelfLinks;
    } else {
      hide UpdateNextMap, SetSpecialNext, FirstUsed, Count, SelfLinks;
    }
    assert s.w.prims[t := p] == s.w.prims && s.pc[t := s.pc[t]] == s.pc;
    assert s.w.prims[t := s1.w.prims[t]] == s1.w.prims && s.pc[t := s1.pc[t]] == s1.pc;
  }

  /** In both states the action does the same to t's context, t's counter and the two counts. */
  ghost predicate ReadsAlike(s: Sys, s': Sys, t: nat, a: Action)
    requires Enabled(s, t, a) && Enabled(s', t, a)
  {
    var s1, s1' := Apply(s, t, a), Apply(s', t, a);
    && |s1.pc| == |s.pc| && |s1.w.prims| == |s.w.prims| && |s1'.pc| == |s'.pc| && |s1'.w.prims| == |s'.w.prims|
    && s1'.w.prims[t] == s1.w.prims[t] && s1'.pc[t] == s1.pc[t]
    && s1'.finishedCnt - s'.finishedCnt == s1.finishedCnt - s.finishedCnt
    && s1'.misses - s'.misses == s1.misses - s.misses
  }

  /** t sees the same in both states. */
  predicate LooksAlike(s: Sys, s': Sys, t: nat, a: Action)
    requires Enabled(s, t, a) && Enabled(s', t, a)
  {
    s'.w.prims[t] == s.w.prims[t] && s'.pc[t] == s.pc[t] && s'.slots == s.slots && s'.max == s.max
  }

  lemma AfterFinishReads(s: Sys, s': Sys, t: nat)
    requires t < |s.pc| == |s.w.prims| && t < |s'.pc| == |s'.w.prims|
    requires WellShaped(s.w.prims[t]) && s'.w.prims[t] == s.w.prims[t]
    ensures
      var s1, s1' := AfterFinish(s, t), AfterFinish(s', t);
      && |s1.pc| == |s.pc| && |s1.w.prims| == |s.w.prims| && |s1'.pc| == |s'.pc| && |s1'.w.prims| == |s'.w.prims|
      && s1'.w.prims[t] == s1.w.prims[t] && s1'.pc[t] == s1.pc[t]
      && s1.finishedCnt == s.finishedCnt && s1.misses == s.misses
      && s1'.finishedCnt == s'.finishedCnt && s1'.misses == s'.misses
  {
    hide UpdateNextMap, FirstUsed;
  }

  lemma FinishReads(s: Sys, s': Sys, t: nat, pos: nat)
    requires Enabled(s, t, Finish(pos)) && Enabled(s', t, Finish(pos)) && LooksAlike(s, s', t, Finish(pos))
    ensures ReadsAlike(s, s', t, Finish(pos))
  {
    hide AfterFinish;
    var f, p := if pos == 0 then 0 else 1, SetNormal(s.w.prims[t], pos, EMPTY);
    AfterFinishReads(
      Put(s, t, p, s.pc[t]).(finishedCnt := s.finishedCnt + f, misses := s.misses + f),
      Put(s', t, p, s'.pc[t]).(finishedCnt := s'.finishedCnt + f, misses := s'.misses + f), t);
  }

  lemma CleanupReads(s: Sys, s': Sys, t: nat)
    requires Enabled(s, t, Cleanup) && Enabled(s', t, Cleanup) && LooksAlike(s, s', t, Cleanup)
    ensures ReadsAlike(s, s', t, Cleanup)
  {
    hide AfterFinish, FirstUsed;
    var p := SetNormal(SelfLinks(s.w.prims[t]), 0, EMPTY);
    AfterFinishReads(Put(s, t, p, s.pc[t]), Put(s', t, p, s'.pc[t]), t);
    hide SelfLinks;
  }

  /** An own action reads the thread's context and counter, and nothing else. */
  lemma OwnReads(s: Sys, s': Sys, t: nat, a: Action)
    requires Enabled(s, t, a) && Enabled(s', t, a) && OwnAction(s, t, a) && !InitStep(s, t, a)
    requires LooksAlike(s, s', t, a)
    ensures ReadsAlike(s, s', t, a)
  {
    hide UpdateNextMap, SetSpecialNext, FirstUsed, Count, SelfLinks, AfterFinish;
    if a.Finish? {
      hide ReadsAlike, Apply, Enabled;
      FinishReads(s, s', t, a.pos);
    } else if a.Cleanup? {
      hide ReadsAlike, Apply, Enabled;
      CleanupReads(s, s', t);
    } else {
      hide DoFinish, DoCleanup;
    }
  }

  // ----- Own actions commute -----------------------------------------------------------------------

  /** Whoever goes first, the result is the same. */
  ghost predicate Commutes(s: Sys, t: nat, a: Action, u: nat, b: Action)
    requires Enabled(s, t, a) && Enabled(s, u, b)
  {
    && Enabled(Apply(s, t, a), u, b) && Enabled(Apply(s, u, b), t, a)
    && Apply(Apply(s, t, a), u, b) == Apply(Apply(s, u, b), t, a)
  }

  /** Nobody else's action stops t from its own. */
  lemma StaysEnabled(s: Sys, t: nat, a: Action, u: nat, b: Action)
    requires Inv(s) && Enabled(s, t, a) && Enabled(s, u, b) && t != u
    ensures Enabled(Apply(s, u, b), t, a)
    ensures
      var s' := Apply(s, u, b);
      && |s'.pc| == |s.pc| && s'.pc[t] == s.pc[t] && s'.slots == s.slots && s'.max == s.max
      && OwnAction(s', t, a) == OwnAction(s, t, a) && InitStep(s', t, a) == InitStep(s, t, a)
  {
    hide Apply, LockOK, FlagOK, Placed, ScavsOK, ThreadsOK, CountOK, WorldShape;
    ActionKeepsInv(s, u, b);
    PcOfOthers(s, u, b);
    MaxKept(s, Act(u, b));
    SlotsKept(s, u, b);
  }

  lemma SlotsKept(s: Sys, u: nat, b: Action)
    requires Enabled(s, u, b)
    ensures Apply(s, u, b).slots == s.slots
  {
    hide UpdateNextMap, SetSpecialNext, FirstUsed, Count, Retire, Swap, StealOne, PoolOne, InitOne,
      SelfLinks, WorldShape;
  }

  /** A thread outside a call has its flag down and is not being robbed. */
  lemma OutsideCall(s: Sys, t: nat, u: nat, b: Action)
    requires Inv(s) && Enabled(s, u, b) && t < |s.pc| && !AtCall(s.pc[t])
    ensures |s.pc| == |s.w.prims| && !s.w.prims[t].reallocatable
    ensures Reaches(s, u, b, t) ==> s.pc[u].Donors?
  {
    AllocatedFlag(s, t);
    assert !Robs(s.pc[u], t);
  }

  lemma OwnStaysOut(s: Sys, t: nat, a: Action)
    requires Enabled(s, t, a) && OwnAction(s, t, a) && !a.Return?
    ensures t < |s.pc| && !AtCall(s.pc[t]) && t < |Apply(s, t, a).pc| && !AtCall(Apply(s, t, a).pc[t])
  {
    hide UpdateNextMap, SetSpecialNext, FirstUsed, Count, SelfLinks, InitOne, WorldShape;
  }

  lemma PlainOwnCommutes(s: Sys, t: nat, a: Action, u: nat, b: Action)
    requires Inv(s) && Enabled(s, t, a) && Enabled(s, u, b) && t != u
    requires OwnAction(s, t, a) && !InitStep(s, t, a) && !a.Return?
    ensures Commutes(s, t, a, u, b)
  {
    hide Inv, Apply, Enabled, OwnAction, InitStep, Frames;
    var s1, sb := Apply(s, t, a), Apply(s, u, b);
    StaysEnabled(s, t, a, u, b);
    StaysEnabled(s, u, b, t, a);
    OwnStaysOut(s, t, a);
    SelfFrame(s, t, u, b);
    OwnThenOther(s, t, a, u, b);
    assert LooksAlike(s, sb, t, a);
    OwnReads(s, sb, t, a);
    OwnIsOver(sb, t, a);
  }

  lemma FramesSay(s: Sys, t: nat, u: nat, b: Action, p: Prim, c: Pc, x: int, y: int)
    requires Enabled(s, u, b) && t < |s.pc| && Enabled(Over(s, t, p, c, x, y), u, b) && Frames(s, t, u, b, p, c, x, y)
    ensures |Apply(s, u, b).pc| == |s.pc| && |Apply(s, u, b).w.prims| == |s.w.prims|
    ensures Apply(Over(s, t, p, c, x, y), u, b) == Over(Apply(s, u, b), t, p, c, x, y)
  {
    hide Apply, Enabled;
  }

  /** An action of u leaves a thread outside a call exactly as it is. */
  lemma SelfFrame(s: Sys, t: nat, u: nat, b: Action)
    requires Inv(s) && Enabled(s, u, b) && t < |s.pc| && t != u && !AtCall(s.pc[t])
    ensures |s.pc| == |s.w.prims| && |Apply(s, u, b).pc| == |s.pc| && |Apply(s, u, b).w.prims| == |s.w.prims|
    ensures Apply(s, u, b).w.prims[t] == s.w.prims[t] && Apply(s, u, b).pc[t] == s.pc[t]
  {
    OutsideCall(s, t, u, b);
    hide Inv, Apply, Enabled, Frames;
    var p := s.w.prims[t];
    assert s.w.prims[t := p] == s.w.prims && s.pc[t := s.pc[t]] == s.pc;
    assert Over(s, t, p, s.pc[t], 0, 0) == s;
    FrameAction(s, t, u, b, p, s.pc[t], 0, 0);
    FramesSay(s, t, u, b, p, s.pc[t], 0, 0);
  }

  /** The action of u after the own action of t is that of u before it, and then t's context replaced. */
  lemma OwnThenOther(s: Sys, t: nat, a: Action, u: nat, b: Action)
    requires Inv(s) && Enabled(s, t, a) && Enabled(s, u, b) && t != u && Enabled(Apply(s, t, a), u, b)
    requires OwnAction(s, t, a) && !InitStep(s, t, a) && !a.Return?
    ensures
      var s1, sb := Apply(s, t, a), Apply(s, u, b);
      && t < |s1.pc| == |s1.w.prims| && t < |sb.pc| == |sb.w.prims|
      && Apply(s1, u, b)
        == Over(sb, t, s1.w.prims[t], s1.pc[t], s1.finishedCnt - s.finishedCnt, s1.misses - s.misses)
  {
    hide Apply, Enabled, OwnAction, InitStep, Frames, Inv;
    var s1 := Apply(s, t, a);
    ActionKeepsInv(s, t, a);
    OwnStaysOut(s, t, a);
    OutsideCall(s, t, u, b);
    OutsideCall(s1, t, u, b);
    OwnIsOver(s, t, a);
    var p, c, x, y := s1.w.prims[t], s1.pc[t], s1.finishedCnt - s.finishedCnt, s1.misses - s.misses;
    FrameAction(s, t, u, b, p, c, x, y);
    FramesSay(s, t, u, b, p, c, x, y);
  }

  // ----- Returning from a call -----------------------------------------------------------------------

  function WithPc(s: Sys, t: nat, c: Pc): Sys
    requires t < |s.pc|
  {
    s.(pc := s.pc[t := c])
  }

  lemma SameSizesIn(s: Sys, u: nat, b: Action)
    requires Enabled(s, u, b)
    ensures u < |s.pc| == |s.w.prims|
  {
  }

  lemma PcFrameReached(s: Sys, t: nat, u: nat, b: Action, c: Pc)
    requires Enabled(s, u, b) && t < |s.pc| && t != u && Enabled(WithPc(s, t, c), u, b) && Reaches(s, u, b, t)
    ensures |Apply(s, u, b).pc| == |s.pc| && Apply(WithPc(s, t, c), u, b) == WithPc(Apply(s, u, b), t, c)
  {
    hide WorldShape, StealOne, PcTyped;
    var s' := Apply(s, u, b);
    assert s.pc[t := c][u := s'.pc[u]] == s.pc[u := s'.pc[u]][t := c];
  }

  /** No action reads another thread's program counter, not even one that robs that thread. */
  lemma PcFrame(s: Sys, t: nat, u: nat, b: Action, c: Pc)
    requires Enabled(s, u, b) && t < |s.pc| && t != u && Enabled(WithPc(s, t, c), u, b)
    ensures |Apply(s, u, b).pc| == |s.pc| && Apply(WithPc(s, t, c), u, b) == WithPc(Apply(s, u, b), t, c)
  {
    hide Apply, Enabled, Frames;
    SameSizesIn(s, u, b);
    if Reaches(s, u, b, t) {
      PcFrameReached(s, t, u, b, c);
    } else {
      var p := s.w.prims[t];
      assert s.w.prims[t := p] == s.w.prims;
      assert Over(s, t, p, c, 0, 0) == WithPc(s, t, c);
      assert s.pc[t := s.pc[t]] == s.pc;
      assert Over(s, t, p, s.pc[t], 0, 0) == s;
      FrameAction(s, t, u, b, p, c, 0, 0);
      FrameAction(s, t, u, b, p, s.pc[t], 0, 0);
      FramesSay(s, t, u, b, p, c, 0, 0);
      FramesSay(s, t, u, b, p, s.pc[t], 0, 0);
      var s' := Apply(s, u, b);
      assert s'.w.prims[t := p] == s'.w.prims;
    }
  }

  lemma ReturnCommutes(s: Sys, t: nat, u: nat, b: Action)
    requires Inv(s) && Enabled(s, t, Return) && Enabled(s, u, b) && t != u
    ensures Commutes(s, t, Return, u, b)
  {
    StaysEnabled(s, t, Return, u, b);
    StaysEnabled(s, u, b, t, Return);
    ReturnIsPc(s, t);
    ReturnIsPc(Apply(s, u, b), t);
    hide Apply, Enabled, Inv;
    PcFrame(s, t, u, b, Exiting(s.pc[t].snap, s.pc[t].linked));
  }

  lemma ReturnIsPc(s: Sys, t: nat)
    requires Enabled(s, t, Return)
    ensures t < |s.pc| && s.pc[t].Blocked?
    ensures Apply(s, t, Return) == WithPc(s, t, Exiting(s.pc[t].snap, s.pc[t].linked))
  {
  }

  // ----- Init calls ----------------------------------------------------------------------------------

  /** Scavenger i's init function has been called once more. */
  function Inited(ss: seq<Scav>, i: nat): seq<Scav>
    requires i < |ss|
  {
    ss[i := ss[i].(inited := true, initCalls := ss[i].initCalls + 1)]
  }

  function WithInit(s: Sys, i: nat): Sys
    requires i < |s.w.ss|
  {
    s.(w := s.w.(ss := Inited(s.w.ss, i)))
  }

  /** Scavenger i lives with t, and u neither is t nor robs it. */
  predicate Elsewhere(s: Sys, t: nat, u: nat, b: Action, i: nat) {
    && i < |s.w.ss| && s.w.ss[i].yc.Some? && s.w.ss[i].yc.value.tid == t && t != u
    && u < |s.pc| && !(s.pc[u].Stealing? && s.pc[u].d == t)
  }

  lemma OtherEntry(s: Sys, t: nat, u: nat, b: Action, i: nat, d: nat, q: nat)
    requires Inv(s) && Elsewhere(s, t, u, b, i) && d < |s.w.prims| && d != t
    requires q < |s.w.prims[d].idx| && s.w.prims[d].idx[q] != EMPTY
    ensures s.w.prims[d].idx[q] != i
  {
    assert LivesAt(s.w.ss, s.w.prims[d].idx[q], d, q);
  }

  lemma MoveSize(ss: seq<Scav>, j: int, at: Loc)
    requires -1 <= j < |ss|
    ensures |MoveScav(ss, j, at)| == |ss|
  {
  }

  lemma InitFrameMove(ss: seq<Scav>, i: nat, j: int, at: Loc)
    requires i < |ss| && -1 <= j < |ss| && i != j
    ensures |MoveScav(ss, j, at)| == |ss|
    ensures MoveScav(Inited(ss, i), j, at) == Inited(MoveScav(ss, j, at), i)
  {
  }

  lemma InitFrameRound(x: Pair, u: nat, i: nat)
    requires SoundPair(x) && i < |x.ss| && forall q :: 0 <= q < |x.from.idx| ==> x.from.idx[q] != i
    ensures
      var (y, o) := StealOne(x, u);
      StealOne(x.(ss := Inited(x.ss, i)), u) == (y.(ss := Inited(y.ss, i)), o) && (!o.Moved? ==> y.ss == x.ss)
  {
    var f := LastUsed(x.from.idx, |x.from.idx|);
    var q := FirstFree(x.to.idx, 1);
    if f != -1 && q != -1 {
      InitFrameMove(x.ss, i, x.from.idx[f], Loc(u, q));
    }
    hide Robbed, Received, MoveScav;
  }

  lemma InitFrameSteal(s: Sys, t: nat, u: nat, e: InitEffect, i: nat)
    requires Inv(s) && Enabled(s, u, Advance(e)) && s.pc[u].Stealing? && Elsewhere(s, t, u, Advance(e), i)
    requires Enabled(WithInit(s, i), u, Advance(e))
    ensures Entries(s, u, Advance(e), i)
  {
    hide LockOK, FlagOK, Placed, ScavsOK, ThreadsOK, CountOK, DoSteal, StealOne, Inited;
    var d := s.pc[u].d;
    forall q | 0 <= q < |s.w.prims[d].idx| ensures s.w.prims[d].idx[q] != i {
      if s.w.prims[d].idx[q] != EMPTY {
        OtherEntry(s, t, u, Advance(e), i, d, q);
      }
    }
    InitFrameRound(Pair(s.w.prims[d], s.w.prims[u], s.w.ss), u, i);
    InitFrameDoSteal(s, u, i);
  }

  lemma InitFrameDoSteal(s: Sys, u: nat, i: nat)
    requires At(s, u) && s.pc[u].Stealing? && i < |s.w.ss| && At(WithInit(s, i), u)
    requires
      var x := Pair(s.w.prims[s.pc[u].d], s.w.prims[u], s.w.ss);
      var (y, o) := StealOne(x, u);
      StealOne(x.(ss := Inited(x.ss, i)), u) == (y.(ss := Inited(y.ss, i)), o) && (!o.Moved? ==> y.ss == x.ss)
    ensures |DoSteal(s, u).w.ss| == |s.w.ss| && DoSteal(WithInit(s, i), u) == WithInit(DoSteal(s, u), i)
  {
    hide StealOne, WorldShape, PcTyped;
  }

  /** Calling i's init first and then letting u act is letting u act first. */
  ghost predicate Entries(s: Sys, u: nat, b: Action, i: nat)
    requires Enabled(s, u, b) && i < |s.w.ss| && Enabled(WithInit(s, i), u, b)
  {
    |Apply(s, u, b).w.ss| == |s.w.ss| && Apply(WithInit(s, i), u, b) == WithInit(Apply(s, u, b), i)
  }

  lemma InitFrameRetire(s: Sys, t: nat, u: nat, e: InitEffect, i: nat)
    requires Inv(s) && Enabled(s, u, Advance(e)) && s.pc[u].FinishLocked? && Elsewhere(s, t, u, Advance(e), i)
    requires Enabled(WithInit(s, i), u, Advance(e))
    ensures Entries(s, u, Advance(e), i)
  {
    hide LockOK, FlagOK, Placed, ScavsOK, ThreadsOK, CountOK, UpdateNextMap, FirstUsed, Retire;
    var pos := s.pc[u].pos;
    OtherEntry(s, t, u, Advance(e), i, u, pos);
    InitFrameGone(LocalOf(s.w, u), pos, i);
  }

  lemma InitFrameGone(l: Local, pos: nat, i: nat)
    requires Sound(l) && pos < |l.p.idx| && l.p.idx[pos] != EMPTY && i < |l.ss| && l.p.idx[pos] != i
    ensures |Retire(l, pos).ss| == |l.ss|
    ensures Retire(l.(ss := Inited(l.ss, i)), pos) == Retire(l, pos).(ss := Inited(Retire(l, pos).ss, i))
  {
  }

  lemma InitFrameSwap(s: Sys, t: nat, u: nat, e: InitEffect, i: nat)
    requires Inv(s) && Enabled(s, u, Advance(e)) && s.pc[u].SwapLocked? && Elsewhere(s, t, u, Advance(e), i)
    requires Enabled(WithInit(s, i), u, Advance(e))
    ensures Entries(s, u, Advance(e), i)
  {
    hide MoveScav, SwapPrim, LockOK, FlagOK, Placed, ScavsOK, ThreadsOK, CountOK;
    var a, b, l := s.pc[u].a, s.pc[u].b, LocalOf(s.w, u);
    if l.p.idx[a] != EMPTY {
      OtherEntry(s, t, u, Advance(e), i, u, a);
    }
    if l.p.idx[b] != EMPTY {
      OtherEntry(s, t, u, Advance(e), i, u, b);
    }
    InitFrameMove(l.ss, i, l.p.idx[a], Loc(u, b));
    MoveSize(l.ss, l.p.idx[a], Loc(u, b));
    InitFrameMove(MoveScav(l.ss, l.p.idx[a], Loc(u, b)), i, l.p.idx[b], Loc(u, a));
    MoveSize(MoveScav(l.ss, l.p.idx[a], Loc(u, b)), l.p.idx[b], Loc(u, a));
  }

  lemma InitFrameTake(l: Local, u: nat, j: nat, i: nat)
    requires Sound(l) && j < |l.ss| && i < |l.ss| && l.ss[i].yc.Some?
    ensures
      var (l', o) := PoolOne(l, u, j);
      PoolOne(l.(ss := Inited(l.ss, i)), u, j) == (l'.(ss := Inited(l'.ss, i)), o)
  {
    var (l', o) := PoolOne(l, u, j);
    if o.Taken? {
      assert Inited(l.ss, i)[j := l'.ss[j]] == Inited(l'.ss, i);
    }
  }

  lemma InitFramePool(s: Sys, t: nat, u: nat, e: InitEffect, i: nat)
    requires Enabled(s, u, Advance(e)) && s.pc[u].Pool? && Elsewhere(s, t, u, Advance(e), i)
    requires Enabled(WithInit(s, i), u, Advance(e))
    ensures Entries(s, u, Advance(e), i)
  {
    var j := s.pc[u].i;
    if j < |s.w.ss| {
      InitFrameTake(LocalOf(s.w, u), u, j, i);
    }
    hide PoolOne, WorldShape;
  }

  lemma InitFrameCall(l: Local, pos: nat, e: InitEffect, i: nat)
    requires Sound(l) && pos < |l.p.idx| && i < |l.ss| && l.p.idx[pos] != i
    ensures
      var l' := InitOne(l, pos, e);
      InitOne(l.(ss := Inited(l.ss, i)), pos, e) == l'.(ss := Inited(l'.ss, i))
  {
    var j, l' := l.p.idx[pos], InitOne(l, pos, e);
    if j != EMPTY && NeedsInit(l.ss[j]) {
      assert Inited(l.ss, i)[j := l'.ss[j]] == Inited(l'.ss, i);
    }
  }

  lemma InitFrameInit(s: Sys, t: nat, u: nat, e: InitEffect, i: nat)
    requires Inv(s) && Enabled(s, u, Advance(e)) && s.pc[u].Initing? && Elsewhere(s, t, u, Advance(e), i)
    requires Enabled(WithInit(s, i), u, Advance(e))
    ensures Entries(s, u, Advance(e), i)
  {
    var pos := s.pc[u].pos;
    if pos < s.slots {
      if s.w.prims[u].idx[pos] != EMPTY {
        OtherEntry(s, t, u, Advance(e), i, u, pos);
      }
      InitFrameCall(LocalOf(s.w, u), pos, e, i);
    }
    InitFrameDoInit(s, u, e, i);
    hide Inv, PcTyped, WorldShape, DoInit;
  }

  lemma InitFrameDoInit(s: Sys, u: nat, e: InitEffect, i: nat)
    requires At(s, u) && s.pc[u].Initing? && i < |s.w.ss| && At(WithInit(s, i), u)
    requires s.pc[u].pos < s.slots ==>
      var l := LocalOf(s.w, u);
      var l' := InitOne(l, s.pc[u].pos, e);
      InitOne(l.(ss := Inited(l.ss, i)), s.pc[u].pos, e) == l'.(ss := Inited(l'.ss, i))
    ensures |DoInit(s, u, e).w.ss| == |s.w.ss| && DoInit(WithInit(s, i), u, e) == WithInit(DoInit(s, u, e), i)
  {
    hide InitOne, SetSpecialNext, UpdateNextMap;
    if s.pc[u].pos < s.slots {
      var l' := InitOne(LocalOf(s.w, u), s.pc[u].pos, e);
      assert LocalOf(WithInit(s, i).w, u) == LocalOf(s.w, u).(ss := Inited(s.w.ss, i));
      assert DoInit(WithInit(s, i), u, e).w == World(s.w.prims[u := l'.p], Inited(l'.ss, i));
    } else {
      var p := SetSpecialNext(s.w.prims[u]);
      SpecialKeepsShape(s.w.prims[u]);
      AllocatedInit(s, u, s.pc[u].who, s.pc[u].got, p, i);
    }
  }

  lemma AllocatedInit(s: Sys, u: nat, who: Caller, got: nat, p: Prim, i: nat)
    requires u < |s.pc| == |s.w.prims| && WellShaped(p) && i < |s.w.ss|
    ensures |Allocated(s, u, who, got, p).w.ss| == |s.w.ss|
    ensures Allocated(WithInit(s, i), u, who, got, p) == WithInit(Allocated(s, u, who, got, p), i)
  {
    hide UpdateNextMap;
  }

  /** The remaining actions do not look at the scavenger table. */
  lemma InitFrameRest(s: Sys, u: nat, b: Action, i: nat)
    requires Enabled(s, u, b) && i < |s.w.ss| && Enabled(WithInit(s, i), u, b)
    requires b.Advance? ==>
      var c := s.pc[u];
      c.FinishWait? || c.Packing? || c.SwapWait? || c.AllocWait? || c.Donors?
    ensures Entries(s, u, b, i)
  {
    hide UpdateNextMap, SetSpecialNext, FirstUsed, Count, SelfLinks, WorldShape, PcTyped;
  }

  lemma InitFrame(s: Sys, t: nat, u: nat, b: Action, i: nat)
    requires Inv(s) && Enabled(s, u, b) && Elsewhere(s, t, u, b, i) && Enabled(WithInit(s, i), u, b)
    ensures Entries(s, u, b, i)
  {
    hide Entries, Inv;
    if b.Advance? && s.pc[u].Stealing? {
      InitFrameSteal(s, t, u, b.e, i);
    } else if b.Advance? && s.pc[u].FinishLocked? {
      InitFrameRetire(s, t, u, b.e, i);
    } else if b.Advance? && s.pc[u].SwapLocked? {
      InitFrameSwap(s, t, u, b.e, i);
    } else if b.Advance? && s.pc[u].Pool? {
      InitFramePool(s, t, u, b.e, i);
    } else if b.Advance? && s.pc[u].Initing? {
      InitFrameInit(s, t, u, b.e, i);
    } else {
      InitFrameRest(s, u, b, i);
    }
  }

  /** The scavenger whose init function t is about to call, if it needs that. */
  predicate CallsFor(s: Sys, t: nat, i: int)
    requires t < |s.pc| == |s.w.prims| && s.pc[t].Initing? && s.pc[t].pos < |s.w.prims[t].idx|
  {
    i == s.w.prims[t].idx[s.pc[t].pos] && 0 <= i < |s.w.ss| && NeedsInit(s.w.ss[i])
  }

  function AfterCall(p: Prim, pos: nat, e: InitEffect): Prim
    requires pos < |p.regs|
  {
    p.(regs := p.regs[pos := e.regs])
  }

  lemma InitStepIs(s: Sys, t: nat, e: InitEffect)
    requires Enabled(s, t, Advance(e)) && InitStep(s, t, Advance(e))
    ensures t < |s.pc| == |s.w.prims| && s.pc[t].pos < |s.w.prims[t].idx| == |s.w.prims[t].regs|
    ensures -1 <= s.w.prims[t].idx[s.pc[t].pos] < |s.w.ss|
    ensures
      var c, p, i := s.pc[t], s.w.prims[t], s.w.prims[t].idx[s.pc[t].pos];
      var c' := Initing(c.who, c.pos + 1, c.got);
      Apply(s, t, Advance(e)) ==
        if CallsFor(s, t, i) then Over(WithInit(s, i), t, AfterCall(p, c.pos, e), c', 0, 0)
        else Over(s, t, p, c', 0, 0)
  {
    hide PcTyped;
  }

  lemma InitKeepsEnabled(s: Sys, u: nat, b: Action, i: nat)
    requires Enabled(s, u, b) && i < |s.w.ss|
    ensures Enabled(WithInit(s, i), u, b)
  {
    var s' := WithInit(s, i);
    assert WorldShape(s'.w, s'.slots);
    forall v | 0 <= v < |s'.pc| ensures PcTyped(s', v) {
      assert PcTyped(s, v);
    }
  }

  /** Others do not call init for t's scavengers. */
  lemma NeedStays(s: Sys, t: nat, u: nat, b: Action, i: nat)
    requires Inv(s) && Enabled(s, u, b) && Elsewhere(s, t, u, b, i)
    ensures
      var s' := Apply(s, u, b);
      |s'.w.ss| == |s.w.ss| && NeedsInit(s'.w.ss[i]) == NeedsInit(s.w.ss[i])
  {
    ActionInits(s, Act(u, b), i);
    ActionEvolves(s, u, b);
    if CallsInit(s, Act(u, b), i) {
      OtherEntry(s, t, u, b, i, u, s.pc[u].pos);
    }
    hide Apply, Enabled, Inv;
    assert Evolves(s.w.ss[i], Apply(s, u, b).w.ss[i]);
  }

  lemma HostedElsewhere(s: Sys, t: nat, u: nat, b: Action)
    requires Inv(s) && Enabled(s, u, b) && t < |s.pc| && t != u && s.pc[t].Initing? && s.pc[t].pos < s.slots
    ensures |s.pc| == |s.w.prims| && s.pc[t].pos < |s.w.prims[t].idx|
    ensures
      var i := s.w.prims[t].idx[s.pc[t].pos];
      i != EMPTY ==> 0 <= i < |s.w.ss| && Elsewhere(s, t, u, b, i)
  {
    var i := s.w.prims[t].idx[s.pc[t].pos];
    if i != EMPTY {
      assert LivesAt(s.w.ss, i, t, s.pc[t].pos);
    }
    assert !Robs(s.pc[u], t);
  }

  lemma InitStepCommutes(s: Sys, t: nat, e: InitEffect, u: nat, b: Action)
    requires Inv(s) && Enabled(s, t, Advance(e)) && Enabled(s, u, b) && t != u && InitStep(s, t, Advance(e))
    ensures Commutes(s, t, Advance(e), u, b)
  {
    hide Inv, Apply, Enabled, Frames, Entries, Elsewhere;
    var s1, sb := Apply(s, t, Advance(e)), Apply(s, u, b);
    StaysEnabled(s, t, Advance(e), u, b);
    StaysEnabled(s, u, b, t, Advance(e));
    InitStepIs(s, t, e);
    InitStepIs(sb, t, e);
    InitStepFrames(s, t, e, u, b);
  }

  lemma InitStepFrames(s: Sys, t: nat, e: InitEffect, u: nat, b: Action)
    requires Inv(s) && Enabled(s, t, Advance(e)) && Enabled(s, u, b) && t != u && InitStep(s, t, Advance(e))
    requires Enabled(Apply(s, t, Advance(e)), u, b) && Enabled(Apply(s, u, b), t, Advance(e))
    requires InitStep(Apply(s, u, b), t, Advance(e))
    ensures Apply(Apply(s, t, Advance(e)), u, b) == Apply(Apply(s, u, b), t, Advance(e))
  {
    hide Inv, Apply, Enabled, Frames, Entries, Elsewhere;
    InitStepIs(s, t, e);
    var sb, c, p := Apply(s, u, b), s.pc[t], s.w.prims[t];
    var c' := Initing(c.who, c.pos + 1, c.got);
    InitStepIs(sb, t, e);
    HostedElsewhere(s, t, u, b);
    OutsideCall(s, t, u, b);
    SelfFrame(s, t, u, b);
    var i := p.idx[c.pos];
    if i != EMPTY {
      NeedStays(s, t, u, b, i);
    }
    if CallsFor(s, t, i) {
      InitKeepsEnabled(s, u, b, i);
      InitFrame(s, t, u, b, i);
      EntriesSay(s, u, b, i);
      FrameAction(WithInit(s, i), t, u, b, AfterCall(p, c.pos, e), c', 0, 0);
      FramesSay(WithInit(s, i), t, u, b, AfterCall(p, c.pos, e), c', 0, 0);
    } else {
      FrameAction(s, t, u, b, p, c', 0, 0);
      FramesSay(s, t, u, b, p, c', 0, 0);
    }
  }

  lemma EntriesSay(s: Sys, u: nat, b: Action, i: nat)
    requires Enabled(s, u, b) && i < |s.w.ss| && Enabled(WithInit(s, i), u, b) && Entries(s, u, b, i)
    ensures |Apply(s, u, b).w.ss| == |s.w.ss| && Apply(WithInit(s, i), u, b) == WithInit(Apply(s, u, b), i)
  {
    hide Apply, Enabled;
  }

  /**
    In every state of every run, an action of t on its own context and any action of any other
    thread can be taken in either order, with the same result.
   */
  lemma OwnActionsCommute(trace: seq<Sys>, k: nat, t: nat, a: Action, u: nat, b: Action)
    requires Run(trace) && k < |trace| && t != u
    requires Enabled(trace[k], t, a) && Enabled(trace[k], u, b) && OwnAction(trace[k], t, a)
    ensures Commutes(trace[k], t, a, u, b)
  {
    RunKeepsInv(trace, k);
    var s := trace[k];
    hide Inv, Apply, Enabled, Commutes, Run;
    if a.Return? {
      ReturnCommutes(s, t, u, b);
    } else if InitStep(s, t, a) {
      InitStepCommutes(s, t, a.e, u, b);
    } else {
      PlainOwnCommutes(s, t, a, u, b);
    }
  }
}
