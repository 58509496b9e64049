/** Every action of every thread keeps the invariant. */
module InvariantProof {
  import opened Wrappers
  import opened Tables
  import opened SlotList
  import opened Scheduler
  import opened Allocator
  import opened Protocol
  import opened Invariant

  // ----- Counting ------------------------------------------------------------------------------

  predicate IsPending(c: Pc) {
    c.FinishWait? || c.FinishLocked?
  }

  lemma PendingMoves(pc: seq<Pc>, t: nat, c: Pc)
    requires t < |pc|
    ensures |Pending(pc[t := c])| == |Pending(pc)|
      + (if IsPending(c) then 1 else 0) - (if IsPending(pc[t]) then 1 else 0)
  {
    var a, b := Pending(pc), Pending(pc[t := c]);
    assert a - {t} == b - {t};
    assert t in a <==> IsPending(pc[t]);
    assert t in b <==> IsPending(c);
    assert |a - {t}| == |a| - if t in a then 1 else 0;
    assert |b - {t}| == |b| - if t in b then 1 else 0;
  }

  lemma FinishedKept(ss: seq<Scav>, ss': seq<Scav>)
    requires |ss'| == |ss| && forall i :: 0 <= i < |ss| ==> ss'[i].finished == ss[i].finished
    ensures Finished(ss') == Finished(ss)
  {
  }

  /** An action that moves only program counter and context keeps the count. */
  lemma CountKept(s: Sys, s': Sys, t: nat)
    requires CountOK(s) && t < |s.pc| == |s'.pc| && s'.pc == s.pc[t := s'.pc[t]]
    requires IsPending(s'.pc[t]) == IsPending(s.pc[t])
    requires s'.finishedCnt == s.finishedCnt && s'.misses == s.misses
    requires |s'.w.ss| == |s.w.ss|
    requires forall i :: 0 <= i < |s.w.ss| ==> s'.w.ss[i].finished == s.w.ss[i].finished
    ensures CountOK(s')
  {
    PendingMoves(s.pc, t, s'.pc[t]);
    FinishedKept(s.w.ss, s'.w.ss);
  }

  // ----- Own-context actions without the table ---------------------------------------------------

  /** The action changed t's context but no index, and not the scavenger table. */
  predicate LinkMove(s: Sys, s': Sys, t: nat, p: Prim, c: Pc)
    requires t < |s.pc| == |s.w.prims|
  {
    && s'.w == s.w.(prims := s.w.prims[t := p]) && s'.pc == s.pc[t := c]
    && s'.slots == s.slots && s'.max == s.max
    && p.idx == s.w.prims[t].idx && Shape(p, s.slots)
    && p.reallocatable == s.w.prims[t].reallocatable
  }

  lemma LinkMoveKeepsInv(s: Sys, s': Sys, t: nat, p: Prim, c: Pc)
    requires Inv(s) && t < |s.pc| && LinkMove(s, s', t, p, c)
    requires Quiet(s.pc[t]) && Quiet(c) && LockMoves(s, s', t)
    requires WorldShape(s'.w, s'.slots) ==> PcTyped(s', t)
    requires IdxInRange(p.idx, |s.w.ss|) ==> ThreadOK(p, c, s.w.ss, s.max)
    requires CountOK(s')
    ensures Inv(s')
  {
    hide LockOK, FlagOK, Placed, ScavsOK, CountOK, ThreadOK, PcTyped;
    assert s'.w.ss == s.w.ss && s'.w.prims[t] == p && s'.pc[t] == c;
    PlacedKept(s.w, s'.w);
    OwnMoveKeepsInv(s, s', t);
  }

  lemma NoneHosted(p: Prim)
    requires WellShaped(p)
    ensures Count(p.idx) == 0 <==> FirstUsed(p.idx, 1) == 0
  {
    CountToBounds(p.idx, |p.idx|);
  }

  /** SetNormal at slot 0 does not touch what the scavengers' slots say. */
  lemma PrimaryLinkOnly(p: Prim, v: int)
    requires WellShaped(p)
    ensures LiveSlots(SetNormal(p, 0, v)) == LiveSlots(p)
    ensures forall n, closed :: LinksSet(SetNormal(p, 0, v), n, closed) == LinksSet(p, n, closed)
  {
    forall n, closed ensures LinksSet(SetNormal(p, 0, v), n, closed) == LinksSet(p, n, closed) {
      var p' := SetNormal(p, 0, v);
      assert forall q :: 1 <= q < |p.ycs| ==> p'.ycs[q] == p.ycs[q];
    }
  }

  lemma UpdatedLink(p: Prim)
    requires WellShaped(p) && LiveSlots(p) && p.ycs[0].normal != EMPTY
    ensures UpdateNextMap(p).ycs[0].normal == YC_SIZE * FirstUsed(p.idx, 1)
    ensures LiveSlots(UpdateNextMap(p))
  {
    ScansAgree(p, 1);
    PrimaryLinkOnly(p, YC_SIZE * FirstLive(p.ycs, 1));
  }

  lemma CreateThread(p: Prim, ss: seq<Scav>, max: int)
    requires WellShaped(p) && IdxInRange(p.idx, |ss|) && ThreadOK(p, Unborn, ss, max)
    ensures NeedMore(p, max) == 0 ==> ThreadOK(InitPrimaryCtx(p, 0), Running(true), ss, max)
    ensures NeedMore(p, max) != 0 ==> ThreadOK(p, AllocWait(Birth, NeedMore(p, max)), ss, max)
  {
    CountToBounds(p.idx, |p.idx|);
    NoneHosted(p);
    PrimaryLinkOnly(p, 0);
  }

  lemma CreateKeepsInv(s: Sys, t: nat)
    requires Inv(s) && Enabled(s, t, Create)
    ensures Inv(Apply(s, t, Create))
  {
    hide LockOK, FlagOK, Placed, ScavsOK, ThreadOK, CountOK;
    var s', p := Apply(s, t, Create), s.w.prims[t];
    CreateThread(p, s.w.ss, s.max);
    CountKept(s, s', t);
    AllocatedFlag(s, t);
    if NeedMore(p, s.max) == 0 {
      LinkMoveKeepsInv(s, s', t, InitPrimaryCtx(p, 0), Running(true));
    } else {
      LinkMoveKeepsInv(s, s', t, p, AllocWait(Birth, NeedMore(p, s.max)));
    }
  }

  lemma SavedThread(p: Prim, p': Prim, c: Pc, ss: seq<Scav>, max: int)
    requires WellShaped(p) && IdxInRange(p.idx, |ss|) && ThreadOK(p, c, ss, max) && (c.Running? || c.Draining?)
    requires p' == p.(ycs := p'.ycs, regs := p'.regs) && Shape(p', |p.idx|)
    requires forall q :: 0 <= q < |p.ycs| ==>
      p'.ycs[q].normal == p.ycs[q].normal && p'.ycs[q].special == p.ycs[q].special
    ensures ThreadOK(p', c, ss, max)
  {
  }

  lemma SaveKeepsInv(s: Sys, t: nat, pos: nat, v: Saved)
    requires Inv(s) && Enabled(s, t, Save(pos, v))
    ensures Inv(Apply(s, t, Save(pos, v)))
  {
    hide LockOK, FlagOK, Placed, ScavsOK, ThreadOK, CountOK;
    var s', p := Apply(s, t, Save(pos, v)), s.w.prims[t];
    var p' := s'.w.prims[t];
    SavedThread(p, p', s.pc[t], s.w.ss, s.max);
    CountKept(s, s', t);
    LinkMoveKeepsInv(s, s', t, p', s.pc[t]);
  }

  // ----- Finish events and cleanup ---------------------------------------------------------------

  /** A context just after tl_finish_crt, outside the lock. */
  predicate JustFinished(p: Prim, ss: seq<Scav>, max: int)
    requires WellShaped(p) && IdxInRange(p.idx, |ss|)
  {
    && p.idx[0] == EMPTY && 0 <= p.scavNum && Count(p.idx) <= Cap(max)
    && AllInited(p.idx, ss) && !p.reallocated
    && (if p.ycs[0].normal == EMPTY then SlotsAgreeBut(p, 0) else LiveSlots(p))
  }

  lemma AfterFinishThread(s: Sys, t: nat)
    requires t < |s.pc| == |s.w.prims| && Shape(s.w.prims[t], s.slots)
    requires IdxInRange(s.w.prims[t].idx, |s.w.ss|) && JustFinished(s.w.prims[t], s.w.ss, s.max)
    ensures
      var s' := AfterFinish(s, t);
      && ThreadOK(s'.w.prims[t], s'.pc[t], s.w.ss, s.max)
      && (s'.pc[t] == Packing(1) || s'.pc[t].Draining? || s'.pc[t].Running?)
      && s' == Put(s, t, s'.w.prims[t], s'.pc[t])
      && s'.w.prims[t].idx == s.w.prims[t].idx && Shape(s'.w.prims[t], s.slots)
      && s'.w.prims[t].reallocatable == s.w.prims[t].reallocatable
  {
    var p := s.w.prims[t];
    NoneHosted(p);
    if p.ycs[0].normal != EMPTY {
      UpdatedLink(p);
    } else if FirstUsed(p.idx, 1) == 0 {
      PrimaryLinkOnly(p, 0);
    }
  }

  lemma FinishMarks(p: Prim, c: Pc, ss: seq<Scav>, max: int, pos: nat)
    requires WellShaped(p) && IdxInRange(p.idx, |ss|) && ThreadOK(p, c, ss, max)
    requires pos < |p.idx| && (c.Running? || c.Draining?)
    ensures p.idx[pos] != EMPTY ==> 1 <= pos && ThreadOK(SetNormal(p, pos, EMPTY), FinishWait(pos), ss, max)
    ensures p.idx[pos] == EMPTY ==> JustFinished(SetNormal(p, pos, EMPTY), ss, max)
  {
    var p1 := SetNormal(p, pos, EMPTY);
    assert forall q :: 0 <= q < |p.ycs| && q != pos ==> p1.ycs[q] == p.ycs[q];
  }

  lemma FinishKeepsInv(s: Sys, t: nat, pos: nat)
    requires Inv(s) && Enabled(s, t, Finish(pos))
    ensures Inv(Apply(s, t, Finish(pos)))
  {
    hide LockOK, FlagOK, Placed, ScavsOK, ThreadOK, JustFinished, AfterFinish;
    var s', p := Apply(s, t, Finish(pos)), s.w.prims[t];
    var p1 := SetNormal(p, pos, EMPTY);
    FinishMarks(p, s.pc[t], s.w.ss, s.max, pos);
    if p.idx[pos] != EMPTY {
      PendingMoves(s.pc, t, FinishWait(pos));
      LinkMoveKeepsInv(s, s', t, p1, FinishWait(pos));
    } else {
      var s1 := Put(s, t, p1, s.pc[t]).(
        finishedCnt := s.finishedCnt + if pos == 0 then 0 else 1,
        misses := s.misses + if pos == 0 then 0 else 1);
      AfterFinishThread(s1, t);
      assert s' == AfterFinish(s1, t);
      PendingMoves(s.pc, t, s'.pc[t]);
      LinkMoveKeepsInv(s, s', t, s'.w.prims[t], s'.pc[t]);
    }
  }

  lemma CleanupKeepsInv(s: Sys, t: nat)
    requires Inv(s) && Enabled(s, t, Cleanup)
    ensures Inv(Apply(s, t, Cleanup))
  {
    hide LockOK, FlagOK, Placed, ScavsOK, ThreadOK, CountOK, JustFinished, AfterFinish, SelfLinks;
    var s', p := Apply(s, t, Cleanup), s.w.prims[t];
    var p1 := SelfLinks(p);
    CleanupThread(p, s.pc[t], s.w.ss, s.max);
    if FirstUsed(p.idx, 1) == 0 {
      CountKept(s, s', t);
      LinkMoveKeepsInv(s, s', t, SetNormal(p1, 0, 0), Running(true));
    } else {
      AfterFinishThread(Put(s, t, SetNormal(p1, 0, EMPTY), s.pc[t]), t);
      CountKept(s, s', t);
      LinkMoveKeepsInv(s, s', t, s'.w.prims[t], s'.pc[t]);
    }
  }

  lemma CleanupThread(p: Prim, c: Pc, ss: seq<Scav>, max: int)
    requires WellShaped(p) && IdxInRange(p.idx, |ss|) && (c.Running? || c.Draining?) && ThreadOK(p, c, ss, max)
    ensures
      var p1 := SelfLinks(p);
      && p1.idx == p.idx && Shape(p1, |p.idx|) && p1.reallocatable == p.reallocatable
      && (FirstUsed(p.idx, 1) == 0 ==> ThreadOK(SetNormal(p1, 0, 0), Running(true), ss, max))
      && JustFinished(SetNormal(p1, 0, EMPTY), ss, max)
  {
    NoneHosted(p);
    assert SlotsAgreeBut(SetNormal(SelfLinks(p), 0, EMPTY), 0);
  }

  // ----- Locks -----------------------------------------------------------------------------------

  /** One xchg: the invariant of the thread is the same before and behind the lock. */
  lemma TryLockKeepsInv(s: Sys, t: nat, c: Pc)
    requires Inv(s) && At(s, t)
    requires
      || (s.pc[t].FinishWait? && c == FinishLocked(s.pc[t].pos))
      || (s.pc[t].SwapWait? && c == SwapLocked(s.pc[t].a, s.pc[t].b))
      || (s.pc[t].AllocWait? && c == Donors(s.pc[t].who, s.pc[t].need, 0, 0))
    ensures Inv(TryLock(s, t, c))
  {
    hide LockOK, FlagOK, Placed, ScavsOK, ThreadOK, CountOK;
    var s' := TryLock(s, t, c);
    var p := s.w.prims[t];
    LockedThread(p, s.pc[t], c, s.w.ss, s.max);
    if s.lock == 0 {
      CountKept(s, s', t);
      LinkMoveKeepsInv(s, s', t, p, c);
    } else {
      LockByte(s);
    }
  }

  lemma LockByte(s: Sys)
    requires LockOK(s)
    ensures s.lock == 0 || s.lock == 1
  {
  }

  lemma LockedThread(p: Prim, b: Pc, c: Pc, ss: seq<Scav>, max: int)
    requires WellShaped(p) && IdxInRange(p.idx, |ss|) && ThreadOK(p, b, ss, max)
    requires
      || (b.FinishWait? && c == FinishLocked(b.pos))
      || (b.SwapWait? && c == SwapLocked(b.a, b.b))
      || (b.AllocWait? && c == Donors(b.who, b.need, 0, 0))
    ensures ThreadOK(p, c, ss, max)
  {
    hide Steady, LiveSlots, Count, SlotsAgreeBut, LiveSlotsBut;
  }

  // ----- Retire, swap ----------------------------------------------------------------------------

  lemma RetireThread(l: Local, pos: nat, max: int)
    requires Sound(l) && pos < |l.p.idx| && ThreadOK(l.p, FinishLocked(pos), l.ss, max)
    ensures
      var l' := Retire(l, pos);
      && JustFinished(l'.p, l'.ss, max) && InitGrows(l.ss, l'.ss)
      && l'.p.reallocatable == l.p.reallocatable
  {
    CountUpdate(l.p.idx, pos, EMPTY);
  }

  lemma RetireRelocates(w: World, t: nat, pos: nat, w': World)
    requires t < |w.prims| && Sound(LocalOf(w, t)) && pos < |w.prims[t].idx| && w.prims[t].idx[pos] != EMPTY
    requires Placed(w) && ScavsOK(w.ss)
    requires
      var l := Retire(LocalOf(w, t), pos);
      |w'.prims| == |w.prims| && w'.prims[t].idx == l.p.idx && w' == WithLocal(w, t, l.(p := w'.prims[t]))
    ensures Placed(w') && ScavsOK(w'.ss) && |Finished(w'.ss)| == |Finished(w.ss)| + 1
  {
    var i := w.prims[t].idx[pos];
    assert LivesAt(w.ss, i, t, pos);
    RelocatingKeepsPlaced(w, w', i, None);
    assert Finished(w'.ss) == Finished(w.ss) + {i};
  }

  lemma RetireKeepsInv(s: Sys, t: nat)
    requires Inv(s) && At(s, t) && s.pc[t].FinishLocked?
    ensures Inv(DoRetire(s, t))
  {
    hide LockOK, FlagOK, Placed, ScavsOK, ThreadOK, JustFinished, AfterFinish, Finished, Pending, Retire;
    var pos, s' := s.pc[t].pos, DoRetire(s, t);
    var l := Retire(LocalOf(s.w, t), pos);
    RetireThread(LocalOf(s.w, t), pos, s.max);
    AfterFinishThread(Unlocked(s.(w := WithLocal(s.w, t, l))), t);
    RetireRelocates(s.w, t, pos, s'.w);
    PendingMoves(s.pc, t, s'.pc[t]);
    OwnMoveKeepsInv(s, s', t);
  }

  /** Relinking a compacted list changes links only, and gets them right. */
  lemma SpecialRefreshes(p: Prim)
    requires WellShaped(p) && PackedTo(p.idx, |p.idx|) && 0 <= p.scavNum && LiveSlots(p)
    ensures
      var p1 := SetSpecialNext(p);
      && Shape(p1, |p.idx|) && p1 == p.(ycs := p1.ycs) && p1.ycs[0] == p.ycs[0] && LiveSlots(p1)
      && Prefix(p.idx) && LinksSet(p1, Count(p.idx), Count(p.idx) < |p.idx| - 1)
  {
    PrefixSlots(p.idx);
  }

  lemma PackedThread(p: Prim, ss: seq<Scav>, max: int)
    requires WellShaped(p) && IdxInRange(p.idx, |ss|) && ThreadOK(p, Packing(|p.idx|), ss, max)
    ensures
      var p1 := SetSpecialNext(p);
      && p1.idx == p.idx && Shape(p1, |p.idx|) && p1.reallocatable == p.reallocatable
      && (NeedMore(p1, max) == 0 ==> ThreadOK(UpdateNextMap(p1), Running(true), ss, max))
      && (NeedMore(p1, max) != 0 ==> ThreadOK(p1, AllocWait(Event, NeedMore(p1, max)), ss, max))
  {
    hide SetSpecialNext, LiveSlots, LinksSet, Prefix, Count, UpdateNextMap, PackedTo, InitedBelow;
    var p1 := SetSpecialNext(p);
    SpecialRefreshes(p);
    if NeedMore(p1, max) == 0 {
      RefreshedIsLinked(p1);
      UpdateKeepsShape(p1);
    }
  }

  lemma RefreshedIsLinked(p: Prim)
    requires WellShaped(p) && Prefix(p.idx) && LiveSlots(p) && p.ycs[0].normal != EMPTY
    requires LinksSet(p, Count(p.idx), Count(p.idx) < |p.idx| - 1)
    ensures Shape(UpdateNextMap(p), |p.idx|) && Linked(UpdateNextMap(p), true)
    ensures UpdateNextMap(p) == p.(ycs := UpdateNextMap(p).ycs)
  {
    hide LiveSlots, LinksSet, Prefix, Count;
    UpdatedLink(p);
    PrimaryLinkOnly(p, YC_SIZE * FirstLive(p.ycs, 1));
  }

  lemma PackSearches(p: Prim, pos: nat, ss: seq<Scav>, max: int)
    requires WellShaped(p) && IdxInRange(p.idx, |ss|) && 1 <= pos < |p.idx|
    requires ThreadOK(p, Packing(pos), ss, max)
    ensures
      var b := SwapPartner(p.idx, pos);
      ThreadOK(p, if b == 0 then Packing(pos + 1) else SwapWait(pos, b), ss, max)
  {
  }

  lemma PackKeepsInv(s: Sys, t: nat)
    requires Inv(s) && At(s, t) && s.pc[t].Packing?
    ensures Inv(DoPack(s, t))
  {
    hide LockOK, FlagOK, Placed, ScavsOK, ThreadOK, CountOK, SetSpecialNext, UpdateNextMap;
    var p, s' := s.w.prims[t], DoPack(s, t);
    assert ThreadOK(p, s.pc[t], s.w.ss, s.max);
    CountKept(s, s', t);
    if s.pc[t].pos == s.slots {
      PackedThread(p, s.w.ss, s.max);
      assert UpdateNextMap(SetSpecialNext(p)).idx == p.idx by { UpdateKeepsShape(SetSpecialNext(p)); }
      UpdateKeepsShape(SetSpecialNext(p));
    } else {
      PackSearches(p, s.pc[t].pos, s.w.ss, s.max);
    }
    LinkMoveKeepsInv(s, s', t, s'.w.prims[t], s'.pc[t]);
  }

  lemma UpdateKeepsShape(p: Prim)
    requires WellShaped(p)
    ensures UpdateNextMap(p).idx == p.idx && Shape(UpdateNextMap(p), |p.idx|)
    ensures UpdateNextMap(p).reallocatable == p.reallocatable
  {
  }

  lemma SwapThread(l: Local, t: nat, a: nat, b: nat, max: int)
    requires Sound(l) && 1 <= a < b < |l.p.idx| && ThreadOK(l.p, SwapLocked(a, b), l.ss, max)
    ensures
      var l' := Swap(l, t, a, b);
      && ThreadOK(l'.p, Packing(a + 1), l'.ss, max) && InitGrows(l.ss, l'.ss)
      && l'.p.reallocatable == l.p.reallocatable
      && l.p.idx[a] == EMPTY && l.p.idx[b] != EMPTY
  {
    SwapMovesOne(l.p, a, b);
    SwapKeepsLiveSlots(l.p, a, b);
    CountUpdate(l.p.idx, a, l.p.idx[b]);
    CountUpdate(l.p.idx[a := l.p.idx[b]], b, EMPTY);
  }

  lemma SwapRelocates(w: World, t: nat, a: nat, b: nat)
    requires t < |w.prims| && Sound(LocalOf(w, t)) && 1 <= a < b < |w.prims[t].idx|
    requires w.prims[t].idx[a] == EMPTY && w.prims[t].idx[b] != EMPTY
    requires Placed(w) && ScavsOK(w.ss)
    ensures
      var w' := WithLocal(w, t, Swap(LocalOf(w, t), t, a, b));
      && Placed(w') && ScavsOK(w'.ss)
      && forall i :: 0 <= i < |w.ss| ==> w'.ss[i].finished == w.ss[i].finished
  {
    var w' := WithLocal(w, t, Swap(LocalOf(w, t), t, a, b));
    var i := w.prims[t].idx[b];
    assert LivesAt(w.ss, i, t, b);
    RelocatingKeepsPlaced(w, w', i, Some(Loc(t, a)));
  }

  lemma SwapKeepsInv(s: Sys, t: nat)
    requires Inv(s) && At(s, t) && s.pc[t].SwapLocked?
    ensures Inv(DoSwap(s, t))
  {
    hide LockOK, FlagOK, Placed, ScavsOK, ThreadOK, CountOK, Swap;
    var p, a, b, s' := s.w.prims[t], s.pc[t].a, s.pc[t].b, DoSwap(s, t);
    SwapThread(LocalOf(s.w, t), t, a, b, s.max);
    SwapRelocates(s.w, t, a, b);
    CountKept(s, s', t);
    OwnMoveKeepsInv(s, s', t);
  }

  // ----- The pool and init -----------------------------------------------------------------------

  lemma PoolThread(l: Local, t: nat, c: Pc, max: int)
    requires Sound(l) && c.Pool? && c.got < c.need && c.i < |l.ss| && ThreadOK(l.p, c, l.ss, max)
    ensures
      var (l', o) := PoolOne(l, t, c.i);
      var got := c.got + if o.Taken? then 1 else 0;
      && Allocating(l'.p, c.who, c.need, got, max) && Count(l'.p.idx) <= max && 1 <= max
      && l'.p.idx[0] == EMPTY && 0 <= l'.p.scavNum && InitGrows(l.ss, l'.ss)
      && l'.p.reallocatable == l.p.reallocatable
  {
    var (l', o) := PoolOne(l, t, c.i);
    if o.Taken? {
      PushKeepsPrefix(l.p.idx, c.i);
      PrefixSlots(l.p.idx);
      var q := PushBack(l.p.idx, c.i).1;
      assert forall r :: 0 <= r < |l.p.idx| && r != q ==>
        l'.p.ycs[r] == l.p.ycs[r] && l'.p.idx[r] == l.p.idx[r];
    }
  }

  lemma PoolRelocates(w: World, t: nat, i: nat)
    requires t < |w.prims| && Sound(LocalOf(w, t)) && i < |w.ss| && Placed(w) && ScavsOK(w.ss)
    ensures
      var w' := WithLocal(w, t, PoolOne(LocalOf(w, t), t, i).0);
      && Placed(w') && ScavsOK(w'.ss)
      && forall j :: 0 <= j < |w.ss| ==> w'.ss[j].finished == w.ss[j].finished
  {
    var (l, o) := PoolOne(LocalOf(w, t), t, i);
    var w' := WithLocal(w, t, l);
    if o.Taken? {
      var q := PushBack(w.prims[t].idx, i).1;
      RelocatingKeepsPlaced(w, w', i, Some(Loc(t, q)));
    } else {
      assert w' == w;
    }
  }

  lemma AllocatingThread(p: Prim, who: Caller, need: nat, got: nat, ss: seq<Scav>, max: int, i: nat)
    requires WellShaped(p) && IdxInRange(p.idx, |ss|) && Allocating(p, who, need, got, max)
    requires p.idx[0] == EMPTY && 0 <= p.scavNum && Count(p.idx) <= max && 1 <= max
    ensures ThreadOK(p, Pool(who, need, i, got), ss, max)
    ensures ThreadOK(p, Initing(who, 1, got), ss, max)
  {
    hide Steady;
  }

  lemma PoolLeaves(p: Prim, who: Caller, need: nat, got: nat, ss: seq<Scav>, max: int, i: nat)
    requires WellShaped(p) && IdxInRange(p.idx, |ss|) && ThreadOK(p, Pool(who, need, i, got), ss, max)
    ensures ThreadOK(p, Initing(who, 1, got), ss, max)
  {
    hide Steady;
  }

  lemma PoolKeepsInv(s: Sys, t: nat)
    requires Inv(s) && At(s, t) && s.pc[t].Pool?
    ensures Inv(DoPool(s, t))
  {
    hide LockOK, FlagOK, Placed, ScavsOK, CountOK, PoolOne, Allocating, Steady, CallerOK, ThreadOK;
    var c, s' := s.pc[t], DoPool(s, t);
    if c.i == |s.w.ss| {
      PoolLeaves(s.w.prims[t], c.who, c.need, c.got, s.w.ss, s.max, c.i);
      CountKept(s, s', t);
      LinkMoveKeepsInv(s, s', t, s.w.prims[t], s'.pc[t]);
    } else {
      PoolThread(LocalOf(s.w, t), t, c, s.max);
      PoolRelocates(s.w, t, c.i);
      var (l, o) := PoolOne(LocalOf(s.w, t), t, c.i);
      AllocatingThread(l.p, c.who, c.need, c.got + if o.Taken? then 1 else 0, l.ss, s.max, c.i + 1);
      CountKept(s, s', t);
      OwnMoveKeepsInv(s, s', t);
    }
  }

  lemma InitOneThread(l: Local, c: Pc, max: int, e: InitEffect)
    requires Sound(l) && c.Initing? && 1 <= c.pos < |l.p.idx| && ThreadOK(l.p, c, l.ss, max)
    requires forall q, r :: 0 <= q < r < |l.p.idx| && l.p.idx[q] != EMPTY ==> l.p.idx[q] != l.p.idx[r]
    requires ScavsOK(l.ss)
    ensures
      var l' := InitOne(l, c.pos, e);
      && ThreadOK(l'.p, Initing(c.who, c.pos + 1, c.got), l'.ss, max)
      && InitGrows(l.ss, l'.ss) && ScavsOK(l'.ss)
      && l'.p.idx == l.p.idx && l'.p.reallocatable == l.p.reallocatable
      && forall i :: 0 <= i < |l.ss| ==> SameSpot(l'.ss[i], l.ss[i])
  {
    assert LiveSlots(InitOne(l, c.pos, e).p);
  }

  lemma RelinkedSteady(p: Prim)
    requires WellShaped(p) && Steady(p)
    ensures Steady(SetSpecialNext(p))
  {
  }

  /** set_special_next and then any write of the right primary link give a linked context. */
  lemma RelinkedContext(p: Prim)
    requires WellShaped(p) && Steady(p) && 0 <= p.scavNum
    ensures
      var p1 := SetSpecialNext(p);
      && Steady(p1)
      && Linked(SetNormal(p1, 0, YC_SIZE * FirstUsed(p.idx, 1)), true)
      && (p.ycs[0].normal != EMPTY ==> UpdateNextMap(p1) == SetNormal(p1, 0, YC_SIZE * FirstUsed(p.idx, 1)))
      && (Count(p.idx) == 0 <==> FirstUsed(p.idx, 1) == 0) && FirstUsed(p.idx, 1) <= 1
  {
    var p1 := SetSpecialNext(p);
    PrefixSlots(p.idx);
    ScansAgree(p1, 1);
    assert LinksSet(p1, Count(p.idx), Count(p.idx) < |p.idx| - 1);
    PrimaryLinkOnly(p1, YC_SIZE * FirstUsed(p.idx, 1));
  }

  lemma AllocatedThread(p: Prim, who: Caller, got: nat, ss: seq<Scav>, max: int)
    requires WellShaped(p) && IdxInRange(p.idx, |ss|) && ThreadOK(p, Initing(who, |p.idx|, got), ss, max)
    ensures
      var p1 := SetSpecialNext(p);
      && (who.Birth? ==> ThreadOK(InitPrimaryCtx(p1, got), Running(true), ss, max))
      && (who.Event? ==> ThreadOK(UpdateNextMap(p1), Running(true), ss, max))
      && (who.Exit? ==> ThreadOK(UpdateNextMap(p1).(reallocated := false), Running(true), ss, max))
  {
    hide LiveSlots, Prefix, LinksSet, Count, InitedBelow, SetSpecialNext, UpdateNextMap, Linked, FirstUsed;
    RelinkedContext(p);
    SpecialKeepsRest(p);
    var p1 := SetSpecialNext(p);
    var p2 := SetNormal(p1, 0, YC_SIZE * FirstUsed(p.idx, 1));
    FlagsDoNotLink(p2, true, got, false);
    FlagsDoNotLink(p2, true, p.scavNum, p.reallocatable);
  }

  lemma SpecialKeepsRest(p: Prim)
    requires WellShaped(p)
    ensures
      var p1 := SetSpecialNext(p);
      Shape(p1, |p.idx|) && p1 == p.(ycs := p1.ycs) && p1.ycs[0] == p.ycs[0]
  {
  }

  lemma FlagsDoNotLink(p: Prim, linked: bool, n: int, flag: bool)
    requires WellShaped(p) && Linked(p, linked)
    ensures Linked(p.(scavNum := n, reallocatable := flag, reallocated := false), linked)
  {
  }

  lemma InitKeepsInv(s: Sys, t: nat, e: InitEffect)
    requires Inv(s) && At(s, t) && s.pc[t].Initing?
    ensures Inv(DoInit(s, t, e))
  {
    var idx := s.w.prims[t].idx;
    forall q, r | 0 <= q < r < |idx| && idx[q] != EMPTY ensures idx[q] != idx[r] {
      if idx[q] == idx[r] {
        HostIsUnique(s.w, t, q, t, r);
      }
    }
    InitAssembles(s, t, e);
  }

  lemma InitAssembles(s: Sys, t: nat, e: InitEffect)
    requires Inv(s) && At(s, t) && s.pc[t].Initing?
    requires
      var idx := s.w.prims[t].idx;
      forall q, r :: 0 <= q < r < |idx| && idx[q] != EMPTY ==> idx[q] != idx[r]
    ensures Inv(DoInit(s, t, e))
  {
    hide LockOK, FlagOK, Placed, ScavsOK, CountOK, ThreadOK, InitOne, SetSpecialNext, UpdateNextMap;
    var c, p, s' := s.pc[t], s.w.prims[t], DoInit(s, t, e);
    if c.pos == s.slots {
      AllocatedThread(p, c.who, c.got, s.w.ss, s.max);
      SpecialKeepsShape(p);
      UpdateKeepsShape(SetSpecialNext(p));
      CountKept(s, s', t);
      AllocatedFlag(s, t);
      LinkMoveKeepsInv(s, s', t, s'.w.prims[t], s'.pc[t]);
    } else {
      InitOneThread(LocalOf(s.w, t), c, s.max, e);
      PlacedKept(s.w, s'.w);
      CountKept(s, s', t);
      OwnMoveKeepsInv(s, s', t);
    }
  }

  lemma SpecialKeepsShape(p: Prim)
    requires WellShaped(p)
    ensures SetSpecialNext(p).idx == p.idx && Shape(SetSpecialNext(p), |p.idx|)
    ensures SetSpecialNext(p).reallocatable == p.reallocatable
  {
  }

  /** A thread outside a call has its flag down: init_primary_ctx resets nothing. */
  lemma AllocatedFlag(s: Sys, t: nat)
    requires |s.pc| == |s.w.prims| && FlagOK(s) && t < |s.pc| && !AtCall(s.pc[t])
    ensures !s.w.prims[t].reallocatable
  {
  }

  lemma DonorSkipKeepsInv(s: Sys, t: nat)
    requires Inv(s) && At(s, t) && s.pc[t].Donors?
    requires s.pc[t].d < |s.pc| ==> !s.w.prims[s.pc[t].d].reallocatable
    ensures Inv(DoDonor(s, t))
  {
    hide LockOK, FlagOK, Placed, ScavsOK, CountOK, Allocating, Count;
    var s' := DoDonor(s, t);
    assert ThreadOK(s.w.prims[t], s.pc[t], s.w.ss, s.max);
    CountKept(s, s', t);
    LinkMoveKeepsInv(s, s', t, s.w.prims[t], s'.pc[t]);
  }

  // ----- Actions on flags and on a donor ---------------------------------------------------------

  /** Between s and s', thread t moved, in its own context and in that of d. */
  predicate PairMove(s: Sys, s': Sys, t: nat, d: nat)
    requires t < |s.pc| == |s.w.prims| && d < |s.pc|
  {
    && s'.slots == s.slots && s'.max == s.max
    && |s'.pc| == |s.pc| && |s'.w.prims| == |s.w.prims| && |s'.w.ss| == |s.w.ss|
    && (forall u :: 0 <= u < |s.pc| && u != t ==> s'.pc[u] == s.pc[u])
    && (forall u :: 0 <= u < |s.pc| && u != t && u != d ==> s'.w.prims[u] == s.w.prims[u])
    && Shape(s'.w.prims[t], s.slots) && IdxInRange(s'.w.prims[t].idx, |s.w.ss|)
    && Shape(s'.w.prims[d], s.slots) && IdxInRange(s'.w.prims[d].idx, |s.w.ss|)
    && InitGrows(s.w.ss, s'.w.ss)
  }

  lemma PairMoveKeepsInv(s: Sys, s': Sys, t: nat, d: nat)
    requires Inv(s) && t < |s.pc| && d < |s.pc| && PairMove(s, s', t, d)
    requires t == d || AtCall(s.pc[d])
    requires LockMoves(s, s', t) && FlagOK(s')
    requires WorldShape(s'.w, s'.slots) ==> PcTyped(s', t)
    requires ThreadOK(s'.w.prims[t], s'.pc[t], s'.w.ss, s'.max)
    requires ThreadOK(s'.w.prims[d], s'.pc[d], s'.w.ss, s'.max)
    requires Placed(s'.w) && ScavsOK(s'.w.ss) && CountOK(s')
    ensures Inv(s')
  {
    hide LockOK, FlagOK, Placed, ScavsOK, CountOK, ThreadOK;
    assert WorldShape(s'.w, s'.slots);
    forall u | 0 <= u < |s'.pc| ensures PcTyped(s', u) {
      assert PcTyped(s, u);
    }
    LockKept(s, s', t);
    forall u | 0 <= u < |s'.pc| ensures ThreadOK(s'.w.prims[u], s'.pc[u], s'.w.ss, s'.max) {
      if u != t && u != d {
        ThreadOKKept(s.w.prims[u], s.pc[u], s.w.ss, s'.w.ss, s.max);
      }
    }
  }

  lemma EnterKeepsInv(s: Sys, t: nat)
    requires Inv(s) && Enabled(s, t, Enter)
    ensures Inv(Apply(s, t, Enter))
  {
    hide ThreadOK, LockOK, FlagOK, Placed, ScavsOK, CountOK;
    var s', p := Apply(s, t, Enter), s.w.prims[t];
    EnterThread(p, s.pc[t], s.w.ss, s.max);
    EnterFlags(s, t);
    PlacedKept(s.w, s'.w);
    CountKept(s, s', t);
    PairMoveKeepsInv(s, s', t, t);
  }

  lemma EnterThread(p: Prim, c: Pc, ss: seq<Scav>, max: int)
    requires WellShaped(p) && IdxInRange(p.idx, |ss|) && c.Running? && ThreadOK(p, c, ss, max)
    ensures ThreadOK(p.(reallocatable := true), Blocked(p, c.linked), ss, max)
  {
  }

  lemma EnterFlags(s: Sys, t: nat)
    requires |s.pc| == |s.w.prims| && FlagOK(s) && Enabled(s, t, Enter)
    ensures FlagOK(Apply(s, t, Enter))
  {
    var s' := Apply(s, t, Enter);
    assert forall u :: 0 <= u < |s.pc| ==> !Robs(s.pc[u], t);
    forall d | 0 <= d < |s'.pc| && AtCall(s'.pc[d]) && !s'.w.prims[d].reallocatable
      ensures exists u :: 0 <= u < |s'.pc| && Robs(s'.pc[u], d)
    {
      var u :| 0 <= u < |s.pc| && Robs(s.pc[u], d);
      assert Robs(s'.pc[u], d);
    }
  }

  lemma ReturnThread(p: Prim, c: Pc, ss: seq<Scav>, max: int)
    requires WellShaped(p) && IdxInRange(p.idx, |ss|) && c.Blocked? && ThreadOK(p, c, ss, max)
    ensures ThreadOK(p, Exiting(c.snap, c.linked), ss, max)
  {
    hide InCall;
  }

  lemma ReturnFlags(s: Sys, t: nat)
    requires |s.pc| == |s.w.prims| && FlagOK(s) && Enabled(s, t, Return)
    ensures FlagOK(Apply(s, t, Return))
  {
    var s' := Apply(s, t, Return);
    forall d | 0 <= d < |s'.pc| && AtCall(s'.pc[d]) && !s'.w.prims[d].reallocatable
      ensures exists u :: 0 <= u < |s'.pc| && Robs(s'.pc[u], d)
    {
      var u :| 0 <= u < |s.pc| && Robs(s.pc[u], d);
      assert Robs(s'.pc[u], d);
    }
  }

  lemma ReturnKeepsInv(s: Sys, t: nat)
    requires Inv(s) && Enabled(s, t, Return)
    ensures Inv(Apply(s, t, Return))
  {
    hide ThreadOK, LockOK, FlagOK, Placed, ScavsOK, CountOK;
    var s', p := Apply(s, t, Return), s.w.prims[t];
    ReturnThread(p, s.pc[t], s.w.ss, s.max);
    ReturnFlags(s, t);
    CountKept(s, s', t);
    PairMoveKeepsInv(s, s', t, t);
  }

  /** On exit the owner has its context back, linked, or goes on to allocate. */
  lemma ExitThread(p: Prim, c: Pc, ss: seq<Scav>, max: int)
    requires WellShaped(p) && IdxInRange(p.idx, |ss|) && c.Exiting? && ThreadOK(p, c, ss, max)
    ensures
      var p1 := p.(reallocatable := false);
      && (!p.reallocated ==> ThreadOK(p1, Running(c.linked), ss, max))
      && (p.reallocated && NeedMore(p1, max) == 0 ==>
        ThreadOK(UpdateNextMap(p1).(reallocated := false), Running(false), ss, max))
      && (p.reallocated && NeedMore(p1, max) != 0 ==>
        ThreadOK(p1, AllocWait(Exit, NeedMore(p1, max)), ss, max))
  {
    var p1 := p.(reallocatable := false);
    if !p.reallocated {
      hide LiveSlots, Prefix, LinksSet, Count, InitedBelow;
    } else if NeedMore(p1, max) == 0 {
      ExitStale(p, c, ss, max);
    } else {
      hide LiveSlots, Prefix, LinksSet, Linked, LostSuffix, UpdateNextMap;
    }
  }

  /** A robbed thread at the cap sets its link and leaves with special links that lead on. */
  lemma ExitStale(p: Prim, c: Pc, ss: seq<Scav>, max: int)
    requires WellShaped(p) && IdxInRange(p.idx, |ss|) && c.Exiting? && ThreadOK(p, c, ss, max) && p.reallocated
    ensures ThreadOK(UpdateNextMap(p.(reallocatable := false)).(reallocated := false), Running(false), ss, max)
  {
    UpdatedLink(p.(reallocatable := false));
  }

  lemma ExitFlags(s: Sys, s': Sys, t: nat)
    requires |s.pc| == |s.w.prims| && FlagOK(s) && Enabled(s, t, TryExit) && s.w.prims[t].reallocatable
    requires |s'.w.prims| == |s'.pc| == |s.pc| && s' == Put(s, t, s'.w.prims[t], s'.pc[t])
    requires !s'.w.prims[t].reallocatable && Quiet(s'.pc[t])
    ensures FlagOK(s')
  {
    forall d | 0 <= d < |s'.pc| && AtCall(s'.pc[d]) && !s'.w.prims[d].reallocatable
      ensures exists u :: 0 <= u < |s'.pc| && Robs(s'.pc[u], d)
    {
      var u :| 0 <= u < |s.pc| && Robs(s.pc[u], d);
      assert Robs(s'.pc[u], d);
    }
  }

  lemma TryExitKeepsInv(s: Sys, t: nat)
    requires Inv(s) && Enabled(s, t, TryExit)
    ensures Inv(Apply(s, t, TryExit))
  {
    hide ThreadOK, LockOK, FlagOK, Placed, ScavsOK, CountOK, UpdateNextMap, NeedMore;
    var s', p := Apply(s, t, TryExit), s.w.prims[t];
    if p.reallocatable {
      ExitThread(p, s.pc[t], s.w.ss, s.max);
      UpdateKeepsShape(p.(reallocatable := false));
      ExitFlags(s, s', t);
      PlacedKept(s.w, s'.w);
      CountKept(s, s', t);
      PairMoveKeepsInv(s, s', t, t);
    }
  }

  /** A thief and its donor are different threads. */
  lemma FlagIsNotOwn(s: Sys, t: nat, d: nat)
    requires |s.pc| == |s.w.prims| && FlagOK(s) && t < |s.pc| && d < |s.pc|
    requires Holds(s.pc[t]) && s.w.prims[d].reallocatable
    ensures d != t && AtCall(s.pc[d])
  {
  }

  lemma CasFlags(s: Sys, t: nat)
    requires |s.pc| == |s.w.prims| && FlagOK(s) && At(s, t) && s.pc[t].Donors?
    requires s.pc[t].d < |s.pc| && s.w.prims[s.pc[t].d].reallocatable
    ensures FlagOK(DoDonor(s, t))
  {
    var s', v := DoDonor(s, t), s.pc[t].d;
    assert Robs(s'.pc[t], v);
    forall d | 0 <= d < |s'.pc| && AtCall(s'.pc[d]) && !s'.w.prims[d].reallocatable
      ensures exists u :: 0 <= u < |s'.pc| && Robs(s'.pc[u], d)
    {
      if d != v {
        var u :| 0 <= u < |s.pc| && Robs(s.pc[u], d);
        assert Robs(s'.pc[u], d);
      }
    }
  }

  lemma OnlyFlagChanged(p: Prim, c: Pc, ss: seq<Scav>, max: int, flag: bool)
    requires WellShaped(p) && IdxInRange(p.idx, |ss|) && AtCall(c) && ThreadOK(p, c, ss, max)
    ensures ThreadOK(p.(reallocatable := flag), c, ss, max)
  {
  }

  lemma CasThread(p: Prim, c: Pc, ss: seq<Scav>, max: int)
    requires WellShaped(p) && IdxInRange(p.idx, |ss|) && c.Donors? && ThreadOK(p, c, ss, max)
    ensures ThreadOK(p, Stealing(c.who, c.need, c.d, c.got, 0), ss, max)
  {
  }

  lemma CasKeepsInv(s: Sys, t: nat)
    requires Inv(s) && At(s, t) && s.pc[t].Donors?
    requires s.pc[t].d < |s.pc| && s.w.prims[s.pc[t].d].reallocatable
    ensures Inv(DoDonor(s, t))
  {
    hide LockOK, FlagOK, Placed, ScavsOK, CountOK, ThreadOK;
    var c, s' := s.pc[t], DoDonor(s, t);
    FlagIsNotOwn(s, t, c.d);
    CasFlags(s, t);
    CasThread(s.w.prims[t], c, s.w.ss, s.max);
    OnlyFlagChanged(s.w.prims[c.d], s.pc[c.d], s.w.ss, s.max, false);
    PlacedKept(s.w, s'.w);
    CountKept(s, s', t);
    PairMoveKeepsInv(s, s', t, c.d);
  }

  /** The lock holder is the only thief. */
  lemma OneThief(s: Sys, t: nat, u: nat)
    requires LockOK(s) && t < |s.pc| && u < |s.pc| && s.pc[t].Stealing? && s.pc[u].Stealing?
    ensures t == u
  {
    assert Holds(s.pc[t]) && Holds(s.pc[u]);
  }

  lemma ReleaseFlags(s: Sys, t: nat)
    requires |s.pc| == |s.w.prims| && LockOK(s) && FlagOK(s) && At(s, t) && s.pc[t].Stealing?
    ensures FlagOK(ReleaseDonor(s, t)) && AtCall(s.pc[s.pc[t].d])
  {
    var s', v := ReleaseDonor(s, t), s.pc[t].d;
    assert Robs(s.pc[t], v);
    forall u | 0 <= u < |s'.pc| ensures !s'.pc[u].Stealing? {
      if s.pc[u].Stealing? {
        OneThief(s, t, u);
      }
    }
    forall d | 0 <= d < |s'.pc| && AtCall(s'.pc[d]) ensures s'.w.prims[d].reallocatable {
      if !s.w.prims[d].reallocatable {
        var u :| 0 <= u < |s.pc| && Robs(s.pc[u], d);
        OneThief(s, t, u);
      }
    }
  }

  lemma ReleasedThread(p: Prim, c: Pc, ss: seq<Scav>, max: int)
    requires WellShaped(p) && IdxInRange(p.idx, |ss|) && c.Stealing? && ThreadOK(p, c, ss, max)
    ensures ThreadOK(p, Initing(c.who, 1, c.got + c.cnt), ss, max)
    ensures ThreadOK(p, Donors(c.who, c.need, c.d + 1, c.got + c.cnt), ss, max)
  {
  }

  lemma ReleaseKeepsInv(s: Sys, t: nat)
    requires Inv(s) && At(s, t) && s.pc[t].Stealing?
    ensures Inv(ReleaseDonor(s, t))
  {
    hide LockOK, FlagOK, Placed, ScavsOK, CountOK, ThreadOK, PairMove, ReleaseDonor;
    var c, s' := s.pc[t], ReleaseDonor(s, t);
    ReleaseFlags(s, t);
    ReleaseIsMove(s, t);
    ReleasedThread(s.w.prims[t], c, s.w.ss, s.max);
    OnlyFlagChanged(s.w.prims[c.d], s.pc[c.d], s.w.ss, s.max, true);
    CountKept(s, s', t);
    PlacedKept(s.w, s'.w);
    PairMoveKeepsInv(s, s', t, c.d);
  }

  lemma ReleaseIsMove(s: Sys, t: nat)
    requires Typed(s) && At(s, t) && s.pc[t].Stealing?
    ensures
      var c, s' := s.pc[t], ReleaseDonor(s, t);
      && PairMove(s, s', t, c.d) && LockMoves(s, s', t) && SameSizes(s.w, s'.w)
      && |s'.pc| == |s.pc| && s'.pc == s.pc[t := s'.pc[t]] && s'.w.ss == s.w.ss && s'.max == s.max
      && s'.finishedCnt == s.finishedCnt && s'.misses == s.misses
      && (s'.pc[t] == Initing(c.who, 1, c.got + c.cnt)
          || (c.got + c.cnt < c.need && s'.pc[t] == Donors(c.who, c.need, c.d + 1, c.got + c.cnt)))
      && s'.w.prims[t] == s.w.prims[t] && s'.w.prims[c.d] == s.w.prims[c.d].(reallocatable := true)
      && (forall u :: 0 <= u < |s.w.prims| ==> s'.w.prims[u].idx == s.w.prims[u].idx)
      && (WorldShape(s'.w, s'.slots) ==> PcTyped(s', t))
  {
  }

  // ----- One steal -------------------------------------------------------------------------------

  lemma RobbedHandshake(snap: Prim, p: Prim)
    requires WellShaped(snap) && WellShaped(p) && Prefix(p.idx) && LiveSlots(p) && Handshake(snap, p)
    requires 1 <= Count(p.idx) < |p.idx| && Count(Robbed(p, Count(p.idx)).idx) == Count(p.idx) - 1
    ensures Handshake(snap, Robbed(p, Count(p.idx)))
  {
    var n := Count(p.idx);
    var y := Robbed(p, n);
    PrefixSlots(p.idx);
    assert LostSuffix(snap, y, n - 1) by {
      hide Count, Prefix;
      assert forall q :: 0 <= q < |p.idx| && q != n ==> y.idx[q] == p.idx[q] && y.ycs[q] == p.ycs[q];
    }
  }

  lemma RobbedThread(p: Prim, c: Pc, ss: seq<Scav>, ss': seq<Scav>, max: int)
    requires WellShaped(p) && IdxInRange(p.idx, |ss|) && AtCall(c) && ThreadOK(p, c, ss, max)
    requires 1 <= Count(p.idx) < |p.idx| && InitGrows(ss, ss')
    ensures IdxInRange(Robbed(p, Count(p.idx)).idx, |ss'|)
    ensures ThreadOK(Robbed(p, Count(p.idx)), c, ss', max)
  {
    hide Handshake, LiveSlots, Prefix, Linked, Count, Hosted;
    RobbedHosts(p);
    RobbedHandshake(c.snap, p);
  }

  lemma ReceivedThread(p: Prim, c: Pc, ss: seq<Scav>, ss': seq<Scav>, max: int, i: nat, v: Saved)
    requires WellShaped(p) && IdxInRange(p.idx, |ss|) && c.Stealing? && ThreadOK(p, c, ss, max)
    requires c.got < c.need && c.cnt < c.need && Count(p.idx) + 1 < |p.idx| && |ss'| == |ss| && i < |ss|
    ensures
      var y := Received(p, Count(p.idx) + 1, i, v);
      && Shape(y, |p.idx|) && IdxInRange(y.idx, |ss'|)
      && ThreadOK(y, Stealing(c.who, c.need, c.d, c.got, c.cnt + 1), ss', max)
  {
    ReceivedHosts(p, i, v);
  }

  lemma StealRelocates(w: World, t: nat, d: nat, n: nat, m: nat)
    requires t < |w.prims| && d < |w.prims| && t != d && Placed(w) && ScavsOK(w.ss)
    requires Sound(LocalOf(w, t)) && Sound(LocalOf(w, d))
    requires n < |w.prims[d].idx| && 1 <= m < |w.prims[t].idx|
    requires w.prims[d].idx[n] != EMPTY && w.prims[t].idx[m] == EMPTY
    ensures
      var i := w.prims[d].idx[n];
      var w' := World(w.prims[d := Robbed(w.prims[d], n)]
                             [t := Received(w.prims[t], m, i, SavedAt(w.prims[d], n))],
                      MoveScav(w.ss, i, Loc(t, m)));
      && Placed(w') && ScavsOK(w'.ss) && InitGrows(w.ss, w'.ss)
      && forall j :: 0 <= j < |w.ss| ==> w'.ss[j].finished == w.ss[j].finished
  {
    var i := w.prims[d].idx[n];
    var w' := World(w.prims[d := Robbed(w.prims[d], n)]
                           [t := Received(w.prims[t], m, i, SavedAt(w.prims[d], n))],
                    MoveScav(w.ss, i, Loc(t, m)));
    assert LivesAt(w.ss, i, d, n);
    RelocatingKeepsPlaced(w, w', i, Some(Loc(t, m)));
  }

  lemma StealFlags(s: Sys, s': Sys, t: nat)
    requires |s.pc| == |s.w.prims| == |s'.pc| == |s'.w.prims| && FlagOK(s) && At(s, t) && s.pc[t].Stealing?
    requires s'.pc[t].Stealing? && s'.pc[t].d == s.pc[t].d
    requires forall u :: 0 <= u < |s.pc| && u != t ==> s'.pc[u] == s.pc[u]
    requires forall u :: 0 <= u < |s.pc| ==> s'.w.prims[u].reallocatable == s.w.prims[u].reallocatable
    ensures FlagOK(s')
  {
    assert forall u, d :: 0 <= u < |s.pc| ==> Robs(s'.pc[u], d) == Robs(s.pc[u], d);
    forall d | 0 <= d < |s'.pc| && AtCall(s'.pc[d]) && !s'.w.prims[d].reallocatable
      ensures exists u :: 0 <= u < |s'.pc| && Robs(s'.pc[u], d)
    {
      var u :| 0 <= u < |s.pc| && Robs(s.pc[u], d);
      assert Robs(s'.pc[u], d);
    }
  }

  /** The parts of the invariant that one steal needs. */
  lemma StealReady(s: Sys, t: nat)
    requires Inv(s) && At(s, t) && s.pc[t].Stealing?
    ensures
      var d := s.pc[t].d;
      && AtCall(s.pc[d]) && Steady(s.w.prims[t]) && Steady(s.w.prims[d])
      && Ready(Pair(s.w.prims[d], s.w.prims[t], s.w.ss))
  {
    hide Placed, ScavsOK, CountOK, LockOK, Prefix, LiveSlots, Count;
    var c := s.pc[t];
    assert ThreadOK(s.w.prims[t], c, s.w.ss, s.max);
    assert Robs(c, c.d);
    assert ThreadOK(s.w.prims[c.d], s.pc[c.d], s.w.ss, s.max);
  }

  lemma MoveKeepsInv(s: Sys, t: nat)
    requires Inv(s) && At(s, t) && s.pc[t].Stealing? && s.pc[t].cnt < s.pc[t].need
    requires StealOne(Pair(s.w.prims[s.pc[t].d], s.w.prims[t], s.w.ss), t).1.Moved?
    ensures Inv(DoSteal(s, t))
  {
    hide LockOK, FlagOK, Placed, ScavsOK, CountOK, ThreadOK, StealOne, Count, Prefix, LiveSlots;
    var c, s' := s.pc[t], DoSteal(s, t);
    var from, to := s.w.prims[c.d], s.w.prims[t];
    StealReady(s, t);
    StealSlots(Pair(from, to, s.w.ss), t);
    var n, m := Count(from.idx), Count(to.idx);
    var i := from.idx[n];
    StealRelocates(s.w, t, c.d, n, m + 1);
    RobbedThread(from, s.pc[c.d], s.w.ss, s'.w.ss, s.max);
    ReceivedThread(to, c, s.w.ss, s'.w.ss, s.max, i, SavedAt(from, n));
    MoveAssembles(s, s', t, c.d);
  }

  lemma MoveAssembles(s: Sys, s': Sys, t: nat, d: nat)
    requires Inv(s) && At(s, t) && s.pc[t].Stealing? && s.pc[t].d == d && AtCall(s.pc[d]) && s.pc[t].cnt < s.pc[t].need
    requires |s'.pc| == |s.pc| && |s'.w.prims| == |s.w.prims| && |s'.w.ss| == |s.w.ss|
    requires s'.pc[t] == s.pc[t].(cnt := s.pc[t].cnt + 1)
    requires s' == s.(w := World(s.w.prims[d := s'.w.prims[d]][t := s'.w.prims[t]], s'.w.ss), pc := s.pc[t := s'.pc[t]])
    requires Shape(s'.w.prims[t], s.slots) && IdxInRange(s'.w.prims[t].idx, |s.w.ss|)
    requires Shape(s'.w.prims[d], s.slots) && IdxInRange(s'.w.prims[d].idx, |s.w.ss|)
    requires s'.w.prims[t].reallocatable == s.w.prims[t].reallocatable
    requires s'.w.prims[d].reallocatable == s.w.prims[d].reallocatable
    requires InitGrows(s.w.ss, s'.w.ss) && forall j :: 0 <= j < |s.w.ss| ==> s'.w.ss[j].finished == s.w.ss[j].finished
    requires ThreadOK(s'.w.prims[t], s'.pc[t], s'.w.ss, s'.max) && ThreadOK(s'.w.prims[d], s'.pc[d], s'.w.ss, s'.max)
    requires Placed(s'.w) && ScavsOK(s'.w.ss)
    ensures Inv(s')
  {
    hide LockOK, FlagOK, Placed, ScavsOK, CountOK, ThreadOK, InitGrows, IdxInRange;
    assert PairMove(s, s', t, d);
    assert FlagOK(s') by { StealFlags(s, s', t); }
    assert CountOK(s') by { CountKept(s, s', t); }
    hide PairMove;
    PairMoveKeepsInv(s, s', t, d);
  }

  lemma StealKeepsInv(s: Sys, t: nat)
    requires Inv(s) && At(s, t) && s.pc[t].Stealing?
    ensures Inv(DoSteal(s, t))
  {
    var c := s.pc[t];
    var x := Pair(s.w.prims[c.d], s.w.prims[t], s.w.ss);
    if c.cnt < c.need && StealOne(x, t).1.Moved? {
      MoveKeepsInv(s, t);
    } else {
      StealReady(s, t);
      StealSlots(x, t);
      assert s.w.(prims := s.w.prims[c.d := s.w.prims[c.d]]) == s.w;
      assert DoSteal(s, t) == ReleaseDonor(s, t);
      ReleaseKeepsInv(s, t);
    }
  }

  // ----- All actions -----------------------------------------------------------------------------

  lemma AdvanceKeepsInv(s: Sys, t: nat, e: InitEffect)
    requires Inv(s) && Enabled(s, t, Advance(e))
    ensures Inv(Apply(s, t, Advance(e)))
  {
    hide Inv, DoRetire, DoPack, DoSwap, DoDonor, DoSteal, DoPool, DoInit, TryLock, Typed, PcTyped;
    match s.pc[t]
    case FinishWait(pos) => TryLockKeepsInv(s, t, FinishLocked(pos));
    case FinishLocked(_) => RetireKeepsInv(s, t);
    case Packing(_) => PackKeepsInv(s, t);
    case SwapWait(a, b) => TryLockKeepsInv(s, t, SwapLocked(a, b));
    case SwapLocked(_, _) => SwapKeepsInv(s, t);
    case AllocWait(who, need) => TryLockKeepsInv(s, t, Donors(who, need, 0, 0));
    case Donors(_, _, d, _) => DonorKeepsInv(s, t);
    case Stealing(_, _, _, _, _) => StealKeepsInv(s, t);
    case Pool(_, _, _, _) => PoolKeepsInv(s, t);
    case Initing(_, _, _) => InitKeepsInv(s, t, e);
  }

  lemma DonorKeepsInv(s: Sys, t: nat)
    requires Inv(s) && At(s, t) && s.pc[t].Donors?
    ensures Inv(DoDonor(s, t))
  {
    if s.pc[t].d < |s.pc| && s.w.prims[s.pc[t].d].reallocatable {
      CasKeepsInv(s, t);
    } else {
      DonorSkipKeepsInv(s, t);
    }
  }

  /** Whatever thread acts next, and whatever it does, the invariant is kept. */
  lemma ActionKeepsInv(s: Sys, t: nat, a: Action)
    requires Inv(s) && Enabled(s, t, a)
    ensures Inv(Apply(s, t, a))
  {
    hide Inv, Enabled;
    match a
    case Create => CreateKeepsInv(s, t);
    case Enter => EnterKeepsInv(s, t);
    case Return => ReturnKeepsInv(s, t);
    case TryExit => TryExitKeepsInv(s, t);
    case Finish(pos) => FinishKeepsInv(s, t, pos);
    case Cleanup => CleanupKeepsInv(s, t);
    case Save(pos, v) => SaveKeepsInv(s, t, pos, v);
    case Advance(e) => AdvanceKeepsInv(s, t, e);
  }

  /** Every state of every run satisfies the invariant. */
  lemma {:induction false} RunKeepsInv(trace: seq<Sys>, k: nat)
    requires Run(trace) && k < |trace|
    ensures Inv(trace[k])
  {
    hide Inv, Enabled, Apply, Init;
    if k == 0 {
      InitEstablishesInv(trace[0]);
    } else {
      RunKeepsInv(trace, k - 1);
      assert Step(trace[k - 1], trace[k - 1 + 1]);
      var t: nat, a: Action :| Enabled(trace[k - 1], t, a) && trace[k] == Apply(trace[k - 1], t, a);
      ActionKeepsInv(trace[k - 1], t, a);
    }
  }

  /** Without such a call a wide run is a run, and everything proved of runs holds. */
  lemma WideRunIsRun(trace: seq<Sys>, acts: seq<Act>)
    requires WideRunBy(trace, acts) && forall k :: 0 <= k < |acts| ==> !EntersMarked(trace[k], acts[k])
    ensures RunBy(trace, acts)
  {
    hide Init, Apply, Enabled, EntersMarked;
    forall k | 0 <= k < |acts| ensures Does(trace[k], acts[k], trace[k + 1]) {
      assert Performs(trace[k], acts[k], trace[k + 1]);
    }
  }

  /** Up to the first call of a primary that was marked finished by mistake, the invariant holds. */
  lemma {:induction false} WideRunKeepsInv(trace: seq<Sys>, acts: seq<Act>, k: nat)
    requires WideRunBy(trace, acts) && k <= |acts|
    requires forall j :: 0 <= j < k ==> !EntersMarked(trace[j], acts[j])
    ensures Inv(trace[k])
  {
    hide Inv, Init, Apply, Enabled, EntersMarked;
    if k == 0 {
      InitEstablishesInv(trace[0]);
    } else {
      WideRunKeepsInv(trace, acts, k - 1);
      assert Performs(trace[k - 1], acts[k - 1], trace[k - 1 + 1]);
      ActionKeepsInv(trace[k - 1], acts[k - 1].t, acts[k - 1].a);
    }
  }
}
