/**
  A run that breaks the tables. A scavenger that compaction has moved finishes, and its position
  marks the live primary finished instead; the next one finishes properly and leaves a hole, because
  a thread with a finished primary is not compacted; the primary, to which a scavenger can still
  yield, enters a blockable call; and a theft that finds the thief full pushes the popped scavenger
  back into the hole.
 */
module MarkedEnter {
  import opened Wrappers
  import opened Tables
  import opened SlotList
  import opened Scheduler
  import opened Allocator
  import opened Protocol
  import opened Invariant
  import opened InvariantProof
  import opened BigStep
  import opened Divergences
  import Events
  import Commute

  // ----- Positions after allocation and compaction -------------------------------------------------

  /** The pool gives every scavenger its position in bytes. */
  lemma {:induction false} PoolKeepsScaled(l: Local, t: nat, i: nat, got: nat, demands: nat)
    requires Sound(l) && got < demands && Events.AllScaled(l) && Events.ListKnown(l.p.idx, l.ss)
    ensures Events.AllScaled(PoolFrom(l, t, i, got, demands).0)
    decreases |l.ss| - i
  {
    hide PoolOne, Events.AllScaled;
    if i < |l.ss| {
      TakeKeepsScaled(l, t, i);
      var (l', o) := PoolOne(l, t, i);
      if o.Skipped? {
        PoolKeepsScaled(l', t, i + 1, got, demands);
      } else if o.Taken? && got + 1 < demands {
        PoolKeepsScaled(l', t, i + 1, got + 1, demands);
      }
    }
  }

  lemma TakeKeepsScaled(l: Local, t: nat, i: nat)
    requires Sound(l) && i < |l.ss| && Events.AllScaled(l) && Events.ListKnown(l.p.idx, l.ss)
    ensures
      var l' := PoolOne(l, t, i).0;
      Events.AllScaled(l') && Events.ListKnown(l'.p.idx, l'.ss)
  {
    var (l', o) := PoolOne(l, t, i);
    if o.Taken? {
      forall q | 0 <= q < |l'.p.idx| && l'.p.idx[q] != EMPTY ensures Events.Scaled(l', q) {
        assert l.p.idx[q] != EMPTY ==> Events.Scaled(l, q);
      }
    }
  }

  /** A thread that is created while nobody is in a call has all its scavengers fresh from the pool. */
  lemma BornScaled(w: World, t: nat, max: int, env: InitEnv, slots: nat)
    requires WorldShape(w, slots) && t < |w.prims| && forall u :: 0 <= u < |w.prims| ==> !w.prims[u].reallocatable
    requires forall q :: 0 <= q < slots ==> w.prims[t].idx[q] == EMPTY
    ensures WorldShape(w, slots) && Sound(LocalOf(Born(w, t, max, env, slots), t))
    ensures Events.AllScaled(LocalOf(Born(w, t, max, env, slots), t))
  {
    hide DonorsFrom, PoolFrom, InitFrom, SetSpecialNext, Count;
    var need := NeedMore(w.prims[t], max);
    if need > 0 {
      NoDonors(w, t, 0, 0, need, slots);
      var l := LocalOf(w, t);
      PoolKeepsScaled(l, t, 0, 0, need);
      var l1 := PoolFrom(l, t, 0, 0, need).0;
      assert LocalOf(AllocateLocked(w, t, need, slots).0, t) == l1;
      Events.InitKeepsContexts(l1, 1, env);
      var l2 := InitFrom(l1, 1, env);
      SpecialKeepsShape(l2.p);
      var l' := LocalOf(Born(w, t, max, env, slots), t);
      assert l'.p.idx == l1.p.idx && l'.ss == l2.ss;
      forall q | 0 <= q < |l'.p.idx| && l'.p.idx[q] != EMPTY ensures Events.Scaled(l', q) {
        assert Events.Scaled(l1, q);
      }
    }
  }

  lemma {:induction false} EmptyPool(l: Local, t: nat, i: nat, got: nat, demands: nat)
    requires Sound(l) && got < demands && PoolSize(l.ss, i) == 0
    ensures PoolFrom(l, t, i, got, demands) == (l, got)
    decreases |l.ss| - i
  {
    if i < |l.ss| {
      EmptyPool(l, t, i + 1, got, demands);
    }
  }

  /** With nobody in a call and nothing in the pool, allocate_scav moves nothing. */
  lemma AllocatesNothing(w: World, t: nat, max: int, env: InitEnv, slots: nat)
    requires WorldShape(w, slots) && t < |w.prims| && PoolSize(w.ss, 0) == 0
    requires forall u :: 0 <= u < |w.prims| ==> !w.prims[u].reallocatable
    ensures
      var w' := AllocateScav(w, t, max, env, slots).0;
      && w'.prims[t].idx == w.prims[t].idx
      && (forall u :: 0 <= u < |w.prims| && u != t ==> w'.prims[u] == w.prims[u])
      && forall i :: 0 <= i < |w.ss| ==> w'.ss[i].crtPos == w.ss[i].crtPos && w'.ss[i].yc == w.ss[i].yc
  {
    hide DonorsFrom, PoolFrom, InitFrom, SetSpecialNext, Count, PoolSize;
    var need := NeedMore(w.prims[t], max);
    if need > 0 {
      NoDonors(w, t, 0, 0, need, slots);
      var l := LocalOf(w, t);
      EmptyPool(l, t, 0, 0, need);
      assert LocalOf(AllocateLocked(w, t, need, slots).0, t) == l;
      Events.InitKeepsContexts(l, 1, env);
      SpecialKeepsShape(InitFrom(l, 1, env).p);
    }
  }

  /** Three slots, the middle one just finished: compaction moves the last scavenger up, unscaled. */
  lemma PackOfThree(l: Local, t: nat)
    requires Sound(l) && |l.p.idx| == 4 && l.p.ycs[0].normal != EMPTY
    requires l.p.idx[1] != EMPTY && l.p.idx[2] == EMPTY && l.p.idx[3] != EMPTY
    ensures
      var l' := Pack(l, t);
      && l'.p.idx == l.p.idx[2 := l.p.idx[3]][3 := EMPTY]
      && l'.ss == MoveScav(l.ss, l.p.idx[3], Loc(t, 2))
  {
    hide SwapPrim, MoveScav;
    assert PackOne(l, t, 1) == l;
    assert SwapPartner(l.p.idx, 2) == 3;
    var l2 := PackOne(l, t, 2);
    assert l2 == Swap(l, t, 2, 3);
    SwapOfTwo(l, t);
    assert PackOne(l2, t, 3) == l2 by {
      assert FirstUsed(l2.p.idx, 4) == 0;
    }
    assert PackFrom(l2, t, 4) == l2;
    assert PackFrom(l2, t, 3) == l2;
    assert PackFrom(l, t, 2) == l2;
    assert PackFrom(l, t, 1) == l2;
    SpecialKeepsShape(l2.p);
  }

  lemma SwapOfTwo(l: Local, t: nat)
    requires Sound(l) && |l.p.idx| == 4 && l.p.idx[2] == EMPTY && l.p.idx[3] != EMPTY
    ensures
      var l' := Swap(l, t, 2, 3);
      && l'.p.idx == l.p.idx[2 := l.p.idx[3]][3 := EMPTY]
      && l'.ss == MoveScav(l.ss, l.p.idx[3], Loc(t, 2))
  {
    assert l.p.idx[2 := l.p.idx[3]][3 := l.p.idx[2]] == l.p.idx[2 := l.p.idx[3]][3 := EMPTY];
  }

  // ----- The run -----------------------------------------------------------------------------------

  /** Thread 1 has a scavenger in slot 1 with its position in bytes, and a moved one in slot 2. */
  predicate OneMoved(w: World)
  {
    && |w.prims| == 3 && WellShaped(w.prims[1]) && |w.prims[1].idx| == 4 && IdxInRange(w.prims[1].idx, |w.ss|)
    && w.prims[1].idx[1] != EMPTY && w.prims[1].idx[2] != EMPTY && w.prims[1].idx[3] == EMPTY
    && w.ss[w.prims[1].idx[1]].crtPos == YC_SIZE && w.ss[w.prims[1].idx[2]].crtPos == 2
  }

  lemma MiddleWorld(w: World, env: InitEnv)
    requires WorldShape(w, 4) && |w.prims| == 3 && PoolSize(w.ss, 0) == 0
    requires forall u :: 0 <= u < |w.prims| ==> !w.prims[u].reallocatable
    requires Steady(w.prims[1]) && Count(w.prims[1].idx) == 3 && w.prims[1].ycs[0].normal != EMPTY
    requires Events.LocallyPlaced(LocalOf(w, 1), 1) && Events.AllScaled(LocalOf(w, 1))
    ensures
      var w' := Events.SchedNext(w, 1, 2 * YC_SIZE, 4, env, 4).0;
      OneMoved(w') && w'.prims[0] == w.prims[0]
  {
    hide AllocateScav, PoolSize, Pack, Count, UpdateNextMap, Events.SchedNext;
    PrefixSlots(w.prims[1].idx);
    Events.FinishAndPack(w, 1, 2, 4);
    Events.SchedIsAfterPack(w, 1, 2, 4, env, 4);
    var l0, l := LocalOf(w, 1), Events.AfterPack(w, 1, 2, 4);
    MiddlePacks(l0);
    var w1 := WithLocal(w, 1, l);
    assert PoolSize(w1.ss, 0) == 0 by {
      PoolSizeAgrees(w.ss, w1.ss, 0);
    }
    assert WorldShape(w1, 4);
    AllocatesNothing(w1, 1, 4, env, 4);
    UpdateKeepsShape(AllocateScav(w1, 1, 4, env, 4).0.prims[1]);
  }

  /** Finishing slot 2 of three scaled scavengers and compacting. */
  lemma MiddlePacks(l: Local)
    requires Sound(l) && |l.p.idx| == 4 && l.p.ycs[0].normal != EMPTY
    requires l.p.idx[1] != EMPTY && l.p.idx[2] != EMPTY && l.p.idx[3] != EMPTY
    requires Events.LocallyPlaced(l, 1) && Events.AllScaled(l)
    ensures
      var l1 := Scheduler.Finish(l, 2);
      var l' := Pack(l1.(p := UpdateNextMap(l1.p)), 1);
      && l'.p.idx == l.p.idx[2 := l.p.idx[3]][3 := EMPTY]
      && |l'.ss| == |l.ss| && l'.ss[l.p.idx[1]].crtPos == YC_SIZE && l'.ss[l.p.idx[3]].crtPos == 2
      && forall i :: 0 <= i < |l.ss| ==> InPool(l'.ss[i]) == InPool(l.ss[i])
  {
    hide Pack, FirstLive;
    var l1 := Scheduler.Finish(l, 2);
    var l2 := l1.(p := UpdateNextMap(l1.p));
    UpdateKeepsShape(l1.p);
    PackOfThree(l2, 1);
    assert Events.Scaled(l, 1);
    assert LivesAt(l.ss, l.p.idx[1], 1, 1) && LivesAt(l.ss, l.p.idx[2], 1, 2) && LivesAt(l.ss, l.p.idx[3], 1, 3);
  }

  /** Three threads, four slots each, a cap of 4: thread 0 has three scavengers, thread 2 does not exist. */
  ghost predicate Base(s: Sys) {
    && Occurs(s) && s.lock == 0 && s.slots == 4 && s.max == 4 && |s.pc| == |s.w.prims| == 3
    && Count(s.w.prims[0].idx) == 3 && s.pc[2].Unborn?
  }

  lemma InvPlaces(s: Sys, t: nat)
    requires Inv(s) && t < |s.w.prims|
    ensures WorldShape(s.w, s.slots) && Sound(LocalOf(s.w, t)) && Events.LocallyPlaced(LocalOf(s.w, t), t)
  {
    assert ThreadOK(s.w.prims[t], s.pc[t], s.w.ss, s.max);
  }

  lemma NothingYet(s: Sys, t: nat)
    requires Inv(s) && t < |s.w.prims| && Count(s.w.prims[t].idx) == 0
    ensures forall q :: 0 <= q < |s.w.prims[t].idx| ==> s.w.prims[t].idx[q] == EMPTY
    ensures |s.w.prims[t].idx| == s.slots
  {
    assert ThreadOK(s.w.prims[t], s.pc[t], s.w.ss, s.max);
    CountToBounds(s.w.prims[t].idx, |s.w.prims[t].idx|);
  }

  /** Two threads take all six scavengers; the second of thread 1 finishes, and compaction moves the third. */
  lemma MovesOne(env: InitEnv) returns (s: Sys)
    ensures Base(s) && s.pc[0].Running? && s.pc[1].Running? && OneMoved(s.w)
  {
    hide Count, PoolSize, Inv, Init, WorldShape, Occurs, Apply, Enabled, Steady, Born, Events.SchedNext, Events.AllScaled;
    FreshLooks(3, 6, 4, 4);
    s := FreshSys(3, 6, 4, 4);
    var rows := seq(3, _ => Row(NotYet, 0));
    hide FreshSys;
    s := CreateRow(s, 0, env, 4, 4, rows, 6);
    rows := rows[0 := Row(Runs, 3)];
    LooksSteady(s, 4, 4, rows, 3);
    assert RowOK(s, 0, rows[0]) && RowOK(s, 1, rows[1]) && RowOK(s, 2, rows[2]);
    NothingYet(s, 1);
    BornScaled(s.w, 1, 4, env, 4);
    assert s.max == 4 && s.slots == 4;
    s := CreateRow(s, 1, env, 4, 4, rows, 3);
    rows := rows[1 := Row(Runs, 3)];
    LooksSteady(s, 4, 4, rows, 0);
    assert RowOK(s, 0, rows[0]) && RowOK(s, 1, rows[1]) && RowOK(s, 2, rows[2]);
    InvPlaces(s, 1);
    MiddleWorld(s.w, env);
    s := FinishOccurs(s, 1, 2, env);
  }

  /** The others are where they were. */
  predicate Aside(s: Sys, s': Sys) {
    && |s.pc| == |s.w.prims| == |s'.pc| == |s'.w.prims| == 3
    && s'.pc[0] == s.pc[0] && s'.w.prims[0] == s.w.prims[0] && s'.pc[2] == s.pc[2]
    && s'.lock == s.lock && s'.slots == s.slots && s'.max == s.max
  }

  lemma MistakeAside(s: Sys)
    requires Enabled(s, 1, Finish(0)) && s.w.prims[1].idx[0] == EMPTY && |s.pc| == 3
    ensures Aside(s, Apply(s, 1, Finish(0)))
  {
    hide UpdateNextMap, FirstUsed;
  }

  /** The moved scavenger finishes: its position 2 decodes to 0, and the live primary is marked finished. */
  lemma Misfires(s: Sys) returns (s': Sys)
    requires Base(s) && s.pc[0].Running? && s.pc[1].Running? && OneMoved(s.w)
    ensures Events.Decode(2) == 0 && Enabled(s, 1, Finish(0)) && s' == Apply(s, 1, Finish(0))
    ensures Base(s') && s'.pc[0].Running? && s'.pc[1].Draining? && OneMoved(s'.w)
    ensures s'.w.prims[1].ycs[0].normal == EMPTY
  {
    OccursInv(s);
    InvPlaces(s, 1);
    assert Enabled(s, 1, Finish(0));
    s' := Apply(s, 1, Finish(0));
    hide Inv, Occurs, Count;
    MarkedByMistake(s);
    MistakeAside(s);
    OccursNext(s, 1, Finish(0));
  }

  lemma HoleWorld(s: Sys)
    requires Enabled(s, 1, Finish(1)) && |s.pc| == 3 && s.slots == 4 && OneMoved(s.w)
    requires s.w.prims[1].ycs[0].normal == EMPTY && WellShaped(Marked(s, 1, 1).w.prims[1])
    requires s.w.prims[1].idx[1] != s.w.prims[1].idx[2]
    ensures
      var s' := AfterFinish(Marked(s, 1, 1), 1);
      && Aside(s, s') && s'.pc[1].Draining?
      && s'.w.prims[1].idx == s.w.prims[1].idx[1 := EMPTY]
  {
    assert FirstUsed(s.w.prims[1].idx[1 := EMPTY], 1) == 2;
  }

  /** The scavenger in slot 1 finishes properly. Nothing is compacted, and slot 1 is a hole. */
  lemma LeavesHole(s: Sys, env: InitEnv) returns (s': Sys)
    requires Base(s) && s.pc[0].Running? && s.pc[1].Draining? && OneMoved(s.w)
    requires s.w.prims[1].ycs[0].normal == EMPTY
    ensures Base(s') && s'.pc[0].Running? && s'.pc[1].Draining? && Holey(s'.w.prims[1])
  {
    OccursInv(s);
    InvPlaces(s, 1);
    assert Enabled(s, 1, Finish(1));
    hide Inv, Occurs, Count, Apply, Gets, AfterFinish, Marked;
    MarksAlone(s, 1, 1, env);
    OccursNext(s, 1, Finish(1));
    s' := AfterFinish(Marked(s, 1, 1), 1);
    OccursThen(Apply(s, 1, Finish(1)), 1, env, s');
    HostsDiffer(s);
    HoleWorld(s);
  }

  /** A hole in slot 1 and a scavenger in slot 2. */
  predicate Holey(p: Prim) {
    |p.idx| == 4 && p.idx[1] == EMPTY && p.idx[2] != EMPTY && p.idx[3] == EMPTY
  }

  lemma HostsDiffer(s: Sys)
    requires Inv(s) && OneMoved(s.w)
    ensures s.w.prims[1].idx[1] != s.w.prims[1].idx[2]
  {
    assert LivesAt(s.w.ss, s.w.prims[1].idx[1], 1, 1) && LivesAt(s.w.ss, s.w.prims[1].idx[2], 1, 2);
  }

  lemma EnterAside(s: Sys)
    requires Inv(s) && s.lock == 0 && |s.pc| == 3 && s.pc[0].Running?
    ensures Enabled(s, 0, Enter)
    ensures
      var s' := Apply(s, 0, Enter);
      && |s'.pc| == |s'.w.prims| == |s.w.prims| == 3 && s'.pc[0].Blocked? && s'.pc[1] == s.pc[1] && s'.pc[2] == s.pc[2]
      && s'.w.prims[0] == s.w.prims[0].(reallocatable := true) && s'.w.prims[1] == s.w.prims[1]
      && s'.lock == s.lock && s'.slots == s.slots && s'.max == s.max
  {
    hide LockOK, FlagOK, Placed, ScavsOK, ThreadsOK, CountOK;
  }

  /** Thread 2 is being created: it has robbed thread 0 of everything, is full, and wants one more. */
  ghost predicate Full(s: Sys) {
    && Occurs(s) && |s.pc| == |s.w.prims| == 3 && s.slots == 4 && s.pc[1].Draining?
    && s.pc[2] == Donors(Birth, 4, 1, 3) && Count(s.w.prims[2].idx) == 3 && Holey(s.w.prims[1])
  }

  lemma FillsUp(s: Sys, env: InitEnv) returns (s': Sys)
    requires Base(s) && s.pc[0].Running? && s.pc[1].Draining? && Holey(s.w.prims[1])
    ensures Full(s')
  {
    hide Inv, Occurs, Count, Apply, Enabled, Gets, Next, Looping, Asking, AfterTheft, Asked, Answered;
    OccursInv(s);
    EnterAside(s);
    OccursNext(s, 0, Enter);
    var s1 := Apply(s, 0, Enter);
    OccursInv(s1);
    CreationStarts(s1);
    OccursNext(s1, 2, Create);
    var s2 := Apply(s1, 2, Create);
    OccursInv(s2);
    AllocPremises(s2, 2, env);
    NextOccurs(s2, 2, env);
    var s3 := Next(s2, 2, env);
    OccursInv(s3);
    DonorPremises(s3, 2);
    NextAsksDonor(s3, 2, env);
    NextIsAsked(s3, 2);
    NextOccurs(s3, 2, env);
    var s4 := Next(s3, 2, env);
    OccursInv(s4);
    AskedSteals(s3, 2);
    StealsAlone(s4, 2, env);
    DonorRobbed(s3, 2);
    s' := AfterTheft(s4, 2);
    OccursThen(s4, 2, env, s');
    RobsAll(s3);
  }

  lemma AskedSteals(s: Sys, t: nat)
    requires Looping(s, t) && s.pc[t].d < |s.pc|
    ensures t < |Asked(s, t).pc| && Asked(s, t).pc[t].Stealing?
  {
    hide WorldShape;
  }

  lemma CreationStarts(s: Sys)
    requires Inv(s) && |s.pc| == 3 && s.pc[2].Unborn? && s.max == 4
    ensures Enabled(s, 2, Create) && |s.w.prims| == 3 && Count(s.w.prims[2].idx) == 0
    ensures
      var s' := Apply(s, 2, Create);
      s' == s.(pc := s.pc[2 := AllocWait(Birth, 4)])
  {
    assert ThreadOK(s.w.prims[2], s.pc[2], s.w.ss, s.max);
    hide LockOK, FlagOK, Placed, ScavsOK, ThreadsOK, CountOK, Count;
  }

  lemma RobsAll(s: Sys)
    requires Inv(s) && Looping(s, 2) && |s.pc| == 3 && s.slots == 4 && s.pc[2] == Donors(Birth, 4, 0, 0)
    requires s.w.prims[0].reallocatable && Count(s.w.prims[0].idx) == 3 && Count(s.w.prims[2].idx) == 0
    ensures
      var s' := Answered(s, 2);
      && |s'.pc| == |s'.w.prims| == 3 && s'.slots == 4 && s'.pc[1] == s.pc[1] && s'.pc[2] == Donors(Birth, 4, 1, 3)
      && Count(s'.w.prims[2].idx) == 3 && s'.w.prims[1] == s.w.prims[1]
  {
    hide Inv, Count, Realloc, Prefix, LiveSlots, Hosted;
    var x := Pair(s.w.prims[0], s.w.prims[2], s.w.ss);
    PairIsReady(s);
    ReallocExact(x, 2, 4, 0);
  }

  lemma PairIsReady(s: Sys)
    requires Inv(s) && Looping(s, 2) && |s.pc| == 3 && s.w.prims[0].reallocatable
    ensures Ready(Pair(s.w.prims[0], s.w.prims[2], s.w.ss))
  {
    hide LockOK, Placed, ScavsOK, CountOK, Count, Handshake, Prefix, LiveSlots;
    assert ThreadOK(s.w.prims[0], s.pc[0], s.w.ss, s.max) && ThreadOK(s.w.prims[2], s.pc[2], s.w.ss, s.max);
  }

  // ----- The theft after the marked primary has entered its call -------------------------------------

  /** The marked primary enters its call; thread 2 takes its flag; the push finds thread 2 full. */
  lemma HoleIsFilled(s: Sys, e: InitEffect)
    requires Inv(s) && Full(s)
    ensures EntersMarked(s, Act(1, Enter)) && Possible(s, Act(1, Enter))
    ensures Possible(Perform(s, Act(1, Enter)), Act(2, Advance(e)))
    ensures
      var s1 := Perform(s, Act(1, Enter));
      var s2 := Perform(s1, Act(2, Advance(e)));
      && Possible(s2, Act(2, Advance(e)))
      && var s3 := Perform(s2, Act(2, Advance(e)));
         var i := s.w.prims[1].idx[2];
         && |s3.w.prims| == 3 && |s3.w.prims[1].idx| == 4 && s3.w.prims[1].idx[1] == i != EMPTY
         && s3.w.ss == s.w.ss
  {
    var s1 := Perform(s, Act(1, Enter));
    MarkedEnters(s);
    FlagTaken(s1, e);
    var s2 := Perform(s1, Act(2, Advance(e)));
    assert s2 == DoDonor(s1, 2);
    FullThief(s.w.prims[2]);
    var x := Pair(s2.w.prims[1], s2.w.prims[2], s2.w.ss);
    StealRollsBack(x);
    hide Inv, Occurs, StealOne, Count;
    RollbackStep(s2, e);
  }

  lemma MarkedEnters(s: Sys)
    requires Inv(s) && Full(s)
    ensures EntersMarked(s, Act(1, Enter))
    ensures
      var s1 := Perform(s, Act(1, Enter));
      && At(s1, 2) && |s1.pc| == |s1.w.prims| == 3 && s1.slots == 4 && s1.w.ss == s.w.ss
      && s1.pc[2] == s.pc[2] && s1.w.prims[2] == s.w.prims[2]
      && s1.w.prims[1] == s.w.prims[1].(reallocatable := true)
  {
    hide LockOK, FlagOK, Placed, ScavsOK, ThreadsOK, CountOK, Occurs, Count;
    var s1 := Perform(s, Act(1, Enter));
    assert PcTyped(s, 0) && PcTyped(s, 2);
    assert WorldShape(s1.w, 4);
    forall u | 0 <= u < |s1.pc| ensures PcTyped(s1, u) {
      assert PcTyped(s, u);
    }
  }

  lemma FlagTaken(s: Sys, e: InitEffect)
    requires At(s, 2) && |s.pc| == |s.w.prims| == 3 && s.slots == 4 && s.pc[2] == Donors(Birth, 4, 1, 3)
    requires s.w.prims[1].reallocatable
    ensures Enabled(s, 2, Advance(e))
    ensures
      var s' := DoDonor(s, 2);
      && s' == Perform(s, Act(2, Advance(e)))
      && At(s', 2) && |s'.pc| == |s'.w.prims| == 3 && s'.slots == 4 && s'.w.ss == s.w.ss
      && s'.pc[2] == Stealing(Birth, 4, 1, 3, 0) && s'.w.prims[2] == s.w.prims[2]
      && s'.w.prims[1] == s.w.prims[1].(reallocatable := false)
  {
    var s' := DoDonor(s, 2);
    assert WorldShape(s'.w, 4);
    forall u | 0 <= u < |s'.pc| ensures PcTyped(s', u) {
      assert PcTyped(s, u);
    }
  }

  lemma FullThief(p: Prim)
    requires |p.idx| == 4 && Count(p.idx) == 3
    ensures FirstFree(p.idx, 1) == -1
  {
    CountToBounds(p.idx, 4);
  }

  /** The scavenger popped from slot 2 is pushed back into slot 1. */
  lemma StealRollsBack(x: Pair)
    requires SoundPair(x) && Holey(x.from) && FirstFree(x.to.idx, 1) == -1
    ensures
      var (y, o) := StealOne(x, 2);
      o.NoRoom? && y == x.(from := x.from.(idx := x.from.idx[2 := EMPTY][1 := x.from.idx[2]]))
  {
    assert LastUsed(x.from.idx, 4) == 2;
    assert FirstFree(x.from.idx[2 := EMPTY], 1) == 1;
  }

  lemma RollbackStep(s: Sys, e: InitEffect)
    requires At(s, 2) && |s.pc| == |s.w.prims| == 3 && s.slots == 4 && s.pc[2] == Stealing(Birth, 4, 1, 3, 0)
    requires
      var x := Pair(s.w.prims[1], s.w.prims[2], s.w.ss);
      StealOne(x, 2).1.NoRoom? && StealOne(x, 2).0.from == x.from.(idx := x.from.idx[2 := EMPTY][1 := x.from.idx[2]])
    ensures Enabled(s, 2, Advance(e))
    ensures
      var s' := Perform(s, Act(2, Advance(e)));
      && |s'.w.prims| == 3 && s'.w.ss == s.w.ss
      && s'.w.prims[1].idx == s.w.prims[1].idx[2 := EMPTY][1 := s.w.prims[1].idx[2]]
  {
    hide StealOne;
  }

  /**
    A run, with one call of a primary that was marked finished by mistake, after which a scavenger
    is listed in one slot and points to another: the tables are no longer inverse to each other, and
    the slot that lists it does not hold its context.
   */
  lemma MarkedPrimaryLosesScavenger(env: InitEnv, e: InitEffect) returns (trace: seq<Sys>, acts: seq<Act>)
    ensures WideRunBy(trace, acts) && 3 <= |acts|
    ensures EntersMarked(trace[|acts| - 3], acts[|acts| - 3])
    ensures forall k :: 0 <= k < |acts| && k != |acts| - 3 ==> !EntersMarked(trace[k], acts[k])
    ensures
      var w := trace[|acts|].w;
      && |w.prims| == 3 && |w.prims[1].idx| == 4 && 0 <= w.prims[1].idx[1] < |w.ss|
      && w.ss[w.prims[1].idx[1]].yc == Some(Loc(1, 2)) && !Placed(w)
  {
    hide Possible, Perform, Enabled, Apply, EntersMarked, Inv, Init, Occurs, Placed, Full, Base, OneMoved, Holey;
    var s := ThreeFinishes(env);
    s := FillsUp(s, env);
    FullOccurs(s);
    OccursInv(s);
    HoleIsFilled(s, e);
    PopPointsTo(s);
    var before;
    trace, before := RunTo(s);
    var s1 := Perform(s, Act(1, Enter));
    var s2 := Perform(s1, Act(2, Advance(e)));
    var s3 := Perform(s2, Act(2, Advance(e)));
    acts := before + [Act(1, Enter), Act(2, Advance(e)), Act(2, Advance(e))];
    WideExtends(trace, before, s1, s2, s3, acts, trace + [s1, s2, s3]);
    trace := trace + [s1, s2, s3];
    NotPlaced(s3.w);
  }

  lemma FullOccurs(s: Sys)
    requires Full(s)
    ensures Occurs(s) && |s.w.prims| == 3 && |s.w.prims[1].idx| == 4
  {
  }

  lemma ThreeFinishes(env: InitEnv) returns (s: Sys)
    ensures Base(s) && s.pc[0].Running? && s.pc[1].Draining? && Holey(s.w.prims[1])
  {
    hide Occurs, Enabled, Apply, OneMoved, Holey;
    s := MovesOne(env);
    s := Misfires(s);
    s := LeavesHole(s, env);
  }

  lemma RunTo(s: Sys) returns (run: seq<Sys>, acts: seq<Act>)
    requires Occurs(s)
    ensures RunBy(run, acts) && run[|run| - 1] == s
  {
    hide Init, Apply, Enabled;
    run :| Run(run) && run[|run| - 1] == s;
    acts := RunHasActs(run);
  }

  lemma NotPlaced(w: World)
    requires |w.prims| == 3 && |w.prims[1].idx| == 4 && 0 <= w.prims[1].idx[1] < |w.ss|
    requires w.ss[w.prims[1].idx[1]].yc == Some(Loc(1, 2))
    ensures !Placed(w)
  {
    assert !LivesAt(w.ss, w.prims[1].idx[1], 1, 1);
  }

  lemma PopPointsTo(s: Sys)
    requires Inv(s) && Full(s)
    ensures
      var i := s.w.prims[1].idx[2];
      0 <= i < |s.w.ss| && s.w.ss[i].yc == Some(Loc(1, 2))
  {
    assert LivesAt(s.w.ss, s.w.prims[1].idx[2], 1, 2);
  }

  lemma WideExtends(run: seq<Sys>, before: seq<Act>, s1: Sys, s2: Sys, s3: Sys, acts: seq<Act>, trace: seq<Sys>)
    requires RunBy(run, before) && |acts| == |before| + 3 && acts[..|before|] == before
    requires trace == run + [s1, s2, s3]
    requires
      var n, s := |before|, run[|run| - 1];
      && Performs(s, acts[n], s1) && Performs(s1, acts[n + 1], s2) && Performs(s2, acts[n + 2], s3)
      && EntersMarked(s, acts[n]) && !acts[n + 1].a.Enter? && !acts[n + 2].a.Enter?
    ensures WideRunBy(trace, acts)
    ensures EntersMarked(trace[|acts| - 3], acts[|acts| - 3])
    ensures forall k :: 0 <= k < |acts| && k != |acts| - 3 ==> !EntersMarked(trace[k], acts[k])
  {
    hide Apply, Init;
    var n := |before|;
    forall k | 0 <= k < |acts|
      ensures Performs(trace[k], acts[k], trace[k + 1]) && (k != n ==> !EntersMarked(trace[k], acts[k]))
    {
      if k < n {
        assert acts[k] == before[k] && Does(run[k], before[k], run[k + 1]);
      }
    }
  }
}
