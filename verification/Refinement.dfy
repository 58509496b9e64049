/**
  The allocator seen from its scavengers: an abstract machine that knows only which scavengers are
  hosted, with which saved context, and which are finished. Slots, threads, links and locks are
  gone, so a step that moves a scavenger must leave the abstract state alone.
 */
module Refinement {
  import opened Wrappers
  import opened Tables
  import opened SlotList
  import opened Scheduler
  import opened Allocator
  import opened Protocol
  import opened Invariant
  import opened InvariantProof

  datatype Abs = Abs(hosted: map<int, Saved>, finished: set<int>)

  datatype Label =
    | Silent
    | Takes(i: int, v: Saved)     // from the pool
    | Saves(i: int, v: Saved)     // scavenger i ran and saved its context
    | Retires(i: int)

  predicate AbsNext(a: Abs, l: Label, a': Abs) {
    match l
    case Silent => a' == a
    case Takes(i, v) => i !in a.hosted && i !in a.finished && a' == a.(hosted := a.hosted[i := v])
    case Saves(i, v) => i in a.hosted && a' == a.(hosted := a.hosted[i := v])
    case Retires(i) =>
      && i in a.hosted && i !in a.finished
      && a' == Abs(a.hosted - {i}, a.finished + {i})
  }

  predicate Reachable(w: World) {
    && Placed(w)
    && (forall t :: 0 <= t < |w.prims| ==> WellShaped(w.prims[t]))
  }

  function SavedOf(w: World, i: nat): Saved
    requires Reachable(w) && i < |w.ss| && w.ss[i].yc.Some?
  {
    var at := w.ss[i].yc.value;
    assert PointsHome(w, i);
    SavedAt(w.prims[at.tid], at.pos)
  }

  function Abstract(w: World): Abs
    requires Reachable(w)
  {
    Abs(map i | 0 <= i < |w.ss| && w.ss[i].yc.Some? :: SavedOf(w, i), Finished(w.ss))
  }

  lemma InvIsReachable(s: Sys)
    requires Inv(s)
    ensures Reachable(s.w)
  {
  }

  /** What the abstract machine sees of an action. Moves, links and locks are invisible. */
  function LabelOf(s: Sys, t: nat, a: Action): Label
    requires Enabled(s, t, a)
  {
    var p, c := s.w.prims[t], s.pc[t];
    match a
    case Save(pos, v) => if p.idx[pos] == EMPTY then Silent else Saves(p.idx[pos], v)
    case Advance(e) => (
      match c
      case FinishLocked(pos) => Retires(p.idx[pos])
      case Pool(_, _, i, _) =>
        if i < |s.w.ss| && PoolOne(LocalOf(s.w, t), t, i).1.Taken? then
          Takes(i, Saved(s.w.ss[i].retToSched, s.w.ss[i].entry, p.regs[FirstFree(p.idx, 1)]))
        else Silent
      case Initing(_, pos, _) =>
        if pos < s.slots && p.idx[pos] != EMPTY && NeedsInit(s.w.ss[p.idx[pos]]) then
          Saves(p.idx[pos], Saved(p.ycs[pos].sp, p.ycs[pos].ip, e.regs))
        else Silent
      case _ => Silent)
    case _ => Silent
  }

  // ----- Silent steps ----------------------------------------------------------------------------

  /** The saved contexts are the same, wherever the scavengers are. */
  lemma SameAbstract(w: World, w': World)
    requires Reachable(w) && Reachable(w') && |w'.ss| == |w.ss|
    requires forall i :: 0 <= i < |w.ss| ==>
      w'.ss[i].finished == w.ss[i].finished && w'.ss[i].yc.Some? == w.ss[i].yc.Some?
    requires forall i :: 0 <= i < |w.ss| && w.ss[i].yc.Some? ==> SavedOf(w', i) == SavedOf(w, i)
    ensures Abstract(w') == Abstract(w)
  {
    assert Finished(w'.ss) == Finished(w.ss);
    assert Abstract(w').hosted == Abstract(w).hosted;
  }

  predicate SameSaved(p: Prim, p': Prim)
    requires WellShaped(p) && WellShaped(p')
  {
    |p'.idx| == |p.idx| && forall q :: 0 <= q < |p.idx| ==> SavedAt(p', q) == SavedAt(p, q)
  }

  /** Only links, flags and counters changed. */
  lemma LinksAreSilent(w: World, w': World)
    requires Reachable(w) && Reachable(w') && w'.ss == w.ss && |w'.prims| == |w.prims|
    requires forall u :: 0 <= u < |w.prims| ==> SameSaved(w.prims[u], w'.prims[u])
    ensures Abstract(w') == Abstract(w)
  {
    forall i | 0 <= i < |w.ss| && w.ss[i].yc.Some? ensures SavedOf(w', i) == SavedOf(w, i) {
      assert PointsHome(w, i) && PointsHome(w', i);
    }
    SameAbstract(w, w');
  }

  lemma UpdateIsSilent(p: Prim)
    requires WellShaped(p)
    ensures WellShaped(UpdateNextMap(p)) && SameSaved(p, UpdateNextMap(p))
  {
  }

  lemma SpecialIsSilent(p: Prim)
    requires WellShaped(p)
    ensures WellShaped(SetSpecialNext(p)) && SameSaved(p, SetSpecialNext(p))
  {
  }

  lemma AfterFinishIsSilent(s: Sys, t: nat)
    requires t < |s.pc| == |s.w.prims| && WellShaped(s.w.prims[t])
    ensures
      var s' := AfterFinish(s, t);
      && s'.w == s.w.(prims := s.w.prims[t := s'.w.prims[t]])
      && WellShaped(s'.w.prims[t]) && SameSaved(s.w.prims[t], s'.w.prims[t])
      && s'.w.prims[t].idx == s.w.prims[t].idx
  {
    UpdateIsSilent(s.w.prims[t]);
  }

  /** Swapping a hole with a used slot moves one scavenger, context and all. */
  lemma SwapIsSilent(w: World, t: nat, a: nat, b: nat)
    requires Reachable(w) && t < |w.prims| && Sound(LocalOf(w, t)) && 1 <= a < b < |w.prims[t].idx|
    requires w.prims[t].idx[a] == EMPTY && w.prims[t].idx[b] != EMPTY
    requires Reachable(WithLocal(w, t, Swap(LocalOf(w, t), t, a, b)))
    ensures Abstract(WithLocal(w, t, Swap(LocalOf(w, t), t, a, b))) == Abstract(w)
  {
    var w' := WithLocal(w, t, Swap(LocalOf(w, t), t, a, b));
    var i := w.prims[t].idx[b];
    assert LivesAt(w.ss, i, t, b);
    forall j | 0 <= j < |w.ss| && w.ss[j].yc.Some? ensures SavedOf(w', j) == SavedOf(w, j) {
      assert PointsHome(w, j) && PointsHome(w', j);
      if j != i {
        assert w'.ss[j] == w.ss[j];
        assert w.ss[j].yc != Some(Loc(t, a)) && w.ss[j].yc != Some(Loc(t, b));
      }
    }
    SameAbstract(w, w');
  }

  lemma StealIsSilent(w: World, t: nat, d: nat, n: nat, m: nat)
    requires Reachable(w) && t < |w.prims| && d < |w.prims| && t != d
    requires Sound(LocalOf(w, t)) && Sound(LocalOf(w, d))
    requires n < |w.prims[d].idx| && 1 <= m < |w.prims[t].idx|
    requires w.prims[d].idx[n] != EMPTY && w.prims[t].idx[m] == EMPTY
    ensures
      var i := w.prims[d].idx[n];
      var w' := World(w.prims[d := Robbed(w.prims[d], n)]
                             [t := Received(w.prims[t], m, i, SavedAt(w.prims[d], n))],
                      MoveScav(w.ss, i, Loc(t, m)));
      Reachable(w') ==> Abstract(w') == Abstract(w)
  {
    var i := w.prims[d].idx[n];
    var w' := World(w.prims[d := Robbed(w.prims[d], n)]
                           [t := Received(w.prims[t], m, i, SavedAt(w.prims[d], n))],
                    MoveScav(w.ss, i, Loc(t, m)));
    assert LivesAt(w.ss, i, d, n);
    if Reachable(w') {
      forall j | 0 <= j < |w.ss| && w.ss[j].yc.Some? ensures SavedOf(w', j) == SavedOf(w, j) {
        assert PointsHome(w, j) && PointsHome(w', j);
        if j != i {
          assert w'.ss[j] == w.ss[j];
          assert w.ss[j].yc != Some(Loc(t, m)) && w.ss[j].yc != Some(Loc(d, n));
        }
      }
      SameAbstract(w, w');
    }
  }

  // ----- Visible steps ---------------------------------------------------------------------------

  lemma WriteSeen(w: World, w': World, t: nat, pos: nat, v: Saved)
    requires Reachable(w) && Reachable(w') && t < |w.prims| == |w'.prims| && |w'.ss| == |w.ss|
    requires pos < |w.prims[t].idx| && forall u :: 0 <= u < |w.prims| ==> w'.prims[u].idx == w.prims[u].idx
    requires forall i :: 0 <= i < |w.ss| ==> SameSpot(w'.ss[i], w.ss[i])
    requires forall u, q :: 0 <= u < |w.prims| && 0 <= q < |w.prims[u].idx| ==>
      SavedAt(w'.prims[u], q) == if u == t && q == pos then v else SavedAt(w.prims[u], q)
    ensures var i := w.prims[t].idx[pos]; i != EMPTY ==> 0 <= i < |w.ss| && w.ss[i].yc.Some?
    ensures forall j :: 0 <= j < |w.ss| && w.ss[j].yc.Some? ==>
      SavedOf(w', j) == if j == w.prims[t].idx[pos] then v else SavedOf(w, j)
  {
    var i := w.prims[t].idx[pos];
    assert i != EMPTY ==> LivesAt(w.ss, i, t, pos);
    forall j | 0 <= j < |w.ss| && w.ss[j].yc.Some?
      ensures SavedOf(w', j) == if j == i then v else SavedOf(w, j)
    {
      assert PointsHome(w, j) && PointsHome(w', j);
    }
  }

  /** One slot's context is rewritten: exactly its scavenger is affected. */
  lemma WriteIsVisible(w: World, w': World, t: nat, pos: nat, v: Saved)
    requires Reachable(w) && Reachable(w') && t < |w.prims| == |w'.prims| && |w'.ss| == |w.ss|
    requires pos < |w.prims[t].idx| && forall u :: 0 <= u < |w.prims| ==> w'.prims[u].idx == w.prims[u].idx
    requires forall i :: 0 <= i < |w.ss| ==> SameSpot(w'.ss[i], w.ss[i])
    requires forall u, q :: 0 <= u < |w.prims| && 0 <= q < |w.prims[u].idx| ==>
      SavedAt(w'.prims[u], q) == if u == t && q == pos then v else SavedAt(w.prims[u], q)
    ensures
      var i := w.prims[t].idx[pos];
      AbsNext(Abstract(w), if i == EMPTY then Silent else Saves(i, v), Abstract(w'))
  {
    var i := w.prims[t].idx[pos];
    WriteSeen(w, w', t, pos, v);
    SeenAs(w, w', i, v);
  }

  /** Equal saved contexts but for one scavenger: the abstract states differ in that one. */
  lemma SeenAs(w: World, w': World, i: int, v: Saved)
    requires Reachable(w) && Reachable(w') && |w'.ss| == |w.ss|
    requires i != EMPTY ==> 0 <= i < |w.ss| && w.ss[i].yc.Some?
    requires forall j :: 0 <= j < |w.ss| ==> SameSpot(w'.ss[j], w.ss[j])
    requires forall j :: 0 <= j < |w.ss| && w'.ss[j].yc.Some? ==>
      w.ss[j].yc.Some? && SavedOf(w', j) == (if j == i then v else SavedOf(w, j))
    ensures AbsNext(Abstract(w), if i == EMPTY then Silent else Saves(i, v), Abstract(w'))
  {
    hide SavedOf, Placed;
    assert Finished(w'.ss) == Finished(w.ss);
    assert Abstract(w').hosted == if i == EMPTY then Abstract(w).hosted else Abstract(w).hosted[i := v];
  }

  /** Scavenger i enters or leaves; all other scavengers stay where they are. */
  lemma OthersStay(w: World, w': World, i: nat)
    requires Reachable(w) && Reachable(w') && i < |w.ss| == |w'.ss| && |w'.prims| == |w.prims|
    requires forall j :: 0 <= j < |w.ss| && j != i ==> w'.ss[j] == w.ss[j]
    requires forall u, q :: 0 <= u < |w.prims| && 0 <= q < |w.prims[u].idx| && w.prims[u].idx[q] != EMPTY ==>
      |w'.prims[u].idx| == |w.prims[u].idx| && SavedAt(w'.prims[u], q) == SavedAt(w.prims[u], q)
    ensures forall j :: 0 <= j < |w.ss| && j != i && w.ss[j].yc.Some? ==> SavedOf(w', j) == SavedOf(w, j)
  {
    forall j | 0 <= j < |w.ss| && j != i && w.ss[j].yc.Some? ensures SavedOf(w', j) == SavedOf(w, j) {
      assert PointsHome(w, j) && PointsHome(w', j);
    }
  }

  lemma RetireLeavesOthers(w: World, w': World, t: nat, pos: nat)
    requires Reachable(w) && Reachable(w') && t < |w.prims|
    requires Sound(LocalOf(w, t)) && pos < |w.prims[t].idx| && w.prims[t].idx[pos] != EMPTY
    requires
      var l := Retire(LocalOf(w, t), pos);
      && |w'.prims| == |w.prims| && w' == WithLocal(w, t, l.(p := w'.prims[t]))
      && SameSaved(l.p, w'.prims[t])
    ensures
      var i := w.prims[t].idx[pos];
      && |w'.ss| == |w.ss| && w'.ss[i].yc.None? && w'.ss[i].finished
      && forall j :: 0 <= j < |w.ss| && j != i ==>
        w'.ss[j] == w.ss[j] && (w.ss[j].yc.Some? ==> SavedOf(w', j) == SavedOf(w, j))
  {
    hide LivesAt, Placed, PointsHome;
    assert forall q :: 0 <= q < |w.prims[t].idx| ==> SavedAt(w'.prims[t], q) == SavedAt(w.prims[t], q);
    OthersStay(w, w', w.prims[t].idx[pos]);
  }

  lemma RetireIsVisible(w: World, w': World, t: nat, pos: nat)
    requires Reachable(w) && Reachable(w') && ScavsOK(w.ss) && t < |w.prims|
    requires Sound(LocalOf(w, t)) && pos < |w.prims[t].idx| && w.prims[t].idx[pos] != EMPTY
    requires
      var l := Retire(LocalOf(w, t), pos);
      && |w'.prims| == |w.prims| && w' == WithLocal(w, t, l.(p := w'.prims[t]))
      && SameSaved(l.p, w'.prims[t])
    ensures AbsNext(Abstract(w), Retires(w.prims[t].idx[pos]), Abstract(w'))
  {
    var i := w.prims[t].idx[pos];
    assert LivesAt(w.ss, i, t, pos);
    RetireLeavesOthers(w, w', t, pos);
    OneRetired(w, w', i);
  }

  lemma OneRetired(w: World, w': World, i: nat)
    requires Reachable(w) && Reachable(w') && i < |w.ss| == |w'.ss|
    requires w.ss[i].yc.Some? && !w.ss[i].finished && w'.ss[i].yc.None? && w'.ss[i].finished
    requires forall j :: 0 <= j < |w.ss| && j != i ==>
      w'.ss[j] == w.ss[j] && (w.ss[j].yc.Some? ==> SavedOf(w', j) == SavedOf(w, j))
    ensures AbsNext(Abstract(w), Retires(i), Abstract(w'))
  {
    hide Reachable, SavedOf;
    assert Finished(w'.ss) == Finished(w.ss) + {i};
    assert Abstract(w').hosted == Abstract(w).hosted - {i};
  }

  lemma TakeIsVisible(w: World, t: nat, i: nat)
    requires Reachable(w) && ScavsOK(w.ss) && t < |w.prims| && Sound(LocalOf(w, t)) && i < |w.ss|
    requires PoolOne(LocalOf(w, t), t, i).1.Taken?
    requires Reachable(WithLocal(w, t, PoolOne(LocalOf(w, t), t, i).0))
    ensures
      var v := Saved(w.ss[i].retToSched, w.ss[i].entry, w.prims[t].regs[FirstFree(w.prims[t].idx, 1)]);
      AbsNext(Abstract(w), Takes(i, v), Abstract(WithLocal(w, t, PoolOne(LocalOf(w, t), t, i).0)))
  {
    var w' := WithLocal(w, t, PoolOne(LocalOf(w, t), t, i).0);
    var v := Saved(w.ss[i].retToSched, w.ss[i].entry, w.prims[t].regs[FirstFree(w.prims[t].idx, 1)]);
    TakeLeavesOthers(w, t, i);
    assert SavedOf(w', i) == v by {
      hide Placed;
      assert PointsHome(w', i);
    }
    hide PoolOne, SavedOf, Reachable;
    OneTaken(w, w', i, v);
  }

  lemma TakeLeavesOthers(w: World, t: nat, i: nat)
    requires Reachable(w) && t < |w.prims| && Sound(LocalOf(w, t)) && i < |w.ss|
    requires PoolOne(LocalOf(w, t), t, i).1.Taken?
    requires Reachable(WithLocal(w, t, PoolOne(LocalOf(w, t), t, i).0))
    ensures
      var w' := WithLocal(w, t, PoolOne(LocalOf(w, t), t, i).0);
      && w.ss[i].yc.None? && !w.ss[i].finished && w'.ss[i].yc.Some? && !w'.ss[i].finished
      && forall j :: 0 <= j < |w.ss| && j != i ==>
        w'.ss[j] == w.ss[j] && (w.ss[j].yc.Some? ==> SavedOf(w', j) == SavedOf(w, j))
  {
    hide Placed, LivesAt, PointsHome;
    OthersStay(w, WithLocal(w, t, PoolOne(LocalOf(w, t), t, i).0), i);
  }

  lemma OneTaken(w: World, w': World, i: nat, v: Saved)
    requires Reachable(w) && Reachable(w') && i < |w.ss| == |w'.ss|
    requires w.ss[i].yc.None? && !w.ss[i].finished && w'.ss[i].yc.Some? && !w'.ss[i].finished
    requires SavedOf(w', i) == v
    requires forall j :: 0 <= j < |w.ss| && j != i ==>
      w'.ss[j] == w.ss[j] && (w.ss[j].yc.Some? ==> SavedOf(w', j) == SavedOf(w, j))
    ensures AbsNext(Abstract(w), Takes(i, v), Abstract(w'))
  {
    hide Reachable, SavedOf;
    assert Finished(w'.ss) == Finished(w.ss);
    assert Abstract(w').hosted == Abstract(w).hosted[i := v];
  }

  // ----- The simulation --------------------------------------------------------------------------

  predicate Simulates(s: Sys, s': Sys, l: Label)
    requires Reachable(s.w) && Reachable(s'.w)
  {
    AbsNext(Abstract(s.w), l, Abstract(s'.w))
  }

  lemma StealSimulates(s: Sys, t: nat)
    requires Inv(s) && At(s, t) && s.pc[t].Stealing? && Inv(DoSteal(s, t))
    ensures Simulates(s, DoSteal(s, t), Silent)
  {
    hide LockOK, FlagOK, ScavsOK, CountOK, ThreadsOK, StealOne, Abstract, Prefix, LiveSlots, Count, Placed;
    var c, s' := s.pc[t], DoSteal(s, t);
    var from, to := s.w.prims[c.d], s.w.prims[t];
    StealReady(s, t);
    StealSlots(Pair(from, to, s.w.ss), t);
    if c.cnt < c.need && StealOne(Pair(from, to, s.w.ss), t).1.Moved? {
      StealIsSilent(s.w, t, c.d, Count(from.idx), Count(to.idx) + 1);
    } else {
      LinksAreSilent(s.w, s'.w);
    }
  }

  lemma AdvanceSimulates(s: Sys, t: nat, e: InitEffect)
    requires Inv(s) && Enabled(s, t, Advance(e)) && Inv(Apply(s, t, Advance(e)))
    ensures Simulates(s, Apply(s, t, Advance(e)), LabelOf(s, t, Advance(e)))
  {
    hide Inv, Reachable, Simulates, DoRetire, DoSwap, DoSteal, DoPool, DoInit, DoPack, DoDonor, TryLock, PoolOne, WorldShape;
    InvIsReachable(s);
    InvIsReachable(Apply(s, t, Advance(e)));
    match s.pc[t]
    case FinishLocked(pos) => RetireSimulates(s, t);
    case SwapLocked(a, b) => SwapSimulates(s, t);
    case Stealing(_, _, _, _, _) => StealSimulates(s, t);
    case Pool(_, _, i, _) => PoolSimulates(s, t, e);
    case Initing(_, pos, _) => InitSimulates(s, t, e);
    case _ => LinkAdvanceSimulates(s, t, e);
  }

  lemma RetireSimulates(s: Sys, t: nat)
    requires Inv(s) && At(s, t) && s.pc[t].FinishLocked? && Inv(DoRetire(s, t))
    ensures Simulates(s, DoRetire(s, t), Retires(s.w.prims[t].idx[s.pc[t].pos]))
  {
    hide LockOK, FlagOK, ScavsOK, CountOK, Abstract, Placed, Retire, AfterFinish, AbsNext, ThreadsOK;
    var pos := s.pc[t].pos;
    AfterFinishIsSilent(Unlocked(s.(w := WithLocal(s.w, t, Retire(LocalOf(s.w, t), pos)))), t);
    RetireIsVisible(s.w, DoRetire(s, t).w, t, pos);
  }

  lemma SwapSimulates(s: Sys, t: nat)
    requires Inv(s) && At(s, t) && s.pc[t].SwapLocked? && Inv(DoSwap(s, t))
    ensures Simulates(s, DoSwap(s, t), Silent)
  {
    hide LockOK, FlagOK, ScavsOK, CountOK, Abstract, Placed, Swap;
    assert ThreadOK(s.w.prims[t], s.pc[t], s.w.ss, s.max);
    SwapIsSilent(s.w, t, s.pc[t].a, s.pc[t].b);
  }

  lemma PoolSimulates(s: Sys, t: nat, e: InitEffect)
    requires Inv(s) && Enabled(s, t, Advance(e)) && s.pc[t].Pool? && Inv(Apply(s, t, Advance(e)))
    ensures Simulates(s, Apply(s, t, Advance(e)), LabelOf(s, t, Advance(e)))
  {
    hide LockOK, FlagOK, ScavsOK, CountOK, Abstract, Placed, ThreadsOK;
    var c, s' := s.pc[t], Apply(s, t, Advance(e));
    if c.i < |s.w.ss| && PoolOne(LocalOf(s.w, t), t, c.i).1.Taken? {
      TakeIsVisible(s.w, t, c.i);
    } else {
      assert s'.w == s.w;
    }
  }

  lemma InitSimulates(s: Sys, t: nat, e: InitEffect)
    requires Inv(s) && Enabled(s, t, Advance(e)) && s.pc[t].Initing? && Inv(Apply(s, t, Advance(e)))
    ensures Simulates(s, Apply(s, t, Advance(e)), LabelOf(s, t, Advance(e)))
  {
    hide LockOK, FlagOK, ScavsOK, CountOK, Abstract, Placed, ThreadsOK, UpdateNextMap, SetSpecialNext;
    var c, p, s' := s.pc[t], s.w.prims[t], Apply(s, t, Advance(e));
    if c.pos == s.slots {
      SpecialIsSilent(p);
      UpdateIsSilent(SetSpecialNext(p));
      LinksAreSilent(s.w, s'.w);
    } else if p.idx[c.pos] != EMPTY && NeedsInit(s.w.ss[p.idx[c.pos]]) {
      WriteIsVisible(s.w, s'.w, t, c.pos, Saved(p.ycs[c.pos].sp, p.ycs[c.pos].ip, e.regs));
    } else {
      assert s'.w == s.w;
    }
  }

  lemma LinkAdvanceSimulates(s: Sys, t: nat, e: InitEffect)
    requires Inv(s) && Enabled(s, t, Advance(e)) && Inv(Apply(s, t, Advance(e)))
    requires var c := s.pc[t]; c.FinishWait? || c.Packing? || c.SwapWait? || c.AllocWait? || c.Donors?
    ensures Simulates(s, Apply(s, t, Advance(e)), Silent)
  {
    hide LockOK, FlagOK, ScavsOK, CountOK, Abstract, Placed, ThreadsOK, UpdateNextMap, SetSpecialNext, Prefix;
    var s', p := Apply(s, t, Advance(e)), s.w.prims[t];
    SpecialIsSilent(p);
    UpdateIsSilent(SetSpecialNext(p));
    LinksAreSilent(s.w, s'.w);
  }

  /**
    Every action of every thread, in every state that satisfies the invariant, is a step of the
    abstract machine. In particular swaps, compaction and steals are invisible: a scavenger's saved
    context never changes except by its own running, whatever slot of whatever thread it is in.
   */
  lemma ActionSimulates(s: Sys, t: nat, a: Action)
    requires Inv(s) && Enabled(s, t, a)
    ensures Reachable(s.w) && Reachable(Apply(s, t, a).w)
    ensures Simulates(s, Apply(s, t, a), LabelOf(s, t, a))
  {
    var s', p := Apply(s, t, a), s.w.prims[t];
    ActionKeepsInv(s, t, a);
    match a
    case Advance(e) => AdvanceSimulates(s, t, e);
    case Save(pos, v) => {
      hide Abstract, Placed, LockOK, FlagOK, ScavsOK, CountOK, ThreadsOK, AbsNext;
      WriteIsVisible(s.w, s'.w, t, pos, v);
    }
    case _ => OuterSimulates(s, t, a);
  }

  lemma ExitIsSilent(s: Sys, t: nat)
    requires Enabled(s, t, TryExit)
    ensures
      var s' := Apply(s, t, TryExit);
      && |s'.w.prims| == |s.w.prims|
      && WellShaped(s'.w.prims[t]) && SameSaved(s.w.prims[t], s'.w.prims[t])
  {
  }

  lemma OuterSimulates(s: Sys, t: nat, a: Action)
    requires Inv(s) && Enabled(s, t, a) && Inv(Apply(s, t, a)) && !a.Advance? && !a.Save?
    ensures Simulates(s, Apply(s, t, a), Silent)
  {
    hide Abstract, Placed, LockOK, FlagOK, ScavsOK, CountOK, ThreadsOK, UpdateNextMap, AfterFinish, Count;
    var s', p := Apply(s, t, a), s.w.prims[t];
    match a
    case TryExit => {
      ExitIsSilent(s, t);
      LinksAreSilent(s.w, s'.w);
    }
    case Finish(pos) => {
      AfterFinishIsSilent(Put(s, t, SetNormal(p, pos, EMPTY), s.pc[t]).(
        finishedCnt := s.finishedCnt + if pos == 0 then 0 else 1,
        misses := s.misses + if pos == 0 then 0 else 1), t);
      assert SameSaved(p, SetNormal(p, pos, EMPTY));
      assert SameSaved(p, s'.w.prims[t]);
      LinksAreSilent(s.w, s'.w);
    }
    case Cleanup => {
      AfterFinishIsSilent(Put(s, t, SetNormal(SelfLinks(p), 0, EMPTY), s.pc[t]), t);
      assert SameSaved(p, SelfLinks(p));
      assert SameSaved(p, s'.w.prims[t]);
      LinksAreSilent(s.w, s'.w);
    }
    case _ => LinksAreSilent(s.w, s'.w);
  }

  // ----- Whole runs ------------------------------------------------------------------------------

  /** What the abstract machine sees of step k of a run. */
  function Seen(trace: seq<Sys>, acts: seq<Act>, k: nat): Label
    requires RunBy(trace, acts) && k < |acts|
  {
    assert Does(trace[k], acts[k], trace[k + 1]);
    LabelOf(trace[k], acts[k].t, acts[k].a)
  }

  /**
    Every run is a run of the abstract machine, from nothing hosted and nothing finished, and each
    abstract step is the one that the action in that place shows: no context is ever rewritten but
    by its scavenger's own saves and init, nothing appears but from the pool, nothing goes but by
    finishing.
   */
  lemma RunRefines(trace: seq<Sys>, acts: seq<Act>)
    requires RunBy(trace, acts)
    ensures forall k :: 0 <= k < |trace| ==> Reachable(trace[k].w)
    ensures Abstract(trace[0].w) == Abs(map[], {})
    ensures forall k :: 0 <= k < |acts| ==>
      AbsNext(Abstract(trace[k].w), Seen(trace, acts, k), Abstract(trace[k + 1].w))
  {
    RunByIsRun(trace, acts);
    forall k | 0 <= k < |trace| ensures Reachable(trace[k].w) {
      RunKeepsInv(trace, k);
    }
    assert Abstract(trace[0].w) == Abs(map[], {}) by {
      assert Finished(trace[0].w.ss) == {};
    }
    hide Abstract, Inv, Reachable;
    forall k | 0 <= k < |acts|
      ensures AbsNext(Abstract(trace[k].w), Seen(trace, acts, k), Abstract(trace[k + 1].w))
    {
      assert Does(trace[k], acts[k], trace[k + 1]);
      RunKeepsInv(trace, k);
      ActionSimulates(trace[k], acts[k].t, acts[k].a);
    }
  }

  predicate Concerns(l: Label, i: int) {
    (l.Takes? || l.Saves? || l.Retires?) && l.i == i
  }

  /**
    Between two points of a run at which scavenger i neither ran nor finished, its saved stack
    pointer, instruction pointer and registers are the same, whatever thread stole it meanwhile.
   */
  lemma {:induction false} ContextSurvives(trace: seq<Sys>, acts: seq<Act>, i: int, j: nat, k: nat)
    requires RunBy(trace, acts) && j <= k < |trace|
    requires forall m :: j <= m < k ==> !Concerns(Seen(trace, acts, m), i)
    requires Reachable(trace[j].w) && i in Abstract(trace[j].w).hosted
    ensures Reachable(trace[k].w) && i in Abstract(trace[k].w).hosted
    ensures Abstract(trace[k].w).hosted[i] == Abstract(trace[j].w).hosted[i]
    decreases k - j
  {
    hide Abstract, Reachable, Does, Init, Seen, AbsNext;
    RunRefines(trace, acts);
    if j < k {
      ContextSurvives(trace, acts, i, j, k - 1);
      var l := Seen(trace, acts, k - 1);
      assert AbsNext(Abstract(trace[k - 1].w), l, Abstract(trace[k - 1 + 1].w));
      HostedStays(Abstract(trace[k - 1].w), l, Abstract(trace[k].w), i);
    }
  }

  lemma HostedStays(a: Abs, l: Label, a': Abs, i: int)
    requires AbsNext(a, l, a') && i in a.hosted && !Concerns(l, i)
    ensures i in a'.hosted && a'.hosted[i] == a.hosted[i]
  {
  }

  /**
    In every state of every run, the context stored for a hosted scavenger is the one that it saved
    itself last, or its entry point if it has not run since it came from the pool.
   */
  lemma {:induction false} ContextIsLastSaved(trace: seq<Sys>, acts: seq<Act>, i: int, k: nat) returns (m: nat)
    requires RunBy(trace, acts) && k < |trace|
    requires Reachable(trace[k].w) && i in Abstract(trace[k].w).hosted
    ensures m < k
    ensures
      var l := Seen(trace, acts, m);
      (l.Takes? || l.Saves?) && l.i == i && l.v == Abstract(trace[k].w).hosted[i]
    ensures forall n :: m < n < k ==> !Concerns(Seen(trace, acts, n), i)
    decreases k
  {
    hide Abstract, Reachable, Does, Init, Seen, AbsNext;
    RunRefines(trace, acts);
    m := 0;
    if k == 0 {
      assert false;
    } else {
      var l := Seen(trace, acts, k - 1);
      assert AbsNext(Abstract(trace[k - 1].w), l, Abstract(trace[k - 1 + 1].w));
      HostedAfter(Abstract(trace[k - 1].w), l, Abstract(trace[k].w), i);
      if Concerns(l, i) {
        m := k - 1;
      } else {
        m := ContextIsLastSaved(trace, acts, i, k - 1);
      }
    }
  }

  /** A context that is there after a step was written by it, or was there before. */
  lemma HostedAfter(a: Abs, l: Label, a': Abs, i: int)
    requires AbsNext(a, l, a') && i in a'.hosted
    ensures Concerns(l, i) ==> (l.Takes? || l.Saves?) && l.v == a'.hosted[i]
    ensures !Concerns(l, i) ==> i in a.hosted && a.hosted[i] == a'.hosted[i]
  {
  }
}
