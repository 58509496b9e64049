/**
  Whole scheduling events of one thread: a coroutine finishes (tl_sched_next_crt), a blockable
  call ends after a theft (msh_exit_blockable_call), and cleanup drains what is left.
 */
module Events {
  import opened Wrappers
  import opened Tables
  import opened SlotList
  import opened Scheduler
  import opened Allocator
  import opened Protocol
  import opened Invariant
  import opened InvariantProof

  // ----- Positions -------------------------------------------------------------------------------

  /** The slot that tl_sched_next_crt reads out of a scavenger's crt_pos. */
  function Decode(crtPos: nat): nat {
    crtPos / YC_SIZE
  }

  /** The scavengers of one thread know their slot, in bytes or in slots. */
  predicate LocallyPlaced(l: Local, t: nat)
    requires Sound(l)
  {
    && l.p.idx[0] == EMPTY
    && forall q :: 0 <= q < |l.p.idx| && l.p.idx[q] != EMPTY ==> LivesAt(l.ss, l.p.idx[q], t, q)
  }

  /** The scavenger in slot q has not been moved since it came from the pool. */
  predicate Scaled(l: Local, q: nat)
    requires Sound(l) && q < |l.p.idx| && l.p.idx[q] != EMPTY
  {
    l.ss[l.p.idx[q]].crtPos == q * YC_SIZE
  }

  lemma DecodeIffScaled(l: Local, t: nat, q: nat)
    requires Sound(l) && LocallyPlaced(l, t) && q < |l.p.idx| && l.p.idx[q] != EMPTY
    ensures 0 <= l.ss[l.p.idx[q]].crtPos
    ensures Decode(l.ss[l.p.idx[q]].crtPos) == q <==> Scaled(l, q)
    ensures !Scaled(l, q) ==> Decode(l.ss[l.p.idx[q]].crtPos) == q / YC_SIZE < q
  {
    assert LivesAt(l.ss, l.p.idx[q], t, q);
  }

  /**
    The finish event of the scavenger in slot q retires that scavenger exactly if it has not been
    moved. After a move, a slot below 20 decodes to the primary, which is then marked finished.
   */
  lemma FinishHitsIffScaled(l: Local, t: nat, q: nat)
    requires Sound(l) && LocallyPlaced(l, t) && q < |l.p.idx| && l.p.idx[q] != EMPTY
    requires 0 <= l.ss[l.p.idx[q]].crtPos && Decode(l.ss[l.p.idx[q]].crtPos) < |l.p.idx|
    ensures
      var i := l.p.idx[q];
      var l' := Scheduler.Finish(l, Decode(l.ss[i].crtPos));
      && (l'.ss[i].finished <==> Scaled(l, q))
      && (l'.p.idx[q] == EMPTY <==> Scaled(l, q))
      && (!Scaled(l, q) && q < YC_SIZE ==>
        l'.p.ycs[0].normal == EMPTY && l'.p.idx == l.p.idx && l'.ss == l.ss)
  {
    var i := l.p.idx[q];
    var d := Decode(l.ss[i].crtPos);
    DecodeIffScaled(l, t, q);
    assert LivesAt(l.ss, i, t, q);
    assert l.p.idx[d] != EMPTY ==> LivesAt(l.ss, l.p.idx[d], t, d);
  }

  /** The event of finishing slot pos retires scavenger j. */
  predicate Retires(l: Local, pos: nat, j: nat)
    requires Sound(l) && pos < |l.p.idx| && j < |l.ss|
  {
    !l.ss[j].finished && Scheduler.Finish(l, pos).ss[j].finished
  }

  /**
    The finish event of the scavenger in slot q retires another one, which has not run to
    completion, exactly if the own one has been moved, q is at least 20, and slot q / 20 is used: the
    victim is the scavenger there.
   */
  lemma RetiresAnotherIff(l: Local, t: nat, q: nat)
    requires Sound(l) && LocallyPlaced(l, t) && q < |l.p.idx| && l.p.idx[q] != EMPTY
    ensures 0 <= l.ss[l.p.idx[q]].crtPos && Decode(l.ss[l.p.idx[q]].crtPos) <= q
    ensures
      var i, pos, victim := l.p.idx[q], Decode(l.ss[l.p.idx[q]].crtPos), l.p.idx[q / YC_SIZE];
      forall j :: 0 <= j < |l.ss| && j != i ==>
        (Retires(l, pos, j) <==> !Scaled(l, q) && q >= YC_SIZE && victim != EMPTY && j == victim)
    ensures
      var i, pos := l.p.idx[q], Decode(l.ss[l.p.idx[q]].crtPos);
      (exists j :: 0 <= j < |l.ss| && j != i && Retires(l, pos, j))
        <==> !Scaled(l, q) && q >= YC_SIZE && l.p.idx[q / YC_SIZE] != EMPTY
  {
    var i, victim := l.p.idx[q], l.p.idx[q / YC_SIZE];
    DecodeIffScaled(l, t, q);
    var pos := Decode(l.ss[i].crtPos);
    assert LivesAt(l.ss, i, t, q);
    assert victim != EMPTY ==> LivesAt(l.ss, victim, t, q / YC_SIZE);
    assert pos == if Scaled(l, q) then q else q / YC_SIZE;
    assert Scheduler.Finish(l, pos).ss
      == if l.p.idx[pos] == EMPTY then l.ss
         else l.ss[l.p.idx[pos] := l.ss[l.p.idx[pos]].(yc := None, finished := true)];
    if !Scaled(l, q) && q >= YC_SIZE && victim != EMPTY {
      assert victim != i && Retires(l, pos, victim);
    }
  }

  /** A swap or a steal leaves a scavenger with a position that no longer decodes to its slot. */
  lemma MovesLosePosition(ss: seq<Scav>, i: nat, at: Loc)
    requires i < |ss| && 1 <= at.pos
    ensures Decode(MoveScav(ss, i, at)[i].crtPos) != at.pos
  {
    assert at.pos / YC_SIZE < at.pos;
  }

  // ----- Allocation appends ----------------------------------------------------------------------

  /** The requester and every thread that can be robbed are hole-free and live. */
  predicate DonorsReady(w: World, t: nat, slots: nat) {
    && WorldShape(w, slots) && t < |w.prims| && !w.prims[t].reallocatable
    && forall d :: 0 <= d < |w.prims| && (d == t || w.prims[d].reallocatable) ==> Steady(w.prims[d])
  }

  /** p' hosts what p hosts, in the same slots with the same contexts, and n more behind. */
  predicate Appended(p: Prim, p': Prim, n: nat)
    requires WellShaped(p)
  {
    && Shape(p', |p.idx|) && Steady(p')
    && Count(p'.idx) == Count(p.idx) + n
    && Hosted(p, 1) <= Hosted(p', 1)
    && (p.ycs[0].normal != EMPTY ==> p'.ycs[0].normal != EMPTY)
    && p'.idx[0] == p.idx[0] && p'.scavNum == p.scavNum && p'.reallocatable == p.reallocatable
  }

  lemma AppendedMore(p: Prim, p': Prim, p'': Prim, n: nat, m: nat)
    requires WellShaped(p) && Appended(p, p', n) && Appended(p', p'', m)
    ensures Appended(p, p'', n + m)
  {
  }

  lemma AppendedNone(p: Prim)
    requires WellShaped(p) && Steady(p)
    ensures Appended(p, p, 0)
  {
  }

  lemma {:induction false} ReallocKeepsPrimary(x: Pair, toTid: nat, demands: nat, got: nat)
    requires SoundPair(x) && got <= demands && Prefix(x.to.idx) && Prefix(x.from.idx)
    ensures
      var y := Realloc(x, toTid, demands, got).0;
      && y.to.idx[0] == x.to.idx[0]
      && (x.to.ycs[0].normal != EMPTY ==> y.to.ycs[0].normal != EMPTY)
    decreases demands - got
  {
    if got < demands && StealOne(x, toTid).1.Moved? {
      PushKeepsPrefix(x.to.idx, PopBack(x.from.idx).1);
      PopKeepsPrefix(x.from.idx);
      ReallocKeepsPrimary(StealOne(x, toTid).0, toTid, demands, got + 1);
    }
  }

  lemma DonorAppends(w: World, t: nat, d: nat, demands: nat, slots: nat)
    requires DonorsReady(w, t, slots) && d < |w.prims| && w.prims[d].reallocatable
    ensures
      var (y, cnt) := Realloc(Pair(w.prims[d], w.prims[t], w.ss), t, demands, 0);
      var w' := World(w.prims[d := y.from][t := y.to], y.ss);
      Appended(w.prims[t], y.to, cnt) && DonorsReady(w', t, slots)
  {
    hide Realloc, Prefix, LiveSlots, Count, Hosted, IdxInRange;
    var x := Pair(w.prims[d], w.prims[t], w.ss);
    ReallocExact(x, t, demands, 0);
    StealKeepsFlags(x, t, demands, 0);
    ReallocKeepsPrimary(x, t, demands, 0);
  }

  lemma {:induction false} DonorsAppend(w: World, t: nat, d: nat, got: nat, demands: nat, slots: nat)
    requires DonorsReady(w, t, slots) && got < demands
    ensures
      var (w', got') := DonorsFrom(w, t, d, got, demands, slots);
      got' >= got && Appended(w.prims[t], w'.prims[t], got' - got) && DonorsReady(w', t, slots)
    decreases |w.prims| - d
  {
    hide Appended, Realloc, Steady, IdxInRange;
    AppendedNone(w.prims[t]);
    if d < |w.prims| {
      if !w.prims[d].reallocatable {
        DonorsAppend(w, t, d + 1, got, demands, slots);
      } else {
        DonorAppends(w, t, d, demands, slots);
        var (y, cnt) := Realloc(Pair(w.prims[d], w.prims[t], w.ss), t, demands, 0);
        var w1 := World(w.prims[d := y.from][t := y.to], y.ss);
        if got + cnt < demands {
          DonorsAppend(w1, t, d + 1, got + cnt, demands, slots);
          var (w2, got2) := DonorsFrom(w1, t, d + 1, got + cnt, demands, slots);
          AppendedMore(w.prims[t], w1.prims[t], w2.prims[t], cnt, got2 - got - cnt);
        }
      }
    }
  }

  lemma PoolOneAppends(l: Local, t: nat, i: nat)
    requires Sound(l) && Steady(l.p) && i < |l.ss|
    ensures
      var (l', o) := PoolOne(l, t, i);
      Appended(l.p, l'.p, if o.Taken? then 1 else 0)
  {
    var (l', o) := PoolOne(l, t, i);
    if o.Taken? {
      PushKeepsPrefix(l.p.idx, i);
      PrefixSlots(l.p.idx);
      var n := Count(l.p.idx);
      assert LiveSlots(l'.p);
      HostedOfPrefix(l.p);
      HostedOfPrefix(l'.p);
      assert forall k :: 0 <= k < n ==> Hosted(l'.p, 1)[k] == Hosted(l.p, 1)[k];
    }
  }

  lemma {:induction false} PoolAppends(l: Local, t: nat, i: nat, got: nat, demands: nat)
    requires Sound(l) && Steady(l.p) && got < demands
    ensures
      var (l', got') := PoolFrom(l, t, i, got, demands);
      got' >= got && Appended(l.p, l'.p, got' - got)
    decreases |l.ss| - i
  {
    hide Steady, Hosted, PoolOne, Count;
    AppendedNone(l.p);
    if i < |l.ss| {
      PoolOneAppends(l, t, i);
      var (l', o) := PoolOne(l, t, i);
      var got1 := got + if o.Taken? then 1 else 0;
      if !o.Full? && got1 < demands {
        PoolAppends(l', t, i + 1, got1, demands);
        var (l2, got2) := PoolFrom(l', t, i + 1, got1, demands);
        AppendedMore(l.p, l'.p, l2.p, got1 - got, got2 - got1);
      }
    }
  }

  lemma AllocateAppends(w: World, t: nat, demands: nat, slots: nat)
    requires DonorsReady(w, t, slots) && 1 <= demands
    ensures
      var (w', got) := AllocateLocked(w, t, demands, slots);
      Appended(w.prims[t], w'.prims[t], got)
  {
    hide Appended, DonorsFrom, PoolFrom;
    DonorsAppend(w, t, 0, 0, demands, slots);
    var (w1, got) := DonorsFrom(w, t, 0, 0, demands, slots);
    if got < demands {
      PoolAppends(LocalOf(w1, t), t, 0, got, demands);
      var (l, got') := PoolFrom(LocalOf(w1, t), t, 0, got, demands);
      AppendedMore(w.prims[t], w1.prims[t], l.p, got, got' - got);
    }
  }

  // ----- The exact yield of an allocation -----------------------------------------------------------

  lemma OneDonorOffers(w: World, t: nat, d: nat, demands: nat, slots: nat)
    requires DonorsReady(w, t, slots) && d < |w.prims| && w.prims[d].reallocatable
    ensures
      var (y, cnt) := Realloc(Pair(w.prims[d], w.prims[t], w.ss), t, demands, 0);
      && cnt == Min(demands, Min(Count(w.prims[d].idx), slots - 1 - Count(w.prims[t].idx)))
      && Count(y.to.idx) == Count(w.prims[t].idx) + cnt && Count(y.to.idx) < slots
      && SameOffer(w.prims, w.prims[d := y.from][t := y.to], d + 1)
  {
    hide Realloc, Prefix, LiveSlots, Hosted, IdxInRange;
    var x := Pair(w.prims[d], w.prims[t], w.ss);
    ReallocExact(x, t, demands, 0);
    StealKeepsFlags(x, t, demands, 0);
    PrefixSlots(Realloc(x, t, demands, 0).0.to.idx);
  }

  /** The donor loop hands out exactly what the flags and counts of the tables say. */
  lemma {:induction false} DonorsExact(w: World, t: nat, d: nat, got: nat, demands: nat, room: nat, slots: nat)
    requires DonorsReady(w, t, slots) && got < demands && got <= room
    requires room - got == slots - 1 - Count(w.prims[t].idx)
    ensures DonorsFrom(w, t, d, got, demands, slots).1 == DonorTotal(w.prims, d, got, demands, room)
    decreases |w.prims| - d
  {
    hide Realloc, Steady, IdxInRange, Count;
    if d < |w.prims| {
      if !w.prims[d].reallocatable {
        DonorsExact(w, t, d + 1, got, demands, room, slots);
      } else {
        DonorAppends(w, t, d, demands, slots);
        OneDonorOffers(w, t, d, demands, slots);
        var (y, cnt) := Realloc(Pair(w.prims[d], w.prims[t], w.ss), t, demands, 0);
        var w1 := World(w.prims[d := y.from][t := y.to], y.ss);
        if got + cnt < demands {
          DonorsExact(w1, t, d + 1, got + cnt, demands, room, slots);
          TotalOfOffer(w.prims, w1.prims, d + 1, got + cnt, demands, room);
        }
      }
    }
  }

  /** Every scavenger that a list names knows that it is hosted. */
  predicate ListKnown(idx: seq<int>, ss: seq<Scav>) {
    forall q :: 0 <= q < |idx| && idx[q] != EMPTY ==> 0 <= idx[q] < |ss| && ss[idx[q]].yc.Some?
  }

  predicate AllKnown(w: World) {
    forall d :: 0 <= d < |w.prims| ==> ListKnown(w.prims[d].idx, w.ss)
  }

  /** The same scavengers are in the pool, and whoever was hosted still is. */
  predicate SamePool(ss: seq<Scav>, ss': seq<Scav>) {
    && |ss'| == |ss|
    && forall i :: 0 <= i < |ss| ==> InPool(ss'[i]) == InPool(ss[i]) && (ss[i].yc.Some? ==> ss'[i].yc.Some?)
  }

  lemma RoundKeepsPool(x: Pair, toTid: nat)
    requires SoundPair(x) && ListKnown(x.from.idx, x.ss) && ListKnown(x.to.idx, x.ss)
    ensures
      var y := StealOne(x, toTid).0;
      SamePool(x.ss, y.ss) && ListKnown(y.from.idx, y.ss) && ListKnown(y.to.idx, y.ss)
  {
  }

  lemma {:induction false} StealKeepsPool(x: Pair, toTid: nat, demands: nat, got: nat)
    requires SoundPair(x) && got <= demands && ListKnown(x.from.idx, x.ss) && ListKnown(x.to.idx, x.ss)
    ensures
      var y := Realloc(x, toTid, demands, got).0;
      SamePool(x.ss, y.ss) && ListKnown(y.from.idx, y.ss) && ListKnown(y.to.idx, y.ss)
    decreases demands - got
  {
    hide StealOne, SoundPair;
    if got < demands {
      RoundKeepsPool(x, toTid);
      if StealOne(x, toTid).1.Moved? {
        StealKeepsPool(StealOne(x, toTid).0, toTid, demands, got + 1);
      }
    }
  }

  lemma {:induction false} DonorsKeepPool(w: World, t: nat, d: nat, got: nat, demands: nat, slots: nat)
    requires DonorsReady(w, t, slots) && got < demands && AllKnown(w)
    ensures SamePool(w.ss, DonorsFrom(w, t, d, got, demands, slots).0.ss)
    decreases |w.prims| - d
  {
    hide Realloc, Steady, IdxInRange;
    if d < |w.prims| {
      if !w.prims[d].reallocatable {
        DonorsKeepPool(w, t, d + 1, got, demands, slots);
      } else {
        DonorAppends(w, t, d, demands, slots);
        StealKeepsPool(Pair(w.prims[d], w.prims[t], w.ss), t, demands, 0);
        var (y, cnt) := Realloc(Pair(w.prims[d], w.prims[t], w.ss), t, demands, 0);
        var w1 := World(w.prims[d := y.from][t := y.to], y.ss);
        assert AllKnown(w1);
        if got + cnt < demands {
          DonorsKeepPool(w1, t, d + 1, got + cnt, demands, slots);
        }
      }
    }
  }

  /** What donors and pool together hand out, read off the tables. */
  function Yield(w: World, t: nat, demands: nat, slots: nat): int
    requires t < |w.prims| && Count(w.prims[t].idx) < slots
  {
    var room := slots - 1 - Count(w.prims[t].idx);
    var given := DonorTotal(w.prims, 0, 0, demands, room);
    if given >= demands then given else given + Min(demands - given, Min(PoolSize(w.ss, 0), room - given))
  }

  /** One allocation hands out exactly what flags, counts and pool size say beforehand. */
  lemma AllocationExact(w: World, t: nat, demands: nat, slots: nat)
    requires DonorsReady(w, t, slots) && AllKnown(w) && 1 <= demands
    ensures Count(w.prims[t].idx) < slots && AllocateLocked(w, t, demands, slots).1 == Yield(w, t, demands, slots)
  {
    hide DonorsFrom, PoolFrom, Count, PoolSize, IdxInRange, Prefix, LiveSlots, DonorTotal, Hosted;
    PrefixSlots(w.prims[t].idx);
    var room := slots - 1 - Count(w.prims[t].idx);
    DonorsExact(w, t, 0, 0, demands, room, slots);
    DonorsAppend(w, t, 0, 0, demands, slots);
    DonorsKeepPool(w, t, 0, 0, demands, slots);
    var (w1, got) := DonorsFrom(w, t, 0, 0, demands, slots);
    PoolSizeAgrees(w.ss, w1.ss, 0);
    if got < demands {
      PoolTakesExactly(LocalOf(w1, t), t, 0, got, demands);
    }
  }

  /**
    An allocation hands out more than demanded exactly if the requester has room for that and some
    thread in a call tips the scales: the threads in a call before it have something but less than
    is demanded, and together with its own scavengers it is more.
   */
  lemma OverallocatesIff(w: World, t: nat, demands: nat, slots: nat)
    requires DonorsReady(w, t, slots) && AllKnown(w) && 1 <= demands
    ensures AllocateLocked(w, t, demands, slots).1 > demands <==>
      && demands < slots - 1 - Count(w.prims[t].idx)
      && exists d :: 0 <= d < |w.prims| && Overfills(w.prims, d, demands)
  {
    AllocationExact(w, t, demands, slots);
    hide AllocateLocked, Count, PoolSize, Overfills;
    var room := slots - 1 - Count(w.prims[t].idx);
    PrefixSlots(w.prims[t].idx);
    if demands < room {
      assert Supply(w.prims, 0) == 0;
      TotalExceedsIff(w.prims, 0, demands, room);
    }
  }

  /** Init calls leave the lists, the yield contexts and the scan results alone. */
  lemma {:induction false} InitKeepsContexts(l: Local, pos: nat, env: InitEnv)
    requires Sound(l)
    ensures
      var l' := InitFrom(l, pos, env);
      && l'.p.idx == l.p.idx && l'.p.ycs == l.p.ycs && l'.p.scavNum == l.p.scavNum
      && l'.p.reallocatable == l.p.reallocatable && l'.p.reallocated == l.p.reallocated
      && InitGrows(l.ss, l'.ss)
      && forall i :: 0 <= i < |l.ss| ==>
        l'.ss[i] == l.ss[i].(inited := l'.ss[i].inited, initCalls := l'.ss[i].initCalls)
    decreases |l.p.idx| - pos
  {
    if pos < |l.p.idx| {
      InitKeepsContexts(InitOne(l, pos, env(l.p.idx[pos])), pos + 1, env);
    }
  }

  /** set_special_next has just been called on this context. */
  ghost predicate Relinked(p: Prim) {
    exists p1 :: WellShaped(p1) && p == SetSpecialNext(p1)
  }

  /**
    allocate_scav keeps a live, hole-free thread live and hole-free, hosts `got` more behind the
    ones it had, and closes the ring exactly if the last slot stays free.
   */
  lemma AllocateScavKeepsSteady(w: World, t: nat, max: int, env: InitEnv, slots: nat)
    requires DonorsReady(w, t, slots)
    ensures
      var (w', got) := AllocateScav(w, t, max, env, slots);
      var p, p' := w.prims[t], w'.prims[t];
      && Shape(p', slots) && Steady(p') && Count(p'.idx) == Count(p.idx) + got
      && p'.idx[0] == p.idx[0] && p'.scavNum == p.scavNum && p'.reallocatable == p.reallocatable
      && (p.ycs[0].normal != EMPTY ==> p'.ycs[0].normal != EMPTY)
      && (forall q :: 1 <= q <= Count(p.idx) && q < slots ==> p'.idx[q] == p.idx[q])
      && (Count(p.idx) < max || Relinked(p) ==> Relinked(p'))
      && (Count(p.idx) >= max ==> w' == w)
  {
    var p := w.prims[t];
    var need := NeedMore(p, max);
    PrefixSlots(p.idx);
    if need > 0 {
      AllocateAppends(w, t, need, slots);
      var (w1, got) := AllocateLocked(w, t, need, slots);
      hide AllocateLocked;
      InitKeepsContexts(LocalOf(w1, t), 1, env);
      var l := InitFrom(LocalOf(w1, t), 1, env);
      hide InitFrom;
      AppendedFront(p, w1.prims[t], got);
      SpecialKeepsShape(l.p);
      RelinkedSteady(l.p);
      assert WellShaped(l.p);
    }
  }

  lemma AppendedFront(p: Prim, p': Prim, n: nat)
    requires WellShaped(p) && Steady(p) && Appended(p, p', n)
    ensures Count(p.idx) < |p.idx|
    ensures forall q :: 1 <= q <= Count(p.idx) ==> p'.idx[q] == p.idx[q] && SavedAt(p', q) == SavedAt(p, q)
  {
    HostedOfPrefix(p);
    HostedOfPrefix(p');
    forall q | 1 <= q <= Count(p.idx) ensures p'.idx[q] == p.idx[q] && SavedAt(p', q) == SavedAt(p, q) {
      assert Hosted(p', 1)[q - 1] == Hosted(p, 1)[q - 1];
    }
  }

  // ----- A coroutine finishes --------------------------------------------------------------------

  /** (short) (normal / sizeof(struct yield_ctx)): the division is on unsigned 64-bit words. */
  function NextOf(normal: int): int {
    if normal >= 0 then normal / YC_SIZE else -13108
  }

  /** What the expression computes in machine words: 64-bit division, then truncation to 16 bits. */
  lemma NextOfInWords(normal: int)
    requires normal == EMPTY || (0 <= normal < 20 * 0x8000)
    ensures
      var word := if normal < 0 then normal + 0x1_0000_0000_0000_0000 else normal;
      var low := word / 20 % 0x1_0000;
      NextOf(normal) == if low < 0x8000 then low else low - 0x1_0000
    ensures forall q :: 0 <= q < 0x8000 && normal == 20 * q ==> NextOf(normal) == q
  {
  }

  /**
    tl_sched_next_crt(ret) of thread t: the tables afterwards and the slot that is resumed. In
    cleanup, slot 0 stands for the jump back to msh_cleanup.
   */
  function SchedNext(w: World, t: nat, ret: nat, max: int, env: InitEnv, slots: nat): (r: (World, int))
    requires WorldShape(w, slots) && t < |w.prims| && !w.prims[t].reallocatable && Decode(ret) < slots
    ensures WorldShape(r.0, slots) && |r.0.prims| == |w.prims| && |r.0.ss| == |w.ss|
  {
    var next := NextOf(w.prims[t].ycs[Decode(ret)].normal);
    var l1 := Scheduler.Finish(LocalOf(w, t), Decode(ret));
    var l2 := Pack(l1.(p := UpdateNextMap(l1.p)), t);
    if l2.p.ycs[0].normal == EMPTY then
      (WithLocal(w, t, l2), FirstUsed(l2.p.idx, 1))
    else
      PackKeepsFlag(l1.(p := UpdateNextMap(l1.p)), t);
      var w3 := AllocateScav(WithLocal(w, t, l2), t, max, env, slots).0;
      (w3.(prims := w3.prims[t := UpdateNextMap(w3.prims[t])]), next)
  }

  lemma {:induction false} PackFromKeepsFlag(l: Local, t: nat, pos: nat)
    requires Sound(l) && 1 <= pos
    ensures PackFrom(l, t, pos).p.reallocatable == l.p.reallocatable
    ensures PackFrom(l, t, pos).p.scavNum == l.p.scavNum
    decreases |l.p.idx| - pos
  {
    if pos < |l.p.idx| {
      PackFromKeepsFlag(PackOne(l, t, pos), t, pos + 1);
    }
  }

  lemma PackKeepsFlag(l: Local, t: nat)
    requires Sound(l)
    ensures Pack(l, t).p.reallocatable == l.p.reallocatable
    ensures Pack(l, t).p.scavNum == l.p.scavNum
  {
    PackFromKeepsFlag(l, t, 1);
  }

  /** The tables after retirement and compaction: what allocate_scav then starts from. */
  function AfterPack(w: World, t: nat, pos: nat, slots: nat): (r: Local)
    requires WorldShape(w, slots) && t < |w.prims| && pos < slots
    ensures Sound(r) && |r.p.idx| == slots && |r.ss| == |w.ss|
  {
    var l1 := Scheduler.Finish(LocalOf(w, t), pos);
    Pack(l1.(p := UpdateNextMap(l1.p)), t)
  }

  /** Finishing slot pos of a live thread and compacting keeps the others, in order. */
  lemma FinishAndPack(w: World, t: nat, pos: nat, slots: nat)
    requires WorldShape(w, slots) && t < |w.prims| && Steady(w.prims[t]) && w.prims[t].ycs[0].normal != EMPTY
    requires 1 <= pos < slots && w.prims[t].idx[pos] != EMPTY
    ensures
      var p, l := w.prims[t], AfterPack(w, t, pos, slots);
      && Steady(l.p) && l.p.ycs[0].normal != EMPTY && l.p.idx[0] == p.idx[0]
      && l.p.reallocatable == p.reallocatable && l.p.scavNum == p.scavNum
      && pos <= |Hosted(p, 1)| && Hosted(l.p, 1) == Hosted(p, 1)[..pos - 1] + Hosted(p, 1)[pos..]
      && Relinked(l.p)
  {
    var p := w.prims[t];
    var l1 := Scheduler.Finish(LocalOf(w, t), pos);
    var l2 := l1.(p := UpdateNextMap(l1.p));
    assert LiveSlots(l1.p) by {
      assert forall q :: 0 <= q < slots && q != pos ==> l1.p.ycs[q] == p.ycs[q] && l1.p.idx[q] == p.idx[q];
    }
    UpdatedLink(l1.p);
    FinishDropsEntry(p, l2.p, pos);
    PackCompacts(l2, t);
    PackKeepsLiveSlots(l2, t, 1);
    PackKeepsFlag(l2, t);
    assert WellShaped(PackFrom(l2, t, 1).p);
  }

  /** Clearing slot pos of a hole-free list drops exactly its entry from the hosted sequence. */
  lemma FinishDropsEntry(p: Prim, p': Prim, pos: nat)
    requires WellShaped(p) && Prefix(p.idx) && Shape(p', |p.idx|)
    requires 1 <= pos < |p.idx| && p.idx[pos] != EMPTY && p'.idx == p.idx[pos := EMPTY]
    requires p'.regs == p.regs
    requires forall q :: 1 <= q < |p.idx| && q != pos ==> p'.ycs[q] == p.ycs[q]
    ensures pos <= |Hosted(p, 1)| && Hosted(p', 1) == Hosted(p, 1)[..pos - 1] + Hosted(p, 1)[pos..]
  {
    PrefixSlots(p.idx);
    HostedOfPrefix(p);
    HostedDrop(p, p', pos, 1);
  }

  lemma {:induction false} HostedDrop(p: Prim, p': Prim, pos: nat, from: nat)
    requires WellShaped(p) && Shape(p', |p.idx|) && 1 <= from <= pos < |p.idx|
    requires forall q :: 1 <= q <= pos ==> p.idx[q] != EMPTY
    requires p'.idx == p.idx[pos := EMPTY] && p'.regs == p.regs
    requires forall q :: 1 <= q < |p.idx| && q != pos ==> p'.ycs[q] == p.ycs[q]
    ensures pos - from < |Hosted(p, from)|
    ensures Hosted(p', from) == Hosted(p, from)[..pos - from] + Hosted(p, from)[pos - from + 1..]
    decreases pos - from
  {
    hide Hosted;
    if from == pos {
      HostedSkipsHoles(p', pos, pos + 1);
      HostedHead(p, pos);
      HostedAgrees(p, p', pos + 1);
      assert Hosted(p, pos)[1..] == Hosted(p, pos + 1);
    } else {
      HostedHead(p, from);
      HostedHead(p', from);
      HostedDrop(p, p', pos, from + 1);
      var e := Entry(p.idx[from], SavedAt(p, from), p.ycs[from].normal != EMPTY);
      DropBehind(e, Hosted(p, from + 1), pos - from - 1);
    }
  }

  lemma DropBehind(e: Entry, h: seq<Entry>, k: nat)
    requires k < |h|
    ensures [e] + (h[..k] + h[k + 1..]) == ([e] + h)[..k + 1] + ([e] + h)[k + 2..]
  {
  }

  /** The entries behind pos have moved up by one slot; the entries before it have stayed. */
  predicate MovedUp(idx: seq<int>, idx': seq<int>, pos: nat) {
    && Count(idx) < |idx| == |idx'|
    && forall q :: 1 <= q < Count(idx) ==> idx'[q] == idx[if q < pos then q else q + 1]
  }

  /**
    A scavenger of a live thread finishes, its position decoding to its slot. The primary is
    resumed; its link names the least used slot, whatever the swaps wrote into it; the surviving
    scavengers keep their order; and the walk over the links is a ring exactly if the last slot is
    free, even if a theft had left the special links stale before.
   */
  lemma FinishEvent(w: World, t: nat, pos: nat, max: int, env: InitEnv, slots: nat)
    requires DonorsReady(w, t, slots) && w.prims[t].ycs[0].normal != EMPTY && 0 <= w.prims[t].scavNum
    requires 1 <= pos < slots && w.prims[t].idx[pos] != EMPTY
    ensures
      var (w', cur) := SchedNext(w, t, pos * YC_SIZE, max, env, slots);
      var p, p' := w.prims[t], w'.prims[t];
      && cur == 0
      && Steady(p') && p'.ycs[0].normal == YC_SIZE * FirstUsed(p'.idx, 1)
      && (1 <= Count(p'.idx) ==> (Ring(p', Count(p'.idx)) <==> Count(p'.idx) < slots - 1))
      && MovedUp(p.idx, p'.idx, pos)
  {
    hide AllocateScav, AfterPack, Hosted, Prefix, LiveSlots, Ring, LinksSet, UpdateNextMap, SchedNext, Count;
    var l := AfterPack(w, t, pos, slots);
    FinishAndPack(w, t, pos, slots);
    SurvivorsMoveUp(w, t, pos, slots);
    DonorsStayReady(w, t, l, slots);
    RefillAndLink(WithLocal(w, t, l), t, max, env, slots);
    SchedIsAfterPack(w, t, pos, max, env, slots);
    LiveNormal(w.prims[t], pos);
  }

  /** allocate_scav and then tl_update_next_map, on a thread whose links have just been set. */
  lemma RefillAndLink(w: World, t: nat, max: int, env: InitEnv, slots: nat)
    requires DonorsReady(w, t, slots) && w.prims[t].ycs[0].normal != EMPTY && 0 <= w.prims[t].scavNum
    requires Relinked(w.prims[t]) || Count(w.prims[t].idx) < max
    ensures
      var w' := AllocateScav(w, t, max, env, slots).0;
      var p, p' := w.prims[t], UpdateNextMap(w'.prims[t]);
      && Shape(p', slots) && Steady(p') && p'.ycs[0].normal == YC_SIZE * FirstUsed(p'.idx, 1)
      && Count(p'.idx) >= Count(p.idx)
      && (1 <= Count(p'.idx) ==> (Ring(p', Count(p'.idx)) <==> Count(p'.idx) < slots - 1))
      && (forall q :: 1 <= q <= Count(p.idx) && q < slots ==> p'.idx[q] == p.idx[q])
  {
    hide AllocateScav, Prefix, LiveSlots, Ring, UpdateNextMap, IdxInRange, Relinked, FirstUsed;
    AllocateScavKeepsSteady(w, t, max, env, slots);
    var p' := AllocateScav(w, t, max, env, slots).0.prims[t];
    UpdatedLink(p');
    UpdateKeepsShape(p');
    if 1 <= Count(p'.idx) {
      RelinkedRing(p');
    }
  }

  lemma LiveNormal(p: Prim, q: nat)
    requires WellShaped(p) && LiveSlots(p) && 1 <= q < |p.idx| && p.idx[q] != EMPTY
    ensures p.ycs[q].normal == 0
  {
  }

  lemma DonorsStayReady(w: World, t: nat, l: Local, slots: nat)
    requires DonorsReady(w, t, slots) && Sound(l) && |l.p.idx| == slots && |l.ss| == |w.ss|
    requires Steady(l.p) && !l.p.reallocatable
    ensures DonorsReady(WithLocal(w, t, l), t, slots)
  {
    hide Steady;
  }

  /** The scavengers behind the finished one move up by one slot; the others stay. */
  lemma SurvivorsMoveUp(w: World, t: nat, pos: nat, slots: nat)
    requires WorldShape(w, slots) && t < |w.prims| && Steady(w.prims[t]) && w.prims[t].ycs[0].normal != EMPTY
    requires 1 <= pos < slots && w.prims[t].idx[pos] != EMPTY
    ensures
      var p, p' := w.prims[t], AfterPack(w, t, pos, slots).p;
      && 1 <= Count(p.idx) < slots && Count(p'.idx) == Count(p.idx) - 1
      && forall q :: 1 <= q < Count(p.idx) ==>
        && p'.idx[q] == p.idx[if q < pos then q else q + 1]
        && SavedAt(p', q) == SavedAt(p, if q < pos then q else q + 1)
  {
    hide AfterPack, Hosted, LiveSlots, Count, Relinked;
    var p, p' := w.prims[t], AfterPack(w, t, pos, slots).p;
    FinishAndPack(w, t, pos, slots);
    HostedMoveUp(p, p', pos);
  }

  lemma HostedMoveUp(p: Prim, p': Prim, pos: nat)
    requires WellShaped(p) && WellShaped(p') && Prefix(p.idx) && Prefix(p'.idx) && |p'.idx| == |p.idx|
    requires 1 <= pos < |p.idx| && p.idx[pos] != EMPTY && pos <= |Hosted(p, 1)|
    requires Hosted(p', 1) == Hosted(p, 1)[..pos - 1] + Hosted(p, 1)[pos..]
    ensures 1 <= Count(p.idx) < |p.idx| && Count(p'.idx) == Count(p.idx) - 1
    ensures forall q :: 1 <= q < Count(p.idx) ==>
      && p'.idx[q] == p.idx[if q < pos then q else q + 1]
      && SavedAt(p', q) == SavedAt(p, if q < pos then q else q + 1)
  {
    hide Hosted, Prefix, Count;
    PrefixSlots(p.idx);
    HostedOfPrefix(p);
    HostedOfPrefix(p');
    forall q | 1 <= q < Count(p.idx)
      ensures p'.idx[q] == p.idx[if q < pos then q else q + 1]
      ensures SavedAt(p', q) == SavedAt(p, if q < pos then q else q + 1)
    {
      assert Hosted(p', 1)[q - 1] == Hosted(p, 1)[if q < pos then q - 1 else q];
    }
  }

  lemma SchedIsAfterPack(w: World, t: nat, pos: nat, max: int, env: InitEnv, slots: nat)
    requires WorldShape(w, slots) && t < |w.prims| && !w.prims[t].reallocatable && pos < slots
    ensures
      var l := AfterPack(w, t, pos, slots);
      !l.p.reallocatable && (l.p.ycs[0].normal != EMPTY ==>
        var w3 := AllocateScav(WithLocal(w, t, l), t, max, env, slots).0;
        SchedNext(w, t, pos * YC_SIZE, max, env, slots)
          == (w3.(prims := w3.prims[t := UpdateNextMap(w3.prims[t])]), NextOf(w.prims[t].ycs[pos].normal)))
  {
    var l1 := Scheduler.Finish(LocalOf(w, t), pos);
    PackKeepsFlag(l1.(p := UpdateNextMap(l1.p)), t);
    assert Decode(pos * YC_SIZE) == pos;
  }

  /** The ring of a context whose special links have just been set, whatever its primary link was. */
  lemma RelinkedRing(p: Prim)
    requires WellShaped(p) && Relinked(p) && Steady(p) && 0 <= p.scavNum
    requires p.ycs[0].normal != EMPTY && 1 <= Count(p.idx)
    ensures WellShaped(UpdateNextMap(p))
    ensures Ring(UpdateNextMap(p), Count(p.idx)) <==> Count(p.idx) < |p.idx| - 1
  {
    PrefixSlots(p.idx);
    UpdatedLink(p);
    RingIffLastLink(UpdateNextMap(p), Count(p.idx));
  }

  // ----- Leaving a blockable call ------------------------------------------------------------------

  /** msh_exit_blockable_call once its CAS has succeeded. */
  function ExitCall(w: World, t: nat, max: int, env: InitEnv, slots: nat): World
    requires WorldShape(w, slots) && t < |w.prims| && !w.prims[t].reallocatable
  {
    if !w.prims[t].reallocated then w
    else
      var w1 := AllocateScav(w, t, max, env, slots).0;
      w1.(prims := w1.prims[t := UpdateNextMap(w1.prims[t]).(reallocated := false)])
  }

  lemma FlagsDoNotWalk(p: Prim, p': Prim, k: nat)
    requires WellShaped(p) && WellShaped(p') && p'.ycs == p.ycs
    ensures Walk(p', k) == Walk(p, k)
  {
  }

  lemma FlagsDoNotRing(p: Prim, n: nat)
    requires WellShaped(p)
    ensures Ring(p.(reallocated := false), n) == Ring(p, n)
  {
    forall k: nat ensures Walk(p.(reallocated := false), k) == Walk(p, k) {
      FlagsDoNotWalk(p, p.(reallocated := false), k);
    }
  }

  /** The survivors of a theft still link to a slot that is gone. */
  lemma StaleLinks(snap: Prim, linked: bool, p: Prim)
    requires WellShaped(snap) && WellShaped(p) && Steady(p) && p.ycs[0].normal != EMPTY
    requires Handshake(snap, p) && p.reallocated && Linked(snap, linked) && 1 <= Count(p.idx)
    ensures WellShaped(UpdateNextMap(p)) && !Ring(UpdateNextMap(p), Count(p.idx))
  {
    var n := Count(p.idx);
    PrefixSlots(p.idx);
    UpdatedLink(p);
    UpdateKeepsShape(p);
    var p' := UpdateNextMap(p);
    assert forall q :: 1 <= q <= n ==> p'.ycs[q].special == snap.ycs[q].special == YC_SIZE * (q + 1);
    RingIffLastLink(p', n);
  }

  /** The exact condition for a ring, in a live thread between events. */
  lemma LinkedRing(p: Prim, linked: bool)
    requires WellShaped(p) && Linked(p, linked) && 1 <= Count(p.idx)
    ensures Ring(p, Count(p.idx)) <==> linked && Count(p.idx) < |p.idx| - 1
  {
    PrefixSlots(p.idx);
    RingIffLastLink(p, Count(p.idx));
  }

  /**
    Leaving a call: the primary's link names the least used slot always. After a theft the ring is
    there exactly if the thread was left with fewer scavengers than the cap (so that it allocates
    again) and the last slot is free; at or above the cap, the special links of the survivors stay
    stale. Without a theft there is a ring exactly if there was one on entry.
   */
  lemma ExitRestoresRingIff(w: World, t: nat, snap: Prim, linked: bool, max: int, env: InitEnv, slots: nat)
    requires DonorsReady(w, t, slots) && w.prims[t].ycs[0].normal != EMPTY && 0 <= w.prims[t].scavNum
    requires WellShaped(snap) && Linked(snap, linked) && Handshake(snap, w.prims[t])
    ensures
      var p, p' := w.prims[t], ExitCall(w, t, max, env, slots).prims[t];
      && Shape(p', slots) && !p'.reallocated
      && p'.ycs[0].normal == YC_SIZE * FirstUsed(p'.idx, 1)
      && (1 <= Count(p'.idx) ==>
        (Ring(p', Count(p'.idx)) <==>
          Count(p'.idx) < slots - 1 && if p.reallocated then Count(p.idx) < max else linked))
  {
    var p := w.prims[t];
    if p.reallocated {
      ExitAfterTheft(w, t, snap, linked, max, env, slots);
    } else {
      assert p == snap.(reallocatable := p.reallocatable);
      assert Linked(p, linked) by {
        hide Count, Prefix;
      }
      if 1 <= Count(p.idx) {
        LinkedRing(p, linked);
      }
    }
  }

  lemma ExitAfterTheft(w: World, t: nat, snap: Prim, linked: bool, max: int, env: InitEnv, slots: nat)
    requires DonorsReady(w, t, slots) && w.prims[t].ycs[0].normal != EMPTY && 0 <= w.prims[t].scavNum
    requires WellShaped(snap) && Linked(snap, linked) && Handshake(snap, w.prims[t]) && w.prims[t].reallocated
    ensures
      var p, p' := w.prims[t], ExitCall(w, t, max, env, slots).prims[t];
      && Shape(p', slots) && !p'.reallocated
      && p'.ycs[0].normal == YC_SIZE * FirstUsed(p'.idx, 1)
      && (1 <= Count(p'.idx) ==>
        (Ring(p', Count(p'.idx)) <==> Count(p.idx) < max && Count(p'.idx) < slots - 1))
  {
    hide AllocateScav, Prefix, LiveSlots, Ring, LinksSet, UpdateNextMap, Count, LostSuffix, Linked;
    var p := w.prims[t];
    var p2 := UpdateNextMap(AllocateScav(w, t, max, env, slots).0.prims[t]);
    AllocateScavKeepsSteady(w, t, max, env, slots);
    if Count(p.idx) < max {
      RefillAndLink(w, t, max, env, slots);
    } else {
      UpdatedLink(p);
      UpdateKeepsShape(p);
      if 1 <= Count(p.idx) {
        StaleLinks(snap, linked, p);
      }
    }
    FlagsDoNotRing(p2, Count(p2.idx));
  }

  // ----- Cleanup -----------------------------------------------------------------------------------

  /** A thread in cleanup: its primary is finished, and a slot is runnable exactly if it is used. */
  predicate Dead(p: Prim)
    requires WellShaped(p)
  {
    p.ycs[0].normal == EMPTY && SlotsAgreeBut(p, 0)
  }

  /** The position that the scavenger in the least used slot returns when it finishes. */
  function FinishingPos(l: Local, t: nat): (pos: nat)
    requires Sound(l) && LocallyPlaced(l, t) && FirstUsed(l.p.idx, 1) != 0
    ensures pos <= FirstUsed(l.p.idx, 1)
    ensures pos == FirstUsed(l.p.idx, 1) <==> Scaled(l, FirstUsed(l.p.idx, 1))
    ensures pos == FirstUsed(l.p.idx, 1) || l.p.idx[pos] == EMPTY
  {
    var cur := FirstUsed(l.p.idx, 1);
    DecodeIffScaled(l, t, cur);
    Decode(l.ss[l.p.idx[cur]].crtPos)
  }

  /** One scheduling event of cleanup: the scavenger in the least used slot runs to completion. */
  function DrainOnce(l: Local, t: nat): (r: Local)
    requires Sound(l) && LocallyPlaced(l, t)
    ensures Sound(r) && LocallyPlaced(r, t) && |r.p.idx| == |l.p.idx| && |r.ss| == |l.ss|
  {
    if FirstUsed(l.p.idx, 1) == 0 then l
    else
      var pos := FinishingPos(l, t);
      FinishKeepsPlaced(l, t, pos);
      Scheduler.Finish(l, pos)
  }

  lemma FinishKeepsPlaced(l: Local, t: nat, pos: nat)
    requires Sound(l) && LocallyPlaced(l, t) && pos < |l.p.idx|
    ensures LocallyPlaced(Scheduler.Finish(l, pos), t)
  {
    var l' := Scheduler.Finish(l, pos);
    forall q | 0 <= q < |l.p.idx| && l'.p.idx[q] != EMPTY ensures LivesAt(l'.ss, l'.p.idx[q], t, q) {
      assert LivesAt(l.ss, l.p.idx[q], t, q);
      assert l.p.idx[pos] != EMPTY ==> LivesAt(l.ss, l.p.idx[pos], t, pos);
    }
  }

  /** In cleanup a scheduling event is just the finish, and the next least used slot is resumed. */
  lemma CleanupEventIsDrain(w: World, t: nat, max: int, env: InitEnv, slots: nat)
    requires WorldShape(w, slots) && t < |w.prims| && !w.prims[t].reallocatable
    requires Dead(w.prims[t]) && LocallyPlaced(LocalOf(w, t), t) && FirstUsed(w.prims[t].idx, 1) != 0
    ensures
      var ret := w.ss[w.prims[t].idx[FirstUsed(w.prims[t].idx, 1)]].crtPos;
      var l := DrainOnce(LocalOf(w, t), t);
      && 0 <= ret && Decode(ret) < slots
      && SchedNext(w, t, ret, max, env, slots) == (WithLocal(w, t, l), FirstUsed(l.p.idx, 1))
      && Dead(l.p)
  {
    var l := LocalOf(w, t);
    DecodeIffScaled(l, t, FirstUsed(l.p.idx, 1));
    var pos := FinishingPos(l, t);
    var l' := Scheduler.Finish(l, pos);
    assert forall q :: 0 <= q < slots && q != pos ==> l'.p.ycs[q] == l.p.ycs[q] && l'.p.idx[q] == l.p.idx[q];
  }

  /** k scheduling events of cleanup. */
  function Drain(l: Local, t: nat, k: nat): (r: Local)
    requires Sound(l) && LocallyPlaced(l, t)
    ensures Sound(r) && LocallyPlaced(r, t) && |r.p.idx| == |l.p.idx| && |r.ss| == |l.ss|
    decreases k
  {
    if k == 0 then l else Drain(DrainOnce(l, t), t, k - 1)
  }

  lemma DrainStarts(l: Local, t: nat)
    requires Sound(l) && LocallyPlaced(l, t)
    ensures Drain(l, t, 0) == l
  {
  }

  lemma {:induction false} DrainSnoc(l: Local, t: nat, k: nat)
    requires Sound(l) && LocallyPlaced(l, t)
    ensures Drain(l, t, k + 1) == DrainOnce(Drain(l, t, k), t)
    decreases k
  {
    hide DrainOnce;
    if k > 0 {
      DrainSnoc(DrainOnce(l, t), t, k - 1);
    }
  }

  /** The same lists and the same scavenger table; links may differ. */
  predicate SameTables(a: Local, b: Local) {
    a.p.idx == b.p.idx && a.ss == b.ss
  }

  /** Cleanup does not depend on the links. */
  lemma {:induction false} DrainOfTables(a: Local, b: Local, t: nat, k: nat)
    requires Sound(a) && LocallyPlaced(a, t) && Sound(b) && LocallyPlaced(b, t) && SameTables(a, b)
    ensures SameTables(Drain(a, t, k), Drain(b, t, k))
    decreases k
  {
    if k > 0 {
      assert SameTables(DrainOnce(a, t), DrainOnce(b, t));
      DrainOfTables(DrainOnce(a, t), DrainOnce(b, t), t, k - 1);
    }
  }

  predicate AllScaled(l: Local)
    requires Sound(l)
  {
    forall q :: 0 <= q < |l.p.idx| && l.p.idx[q] != EMPTY ==> Scaled(l, q)
  }

  /** With positions in bytes, an event retires exactly the scavenger that ran. */
  lemma DrainOnceRetires(l: Local, t: nat)
    requires Sound(l) && LocallyPlaced(l, t) && AllScaled(l) && FirstUsed(l.p.idx, 1) != 0
    ensures
      var l', cur := DrainOnce(l, t), FirstUsed(l.p.idx, 1);
      && Count(l'.p.idx) == Count(l.p.idx) - 1 && AllScaled(l')
      && l'.p.idx == l.p.idx[cur := EMPTY]
      && l'.ss == l.ss[l.p.idx[cur] := l.ss[l.p.idx[cur]].(yc := None, finished := true)]
  {
    var l', cur := DrainOnce(l, t), FirstUsed(l.p.idx, 1);
    CountUpdate(l.p.idx, cur, EMPTY);
    assert FinishingPos(l, t) == cur;
    forall q | 0 <= q < |l'.p.idx| && l'.p.idx[q] != EMPTY ensures Scaled(l', q) {
      assert LivesAt(l.ss, l.p.idx[q], t, q) && LivesAt(l.ss, l.p.idx[cur], t, cur) && Scaled(l, q);
    }
  }

  /** Cleanup with n scavengers takes n events; afterwards all of them, and no others, are finished. */
  lemma {:induction false} DrainEmpties(l: Local, t: nat)
    requires Sound(l) && LocallyPlaced(l, t) && AllScaled(l)
    ensures
      var l' := Drain(l, t, Count(l.p.idx));
      && (forall q :: 0 <= q < |l.p.idx| ==> l'.p.idx[q] == EMPTY)
      && (forall i :: 0 <= i < |l.ss| ==>
        l'.ss[i] == if i in l.p.idx then l.ss[i].(yc := None, finished := true) else l.ss[i])
    decreases Count(l.p.idx)
  {
    CountToBounds(l.p.idx, |l.p.idx|);
    var cur := FirstUsed(l.p.idx, 1);
    if cur != 0 {
      DrainOnceRetires(l, t);
      var l1 := DrainOnce(l, t);
      DrainEmpties(l1, t);
      var l' := Drain(l1, t, Count(l1.p.idx));
      assert l' == Drain(l, t, Count(l.p.idx));
      hide DrainOnce, Drain, Count, LivesAt, Scaled, FirstUsed;
      forall i | 0 <= i < |l.ss|
        ensures l'.ss[i] == if i in l.p.idx then l.ss[i].(yc := None, finished := true) else l.ss[i]
      {
        DroppedEntry(l, t, cur, i);
      }
    }
  }

  lemma DroppedEntry(l: Local, t: nat, cur: nat, i: nat)
    requires Sound(l) && LocallyPlaced(l, t) && cur < |l.p.idx| && l.p.idx[cur] != EMPTY
    ensures i in l.p.idx[cur := EMPTY] <==> i in l.p.idx && i != l.p.idx[cur]
  {
    var idx := l.p.idx[cur := EMPTY];
    assert LivesAt(l.ss, l.p.idx[cur], t, cur);
    if i in idx {
      var q :| 0 <= q < |idx| && idx[q] == i;
      assert l.p.idx[q] == i && LivesAt(l.ss, i, t, q);
    }
    if i in l.p.idx && i != l.p.idx[cur] {
      var q :| 0 <= q < |l.p.idx| && l.p.idx[q] == i;
      assert idx[q] == i;
    }
  }

  /** A scavenger that has been moved is never retired by cleanup. */
  lemma {:induction false} DrainIsStuck(l: Local, t: nat, q: nat, k: nat)
    requires Sound(l) && LocallyPlaced(l, t) && q < |l.p.idx| && l.p.idx[q] != EMPTY && !Scaled(l, q)
    ensures Drain(l, t, k).p.idx[q] == l.p.idx[q]
    decreases k
  {
    if k > 0 && FirstUsed(l.p.idx, 1) != 0 {
      var pos := FinishingPos(l, t);
      var l1 := DrainOnce(l, t);
      assert LivesAt(l.ss, l.p.idx[q], t, q);
      assert l.p.idx[pos] != EMPTY ==> LivesAt(l.ss, l.p.idx[pos], t, pos) && Scaled(l, pos);
      assert pos != q;
      assert l1.p.idx[q] == l.p.idx[q] && !Scaled(l1, q);
      DrainIsStuck(l1, t, q, k - 1);
    } else {
      DrainOfEmpty(l, t, k);
    }
  }

  lemma {:induction false} DrainOfEmpty(l: Local, t: nat, k: nat)
    requires Sound(l) && LocallyPlaced(l, t) && (k == 0 || FirstUsed(l.p.idx, 1) == 0)
    ensures Drain(l, t, k) == l
  {
    if k > 0 {
      DrainOfEmpty(l, t, k - 1);
    }
  }

  /**
    Cleanup terminates exactly if no remaining scavenger has been swapped or stolen since it came
    from the pool. A caller can read the condition off the tables: every crt_pos is in bytes.
   */
  lemma CleanupDrainsIff(l: Local, t: nat)
    requires Sound(l) && LocallyPlaced(l, t)
    ensures (exists k: nat :: Count(Drain(l, t, k).p.idx) == 0) <==> AllScaled(l)
  {
    if AllScaled(l) {
      DrainEmpties(l, t);
      var l' := Drain(l, t, Count(l.p.idx));
      CountToBounds(l'.p.idx, |l'.p.idx|);
    } else {
      var q :| 0 <= q < |l.p.idx| && l.p.idx[q] != EMPTY && !Scaled(l, q);
      assert LivesAt(l.ss, l.p.idx[q], t, q);
      forall k: nat ensures Count(Drain(l, t, k).p.idx) != 0 {
        DrainIsStuck(l, t, q, k);
        var idx := Drain(l, t, k).p.idx;
        CountToBounds(idx, |idx|);
      }
    }
  }
}
