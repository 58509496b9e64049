/**
  The scavenger allocator of libmsh/msh.c: stealing from threads blocked in a pthread call, taking
  from the pool, and calling the scavengers' init functions.
 */
module Allocator {
  import opened Wrappers
  import opened Tables
  import opened SlotList
  import opened Scheduler

  datatype World = World(prims: seq<Prim>, ss: seq<Scav>)

  predicate WorldShape(w: World, slots: nat) {
    forall d :: 0 <= d < |w.prims| ==> Shape(w.prims[d], slots) && IdxInRange(w.prims[d].idx, |w.ss|)
  }

  function LocalOf(w: World, t: nat): Local
    requires t < |w.prims|
  {
    Local(w.prims[t], w.ss)
  }

  function WithLocal(w: World, t: nat, l: Local): World
    requires t < |w.prims|
  {
    World(w.prims[t := l.p], l.ss)
  }

  /** need_more_scav. */
  function NeedMore(p: Prim, max: int): (need: nat) {
    if Count(p.idx) < max then max - Count(p.idx) else 0
  }

  // ----- Stealing ------------------------------------------------------------------------------

  /** A donor, the thief, and the scavenger table. */
  datatype Pair = Pair(from: Prim, to: Prim, ss: seq<Scav>)

  predicate SoundPair(x: Pair) {
    && WellShaped(x.from) && WellShaped(x.to)
    && IdxInRange(x.from.idx, |x.ss|) && IdxInRange(x.to.idx, |x.ss|)
  }

  predicate SamePairShape(x: Pair, y: Pair) {
    |y.from.idx| == |x.from.idx| && |y.to.idx| == |x.to.idx| && |y.ss| == |x.ss|
  }

  datatype StealOutcome = Moved | NoneLeft | NoRoom

  /** The donor after its last entry, in slot f, is gone. */
  function Robbed(from: Prim, f: nat): Prim
    requires WellShaped(from) && f < |from.idx|
  {
    SetNormal(from, f, EMPTY).(idx := from.idx[f := EMPTY], reallocated := true)
  }

  /** The thief after entry i, saved as v, is in slot q; its own link now names slot 1. */
  function Received(to: Prim, q: nat, i: int, v: Saved): Prim
    requires WellShaped(to) && q < |to.idx|
  {
    var ycs := to.ycs[q := YieldCtx(v.sp, v.ip, to.ycs[q].special, 0)];
    SetNormal(to.(ycs := ycs, idx := to.idx[q := i], regs := to.regs[q := v.regs]), 0, YC_SIZE)
  }

  /** One round of the loop of realloc_scav by thread toTid. */
  function StealOne(x: Pair, toTid: nat): (r: (Pair, StealOutcome))
    requires SoundPair(x)
    ensures SoundPair(r.0) && SamePairShape(x, r.0)
  {
    var (fromIdx, i, f) := PopBack(x.from.idx);
    if f == -1 then (x, NoneLeft)
    else
      var q := PushBack(x.to.idx, i).1;
      if q == -1 then
        (x.(from := x.from.(idx := PushBack(fromIdx, i).0)), NoRoom)
      else
        (Pair(Robbed(x.from, f), Received(x.to, q, i, SavedAt(x.from, f)),
              MoveScav(x.ss, i, Loc(toTid, q))), Moved)
  }

  /** realloc_scav, having already moved `got`. */
  function Realloc(x: Pair, toTid: nat, demands: nat, got: nat): (r: (Pair, nat))
    requires SoundPair(x) && got <= demands
    ensures SoundPair(r.0) && SamePairShape(x, r.0) && got <= r.1 <= demands
    decreases demands - got
  {
    if got == demands then (x, got)
    else
      var (y, o) := StealOne(x, toTid);
      if o.Moved? then Realloc(y, toTid, demands, got + 1) else (y, got)
  }

  /** The donor loop of _allocate_scav for thread t, from donor d up. */
  function DonorsFrom(w: World, t: nat, d: nat, got: nat, demands: nat, slots: nat): (r: (World, nat))
    requires WorldShape(w, slots) && t < |w.prims| && !w.prims[t].reallocatable && got < demands
    ensures WorldShape(r.0, slots) && |r.0.prims| == |w.prims| && |r.0.ss| == |w.ss|
    ensures got <= r.1 <= 2 * demands - 1
    decreases |w.prims| - d
  {
    if d >= |w.prims| then (w, got)
    else if !w.prims[d].reallocatable then DonorsFrom(w, t, d + 1, got, demands, slots)
    else
      var (y, cnt) := Realloc(Pair(w.prims[d], w.prims[t], w.ss), t, demands, 0);
      StealKeepsFlags(Pair(w.prims[d], w.prims[t], w.ss), t, demands, 0);
      var w' := World(w.prims[d := y.from][t := y.to], y.ss);
      if got + cnt >= demands then (w', got + cnt)
      else DonorsFrom(w', t, d + 1, got + cnt, demands, slots)
  }

  lemma {:induction false} StealKeepsFlags(x: Pair, toTid: nat, demands: nat, got: nat)
    requires SoundPair(x) && got <= demands
    ensures Realloc(x, toTid, demands, got).0.from.reallocatable == x.from.reallocatable
    ensures Realloc(x, toTid, demands, got).0.to.reallocatable == x.to.reallocatable
    ensures Realloc(x, toTid, demands, got).0.to.reallocated == x.to.reallocated
    ensures Realloc(x, toTid, demands, got).0.to.scavNum == x.to.scavNum
    decreases demands - got
  {
    if got < demands && StealOne(x, toTid).1.Moved? {
      StealKeepsFlags(StealOne(x, toTid).0, toTid, demands, got + 1);
    }
  }

  /** Stealing neither reads nor writes the donor's flag. */
  lemma {:induction false} FlagIsApart(x: Pair, toTid: nat, demands: nat, got: nat)
    requires SoundPair(x) && got <= demands
    ensures
      var (y, n) := Realloc(x, toTid, demands, got);
      Realloc(x.(from := x.from.(reallocatable := false)), toTid, demands, got)
        == (y.(from := y.from.(reallocatable := false)), n)
    decreases demands - got
  {
    if got < demands && StealOne(x, toTid).1.Moved? {
      FlagIsApart(StealOne(x, toTid).0, toTid, demands, got + 1);
    }
  }

  // ----- The pool ------------------------------------------------------------------------------

  datatype PoolOutcome = Skipped | Full | Taken

  predicate InPool(c: Scav) {
    c.loaded && c.yc.None? && !c.finished
  }

  /** One round of the pool loop of _allocate_scav: entry i, for thread t. */
  function PoolOne(l: Local, t: nat, i: nat): (r: (Local, PoolOutcome))
    requires Sound(l) && i < |l.ss|
    ensures Sound(r.0) && |r.0.p.idx| == |l.p.idx| && |r.0.ss| == |l.ss|
  {
    if !InPool(l.ss[i]) then (l, Skipped)
    else
      var (idx, q) := PushBack(l.p.idx, i);
      if q == -1 then (l, Full)
      else
        var yc := YieldCtx(l.ss[i].retToSched, l.ss[i].entry, l.p.ycs[q].special, 0);
        (Local(l.p.(idx := idx, ycs := l.p.ycs[q := yc]),
               l.ss[i := l.ss[i].(yc := Some(Loc(t, q)), crtPos := q * YC_SIZE)]), Taken)
  }

  function PoolFrom(l: Local, t: nat, i: nat, got: nat, demands: nat): (r: (Local, nat))
    requires Sound(l) && got < demands
    ensures Sound(r.0) && |r.0.p.idx| == |l.p.idx| && |r.0.ss| == |l.ss| && got <= r.1 <= demands
    decreases |l.ss| - i
  {
    if i >= |l.ss| then (l, got)
    else
      var (l', o) := PoolOne(l, t, i);
      if o.Full? then (l', got)
      else if o.Skipped? then PoolFrom(l', t, i + 1, got, demands)
      else if got + 1 == demands then (l', got + 1)
      else PoolFrom(l', t, i + 1, got + 1, demands)
  }

  /** _allocate_scav: first the donors, then the pool. */
  function AllocateLocked(w: World, t: nat, demands: nat, slots: nat): (r: (World, nat))
    requires WorldShape(w, slots) && t < |w.prims| && !w.prims[t].reallocatable && 1 <= demands
    ensures WorldShape(r.0, slots) && |r.0.prims| == |w.prims| && |r.0.ss| == |w.ss|
    ensures r.1 <= 2 * demands - 1
  {
    var (w1, got) := DonorsFrom(w, t, 0, 0, demands, slots);
    if got >= demands then (w1, got)
    else
      var (l, got') := PoolFrom(LocalOf(w1, t), t, 0, got, demands);
      (WithLocal(w1, t, l), got')
  }

  // ----- Init ----------------------------------------------------------------------------------

  /** What a scavenger's init function leaves behind in the slot it runs in. */
  datatype InitEffect = InitEffect(sp: int, ip: int, regs: RegSet)

  type InitEnv = int -> InitEffect

  predicate NeedsInit(c: Scav) {
    c.hasInit && !c.inited
  }

  /** One round of call_init_for_new_scav. The yield context is saved and restored around init. */
  function InitOne(l: Local, pos: nat, e: InitEffect): (r: Local)
    requires Sound(l) && pos < |l.p.idx|
    ensures Sound(r) && |r.p.idx| == |l.p.idx| && |r.ss| == |l.ss|
  {
    var i := l.p.idx[pos];
    if i == EMPTY || !NeedsInit(l.ss[i]) then l
    else
      Local(l.p.(regs := l.p.regs[pos := e.regs]),
            l.ss[i := l.ss[i].(inited := true, initCalls := l.ss[i].initCalls + 1)])
  }

  function InitFrom(l: Local, pos: nat, env: InitEnv): (r: Local)
    requires Sound(l)
    ensures Sound(r) && |r.p.idx| == |l.p.idx| && |r.ss| == |l.ss|
    decreases |l.p.idx| - pos
  {
    if pos >= |l.p.idx| then l else InitFrom(InitOne(l, pos, env(l.p.idx[pos])), pos + 1, env)
  }

  /** allocate_scav by thread t under the cap max. */
  function AllocateScav(w: World, t: nat, max: int, env: InitEnv, slots: nat): (r: (World, nat))
    requires WorldShape(w, slots) && t < |w.prims| && !w.prims[t].reallocatable
    ensures WorldShape(r.0, slots) && |r.0.prims| == |w.prims| && |r.0.ss| == |w.ss|
  {
    var need := NeedMore(w.prims[t], max);
    if need == 0 then (w, 0)
    else
      var (w1, got) := AllocateLocked(w, t, need, slots);
      var l := InitFrom(LocalOf(w1, t), 1, env);
      (WithLocal(w1, t, l.(p := SetSpecialNext(l.p))), got)
  }

  /** init_primary_ctx. */
  function InitPrimaryCtx(p: Prim, counts: nat): Prim
    requires WellShaped(p)
  {
    SetNormal(p, 0, if counts > 0 then YC_SIZE else 0)
      .(scavNum := counts, reallocatable := false, reallocated := false)
  }

  // ----- What one steal does -------------------------------------------------------------------

  lemma {:induction false} HostedSplit(p: Prim, from: nat, n: nat)
    requires WellShaped(p) && Prefix(p.idx) && n == Count(p.idx) && 1 <= from <= n + 1
    ensures n < |p.idx| && |Hosted(p, from)| == n + 1 - from
    ensures forall k :: 0 <= k < n + 1 - from ==>
      Hosted(p, from)[k]
        == Entry(p.idx[from + k], SavedAt(p, from + k), p.ycs[from + k].normal != EMPTY)
    decreases n + 1 - from
  {
    PrefixSlots(p.idx);
    if from == n + 1 {
      AllEmptyHosted(p, from);
    } else {
      HostedSplit(p, from + 1, n);
    }
  }

  /** The hosted sequence of a hole-free list, slot by slot. */
  lemma HostedOfPrefix(p: Prim)
    requires WellShaped(p) && Prefix(p.idx)
    ensures Count(p.idx) < |p.idx| && |Hosted(p, 1)| == Count(p.idx)
    ensures forall k :: 0 <= k < Count(p.idx) ==>
      Hosted(p, 1)[k] == Entry(p.idx[k + 1], SavedAt(p, k + 1), p.ycs[k + 1].normal != EMPTY)
  {
    HostedSplit(p, 1, Count(p.idx));
  }

  /** On hole-free lists a round empties the donor's last slot n into the thief's slot m + 1. */
  lemma StealSlots(x: Pair, toTid: nat)
    requires SoundPair(x) && Prefix(x.from.idx) && Prefix(x.to.idx)
    ensures Count(x.from.idx) < |x.from.idx| && Count(x.to.idx) < |x.to.idx|
    ensures
      var (y, o) := StealOne(x, toTid);
      var n, m := Count(x.from.idx), Count(x.to.idx);
      && o == (if n == 0 then NoneLeft else if m == |x.to.idx| - 1 then NoRoom else Moved)
      && (!o.Moved? ==> y == x)
      && (o.Moved? ==>
        && x.from.idx[n] != EMPTY && x.to.idx[m + 1] == EMPTY
        && y == Pair(Robbed(x.from, n), Received(x.to, m + 1, x.from.idx[n], SavedAt(x.from, n)),
                     MoveScav(x.ss, x.from.idx[n], Loc(toTid, m + 1))))
  {
    PrefixSlots(x.from.idx);
    PrefixSlots(x.to.idx);
    if Count(x.from.idx) != 0 {
      RollbackIffPrefix(x.from.idx);
    }
  }

  /** A steal that finds the thief full leaves the donor as it was exactly if its list had no hole. */
  lemma FailedStealIff(x: Pair, toTid: nat)
    requires SoundPair(x) && LastUsed(x.from.idx, |x.from.idx|) != -1 && FirstFree(x.to.idx, 1) == -1
    ensures StealOne(x, toTid).1.NoRoom? && (StealOne(x, toTid).0 == x <==> Prefix(x.from.idx))
  {
    RollbackIffPrefix(x.from.idx);
  }

  lemma RobbedHosts(from: Prim)
    requires WellShaped(from) && Prefix(from.idx) && LiveSlots(from) && 1 <= Count(from.idx) < |from.idx|
    ensures
      var n, y := Count(from.idx), Robbed(from, Count(from.idx));
      && Prefix(y.idx) && LiveSlots(y) && Count(y.idx) == n - 1
      && |Hosted(from, 1)| == n && Hosted(y, 1) == Hosted(from, 1)[..n - 1]
  {
    var n := Count(from.idx);
    var y := Robbed(from, n);
    PrefixSlots(from.idx);
    PopKeepsPrefix(from.idx);
    assert y.idx == PopBack(from.idx).0;
    HostedOfPrefix(from);
    HostedOfPrefix(y);
    var h, h' := Hosted(from, 1), Hosted(y, 1);
    assert forall k :: 0 <= k < n - 1 ==> h'[k] == h[k];
  }

  lemma ReceivedHosts(to: Prim, i: int, v: Saved)
    requires WellShaped(to) && Prefix(to.idx) && LiveSlots(to) && Count(to.idx) + 1 < |to.idx| && i != EMPTY
    ensures
      var m, y := Count(to.idx), Received(to, Count(to.idx) + 1, i, v);
      && Prefix(y.idx) && LiveSlots(y) && Count(y.idx) == m + 1
      && Hosted(y, 1) == Hosted(to, 1) + [Entry(i, v, true)]
  {
    hide Hosted, Count;
    var m := Count(to.idx);
    var y := Received(to, m + 1, i, v);
    PrefixSlots(to.idx);
    PushKeepsPrefix(to.idx, i);
    assert y.idx == PushBack(to.idx, i).0;
    HostedOfPrefix(to);
    HostedOfPrefix(y);
    var h, h' := Hosted(to, 1), Hosted(y, 1);
    assert forall k :: 0 <= k < m ==> h'[k] == h[k];
    assert h'[m] == Entry(i, v, true);
  }

  function Reversed(s: seq<Entry>): (r: seq<Entry>) {
    if s == [] then [] else [s[|s| - 1]] + Reversed(s[..|s| - 1])
  }

  function Min(a: int, b: int): int {
    if a < b then a else b
  }

  predicate Ready(x: Pair) {
    && SoundPair(x) && Prefix(x.from.idx) && Prefix(x.to.idx)
    && LiveSlots(x.from) && LiveSlots(x.to)
  }

  /** How many scavengers the thief can still take: available and accommodated. */
  function Movable(x: Pair): int {
    Min(Count(x.from.idx), |x.to.idx| - 1 - Count(x.to.idx))
  }

  /**
    k scavengers have moved: the donor keeps the front of its list, and the thief has gained the
    donor's tail, back to front, every context intact.
   */
  predicate Transferred(x: Pair, y: Pair, k: nat)
    requires Ready(x)
  {
    && Ready(y) && SamePairShape(x, y)
    && k <= |Hosted(x.from, 1)|
    && Hosted(y.from, 1) == Hosted(x.from, 1)[..|Hosted(x.from, 1)| - k]
    && Hosted(y.to, 1) == Hosted(x.to, 1) + Reversed(Hosted(x.from, 1)[|Hosted(x.from, 1)| - k..])
    && Count(y.from.idx) == Count(x.from.idx) - k && Count(y.to.idx) == Count(x.to.idx) + k
    && (k == 0 ==> y == x)
    && (k > 0 ==> y.from.reallocated && y.to.ycs[0].normal == YC_SIZE)
  }

  lemma ShapesAfterSteal(x: Pair, toTid: nat, n: nat, m: nat)
    requires SoundPair(x) && n < |x.from.idx| && m < |x.to.idx| && x.from.idx[n] != EMPTY
    ensures
      var y := Pair(Robbed(x.from, n), Received(x.to, m, x.from.idx[n], SavedAt(x.from, n)),
                    MoveScav(x.ss, x.from.idx[n], Loc(toTid, m)));
      && SoundPair(y) && SamePairShape(x, y)
      && y.from.reallocated && y.to.ycs[0].normal == YC_SIZE
  {
  }

  /** One round moves the donor's last scavenger to the end of the thief, or changes nothing. */
  lemma StealMovesLast(x: Pair, toTid: nat)
    requires Ready(x)
    ensures
      var (y, o) := StealOne(x, toTid);
      && (o.Moved? <==> Movable(x) > 0)
      && Transferred(x, y, if o.Moved? then 1 else 0)
  {
    hide Hosted, StealOne, Robbed, Received, IdxInRange, MoveScav;
    StealSlots(x, toTid);
    HostedOfPrefix(x.from);
    if StealOne(x, toTid).1.Moved? {
      var n := Count(x.from.idx);
      RobbedHosts(x.from);
      ReceivedHosts(x.to, x.from.idx[n], SavedAt(x.from, n));
      assert LiveSlots(x.from);
      var e := Hosted(x.from, 1)[n - 1];
      assert e == Entry(x.from.idx[n], SavedAt(x.from, n), true);
      assert Hosted(x.from, 1)[n - 1..] == [e];
      assert Reversed([e]) == [e] by {
        assert [e][..0] == [];
      }
      ShapesAfterSteal(x, toTid, n, Count(x.to.idx) + 1);
    } else {
      TransferNone(x);
    }
  }

  lemma TransferMore(x: Pair, y: Pair, z: Pair, k: nat)
    requires Ready(x) && Transferred(x, y, 1) && Transferred(y, z, k)
    ensures Transferred(x, z, k + 1)
  {
    hide Prefix, LiveSlots, Hosted, IdxInRange, Count;
    var h, n := Hosted(x.from, 1), |Hosted(x.from, 1)|;
    var tail := h[n - 1 - k..];
    assert h[..n - 1][..n - 1 - k] == h[..n - 1 - k];
    assert tail[..|tail| - 1] == h[..n - 1][n - 1 - k..];
    assert h[n - 1..] == [tail[|tail| - 1]];
    assert Reversed(h[n - 1..]) == [tail[|tail| - 1]];
  }

  lemma TransferNone(x: Pair)
    requires Ready(x)
    ensures Transferred(x, x, 0) && 0 <= Movable(x)
  {
    PrefixSlots(x.to.idx);
    assert Hosted(x.from, 1)[|Hosted(x.from, 1)|..] == [];
  }

  lemma MovableFalls(x: Pair, y: Pair)
    requires Ready(x) && Transferred(x, y, 1)
    ensures Ready(y) && Movable(y) == Movable(x) - 1
  {
  }

  /**
    realloc_scav on hole-free lists moves exactly as many scavengers as are demanded, available
    and accommodated.
   */
  lemma {:induction false} ReallocExact(x: Pair, toTid: nat, demands: nat, got: nat)
    requires Ready(x) && got <= demands
    ensures 0 <= Min(demands - got, Movable(x))
    ensures
      var (y, cnt) := Realloc(x, toTid, demands, got);
      var k := Min(demands - got, Movable(x));
      cnt == got + k && Transferred(x, y, k)
    decreases demands - got
  {
    hide StealOne, Hosted, Prefix, LiveSlots, SoundPair, Transferred, Count;
    StealMovesLast(x, toTid);
    TransferNone(x);
    if got < demands && Movable(x) > 0 {
      var y := StealOne(x, toTid).0;
      MovableFalls(x, y);
      ReallocExact(y, toTid, demands, got + 1);
      TransferMore(x, y, Realloc(y, toTid, demands, got + 1).0, Min(demands - got - 1, Movable(y)));
      assert Realloc(x, toTid, demands, got) == Realloc(y, toTid, demands, got + 1);
    }
  }

  /**
    A donor with one less than demanded and then a donor with all of it: the second is asked for the
    full demand again, and the bound 2 * demands - 1 of one allocation is attained.
   */
  lemma TwoDonorsAttainBound(w: World, demands: nat, slots: nat)
    requires WorldShape(w, slots) && 3 <= |w.prims| && 1 <= demands
    requires !w.prims[2].reallocatable && w.prims[0].reallocatable && w.prims[1].reallocatable
    requires forall d :: 0 <= d < 3 ==> Prefix(w.prims[d].idx) && LiveSlots(w.prims[d])
    requires Count(w.prims[0].idx) == demands - 1 && Count(w.prims[1].idx) == demands
    requires Count(w.prims[2].idx) + 2 * demands <= slots
    ensures
      var (w', got) := AllocateLocked(w, 2, demands, slots);
      && got == 2 * demands - 1
      && Count(w'.prims[0].idx) == 0 && Count(w'.prims[1].idx) == 0
      && w'.prims[0].reallocatable && w'.prims[1].reallocatable
      && Count(w'.prims[2].idx) == Count(w.prims[2].idx) + got
      && forall d :: 3 <= d < |w.prims| ==> w'.prims[d] == w.prims[d]
  {
    hide Prefix, LiveSlots, Hosted, Count, Realloc, IdxInRange;
    var x := Pair(w.prims[0], w.prims[2], w.ss);
    ReallocExact(x, 2, demands, 0);
    StealKeepsFlags(x, 2, demands, 0);
    var y := Realloc(x, 2, demands, 0).0;
    var w1 := World(w.prims[0 := y.from][2 := y.to], y.ss);
    var x1 := Pair(w1.prims[1], w1.prims[2], w1.ss);
    ReallocExact(x1, 2, demands, 0);
    StealKeepsFlags(x1, 2, demands, 0);
    var y1 := Realloc(x1, 2, demands, 0).0;
    assert Realloc(x1, 2, demands, 0).1 == demands;
    assert DonorsFrom(w1, 2, 1, demands - 1, demands, slots)
      == (World(w1.prims[1 := y1.from][2 := y1.to], y1.ss), 2 * demands - 1);
    assert DonorsFrom(w, 2, 0, 0, demands, slots) == DonorsFrom(w1, 2, 1, demands - 1, demands, slots);
  }

  // ----- How much one allocation hands out -------------------------------------------------------

  /**
    What the donors from d up give to a requester that lacks `demands`, has got `got`, and had
    `room` free slots at first; read off flags and counts alone.
   */
  function DonorTotal(prims: seq<Prim>, d: nat, got: nat, demands: nat, room: nat): (r: nat)
    requires got <= room
    ensures got <= r <= room
    decreases |prims| - d
  {
    if d >= |prims| then got
    else if !prims[d].reallocatable then DonorTotal(prims, d + 1, got, demands, room)
    else
      var k := Min(demands, Min(Count(prims[d].idx), room - got));
      if got + k >= demands then got + k else DonorTotal(prims, d + 1, got + k, demands, room)
  }

  /** How many scavengers the threads below d that are in a call have in all. */
  function Supply(prims: seq<Prim>, d: nat): nat
    requires d <= |prims|
  {
    if d == 0 then 0
    else Supply(prims, d - 1) + if prims[d - 1].reallocatable then Count(prims[d - 1].idx) else 0
  }

  lemma {:induction false} SupplyGrows(prims: seq<Prim>, d: nat, e: nat)
    requires d < e <= |prims|
    ensures Supply(prims, d) + (if prims[d].reallocatable then Count(prims[d].idx) else 0) <= Supply(prims, e)
    decreases e
  {
    if d < e - 1 {
      SupplyGrows(prims, d, e - 1);
    }
  }

  /** Donor d tips the scales: those before it give something but not enough, with it they give too much. */
  predicate Overfills(prims: seq<Prim>, d: nat, demands: nat)
    requires d < |prims|
  {
    && prims[d].reallocatable
    && 0 < Supply(prims, d) < demands < Supply(prims, d) + Count(prims[d].idx)
  }

  lemma {:induction false} TotalExceedsIff(prims: seq<Prim>, d: nat, demands: nat, room: nat)
    requires d <= |prims| && demands < room && Supply(prims, d) < demands
    ensures DonorTotal(prims, d, Supply(prims, d), demands, room) > demands
      <==> exists e :: d <= e < |prims| && Overfills(prims, e, demands)
    decreases |prims| - d
  {
    if d < |prims| {
      var got := Supply(prims, d);
      assert Supply(prims, d + 1) == got + if prims[d].reallocatable then Count(prims[d].idx) else 0;
      if Supply(prims, d + 1) < demands {
        TotalExceedsIff(prims, d + 1, demands, room);
        assert !Overfills(prims, d, demands);
      } else {
        var k := Min(demands, Min(Count(prims[d].idx), room - got));
        assert DonorTotal(prims, d, got, demands, room) == got + k;
        assert got + k > demands <==> Overfills(prims, d, demands);
        forall e | d < e < |prims| ensures !Overfills(prims, e, demands) {
          SupplyGrows(prims, d, e);
        }
      }
    }
  }

  /** Equal flags and counts from d up. */
  predicate SameOffer(prims: seq<Prim>, prims': seq<Prim>, d: nat) {
    && |prims'| == |prims|
    && forall e :: d <= e < |prims| ==>
      && prims'[e].reallocatable == prims[e].reallocatable
      && (prims[e].reallocatable ==> Count(prims'[e].idx) == Count(prims[e].idx))
  }

  lemma {:induction false} TotalOfOffer(prims: seq<Prim>, prims': seq<Prim>, d: nat, got: nat, demands: nat, room: nat)
    requires SameOffer(prims, prims', d) && got <= room
    ensures DonorTotal(prims', d, got, demands, room) == DonorTotal(prims, d, got, demands, room)
    decreases |prims| - d
  {
    if d < |prims| {
      var k := Min(demands, Min(Count(prims[d].idx), room - got));
      if !prims[d].reallocatable {
        TotalOfOffer(prims, prims', d + 1, got, demands, room);
      } else if got + k < demands {
        TotalOfOffer(prims, prims', d + 1, got + k, demands, room);
      }
    }
  }

  // ----- Work conservation ---------------------------------------------------------------------

  lemma {:induction false} PoolExhausted(l: Local, t: nat, i: nat, got: nat, demands: nat)
    requires Sound(l) && got < demands
    requires forall j :: 0 <= j < i && j < |l.ss| ==> !InPool(l.ss[j])
    ensures
      var (l', got') := PoolFrom(l, t, i, got, demands);
      got' < demands ==>
        || FirstFree(l'.p.idx, 1) == -1
        || forall j :: 0 <= j < |l'.ss| ==> !InPool(l'.ss[j])
    decreases |l.ss| - i
  {
    if i < |l.ss| {
      var (l', o) := PoolOne(l, t, i);
      if o.Skipped? {
        PoolExhausted(l', t, i + 1, got, demands);
      } else if o.Taken? && got + 1 < demands {
        PoolExhausted(l', t, i + 1, got + 1, demands);
      }
    }
  }

  /**
    If an allocation hands out fewer scavengers than demanded, then no loaded scavenger is left
    in the pool, or the requester has no free slot.
   */
  lemma AllocationConservesWork(w: World, t: nat, demands: nat, slots: nat)
    requires WorldShape(w, slots) && t < |w.prims| && !w.prims[t].reallocatable && 1 <= demands
    ensures
      var (w', got) := AllocateLocked(w, t, demands, slots);
      got < demands ==>
        || FirstFree(w'.prims[t].idx, 1) == -1
        || forall j :: 0 <= j < |w'.ss| && w'.ss[j].loaded ==> w'.ss[j].yc.Some? || w'.ss[j].finished
  {
    var (w1, got) := DonorsFrom(w, t, 0, 0, demands, slots);
    if got < demands {
      PoolExhausted(LocalOf(w1, t), t, 0, got, demands);
    }
  }

  // ----- How much the pool holds -----------------------------------------------------------------

  /** How many scavengers from index `from` up are in the pool. */
  function PoolSize(ss: seq<Scav>, from: nat): nat
    decreases |ss| - from
  {
    if from >= |ss| then 0 else (if InPool(ss[from]) then 1 else 0) + PoolSize(ss, from + 1)
  }

  lemma {:induction false} PoolSizeAgrees(ss: seq<Scav>, ss': seq<Scav>, from: nat)
    requires |ss'| == |ss| && forall i :: from <= i < |ss| ==> InPool(ss'[i]) == InPool(ss[i])
    ensures PoolSize(ss', from) == PoolSize(ss, from)
    decreases |ss| - from
  {
    if from < |ss| {
      PoolSizeAgrees(ss, ss', from + 1);
    }
  }

  lemma PoolRoundCounts(l: Local, t: nat, i: nat)
    requires Sound(l) && Prefix(l.p.idx) && i < |l.ss|
    ensures Count(l.p.idx) < |l.p.idx|
    ensures
      var (l1, o) := PoolOne(l, t, i);
      && (o.Skipped? <==> !InPool(l.ss[i])) && (o.Full? ==> Count(l.p.idx) == |l.p.idx| - 1)
      && (!o.Taken? ==> l1 == l)
      && (o.Taken? ==> Count(l.p.idx) < |l.p.idx| - 1)
      && (o.Taken? ==> Prefix(l1.p.idx) && Count(l1.p.idx) == Count(l.p.idx) + 1 && !InPool(l1.ss[i]))
      && (o.Taken? ==> forall j :: 0 <= j < |l.ss| && j != i ==> l1.ss[j] == l.ss[j])
  {
    PrefixSlots(l.p.idx);
    PushKeepsPrefix(l.p.idx, i);
  }

  /** The pool loop takes exactly as many as are demanded, in the pool, and accommodated. */
  lemma {:induction false} PoolTakesExactly(l: Local, t: nat, i: nat, got: nat, demands: nat)
    requires Sound(l) && Prefix(l.p.idx) && got < demands
    ensures Count(l.p.idx) < |l.p.idx|
    ensures
      var (l', got') := PoolFrom(l, t, i, got, demands);
      && got' - got == Min(demands - got, Min(PoolSize(l.ss, i), |l.p.idx| - 1 - Count(l.p.idx)))
      && PoolSize(l'.ss, i) == PoolSize(l.ss, i) - (got' - got)
    decreases |l.ss| - i
  {
    hide Prefix, PoolOne;
    PrefixSlots(l.p.idx);
    if i < |l.ss| {
      var (l1, o) := PoolOne(l, t, i);
      PoolRoundCounts(l, t, i);
      if o.Skipped? {
        PoolTakesExactly(l, t, i + 1, got, demands);
        PoolKeepsFront(l, t, i + 1, got, demands);
      } else if o.Taken? {
        PoolSizeAgrees(l.ss, l1.ss, i + 1);
        if got + 1 < demands {
          PoolTakesExactly(l1, t, i + 1, got + 1, demands);
          PoolKeepsFront(l1, t, i + 1, got + 1, demands);
        }
      }
    }
  }

  /** A pool scan from i on leaves the entries before i alone. */
  lemma {:induction false} PoolKeepsFront(l: Local, t: nat, i: nat, got: nat, demands: nat)
    requires Sound(l) && got < demands
    ensures
      var l' := PoolFrom(l, t, i, got, demands).0;
      |l'.ss| == |l.ss| && forall j :: 0 <= j < i && j < |l.ss| ==> l'.ss[j] == l.ss[j]
    decreases |l.ss| - i
  {
    if i < |l.ss| {
      var (l1, o) := PoolOne(l, t, i);
      if o.Skipped? {
        PoolKeepsFront(l1, t, i + 1, got, demands);
      } else if o.Taken? && got + 1 < demands {
        PoolKeepsFront(l1, t, i + 1, got + 1, demands);
      }
    }
  }
}
