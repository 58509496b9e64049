/**
  The thread-local scheduler of libmsh/msh.c as functions of a thread's context and the
  scavenger table: swap, finish, the two "next" link structures, and compaction.
 */
module Scheduler {
  import opened Wrappers
  import opened Tables
  import opened SlotList

  // ----- Links ---------------------------------------------------------------------------------

  function SetNormal(p: Prim, q: nat, v: int): Prim
    requires q < |p.ycs|
  {
    p.(ycs := p.ycs[q := p.ycs[q].(normal := v)])
  }

  /** tl_update_next_map: point the primary at the first runnable coroutine, unless it is finished. */
  function UpdateNextMap(p: Prim): Prim
    requires WellShaped(p)
  {
    if p.ycs[0].normal == EMPTY then p else SetNormal(p, 0, YC_SIZE * FirstLive(p.ycs, 1))
  }

  /** The word read as idx_list[q]: one past the list lies the field scav_num. */
  function IdxWord(p: Prim, q: nat): int {
    if q < |p.idx| then p.idx[q] else p.scavNum
  }

  function SpecialAt(p: Prim, q: nat): int {
    if IdxWord(p, q + 1) == EMPTY then 0 else YC_SIZE * (q + 1)
  }

  /** set_special_next: link every slot to its successor if that is used, else to the primary. */
  function SetSpecialNext(p: Prim): Prim
    requires WellShaped(p)
  {
    p.(ycs := seq(|p.ycs|, q requires 0 <= q < |p.ycs| =>
      if q == 0 then p.ycs[0] else p.ycs[q].(special := SpecialAt(p, q))))
  }

  /** The coroutine reached after following `normal` from the primary and then k `special` links. */
  function Walk(p: Prim, k: nat): int
    requires WellShaped(p)
  {
    if k == 0 then p.ycs[0].normal / YC_SIZE
    else
      var q := Walk(p, k - 1);
      if 0 < q < |p.ycs| then p.ycs[q].special / YC_SIZE else q
  }

  /** The walk visits the slots 1..n in order, each once, and is back at the primary. */
  ghost predicate Ring(p: Prim, n: nat)
    requires WellShaped(p)
  {
    (forall k :: 0 <= k < n ==> Walk(p, k) == k + 1) && Walk(p, n) == 0
  }

  /** Slots 1..n each link to the next slot; the last one links back to the primary if closed. */
  predicate LinksSet(p: Prim, n: nat, closed: bool)
    requires WellShaped(p)
  {
    forall q :: 1 <= q <= n && q < |p.ycs| ==>
      p.ycs[q].special == if q == n && closed then 0 else YC_SIZE * (q + 1)
  }

  lemma {:induction false} WalkAlongLinks(p: Prim, n: nat, k: nat)
    requires WellShaped(p) && 1 <= n < |p.idx| && k < n
    requires p.ycs[0].normal == YC_SIZE
    requires forall q :: 1 <= q < n ==> p.ycs[q].special == YC_SIZE * (q + 1)
    ensures Walk(p, k) == k + 1
  {
    if k > 0 {
      WalkAlongLinks(p, n, k - 1);
    }
  }

  /** With the primary's link at slot 1 and all but the last special link right, ring = last link. */
  lemma RingIffLastLink(p: Prim, n: nat)
    requires WellShaped(p) && 1 <= n < |p.idx|
    requires p.ycs[0].normal == YC_SIZE
    requires forall q :: 1 <= q < n ==> p.ycs[q].special == YC_SIZE * (q + 1)
    ensures Ring(p, n) <==> p.ycs[n].special / YC_SIZE == 0
  {
    forall k | 0 <= k < n ensures Walk(p, k) == k + 1 {
      WalkAlongLinks(p, n, k);
    }
    assert Walk(p, n) == p.ycs[n].special / YC_SIZE;
  }

  /**
    set_special_next on a hole-free list closes the ring exactly when the last slot is free: with
    every slot used, the last link is computed from the word behind the list and leaves the table.
   */
  lemma SpecialNextClosesRingIff(p: Prim)
    requires WellShaped(p) && Prefix(p.idx) && 1 <= Count(p.idx) && p.scavNum != EMPTY
    requires p.ycs[0].normal == YC_SIZE
    ensures Ring(SetSpecialNext(p), Count(p.idx)) <==> Count(p.idx) < |p.idx| - 1
    ensures LinksSet(SetSpecialNext(p), Count(p.idx), Count(p.idx) < |p.idx| - 1)
  {
    PrefixSlots(p.idx);
    RingIffLastLink(SetSpecialNext(p), Count(p.idx));
  }

  // ----- Swap ----------------------------------------------------------------------------------

  /** The rewriting of tl_swap_crts: it compares byte offsets with slot numbers. */
  function SwapNormal(v: int, a: int, b: int): int {
    if v == a then b else if v == b then a else v
  }

  function SwapPrim(p: Prim, a: nat, b: nat): Prim
    requires WellShaped(p) && a < |p.idx| && b < |p.idx|
  {
    var ycs := p.ycs[a := p.ycs[b]][b := p.ycs[a]];
    p.(
      idx := p.idx[a := p.idx[b]][b := p.idx[a]],
      regs := p.regs[a := p.regs[b]][b := p.regs[a]],
      ycs := seq(|ycs|, q requires 0 <= q < |ycs| =>
        ycs[q].(normal := SwapNormal(ycs[q].normal, a, b))))
  }

  /** A move tells the scavenger its slot number, although finishing expects a byte offset. */
  function MoveScav(ss: seq<Scav>, i: int, at: Loc): seq<Scav>
    requires -1 <= i < |ss|
  {
    if i == EMPTY then ss else ss[i := ss[i].(yc := Some(at), crtPos := at.pos)]
  }

  /** tl_swap_crts(a, b) of thread t. */
  function Swap(l: Local, t: nat, a: nat, b: nat): (r: Local)
    requires Sound(l) && a < |l.p.idx| && b < |l.p.idx|
    ensures Sound(r) && |r.p.idx| == |l.p.idx| && |r.ss| == |l.ss|
  {
    var ss := MoveScav(l.ss, l.p.idx[a], Loc(t, b));
    Local(SwapPrim(l.p, a, b), MoveScav(ss, l.p.idx[b], Loc(t, a)))
  }

  // ----- Finish --------------------------------------------------------------------------------

  /** The part of tl_finish_crt under the lock: give up the slot and retire the scavenger. */
  function Retire(l: Local, pos: nat): (r: Local)
    requires Sound(l) && pos < |l.p.idx| && l.p.idx[pos] != EMPTY
    ensures Sound(r) && |r.p.idx| == |l.p.idx| && |r.ss| == |l.ss|
  {
    var i := l.p.idx[pos];
    Local(l.p.(idx := l.p.idx[pos := EMPTY]),
          l.ss[i := l.ss[i].(yc := None, finished := true)])
  }

  /** tl_finish_crt(pos). */
  function Finish(l: Local, pos: nat): (r: Local)
    requires Sound(l) && pos < |l.p.idx|
    ensures Sound(r) && |r.p.idx| == |l.p.idx| && |r.ss| == |l.ss|
  {
    var l1 := l.(p := SetNormal(l.p, pos, EMPTY));
    if l.p.idx[pos] == EMPTY then l1 else Retire(l1, pos)
  }

  // ----- Compaction ----------------------------------------------------------------------------

  /** The slot that tl_pack_crts swaps into `pos`, or 0 when there is nothing to do. */
  function SwapPartner(idx: seq<int>, pos: nat): (r: nat)
    requires 1 <= pos < |idx|
    ensures r != 0 ==> pos < r < |idx| && idx[r] != EMPTY
  {
    if idx[pos] == EMPTY then FirstUsed(idx, pos + 1) else 0
  }

  function PackOne(l: Local, t: nat, pos: nat): (r: Local)
    requires Sound(l) && 1 <= pos < |l.p.idx|
    ensures Sound(r) && |r.p.idx| == |l.p.idx| && |r.ss| == |l.ss|
  {
    var b := SwapPartner(l.p.idx, pos);
    if b == 0 then l else Swap(l, t, pos, b)
  }

  function PackFrom(l: Local, t: nat, pos: nat): (r: Local)
    requires Sound(l) && 1 <= pos
    ensures Sound(r) && |r.p.idx| == |l.p.idx| && |r.ss| == |l.ss|
    decreases |l.p.idx| - pos
  {
    if pos >= |l.p.idx| then l else PackFrom(PackOne(l, t, pos), t, pos + 1)
  }

  /** tl_pack_crts: nothing when the primary is finished. */
  function Pack(l: Local, t: nat): (r: Local)
    requires Sound(l)
    ensures Sound(r) && |r.p.idx| == |l.p.idx| && |r.ss| == |l.ss|
  {
    if l.p.ycs[0].normal == EMPTY then l
    else
      var r := PackFrom(l, t, 1);
      r.(p := SetSpecialNext(r.p))
  }

  /** What one hosted scavenger is to its thread. */
  datatype Entry = Entry(scav: int, saved: Saved, runnable: bool)

  /** The hosted scavengers in slot order, from slot `from` up. */
  function Hosted(p: Prim, from: nat): seq<Entry>
    requires WellShaped(p)
    decreases |p.idx| - from
  {
    if from >= |p.idx| then []
    else
      (if p.idx[from] == EMPTY then []
       else [Entry(p.idx[from], SavedAt(p, from), p.ycs[from].normal != EMPTY)])
      + Hosted(p, from + 1)
  }

  /** Two contexts with the same slots from `from` up host the same scavengers there. */
  lemma {:induction false} HostedAgrees(p: Prim, p': Prim, from: nat)
    requires WellShaped(p) && WellShaped(p') && |p.idx| == |p'.idx|
    requires forall q :: from <= q < |p.idx| ==>
      && p.idx[q] == p'.idx[q]
      && (p.idx[q] != EMPTY ==> SavedAt(p, q) == SavedAt(p', q))
      && (p.idx[q] != EMPTY ==> (p.ycs[q].normal == EMPTY <==> p'.ycs[q].normal == EMPTY))
    ensures Hosted(p, from) == Hosted(p', from)
    decreases |p.idx| - from
  {
    if from < |p.idx| {
      HostedAgrees(p, p', from + 1);
    }
  }

  lemma {:induction false} HostedSkipsHoles(p: Prim, from: nat, to: nat)
    requires WellShaped(p) && from <= to <= |p.idx|
    requires forall q :: from <= q < to ==> p.idx[q] == EMPTY
    ensures Hosted(p, from) == Hosted(p, to)
    decreases |p.idx| - from
  {
    if from < to {
      HostedSkipsHoles(p, from + 1, to);
    }
  }

  lemma HostedHead(p: Prim, from: nat)
    requires WellShaped(p) && from < |p.idx| && p.idx[from] != EMPTY
    ensures Hosted(p, from)
      == [Entry(p.idx[from], SavedAt(p, from), p.ycs[from].normal != EMPTY)] + Hosted(p, from + 1)
  {
  }

  /** Exchanging a hole with the first used slot behind it moves one entry, and nothing else. */
  lemma SwapMovesOne(p: Prim, a: nat, b: nat)
    requires WellShaped(p) && 1 <= a < b < |p.idx|
    requires p.idx[b] != EMPTY && forall q :: a <= q < b ==> p.idx[q] == EMPTY
    ensures SwapPrim(p, a, b).idx[a] == p.idx[b]
    ensures SavedAt(SwapPrim(p, a, b), a) == SavedAt(p, b)
    ensures SwapPrim(p, a, b).ycs[a].normal == EMPTY <==> p.ycs[b].normal == EMPTY
    ensures forall q :: a < q <= b ==> SwapPrim(p, a, b).idx[q] == EMPTY
    ensures forall q :: 0 <= q < |p.idx| && (q < a || b < q) ==> SwapPrim(p, a, b).idx[q] == p.idx[q]
    ensures forall q :: 1 <= q < |p.idx| && (q < a || b < q) ==>
      && SavedAt(SwapPrim(p, a, b), q) == SavedAt(p, q)
      && (SwapPrim(p, a, b).ycs[q].normal == EMPTY <==> p.ycs[q].normal == EMPTY)
  {
  }

  lemma SwapKeepsHosted(p: Prim, a: nat, b: nat)
    requires WellShaped(p) && 1 <= a < b < |p.idx|
    requires p.idx[b] != EMPTY && forall q :: a <= q < b ==> p.idx[q] == EMPTY
    ensures Hosted(SwapPrim(p, a, b), a) == Hosted(p, a)
  {
    SwapMovesOne(p, a, b);
    var p' := SwapPrim(p, a, b);
    HostedHead(p, b);
    HostedHead(p', a);
    hide SwapPrim, Hosted;
    HostedSkipsHoles(p, a, b);
    HostedSkipsHoles(p', a + 1, b + 1);
    HostedAgrees(p, p', b + 1);
  }

  /** One swap of the compaction leaves the hosted sequence unchanged. */
  lemma PackOneKeepsHosted(l: Local, t: nat, pos: nat)
    requires Sound(l) && 1 <= pos < |l.p.idx|
    ensures Hosted(PackOne(l, t, pos).p, pos) == Hosted(l.p, pos)
    ensures forall q :: 0 <= q < pos ==> PackOne(l, t, pos).p.idx[q] == l.p.idx[q]
    ensures forall q :: 1 <= q < pos ==>
      && SavedAt(PackOne(l, t, pos).p, q) == SavedAt(l.p, q)
      && (PackOne(l, t, pos).p.ycs[q].normal == EMPTY <==> l.p.ycs[q].normal == EMPTY)
    ensures PackOne(l, t, pos).p.idx[pos] == EMPTY ==>
      forall q :: pos <= q < |l.p.idx| ==> PackOne(l, t, pos).p.idx[q] == EMPTY
  {
    var b := SwapPartner(l.p.idx, pos);
    if b != 0 {
      SwapMovesOne(l.p, pos, b);
      SwapKeepsHosted(l.p, pos, b);
    }
  }

  lemma {:induction false} PackFromKeepsHosted(l: Local, t: nat, pos: nat)
    requires Sound(l) && 1 <= pos <= |l.p.idx|
    ensures Hosted(PackFrom(l, t, pos).p, pos) == Hosted(l.p, pos)
    ensures forall q :: 0 <= q < pos ==> PackFrom(l, t, pos).p.idx[q] == l.p.idx[q]
    ensures forall q :: 1 <= q < pos ==>
      && SavedAt(PackFrom(l, t, pos).p, q) == SavedAt(l.p, q)
      && (PackFrom(l, t, pos).p.ycs[q].normal == EMPTY <==> l.p.ycs[q].normal == EMPTY)
    ensures forall q, r :: pos <= q < r < |l.p.idx| && PackFrom(l, t, pos).p.idx[q] == EMPTY ==>
      PackFrom(l, t, pos).p.idx[r] == EMPTY
    decreases |l.p.idx| - pos
  {
    hide PackOne, Hosted;
    if pos < |l.p.idx| {
      var l1 := PackOne(l, t, pos);
      PackOneKeepsHosted(l, t, pos);
      PackFromKeepsHosted(l1, t, pos + 1);
      PackAssembles(l1.p, PackFrom(l1, t, pos + 1).p, pos);
    } else {
      assert PackFrom(l, t, pos) == l;
    }
  }

  /** What holds from pos + 1 up holds from pos up. */
  lemma PackAssembles(p: Prim, p': Prim, pos: nat)
    requires WellShaped(p) && WellShaped(p') && |p'.idx| == |p.idx| && 1 <= pos < |p.idx|
    requires p'.idx[pos] == p.idx[pos] && SavedAt(p', pos) == SavedAt(p, pos)
    requires p'.ycs[pos].normal == EMPTY <==> p.ycs[pos].normal == EMPTY
    requires Hosted(p', pos + 1) == Hosted(p, pos + 1)
    requires p.idx[pos] == EMPTY ==> forall q :: pos <= q < |p.idx| ==> p.idx[q] == EMPTY
    requires forall q, r :: pos < q < r < |p.idx| && p'.idx[q] == EMPTY ==> p'.idx[r] == EMPTY
    ensures Hosted(p', pos) == Hosted(p, pos)
    ensures forall q, r :: pos <= q < r < |p.idx| && p'.idx[q] == EMPTY ==> p'.idx[r] == EMPTY
  {
    if p.idx[pos] == EMPTY {
      AllEmptyHosted(p, pos + 1);
      EmptyHostedAll(p', pos + 1);
    }
  }

  lemma AllEmptyHosted(p: Prim, from: nat)
    requires WellShaped(p) && from <= |p.idx|
    requires forall q :: from <= q < |p.idx| ==> p.idx[q] == EMPTY
    ensures Hosted(p, from) == []
  {
    HostedSkipsHoles(p, from, |p.idx|);
  }

  lemma {:induction false} EmptyHostedAll(p: Prim, from: nat)
    requires WellShaped(p) && Hosted(p, from) == []
    ensures forall q :: from <= q < |p.idx| ==> p.idx[q] == EMPTY
    decreases |p.idx| - from
  {
    if from < |p.idx| {
      EmptyHostedAll(p, from + 1);
    }
  }

  /**
    Compaction turns any slot list into a hole-free one that hosts the same scavengers in the
    same order, each with its saved stack pointer, instruction pointer and register set.
   */
  lemma PackCompacts(l: Local, t: nat)
    requires Sound(l) && l.p.ycs[0].normal != EMPTY
    ensures Prefix(Pack(l, t).p.idx)
    ensures Hosted(Pack(l, t).p, 1) == Hosted(l.p, 1)
    ensures Pack(l, t).p.idx[0] == l.p.idx[0]
  {
    PackFromKeepsHosted(l, t, 1);
    var r := PackFrom(l, t, 1);
    HostedAgrees(r.p, SetSpecialNext(r.p), 1);
  }

  // ----- Live slots ----------------------------------------------------------------------------

  /** While the primary is live, a hosted scavenger yields to it and a free slot is not runnable. */
  predicate LiveSlots(p: Prim)
    requires WellShaped(p)
  {
    forall q :: 1 <= q < |p.idx| ==> p.ycs[q].normal == if p.idx[q] == EMPTY then EMPTY else 0
  }

  /** Scanning for a runnable coroutine and scanning for a used slot find the same slot. */
  lemma {:induction false} ScansAgree(p: Prim, from: nat)
    requires WellShaped(p) && 1 <= from
    requires forall q :: 1 <= q < |p.idx| ==> (p.ycs[q].normal != EMPTY <==> p.idx[q] != EMPTY)
    ensures FirstLive(p.ycs, from) == FirstUsed(p.idx, from)
    decreases |p.idx| - from
  {
    if from < |p.idx| {
      ScansAgree(p, from + 1);
    }
  }

  /** The mixed-unit rewriting cannot hit a slot: only the primary's own link may be rewritten. */
  lemma SwapKeepsLiveSlots(p: Prim, a: nat, b: nat)
    requires WellShaped(p) && 1 <= a < b < |p.idx| && LiveSlots(p)
    ensures LiveSlots(SwapPrim(p, a, b))
    ensures SwapPrim(p, a, b).ycs[0] == p.ycs[0].(normal := SwapNormal(p.ycs[0].normal, a, b))
  {
  }

  lemma {:induction false} PackKeepsLiveSlots(l: Local, t: nat, pos: nat)
    requires Sound(l) && 1 <= pos && LiveSlots(l.p)
    ensures LiveSlots(PackFrom(l, t, pos).p)
    ensures PackFrom(l, t, pos).p.ycs[0].normal == EMPTY <==> l.p.ycs[0].normal == EMPTY
    decreases |l.p.idx| - pos
  {
    if pos < |l.p.idx| {
      var b := SwapPartner(l.p.idx, pos);
      if b != 0 {
        SwapKeepsLiveSlots(l.p, pos, b);
      }
      PackKeepsLiveSlots(PackOne(l, t, pos), t, pos + 1);
    }
  }
}
