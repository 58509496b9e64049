/**
  The static tables of libmsh: one `Prim` per primary thread (`PRIM_TABLE`) and one `Scav` per
  scavenger of the pool (`SCAV_TABLE`). Slot 0 of every per-thread list belongs to the primary.
  Table sizes are symbolic: the length of a thread's lists is MAX_CRT_PER_THREAD + 1.
 */
module Tables {
  import opened Wrappers

  /** sizeof(struct yield_ctx): `normal`, `special` and `crt_pos` count bytes, not slots. */
  const YC_SIZE: int := 20

  /** The empty mark of index lists, and the `normal` of a coroutine that is not runnable. */
  const EMPTY: int := -1

  type RegSet = seq<int>

  datatype YieldCtx = YieldCtx(sp: int, ip: int, special: int, normal: int)

  datatype Prim = Prim(
    ycs: seq<YieldCtx>,
    regs: seq<RegSet>,
    idx: seq<int>,
    scavNum: int,
    reallocatable: bool,
    reallocated: bool)

  /** The target of a `struct yield_ctx *`: slot `pos` of thread `tid`. */
  datatype Loc = Loc(tid: nat, pos: nat)

  /** `initCalls` is a history variable: how often `init` has been called. */
  datatype Scav = Scav(
    loaded: bool,
    entry: int,
    retToSched: int,
    yc: Option<Loc>,
    finished: bool,
    hasInit: bool,
    inited: bool,
    crtPos: int,
    initCalls: nat)

  /** What a coroutine needs to be resumed. */
  datatype Saved = Saved(sp: int, ip: int, regs: RegSet)

  /** A thread's own context together with the shared scavenger table. */
  datatype Local = Local(p: Prim, ss: seq<Scav>)

  predicate Shape(p: Prim, slots: nat) {
    1 <= slots && |p.ycs| == slots && |p.regs| == slots && |p.idx| == slots
  }

  predicate WellShaped(p: Prim) {
    Shape(p, |p.idx|)
  }

  /** Every entry of the index list is the empty mark or an index of the scavenger table. */
  predicate IdxInRange(idx: seq<int>, n: nat) {
    forall q :: 0 <= q < |idx| ==> -1 <= idx[q] < n
  }

  predicate Sound(l: Local) {
    WellShaped(l.p) && IdxInRange(l.p.idx, |l.ss|)
  }

  function SavedAt(p: Prim, q: nat): Saved
    requires WellShaped(p) && q < |p.idx|
  {
    Saved(p.ycs[q].sp, p.ycs[q].ip, p.regs[q])
  }
}

/** Scans over a slot list, the two list macros, and hole-free ("prefix") lists. */
module SlotList {
  import opened Tables

  /** The least free slot at or above `from`, or -1. */
  function FirstFree(idx: seq<int>, from: nat): (r: int)
    requires from <= |idx|
    ensures r == -1 ==> forall q :: from <= q < |idx| ==> idx[q] != EMPTY
    ensures r != -1 ==> from <= r < |idx| && idx[r] == EMPTY
    ensures r != -1 ==> forall q :: from <= q < r ==> idx[q] != EMPTY
    decreases |idx| - from
  {
    if from == |idx| then -1
    else if idx[from] == EMPTY then from
    else FirstFree(idx, from + 1)
  }

  /** The greatest used slot in 1..upto-1, or -1. */
  function LastUsed(idx: seq<int>, upto: nat): (r: int)
    requires upto <= |idx|
    ensures r == -1 ==> forall q :: 1 <= q < upto ==> idx[q] == EMPTY
    ensures r != -1 ==> 1 <= r < upto && idx[r] != EMPTY
    ensures r != -1 ==> forall q :: r < q < upto ==> idx[q] == EMPTY
  {
    if upto <= 1 then -1
    else if idx[upto - 1] != EMPTY then upto - 1
    else LastUsed(idx, upto - 1)
  }

  /** The least used slot at or above `from`, or 0 (the primary). */
  function FirstUsed(idx: seq<int>, from: nat): (r: nat)
    requires 1 <= from
    ensures r == 0 ==> forall q :: from <= q < |idx| ==> idx[q] == EMPTY
    ensures r != 0 ==> from <= r < |idx| && idx[r] != EMPTY
    ensures r != 0 ==> forall q :: from <= q < r ==> idx[q] == EMPTY
    decreases |idx| - from
  {
    if from >= |idx| then 0
    else if idx[from] != EMPTY then from
    else FirstUsed(idx, from + 1)
  }

  /** The least slot at or above `from` whose coroutine is runnable, or 0. */
  function FirstLive(ycs: seq<YieldCtx>, from: nat): (r: nat)
    requires 1 <= from
    ensures r == 0 ==> forall q :: from <= q < |ycs| ==> ycs[q].normal == EMPTY
    ensures r != 0 ==> from <= r < |ycs| && ycs[r].normal != EMPTY
    ensures r != 0 ==> forall q :: from <= q < r ==> ycs[q].normal == EMPTY
    decreases |ycs| - from
  {
    if from >= |ycs| then 0
    else if ycs[from].normal != EMPTY then from
    else FirstLive(ycs, from + 1)
  }

  /** How many of the slots 1..n-1 are used. */
  function CountTo(idx: seq<int>, n: nat): (c: nat)
    requires n <= |idx|
  {
    if n <= 1 then 0 else CountTo(idx, n - 1) + if idx[n - 1] != EMPTY then 1 else 0
  }

  function Count(idx: seq<int>): (c: nat) {
    CountTo(idx, |idx|)
  }

  /** No used slot lies behind a hole. */
  predicate Prefix(idx: seq<int>) {
    forall q, r :: 1 <= q < r < |idx| && idx[q] == EMPTY ==> idx[r] == EMPTY
  }

  lemma {:induction false} CountToUpdate(idx: seq<int>, n: nat, q: nat, v: int)
    requires n <= |idx| && 1 <= q < |idx|
    ensures CountTo(idx[q := v], n) == CountTo(idx, n)
      + if q < n then (if v != EMPTY then 1 else 0) - (if idx[q] != EMPTY then 1 else 0) else 0
  {
    if n > 1 {
      CountToUpdate(idx, n - 1, q, v);
    }
  }

  /** The count is the number of used slots from 1 up. */
  lemma {:induction false} CountIsCard(idx: seq<int>, n: nat)
    requires n <= |idx|
    ensures CountTo(idx, n) == |set q | 1 <= q < n && idx[q] != EMPTY|
  {
    var used := set q | 1 <= q < n && idx[q] != EMPTY;
    if n <= 1 {
      assert used == {};
    } else {
      CountIsCard(idx, n - 1);
      var before := set q | 1 <= q < n - 1 && idx[q] != EMPTY;
      assert used == if idx[n - 1] != EMPTY then before + {n - 1} else before;
    }
  }

  /** Filling or clearing one slot changes the count by exactly that slot. */
  lemma CountUpdate(idx: seq<int>, q: nat, v: int)
    requires 1 <= q < |idx|
    ensures Count(idx[q := v]) == Count(idx)
      + (if v != EMPTY then 1 else 0) - (if idx[q] != EMPTY then 1 else 0)
  {
    CountToUpdate(idx, |idx|, q, v);
  }

  lemma {:induction false} CountToBounds(idx: seq<int>, n: nat)
    requires n <= |idx|
    ensures n >= 1 ==> CountTo(idx, n) <= n - 1
    ensures CountTo(idx, n) == 0 <==> forall q :: 1 <= q < n ==> idx[q] == EMPTY
    ensures n >= 1 ==> (CountTo(idx, n) == n - 1 <==> forall q :: 1 <= q < n ==> idx[q] != EMPTY)
  {
    if n > 1 {
      CountToBounds(idx, n - 1);
    }
  }

  lemma {:induction false} PrefixCountTo(idx: seq<int>, n: nat)
    requires n <= |idx| && Prefix(idx)
    ensures forall q :: 1 <= q < n ==> (idx[q] != EMPTY <==> q <= CountTo(idx, n))
  {
    CountToBounds(idx, n);
    if n > 1 {
      PrefixCountTo(idx, n - 1);
      CountToBounds(idx, n - 1);
    }
  }

  /** A hole-free list with n entries uses exactly the slots 1..n. */
  lemma PrefixSlots(idx: seq<int>)
    requires Prefix(idx) && 1 <= |idx|
    ensures Count(idx) <= |idx| - 1
    ensures forall q :: 1 <= q < |idx| ==> (idx[q] != EMPTY <==> q <= Count(idx))
    ensures FirstUsed(idx, 1) == (if Count(idx) == 0 then 0 else 1)
    ensures FirstFree(idx, 1) == (if Count(idx) == |idx| - 1 then -1 else Count(idx) + 1)
    ensures LastUsed(idx, |idx|) == (if Count(idx) == 0 then -1 else Count(idx))
  {
    PrefixCountTo(idx, |idx|);
    CountToBounds(idx, |idx|);
    var n := Count(idx);
    assert n < |idx| - 1 ==> idx[n + 1] == EMPTY;
    assert n > 0 ==> idx[n] != EMPTY && idx[1] != EMPTY;
  }

  /** push_back_to_list: the new list and the slot taken, -1 when there was none. */
  function PushBack(idx: seq<int>, item: int): (seq<int>, int)
    requires 1 <= |idx|
  {
    var q := FirstFree(idx, 1);
    if q == -1 then (idx, -1) else (idx[q := item], q)
  }

  /** pop_back_from_list: the new list, the item and its slot, -1 when the list was empty. */
  function PopBack(idx: seq<int>): (seq<int>, int, int) {
    var q := LastUsed(idx, |idx|);
    if q == -1 then (idx, EMPTY, -1) else (idx[q := EMPTY], idx[q], q)
  }

  /** Pushing onto a hole-free list keeps it hole-free and lands right behind its last entry. */
  lemma PushKeepsPrefix(idx: seq<int>, item: int)
    requires Prefix(idx) && 1 <= |idx| && item != EMPTY
    ensures Prefix(PushBack(idx, item).0)
    ensures PushBack(idx, item).1 != -1 ==>
              && PushBack(idx, item).1 == Count(idx) + 1
              && Count(PushBack(idx, item).0) == Count(idx) + 1
    ensures PushBack(idx, item).1 == -1 <==> Count(idx) == |idx| - 1
  {
    PrefixSlots(idx);
    var q := FirstFree(idx, 1);
    if q != -1 {
      CountUpdate(idx, q, item);
    }
  }

  lemma PopKeepsPrefix(idx: seq<int>)
    requires Prefix(idx) && 1 <= |idx|
    ensures Prefix(PopBack(idx).0)
    ensures PopBack(idx).2 != -1 ==>
              && PopBack(idx).2 == Count(idx)
              && Count(PopBack(idx).0) == Count(idx) - 1
    ensures PopBack(idx).2 == -1 <==> Count(idx) == 0
  {
    PrefixSlots(idx);
    var q := LastUsed(idx, |idx|);
    if q != -1 {
      CountUpdate(idx, q, EMPTY);
    }
  }

  /**
    The rollback of a failed steal pushes the popped entry back. It restores the list exactly
    when the list had no hole; with a hole, the entry returns to another slot than its context.
   */
  lemma RollbackIffPrefix(idx: seq<int>)
    requires 1 <= |idx| && LastUsed(idx, |idx|) != -1
    ensures PushBack(PopBack(idx).0, PopBack(idx).1).0 == idx <==> Prefix(idx)
    ensures Prefix(idx) ==> PushBack(PopBack(idx).0, PopBack(idx).1).1 == PopBack(idx).2
  {
    var last := LastUsed(idx, |idx|);
    var popped := idx[last := EMPTY];
    var back := FirstFree(popped, 1);
    assert popped[last] == EMPTY;
    assert 1 <= back <= last;
    if back == last {
      assert popped[back := idx[last]] == idx;
      assert forall q :: 1 <= q < last ==> popped[q] == idx[q] != EMPTY;
    } else {
      assert idx[back] == popped[back] == EMPTY && idx[last] != EMPTY;
      assert popped[back := idx[last]][last] == EMPTY;
    }
  }
}
