/**
  The tables of libmsh as mutable arrays and the functions of libmsh/msh.c as methods on them. Each
  method is proved against the function of the value model that bears its meaning; the theorems of
  the other modules are about those functions.
 */
module Runtime {
  import opened Wrappers
  import opened Tables
  import opened SlotList
  import opened Scheduler
  import opened Allocator
  import Events
  import Protocol

  /** struct primary_thread_ctx of one thread, with SCAV_TABLE in reach. */
  class ThreadCtx {
    const tid: nat
    const ycs: array<YieldCtx>
    const regs: array<RegSet>
    const idx: array<int>
    const scavs: array<Scav>
    var scavNum: int
    var reallocatable: bool
    var reallocated: bool

    /** The thread's context as a value. */
    ghost function Prim(): Tables.Prim
      reads this, ycs, regs, idx
    {
      Tables.Prim(ycs[..], regs[..], idx[..], scavNum, reallocatable, reallocated)
    }

    ghost function View(): Local
      reads this, ycs, regs, idx, scavs
    {
      Local(Prim(), scavs[..])
    }

    ghost predicate Valid()
      reads this, ycs, regs, idx, scavs
    {
      Sound(View())
    }

    /** init_prim_table for one thread: no scavengers, nothing runnable, both flags down. */
    constructor (tid: nat, slots: nat, scavs: array<Scav>)
      requires 1 <= slots
      ensures Valid() && fresh(ycs) && fresh(regs) && fresh(idx)
      ensures this.tid == tid && this.scavs == scavs && idx.Length == slots
      ensures Protocol.FreshPrim(Prim())
    {
      this.tid := tid;
      this.scavs := scavs;
      ycs := new YieldCtx[slots](_ => YieldCtx(0, 0, 0, EMPTY));
      regs := new RegSet[slots](_ => []);
      idx := new int[slots](_ => EMPTY);
      scavNum := 0;
      reallocatable := false;
      reallocated := false;
    }

    // ----- List macros and scans -----------------------------------------------------------------

    method PushBack(item: int) returns (pos: int)
      requires 1 <= idx.Length
      modifies idx
      ensures (idx[..], pos) == SlotList.PushBack(old(idx[..]), item)
    {
      pos := -1;
      var i := 1;
      while i < idx.Length
        invariant 1 <= i <= idx.Length && idx[..] == old(idx[..])
        invariant FirstFree(idx[..], 1) == FirstFree(idx[..], i)
      {
        if idx[i] == EMPTY {
          idx[i] := item;
          return i;
        }
        i := i + 1;
      }
    }

    method PopBack() returns (item: int, pos: int)
      requires 1 <= idx.Length
      modifies idx
      ensures (idx[..], item, pos) == SlotList.PopBack(old(idx[..]))
    {
      item, pos := EMPTY, -1;
      var i := idx.Length - 1;
      while i > 0
        invariant 0 <= i < idx.Length && idx[..] == old(idx[..])
        invariant LastUsed(idx[..], idx.Length) == LastUsed(idx[..], i + 1)
      {
        if idx[i] != EMPTY {
          item := idx[i];
          idx[i] := EMPTY;
          return item, i;
        }
        i := i - 1;
      }
    }

    /** tl_next_available_crt. */
    method NextAvailable() returns (pos: nat)
      requires 1 <= ycs.Length
      ensures pos == FirstLive(ycs[..], 1)
    {
      pos := 1;
      while pos < ycs.Length
        invariant 1 <= pos <= ycs.Length
        invariant FirstLive(ycs[..], 1) == FirstLive(ycs[..], pos)
      {
        if ycs[pos].normal != EMPTY {
          return;
        }
        pos := pos + 1;
      }
      pos := 0;
    }

    /** tl_find_unfinished_crt. */
    method FindUnfinished() returns (pos: nat)
      requires 1 <= idx.Length
      ensures pos == FirstUsed(idx[..], 1)
    {
      pos := FindUsed(1);
    }

    method FindUsed(from: nat) returns (pos: nat)
      requires 1 <= from <= idx.Length
      ensures pos == FirstUsed(idx[..], from)
    {
      pos := from;
      while pos < idx.Length
        invariant from <= pos <= idx.Length
        invariant FirstUsed(idx[..], from) == FirstUsed(idx[..], pos)
      {
        if idx[pos] != EMPTY {
          return;
        }
        pos := pos + 1;
      }
      pos := 0;
    }

    /** need_more_scav. */
    method NeedMore(max: int) returns (need: nat)
      requires 1 <= idx.Length
      ensures need == Allocator.NeedMore(Prim(), max)
    {
      var counts, i := 0, 1;
      while i < idx.Length
        invariant 1 <= i <= idx.Length && counts == CountTo(idx[..], i)
      {
        if idx[i] != EMPTY {
          counts := counts + 1;
        }
        i := i + 1;
      }
      need := if counts < max then max - counts else 0;
    }

    // ----- Links ---------------------------------------------------------------------------------

    method UpdateNextMap()
      requires Valid()
      modifies ycs
      ensures View() == old(View()).(p := Scheduler.UpdateNextMap(old(Prim())))
      ensures old(ycs[0].normal) == EMPTY ==> ycs[..] == old(ycs[..])
      ensures old(ycs[0].normal) != EMPTY ==>
        ycs[..] == old(ycs[..])[0 := old(ycs[0]).(normal := 20 * FirstLive(old(ycs[..]), 1))]
    {
      if ycs[0].normal != EMPTY {
        var next := NextAvailable();
        ycs[0] := ycs[0].(normal := YC_SIZE * next);
      }
    }

    method SetSpecialNext()
      requires Valid()
      modifies ycs
      ensures View() == old(View()).(p := Scheduler.SetSpecialNext(old(Prim())))
      ensures ycs[0] == old(ycs[0])
      ensures forall q :: 1 <= q < idx.Length - 1 ==>
        ycs[q] == old(ycs[q]).(special := if idx[q + 1] == EMPTY then 0 else 20 * (q + 1))
      ensures idx.Length > 1 ==>
        var last := idx.Length - 1;
        ycs[last] == old(ycs[last]).(special := if scavNum == EMPTY then 0 else 20 * idx.Length)
    {
      ghost var p := Prim();
      var pos := 1;
      while pos < ycs.Length
        invariant 1 <= pos <= ycs.Length
        invariant forall q :: 0 <= q < ycs.Length ==>
          ycs[q] == if 1 <= q < pos then p.ycs[q].(special := SpecialAt(p, q)) else p.ycs[q]
      {
        if pos == ycs.Length - 1 {
          ycs[pos] := ycs[pos].(special := 0);
        }
        // one past the list lies scav_num
        var next := if pos + 1 < idx.Length then idx[pos + 1] else scavNum;
        ycs[pos] := ycs[pos].(special := if next == EMPTY then 0 else (pos + 1) * YC_SIZE);
        pos := pos + 1;
      }
      assert ycs[..] == Scheduler.SetSpecialNext(p).ycs;
    }

    // ----- Swap, finish, pack --------------------------------------------------------------------

    /** tl_swap_crts; the writes to the scavenger table are guarded as those to crt_pos are. */
    method Swap(a: nat, b: nat)
      requires Valid() && a < b < idx.Length
      modifies ycs, regs, idx, scavs
      ensures View() == Scheduler.Swap(old(View()), tid, a, b)
      ensures idx[..] == old(idx[..])[a := old(idx[b])][b := old(idx[a])]
      ensures regs[..] == old(regs[..])[a := old(regs[b])][b := old(regs[a])]
      ensures Exchanged(old(ycs[..]), ycs[..], a, b)
      ensures Informed(old(scavs[..]), scavs[..], old(idx[a]), old(idx[b]), a, b)
    {
      var aIdx, bIdx := idx[a], idx[b];
      Retarget(aIdx, bIdx, a, b);
      SwapLists(a, b);
    }

    /** Slots a and b have changed places, and so have the numbers a and b wherever `normal` holds one. */
    ghost predicate Exchanged(was: seq<YieldCtx>, now: seq<YieldCtx>, a: nat, b: nat) {
      && |now| == |was| && a < |was| && b < |was|
      && forall q :: 0 <= q < |was| ==>
        var y := was[if q == a then b else if q == b then a else q];
        && now[q].sp == y.sp && now[q].ip == y.ip && now[q].special == y.special
        && (y.normal == a ==> now[q].normal == b)
        && (y.normal == b ==> now[q].normal == a)
        && (y.normal != a && y.normal != b ==> now[q].normal == y.normal)
    }

    /** The scavenger from slot b points to slot a and has position a, the one from slot a the reverse. */
    ghost predicate Informed(was: seq<Scav>, now: seq<Scav>, aIdx: int, bIdx: int, a: nat, b: nat) {
      && |now| == |was|
      && forall i :: 0 <= i < |was| ==>
        if i == bIdx then now[i].yc == Some(Loc(tid, a)) && now[i] == was[i].(yc := now[i].yc, crtPos := a)
        else if i == aIdx then now[i].yc == Some(Loc(tid, b)) && now[i] == was[i].(yc := now[i].yc, crtPos := b)
        else now[i] == was[i]
    }

    /** The two scavengers learn their new slots. */
    method Retarget(aIdx: int, bIdx: int, a: nat, b: nat)
      requires -1 <= aIdx < scavs.Length && -1 <= bIdx < scavs.Length
      modifies scavs
      ensures scavs[..] == MoveScav(MoveScav(old(scavs[..]), aIdx, Loc(tid, b)), bIdx, Loc(tid, a))
    {
      if aIdx != EMPTY {
        scavs[aIdx] := scavs[aIdx].(yc := Some(Loc(tid, b)));
      }
      if bIdx != EMPTY {
        scavs[bIdx] := scavs[bIdx].(yc := Some(Loc(tid, a)));
      }
      if aIdx != EMPTY {
        scavs[aIdx] := scavs[aIdx].(crtPos := b);
      }
      if bIdx != EMPTY {
        scavs[bIdx] := scavs[bIdx].(crtPos := a);
      }
    }

    method SwapLists(a: nat, b: nat)
      requires Valid() && a < b < idx.Length
      modifies ycs, regs, idx
      ensures Prim() == SwapPrim(old(Prim()), a, b)
      ensures idx[..] == old(idx[..])[a := old(idx[b])][b := old(idx[a])]
      ensures regs[..] == old(regs[..])[a := old(regs[b])][b := old(regs[a])]
      ensures Exchanged(old(ycs[..]), ycs[..], a, b)
    {
      idx[a], idx[b] := idx[b], idx[a];
      ycs[a], ycs[b] := ycs[b], ycs[a];
      ghost var swapped := ycs[..];
      RewriteNormals(a, b);
      regs[a], regs[b] := regs[b], regs[a];
      assert swapped == old(ycs[..])[a := old(ycs[..])[b]][b := old(ycs[..])[a]];
      assert ycs[..] == SwapPrim(old(Prim()), a, b).ycs;
    }

    /** The loop of tl_swap_crts that exchanges a and b wherever `normal` holds one of them. */
    method RewriteNormals(a: nat, b: nat)
      modifies ycs
      ensures forall q :: 0 <= q < ycs.Length ==>
        ycs[q] == old(ycs[q]).(normal := SwapNormal(old(ycs[q]).normal, a, b))
    {
      var pos := 0;
      while pos < ycs.Length
        invariant 0 <= pos <= ycs.Length
        invariant forall q :: 0 <= q < pos ==>
          ycs[q] == old(ycs[q]).(normal := SwapNormal(old(ycs[q]).normal, a, b))
        invariant forall q :: pos <= q < ycs.Length ==> ycs[q] == old(ycs[q])
      {
        if ycs[pos].normal == a {
          ycs[pos] := ycs[pos].(normal := b);
        } else if ycs[pos].normal == b {
          ycs[pos] := ycs[pos].(normal := a);
        }
        pos := pos + 1;
      }
    }

    /** tl_finish_crt. */
    method Finish(pos: nat)
      requires Valid() && pos < idx.Length
      modifies ycs, idx, scavs
      ensures View() == Scheduler.Finish(old(View()), pos)
      ensures ycs[..] == old(ycs[..])[pos := old(ycs[pos]).(normal := EMPTY)]
      ensures old(idx[pos]) == EMPTY ==> idx[..] == old(idx[..]) && scavs[..] == old(scavs[..])
      ensures old(idx[pos]) != EMPTY ==>
        var i := old(idx[pos]);
        && idx[..] == old(idx[..])[pos := EMPTY]
        && scavs[..] == old(scavs[..])[i := old(scavs[i]).(yc := None, finished := true)]
    {
      var crt := idx[pos];
      ycs[pos] := ycs[pos].(normal := EMPTY);
      if crt == EMPTY {
        return;
      }
      idx[pos] := EMPTY;
      scavs[crt] := scavs[crt].(yc := None);
      scavs[crt] := scavs[crt].(finished := true);
    }

    /** tl_pack_crts. */
    method Pack()
      requires Valid()
      modifies ycs, regs, idx, scavs
      ensures View() == Scheduler.Pack(old(View()), tid)
    {
      if ycs[0].normal == EMPTY {
        return;
      }
      hide IdxInRange, Scheduler.Swap;
      var pos := 1;
      while pos < idx.Length
        invariant 1 <= pos <= idx.Length && Valid()
        invariant PackFrom(View(), tid, pos) == PackFrom(old(View()), tid, 1)
        invariant scavNum == old(scavNum) && reallocatable == old(reallocatable) && reallocated == old(reallocated)
      {
        if idx[pos] == EMPTY {
          var next := FindUsed(pos + 1);
          if next != 0 {
            Swap(pos, next);
          }
        }
        pos := pos + 1;
      }
      SetSpecialNext();
    }
  }

  // ----- Stealing --------------------------------------------------------------------------------

  /** Two threads' contexts share nothing but the scavenger table. */
  ghost predicate Separate(a: ThreadCtx, b: ThreadCtx) {
    a != b && a.ycs != b.ycs && a.regs != b.regs && a.idx != b.idx && a.scavs == b.scavs
  }

  ghost function PairOf(from: ThreadCtx, to: ThreadCtx): Pair
    reads from, from.ycs, from.regs, from.idx, to, to.ycs, to.regs, to.idx, to.scavs
  {
    Pair(from.Prim(), to.Prim(), to.scavs[..])
  }

  /** One round of the loop of realloc_scav. */
  method StealRound(from: ThreadCtx, to: ThreadCtx) returns (o: StealOutcome)
    requires Separate(from, to) && from.Valid() && to.Valid()
    modifies from`reallocated, from.ycs, from.idx, to.ycs, to.regs, to.idx, to.scavs
    ensures (PairOf(from, to), o) == StealOne(old(PairOf(from, to)), to.tid)
    ensures
      var f, q := LastUsed(old(from.idx[..]), from.idx.Length), FirstFree(old(to.idx[..]), 1);
      o == (if f == -1 then NoneLeft else if q == -1 then NoRoom else Moved)
      && (o.Moved? ==>
        var i := old(from.idx[f]);
        && from.idx[..] == old(from.idx[..])[f := EMPTY] && to.idx[..] == old(to.idx[..])[q := i]
        && from.ycs[..] == old(from.ycs[..])[f := old(from.ycs[f]).(normal := EMPTY)] && from.reallocated
        && to.regs[..] == old(to.regs[..])[q := old(from.regs[f])]
        && to.ycs[q] == YieldCtx(old(from.ycs[f].sp), old(from.ycs[f].ip), old(to.ycs[q].special), 0)
        && to.ycs[0] == old(to.ycs[0]).(normal := 20)
        && (forall r :: 1 <= r < to.ycs.Length && r != q ==> to.ycs[r] == old(to.ycs[r]))
        && to.scavs[..] == old(to.scavs[..])[i := old(to.scavs[i]).(yc := Some(Loc(to.tid, q)), crtPos := q)])
  {
    var crt, f := from.PopBack();
    if f == -1 {
      return NoneLeft;
    }
    var q := to.PushBack(crt);
    if q == -1 {
      var _ := from.PushBack(crt);
      return NoRoom;
    }
    HandOver(from, f, to, q, crt);
    o := Moved;
  }

  /** The part of a round behind the last rollback: contexts, links, register sets, crt_pos, yc. */
  method HandOver(from: ThreadCtx, f: nat, to: ThreadCtx, q: nat, crt: nat)
    requires Separate(from, to) && from.Valid() && to.Valid()
    requires f < from.idx.Length && q < to.idx.Length && crt < to.scavs.Length
    modifies from`reallocated, from.ycs, to.ycs, to.regs, to.scavs
    ensures from.Prim() == SetNormal(old(from.Prim()), f, EMPTY).(reallocated := true)
    ensures to.Prim() == Received(old(to.Prim()), q, to.idx[q], SavedAt(old(from.Prim()), f))
    ensures to.scavs[..] == MoveScav(old(to.scavs[..]), crt, Loc(to.tid, q))
  {
    hide IdxInRange, FirstLive;
    to.ycs[q] := YieldCtx(from.ycs[f].sp, from.ycs[f].ip, to.ycs[q].special, 0);
    from.ycs[f] := from.ycs[f].(normal := EMPTY);
    to.UpdateNextMap();
    to.ycs[0] := to.ycs[0].(normal := YC_SIZE);
    to.regs[q] := from.regs[f];
    to.scavs[crt] := to.scavs[crt].(crtPos := q);
    to.scavs[crt] := to.scavs[crt].(yc := Some(Loc(to.tid, q)));
    from.reallocated := true;
  }

  /** realloc_scav. */
  method ReallocScav(from: ThreadCtx, to: ThreadCtx, demands: nat) returns (cnt: nat)
    requires Separate(from, to) && from.Valid() && to.Valid()
    modifies from`reallocated, from.ycs, from.idx, to.ycs, to.regs, to.idx, to.scavs
    ensures (PairOf(from, to), cnt) == Realloc(old(PairOf(from, to)), to.tid, demands, 0)
  {
    cnt := 0;
    while cnt < demands
      invariant cnt <= demands && SoundPair(PairOf(from, to))
      invariant Realloc(PairOf(from, to), to.tid, demands, cnt)
        == Realloc(old(PairOf(from, to)), to.tid, demands, 0)
    {
      var o := StealRound(from, to);
      if !o.Moved? {
        return;
      }
      cnt := cnt + 1;
    }
  }

  /** The body of the donor loop: take the flag, steal, give the flag back. */
  method TakeFlagAndSteal(from: ThreadCtx, to: ThreadCtx, demands: nat) returns (cnt: nat)
    requires Separate(from, to) && from.Valid() && to.Valid() && from.reallocatable
    modifies from`reallocatable, from`reallocated, from.ycs, from.idx, to.ycs, to.regs, to.idx, to.scavs
    ensures (PairOf(from, to), cnt) == Realloc(old(PairOf(from, to)), to.tid, demands, 0)
  {
    hide Realloc, IdxInRange;
    ghost var x := PairOf(from, to);
    from.reallocatable := false;
    assert PairOf(from, to) == x.(from := x.from.(reallocatable := false));
    cnt := ReallocScav(from, to, demands);
    from.reallocatable := true;
    FlagIsApart(x, to.tid, demands, 0);
    StealKeepsFlags(x, to.tid, demands, 0);
  }

  // ----- The tables together -----------------------------------------------------------------------

  /** PRIM_TABLE: thread d sits at index d, and no two contexts share an array. */
  ghost predicate Table(ps: seq<ThreadCtx>, scavs: array<Scav>, slots: nat) {
    && 1 <= slots
    && (forall d :: 0 <= d < |ps| ==> ps[d].tid == d && ps[d].scavs == scavs)
    && (forall d :: 0 <= d < |ps| ==>
      ps[d].idx.Length == slots && ps[d].ycs.Length == slots && ps[d].regs.Length == slots)
    && (forall d, e :: 0 <= d < |ps| && 0 <= e < |ps| && d != e ==> Separate(ps[d], ps[e]))
  }

  /** The tables hold exactly the value w. */
  ghost predicate Shows(ps: seq<ThreadCtx>, scavs: array<Scav>, w: World)
    reads ps, (set c <- ps :: c.ycs), (set c <- ps :: c.regs), (set c <- ps :: c.idx), scavs
  {
    && |w.prims| == |ps| && w.ss == scavs[..]
    && forall d :: 0 <= d < |ps| ==> ps[d].Prim() == w.prims[d]
  }

  /** The pool loop of _allocate_scav. */
  method TakeFromPool(c: ThreadCtx, got: nat, demands: nat) returns (total: nat)
    requires c.Valid() && got < demands
    modifies c.ycs, c.idx, c.scavs
    ensures (c.View(), total) == PoolFrom(old(c.View()), c.tid, 0, got, demands)
  {
    hide PoolOne, IdxInRange;
    total := got;
    var i := 0;
    while i < c.scavs.Length
      invariant 0 <= i <= c.scavs.Length && total < demands && c.Valid()
      invariant PoolFrom(c.View(), c.tid, i, total, demands) == PoolFrom(old(c.View()), c.tid, 0, got, demands)
    {
      PoolSkips(c.View(), c.tid, i);
      if c.scavs[i].loaded && !c.scavs[i].yc.Some? && !c.scavs[i].finished {
        var pos := PlaceFromPool(c, i);
        if pos == -1 {
          return;
        }
        total := total + 1;
        if total >= demands {
          return;
        }
      }
      i := i + 1;
    }
  }

  lemma PoolSkips(l: Local, t: nat, i: nat)
    requires Sound(l) && i < |l.ss|
    ensures !InPool(l.ss[i]) <==> PoolOne(l, t, i).1.Skipped?
    ensures !InPool(l.ss[i]) ==> PoolOne(l, t, i).0 == l
  {
  }

  method PlaceFromPool(c: ThreadCtx, i: nat) returns (pos: int)
    requires c.Valid() && i < c.scavs.Length && InPool(c.scavs[i])
    modifies c.ycs, c.idx, c.scavs
    ensures (c.View(), if pos == -1 then Full else Taken) == PoolOne(old(c.View()), c.tid, i)
    ensures pos == FirstFree(old(c.idx[..]), 1)
    ensures pos != -1 ==>
      && c.idx[..] == old(c.idx[..])[pos := i]
      && c.ycs[..] == old(c.ycs[..])[pos :=
        YieldCtx(old(c.scavs[i].retToSched), old(c.scavs[i].entry), old(c.ycs[pos].special), 0)]
      && c.scavs[..] == old(c.scavs[..])[i := old(c.scavs[i]).(yc := Some(Loc(c.tid, pos)), crtPos := 20 * pos)]
  {
    pos := c.PushBack(i);
    if pos != -1 {
      c.ycs[pos] := c.ycs[pos].(sp := c.scavs[i].retToSched);
      c.ycs[pos] := c.ycs[pos].(ip := c.scavs[i].entry);
      c.ycs[pos] := c.ycs[pos].(normal := 0);
      c.scavs[i] := c.scavs[i].(crtPos := pos * YC_SIZE);
      c.scavs[i] := c.scavs[i].(yc := Some(Loc(c.tid, pos)));
      ghost var l := PoolOne(old(c.View()), c.tid, i).0;
      assert c.ycs[..] == l.p.ycs && c.scavs[..] == l.ss;
    }
  }

  /** The donor loop of _allocate_scav: every thread whose flag can be taken gives what it has. */
  method TakeFromDonors(ps: seq<ThreadCtx>, scavs: array<Scav>, t: nat, demands: nat, ghost w: World, ghost slots: nat)
    returns (got: nat, ghost w': World)
    requires Table(ps, scavs, slots) && Shows(ps, scavs, w) && WorldShape(w, slots)
    requires t < |ps| && !w.prims[t].reallocatable && 1 <= demands
    modifies ps, (set c <- ps :: c.ycs), (set c <- ps :: c.regs), (set c <- ps :: c.idx), scavs
    ensures (w', got) == DonorsFrom(w, t, 0, 0, demands, slots) && Shows(ps, scavs, w')
  {
    hide Realloc, WorldShape, Shows;
    got, w' := 0, w;
    FlagShown(ps, scavs, w, t);
    var d := 0;
    while d < |ps|
      invariant 0 <= d <= |ps| && got < demands
      invariant |w'.prims| == |ps| && Shows(ps, scavs, w') && WorldShape(w', slots)
      invariant !w'.prims[t].reallocatable
      invariant DonorsFrom(w', t, d, got, demands, slots) == DonorsFrom(w, t, 0, 0, demands, slots)
    {
      FlagShown(ps, scavs, w', d);
      if ps[d].reallocatable {
        var cnt;
        cnt, w' := RobDonor(ps, scavs, t, d, demands, w', slots);
        got := got + cnt;
        if got >= demands {
          return;
        }
      }
      d := d + 1;
    }
  }

  lemma FlagShown(ps: seq<ThreadCtx>, scavs: array<Scav>, w: World, d: nat)
    requires Shows(ps, scavs, w) && d < |ps|
    ensures |w.prims| == |ps| && ps[d].reallocatable == w.prims[d].reallocatable
  {
  }

  /** Take donor d's flag, steal, give the flag back. */
  method RobDonor(ps: seq<ThreadCtx>, scavs: array<Scav>, t: nat, d: nat, demands: nat, ghost w: World, ghost slots: nat)
    returns (cnt: nat, ghost w': World)
    requires Table(ps, scavs, slots) && Shows(ps, scavs, w) && WorldShape(w, slots)
    requires t < |ps| && d < |ps| && d != t && w.prims[d].reallocatable
    modifies ps, (set c <- ps :: c.ycs), (set c <- ps :: c.regs), (set c <- ps :: c.idx), scavs
    ensures SoundPair(Pair(w.prims[d], w.prims[t], w.ss))
    ensures
      var (y, n) := Realloc(Pair(w.prims[d], w.prims[t], w.ss), t, demands, 0);
      cnt == n && w' == World(w.prims[d := y.from][t := y.to], y.ss)
    ensures Shows(ps, scavs, w') && WorldShape(w', slots)
    ensures w'.prims[t].reallocatable == w.prims[t].reallocatable
  {
    hide Realloc, IdxInRange;
    ghost var x := Pair(w.prims[d], w.prims[t], w.ss);
    StealKeepsFlags(x, t, demands, 0);
    ghost var y := Realloc(x, t, demands, 0).0;
    w' := World(w.prims[d := y.from][t := y.to], y.ss);
    assert Separate(ps[d], ps[t]);
    cnt := TakeFlagAndSteal(ps[d], ps[t], demands);
    forall e | 0 <= e < |ps| && e != d && e != t ensures ps[e].Prim() == w'.prims[e] {
      assert Separate(ps[e], ps[d]) && Separate(ps[e], ps[t]);
    }
  }

  /** _allocate_scav, under the lock. */
  method AllocateLocked(ps: seq<ThreadCtx>, scavs: array<Scav>, t: nat, demands: nat, ghost w: World, ghost slots: nat)
    returns (got: nat, ghost w': World)
    requires Table(ps, scavs, slots) && Shows(ps, scavs, w) && WorldShape(w, slots)
    requires t < |ps| && !w.prims[t].reallocatable && 1 <= demands
    modifies ps, (set c <- ps :: c.ycs), (set c <- ps :: c.regs), (set c <- ps :: c.idx), scavs
    ensures (w', got) == Allocator.AllocateLocked(w, t, demands, slots) && Shows(ps, scavs, w')
    ensures got <= 2 * demands - 1
    ensures got < demands ==>
      || FirstFree(w'.prims[t].idx, 1) == -1
      || forall j :: 0 <= j < |w'.ss| && w'.ss[j].loaded ==> w'.ss[j].yc.Some? || w'.ss[j].finished
  {
    hide DonorsFrom, PoolFrom, IdxInRange, FirstFree;
    AllocationConservesWork(w, t, demands, slots);
    got, w' := TakeFromDonors(ps, scavs, t, demands, w, slots);
    if got < demands {
      ghost var l := PoolFrom(LocalOf(w', t), t, 0, got, demands).0;
      got := TakeFromPool(ps[t], got, demands);
      OthersShown(ps, scavs, t);
      w' := WithLocal(w', t, l);
    }
  }

  lemma OthersShown(ps: seq<ThreadCtx>, scavs: array<Scav>, t: nat)
    requires t < |ps| && exists slots :: Table(ps, scavs, slots)
    ensures forall e :: 0 <= e < |ps| && e != t ==> Separate(ps[e], ps[t])
  {
    var slots :| Table(ps, scavs, slots);
  }

  /** call_init_for_new_scav; env says what each init function leaves in the slot it ran in. */
  method CallInit(c: ThreadCtx, env: InitEnv)
    requires c.Valid()
    modifies c.ycs, c.regs, c.scavs
    ensures c.View() == InitFrom(old(c.View()), 1, env)
  {
    var pos := 1;
    while pos < c.idx.Length
      invariant 1 <= pos <= c.idx.Length && c.Valid()
      invariant InitFrom(c.View(), pos, env) == InitFrom(old(c.View()), 1, env)
    {
      var crt := c.idx[pos];
      if crt != EMPTY && !c.scavs[crt].inited && c.scavs[crt].hasInit {
        RunInit(c, pos, crt, env(crt));
      }
      pos := pos + 1;
    }
  }

  /** The scavenger is its own successor while init runs; its yield context is put back afterwards. */
  method RunInit(c: ThreadCtx, pos: nat, crt: nat, e: InitEffect)
    requires c.Valid() && pos < c.idx.Length && c.idx[pos] == crt && crt < c.scavs.Length
    requires NeedsInit(c.scavs[crt])
    modifies c.ycs, c.regs, c.scavs
    ensures c.View() == InitOne(old(c.View()), pos, e)
    ensures c.ycs[..] == old(c.ycs[..]) && c.regs[..] == old(c.regs[..])[pos := e.regs]
    ensures c.scavs[..] == old(c.scavs[..])[crt :=
      old(c.scavs[crt]).(inited := true, initCalls := old(c.scavs[crt].initCalls) + 1)]
  {
    var sp, ip, normal, special := c.ycs[pos].sp, c.ycs[pos].ip, c.ycs[pos].normal, c.ycs[pos].special;
    c.ycs[pos] := c.ycs[pos].(normal := pos * YC_SIZE, special := pos * YC_SIZE);
    // init(): the instrumented code saves into the slot it runs in
    c.ycs[pos] := c.ycs[pos].(sp := e.sp, ip := e.ip);
    c.regs[pos] := e.regs;
    c.scavs[crt] := c.scavs[crt].(initCalls := c.scavs[crt].initCalls + 1);
    c.scavs[crt] := c.scavs[crt].(inited := true);
    c.ycs[pos] := YieldCtx(sp, ip, special, normal);
    ghost var l := InitOne(old(c.View()), pos, e);
    assert c.ycs[..] == l.p.ycs && c.scavs[..] == l.ss;
  }

  /** allocate_scav. */
  method AllocateScav(ps: seq<ThreadCtx>, scavs: array<Scav>, t: nat, max: int, env: InitEnv, ghost w: World, ghost slots: nat)
    returns (got: nat, ghost w': World)
    requires Table(ps, scavs, slots) && Shows(ps, scavs, w) && WorldShape(w, slots)
    requires t < |ps| && !w.prims[t].reallocatable
    modifies ps, (set c <- ps :: c.ycs), (set c <- ps :: c.regs), (set c <- ps :: c.idx), scavs
    ensures (w', got) == Allocator.AllocateScav(w, t, max, env, slots) && Shows(ps, scavs, w')
  {
    hide Allocator.AllocateLocked, InitFrom, IdxInRange, Scheduler.SetSpecialNext;
    var need := ps[t].NeedMore(max);
    if need == 0 {
      return 0, w;
    }
    got, w' := AllocateLocked(ps, scavs, t, need, w, slots);
    ghost var l := InitFrom(LocalOf(w', t), 1, env);
    OthersShown(ps, scavs, t);
    CallInit(ps[t], env);
    ps[t].SetSpecialNext();
    w' := WithLocal(w', t, l.(p := Scheduler.SetSpecialNext(l.p)));
  }

  /** init_primary_ctx. */
  method InitPrimaryCtx(c: ThreadCtx, counts: nat)
    requires c.Valid()
    modifies c, c.ycs
    ensures c.View() == old(c.View()).(p := Allocator.InitPrimaryCtx(old(c.Prim()), counts))
    ensures c.ycs[..] == old(c.ycs[..])[0 := old(c.ycs[0]).(normal := if counts == 0 then 0 else 20)]
    ensures c.scavNum == counts && !c.reallocatable && !c.reallocated
  {
    c.ycs[0] := c.ycs[0].(normal := if counts > 0 then YC_SIZE else 0);
    c.scavNum := counts;
    c.reallocatable := false;
    c.reallocated := false;
  }

  /** msh_alloc_ctx: -1 without touching anything when the thread table is full. */
  method AllocCtx(ps: seq<ThreadCtx>, scavs: array<Scav>, tid: nat, max: int, env: InitEnv, ghost w: World, ghost slots: nat)
    returns (err: int, ghost w': World)
    requires Table(ps, scavs, slots) && Shows(ps, scavs, w) && WorldShape(w, slots)
    requires tid < |ps| ==> !w.prims[tid].reallocatable
    modifies ps, (set c <- ps :: c.ycs), (set c <- ps :: c.regs), (set c <- ps :: c.idx), scavs
    ensures err == -1 <==> tid >= |ps|
    ensures err == -1 || err == 0
    ensures Shows(ps, scavs, w')
    ensures tid >= |ps| ==> w' == w
    ensures tid < |ps| ==>
      var (w1, got) := Allocator.AllocateScav(w, tid, max, env, slots);
      w' == w1.(prims := w1.prims[tid := Allocator.InitPrimaryCtx(w1.prims[tid], got)])
  {
    hide Allocator.AllocateScav, IdxInRange;
    if tid >= |ps| {
      return -1, w;
    }
    var got;
    got, w' := AllocateScav(ps, scavs, tid, max, env, w, slots);
    OthersShown(ps, scavs, tid);
    InitPrimaryCtx(ps[tid], got);
    w' := w'.(prims := w'.prims[tid := Allocator.InitPrimaryCtx(w'.prims[tid], got)]);
    err := 0;
  }

  // ----- Events ------------------------------------------------------------------------------------

  /** tl_sched_next_crt: the slot that is resumed, 0 in cleanup meaning the jump back. */
  method SchedNext(ps: seq<ThreadCtx>, scavs: array<Scav>, t: nat, ret: nat, max: int, env: InitEnv,
                   finishedCnt: int, ghost w: World, ghost slots: nat)
    returns (cur: int, cnt: int, ghost w': World)
    requires Table(ps, scavs, slots) && Shows(ps, scavs, w) && WorldShape(w, slots)
    requires t < |ps| && !w.prims[t].reallocatable && Events.Decode(ret) < slots
    modifies ps, (set c <- ps :: c.ycs), (set c <- ps :: c.regs), (set c <- ps :: c.idx), scavs
    ensures (w', cur) == Events.SchedNext(w, t, ret, max, env, slots) && Shows(ps, scavs, w')
    ensures cnt == finishedCnt + if Events.Decode(ret) == 0 then 0 else 1
  {
    hide Allocator.AllocateScav, IdxInRange, Scheduler.Pack, Scheduler.Finish, Scheduler.UpdateNextMap, FirstUsed, FirstLive;
    var c, pos := ps[t], ret / YC_SIZE;
    cnt := if pos != 0 then finishedCnt + 1 else finishedCnt;
    cur := Events.NextOf(c.ycs[pos].normal);
    ghost var l1 := Scheduler.Finish(LocalOf(w, t), pos);
    EventKeepsFlag(LocalOf(w, t), pos);
    ghost var l2 := Scheduler.Pack(l1.(p := Scheduler.UpdateNextMap(l1.p)), t);
    OthersShown(ps, scavs, t);
    FinishAndPack(c, pos);
    w' := WithLocal(w, t, l2);
    Events.PackKeepsFlag(l1.(p := Scheduler.UpdateNextMap(l1.p)), t);
    if c.ycs[0].normal != EMPTY {
      w' := Refill(ps, scavs, t, max, env, w', slots);
    } else {
      cur := c.FindUnfinished();
    }
  }

  /** Allocate, and point the primary's link at the first scavenger. */
  method Refill(ps: seq<ThreadCtx>, scavs: array<Scav>, t: nat, max: int, env: InitEnv, ghost w: World, ghost slots: nat)
    returns (ghost w': World)
    requires Table(ps, scavs, slots) && Shows(ps, scavs, w) && WorldShape(w, slots)
    requires t < |ps| && !w.prims[t].reallocatable
    modifies ps, (set c <- ps :: c.ycs), (set c <- ps :: c.regs), (set c <- ps :: c.idx), scavs
    ensures
      var w1 := Allocator.AllocateScav(w, t, max, env, slots).0;
      w' == w1.(prims := w1.prims[t := Scheduler.UpdateNextMap(w1.prims[t])])
    ensures Shows(ps, scavs, w')
  {
    hide Allocator.AllocateScav, IdxInRange, Scheduler.UpdateNextMap, FirstLive;
    var got;
    got, w' := AllocateScav(ps, scavs, t, max, env, w, slots);
    OthersShown(ps, scavs, t);
    ps[t].UpdateNextMap();
    w' := w'.(prims := w'.prims[t := Scheduler.UpdateNextMap(w'.prims[t])]);
  }

  lemma EventKeepsFlag(l: Local, pos: nat)
    requires Sound(l) && pos < |l.p.idx|
    ensures
      var l1 := Scheduler.Finish(l, pos);
      && Sound(l1.(p := Scheduler.UpdateNextMap(l1.p)))
      && Scheduler.UpdateNextMap(l1.p).reallocatable == l.p.reallocatable
  {
  }

  method FinishAndPack(c: ThreadCtx, pos: nat)
    requires c.Valid() && pos < c.idx.Length
    modifies c.ycs, c.regs, c.idx, c.scavs
    ensures
      var l1 := Scheduler.Finish(old(c.View()), pos);
      c.View() == Scheduler.Pack(l1.(p := Scheduler.UpdateNextMap(l1.p)), c.tid)
  {
    hide Scheduler.Pack, IdxInRange, Scheduler.Finish, Scheduler.UpdateNextMap;
    c.Finish(pos);
    c.UpdateNextMap();
    c.Pack();
  }

  /** msh_enter_blockable_call: only the flag goes up. */
  method EnterBlockableCall(c: ThreadCtx)
    modifies c`reallocatable
    ensures c.Prim() == old(c.Prim()).(reallocatable := true)
  {
    c.reallocatable := true;
  }

  /** msh_exit_blockable_call behind its CAS. */
  method ExitBlockableCall(ps: seq<ThreadCtx>, scavs: array<Scav>, t: nat, max: int, env: InitEnv,
                           ghost w: World, ghost slots: nat)
    returns (ghost w': World)
    requires Table(ps, scavs, slots) && Shows(ps, scavs, w) && WorldShape(w, slots)
    requires t < |ps| && !w.prims[t].reallocatable
    modifies ps, (set c <- ps :: c.ycs), (set c <- ps :: c.regs), (set c <- ps :: c.idx), scavs
    ensures w' == Events.ExitCall(w, t, max, env, slots) && Shows(ps, scavs, w')
  {
    hide Allocator.AllocateScav, IdxInRange, Scheduler.UpdateNextMap;
    w' := w;
    if ps[t].reallocated {
      var got;
      got, w' := AllocateScav(ps, scavs, t, max, env, w, slots);
      OthersShown(ps, scavs, t);
      ps[t].UpdateNextMap();
      ps[t].reallocated := false;
      w' := w'.(prims := w'.prims[t := Scheduler.UpdateNextMap(w'.prims[t]).(reallocated := false)]);
    }
  }

  /** The first loop of msh_cleanup: every runnable scavenger becomes its own successor. */
  method LinkToSelf(c: ThreadCtx)
    requires c.Valid()
    modifies c.ycs
    ensures c.View() == old(c.View()).(p := Protocol.SelfLinks(old(c.Prim())))
    ensures forall q :: 0 <= q < c.ycs.Length ==>
      c.ycs[q] == if q == 0 || old(c.ycs[q].normal) == EMPTY then old(c.ycs[q])
                  else YieldCtx(old(c.ycs[q].sp), old(c.ycs[q].ip), 20 * q, 20 * q)
  {
    ghost var p := c.Prim();
    var pos := 1;
    while pos < c.ycs.Length
      invariant 1 <= pos <= c.ycs.Length
      invariant forall q :: 0 <= q < pos ==> c.ycs[q] == Protocol.SelfLinks(p).ycs[q]
      invariant forall q :: pos <= q < c.ycs.Length ==> c.ycs[q] == p.ycs[q]
    {
      if c.ycs[pos].normal != EMPTY {
        c.ycs[pos] := c.ycs[pos].(normal := pos * YC_SIZE);
        c.ycs[pos] := c.ycs[pos].(special := pos * YC_SIZE);
      }
      pos := pos + 1;
    }
    assert c.ycs[..] == Protocol.SelfLinks(p).ycs;
  }

  /**
    The slots that were runnable and are still used are their own successors in both link structures,
    with the stack and instruction pointer they had.
   */
  predicate OwnSuccessors(was: seq<YieldCtx>, now: seq<YieldCtx>, idx: seq<int>) {
    && |now| == |was| == |idx|
    && forall q :: 1 <= q < |idx| && idx[q] != EMPTY && was[q].normal != EMPTY ==>
      now[q] == YieldCtx(was[q].sp, was[q].ip, 20 * q, 20 * q)
  }

  /**
    msh_cleanup, watched for at most `limit` scheduling events. It has then run the events that Drain
    describes, whatever the positions; it is over, with every slot empty and the primary's link 0,
    exactly if every crt_pos is in bytes and the limit allows one event per hosted scavenger.
   */
  method Cleanup(c: ThreadCtx, limit: nat) returns (events: nat, done: bool)
    requires c.Valid() && Events.LocallyPlaced(c.View(), c.tid)
    modifies c.ycs, c.regs, c.idx, c.scavs
    ensures c.Valid() && Events.SameTables(c.View(), Events.Drain(old(c.View()), c.tid, events))
    ensures events <= limit
    ensures done <==> Events.AllScaled(old(c.View())) && Count(old(c.idx[..])) <= limit
    ensures done ==> events == Count(old(c.idx[..])) && c.ycs[0].normal == 0
    ensures done <==> forall q :: 0 <= q < c.idx.Length ==> c.idx[q] == EMPTY
    ensures OwnSuccessors(old(c.ycs[..]), c.ycs[..], c.idx[..])
    ensures done ==> forall i :: 0 <= i < c.scavs.Length ==>
      c.scavs[i] == if i in old(c.idx[..]) then old(c.scavs[i]).(yc := None, finished := true) else old(c.scavs[i])
  {
    hide Events.DrainOnce, Events.LocallyPlaced, Events.AllScaled, IdxInRange, Events.Drain;
    events := 0;
    ghost var l0 := c.View();
    var cur := BeginCleanup(c);
    ghost var l := c.View();
    Events.DrainStarts(l, c.tid);
    while cur != 0 && events < limit
      invariant c.Valid() && Events.LocallyPlaced(c.View(), c.tid) && events <= limit
      invariant cur == FirstUsed(c.idx[..], 1) && (cur != 0 ==> c.ycs[0].normal == EMPTY)
      invariant c.View() == Events.Drain(l, c.tid, events)
      invariant OwnSuccessors(old(c.ycs[..]), c.ycs[..], c.idx[..])
      invariant Events.AllScaled(l) ==> Events.AllScaled(c.View()) && events + Count(c.idx[..]) == Count(l.p.idx)
      decreases limit - events
    {
      Events.DrainSnoc(l, c.tid, events);
      CleanupRound(c, cur);
      events := events + 1;
      cur := c.FindUnfinished();
    }
    done := cur == 0;
    CleanupVerdict(l, c.tid, events, limit);
    Events.DrainOfTables(l0, l, c.tid, events);
    if done {
      c.ycs[0] := c.ycs[0].(normal := 0);
    }
  }

  /** What k events have achieved, by the positions at the start. */
  lemma CleanupVerdict(l: Local, t: nat, k: nat, limit: nat)
    requires Sound(l) && Events.LocallyPlaced(l, t) && k <= limit
    requires FirstUsed(Events.Drain(l, t, k).p.idx, 1) != 0 ==> k == limit
    requires Events.AllScaled(l) ==> k + Count(Events.Drain(l, t, k).p.idx) == Count(l.p.idx)
    ensures
      var l' := Events.Drain(l, t, k);
      && (FirstUsed(l'.p.idx, 1) == 0 <==> Events.AllScaled(l) && Count(l.p.idx) <= limit)
      && (FirstUsed(l'.p.idx, 1) == 0 <==> forall q :: 0 <= q < |l'.p.idx| ==> l'.p.idx[q] == EMPTY)
      && (FirstUsed(l'.p.idx, 1) == 0 ==> k == Count(l.p.idx))
      && (FirstUsed(l'.p.idx, 1) == 0 ==> forall i :: 0 <= i < |l.ss| ==>
        l'.ss[i] == if i in l.p.idx then l.ss[i].(yc := None, finished := true) else l.ss[i])
  {
    var l' := Events.Drain(l, t, k);
    CountToBounds(l'.p.idx, |l'.p.idx|);
    hide Events.Drain, Events.DrainOnce;
    if Events.AllScaled(l) {
      Events.DrainEmpties(l, t);
    } else {
      var q :| 0 <= q < |l.p.idx| && l.p.idx[q] != EMPTY && !Events.Scaled(l, q);
      Events.DrainIsStuck(l, t, q, k);
      assert l.p.idx[0] == EMPTY;
    }
  }

  /** msh_cleanup up to its first resume: self-links, and the primary marked finished. */
  method BeginCleanup(c: ThreadCtx) returns (cur: nat)
    requires c.Valid() && Events.LocallyPlaced(c.View(), c.tid)
    modifies c.ycs, c.regs, c.idx, c.scavs
    ensures c.idx[..] == old(c.idx[..]) && c.scavs[..] == old(c.scavs[..])
    ensures c.Valid() && Events.LocallyPlaced(c.View(), c.tid)
    ensures Events.AllScaled(c.View()) <==> Events.AllScaled(old(c.View()))
    ensures OwnSuccessors(old(c.ycs[..]), c.ycs[..], c.idx[..])
    ensures cur == FirstUsed(c.idx[..], 1) && (cur != 0 ==> c.ycs[0].normal == EMPTY)
  {
    LinkToSelf(c);
    cur := c.FindUnfinished();
    if cur != 0 {
      FinishAndPack(c, 0);
    }
  }

  /** The scavenger in the least used slot finishes, reporting its crt_pos. */
  method CleanupRound(c: ThreadCtx, cur: nat)
    requires c.Valid() && Events.LocallyPlaced(c.View(), c.tid)
    requires cur == FirstUsed(c.idx[..], 1) != 0 && c.ycs[0].normal == EMPTY
    modifies c.ycs, c.regs, c.idx, c.scavs
    ensures c.View() == Events.DrainOnce(old(c.View()), c.tid)
    ensures c.Valid() && Events.LocallyPlaced(c.View(), c.tid) && c.ycs[0].normal == EMPTY
    ensures forall q :: 0 <= q < c.idx.Length && c.idx[q] != EMPTY ==>
      old(c.idx[q]) != EMPTY && c.ycs[q] == old(c.ycs[q])
    ensures Events.AllScaled(old(c.View())) ==>
      Events.AllScaled(c.View()) && Count(c.idx[..]) == Count(old(c.idx[..])) - 1
  {
    ghost var l := c.View();
    Events.DecodeIffScaled(l, c.tid, cur);
    if Events.AllScaled(l) {
      Events.DrainOnceRetires(l, c.tid);
    }
    var ret := c.scavs[c.idx[cur]].crtPos;
    FinishAndPack(c, ret / YC_SIZE);
  }
}
