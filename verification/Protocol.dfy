/**
  libmsh under every interleaving: any number of primary threads, each at some point of the code,
  sharing the tables, the xchg spinlock byte and the per-thread `reallocatable` flags.

  One action is one access to the lock byte or a flag, one round of a loop that runs under the
  lock, or one stretch of code on the thread's own context. Two theorems justify the grain:
  `ThreadsNeverCollide`, the contexts that two threads may touch next never overlap, and
  `OwnActionsCommute`, a stretch on the own context can be taken before or after any action of
  another thread. `FinishesAlone`, `AllocatesAlone` and `ExitsAlone` tie uninterrupted actions to the
  functions of the whole operations.
 */
module Protocol {
  import opened Wrappers
  import opened Tables
  import opened SlotList
  import opened Scheduler
  import opened Allocator

  /** Who called allocate_scav: msh_alloc_ctx, tl_sched_next_crt or msh_exit_blockable_call. */
  datatype Caller = Birth | Event | Exit

  datatype Pc =
    | Unborn                                                           // no context yet
    | Running(linked: bool)                                             // primary live; linked: ring closed
    | Draining                                                         // primary finished
    | Blocked(snap: Prim, linked: bool)                                 // inside a blockable call
    | Exiting(snap: Prim, linked: bool)                                 // spinning on its own flag
    | FinishWait(pos: nat)                                             // tl_finish_crt before the lock
    | FinishLocked(pos: nat)
    | Packing(pos: nat)                                                // outer loop of tl_pack_crts
    | SwapWait(a: nat, b: nat)
    | SwapLocked(a: nat, b: nat)
    | AllocWait(who: Caller, need: nat)
    | Donors(who: Caller, need: nat, d: nat, got: nat)                  // donor loop
    | Stealing(who: Caller, need: nat, d: nat, got: nat, cnt: nat)      // realloc_scav from d
    | Pool(who: Caller, need: nat, i: nat, got: nat)                    // pool loop
    | Initing(who: Caller, pos: nat, got: nat)                          // call_init_for_new_scav

  /** `snap` in a program counter and `misses` in the state are history variables. */
  datatype Sys = Sys(
    w: World,
    slots: nat,
    max: int,
    lock: int,
    pc: seq<Pc>,
    finishedCnt: int,
    misses: int)

  datatype Action =
    | Create                     // msh_alloc_ctx
    | Enter                      // msh_enter_blockable_call
    | Return                     // the pthread call returns
    | TryExit                    // one CAS of msh_exit_blockable_call
    | Finish(pos: nat)           // tl_sched_next_crt, with the decoded position
    | Cleanup                    // msh_cleanup
    | Save(pos: nat, v: Saved)   // instrumented code saves the context of its coroutine
    | Advance(e: InitEffect)     // the next internal action

  predicate Holds(c: Pc) {
    c.FinishLocked? || c.SwapLocked? || c.Donors? || c.Stealing? || c.Pool?
  }

  predicate AtCall(c: Pc) {
    c.Blocked? || c.Exiting?
  }

  predicate Internal(c: Pc) {
    !c.Unborn? && !c.Running? && !c.Draining? && !AtCall(c)
  }

  /** The arguments of a program counter are within the tables. */
  predicate PcTyped(s: Sys, t: nat)
    requires t < |s.pc| == |s.w.prims| && WorldShape(s.w, s.slots)
  {
    match s.pc[t]
    case FinishWait(pos) => 1 <= pos < s.slots && s.w.prims[t].idx[pos] != EMPTY
    case FinishLocked(pos) => 1 <= pos < s.slots && s.w.prims[t].idx[pos] != EMPTY
    case Packing(pos) => 1 <= pos <= s.slots
    case SwapWait(a, b) => 1 <= a < b < s.slots
    case SwapLocked(a, b) => 1 <= a < b < s.slots
    case AllocWait(_, need) => 1 <= need
    case Donors(_, need, d, got) => got < need && d <= |s.pc|
    case Stealing(_, need, d, got, cnt) => got < need && cnt <= need && d < |s.pc| && d != t
    case Pool(_, need, i, got) => got < need && i <= |s.w.ss|
    case Initing(_, pos, _) => 1 <= pos <= s.slots
    case _ => true
  }

  predicate Typed(s: Sys) {
    && 1 <= s.slots && |s.pc| == |s.w.prims| && WorldShape(s.w, s.slots)
    && forall t :: 0 <= t < |s.pc| ==> PcTyped(s, t)
  }

  predicate At(s: Sys, t: nat) {
    Typed(s) && t < |s.pc| && PcTyped(s, t)
  }

  predicate Enabled(s: Sys, t: nat, a: Action) {
    && At(s, t)
    && match a
       case Create => s.pc[t].Unborn?
       case Enter => s.pc[t].Running?
       case Return => s.pc[t].Blocked?
       case TryExit => s.pc[t].Exiting?
       case Finish(pos) => pos < s.slots && (s.pc[t].Running? || s.pc[t].Draining?)
       case Cleanup => s.pc[t].Running? || s.pc[t].Draining?
       case Save(pos, _) => pos < s.slots && (s.pc[t].Running? || s.pc[t].Draining?)
       case Advance(_) => Internal(s.pc[t])
  }

  // ----- Building blocks of the actions --------------------------------------------------------

  function Put(s: Sys, t: nat, p: Prim, c: Pc): Sys
    requires t < |s.pc| == |s.w.prims|
  {
    s.(w := s.w.(prims := s.w.prims[t := p]), pc := s.pc[t := c])
  }

  /** After tl_finish_crt: the primary's link, and on to compaction or to the cleanup branch. */
  function AfterFinish(s: Sys, t: nat): Sys
    requires t < |s.pc| == |s.w.prims| && WellShaped(s.w.prims[t])
  {
    var p := UpdateNextMap(s.w.prims[t]);
    if p.ycs[0].normal != EMPTY then Put(s, t, p, Packing(1))
    else if FirstUsed(p.idx, 1) != 0 then Put(s, t, p, Draining)
    else Put(s, t, SetNormal(p, 0, 0), Running(true))
  }

  /** msh_cleanup makes every remaining scavenger its own successor. */
  function SelfLinks(p: Prim): Prim
    requires WellShaped(p)
  {
    p.(ycs := seq(|p.ycs|, q requires 0 <= q < |p.ycs| =>
      if q == 0 || p.ycs[q].normal == EMPTY then p.ycs[q]
      else p.ycs[q].(normal := q * YC_SIZE, special := q * YC_SIZE)))
  }

  /** xchg on the lock byte: it becomes 1 either way, and the caller proceeds if it was 0. */
  function TryLock(s: Sys, t: nat, c: Pc): Sys
    requires t < |s.pc|
  {
    if s.lock == 0 then s.(lock := 1, pc := s.pc[t := c]) else s.(lock := 1)
  }

  function Unlocked(s: Sys): Sys {
    s.(lock := 0)
  }

  /** allocate_scav is over: back to its caller. */
  function Allocated(s: Sys, t: nat, who: Caller, got: nat, p: Prim): Sys
    requires t < |s.pc| == |s.w.prims| && WellShaped(p)
  {
    match who
    case Birth => Put(s, t, InitPrimaryCtx(p, got), Running(true))
    case Event => Put(s, t, UpdateNextMap(p), Running(true))
    case Exit => Put(s, t, UpdateNextMap(p).(reallocated := false), Running(true))
  }

  // ----- The actions ---------------------------------------------------------------------------

  function DoCreate(s: Sys, t: nat): Sys
    requires Enabled(s, t, Create)
  {
    var p := s.w.prims[t];
    var need := NeedMore(p, s.max);
    if need == 0 then Put(s, t, InitPrimaryCtx(p, 0), Running(true))
    else s.(pc := s.pc[t := AllocWait(Birth, need)])
  }

  function DoEnter(s: Sys, t: nat): Sys
    requires Enabled(s, t, Enter)
  {
    var p := s.w.prims[t];
    Put(s, t, p.(reallocatable := true), Blocked(p, s.pc[t].linked))
  }

  function DoTryExit(s: Sys, t: nat): Sys
    requires Enabled(s, t, TryExit)
  {
    var p := s.w.prims[t];
    if !p.reallocatable then s
    else
      var p1 := p.(reallocatable := false);
      if !p1.reallocated then Put(s, t, p1, Running(s.pc[t].linked))
      else
        var need := NeedMore(p1, s.max);
        if need == 0 then Put(s, t, UpdateNextMap(p1).(reallocated := false), Running(false))
        else Put(s, t, p1, AllocWait(Exit, need))
  }

  function DoFinish(s: Sys, t: nat, pos: nat): Sys
    requires Enabled(s, t, Finish(pos))
  {
    var p := SetNormal(s.w.prims[t], pos, EMPTY);
    var s1 := Put(s, t, p, s.pc[t]).(finishedCnt := s.finishedCnt + if pos == 0 then 0 else 1);
    if p.idx[pos] != EMPTY then s1.(pc := s.pc[t := FinishWait(pos)])
    else AfterFinish(s1.(misses := s.misses + if pos == 0 then 0 else 1), t)
  }

  function DoCleanup(s: Sys, t: nat): Sys
    requires Enabled(s, t, Cleanup)
  {
    var p := SelfLinks(s.w.prims[t]);
    if FirstUsed(p.idx, 1) == 0 then Put(s, t, SetNormal(p, 0, 0), Running(true))
    else AfterFinish(Put(s, t, SetNormal(p, 0, EMPTY), s.pc[t]), t)
  }

  function DoSave(s: Sys, t: nat, pos: nat, v: Saved): Sys
    requires Enabled(s, t, Save(pos, v))
  {
    var p := s.w.prims[t];
    Put(s, t, p.(ycs := p.ycs[pos := p.ycs[pos].(sp := v.sp, ip := v.ip)],
                 regs := p.regs[pos := v.regs]), s.pc[t])
  }

  function DoRetire(s: Sys, t: nat): Sys
    requires At(s, t) && s.pc[t].FinishLocked?
  {
    AfterFinish(Unlocked(s.(w := WithLocal(s.w, t, Retire(LocalOf(s.w, t), s.pc[t].pos)))), t)
  }

  function DoPack(s: Sys, t: nat): Sys
    requires At(s, t) && s.pc[t].Packing?
  {
    var p, pos := s.w.prims[t], s.pc[t].pos;
    if pos < s.slots then
      var b := SwapPartner(p.idx, pos);
      s.(pc := s.pc[t := if b == 0 then Packing(pos + 1) else SwapWait(pos, b)])
    else
      var p1 := SetSpecialNext(p);
      var need := NeedMore(p1, s.max);
      if need == 0 then Put(s, t, UpdateNextMap(p1), Running(true))
      else Put(s, t, p1, AllocWait(Event, need))
  }

  function DoSwap(s: Sys, t: nat): Sys
    requires At(s, t) && s.pc[t].SwapLocked?
  {
    var a, b := s.pc[t].a, s.pc[t].b;
    var w := WithLocal(s.w, t, Swap(LocalOf(s.w, t), t, a, b));
    Unlocked(s.(w := w, pc := s.pc[t := Packing(a + 1)]))
  }

  /** The CAS on donor d's flag, or the end of the donor loop. */
  function DoDonor(s: Sys, t: nat): Sys
    requires At(s, t) && s.pc[t].Donors?
  {
    var c := s.pc[t];
    if c.d == |s.pc| then s.(pc := s.pc[t := Pool(c.who, c.need, 0, c.got)])
    else if !s.w.prims[c.d].reallocatable then s.(pc := s.pc[t := Donors(c.who, c.need, c.d + 1, c.got)])
    else
      Put(s, c.d, s.w.prims[c.d].(reallocatable := false), s.pc[c.d])
        .(pc := s.pc[t := Stealing(c.who, c.need, c.d, c.got, 0)])
  }

  /** Give the donor its flag back, then stop, or go on with the next donor. */
  function ReleaseDonor(s: Sys, t: nat): Sys
    requires t < |s.pc| == |s.w.prims| && s.pc[t].Stealing? && s.pc[t].d < |s.pc|
  {
    var c := s.pc[t];
    var s1 := Put(s, c.d, s.w.prims[c.d].(reallocatable := true), s.pc[c.d]);
    if c.got + c.cnt >= c.need then
      Unlocked(s1.(pc := s.pc[t := Initing(c.who, 1, c.got + c.cnt)]))
    else s1.(pc := s.pc[t := Donors(c.who, c.need, c.d + 1, c.got + c.cnt)])
  }

  function DoSteal(s: Sys, t: nat): Sys
    requires At(s, t) && s.pc[t].Stealing?
  {
    var c := s.pc[t];
    var x := Pair(s.w.prims[c.d], s.w.prims[t], s.w.ss);
    var (y, o) := StealOne(x, t);
    if c.cnt == c.need then ReleaseDonor(s, t)
    else if o.Moved? then
      s.(w := World(s.w.prims[c.d := y.from][t := y.to], y.ss),
         pc := s.pc[t := Stealing(c.who, c.need, c.d, c.got, c.cnt + 1)])
    else ReleaseDonor(s.(w := s.w.(prims := s.w.prims[c.d := y.from])), t)
  }

  function DoPool(s: Sys, t: nat): Sys
    requires At(s, t) && s.pc[t].Pool?
  {
    var c := s.pc[t];
    if c.i == |s.w.ss| then Unlocked(s.(pc := s.pc[t := Initing(c.who, 1, c.got)]))
    else
      var (l, o) := PoolOne(LocalOf(s.w, t), t, c.i);
      var s1 := s.(w := WithLocal(s.w, t, l));
      match o
      case Skipped => s1.(pc := s.pc[t := Pool(c.who, c.need, c.i + 1, c.got)])
      case Full => Unlocked(s1.(pc := s.pc[t := Initing(c.who, 1, c.got)]))
      case Taken =>
        if c.got + 1 < c.need then s1.(pc := s.pc[t := Pool(c.who, c.need, c.i + 1, c.got + 1)])
        else Unlocked(s1.(pc := s.pc[t := Initing(c.who, 1, c.got + 1)]))
  }

  function DoInit(s: Sys, t: nat, e: InitEffect): Sys
    requires At(s, t) && s.pc[t].Initing?
  {
    var c := s.pc[t];
    if c.pos == s.slots then Allocated(s, t, c.who, c.got, SetSpecialNext(s.w.prims[t]))
    else
      s.(w := WithLocal(s.w, t, InitOne(LocalOf(s.w, t), c.pos, e)),
         pc := s.pc[t := Initing(c.who, c.pos + 1, c.got)])
  }

  function DoAdvance(s: Sys, t: nat, e: InitEffect): Sys
    requires Enabled(s, t, Advance(e))
  {
    match s.pc[t]
    case FinishWait(pos) => TryLock(s, t, FinishLocked(pos))
    case FinishLocked(_) => DoRetire(s, t)
    case Packing(_) => DoPack(s, t)
    case SwapWait(a, b) => TryLock(s, t, SwapLocked(a, b))
    case SwapLocked(_, _) => DoSwap(s, t)
    case AllocWait(who, need) => TryLock(s, t, Donors(who, need, 0, 0))
    case Donors(_, _, _, _) => DoDonor(s, t)
    case Stealing(_, _, _, _, _) => DoSteal(s, t)
    case Pool(_, _, _, _) => DoPool(s, t)
    case Initing(_, _, _) => DoInit(s, t, e)
  }

  function Apply(s: Sys, t: nat, a: Action): Sys
    requires Enabled(s, t, a)
  {
    match a
    case Create => DoCreate(s, t)
    case Enter => DoEnter(s, t)
    case Return => s.(pc := s.pc[t := Exiting(s.pc[t].snap, s.pc[t].linked)])
    case TryExit => DoTryExit(s, t)
    case Finish(pos) => DoFinish(s, t, pos)
    case Cleanup => DoCleanup(s, t)
    case Save(pos, v) => DoSave(s, t, pos, v)
    case Advance(e) => DoAdvance(s, t, e)
  }

  // ----- Runs ----------------------------------------------------------------------------------

  /** The tables as init_prim_table and init_scav_table leave them. */
  predicate FreshPrim(p: Prim) {
    && WellShaped(p) && !p.reallocatable && !p.reallocated && p.scavNum == 0
    && forall q :: 0 <= q < |p.idx| ==> p.idx[q] == EMPTY && p.ycs[q].normal == EMPTY
  }

  predicate Init(s: Sys) {
    && 1 <= s.slots && |s.pc| == |s.w.prims| && s.lock == 0 && s.finishedCnt == 0 && s.misses == 0
    && (forall t :: 0 <= t < |s.pc| ==>
      s.pc[t].Unborn? && Shape(s.w.prims[t], s.slots) && FreshPrim(s.w.prims[t]))
    && (forall i :: 0 <= i < |s.w.ss| ==>
      s.w.ss[i].yc.None? && !s.w.ss[i].finished && !s.w.ss[i].inited && s.w.ss[i].initCalls == 0)
  }

  ghost predicate Step(s: Sys, s': Sys) {
    exists t: nat, a: Action :: Enabled(s, t, a) && s' == Apply(s, t, a)
  }

  ghost predicate Run(trace: seq<Sys>) {
    && 1 <= |trace| && Init(trace[0])
    && forall k :: 0 <= k < |trace| - 1 ==> Step(trace[k], trace[k + 1])
  }

  /** Who acts, and how. */
  datatype Act = Act(t: nat, a: Action)

  predicate Does(s: Sys, act: Act, s': Sys) {
    Enabled(s, act.t, act.a) && s' == Apply(s, act.t, act.a)
  }

  /** A run together with the actions that make it. */
  predicate RunBy(trace: seq<Sys>, acts: seq<Act>) {
    && |trace| == |acts| + 1 && Init(trace[0])
    && forall k :: 0 <= k < |acts| ==> Does(trace[k], acts[k], trace[k + 1])
  }

  lemma RunByIsRun(trace: seq<Sys>, acts: seq<Act>)
    requires RunBy(trace, acts)
    ensures Run(trace)
  {
    hide Init, Apply, Enabled;
    forall k | 0 <= k < |trace| - 1 ensures Step(trace[k], trace[k + 1]) {
      assert Does(trace[k], acts[k], trace[k + 1]);
    }
  }

  /** Every run is made by some actions. */
  lemma {:induction false} RunHasActs(trace: seq<Sys>) returns (acts: seq<Act>)
    requires Run(trace)
    ensures RunBy(trace, acts)
    decreases |trace|
  {
    hide Init, Apply, Enabled;
    acts := [];
    var n := |trace| - 1;
    if n > 0 {
      assert Run(trace[..n]) by {
        forall k | 0 <= k < n - 1 ensures Step(trace[..n][k], trace[..n][k + 1]) {
          assert Step(trace[k], trace[k + 1]);
        }
      }
      var before := RunHasActs(trace[..n]);
      assert Step(trace[n - 1], trace[n - 1 + 1]);
      var t: nat, a: Action :| Enabled(trace[n - 1], t, a) && trace[n] == Apply(trace[n - 1], t, a);
      acts := before + [Act(t, a)];
      forall k | 0 <= k < |acts| ensures Does(trace[k], acts[k], trace[k + 1]) {
        if k < n - 1 {
          assert Does(trace[..n][k], before[k], trace[..n][k + 1]);
        }
      }
    }
  }

  // ----- A primary that was marked finished by mistake ---------------------------------------------

  /**
    After a wrongly decoded event a live primary counts as finished, but a scavenger whose link is 0
    can still yield to it, and it can then enter a blockable call.
   */
  predicate EntersMarked(s: Sys, act: Act) {
    At(s, act.t) && act.a.Enter? && s.pc[act.t].Draining?
  }

  predicate Possible(s: Sys, act: Act) {
    Enabled(s, act.t, act.a) || EntersMarked(s, act)
  }

  function Perform(s: Sys, act: Act): Sys
    requires Possible(s, act)
  {
    if EntersMarked(s, act) then
      var p := s.w.prims[act.t];
      Put(s, act.t, p.(reallocatable := true), Blocked(p, false))
    else Apply(s, act.t, act.a)
  }

  predicate Performs(s: Sys, act: Act, s': Sys) {
    Possible(s, act) && s' == Perform(s, act)
  }

  /** A run in which such calls happen too. */
  predicate WideRunBy(trace: seq<Sys>, acts: seq<Act>) {
    && |trace| == |acts| + 1 && Init(trace[0])
    && forall k :: 0 <= k < |acts| ==> Performs(trace[k], acts[k], trace[k + 1])
  }
}
