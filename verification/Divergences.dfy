/**
  Runs on which libmsh/msh.c misses what its own comments and names promise. Every witness is the
  end of a run from freshly initialised tables.
 */
module Divergences {
  import opened Wrappers
  import opened Tables
  import opened SlotList
  import opened Scheduler
  import opened Allocator
  import opened Protocol
  import opened Invariant
  import opened InvariantProof
  import opened BigStep
  import Events
  import RunTheorems

  // ----- States that occur -----------------------------------------------------------------------

  ghost predicate Occurs(s: Sys) {
    exists trace :: Run(trace) && trace[|trace| - 1] == s
  }

  lemma InitOccurs(s: Sys)
    requires Init(s)
    ensures Occurs(s)
  {
    assert Run([s]);
  }

  lemma OccursNext(s: Sys, t: nat, a: Action)
    requires Occurs(s) && Enabled(s, t, a)
    ensures Occurs(Apply(s, t, a))
  {
    hide Enabled, Apply, Init;
    var trace :| Run(trace) && trace[|trace| - 1] == s;
    var longer := trace + [Apply(s, t, a)];
    forall k | 0 <= k < |longer| - 1 ensures Step(longer[k], longer[k + 1]) {
      if k < |trace| - 1 {
        assert Step(trace[k], trace[k + 1]);
      } else {
        assert longer[k] == s && longer[k + 1] == Apply(s, t, a);
      }
    }
    assert Run(longer);
  }

  lemma OccursInv(s: Sys)
    requires Occurs(s)
    ensures Inv(s)
  {
    var trace :| Run(trace) && trace[|trace| - 1] == s;
    RunKeepsInv(trace, |trace| - 1);
  }

  lemma {:induction false} OccursAlone(s: Sys, t: nat, n: nat, env: InitEnv)
    requires Occurs(s) && Inv(s)
    ensures Occurs(Alone(s, t, n, env))
    decreases n
  {
    hide Inv, Occurs, Next;
    if n > 0 && t < |s.pc| && Internal(s.pc[t]) {
      NextOccurs(s, t, env);
      OccursAlone(Next(s, t, env), t, n - 1, env);
    }
  }

  lemma NextOccurs(s: Sys, t: nat, env: InitEnv)
    requires Occurs(s) && Inv(s) && t < |s.pc| && Internal(s.pc[t])
    ensures Occurs(Next(s, t, env))
  {
    hide Occurs, DoAdvance, LockOK, FlagOK, Placed, ScavsOK, ThreadsOK, CountOK;
    OccursNext(s, t, Advance(EffectFor(s, t, env)));
  }

  lemma OccursThen(s: Sys, t: nat, env: InitEnv, s': Sys)
    requires Occurs(s) && Gets(s, t, env, s')
    ensures Occurs(s')
  {
    hide Inv, Occurs, Alone;
    var n: nat :| Alone(s, t, n, env) == s';
    OccursAlone(s, t, n, env);
  }

  // ----- Runs by their counts ----------------------------------------------------------------------

  /** Where a thread is between events. */
  datatype Kind = NotYet | Runs | InCall

  datatype Row = Row(kind: Kind, count: nat)

  predicate OfKind(c: Pc, k: Kind) {
    match k
    case NotYet => c.Unborn?
    case Runs => c.Running?
    case InCall => c.Blocked?
  }

  /** The lock is free, and each thread is where its row says, with that many scavengers. */
  ghost predicate Looks(s: Sys, slots: nat, max: int, rows: seq<Row>, pool: nat) {
    && Occurs(s) && s.lock == 0 && s.slots == slots && s.max == max && PoolSize(s.w.ss, 0) == pool
    && |s.pc| == |s.w.prims| == |rows|
    && forall t :: 0 <= t < |rows| ==> OfKind(s.pc[t], rows[t].kind) && Count(s.w.prims[t].idx) == rows[t].count
  }

  /** What the invariant says of a thread in such a state. */
  predicate RowOK(s: Sys, t: nat, row: Row) {
    && t < |s.pc| == |s.w.prims| && WellShaped(s.w.prims[t]) && Steady(s.w.prims[t])
    && OfKind(s.pc[t], row.kind) && Count(s.w.prims[t].idx) == row.count
    && (s.w.prims[t].reallocatable <==> row.kind.InCall?)
    && (!row.kind.NotYet? ==> s.w.prims[t].ycs[0].normal != EMPTY)
  }

  lemma LooksSteady(s: Sys, slots: nat, max: int, rows: seq<Row>, pool: nat)
    requires Looks(s, slots, max, rows, pool)
    ensures Inv(s) && WorldShape(s.w, slots)
    ensures forall t :: 0 <= t < |rows| ==> RowOK(s, t, rows[t])
  {
    OccursInv(s);
    forall t | 0 <= t < |rows| ensures RowOK(s, t, rows[t]) {
      assert ThreadOK(s.w.prims[t], s.pc[t], s.w.ss, s.max);
      FreeLockFlag(s, t);
    }
  }

  lemma FreeLockFlag(s: Sys, t: nat)
    requires |s.pc| == |s.w.prims| && LockOK(s) && FlagOK(s) && s.lock == 0 && t < |s.pc|
    ensures s.w.prims[t].reallocatable <==> AtCall(s.pc[t])
  {
    assert forall u :: 0 <= u < |s.pc| ==> !Holds(s.pc[u]);
  }

  lemma EnterRow(s: Sys, t: nat, slots: nat, max: int, rows: seq<Row>, pool: nat) returns (s': Sys)
    requires Looks(s, slots, max, rows, pool) && t < |rows| && rows[t].kind.Runs?
    ensures Looks(s', slots, max, rows[t := Row(InCall, rows[t].count)], pool) && |s'.w.ss| == |s.w.ss|
  {
    hide Inv, Occurs, Count, PoolSize, Enabled, Apply, Steady, Looks;
    LooksSteady(s, slots, max, rows, pool);
    EnterIs(s, t, rows[t]);
    s' := Apply(s, t, Enter);
    LooksOccurs(s, slots, max, rows, pool);
    OccursNext(s, t, Enter);
    RowChanges(s, s', t, slots, max, rows, pool, Row(InCall, rows[t].count), pool);
  }

  lemma LooksOccurs(s: Sys, slots: nat, max: int, rows: seq<Row>, pool: nat)
    requires Looks(s, slots, max, rows, pool)
    ensures Occurs(s) && |s.pc| == |s.w.prims| == |rows| && PoolSize(s.w.ss, 0) == pool
  {
    hide Occurs, PoolSize, Count;
  }

  lemma EnterIs(s: Sys, t: nat, row: Row)
    requires Inv(s) && RowOK(s, t, row) && row.kind.Runs?
    ensures Enabled(s, t, Enter)
    ensures
      var s', p := Apply(s, t, Enter), s.w.prims[t];
      && s' == Put(s, t, p.(reallocatable := true), s'.pc[t])
      && |s'.pc| == |s.pc| && s'.pc[t].Blocked? && Count(s'.w.prims[t].idx) == row.count
  {
    hide LockOK, FlagOK, Placed, ScavsOK, ThreadsOK, CountOK, Count, Steady;
  }

  lemma {:induction false} NoDonors(w: World, t: nat, d: nat, got: nat, demands: nat, slots: nat)
    requires WorldShape(w, slots) && t < |w.prims| && got < demands
    requires forall u :: 0 <= u < |w.prims| ==> !w.prims[u].reallocatable
    ensures DonorsFrom(w, t, d, got, demands, slots) == (w, got)
    decreases |w.prims| - d
  {
    if d < |w.prims| {
      NoDonors(w, t, d + 1, got, demands, slots);
    }
  }

  /** With nobody in a call, allocate_scav takes from the pool what is lacking, there, and fits. */
  lemma AllocatesFromPool(w: World, t: nat, max: nat, env: InitEnv, slots: nat)
    requires WorldShape(w, slots) && t < |w.prims| && Steady(w.prims[t]) && Count(w.prims[t].idx) == 0 && 1 <= max
    requires forall u :: 0 <= u < |w.prims| ==> !w.prims[u].reallocatable
    ensures
      var (w', got) := AllocateScav(w, t, max, env, slots);
      && got == Min(max, Min(PoolSize(w.ss, 0), slots - 1))
      && PoolSize(w'.ss, 0) == PoolSize(w.ss, 0) - got
      && Count(w'.prims[t].idx) == got
      && forall u :: 0 <= u < |w.prims| && u != t ==> w'.prims[u] == w.prims[u]
  {
    hide PoolFrom, DonorsFrom, InitFrom, Count, PoolSize, Prefix, LiveSlots, SetSpecialNext, IdxInRange;
    NoDonors(w, t, 0, 0, max, slots);
    var l0 := LocalOf(w, t);
    PoolTakesExactly(l0, t, 0, 0, max);
    Events.AllocateScavKeepsSteady(w, t, max, env, slots);
    var (l, got) := PoolFrom(l0, t, 0, 0, max);
    assert LocalOf(WithLocal(w, t, l), t) == l;
    var l1 := InitFrom(l, 1, env);
    Events.InitKeepsContexts(l, 1, env);
    PoolSizeAgrees(l.ss, l1.ss, 0);
  }

  /** A thread is created while nobody is in a call. */
  lemma CreateRow(s: Sys, t: nat, env: InitEnv, slots: nat, max: nat, rows: seq<Row>, pool: nat) returns (s': Sys)
    requires Looks(s, slots, max, rows, pool) && 1 <= max && t < |rows| && rows[t] == Row(NotYet, 0)
    requires forall u :: 0 <= u < |rows| ==> !rows[u].kind.InCall?
    ensures
      var got := Min(max, Min(pool, slots - 1));
      0 <= got <= pool && Looks(s', slots, max, rows[t := Row(Runs, got)], pool - got) && |s'.w.ss| == |s.w.ss|
    ensures BornOf(s, s', t, env)
  {
    hide Inv, Occurs, WorldShape, Enabled, Apply, Gets, AllocateScav, Steady, Born, PoolSize, Count;
    LooksSteady(s, slots, max, rows, pool);
    assert RowOK(s, t, rows[t]);
    CreatesAlone(s, t, env);
    forall u | 0 <= u < |s.w.prims| ensures !s.w.prims[u].reallocatable {
      assert RowOK(s, u, rows[u]);
    }
    AllocatesFromPool(s.w, t, max, env, slots);
    BornCount(s.w, t, max, env, slots);
    OccursNext(s, t, Create);
    s' := s.(w := Born(s.w, t, max, env, slots), pc := s.pc[t := Running(true)]);
    OccursThen(Apply(s, t, Create), t, env, s');
    hide Looks;
    var got := Min(max, Min(pool, slots - 1));
    RowChanges(s, s', t, slots, max, rows, pool, Row(Runs, got), pool - got);
  }

  /** s' has the tables of s with thread t created. */
  ghost predicate BornOf(s: Sys, s': Sys, t: nat, env: InitEnv) {
    && t < |s.w.prims| && WorldShape(s.w, s.slots) && !s.w.prims[t].reallocatable
    && s'.w == Born(s.w, t, s.max, env, s.slots)
  }

  lemma RowChanges(s: Sys, s': Sys, t: nat, slots: nat, max: int, rows: seq<Row>, pool: nat, row: Row, pool': nat)
    requires Looks(s, slots, max, rows, pool) && t < |rows| && Occurs(s') && |s'.pc| == |s.pc|
    requires s' == s.(w := s'.w, pc := s.pc[t := s'.pc[t]]) && |s'.w.prims| == |s.w.prims|
    requires forall u :: 0 <= u < |rows| && u != t ==> s'.w.prims[u].idx == s.w.prims[u].idx
    requires OfKind(s'.pc[t], row.kind) && Count(s'.w.prims[t].idx) == row.count && PoolSize(s'.w.ss, 0) == pool'
    ensures Looks(s', slots, max, rows[t := row], pool')
  {
    hide Occurs, Count, PoolSize;
  }

  lemma BornCount(w: World, t: nat, max: int, env: InitEnv, slots: nat)
    requires WorldShape(w, slots) && t < |w.prims| && !w.prims[t].reallocatable
    ensures
      var w', w1 := Born(w, t, max, env, slots), AllocateScav(w, t, max, env, slots).0;
      && |w'.prims| == |w.prims| && w'.ss == w1.ss && |w'.ss| == |w.ss| && w'.prims[t].idx == w1.prims[t].idx
      && forall u :: 0 <= u < |w.prims| && u != t ==> w'.prims[u] == w1.prims[u]
  {
    hide AllocateScav;
  }

  // ----- The bound on one allocation is attained -----------------------------------------------------

  /** A table as init_prim_table leaves it. */
  function FreshThread(slots: nat): (p: Prim)
    requires 1 <= slots
    ensures Shape(p, slots) && FreshPrim(p)
  {
    Prim(seq(slots, _ => YieldCtx(0, 0, 0, EMPTY)), seq(slots, _ => []), seq(slots, _ => EMPTY), 0, false, false)
  }

  /** A scavenger without init function, in the pool. */
  function PoolScav(): Scav {
    Scav(true, 7, 8, None, false, false, false, 0, 0)
  }

  function FreshSys(threads: nat, scavs: nat, slots: nat, max: nat): (s: Sys)
    requires 1 <= slots
    ensures Init(s)
  {
    Sys(World(seq(threads, _ => FreshThread(slots)), seq(scavs, _ => PoolScav())), slots, max, 0,
        seq(threads, _ => Unborn), 0, 0)
  }

  lemma {:induction false} FullPool(ss: seq<Scav>, from: nat)
    requires from <= |ss| && forall i :: from <= i < |ss| ==> InPool(ss[i])
    ensures PoolSize(ss, from) == |ss| - from
    decreases |ss| - from
  {
    if from < |ss| {
      FullPool(ss, from + 1);
    }
  }

  lemma FreshLooks(threads: nat, scavs: nat, slots: nat, max: nat)
    requires 1 <= slots
    ensures Looks(FreshSys(threads, scavs, slots, max), slots, max, seq(threads, _ => Row(NotYet, 0)), scavs)
  {
    var s := FreshSys(threads, scavs, slots, max);
    InitOccurs(s);
    FullPool(s.w.ss, 0);
    CountToBounds(FreshThread(slots).idx, slots);
  }

  /** Thread 2 is created while threads 0 and 1 are in a call with max - 1 and max scavengers. */
  lemma CreateByTheft(s: Sys, env: InitEnv, slots: nat, max: nat, rows: seq<Row>, pool: nat) returns (s': Sys)
    requires Looks(s, slots, max, rows, pool) && 1 <= max && 2 * max <= slots && 3 <= |rows|
    requires rows[0] == Row(InCall, max - 1) && rows[1] == Row(InCall, max) && rows[2] == Row(NotYet, 0)
    ensures Looks(s', slots, max,
                  [Row(InCall, 0), Row(InCall, 0), Row(Runs, 2 * max - 1)] + rows[3..], PoolSize(s'.w.ss, 0))
  {
    LooksSteady(s, slots, max, rows, pool);
    CreatesAlone(s, 2, env);
    OccursNext(s, 2, Create);
    s' := s.(w := Born(s.w, 2, max, env, slots), pc := s.pc[2 := Running(true)]);
    TheftCounts(s.w, max, env, slots);
    BornCount(s.w, 2, max, env, slots);
    hide Inv, Occurs, WorldShape, Enabled, Apply, Gets, AllocateScav, Steady, Born, Count, PoolSize;
    OccursThen(Apply(s, 2, Create), 2, env, s');
    hide Looks;
    TheftRows(s, s', slots, max, rows, pool);
  }

  lemma TheftRows(s: Sys, s': Sys, slots: nat, max: nat, rows: seq<Row>, pool: nat)
    requires Looks(s, slots, max, rows, pool) && 1 <= max && 3 <= |rows| && Occurs(s')
    requires s' == s.(w := s'.w, pc := s.pc[2 := Running(true)]) && |s'.w.prims| == |s.w.prims|
    requires rows[0].kind.InCall? && rows[1].kind.InCall?
    requires Count(s'.w.prims[0].idx) == 0 && Count(s'.w.prims[1].idx) == 0
    requires Count(s'.w.prims[2].idx) == 2 * max - 1
    requires forall d :: 3 <= d < |s.w.prims| ==> s'.w.prims[d] == s.w.prims[d]
    ensures Looks(s', slots, max,
                  [Row(InCall, 0), Row(InCall, 0), Row(Runs, 2 * max - 1)] + rows[3..], PoolSize(s'.w.ss, 0))
  {
    hide Occurs, Count, PoolSize;
  }

  lemma TheftCounts(w: World, max: nat, env: InitEnv, slots: nat)
    requires WorldShape(w, slots) && 3 <= |w.prims| && 1 <= max && 2 * max <= slots
    requires !w.prims[2].reallocatable && w.prims[0].reallocatable && w.prims[1].reallocatable
    requires forall d :: 0 <= d < 3 ==> Steady(w.prims[d])
    requires Count(w.prims[0].idx) == max - 1 && Count(w.prims[1].idx) == max && Count(w.prims[2].idx) == 0
    ensures
      var w' := AllocateScav(w, 2, max, env, slots).0;
      && Count(w'.prims[0].idx) == 0 && Count(w'.prims[1].idx) == 0 && Count(w'.prims[2].idx) == 2 * max - 1
      && forall d :: 3 <= d < |w.prims| ==> w'.prims[d] == w.prims[d]
  {
    hide AllocateLocked, DonorsFrom, InitFrom, Count, Prefix, LiveSlots, SetSpecialNext;
    TwoDonorsAttainBound(w, max, slots);
    var (w1, got) := AllocateLocked(w, 2, max, slots);
    Events.InitKeepsContexts(LocalOf(w1, 2), 1, env);
    SpecialKeepsShape(InitFrom(LocalOf(w1, 2), 1, env).p);
  }

  /**
    For every cap there is a run in which one thread hosts 2 * cap - 1 scavengers: the bound of
    HostedBound, and the bound of one allocation, are attained.
   */
  lemma AllocationBoundIsTight(max: nat, env: InitEnv) returns (s: Sys)
    requires 1 <= max
    ensures Occurs(s) && s.max == max && |s.w.prims| == 3 && Count(s.w.prims[2].idx) == 2 * max - 1
  {
    hide Occurs, Count, PoolSize, FreshSys, Looks, BornOf;
    var slots := 2 * max;
    FreshLooks(3, 2 * max - 1, slots, max);
    s := FreshSys(3, 2 * max - 1, slots, max);
    var rows := seq(3, _ => Row(NotYet, 0));
    s := CreateRow(s, 1, env, slots, max, rows, 2 * max - 1);
    rows := rows[1 := Row(Runs, max)];
    s := CreateRow(s, 0, env, slots, max, rows, max - 1);
    rows := rows[0 := Row(Runs, max - 1)];
    s := EnterRow(s, 0, slots, max, rows, 0);
    rows := rows[0 := Row(InCall, max - 1)];
    s := EnterRow(s, 1, slots, max, rows, 0);
    rows := rows[1 := Row(InCall, max)];
    s := CreateByTheft(s, env, slots, max, rows, 0);
    LooksCount(s, slots, max, [Row(InCall, 0), Row(InCall, 0), Row(Runs, 2 * max - 1)] + rows[3..], PoolSize(s.w.ss, 0));
  }

  lemma LooksCount(s: Sys, slots: nat, max: int, rows: seq<Row>, pool: nat)
    requires Looks(s, slots, max, rows, pool) && 3 <= |rows|
    ensures Occurs(s) && s.max == max && |s.w.prims| == |rows| && Count(s.w.prims[2].idx) == rows[2].count
  {
    hide Occurs, Count, PoolSize;
  }

  // ----- A ring that stays broken --------------------------------------------------------------------

  /** A donor without scavengers is passed over. */
  lemma EmptyDonor(w: World, t: nat, d: nat, got: nat, demands: nat, slots: nat)
    requires WorldShape(w, slots) && t < |w.prims| && !w.prims[t].reallocatable && got < demands
    requires d < |w.prims| && w.prims[d].reallocatable && Steady(w.prims[d]) && Steady(w.prims[t])
    requires Count(w.prims[d].idx) == 0
    ensures DonorsFrom(w, t, d, got, demands, slots) == DonorsFrom(w, t, d + 1, got, demands, slots)
  {
    OneDonor(w, t, d, got, demands, slots);
    var x := Pair(w.prims[d], w.prims[t], w.ss);
    ReallocExact(x, t, demands, 0);
    PrefixSlots(w.prims[t].idx);
    assert Realloc(x, t, demands, 0) == (x, 0);
    hide Realloc, DonorsFrom, WorldShape, Count, Prefix;
    assert w.prims[d := w.prims[d]][t := w.prims[t]] == w.prims;
  }

  /** Thread 3 needs one; of the three threads in a call only thread 2 has any. */
  lemma LastDonorGives(w: World, slots: nat)
    requires WorldShape(w, slots) && |w.prims| == 4 && !w.prims[3].reallocatable
    requires forall d :: 0 <= d < 4 ==> Steady(w.prims[d])
    requires forall d :: 0 <= d < 3 ==> w.prims[d].reallocatable
    requires Count(w.prims[0].idx) == 0 && Count(w.prims[1].idx) == 0 && 1 <= Count(w.prims[2].idx)
    requires Count(w.prims[3].idx) + 1 < slots
    ensures
      var w' := AllocateLocked(w, 3, 1, slots).0;
      && Count(w'.prims[2].idx) == Count(w.prims[2].idx) - 1 && w'.prims[2].reallocated
      && Count(w'.prims[3].idx) == Count(w.prims[3].idx) + 1
      && w'.prims[0] == w.prims[0] && w'.prims[1] == w.prims[1]
  {
    hide Realloc, DonorsFrom, PoolFrom, Count, Hosted, Prefix, LiveSlots, IdxInRange;
    EmptyDonor(w, 3, 0, 0, 1, slots);
    EmptyDonor(w, 3, 1, 0, 1, slots);
    assert DonorsFrom(w, 3, 0, 0, 1, slots) == DonorsFrom(w, 3, 2, 0, 1, slots);
    OneDonor(w, 3, 2, 0, 1, slots);
    var x := Pair(w.prims[2], w.prims[3], w.ss);
    ReallocExact(x, 3, 1, 0);
    hide WorldShape;
    var (y, cnt) := Realloc(x, 3, 1, 0);
    assert cnt == 1 && Count(y.from.idx) == Count(x.from.idx) - 1 && y.from.reallocated;
    assert AllocateLocked(w, 3, 1, slots).0 == World(w.prims[2 := y.from][3 := y.to], y.ss);
  }

  lemma RefillCounts(w: World, max: nat, env: InitEnv, slots: nat)
    requires WorldShape(w, slots) && |w.prims| == 4 && !w.prims[3].reallocatable
    requires forall d :: 0 <= d < 4 ==> Steady(w.prims[d])
    requires forall d :: 0 <= d < 3 ==> w.prims[d].reallocatable
    requires Count(w.prims[0].idx) == 0 && Count(w.prims[1].idx) == 0 && 1 <= Count(w.prims[2].idx)
    requires Count(w.prims[3].idx) == max - 1 && max < slots
    ensures
      var w' := AllocateScav(w, 3, max, env, slots).0;
      && Count(w'.prims[2].idx) == Count(w.prims[2].idx) - 1 && w'.prims[2].reallocated
      && Count(w'.prims[3].idx) == max
      && w'.prims[0] == w.prims[0] && w'.prims[1] == w.prims[1]
  {
    LastDonorGives(w, slots);
    var w1 := AllocateLocked(w, 3, 1, slots).0;
    Events.InitKeepsContexts(LocalOf(w1, 3), 1, env);
    hide AllocateLocked, InitFrom;
    assert NeedMore(w.prims[3], max) == 1;
    hide Count;
  }

  /** One of thread 3's scavengers finishes, and thread 3 steals another one from thread 2. */
  lemma FinishByTheft(s: Sys, env: InitEnv, slots: nat, max: nat, n: nat, pool: nat) returns (s': Sys)
    requires 1 <= n && 1 <= max < slots
    requires Looks(s, slots, max, [Row(InCall, 0), Row(InCall, 0), Row(InCall, n), Row(Runs, max)], pool)
    ensures Looks(s', slots, max, [Row(InCall, 0), Row(InCall, 0), Row(InCall, n - 1), Row(Runs, max)],
                  PoolSize(s'.w.ss, 0))
    ensures s'.w.prims[2].reallocated
  {
    hide Inv, Occurs, WorldShape, Steady, Count, PoolSize, Events.SchedNext, Looks;
    BeforeTheft(s, slots, max, [Row(InCall, 0), Row(InCall, 0), Row(InCall, n), Row(Runs, max)], n, pool);
    s' := FinishOccurs(s, 3, 1, env);
    FinishWorld(s.w, max, env, slots);
    FinishRows(s, s', slots, max, n, pool);
  }

  lemma RowSays(s: Sys, t: nat, row: Row)
    requires RowOK(s, t, row)
    ensures t < |s.pc| == |s.w.prims| && WellShaped(s.w.prims[t]) && Steady(s.w.prims[t])
    ensures Count(s.w.prims[t].idx) == row.count && (s.w.prims[t].reallocatable <==> row.kind.InCall?)
    ensures row.kind.Runs? ==> s.pc[t].Running? && s.w.prims[t].ycs[0].normal != EMPTY
  {
  }

  lemma BeforeTheft(s: Sys, slots: nat, max: nat, rows: seq<Row>, n: nat, pool: nat)
    requires Looks(s, slots, max, rows, pool) && |rows| == 4
    requires rows[0] == Row(InCall, 0) && rows[1] == Row(InCall, 0) && rows[2] == Row(InCall, n) && rows[3] == Row(Runs, max)
    ensures Inv(s) && Occurs(s) && s.lock == 0 && s.slots == slots && s.max == max && |s.pc| == 4
    ensures WorldShape(s.w, slots) && |s.w.prims| == 4 && !s.w.prims[3].reallocatable
    ensures forall d :: 0 <= d < 4 ==> WellShaped(s.w.prims[d]) && Steady(s.w.prims[d])
    ensures forall d :: 0 <= d < 3 ==> s.w.prims[d].reallocatable
    ensures Count(s.w.prims[0].idx) == 0 && Count(s.w.prims[1].idx) == 0 && Count(s.w.prims[2].idx) == n
    ensures Count(s.w.prims[3].idx) == max && s.w.prims[3].ycs[0].normal != EMPTY && s.pc[3].Running?
  {
    hide Inv, Occurs, Steady, Count, PoolSize, WorldShape, RowOK, OfKind;
    LooksSteady(s, slots, max, rows, pool);
    RowSays(s, 0, Row(InCall, 0));
    RowSays(s, 1, Row(InCall, 0));
    RowSays(s, 2, Row(InCall, n));
    RowSays(s, 3, Row(Runs, max));
  }

  lemma FinishOccurs(s: Sys, t: nat, pos: nat, env: InitEnv) returns (s': Sys)
    requires Occurs(s) && Inv(s) && t < |s.pc| == |s.w.prims| && s.pc[t].Running? && s.lock == 0
    requires 1 <= pos < s.slots && WellShaped(s.w.prims[t]) && s.w.prims[t].ycs[0].normal != EMPTY
    ensures Occurs(s') && WorldShape(s.w, s.slots) && !s.w.prims[t].reallocatable
    ensures s'.w == Events.SchedNext(s.w, t, pos * YC_SIZE, s.max, env, s.slots).0
    ensures s'.pc == s.pc[t := Running(true)] && s'.lock == s.lock && s'.slots == s.slots && s'.max == s.max
  {
    assert Enabled(s, t, Finish(pos)) by {
      hide LockOK, FlagOK, Placed, ScavsOK, ThreadsOK, CountOK, Occurs;
    }
    hide Inv, Occurs, Apply, Gets, Scheduled, Events.SchedNext;
    FinishesAlone(s, t, pos, env);
    OccursNext(s, t, Finish(pos));
    s' := Scheduled(s, t, pos, env);
    LiveSchedule(s, t, pos, env);
    OccursThen(Apply(s, t, Finish(pos)), t, env, s');
  }

  lemma FinishRows(s: Sys, s': Sys, slots: nat, max: nat, n: nat, pool: nat)
    requires Looks(s, slots, max, [Row(InCall, 0), Row(InCall, 0), Row(InCall, n), Row(Runs, max)], pool)
    requires Occurs(s') && s'.lock == s.lock && s'.slots == s.slots && s'.max == s.max && 1 <= n
    requires s'.pc == s.pc[3 := Running(true)] && |s'.w.prims| == |s.w.prims|
    requires s'.w.prims[0] == s.w.prims[0] && s'.w.prims[1] == s.w.prims[1]
    requires Count(s'.w.prims[2].idx) == n - 1 && Count(s'.w.prims[3].idx) == max
    ensures Looks(s', slots, max, [Row(InCall, 0), Row(InCall, 0), Row(InCall, n - 1), Row(Runs, max)],
                  PoolSize(s'.w.ss, 0))
  {
    hide Occurs, Count, PoolSize;
  }

  lemma LiveSchedule(s: Sys, t: nat, pos: nat, env: InitEnv)
    requires Enabled(s, t, Finish(pos)) && !s.w.prims[t].reallocatable && 1 <= pos
    requires s.w.prims[t].ycs[0].normal != EMPTY
    ensures
      var s' := Scheduled(s, t, pos, env);
      && s'.w == Events.SchedNext(s.w, t, pos * YC_SIZE, s.max, env, s.slots).0
      && s'.pc == s.pc[t := Running(true)] && s'.lock == s.lock && s'.slots == s.slots && s'.max == s.max
  {
    hide Events.SchedNext, FirstUsed;
  }

  lemma FinishWorld(w: World, max: nat, env: InitEnv, slots: nat)
    requires WorldShape(w, slots) && |w.prims| == 4 && !w.prims[3].reallocatable
    requires forall d :: 0 <= d < 4 ==> Steady(w.prims[d])
    requires forall d :: 0 <= d < 3 ==> w.prims[d].reallocatable
    requires Count(w.prims[0].idx) == 0 && Count(w.prims[1].idx) == 0 && 1 <= Count(w.prims[2].idx)
    requires Count(w.prims[3].idx) == max && 1 <= max < slots && w.prims[3].ycs[0].normal != EMPTY
    ensures
      var w' := Events.SchedNext(w, 3, YC_SIZE, max, env, slots).0;
      && Count(w'.prims[2].idx) == Count(w.prims[2].idx) - 1 && w'.prims[2].reallocated
      && Count(w'.prims[3].idx) == max
      && w'.prims[0] == w.prims[0] && w'.prims[1] == w.prims[1]
  {
    hide Events.AfterPack, Events.SchedNext, Count, Hosted, AllocateScav, LiveSlots, UpdateNextMap, Events.Relinked;
    PrefixSlots(w.prims[3].idx);
    Events.SurvivorsMoveUp(w, 3, 1, slots);
    Events.FinishAndPack(w, 3, 1, slots);
    Events.SchedIsAfterPack(w, 3, 1, max, env, slots);
    var l := Events.AfterPack(w, 3, 1, slots);
    var w1 := WithLocal(w, 3, l);
    assert WorldShape(w1, slots);
    RefillCounts(w1, max, env, slots);
    UpdateKeepsShape(AllocateScav(w1, 3, max, env, slots).0.prims[3]);
  }

  /** Thread 2 leaves its call, robbed, but with no fewer than the cap. */
  lemma StaleReturn(s: Sys, slots: nat, max: nat, rows: seq<Row>, pool: nat) returns (s': Sys)
    requires Looks(s, slots, max, rows, pool) && |rows| == 4 && rows[2].kind.InCall?
    requires 1 <= max <= rows[2].count < slots - 1 && s.w.prims[2].reallocated
    ensures Occurs(s') && s'.max == max && |s'.pc| == |s'.w.prims| == 4 && s'.pc[2].Running?
    ensures
      var p := s'.w.prims[2];
      WellShaped(p) && Count(p.idx) == rows[2].count < |p.idx| - 1 && !Ring(p, Count(p.idx))
  {
    LooksSteady(s, slots, max, rows, pool);
    ReturnsStale(s, 2);
    var s1 := Apply(s, 2, Return);
    s' := Apply(s1, 2, TryExit);
    hide Apply, Inv, Enabled, Ring, Count, PoolSize, Init;
    OccursNext(s, 2, Return);
    OccursNext(s1, 2, TryExit);
    var trace :| Run(trace) && trace[|trace| - 1] == s';
    RunTheorems.LinksOverRuns(trace, |trace| - 1, 2);
  }

  lemma ReturnsStale(s: Sys, t: nat)
    requires Inv(s) && t < |s.pc| == |s.w.prims| && s.pc[t].Blocked? && s.w.prims[t].reallocatable
    requires s.w.prims[t].reallocated && Count(s.w.prims[t].idx) >= s.max
    ensures Enabled(s, t, Return) && Enabled(Apply(s, t, Return), t, TryExit)
    ensures
      var s' := Apply(Apply(s, t, Return), t, TryExit);
      && s'.max == s.max && |s'.pc| == |s'.w.prims| == |s.pc|
      && s'.pc[t] == Running(false) && s'.w.prims[t].idx == s.w.prims[t].idx
  {
    hide LockOK, FlagOK, Placed, ScavsOK, ThreadsOK, CountOK, UpdateNextMap, Count;
    ReturnEnabled(s, t);
    UpdateKeepsShape(s.w.prims[t].(reallocatable := false));
  }

  lemma ReturnEnabled(s: Sys, t: nat)
    requires Inv(s) && t < |s.pc| && s.pc[t].Blocked?
    ensures Enabled(s, t, Return) && Enabled(Apply(s, t, Return), t, TryExit)
  {
    hide LockOK, FlagOK, Placed, ScavsOK, ThreadsOK, CountOK;
    ActionKeepsInv(s, t, Return);
  }

  /**
    For every cap of at least 2 there is a run in which a robbed thread leaves its call with the
    last slot free and runs on without a ring. (With a smaller cap there is none: CapOneKeepsRing.)
   */
  lemma RobbedThreadKeepsStaleLink(max: nat, env: InitEnv) returns (s: Sys)
    requires 2 <= max
    ensures Occurs(s) && s.max == max && |s.pc| == |s.w.prims| == 4 && s.pc[2].Running?
    ensures
      var p := s.w.prims[2];
      WellShaped(p) && 1 <= Count(p.idx) < |p.idx| - 1 && !Ring(p, Count(p.idx))
  {
    hide Occurs, Count, PoolSize, FreshSys, Looks, Ring;
    var slots := 2 * max;
    var rows;
    s, rows := OverfullRun(max, env);
    var pool := PoolSize(s.w.ss, 0);
    s := EnterRow(s, 2, slots, max, rows, pool);
    assert rows[2 := Row(InCall, 2 * max - 1)]
      == [Row(InCall, 0), Row(InCall, 0), Row(InCall, 2 * max - 1), Row(Runs, max)];
    s := FinishByTheft(s, env, slots, max, 2 * max - 1, pool);
    rows := [Row(InCall, 0), Row(InCall, 0), Row(InCall, 2 * max - 1 - 1), Row(Runs, max)];
    s := StaleReturn(s, slots, max, rows, PoolSize(s.w.ss, 0));
  }

  /** Threads 0 and 1 are in a call, robbed of everything; thread 2 is over the cap, thread 3 at it. */
  lemma OverfullRun(max: nat, env: InitEnv) returns (s: Sys, rows: seq<Row>)
    requires 2 <= max
    ensures rows == [Row(InCall, 0), Row(InCall, 0), Row(Runs, 2 * max - 1), Row(Runs, max)]
    ensures Looks(s, 2 * max, max, rows, PoolSize(s.w.ss, 0))
  {
    hide Occurs, Count, PoolSize, FreshSys, Looks, BornOf;
    var slots := 2 * max;
    FreshLooks(4, 3 * max - 1, slots, max);
    s := FreshSys(4, 3 * max - 1, slots, max);
    rows := seq(4, _ => Row(NotYet, 0));
    s := CreateRow(s, 1, env, slots, max, rows, 3 * max - 1);
    rows := rows[1 := Row(Runs, max)];
    s := CreateRow(s, 3, env, slots, max, rows, 2 * max - 1);
    rows := rows[3 := Row(Runs, max)];
    s := CreateRow(s, 0, env, slots, max, rows, max - 1);
    rows := rows[0 := Row(Runs, max - 1)];
    s := EnterRow(s, 0, slots, max, rows, 0);
    rows := rows[0 := Row(InCall, max - 1)];
    s := EnterRow(s, 1, slots, max, rows, 0);
    rows := rows[1 := Row(InCall, max)];
    s := CreateByTheft(s, env, slots, max, rows, 0);
    rows := [Row(InCall, 0), Row(InCall, 0), Row(Runs, 2 * max - 1)] + rows[3..];
  }

  // ----- A full table --------------------------------------------------------------------------------

  /** For every table size there is a run in which a thread uses all its slots and has no ring. */
  lemma FullThreadHasNoRing(slots: nat, env: InitEnv) returns (s: Sys)
    requires 2 <= slots
    ensures Occurs(s) && |s.pc| == |s.w.prims| == 1 && s.pc[0].Running?
    ensures
      var p := s.w.prims[0];
      Shape(p, slots) && Count(p.idx) == slots - 1 && !Ring(p, Count(p.idx))
  {
    hide Count, PoolSize, Inv, Init, Ring, WorldShape;
    FreshLooks(1, slots - 1, slots, slots - 1);
    s := FreshSys(1, slots - 1, slots, slots - 1);
    var rows := seq(1, _ => Row(NotYet, 0));
    hide FreshSys;
    s := CreateRow(s, 0, env, slots, slots - 1, rows, slots - 1);
    rows := rows[0 := Row(Runs, slots - 1)];
    LooksSteady(s, slots, slots - 1, rows, 0);
    assert RowOK(s, 0, rows[0]);
    ShapeOf(s, 0);
    var trace :| Run(trace) && trace[|trace| - 1] == s;
    RunTheorems.LinksOverRuns(trace, |trace| - 1, 0);
  }

  lemma ShapeOf(s: Sys, t: nat)
    requires Inv(s) && t < |s.w.prims|
    ensures Shape(s.w.prims[t], s.slots)
  {
  }

  // ----- A stolen scavenger --------------------------------------------------------------------------

  /** Thread 1 is created while thread 0 is in a call with the only scavenger there is. */
  lemma StealOnly(w: World, env: InitEnv, slots: nat)
    requires WorldShape(w, slots) && |w.prims| == 2 && |w.ss| == 1 && 2 <= slots
    requires w.prims[0].reallocatable && !w.prims[1].reallocatable && Steady(w.prims[0]) && Steady(w.prims[1])
    requires Count(w.prims[0].idx) == 1 && Count(w.prims[1].idx) == 0
    ensures
      var w' := AllocateScav(w, 1, 1, env, slots).0;
      w'.prims[1].idx[1] == 0 && w'.ss[0].crtPos == 1
  {
    var x := Pair(w.prims[0], w.prims[1], w.ss);
    OneDonor(w, 1, 0, 0, 1, slots);
    StealSlots(x, 1);
    var (y, o) := StealOne(x, 1);
    assert Realloc(x, 1, 1, 0) == (y, 1) by {
      assert Realloc(y, 1, 1, 1) == (y, 1);
    }
    assert x.from.idx[1] == 0 && y.to.idx[1] == 0 && y.ss[0].crtPos == 1;
    hide StealOne, Realloc, DonorsFrom, Prefix, LiveSlots;
    var w1 := AllocateLocked(w, 1, 1, slots).0;
    assert w1 == World(w.prims[0 := y.from][1 := y.to], y.ss);
    Events.InitKeepsContexts(LocalOf(w1, 1), 1, env);
  }

  /**
    A run in which thread 1 has stolen the only scavenger. When that finishes, its crt_pos, the slot
    number 1, decodes to 0: the live primary of thread 1 is marked finished, the scavenger stays
    hosted and unfinished, and no number of cleanup events gets rid of it.
   */
  lemma StolenScavengerNeverRetires(env: InitEnv) returns (s: Sys)
    ensures Occurs(s) && |s.w.ss| == 1 && s.w.ss[0].yc == Some(Loc(1, 1)) && s.w.ss[0].crtPos == 1
    ensures Enabled(s, 1, Finish(Events.Decode(s.w.ss[0].crtPos))) && s.pc[1].Running?
    ensures
      var s' := Apply(s, 1, Finish(Events.Decode(s.w.ss[0].crtPos)));
      && s'.pc[1].Draining? && s'.w.prims[1].ycs[0].normal == EMPTY
      && s'.w.prims[1].idx[1] == 0 && !s'.w.ss[0].finished
      && Sound(LocalOf(s'.w, 1)) && Events.LocallyPlaced(LocalOf(s'.w, 1), 1)
      && forall k: nat :: Count(Events.Drain(LocalOf(s'.w, 1), 1, k).p.idx) != 0
  {
    var slots := 3;
    s := StolenRun(env, slots);
    OccursInv(s);
    assert Enabled(s, 1, Finish(0));
    ActionKeepsInv(s, 1, Finish(0));
    assert LivesAt(s.w.ss, s.w.prims[1].idx[1], 1, 1);
    var s' := Apply(s, 1, Finish(0));
    MarkedByMistake(s);
    hide Apply, Enabled;
    StuckForGood(s', 1, 1);
  }

  lemma MarkedByMistake(s: Sys)
    requires Enabled(s, 1, Finish(0)) && s.pc[1].Running? && s.w.prims[1].idx[0] == EMPTY
    requires 2 <= s.slots && s.w.prims[1].idx[1] != EMPTY
    ensures
      var s' := Apply(s, 1, Finish(0));
      && |s'.pc| == |s.pc| && s'.pc[1].Draining? && |s'.w.prims| == |s.w.prims|
      && s'.w.prims[1] == SetNormal(s.w.prims[1], 0, EMPTY) && s'.w.ss == s.w.ss
  {
  }

  lemma StuckForGood(s: Sys, t: nat, q: nat)
    requires Inv(s) && t < |s.w.prims| && 1 <= q < |s.w.prims[t].idx| && s.w.prims[t].idx[q] != EMPTY
    requires Sound(LocalOf(s.w, t)) && !Events.Scaled(LocalOf(s.w, t), q)
    ensures Events.LocallyPlaced(LocalOf(s.w, t), t)
    ensures forall k: nat :: Count(Events.Drain(LocalOf(s.w, t), t, k).p.idx) != 0
  {
    var l := LocalOf(s.w, t);
    assert ThreadOK(s.w.prims[t], s.pc[t], s.w.ss, s.max);
    assert Events.LocallyPlaced(l, t);
    hide Inv;
    Events.CleanupDrainsIff(l, t);
  }

  lemma StolenRun(env: InitEnv, slots: nat) returns (s: Sys)
    requires 2 <= slots
    ensures Occurs(s) && |s.pc| == |s.w.prims| == 2 && |s.w.ss| == 1 && s.slots == slots
    ensures s.pc[1].Running? && |s.w.prims[1].idx| == slots && s.w.prims[1].idx[1] == 0 && s.w.ss[0].crtPos == 1
  {
    hide Count, PoolSize, Inv, Init, WorldShape, Occurs, Apply, Enabled, Gets, Steady, AllocateScav, Born;
    FreshLooks(2, 1, slots, 1);
    s := FreshSys(2, 1, slots, 1);
    var rows := seq(2, _ => Row(NotYet, 0));
    s := CreateRow(s, 0, env, slots, 1, rows, 1);
    rows := rows[0 := Row(Runs, 1)];
    s := EnterRow(s, 0, slots, 1, rows, 0);
    rows := rows[0 := Row(InCall, 1)];
    LooksSteady(s, slots, 1, rows, 0);
    assert RowOK(s, 0, rows[0]) && RowOK(s, 1, rows[1]);
    CreatesAlone(s, 1, env);
    OccursNext(s, 1, Create);
    StealOnly(s.w, env, slots);
    BornCount(s.w, 1, 1, env, slots);
    var s' := s.(w := Born(s.w, 1, 1, env, slots), pc := s.pc[1 := Running(true)]);
    OccursThen(Apply(s, 1, Create), 1, env, s');
    s := s';
    OccursInv(s);
    ShapeOf(s, 1);
  }
}
