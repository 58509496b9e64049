/**
  The two ways in which this model tells the control flow of libmsh agree: a thread that nobody
  interrupts computes, action by action, what the functions of Allocator and Events say.
 */
module BigStep {
  import opened Wrappers
  import opened Tables
  import opened SlotList
  import opened Scheduler
  import opened Allocator
  import opened Protocol
  import opened Invariant
  import opened InvariantProof
  import Events

  // ----- Uninterrupted actions -------------------------------------------------------------------

  /** What the init function that t is about to call leaves behind. */
  function EffectFor(s: Sys, t: nat, env: InitEnv): InitEffect
    requires t < |s.pc| == |s.w.prims|
  {
    var c, idx := s.pc[t], s.w.prims[t].idx;
    env(if c.Initing? && c.pos < |idx| then idx[c.pos] else EMPTY)
  }

  function Next(s: Sys, t: nat, env: InitEnv): (r: Sys)
    requires Inv(s) && t < |s.pc| && Internal(s.pc[t])
    ensures Inv(r)
  {
    ActionKeepsInv(s, t, Advance(EffectFor(s, t, env)));
    Apply(s, t, Advance(EffectFor(s, t, env)))
  }

  /** Up to n internal actions of t, with nobody in between. */
  function Alone(s: Sys, t: nat, n: nat, env: InitEnv): (r: Sys)
    requires Inv(s)
    ensures Inv(r)
    decreases n
  {
    if n == 0 || t >= |s.pc| || !Internal(s.pc[t]) then s else Alone(Next(s, t, env), t, n - 1, env)
  }

  /** Left alone, t gets from s to s'. */
  ghost predicate Gets(s: Sys, t: nat, env: InitEnv, s': Sys) {
    Inv(s) && exists n: nat :: Alone(s, t, n, env) == s'
  }

  lemma GetsNowhere(s: Sys, t: nat, env: InitEnv)
    requires Inv(s)
    ensures Gets(s, t, env, s)
  {
    hide Inv;
    assert Alone(s, t, 0, env) == s;
  }

  /** One action, and then on. */
  lemma GetsOn(s: Sys, t: nat, env: InitEnv, s': Sys)
    requires Inv(s) && t < |s.pc| && Internal(s.pc[t]) && Gets(Next(s, t, env), t, env, s')
    ensures Gets(s, t, env, s')
  {
    hide Inv, Next;
    var n: nat :| Alone(Next(s, t, env), t, n, env) == s';
    assert Alone(s, t, n + 1, env) == s';
  }

  lemma {:induction false} AloneAgain(s: Sys, t: nat, n: nat, m: nat, env: InitEnv)
    requires Inv(s)
    ensures exists k: nat :: Alone(s, t, k, env) == Alone(Alone(s, t, n, env), t, m, env)
    decreases n
  {
    hide Inv, Next;
    if n == 0 || t >= |s.pc| || !Internal(s.pc[t]) {
      assert Alone(s, t, m, env) == Alone(Alone(s, t, n, env), t, m, env);
    } else {
      AloneAgain(Next(s, t, env), t, n - 1, m, env);
      var k: nat :| Alone(Next(s, t, env), t, k, env) == Alone(Alone(Next(s, t, env), t, n - 1, env), t, m, env);
      assert Alone(s, t, k + 1, env) == Alone(Alone(s, t, n, env), t, m, env);
    }
  }

  lemma GetsFurther(s: Sys, t: nat, env: InitEnv, s1: Sys, s2: Sys)
    requires Gets(s, t, env, s1) && Gets(s1, t, env, s2)
    ensures Gets(s, t, env, s2)
  {
    hide Inv, Alone;
    var n: nat :| Alone(s, t, n, env) == s1;
    var m: nat :| Alone(s1, t, m, env) == s2;
    AloneAgain(s, t, n, m, env);
  }

  // ----- realloc_scav ----------------------------------------------------------------------------

  /** The tables after a theft from d by t, and t at cnt scavengers from d. */
  function Stolen(s: Sys, t: nat, y: Pair, cnt: nat): Sys
    requires t < |s.pc| == |s.w.prims| && s.pc[t].Stealing? && s.pc[t].d < |s.pc|
  {
    var c := s.pc[t];
    s.(w := World(s.w.prims[c.d := y.from][t := y.to], y.ss),
       pc := s.pc[t := Stealing(c.who, c.need, c.d, c.got, cnt)])
  }

  lemma StealPremises(s: Sys, t: nat)
    requires Inv(s) && t < |s.pc| && s.pc[t].Stealing?
    ensures
      var c := s.pc[t];
      && |s.pc| == |s.w.prims| && c.d < |s.pc| && c.d != t && c.cnt <= c.need
      && SoundPair(Pair(s.w.prims[c.d], s.w.prims[t], s.w.ss))
  {
    assert PcTyped(s, t);
  }

  lemma StealRound(s: Sys, t: nat)
    requires At(s, t) && s.pc[t].Stealing? && SoundPair(Pair(s.w.prims[s.pc[t].d], s.w.prims[t], s.w.ss))
    ensures
      var c := s.pc[t];
      var x := Pair(s.w.prims[c.d], s.w.prims[t], s.w.ss);
      var (y, cnt) := Realloc(x, t, c.need, c.cnt);
      DoSteal(s, t) ==
        if c.cnt < c.need && StealOne(x, t).1.Moved? then Stolen(s, t, StealOne(x, t).0, c.cnt + 1)
        else ReleaseDonor(Stolen(s, t, y, cnt), t)
  {
    var c := s.pc[t];
    var x := Pair(s.w.prims[c.d], s.w.prims[t], s.w.ss);
    if !(c.cnt < c.need && StealOne(x, t).1.Moved?) {
      var (y, cnt) := Realloc(x, t, c.need, c.cnt);
      assert cnt == c.cnt && y.to == x.to && y.ss == x.ss;
      hide Realloc, StealOne, WorldShape, SoundPair, ReleaseDonor;
      assert s.w.prims[c.d := y.from][t := y.to] == s.w.prims[c.d := y.from];
      assert s.w.prims[c.d := s.w.prims[c.d]] == s.w.prims;
      assert s.pc[t := c] == s.pc;
    }
  }

  /** The state in which t has stolen what realloc_scav says and has given the flag back. */
  function AfterTheft(s: Sys, t: nat): Sys
    requires t < |s.pc| == |s.w.prims| && s.pc[t].Stealing? && s.pc[t].d < |s.pc| && s.pc[t].cnt <= s.pc[t].need
    requires SoundPair(Pair(s.w.prims[s.pc[t].d], s.w.prims[t], s.w.ss))
  {
    var c := s.pc[t];
    var (y, cnt) := Realloc(Pair(s.w.prims[c.d], s.w.prims[t], s.w.ss), t, c.need, c.cnt);
    ReleaseDonor(Stolen(s, t, y, cnt), t)
  }

  lemma ReallocGoesOn(x: Pair, t: nat, demands: nat, got: nat)
    requires SoundPair(x) && got < demands && StealOne(x, t).1.Moved?
    ensures Realloc(x, t, demands, got) == Realloc(StealOne(x, t).0, t, demands, got + 1)
  {
    hide StealOne;
  }

  lemma TheftGoesOn(s: Sys, t: nat)
    requires t < |s.pc| == |s.w.prims| && s.pc[t].Stealing? && s.pc[t].d < |s.pc| && s.pc[t].cnt < s.pc[t].need
    requires s.pc[t].d != t && SoundPair(Pair(s.w.prims[s.pc[t].d], s.w.prims[t], s.w.ss))
    requires StealOne(Pair(s.w.prims[s.pc[t].d], s.w.prims[t], s.w.ss), t).1.Moved?
    ensures
      var y := StealOne(Pair(s.w.prims[s.pc[t].d], s.w.prims[t], s.w.ss), t).0;
      AfterTheft(s, t) == AfterTheft(Stolen(s, t, y, s.pc[t].cnt + 1), t)
  {
    hide Realloc, StealOne, SoundPair, ReleaseDonor;
    var c := s.pc[t];
    var x := Pair(s.w.prims[c.d], s.w.prims[t], s.w.ss);
    var y := StealOne(x, t).0;
    var s1 := Stolen(s, t, y, c.cnt + 1);
    ReallocGoesOn(x, t, c.need, c.cnt);
    assert Pair(s1.w.prims[c.d], s1.w.prims[t], s1.w.ss) == y;
    var (z, cnt) := Realloc(y, t, c.need, c.cnt + 1);
    assert Stolen(s1, t, z, cnt) == Stolen(s, t, z, cnt);
  }

  lemma NextSteals(s: Sys, t: nat, env: InitEnv)
    requires Inv(s) && t < |s.pc| && s.pc[t].Stealing?
    ensures At(s, t) && Next(s, t, env) == DoSteal(s, t)
  {
    hide DoSteal, LockOK, FlagOK, Placed, ScavsOK, ThreadsOK, CountOK;
  }

  /** The rounds that t takes alone are those of realloc_scav, and then it gives the flag back. */
  lemma {:induction false} StealsAlone(s: Sys, t: nat, env: InitEnv)
    requires Inv(s) && t < |s.pc| && s.pc[t].Stealing?
    ensures
      && |s.pc| == |s.w.prims| && s.pc[t].d < |s.pc| && s.pc[t].cnt <= s.pc[t].need
      && SoundPair(Pair(s.w.prims[s.pc[t].d], s.w.prims[t], s.w.ss))
      && Gets(s, t, env, AfterTheft(s, t))
    decreases s.pc[t].need - s.pc[t].cnt
  {
    StealPremises(s, t);
    NextSteals(s, t, env);
    hide Inv, SoundPair, Typed, PcTyped, Realloc, StealOne, ReleaseDonor, Gets, DoSteal, Next;
    var c := s.pc[t];
    var x := Pair(s.w.prims[c.d], s.w.prims[t], s.w.ss);
    StealRound(s, t);
    if c.cnt < c.need && StealOne(x, t).1.Moved? {
      TheftGoesOn(s, t);
      hide AfterTheft;
      StealsAlone(Next(s, t, env), t, env);
    } else {
      GetsNowhere(Next(s, t, env), t, env);
    }
    GetsOn(s, t, env, AfterTheft(s, t));
  }

  lemma GetsToInv(s: Sys, t: nat, env: InitEnv, s': Sys)
    requires Gets(s, t, env, s')
    ensures Inv(s')
  {
    hide Inv;
  }

  // ----- The donor loop --------------------------------------------------------------------------

  predicate Looping(s: Sys, t: nat) {
    && t < |s.pc| == |s.w.prims| && WorldShape(s.w, s.slots) && !s.w.prims[t].reallocatable
    && s.pc[t].Donors? && s.pc[t].got < s.pc[t].need && s.pc[t].d <= |s.pc|
  }

  lemma DonorPremises(s: Sys, t: nat)
    requires Inv(s) && t < |s.pc| && s.pc[t].Donors?
    ensures At(s, t) && Looping(s, t)
    ensures s.pc[t].d < |s.pc| && s.w.prims[s.pc[t].d].reallocatable ==> s.pc[t].d != t
  {
    assert PcTyped(s, t);
    AllocatedFlag(s, t);
  }

  function AfterDonors(s: Sys, t: nat): Sys
    requires Looping(s, t)
  {
    DonorsDone(s, t, DonorsFrom(s.w, t, s.pc[t].d, s.pc[t].got, s.pc[t].need, s.slots))
  }

  lemma NextAsksDonor(s: Sys, t: nat, env: InitEnv)
    requires Inv(s) && t < |s.pc| && s.pc[t].Donors?
    ensures At(s, t) && Next(s, t, env) == DoDonor(s, t)
  {
    hide DoDonor, LockOK, FlagOK, Placed, ScavsOK, ThreadsOK, CountOK;
  }

  /** t has taken donor d's flag. */
  function Asked(s: Sys, t: nat): Sys
    requires Looping(s, t) && s.pc[t].d < |s.pc|
  {
    var c := s.pc[t];
    s.(w := s.w.(prims := s.w.prims[c.d := s.w.prims[c.d].(reallocatable := false)]),
       pc := s.pc[t := Stealing(c.who, c.need, c.d, c.got, 0)])
  }

  /** t has got what realloc_scav gives it from donor d, and d has its flag back. */
  function Answered(s: Sys, t: nat): Sys
    requires Looping(s, t) && s.pc[t].d < |s.pc|
  {
    var c := s.pc[t];
    var (y, cnt) := Realloc(Pair(s.w.prims[c.d], s.w.prims[t], s.w.ss), t, c.need, 0);
    var s2 := s.(w := World(s.w.prims[c.d := y.from][t := y.to], y.ss));
    if c.got + cnt >= c.need then Unlocked(s2.(pc := s.pc[t := Initing(c.who, 1, c.got + cnt)]))
    else s2.(pc := s.pc[t := Donors(c.who, c.need, c.d + 1, c.got + cnt)])
  }

  lemma AskedPair(s: Sys, t: nat)
    requires Looping(s, t) && s.pc[t].d < |s.pc| && s.pc[t].d != t
    ensures
      var s1, d := Asked(s, t), s.pc[t].d;
      var x := Pair(s.w.prims[d], s.w.prims[t], s.w.ss);
      && SoundPair(x) && |s1.pc| == |s1.w.prims| == |s.pc|
      && Pair(s1.w.prims[d], s1.w.prims[t], s1.w.ss) == x.(from := x.from.(reallocatable := false))
      && SoundPair(x.(from := x.from.(reallocatable := false)))
  {
  }

  /** A donor whose flag is up: after its flag is back, the tables are those of the donor loop. */
  lemma DonorRobbed(s: Sys, t: nat)
    requires Looping(s, t) && s.pc[t].d < |s.pc| && s.pc[t].d != t && s.w.prims[s.pc[t].d].reallocatable
    ensures AfterTheft.requires(Asked(s, t), t) && AfterTheft(Asked(s, t), t) == Answered(s, t)
  {
    hide Realloc, SoundPair, WorldShape;
    var c, s1 := s.pc[t], Asked(s, t);
    var x := Pair(s.w.prims[c.d], s.w.prims[t], s.w.ss);
    AskedPair(s, t);
    FlagIsApart(x, t, c.need, 0);
    StealKeepsFlags(x, t, c.need, 0);
    var (y, cnt) := Realloc(x, t, c.need, 0);
    var y1 := y.(from := y.from.(reallocatable := false));
    var s2 := Stolen(s1, t, y1, cnt);
    assert y1.from.(reallocatable := true) == y.from;
    assert AfterTheft(s1, t) == ReleaseDonor(s2, t);
    hide AfterTheft;
    assert s2.w.prims[c.d := y.from] == s.w.prims[c.d := y.from][t := y.to];
    var done, more := Initing(c.who, 1, c.got + cnt), Donors(c.who, c.need, c.d + 1, c.got + cnt);
    assert s2.pc[t := done] == s.pc[t := done] && s2.pc[t := more] == s.pc[t := more];
  }

  lemma NextIsAsked(s: Sys, t: nat)
    requires At(s, t) && Looping(s, t) && s.pc[t].d < |s.pc| && s.w.prims[s.pc[t].d].reallocatable
    ensures DoDonor(s, t) == Asked(s, t)
  {
    hide WorldShape, PcTyped;
  }

  lemma OneDonor(w: World, t: nat, d: nat, got: nat, demands: nat, slots: nat)
    requires WorldShape(w, slots) && t < |w.prims| && !w.prims[t].reallocatable && got < demands
    requires d < |w.prims| && w.prims[d].reallocatable
    ensures
      var (y, cnt) := Realloc(Pair(w.prims[d], w.prims[t], w.ss), t, demands, 0);
      var w' := World(w.prims[d := y.from][t := y.to], y.ss);
      && WorldShape(w', slots) && |w'.prims| == |w.prims| && !w'.prims[t].reallocatable
      && DonorsFrom(w, t, d, got, demands, slots)
        == if got + cnt >= demands then (w', got + cnt) else DonorsFrom(w', t, d + 1, got + cnt, demands, slots)
  {
    StealKeepsFlags(Pair(w.prims[d], w.prims[t], w.ss), t, demands, 0);
    hide Realloc, IdxInRange;
  }

  /** Where the donor loop gets with tables w and got scavengers. */
  function DonorsDone(s: Sys, t: nat, r: (World, nat)): Sys
    requires t < |s.pc| && s.pc[t].Donors?
  {
    var c := s.pc[t];
    if r.1 >= c.need then Unlocked(s.(w := r.0, pc := s.pc[t := Initing(c.who, 1, r.1)]))
    else s.(w := r.0, pc := s.pc[t := Pool(c.who, c.need, 0, r.1)])
  }

  lemma SameDone(s: Sys, s': Sys, t: nat, r: (World, nat))
    requires t < |s.pc| && s.pc[t].Donors? && |s'.pc| == |s.pc| && s'.pc[t].Donors?
    requires s'.pc[t].who == s.pc[t].who && s'.pc[t].need == s.pc[t].need
    requires s' == s.(w := s'.w, pc := s.pc[t := s'.pc[t]])
    ensures DonorsDone(s, t, r) == DonorsDone(s', t, r)
  {
    var c := s.pc[t];
    var done, more := Initing(c.who, 1, r.1), Pool(c.who, c.need, 0, r.1);
    assert s'.pc[t := done] == s.pc[t := done] && s'.pc[t := more] == s.pc[t := more];
  }

  lemma DonorsUnroll(s: Sys, t: nat)
    requires Looping(s, t) && s.pc[t].d < |s.pc| && s.pc[t].d != t && s.w.prims[s.pc[t].d].reallocatable
    ensures
      var s2 := Answered(s, t);
      && |s2.pc| == |s.pc| && (s2.pc[t].Donors? ==> Looping(s2, t) && s2.pc[t].d == s.pc[t].d + 1)
      && AfterDonors(s, t) == if s2.pc[t].Donors? then AfterDonors(s2, t) else s2
  {
    hide Realloc, WorldShape, DonorsFrom;
    var c := s.pc[t];
    OneDonor(s.w, t, c.d, c.got, c.need, s.slots);
    var s2 := Answered(s, t);
    if s2.pc[t].Donors? {
      hide DonorsDone;
      SameDone(s, s2, t, DonorsFrom(s.w, t, c.d, c.got, c.need, s.slots));
    }
  }

  lemma {:induction false} DonorsAlone(s: Sys, t: nat, env: InitEnv)
    requires Inv(s) && t < |s.pc| && s.pc[t].Donors?
    ensures Looping(s, t) && Gets(s, t, env, AfterDonors(s, t))
    decreases |s.pc| - s.pc[t].d
  {
    DonorPremises(s, t);
    NextAsksDonor(s, t, env);
    var c, s1 := s.pc[t], Next(s, t, env);
    hide Inv, Typed, PcTyped, Gets, Next, DonorsFrom, WorldShape;
    if c.d < |s.pc| && s.w.prims[c.d].reallocatable {
      NextIsAsked(s, t);
      DonorRobbed(s, t);
      StealsAlone(s1, t, env);
      DonorsUnroll(s, t);
      hide AfterDonors, AfterTheft, Realloc, DoDonor, Looping, Answered;
      var s2 := Answered(s, t);
      GetsToInv(s1, t, env, s2);
      if s2.pc[t].Donors? {
        DonorsAlone(s2, t, env);
        GetsFurther(s1, t, env, s2, AfterDonors(s2, t));
      }
    } else {
      DonorsSkip(s, t);
      if c.d < |s.pc| {
        hide AfterDonors, DoDonor;
        DonorsAlone(s1, t, env);
      } else {
        GetsNowhere(s1, t, env);
      }
    }
    GetsOn(s, t, env, AfterDonors(s, t));
  }

  lemma DonorsSkip(s: Sys, t: nat)
    requires At(s, t) && Looping(s, t) && (s.pc[t].d < |s.pc| ==> !s.w.prims[s.pc[t].d].reallocatable)
    ensures
      var s1 := DoDonor(s, t);
      && |s1.pc| == |s.pc|
      && (s.pc[t].d == |s.pc| ==> s1 == AfterDonors(s, t))
      && (s.pc[t].d < |s.pc| ==>
        s1.pc[t].Donors? && s1.pc[t].d == s.pc[t].d + 1 && Looping(s1, t) && AfterDonors(s1, t) == AfterDonors(s, t))
  {
    hide WorldShape;
  }

  // ----- The pool loop ---------------------------------------------------------------------------

  predicate Scanning(s: Sys, t: nat) {
    && t < |s.pc| == |s.w.prims| && Sound(LocalOf(s.w, t))
    && s.pc[t].Pool? && s.pc[t].got < s.pc[t].need && s.pc[t].i <= |s.w.ss|
  }

  function AfterPool(s: Sys, t: nat): Sys
    requires Scanning(s, t)
  {
    var c := s.pc[t];
    var (l, got) := PoolFrom(LocalOf(s.w, t), t, c.i, c.got, c.need);
    Unlocked(s.(w := WithLocal(s.w, t, l), pc := s.pc[t := Initing(c.who, 1, got)]))
  }

  lemma PoolPremises(s: Sys, t: nat, env: InitEnv)
    requires Inv(s) && t < |s.pc| && s.pc[t].Pool?
    ensures At(s, t) && Scanning(s, t)
    ensures Next(s, t, env) == DoPool(s, t)
  {
    hide DoPool, LockOK, FlagOK, Placed, ScavsOK, ThreadsOK, CountOK;
    assert PcTyped(s, t);
  }

  lemma PoolUnroll(s: Sys, t: nat)
    requires At(s, t) && Scanning(s, t)
    ensures
      var s1 := DoPool(s, t);
      && |s1.pc| == |s.pc| && |s1.w.prims| == |s.w.prims| && |s1.w.ss| == |s.w.ss|
      && (s1.pc[t].Pool? ==> s1.pc[t].i == s.pc[t].i + 1 && Scanning(s1, t))
      && AfterPool(s, t) == if s1.pc[t].Pool? then AfterPool(s1, t) else s1
  {
    hide WorldShape, PoolOne;
    var s1, c := DoPool(s, t), s.pc[t];
    assert s.w.prims[t := s.w.prims[t]] == s.w.prims;
    if c.i < |s.w.ss| {
      assert LocalOf(s1.w, t) == PoolOne(LocalOf(s.w, t), t, c.i).0;
    }
    if s1.pc[t].Pool? {
      var (l, got) := PoolFrom(LocalOf(s1.w, t), t, c.i + 1, s1.pc[t].got, c.need);
      assert s1.w.prims[t := l.p] == s.w.prims[t := l.p];
      assert s1.pc[t := Initing(c.who, 1, got)] == s.pc[t := Initing(c.who, 1, got)];
    }
  }

  lemma {:induction false} PoolAlone(s: Sys, t: nat, env: InitEnv)
    requires Inv(s) && t < |s.pc| && s.pc[t].Pool?
    ensures Scanning(s, t) && Gets(s, t, env, AfterPool(s, t))
    decreases |s.w.ss| - s.pc[t].i
  {
    PoolPremises(s, t, env);
    PoolUnroll(s, t);
    hide Inv, Gets, Next, DoPool, AfterPool, At;
    var s1 := Next(s, t, env);
    if s1.pc[t].Pool? {
      PoolAlone(s1, t, env);
    } else {
      GetsNowhere(s1, t, env);
    }
    GetsOn(s, t, env, AfterPool(s, t));
  }

  // ----- Init calls and the end of allocate_scav -------------------------------------------------

  predicate Calling(s: Sys, t: nat) {
    && t < |s.pc| == |s.w.prims| && Sound(LocalOf(s.w, t))
    && s.pc[t].Initing? && s.pc[t].pos <= s.slots == |s.w.prims[t].idx|
  }

  function AfterInits(s: Sys, t: nat, env: InitEnv): Sys
    requires Calling(s, t)
  {
    var c := s.pc[t];
    var l := InitFrom(LocalOf(s.w, t), c.pos, env);
    Allocated(s.(w := s.w.(ss := l.ss)), t, c.who, c.got, SetSpecialNext(l.p))
  }

  lemma InitPremises(s: Sys, t: nat, env: InitEnv)
    requires Inv(s) && t < |s.pc| && s.pc[t].Initing?
    ensures At(s, t) && Calling(s, t)
    ensures Next(s, t, env) == DoInit(s, t, EffectFor(s, t, env))
  {
    hide DoInit, LockOK, FlagOK, Placed, ScavsOK, ThreadsOK, CountOK;
    assert PcTyped(s, t);
  }

  lemma InitUnroll(s: Sys, t: nat, env: InitEnv)
    requires At(s, t) && Calling(s, t)
    ensures
      var s1 := DoInit(s, t, EffectFor(s, t, env));
      && |s1.pc| == |s.pc| && |s1.w.prims| == |s.w.prims| && s1.slots == s.slots
      && (s1.pc[t].Initing? ==> s1.pc[t].pos == s.pc[t].pos + 1 && Calling(s1, t))
      && AfterInits(s, t, env) == if s1.pc[t].Initing? then AfterInits(s1, t, env) else s1
  {
    hide WorldShape, InitOne, SetSpecialNext, UpdateNextMap;
    var s1, c := DoInit(s, t, EffectFor(s, t, env)), s.pc[t];
    if c.pos < s.slots {
      var l := InitFrom(LocalOf(s1.w, t), c.pos + 1, env);
      assert LocalOf(s1.w, t) == InitOne(LocalOf(s.w, t), c.pos, EffectFor(s, t, env));
      SameAllocated(s.(w := s.w.(ss := l.ss)), s1.(w := s1.w.(ss := l.ss)), t, c.who, c.got, l.p);
    }
  }

  lemma SameAllocated(s: Sys, s': Sys, t: nat, who: Caller, got: nat, p: Prim)
    requires t < |s.pc| == |s.w.prims| && |s'.pc| == |s.pc| && |s'.w.prims| == |s.w.prims| && WellShaped(p)
    requires s' == s.(w := s'.w, pc := s.pc[t := s'.pc[t]])
    requires s'.w == s.w.(prims := s.w.prims[t := s'.w.prims[t]])
    ensures WellShaped(SetSpecialNext(p))
    ensures Allocated(s, t, who, got, SetSpecialNext(p)) == Allocated(s', t, who, got, SetSpecialNext(p))
  {
    hide UpdateNextMap;
    var r := Allocated(s, t, who, got, SetSpecialNext(p));
    assert s'.w.prims[t := r.w.prims[t]] == s.w.prims[t := r.w.prims[t]];
    assert s'.pc[t := r.pc[t]] == s.pc[t := r.pc[t]];
  }

  lemma {:induction false} InitsAlone(s: Sys, t: nat, env: InitEnv)
    requires Inv(s) && t < |s.pc| && s.pc[t].Initing?
    ensures Calling(s, t) && Gets(s, t, env, AfterInits(s, t, env))
    decreases s.slots - s.pc[t].pos
  {
    InitPremises(s, t, env);
    InitUnroll(s, t, env);
    hide Inv, Gets, Next, DoInit, AfterInits, At;
    var s1 := Next(s, t, env);
    if s1.pc[t].Initing? {
      InitPremises(s1, t, env);
      InitsAlone(s1, t, env);
    } else {
      GetsNowhere(s1, t, env);
    }
    GetsOn(s, t, env, AfterInits(s, t, env));
  }

  // ----- allocate_scav ---------------------------------------------------------------------------

  predicate Asking(s: Sys, t: nat) {
    && t < |s.pc| == |s.w.prims| && WorldShape(s.w, s.slots) && !s.w.prims[t].reallocatable
    && s.pc[t].AllocWait? && 1 <= s.pc[t].need == NeedMore(s.w.prims[t], s.max)
  }

  lemma AllocPremises(s: Sys, t: nat, env: InitEnv)
    requires Inv(s) && t < |s.pc| && s.pc[t].AllocWait? && s.lock == 0
    ensures Asking(s, t)
    ensures Next(s, t, env) == s.(lock := 1, pc := s.pc[t := Donors(s.pc[t].who, s.pc[t].need, 0, 0)])
  {
    assert PcTyped(s, t);
    assert ThreadOK(s.w.prims[t], s.pc[t], s.w.ss, s.max);
    AllocatedFlag(s, t);
    hide LockOK, FlagOK, Placed, ScavsOK, ThreadsOK, CountOK, Steady, WorldShape;
  }

  /** t has allocated what allocate_scav says, and is back in the caller. */
  function AfterAllocation(s: Sys, t: nat, env: InitEnv): Sys
    requires Asking(s, t)
  {
    var (w, got) := AllocateScav(s.w, t, s.max, env, s.slots);
    Allocated(s.(w := w), t, s.pc[t].who, got, w.prims[t])
  }

  /** The state between _allocate_scav and the init calls. */
  function Served(s: Sys, t: nat): Sys
    requires Asking(s, t)
  {
    var c := s.pc[t];
    var (w, got) := AllocateLocked(s.w, t, c.need, s.slots);
    s.(w := w, pc := s.pc[t := Initing(c.who, 1, got)])
  }

  /** The locked part of allocate_scav. */
  lemma ServedAlone(s: Sys, t: nat, env: InitEnv)
    requires Inv(s) && t < |s.pc| && s.pc[t].AllocWait? && s.lock == 0
    ensures Asking(s, t) && Gets(s, t, env, Served(s, t))
  {
    hide Inv, Next, Gets, AfterDonors, AfterPool, Served, Looping, Scanning, Asking;
    AllocPremises(s, t, env);
    var s1 := Next(s, t, env);
    DonorsAlone(s1, t, env);
    var s2 := AfterDonors(s1, t);
    GetsToInv(s1, t, env, s2);
    DonorsThenPool(s, s1, t);
    if s2.pc[t].Pool? {
      PoolAlone(s2, t, env);
      GetsFurther(s1, t, env, s2, Served(s, t));
    }
    GetsOn(s, t, env, Served(s, t));
  }

  lemma DonorsThenPool(s: Sys, s1: Sys, t: nat)
    requires Asking(s, t) && s.lock == 0 && Looping(s1, t)
    requires s1 == s.(lock := 1, pc := s.pc[t := Donors(s.pc[t].who, s.pc[t].need, 0, 0)])
    ensures
      var s2 := AfterDonors(s1, t);
      && |s2.pc| == |s.pc|
      && (s2.pc[t].Pool? ==> Scanning(s2, t) ==> AfterPool(s2, t) == Served(s, t))
      && (!s2.pc[t].Pool? ==> s2 == Served(s, t))
  {
    hide DonorsFrom, PoolFrom, WorldShape, NeedMore;
    var c, s2 := s.pc[t], AfterDonors(s1, t);
    if s2.pc[t].Pool? && Scanning(s2, t) {
      var got := AfterPool(s2, t).pc[t].got;
      assert s2.pc[t := Initing(c.who, 1, got)] == s.pc[t := Initing(c.who, 1, got)];
    } else if !s2.pc[t].Pool? {
      var got := s2.pc[t].got;
      assert s1.pc[t := Initing(c.who, 1, got)] == s.pc[t := Initing(c.who, 1, got)];
    }
  }

  /** A thread that finds the lock free and is left alone allocates what allocate_scav says. */
  lemma AllocatesAlone(s: Sys, t: nat, env: InitEnv)
    requires Inv(s) && t < |s.pc| && s.pc[t].AllocWait? && s.lock == 0
    ensures Asking(s, t) && Gets(s, t, env, AfterAllocation(s, t, env))
  {
    ServedAlone(s, t, env);
    var s1 := Served(s, t);
    GetsToInv(s, t, env, s1);
    InitsAlone(s1, t, env);
    ServedThenInit(s, t, env);
    hide Inv, Gets, AfterAllocation, Served, AfterInits;
    GetsFurther(s, t, env, s1, AfterInits(s1, t, env));
  }

  lemma ServedThenInit(s: Sys, t: nat, env: InitEnv)
    requires Asking(s, t) && Calling(Served(s, t), t)
    ensures AfterInits(Served(s, t), t, env) == AfterAllocation(s, t, env)
  {
    var c, s1 := s.pc[t], Served(s, t);
    hide AllocateLocked, InitFrom, InitPrimaryCtx, UpdateNextMap, WorldShape;
    var l := InitFrom(LocalOf(s1.w, t), 1, env);
    var w := AllocateScav(s.w, t, s.max, env, s.slots).0;
    assert w == WithLocal(s1.w, t, l.(p := SetSpecialNext(l.p)));
    SameAllocated(s1.(w := s1.w.(ss := l.ss)), s.(w := w), t, c.who, s1.pc[t].got, l.p);
  }

  // ----- A thread is created; a thread leaves a call ---------------------------------------------

  /** msh_alloc_ctx. */
  function Born(w: World, t: nat, max: int, env: InitEnv, slots: nat): World
    requires WorldShape(w, slots) && t < |w.prims| && !w.prims[t].reallocatable
  {
    var (w', got) := AllocateScav(w, t, max, env, slots);
    w'.(prims := w'.prims[t := InitPrimaryCtx(w'.prims[t], got)])
  }

  /** Creating a thread, uninterrupted, is msh_alloc_ctx. */
  lemma CreatesAlone(s: Sys, t: nat, env: InitEnv)
    requires Inv(s) && t < |s.pc| && s.pc[t].Unborn? && s.lock == 0
    ensures Enabled(s, t, Create) && WorldShape(s.w, s.slots) && !s.w.prims[t].reallocatable
    ensures Gets(Apply(s, t, Create), t, env,
                 s.(w := Born(s.w, t, s.max, env, s.slots), pc := s.pc[t := Running(true)]))
  {
    AllocatedFlag(s, t);
    ActionKeepsInv(s, t, Create);
    var s1 := Apply(s, t, Create);
    hide Inv, Gets, AllocateLocked, InitFrom, WorldShape, InitPrimaryCtx, NeedMore, SetSpecialNext;
    if NeedMore(s.w.prims[t], s.max) == 0 {
      GetsNowhere(s1, t, env);
    } else {
      AllocatesAlone(s1, t, env);
      assert s1.pc[t := Running(true)] == s.pc[t := Running(true)];
    }
  }

  /** The state after msh_exit_blockable_call. */
  function Exited(s: Sys, t: nat, env: InitEnv): Sys
    requires t < |s.pc| == |s.w.prims| && s.pc[t].Exiting? && WorldShape(s.w, s.slots)
  {
    var p := s.w.prims[t];
    var w := s.w.(prims := s.w.prims[t := p.(reallocatable := false)]);
    assert WorldShape(w, s.slots);
    s.(w := Events.ExitCall(w, t, s.max, env, s.slots),
       pc := s.pc[t := Running(if p.reallocated then Count(p.idx) < s.max else s.pc[t].linked)])
  }

  lemma ExitWithoutNeed(s: Sys, t: nat, env: InitEnv)
    requires Enabled(s, t, TryExit) && s.w.prims[t].reallocatable
    requires s.w.prims[t].reallocated ==> NeedMore(s.w.prims[t], s.max) == 0
    ensures Apply(s, t, TryExit) == Exited(s, t, env)
  {
    var s1, p := Apply(s, t, TryExit), s.w.prims[t];
    hide WorldShape, UpdateNextMap;
    assert s.w.prims[t := p.(reallocatable := false)][t := s1.w.prims[t]] == s.w.prims[t := s1.w.prims[t]];
  }

  lemma ExitWithNeed(s: Sys, t: nat, env: InitEnv)
    requires Enabled(s, t, TryExit) && s.w.prims[t].reallocatable && s.w.prims[t].reallocated
    requires NeedMore(s.w.prims[t], s.max) != 0 && Asking(Apply(s, t, TryExit), t)
    ensures Apply(s, t, TryExit).pc[t].AllocWait?
    ensures AfterAllocation(Apply(s, t, TryExit), t, env) == Exited(s, t, env)
  {
    var s1 := Apply(s, t, TryExit);
    assert s1.w == s.w.(prims := s.w.prims[t := s.w.prims[t].(reallocatable := false)]);
    assert s1.pc[t := Running(true)] == s.pc[t := Running(true)];
    hide WorldShape, UpdateNextMap, AllocateScav;
  }

  /** Leaving a call, uninterrupted, is msh_exit_blockable_call. */
  lemma ExitsAlone(s: Sys, t: nat, env: InitEnv)
    requires Inv(s) && t < |s.pc| && s.pc[t].Exiting? && s.lock == 0 && t < |s.w.prims| && s.w.prims[t].reallocatable
    ensures Enabled(s, t, TryExit) && WorldShape(s.w, s.slots)
    ensures Gets(Apply(s, t, TryExit), t, env, Exited(s, t, env))
  {
    ActionKeepsInv(s, t, TryExit);
    var s1, p := Apply(s, t, TryExit), s.w.prims[t];
    if p.reallocated && NeedMore(p, s.max) != 0 {
      assert s1.pc[t].AllocWait? && s1.lock == 0;
      hide Inv, Gets, Exited, AfterAllocation;
      AllocatesAlone(s1, t, env);
      ExitWithNeed(s, t, env);
    } else {
      ExitWithoutNeed(s, t, env);
      hide Inv, Gets, Exited;
      GetsNowhere(s1, t, env);
    }
  }

  // ----- Compaction ------------------------------------------------------------------------------

  predicate Compactable(s: Sys, t: nat) {
    && t < |s.pc| == |s.w.prims| && Sound(LocalOf(s.w, t)) && |s.w.prims[t].idx| == s.slots
    && s.pc[t].Packing? && 1 <= s.pc[t].pos <= s.slots
  }

  /** The loop of tl_pack_crts is over. */
  function AfterLoop(s: Sys, t: nat): Sys
    requires Compactable(s, t)
  {
    s.(w := WithLocal(s.w, t, PackFrom(LocalOf(s.w, t), t, s.pc[t].pos)), pc := s.pc[t := Packing(s.slots)])
  }

  lemma PackPremises(s: Sys, t: nat, env: InitEnv)
    requires Inv(s) && t < |s.pc| && s.pc[t].Packing?
    ensures At(s, t) && Compactable(s, t) && Next(s, t, env) == DoPack(s, t)
  {
    hide DoPack, LockOK, FlagOK, Placed, ScavsOK, ThreadsOK, CountOK;
    assert PcTyped(s, t);
  }

  /** One round of the outer loop of tl_pack_crts is over. */
  function AfterRound(s: Sys, t: nat): Sys
    requires Compactable(s, t) && s.pc[t].pos < s.slots
  {
    var l := PackOne(LocalOf(s.w, t), t, s.pc[t].pos);
    s.(w := WithLocal(s.w, t, l), pc := s.pc[t := Packing(s.pc[t].pos + 1)])
  }

  lemma LoopUnroll(s: Sys, t: nat)
    requires Compactable(s, t) && s.pc[t].pos < s.slots
    ensures Compactable(AfterRound(s, t), t) && AfterLoop(AfterRound(s, t), t) == AfterLoop(s, t)
  {
    var s1 := AfterRound(s, t);
    var l := PackOne(LocalOf(s.w, t), t, s.pc[t].pos);
    assert LocalOf(s1.w, t) == l;
    hide PackOne;
    var l' := PackFrom(l, t, s.pc[t].pos + 1);
    assert s1.w.prims[t := l'.p] == s.w.prims[t := l'.p];
    assert s1.pc[t := Packing(s.slots)] == s.pc[t := Packing(s.slots)];
  }

  lemma NextLocksSwap(s: Sys, t: nat, env: InitEnv)
    requires Inv(s) && t < |s.pc| && s.pc[t].SwapWait? && s.lock == 0
    ensures At(s, t)
    ensures Next(s, t, env) == s.(lock := 1, pc := s.pc[t := SwapLocked(s.pc[t].a, s.pc[t].b)])
  {
    hide LockOK, FlagOK, Placed, ScavsOK, ThreadsOK, CountOK;
  }

  lemma NextSwaps(s: Sys, t: nat, env: InitEnv)
    requires Inv(s) && t < |s.pc| && s.pc[t].SwapLocked?
    ensures At(s, t) && Next(s, t, env) == DoSwap(s, t)
  {
    hide LockOK, FlagOK, Placed, ScavsOK, ThreadsOK, CountOK, DoSwap;
  }

  function Swapped(s: Sys, t: nat, a: nat, b: nat): Sys
    requires t < |s.pc| == |s.w.prims| && Sound(LocalOf(s.w, t)) && a < b < |s.w.prims[t].idx|
  {
    s.(w := WithLocal(s.w, t, Swap(LocalOf(s.w, t), t, a, b)), pc := s.pc[t := Packing(a + 1)])
  }

  lemma LockedSwap(s: Sys, s1: Sys, t: nat, a: nat, b: nat)
    requires At(s, t) && At(s1, t) && a < b < s.slots && s.lock == 0
    requires s1 == s.(lock := 1, pc := s.pc[t := SwapLocked(a, b)])
    ensures DoSwap(s1, t) == Swapped(s, t, a, b)
  {
    hide Swap, WorldShape, PcTyped;
    assert s1.pc[t := Packing(a + 1)] == s.pc[t := Packing(a + 1)];
  }

  /** A swap: take the free lock, swap, release. */
  lemma SwapAlone(s: Sys, t: nat, env: InitEnv)
    requires Inv(s) && t < |s.pc| && s.pc[t].SwapWait? && s.lock == 0
    ensures At(s, t) && Gets(s, t, env, Swapped(s, t, s.pc[t].a, s.pc[t].b))
  {
    var a, b := s.pc[t].a, s.pc[t].b;
    NextLocksSwap(s, t, env);
    var s1 := Next(s, t, env);
    NextSwaps(s1, t, env);
    var s2 := Next(s1, t, env);
    LockedSwap(s, s1, t, a, b);
    hide Inv, Gets, Next, Swapped, At, DoSwap;
    GetsNowhere(s2, t, env);
    GetsOn(s1, t, env, s2);
    GetsOn(s, t, env, s2);
  }

  lemma PackRound(s: Sys, t: nat)
    requires At(s, t) && Compactable(s, t) && s.pc[t].pos < s.slots
    ensures
      var s1, pos := DoPack(s, t), s.pc[t].pos;
      && |s1.pc| == |s.pc| && s1.lock == s.lock
      && if s1.pc[t].SwapWait? then
           s1.w == s.w && s1.pc[t].a == pos < s1.pc[t].b < |s.w.prims[t].idx|
           && AfterRound(s, t) == Swapped(s1, t, s1.pc[t].a, s1.pc[t].b)
         else s1 == AfterRound(s, t)
  {
    hide Swap, WorldShape;
    var s1, pos := DoPack(s, t), s.pc[t].pos;
    assert s.w.prims[t := s.w.prims[t]] == s.w.prims;
    assert s1.pc[t := Packing(pos + 1)] == s.pc[t := Packing(pos + 1)];
  }

  lemma RoundAlone(s: Sys, t: nat, env: InitEnv)
    requires Inv(s) && t < |s.pc| && s.pc[t].Packing? && s.pc[t].pos < s.slots && s.lock == 0
    ensures Compactable(s, t) && Gets(s, t, env, AfterRound(s, t))
  {
    PackPremises(s, t, env);
    PackRound(s, t);
    var s1 := Next(s, t, env);
    hide Inv, Gets, Next, At, AfterRound, Swapped, Compactable, DoPack;
    if s1.pc[t].SwapWait? {
      SwapAlone(s1, t, env);
    } else {
      GetsNowhere(s1, t, env);
    }
    GetsOn(s, t, env, AfterRound(s, t));
  }

  lemma {:induction false} PacksAlone(s: Sys, t: nat, env: InitEnv)
    requires Inv(s) && t < |s.pc| && s.pc[t].Packing? && s.lock == 0
    ensures Compactable(s, t) && Gets(s, t, env, AfterLoop(s, t))
    decreases s.slots - s.pc[t].pos
  {
    hide Inv, Gets, AfterLoop, Next, At, DoPack, PackOne;
    PackPremises(s, t, env);
    if s.pc[t].pos < s.slots {
      var s1 := AfterRound(s, t);
      RoundAlone(s, t, env);
      GetsToInv(s, t, env, s1);
      LoopUnroll(s, t);
      PacksAlone(s1, t, env);
      GetsFurther(s, t, env, s1, AfterLoop(s1, t));
    } else {
      LoopIsOver(s, t);
      GetsNowhere(s, t, env);
    }
  }

  lemma LoopIsOver(s: Sys, t: nat)
    requires Compactable(s, t) && s.pc[t].pos == s.slots
    ensures AfterLoop(s, t) == s
  {
    assert s.w.prims[t := s.w.prims[t]] == s.w.prims;
    assert s.pc[t := Packing(s.slots)] == s.pc;
  }

  /** The rest of an event with a live primary: relink, allocate, link. */
  function Refilled(w: World, t: nat, p: Prim, max: int, env: InitEnv, slots: nat): World
    requires WorldShape(w, slots) && t < |w.prims| && Shape(p, slots) && p.idx == w.prims[t].idx && !p.reallocatable
  {
    var w1 := w.(prims := w.prims[t := p]);
    assert WorldShape(w1, slots);
    var w2 := AllocateScav(w1, t, max, env, slots).0;
    w2.(prims := w2.prims[t := UpdateNextMap(w2.prims[t])])
  }

  lemma RefillAlone(s: Sys, t: nat, env: InitEnv)
    requires Inv(s) && t < |s.pc| && s.pc[t] == Packing(s.slots) && s.lock == 0
    ensures t < |s.w.prims| && WorldShape(s.w, s.slots) && !s.w.prims[t].reallocatable
    ensures
      var p1 := SetSpecialNext(s.w.prims[t]);
      Shape(p1, s.slots) && p1.idx == s.w.prims[t].idx && !p1.reallocatable
    ensures
      var p1 := SetSpecialNext(s.w.prims[t]);
      Gets(s, t, env, s.(w := Refilled(s.w, t, p1, s.max, env, s.slots), pc := s.pc[t := Running(true)]))
  {
    hide Gets, Next, At, SetSpecialNext, DoPack, LockOK, Placed, ScavsOK, ThreadsOK, CountOK, Refilled, AfterAllocation;
    PackPremises(s, t, env);
    AllocatedFlag(s, t);
    var p1 := SetSpecialNext(s.w.prims[t]);
    SpecialKeepsShape(s.w.prims[t]);
    var s1 := Next(s, t, env);
    var s2 := s.(w := Refilled(s.w, t, p1, s.max, env, s.slots), pc := s.pc[t := Running(true)]);
    RefillIs(s, t, env);
    hide Inv;
    if NeedMore(p1, s.max) == 0 {
      GetsNowhere(s1, t, env);
    } else {
      AllocatesAlone(s1, t, env);
    }
    GetsOn(s, t, env, s2);
  }

  lemma RefillIs(s: Sys, t: nat, env: InitEnv)
    requires At(s, t) && s.pc[t] == Packing(s.slots) && WorldShape(s.w, s.slots) && !s.w.prims[t].reallocatable
    ensures
      var p1 := SetSpecialNext(s.w.prims[t]);
      var s1 := DoPack(s, t);
      && Shape(p1, s.slots) && p1.idx == s.w.prims[t].idx && !p1.reallocatable
      && var s2 := s.(w := Refilled(s.w, t, p1, s.max, env, s.slots), pc := s.pc[t := Running(true)]);
         && (NeedMore(p1, s.max) == 0 ==> s1 == s2)
         && (NeedMore(p1, s.max) != 0 ==>
           && |s1.pc| == |s.pc| && s1.pc[t].AllocWait? && s1.lock == s.lock
           && (Asking(s1, t) ==> AfterAllocation(s1, t, env) == s2))
  {
    hide SetSpecialNext, UpdateNextMap, NeedMore, AllocateLocked, InitFrom, PcTyped, IdxInRange;
    SpecialKeepsShape(s.w.prims[t]);
    var p1, s1 := SetSpecialNext(s.w.prims[t]), DoPack(s, t);
    if NeedMore(p1, s.max) == 0 {
      assert s.w.prims[t := p1][t := UpdateNextMap(p1)] == s.w.prims[t := UpdateNextMap(p1)];
    } else {
      hide AllocateScav;
      assert s1.pc[t := Running(true)] == s.pc[t := Running(true)];
    }
  }

  // ----- A coroutine finishes ----------------------------------------------------------------------

  /** tl_finish_crt has run, for a used or a free slot. */
  function Marked(s: Sys, t: nat, pos: nat): Sys
    requires Enabled(s, t, Finish(pos))
  {
    var free := s.w.prims[t].idx[pos] == EMPTY;
    s.(w := WithLocal(s.w, t, Scheduler.Finish(LocalOf(s.w, t), pos)),
       finishedCnt := s.finishedCnt + if pos == 0 then 0 else 1,
       misses := s.misses + if pos == 0 || !free then 0 else 1)
  }

  lemma NextLocksFinish(s: Sys, t: nat, env: InitEnv)
    requires Inv(s) && t < |s.pc| && s.pc[t].FinishWait? && s.lock == 0
    ensures At(s, t)
    ensures Next(s, t, env) == s.(lock := 1, pc := s.pc[t := FinishLocked(s.pc[t].pos)])
  {
    hide LockOK, FlagOK, Placed, ScavsOK, ThreadsOK, CountOK;
  }

  lemma NextRetires(s: Sys, t: nat, env: InitEnv)
    requires Inv(s) && t < |s.pc| && s.pc[t].FinishLocked?
    ensures At(s, t) && Next(s, t, env) == DoRetire(s, t)
  {
    hide LockOK, FlagOK, Placed, ScavsOK, ThreadsOK, CountOK, DoRetire;
  }

  lemma SameAfterFinish(s: Sys, s': Sys, t: nat)
    requires t < |s.pc| == |s.w.prims| && WellShaped(s.w.prims[t]) && |s'.pc| == |s.pc|
    requires s' == s.(pc := s.pc[t := s'.pc[t]])
    ensures AfterFinish(s', t) == AfterFinish(s, t)
  {
    hide UpdateNextMap, FirstUsed;
    var c := AfterFinish(s, t).pc[t];
    assert s'.pc[t := c] == s.pc[t := c];
  }

  /** The finish itself, uninterrupted, up to the branch on the primary. */
  lemma MarksAlone(s: Sys, t: nat, pos: nat, env: InitEnv)
    requires Inv(s) && Enabled(s, t, Finish(pos)) && s.lock == 0
    ensures WellShaped(Marked(s, t, pos).w.prims[t])
    ensures Gets(Apply(s, t, Finish(pos)), t, env, AfterFinish(Marked(s, t, pos), t))
  {
    hide Inv, Gets, AfterFinish, Marked, Next, DoRetire, Apply;
    ActionKeepsInv(s, t, Finish(pos));
    var s1, p := Apply(s, t, Finish(pos)), s.w.prims[t];
    if p.idx[pos] == EMPTY {
      FinishOfFree(s, t, pos);
      GetsNowhere(s1, t, env);
    } else {
      FinishOfUsed(s, t, pos);
      NextLocksFinish(s1, t, env);
      var s2 := Next(s1, t, env);
      assert s1.pc[t := FinishLocked(pos)] == s.pc[t := FinishLocked(pos)];
      NextRetires(s2, t, env);
      var s3 := Next(s2, t, env);
      RetireOfUsed(s, t, pos, s2);
      GetsNowhere(s3, t, env);
      GetsOn(s2, t, env, s3);
      GetsOn(s1, t, env, s3);
    }
  }

  lemma FinishOfFree(s: Sys, t: nat, pos: nat)
    requires Enabled(s, t, Finish(pos)) && s.w.prims[t].idx[pos] == EMPTY
    ensures WellShaped(Marked(s, t, pos).w.prims[t])
    ensures Apply(s, t, Finish(pos)) == AfterFinish(Marked(s, t, pos), t)
  {
    hide AfterFinish;
    assert s.pc[t := s.pc[t]] == s.pc;
  }

  lemma FinishOfUsed(s: Sys, t: nat, pos: nat)
    requires Enabled(s, t, Finish(pos)) && s.w.prims[t].idx[pos] != EMPTY
    ensures
      var s1 := Apply(s, t, Finish(pos));
      s1.pc == s.pc[t := FinishWait(pos)] && s1.lock == s.lock
  {
  }

  lemma RetireOfUsed(s: Sys, t: nat, pos: nat, s2: Sys)
    requires Enabled(s, t, Finish(pos)) && s.w.prims[t].idx[pos] != EMPTY && s.lock == 0
    requires s2 == Apply(s, t, Finish(pos)).(lock := 1, pc := s.pc[t := FinishLocked(pos)]) && At(s2, t)
    ensures WellShaped(Marked(s, t, pos).w.prims[t])
    ensures DoRetire(s2, t) == AfterFinish(Marked(s, t, pos), t)
  {
    hide AfterFinish, Retire;
    var m := Marked(s, t, pos);
    var s3 := Unlocked(s2.(w := WithLocal(s2.w, t, Retire(LocalOf(s2.w, t), pos))));
    assert s3.w.prims == m.w.prims;
    assert s3 == m.(pc := s3.pc);
    SameAfterFinish(m, s3, t);
  }

  /** The state after tl_sched_next_crt; with the primary finished and nothing left, after cleanup. */
  function Scheduled(s: Sys, t: nat, pos: nat, env: InitEnv): Sys
    requires Enabled(s, t, Finish(pos)) && !s.w.prims[t].reallocatable
  {
    var w := Events.SchedNext(s.w, t, pos * YC_SIZE, s.max, env, s.slots).0;
    var p, m := w.prims[t], Marked(s, t, pos);
    var live := m.w.prims[t].ycs[0].normal != EMPTY;
    var empty := FirstUsed(m.w.prims[t].idx, 1) == 0;
    m.(w := if live || !empty then w else w.(prims := w.prims[t := SetNormal(p, 0, 0)]),
       pc := s.pc[t := if live || empty then Running(true) else Draining])
  }

  /** A finish event with the primary finished: no compaction, no allocation. */
  lemma DeadEvent(s: Sys, t: nat, pos: nat, env: InitEnv)
    requires Enabled(s, t, Finish(pos)) && !s.w.prims[t].reallocatable
    requires Marked(s, t, pos).w.prims[t].ycs[0].normal == EMPTY && WellShaped(Marked(s, t, pos).w.prims[t])
    ensures AfterFinish(Marked(s, t, pos), t) == Scheduled(s, t, pos, env)
  {
    var m := Marked(s, t, pos);
    var l1 := Scheduler.Finish(LocalOf(s.w, t), pos);
    assert Events.Decode(pos * YC_SIZE) == pos;
    assert m.w.prims[t] == l1.p && LocalOf(m.w, t) == l1;
    assert Pack(l1.(p := UpdateNextMap(l1.p)), t) == l1;
    hide Scheduler.Finish, FirstUsed, Pack, WorldShape;
    assert m.w.prims[t := l1.p] == m.w.prims;
  }

  /** A swap may rewrite the primary's link, but not from or to the finished mark. */
  lemma RoundKeepsPrimary(l: Local, t: nat, pos: nat)
    requires Sound(l) && 1 <= pos < |l.p.idx|
    ensures PackOne(l, t, pos).p.ycs[0].normal == EMPTY <==> l.p.ycs[0].normal == EMPTY
  {
  }

  lemma {:induction false} PackKeepsPrimary(l: Local, t: nat, pos: nat)
    requires Sound(l) && 1 <= pos
    ensures PackFrom(l, t, pos).p.ycs[0].normal == EMPTY <==> l.p.ycs[0].normal == EMPTY
    decreases |l.p.idx| - pos
  {
    if pos < |l.p.idx| {
      RoundKeepsPrimary(l, t, pos);
      hide PackOne;
      PackKeepsPrimary(PackOne(l, t, pos), t, pos + 1);
    }
  }

  /** A finish event with a live primary: what remains is compaction, allocation and links. */
  lemma LiveEvent(s: Sys, t: nat, pos: nat, env: InitEnv)
    requires Enabled(s, t, Finish(pos)) && !s.w.prims[t].reallocatable
    requires Marked(s, t, pos).w.prims[t].ycs[0].normal != EMPTY && WellShaped(Marked(s, t, pos).w.prims[t])
    requires Compactable(AfterFinish(Marked(s, t, pos), t), t)
    ensures
      var s2 := AfterLoop(AfterFinish(Marked(s, t, pos), t), t);
      var p1 := SetSpecialNext(s2.w.prims[t]);
      WorldShape(s2.w, s.slots) && Shape(p1, s.slots) && p1.idx == s2.w.prims[t].idx && !p1.reallocatable ==>
        s2.(w := Refilled(s2.w, t, p1, s.max, env, s.slots), pc := s2.pc[t := Running(true)])
          == Scheduled(s, t, pos, env)
  {
    var m := Marked(s, t, pos);
    var l1 := Scheduler.Finish(LocalOf(s.w, t), pos);
    assert Events.Decode(pos * YC_SIZE) == pos;
    assert m.w.prims[t] == l1.p && LocalOf(m.w, t) == l1;
    var l2 := l1.(p := UpdateNextMap(l1.p));
    var s1 := AfterFinish(m, t);
    assert LocalOf(s1.w, t) == l2 && s1.pc[t] == Packing(1);
    var l3 := PackFrom(l2, t, 1);
    var s2 := AfterLoop(s1, t);
    var p1 := SetSpecialNext(l3.p);
    PackKeepsPrimary(l2, t, 1);
    assert p1.ycs[0].normal != EMPTY;
    hide Scheduler.Finish, FirstUsed, UpdateNextMap, SetSpecialNext, PackFrom, AllocateScav;
    assert s2.w.prims[t := p1] == s.w.prims[t := p1];
    assert s2.pc[t := Running(true)] == s.pc[t := Running(true)];
    assert Pack(l2, t) == l3.(p := p1);
    if WorldShape(s2.w, s.slots) && Shape(p1, s.slots) && p1.idx == s2.w.prims[t].idx && !p1.reallocatable {
      Events.PackKeepsFlag(l2, t);
      assert s2.w.(prims := s2.w.prims[t := p1]) == WithLocal(s.w, t, Pack(l2, t));
    }
  }

  /**
    A finish event, uninterrupted, is tl_sched_next_crt: whatever position it carries, whether the
    primary is live or the thread drains.
   */
  lemma FinishesAlone(s: Sys, t: nat, pos: nat, env: InitEnv)
    requires Inv(s) && Enabled(s, t, Finish(pos)) && s.lock == 0
    ensures !s.w.prims[t].reallocatable
    ensures Gets(Apply(s, t, Finish(pos)), t, env, Scheduled(s, t, pos, env))
  {
    AllocatedFlag(s, t);
    MarksAlone(s, t, pos, env);
    var s0 := Apply(s, t, Finish(pos));
    var m := Marked(s, t, pos);
    var s1 := AfterFinish(m, t);
    GetsToInv(s0, t, env, s1);
    if m.w.prims[t].ycs[0].normal == EMPTY {
      DeadEvent(s, t, pos, env);
    } else {
      assert s1.pc[t].Packing? && s1.lock == 0 && s1.slots == s.slots && s1.max == s.max;
      PacksAlone(s1, t, env);
      var s2 := AfterLoop(s1, t);
      assert s2.pc[t] == Packing(s.slots) && s2.lock == 0;
      GetsToInv(s1, t, env, s2);
      RefillAlone(s2, t, env);
      LiveEvent(s, t, pos, env);
      hide Inv, Gets, Scheduled, AfterLoop, AfterFinish, Marked, Refilled, SetSpecialNext;
      GetsFurther(s1, t, env, s2, Scheduled(s, t, pos, env));
      GetsFurther(s0, t, env, s1, Scheduled(s, t, pos, env));
    }
  }
}
