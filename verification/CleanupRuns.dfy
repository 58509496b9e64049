/**
  msh_cleanup in the middle of everything else: a thread drains its scavengers while any number of
  other threads run, steal, finish and clean up as they like.
 */
module CleanupRuns {
  import opened Wrappers
  import opened Tables
  import opened SlotList
  import opened Scheduler
  import opened Allocator
  import opened Protocol
  import opened Invariant
  import opened InvariantProof
  import opened RunTheorems
  import opened Commute
  import Events

  /** The event of the scavenger that cleanup resumes: the one in the least used slot. */
  predicate LeastReports(s: Sys, t: nat, pos: nat)
    requires t < |s.w.prims| && Sound(LocalOf(s.w, t))
  {
    var l := LocalOf(s.w, t);
    var cur := FirstUsed(l.p.idx, 1);
    cur != 0 && l.ss[l.p.idx[cur]].crtPos >= 0 && pos == Events.Decode(l.ss[l.p.idx[cur]].crtPos)
  }

  /** What a thread in cleanup does: run code, finish the resumed scavenger, go on. */
  predicate OfCleanup(s: Sys, act: Act)
    requires Enabled(s, act.t, act.a)
  {
    || act.a.Save? || act.a.Advance?
    || (act.a.Finish? && LeastReports(s, act.t, act.a.pos))
  }

  /** How many of the actions j, ..., k - 1 are finish events of t. */
  function FinishesOf(acts: seq<Act>, j: nat, k: nat, t: nat): nat
    requires j <= k <= |acts|
  {
    if j == k then 0
    else FinishesOf(acts, j, k - 1, t) + if acts[k - 1].t == t && acts[k - 1].a.Finish? then 1 else 0
  }

  predicate Cleaning(c: Pc) {
    c.Draining? || c.FinishWait? || c.FinishLocked?
  }

  /** now hosts what before hosted, in the same slots, less some that are finished. */
  predicate OnlyLost(before: seq<int>, now: seq<int>, ss: seq<Scav>) {
    && |now| == |before|
    && forall q :: 0 <= q < |before| ==>
      || now[q] == before[q]
      || (now[q] == EMPTY && 0 <= before[q] < |ss| && ss[before[q]].finished)
  }

  /** Every scavenger that can run is its own successor, in both link structures. */
  predicate SelfLinked(p: Prim, c: Pc)
    requires WellShaped(p)
  {
    forall q :: 1 <= q < |p.idx| && p.idx[q] != EMPTY && (IsPending(c) ==> q != c.pos) ==>
      p.ycs[q].normal == q * YC_SIZE && p.ycs[q].special == q * YC_SIZE
  }

  /** Where a cleanup of t that began with the list `before` is after e finish events. */
  predicate Phase(before: seq<int>, s: Sys, t: nat, e: nat, scaled: bool) {
    && t < |s.pc| == |s.w.prims| && Sound(LocalOf(s.w, t))
    && var p, c := s.w.prims[t], s.pc[t];
       && OnlyLost(before, p.idx, s.w.ss) && SelfLinked(p, c)
       && (if c.Running? then FirstUsed(p.idx, 1) == 0 && p.ycs[0].normal == 0
           else Cleaning(c) && p.ycs[0].normal == EMPTY)
       && (c.Draining? ==> FirstUsed(p.idx, 1) != 0)
       && (scaled ==>
         && Events.AllScaled(LocalOf(s.w, t))
         && Count(p.idx) + e == Count(before) + if IsPending(c) then 1 else 0)
  }

  // ----- The steps of the thread itself ------------------------------------------------------------

  lemma CleanupBegins(s: Sys, t: nat)
    requires Inv(s) && Enabled(s, t, Cleanup)
    ensures t < |s.w.prims| && Sound(LocalOf(s.w, t))
    ensures Phase(s.w.prims[t].idx, Apply(s, t, Cleanup), t, 0, Events.AllScaled(LocalOf(s.w, t)))
  {
    hide LockOK, FlagOK, Placed, ScavsOK, ThreadsOK, CountOK, FirstLive;
    var s', p := Apply(s, t, Cleanup), s.w.prims[t];
    CleanupRelinks(s, t);
    assert s'.w.prims[t].idx == p.idx && s'.w.ss == s.w.ss;
  }

  /**
    What msh_cleanup writes before it resumes anything: every used slot becomes its own successor in
    both links, and keeps its saved stack and instruction pointer; free slots, lists and register
    sets stay as they were.
   */
  lemma CleanupRelinks(s: Sys, t: nat)
    requires Inv(s) && Enabled(s, t, Cleanup)
    ensures t < |s.w.prims| == |Apply(s, t, Cleanup).w.prims| && Apply(s, t, Cleanup).w.ss == s.w.ss
    ensures
      var p, p' := s.w.prims[t], Apply(s, t, Cleanup).w.prims[t];
      && p'.idx == p.idx && p'.regs == p.regs && |p'.ycs| == |p.ycs| == |p.idx|
      && (forall q :: 1 <= q < |p.idx| && p.idx[q] == EMPTY ==> p'.ycs[q] == p.ycs[q])
      && (forall q :: 1 <= q < |p.idx| && p.idx[q] != EMPTY ==>
        p'.ycs[q] == YieldCtx(p.ycs[q].sp, p.ycs[q].ip, q * YC_SIZE, q * YC_SIZE))
  {
    hide LockOK, FlagOK, Placed, ScavsOK, CountOK, FirstLive;
    var p := s.w.prims[t];
    assert ThreadOK(p, s.pc[t], s.w.ss, s.max);
  }

  lemma CleanupSaves(before: seq<int>, s: Sys, t: nat, pos: nat, v: Saved, e: nat, scaled: bool)
    requires Enabled(s, t, Save(pos, v)) && Phase(before, s, t, e, scaled)
    ensures Phase(before, Apply(s, t, Save(pos, v)), t, e, scaled)
  {
    hide Count, FirstUsed;
    assert Apply(s, t, Save(pos, v)).w.prims[t].idx == s.w.prims[t].idx;
  }

  lemma CleanupFinishes(before: seq<int>, s: Sys, t: nat, pos: nat, e: nat, scaled: bool)
    requires Enabled(s, t, Finish(pos)) && Phase(before, s, t, e, scaled) && s.pc[t].Draining?
    requires s.w.prims[t].idx[0] == EMPTY && LeastReports(s, t, pos)
    ensures Phase(before, Apply(s, t, Finish(pos)), t, e + 1, scaled)
  {
    hide Count, FirstLive;
    var s', p := Apply(s, t, Finish(pos)), s.w.prims[t];
    assert s'.w.prims[t].idx == p.idx && s'.w.ss == s.w.ss;
    if scaled {
      assert Events.Scaled(LocalOf(s.w, t), FirstUsed(p.idx, 1));
      assert p.idx[pos] != EMPTY;
    }
  }

  lemma CleanupRetires(before: seq<int>, s: Sys, t: nat, e: nat, scaled: bool)
    requires Inv(s) && At(s, t) && s.pc[t].FinishLocked? && Phase(before, s, t, e, scaled)
    ensures Phase(before, DoRetire(s, t), t, e, scaled)
  {
    hide LockOK, FlagOK, ScavsOK, ThreadsOK, CountOK, FirstLive, Count;
    var pos, p, s' := s.pc[t].pos, s.w.prims[t], DoRetire(s, t);
    assert PcTyped(s, t);
    var l := Retire(LocalOf(s.w, t), pos);
    assert s'.w.prims[t].idx == p.idx[pos := EMPTY] && s'.w.ss == l.ss;
    CountUpdate(p.idx, pos, EMPTY);
    if scaled {
      RetireKeepsScaled(s, t, pos);
    }
  }

  lemma RetireKeepsScaled(s: Sys, t: nat, pos: nat)
    requires Inv(s) && t < |s.w.prims| && Sound(LocalOf(s.w, t)) && pos < |s.w.prims[t].idx|
    requires s.w.prims[t].idx[pos] != EMPTY && Events.AllScaled(LocalOf(s.w, t))
    ensures Events.AllScaled(Retire(LocalOf(s.w, t), pos))
  {
    var l, l' := LocalOf(s.w, t), Retire(LocalOf(s.w, t), pos);
    forall q | 0 <= q < |l'.p.idx| && l'.p.idx[q] != EMPTY ensures Events.Scaled(l', q) {
      assert Events.Scaled(l, q);
      assert LivesAt(s.w.ss, l.p.idx[q], t, q) && LivesAt(s.w.ss, l.p.idx[pos], t, pos);
    }
  }

  lemma CleanupLocks(before: seq<int>, s: Sys, t: nat, x: InitEffect, e: nat, scaled: bool)
    requires Enabled(s, t, Advance(x)) && s.pc[t].FinishWait? && Phase(before, s, t, e, scaled)
    ensures Phase(before, Apply(s, t, Advance(x)), t, e, scaled)
  {
    hide Count, FirstUsed;
  }

  // ----- The steps of the others -------------------------------------------------------------------

  lemma OthersLeaveScaled(s: Sys, act: Act, t: nat)
    requires Inv(s) && Enabled(s, act.t, act.a) && t < |s.pc| && t != act.t && !AtCall(s.pc[t])
    ensures t < |s.w.prims| && Sound(LocalOf(s.w, t))
    ensures
      var s' := Apply(s, act.t, act.a);
      && t < |s'.w.prims| && Sound(LocalOf(s'.w, t)) && s'.w.prims[t] == s.w.prims[t]
      && (Events.AllScaled(LocalOf(s.w, t)) ==> Events.AllScaled(LocalOf(s'.w, t)))
  {
    hide Apply, Enabled, LockOK, FlagOK, ScavsOK, ThreadsOK, CountOK;
    var s' := Apply(s, act.t, act.a);
    SelfFrame(s, t, act.t, act.a);
    ActionKeepsInv(s, act.t, act.a);
    var l, l' := LocalOf(s.w, t), LocalOf(s'.w, t);
    if Events.AllScaled(l) {
      forall q | 0 <= q < |l'.p.idx| && l'.p.idx[q] != EMPTY ensures Events.Scaled(l', q) {
        var i := l.p.idx[q];
        assert Events.Scaled(l, q) && LivesAt(s.w.ss, i, t, q) && LivesAt(s'.w.ss, i, t, q);
        ActionPositions(s, act, i);
      }
    }
  }

  lemma OthersLeavePhase(before: seq<int>, s: Sys, act: Act, t: nat, e: nat, scaled: bool)
    requires Inv(s) && Enabled(s, act.t, act.a) && t != act.t && Phase(before, s, t, e, scaled)
    ensures Phase(before, Apply(s, act.t, act.a), t, e, scaled)
  {
    hide Apply, Enabled, Inv, Count, FirstUsed, Events.AllScaled;
    OthersLeaveScaled(s, act, t);
    SelfFrame(s, t, act.t, act.a);
    ActionEvolves(s, act.t, act.a);
    var s' := Apply(s, act.t, act.a);
    assert forall i :: 0 <= i < |s.w.ss| ==> Evolves(s.w.ss[i], s'.w.ss[i]);
  }

  // ----- The whole cleanup ---------------------------------------------------------------------------

  lemma CleanupGoesOn(before: seq<int>, s: Sys, act: Act, e: nat, scaled: bool)
    requires Inv(s) && Enabled(s, act.t, act.a) && Phase(before, s, act.t, e, scaled)
    requires !s.pc[act.t].Running? && OfCleanup(s, act)
    ensures Phase(before, Apply(s, act.t, act.a), act.t, e + if act.a.Finish? then 1 else 0, scaled)
  {
    hide Phase, LockOK, FlagOK, Placed, ScavsOK, CountOK;
    var t := act.t;
    PhaseSays(before, s, t, e, scaled);
    if act.a.Finish? {
      assert ThreadOK(s.w.prims[t], s.pc[t], s.w.ss, s.max);
      CleanupFinishes(before, s, t, act.a.pos, e, scaled);
    } else if act.a.Save? {
      CleanupSaves(before, s, t, act.a.pos, act.a.v, e, scaled);
    } else if s.pc[t].FinishLocked? {
      CleanupRetires(before, s, t, e, scaled);
    } else {
      CleanupLocks(before, s, t, act.a.e, e, scaled);
    }
  }

  lemma PhaseSays(before: seq<int>, s: Sys, t: nat, e: nat, scaled: bool)
    requires Phase(before, s, t, e, scaled)
    ensures t < |s.pc| && (s.pc[t].Running? || Cleaning(s.pc[t]))
  {
  }

  /** From its call of cleanup at step j on, up to state k, t does nothing else and is not yet back. */
  predicate CleansUp(trace: seq<Sys>, acts: seq<Act>, j: nat, k: nat, t: nat)
    requires RunBy(trace, acts) && j < k <= |acts|
  {
    && acts[j] == Act(t, Cleanup)
    && forall m :: j < m < k ==>
      && Does(trace[m], acts[m], trace[m + 1])
      && t < |trace[m].pc| && !trace[m].pc[t].Running?
      && (acts[m].t == t ==> OfCleanup(trace[m], acts[m]))
  }

  lemma {:induction false} PhaseOverRun(trace: seq<Sys>, acts: seq<Act>, j: nat, k: nat, t: nat)
    requires RunBy(trace, acts) && j < k <= |acts| && CleansUp(trace, acts, j, k, t)
    ensures t < |trace[j].w.prims| && Sound(LocalOf(trace[j].w, t))
    ensures Phase(trace[j].w.prims[t].idx, trace[k], t, FinishesOf(acts, j, k, t),
                  Events.AllScaled(LocalOf(trace[j].w, t)))
    decreases k
  {
    hide Enabled, Apply, Inv, Phase, OfCleanup, Events.AllScaled;
    RunByIsRun(trace, acts);
    var h := k - 1;
    RunKeepsInv(trace, h);
    assert Does(trace[h], acts[h], trace[h + 1]);
    if h == j {
      CleanupBegins(trace[j], t);
      assert FinishesOf(acts, j, j, t) == 0;
    } else {
      assert CleansUp(trace, acts, j, h, t);
      PhaseOverRun(trace, acts, j, h, t);
      var before, scaled := trace[j].w.prims[t].idx, Events.AllScaled(LocalOf(trace[j].w, t));
      if acts[h].t == t {
        CleanupGoesOn(before, trace[h], acts[h], FinishesOf(acts, j, h, t), scaled);
      } else {
        OthersLeavePhase(before, trace[h], acts[h], t, FinishesOf(acts, j, h, t), scaled);
      }
    }
  }

  /**
    Cleanup under every interleaving. As long as t cleans up, its list is what it was less its own
    retirements, which are finished: nothing is allocated to it or stolen from it. Every scavenger
    that is left and not in the middle of finishing is its own successor. The thread is back, with its
    link 0, exactly if its list is empty. With all positions in bytes, it is back exactly after
    as many finish events as it had scavengers.
   */
  lemma CleanupOverRun(trace: seq<Sys>, acts: seq<Act>, j: nat, k: nat, t: nat)
    requires RunBy(trace, acts) && j < k <= |acts| && CleansUp(trace, acts, j, k, t)
    ensures t < |trace[j].w.prims| && Sound(LocalOf(trace[j].w, t))
    ensures t < |trace[k].w.prims| == |trace[k].pc|
    ensures OnlyLost(trace[j].w.prims[t].idx, trace[k].w.prims[t].idx, trace[k].w.ss)
    ensures WellShaped(trace[k].w.prims[t]) && SelfLinked(trace[k].w.prims[t], trace[k].pc[t])
    ensures trace[k].pc[t].Running? || Cleaning(trace[k].pc[t])
    ensures trace[k].pc[t].Running? <==>
      forall q :: 0 <= q < |trace[k].w.prims[t].idx| ==> trace[k].w.prims[t].idx[q] == EMPTY
    ensures trace[k].pc[t].Running? ==> |trace[k].w.prims[t].ycs| > 0 && trace[k].w.prims[t].ycs[0].normal == 0
    ensures
      var n, e := Count(trace[j].w.prims[t].idx), FinishesOf(acts, j, k, t);
      Events.AllScaled(LocalOf(trace[j].w, t)) ==>
        e <= n && (trace[k].pc[t].Running? <==> e == n && !IsPending(trace[k].pc[t]))
  {
    PhaseOverRun(trace, acts, j, k, t);
    RunByIsRun(trace, acts);
    RunKeepsInv(trace, k);
    hide Run, RunBy, CleansUp;
    var s := trace[k];
    assert ThreadOK(s.w.prims[t], s.pc[t], s.w.ss, s.max);
    CountToBounds(s.w.prims[t].idx, |s.w.prims[t].idx|);
    PhaseEnds(trace[j].w.prims[t].idx, s, t, FinishesOf(acts, j, k, t), Events.AllScaled(LocalOf(trace[j].w, t)));
  }

  lemma PhaseEnds(before: seq<int>, s: Sys, t: nat, e: nat, scaled: bool)
    requires Inv(s) && Phase(before, s, t, e, scaled)
    ensures s.pc[t].Running? <==> forall q :: 0 <= q < |s.w.prims[t].idx| ==> s.w.prims[t].idx[q] == EMPTY
    ensures scaled ==> e <= Count(before) && (s.pc[t].Running? <==> e == Count(before) && !IsPending(s.pc[t]))
  {
    hide LockOK, FlagOK, Placed, ScavsOK, CountOK;
    var p, c := s.w.prims[t], s.pc[t];
    assert ThreadOK(p, c, s.w.ss, s.max);
    assert PcTyped(s, t);
    CountToBounds(p.idx, |p.idx|);
  }
}
