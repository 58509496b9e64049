/**
  The xchg spinlock of libmsh/spinlock.h by itself: any number of threads, each spinning in
  spin_lock, inside its critical section, or elsewhere; one shared byte.
 */
module Spinlock {
  const BUSY: int := 1

  /** Exchange: about to xchg. Watch: in the inner loop that reads the byte until it is 0. */
  datatype Pc = Outside | Exchange | Watch | Inside

  datatype Lock = Lock(byte: int, pc: seq<Pc>)

  datatype Op = Call | Xchg | Read | Unlock | TryOnce

  predicate Enabled(l: Lock, t: nat, op: Op) {
    && t < |l.pc|
    && match op
       case Call => l.pc[t] == Outside
       case Xchg => l.pc[t] == Exchange
       case Read => l.pc[t] == Watch
       case Unlock => l.pc[t] == Inside
       case TryOnce => l.pc[t] == Outside
  }

  /** spin_trylock returns the old byte: 0 means the lock was taken. */
  function Apply(l: Lock, t: nat, op: Op): Lock
    requires Enabled(l, t, op)
  {
    match op
    case Call => l.(pc := l.pc[t := Exchange])
    case Xchg => Lock(BUSY, l.pc[t := if l.byte == 0 then Inside else Watch])
    case Read => if l.byte == 0 then l.(pc := l.pc[t := Exchange]) else l
    case Unlock => Lock(0, l.pc[t := Outside])
    case TryOnce => Lock(BUSY, l.pc[t := if l.byte == 0 then Inside else Outside])
  }

  predicate Init(l: Lock) {
    l.byte == 0 && forall t :: 0 <= t < |l.pc| ==> l.pc[t] == Outside
  }

  ghost predicate Run(trace: seq<Lock>) {
    && 1 <= |trace| && Init(trace[0])
    && forall k :: 0 <= k < |trace| - 1 ==>
      exists t: nat, op: Op :: Enabled(trace[k], t, op) && trace[k + 1] == Apply(trace[k], t, op)
  }

  /** At most one thread is inside, and the byte is 0 exactly if none is. */
  predicate Mutex(l: Lock) {
    && (l.byte == 0 || l.byte == BUSY)
    && (l.byte == 0 <==> forall t :: 0 <= t < |l.pc| ==> l.pc[t] != Inside)
    && forall t, u :: 0 <= t < |l.pc| && 0 <= u < |l.pc| && l.pc[t] == Inside && l.pc[u] == Inside ==> t == u
  }

  lemma OpKeepsMutex(l: Lock, t: nat, op: Op)
    requires Mutex(l) && Enabled(l, t, op)
    ensures Mutex(Apply(l, t, op))
  {
    var l' := Apply(l, t, op);
    assert forall u :: 0 <= u < |l.pc| && u != t ==> l'.pc[u] == l.pc[u];
    if l.byte != 0 {
      var u :| 0 <= u < |l.pc| && l.pc[u] == Inside;
      if u != t {
        assert l'.pc[u] == Inside;
        assert l.pc[t] != Inside;
      }
    } else {
      assert l.pc[t] != Inside;
      assert l'.byte != 0 ==> l'.pc[t] == Inside;
    }
  }

  lemma {:induction false} MutexOverRuns(trace: seq<Lock>, k: nat)
    requires Run(trace) && k < |trace|
    ensures Mutex(trace[k])
  {
    if k > 0 {
      MutexOverRuns(trace, k - 1);
      var t: nat, op: Op :|
        Enabled(trace[k - 1], t, op) && trace[k - 1 + 1] == Apply(trace[k - 1], t, op);
      OpKeepsMutex(trace[k - 1], t, op);
    }
  }

  /** After the holder unlocks, any spinning thread gets in with at most two steps of its own. */
  lemma UnlockLetsIn(trace: seq<Lock>, k: nat, h: nat, t: nat)
    requires Run(trace) && k < |trace| && Enabled(trace[k], h, Unlock) && t < |trace[k].pc|
    requires trace[k].pc[t] == Exchange || trace[k].pc[t] == Watch
    ensures
      var l1 := Apply(trace[k], h, Unlock);
      var l2 := if l1.pc[t] == Watch then Apply(l1, t, Read) else l1;
      Enabled(l2, t, Xchg) && Apply(l2, t, Xchg).pc[t] == Inside && Mutex(Apply(l2, t, Xchg))
  {
    MutexOverRuns(trace, k);
    var l1 := Apply(trace[k], h, Unlock);
    OpKeepsMutex(trace[k], h, Unlock);
    var l2 := if l1.pc[t] == Watch then Apply(l1, t, Read) else l1;
    if l1.pc[t] == Watch {
      OpKeepsMutex(l1, t, Read);
    }
    OpKeepsMutex(l2, t, Xchg);
  }

  /**
    Who gets in and out. A thread is let in exactly by an exchange of its own that finds the byte 0,
    in spin_lock or in spin_trylock; it leaves by unlocking only, is then elsewhere, and the byte is 0.
    A failed spin_trylock does not wait; a spinning thread tries again exactly once it has read 0.
   */
  lemma InAndOut(l: Lock, t: nat, op: Op, u: nat)
    requires Enabled(l, t, op) && u < |l.pc|
    ensures |Apply(l, t, op).pc| == |l.pc|
    ensures
      var c, c', byte' := l.pc[u], Apply(l, t, op).pc[u], Apply(l, t, op).byte;
      && (u != t ==> c' == c)
      && (c != Inside && c' == Inside <==> u == t && (op.Xchg? || op.TryOnce?) && l.byte == 0)
      && (c == Inside && c' != Inside <==> u == t && op.Unlock?)
      && (c == Inside && c' != Inside ==> c' == Outside && byte' == 0)
      && (c == Outside && c' != Outside && c' != Inside ==> c' == Exchange && op.Call?)
      && (c == Watch && c' != Watch <==> u == t && op.Read? && l.byte == 0)
      && (c == Watch && c' != Watch ==> c' == Exchange)
      && (c == Exchange && c' != Exchange && c' != Inside ==> c' == Watch && l.byte != 0)
      && (byte' != l.byte ==> op.Unlock? || ((op.Xchg? || op.TryOnce?) && byte' == 1))
  {
  }
}
