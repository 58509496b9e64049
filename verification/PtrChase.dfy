/**
  The pointer-chasing workload of apps/src/primary/ptrchase.cpp: a random permutation is turned into
  a successor table, the table is linked into nodes, and the nodes are chased.
 */
module PtrChase {
  import opened Modular

  /** f maps the indices 0..|f|-1 into themselves. */
  predicate Closed(f: seq<int>) {
    forall v :: 0 <= v < |f| ==> 0 <= f[v] < |f|
  }

  /** The index reached from v after k steps. */
  function Iter(f: seq<int>, v: int, k: nat): (r: int)
    requires Closed(f) && 0 <= v < |f|
    ensures 0 <= r < |f|
  {
    if k == 0 then v else f[Iter(f, v, k - 1)]
  }

  /** From any index, the first |f| steps reach every index exactly once, and step |f| is back. */
  ghost predicate SingleCycle(f: seq<int>) {
    && Closed(f)
    && (forall v :: 0 <= v < |f| ==> Iter(f, v, |f|) == v)
    && (forall v, j, k :: 0 <= v < |f| && 0 <= j < k < |f| ==> Iter(f, v, j) != Iter(f, v, k))
    && (forall v, x :: 0 <= v < |f| && 0 <= x < |f| ==> Reaches(f, v, x))
  }

  ghost predicate Reaches(f: seq<int>, v: int, x: int)
    requires Closed(f) && 0 <= v < |f|
  {
    exists k :: 0 <= k < |f| && Iter(f, v, k) == x
  }

  // ----- Permutations ----------------------------------------------------------------------------

  /** perm is a permutation of 0..|perm|-1 and inv is its inverse. */
  predicate Inverse(perm: seq<int>, inv: seq<int>) {
    && |inv| == |perm|
    && (forall i :: 0 <= i < |perm| ==> 0 <= perm[i] < |perm| && inv[perm[i]] == i)
    && (forall v :: 0 <= v < |perm| ==> 0 <= inv[v] < |perm| && perm[inv[v]] == v)
  }

  lemma SwapKeepsInverse(perm: seq<int>, inv: seq<int>, a: nat, b: nat)
    requires Inverse(perm, inv) && a < |perm| && b < |perm|
    ensures Inverse(perm[a := perm[b]][b := perm[a]], inv[perm[b] := a][perm[a] := b])
  {
  }

  function Wrap(x: nat, n: nat): nat
    requires 0 < n
  {
    x % n
  }

  /** f sends every entry of perm to the cyclically next one. */
  predicate FollowsPerm(f: seq<int>, perm: seq<int>) {
    && |f| == |perm| && Closed(perm)
    && forall i :: 0 <= i < |perm| ==> f[perm[i]] == perm[Wrap(i + 1, |perm|)]
  }

  lemma FollowsIsClosed(f: seq<int>, perm: seq<int>, inv: seq<int>)
    requires Inverse(perm, inv) && FollowsPerm(f, perm)
    ensures Closed(f)
  {
    forall v | 0 <= v < |f| ensures 0 <= f[v] < |f| {
      assert f[perm[inv[v]]] == perm[Wrap(inv[v] + 1, |perm|)];
    }
  }

  lemma {:induction false} IterFollows(f: seq<int>, perm: seq<int>, s: nat, k: nat)
    requires Closed(f) && FollowsPerm(f, perm) && s < |perm|
    ensures 0 <= perm[s] < |f| && Wrap(s + k, |perm|) < |perm|
    ensures Iter(f, perm[s], k) == perm[Wrap(s + k, |perm|)]
  {
    hide Wrap;
    var n := |perm|;
    if k == 0 {
      WrapIs(s, 0, s, n);
    } else {
      IterFollows(f, perm, s, k - 1);
      StepModulo(s + k - 1, n);
      var i := Wrap(s + k - 1, n);
      assert f[perm[i]] == perm[Wrap(i + 1, n)];
    }
  }

  lemma WrapIs(x: nat, q: int, r: int, n: int)
    requires 0 <= r < n && x == q * n + r
    ensures Wrap(x, n) == r
  {
    RemainderIs(x, q, r, n);
  }

  lemma StepModulo(x: nat, n: nat)
    requires 0 < n
    ensures Wrap(Wrap(x, n) + 1, n) == Wrap(x + 1, n) < n
  {
    var q, r := x / n, x % n;
    assert x == q * n + r;
    if r + 1 < n {
      RemainderIs(x + 1, q, r + 1, n);
      RemainderIs(r + 1, 0, r + 1, n);
    } else {
      assert x + 1 == (q + 1) * n + 0;
      RemainderIs(x + 1, q + 1, 0, n);
      RemainderIs(r + 1, 1, 0, n);
    }
  }

  /** Offsets below n from the same start are different modulo n. */
  lemma OffsetsDiffer(s: nat, j: nat, k: nat, n: nat)
    requires s < n && j < k < n
    ensures Wrap(s + j, n) != Wrap(s + k, n)
  {
    WrapIs(s + j, if s + j < n then 0 else 1, if s + j < n then s + j else s + j - n, n);
    WrapIs(s + k, if s + k < n then 0 else 1, if s + k < n then s + k else s + k - n, n);
  }

  /** Following a permutation cyclically is one single cycle, whatever the permutation. */
  lemma FollowingIsSingleCycle(f: seq<int>, perm: seq<int>, inv: seq<int>)
    requires Inverse(perm, inv) && FollowsPerm(f, perm)
    ensures SingleCycle(f)
  {
    hide Wrap, Iter, Reaches;
    FollowsIsClosed(f, perm, inv);
    var n := |f|;
    forall v | 0 <= v < n ensures Iter(f, v, n) == v {
      FollowReturns(f, perm, inv, v);
    }
    forall v, j, k | 0 <= v < n && 0 <= j < k < n ensures Iter(f, v, j) != Iter(f, v, k) {
      FollowDiffers(f, perm, inv, v, j, k);
    }
    forall v, x | 0 <= v < n && 0 <= x < n ensures Reaches(f, v, x) {
      FollowReaches(f, perm, inv, v, x);
    }
  }

  lemma FollowReturns(f: seq<int>, perm: seq<int>, inv: seq<int>, v: nat)
    requires Inverse(perm, inv) && FollowsPerm(f, perm) && Closed(f) && v < |f|
    ensures Iter(f, v, |f|) == v
  {
    hide Wrap, Iter;
    IterFollows(f, perm, inv[v], |f|);
    WrapIs(inv[v] + |f|, 1, inv[v], |f|);
  }

  lemma FollowDiffers(f: seq<int>, perm: seq<int>, inv: seq<int>, v: nat, j: nat, k: nat)
    requires Inverse(perm, inv) && FollowsPerm(f, perm) && Closed(f) && v < |f| && j < k < |f|
    ensures Iter(f, v, j) != Iter(f, v, k)
  {
    hide Wrap, Iter;
    IterFollows(f, perm, inv[v], j);
    IterFollows(f, perm, inv[v], k);
    OffsetsDiffer(inv[v], j, k, |f|);
    assert inv[Iter(f, v, j)] == Wrap(inv[v] + j, |f|) && inv[Iter(f, v, k)] == Wrap(inv[v] + k, |f|);
  }

  lemma FollowReaches(f: seq<int>, perm: seq<int>, inv: seq<int>, v: nat, x: nat)
    requires Inverse(perm, inv) && FollowsPerm(f, perm) && Closed(f) && v < |f| && x < |f|
    ensures Reaches(f, v, x)
  {
    hide Wrap, Iter;
    var n := |f|;
    var k := if inv[x] >= inv[v] then inv[x] - inv[v] else inv[x] - inv[v] + n;
    IterFollows(f, perm, inv[v], k);
    WrapIs(inv[v] + k, if inv[x] >= inv[v] then 0 else 1, inv[x], n);
    assert Iter(f, v, k) == x;
  }

  // ----- gen_cycle -------------------------------------------------------------------------------

  /** b is a with the entries at i and j exchanged. */
  predicate Exchange(a: seq<int>, b: seq<int>, i: nat, j: nat) {
    && |b| == |a| && i < |a| && j < |a|
    && b[i] == a[j] && b[j] == a[i]
    && forall x :: 0 <= x < |a| && x != i && x != j ==> b[x] == a[x]
  }

  /** The rounds of a shuffle: from the identity, round i exchanges entries i and rnd[i] % n. */
  predicate Rounds(chain: seq<seq<int>>, rnd: seq<nat>) {
    && |chain| == |rnd| + 1 && |chain[0]| == |rnd| && (forall x :: 0 <= x < |rnd| ==> chain[0][x] == x)
    && forall i :: 0 <= i < |rnd| ==> Exchange(chain[i], chain[i + 1], i, rnd[i] % |rnd|)
  }

  /** These draws shuffle 0, ..., n - 1 into perm. */
  ghost predicate ShufflesTo(rnd: seq<nat>, perm: seq<int>) {
    exists chain :: Rounds(chain, rnd) && chain[|rnd|] == perm
  }

  /** f sends each entry of perm to the next one, and the last to the first. */
  predicate CycleAlong(f: seq<int>, perm: seq<int>) {
    && |f| == |perm| && Closed(perm)
    && forall i :: 0 <= i < |perm| ==> f[perm[i]] == perm[if i + 1 < |perm| then i + 1 else 0]
  }

  lemma CycleAlongIffFollows(f: seq<int>, perm: seq<int>)
    ensures CycleAlong(f, perm) <==> FollowsPerm(f, perm)
  {
    if CycleAlong(f, perm) {
      forall i | 0 <= i < |perm| ensures f[perm[i]] == perm[Wrap(i + 1, |perm|)] {
        WrapNext(i, |perm|);
      }
    }
    if FollowsPerm(f, perm) {
      forall i | 0 <= i < |perm| ensures f[perm[i]] == perm[if i + 1 < |perm| then i + 1 else 0] {
        WrapNext(i, |perm|);
      }
    }
  }

  lemma WrapNext(i: nat, n: nat)
    requires i < n
    ensures Wrap(i + 1, n) == if i + 1 < n then i + 1 else 0
  {
    WrapIs(i + 1, if i + 1 < n then 0 else 1, if i + 1 < n then i + 1 else 0, n);
  }

  /** gen_cycle: rnd are the draws of rand(). */
  method GenCycle(out: array<int>, rnd: seq<nat>) returns (ghost p: seq<int>)
    requires |rnd| == out.Length
    modifies out
    ensures SingleCycle(out[..])
    ensures ShufflesTo(rnd, p) && CycleAlong(out[..], p)
  {
    var n := out.Length;
    var perm, inv := Shuffle(n, rnd);
    p := perm[..];
    for i := 0 to n
      invariant perm[..] == p && forall j :: 0 <= j < i ==> out[p[j]] == p[Wrap(j + 1, n)]
    {
      assert forall j :: 0 <= j < i ==> inv[p[j]] == j;
      out[perm[i]] := perm[(i + 1) % n];
    }
    FollowingIsSingleCycle(out[..], p, inv);
    CycleAlongIffFollows(out[..], p);
  }

  /**
    The exchanges of gen_cycle: round i exchanges entry i with the one that draw i names, and the
    result is a permutation, with inverse inv.
   */
  method Shuffle(n: nat, rnd: seq<nat>) returns (perm: array<int>, ghost inv: seq<int>)
    requires |rnd| == n
    ensures fresh(perm) && perm.Length == n && Inverse(perm[..], inv)
    ensures ShufflesTo(rnd, perm[..])
  {
    perm := new int[n];
    for i := 0 to n
      invariant forall j :: 0 <= j < i ==> perm[j] == j
    {
      perm[i] := i;
    }
    inv := seq(n, j => j);
    ghost var chain := [perm[..]];
    for i := 0 to n
      invariant Inverse(perm[..], inv)
      invariant |chain| == i + 1 && chain[i] == perm[..] && |chain[0]| == n
      invariant forall x :: 0 <= x < n ==> chain[0][x] == x
      invariant forall j :: 0 <= j < i ==> Exchange(chain[j], chain[j + 1], j, rnd[j] % n)
    {
      var dst := rnd[i] % n;
      SwapKeepsInverse(perm[..], inv, i, dst);
      ghost var before := perm[..];
      var tmp := perm[i];
      perm[i] := perm[dst];
      perm[dst] := tmp;
      inv := inv[before[dst] := i][before[i] := dst];
      assert perm[..] == before[i := before[dst]][dst := before[i]];
      assert Exchange(before, perm[..], i, dst);
      chain := chain + [perm[..]];
    }
    assert Rounds(chain, rnd);
  }

  /** The first k rounds of a shuffle that is to end in perm. */
  lemma {:induction false} DrawsFor(perm: seq<int>, inv: seq<int>, k: nat)
    returns (rnd: seq<nat>, chain: seq<seq<int>>, place: seq<int>)
    requires Inverse(perm, inv) && k <= |perm|
    ensures |rnd| == k && |chain| == k + 1 && Inverse(chain[k], place) && |place| == |perm|
    ensures |chain[0]| == |perm| && forall x :: 0 <= x < |perm| ==> chain[0][x] == x
    ensures forall i :: 0 <= i < k ==> rnd[i] < |perm| && Exchange(chain[i], chain[i + 1], i, rnd[i])
    ensures forall x :: 0 <= x < k ==> chain[k][x] == perm[x]
  {
    if k == 0 {
      rnd, chain, place := [], [seq(|perm|, x => x)], seq(|perm|, x => x);
    } else {
      rnd, chain, place := DrawsFor(perm, inv, k - 1);
      var a, i := chain[k - 1], k - 1;
      var j := place[perm[i]];
      forall x | 0 <= x < i ensures a[x] != perm[i] {
        assert inv[perm[x]] == x && inv[perm[i]] == i;
      }
      SwapKeepsInverse(a, place, i, j);
      var b := a[i := a[j]][j := a[i]];
      assert Exchange(a, b, i, j);
      place := place[a[j] := i][a[i] := j];
      rnd, chain := rnd + [j], chain + [b];
    }
  }

  /** Every permutation is the result of some draws. */
  lemma EveryPermutationIsDrawn(perm: seq<int>, inv: seq<int>) returns (rnd: seq<nat>)
    requires Inverse(perm, inv)
    ensures |rnd| == |perm| && ShufflesTo(rnd, perm)
  {
    var chain, place;
    rnd, chain, place := DrawsFor(perm, inv, |perm|);
    forall i | 0 <= i < |rnd| ensures Exchange(chain[i], chain[i + 1], i, rnd[i] % |rnd|) {
      WrapIs(rnd[i], 0, rnd[i], |rnd|);
    }
    assert chain[|perm|] == perm;
    assert Rounds(chain, rnd);
  }

  /** Where f passes from 0: its walk is a permutation, and it is followed cyclically. */
  lemma {:induction false} WalkInverse(f: seq<int>, m: nat) returns (inv: seq<int>)
    requires SingleCycle(f) && m <= |f|
    ensures |inv| == m && forall v :: 0 <= v < m ==> 0 <= inv[v] < |f| && Iter(f, 0, inv[v]) == v
  {
    inv := [];
    if m > 0 {
      hide SingleCycle;
      inv := WalkInverse(f, m - 1);
      SingleIsClosed(f);
      var k := PlaceOf(f, m - 1);
      inv := inv + [k];
    }
  }

  /** Every single cycle is generated by some draws. */
  lemma EveryCycleIsDrawn(f: seq<int>) returns (rnd: seq<nat>, perm: seq<int>)
    requires SingleCycle(f) && 0 < |f|
    ensures |rnd| == |f| && ShufflesTo(rnd, perm) && CycleAlong(f, perm)
  {
    var n := |f|;
    perm := seq(n, i requires 0 <= i < n => Iter(f, 0, i));
    var inv := WalkInverse(f, n);
    forall i | 0 <= i < n ensures inv[perm[i]] == i {
      forall k | 0 <= k < n && k != i ensures Iter(f, 0, k) != Iter(f, 0, i) {
        var lo, hi := if k < i then k else i, if k < i then i else k;
        assert Iter(f, 0, lo) != Iter(f, 0, hi);
      }
    }
    rnd := EveryPermutationIsDrawn(perm, inv);
    forall i | 0 <= i < n ensures f[perm[i]] == perm[if i + 1 < n then i + 1 else 0] {
      assert Iter(f, 0, i + 1) == f[Iter(f, 0, i)];
      assert Iter(f, 0, n) == 0;
    }
  }

  lemma SingleIsClosed(f: seq<int>)
    requires SingleCycle(f)
    ensures Closed(f)
  {
  }

  lemma IterSteps(f: seq<int>, k: nat)
    requires Closed(f) && 0 < |f|
    ensures Iter(f, 0, 0) == 0 && Iter(f, 0, k + 1) == f[Iter(f, 0, k)]
  {
  }

  /** The walk from index 0 is back for the first time after |f| steps. */
  lemma FirstReturn(f: seq<int>, r: nat)
    requires SingleCycle(f) && 0 < r <= |f|
    ensures Iter(f, 0, r) == 0 <==> r == |f|
  {
    if r < |f| {
      assert Iter(f, 0, 0) != Iter(f, 0, r);
    }
  }

  lemma PlaceOf(f: seq<int>, v: int) returns (k: nat)
    requires SingleCycle(f) && 0 <= v < |f|
    ensures k < |f| && Iter(f, 0, k) == v
  {
    assert Reaches(f, 0, v);
    k :| 0 <= k < |f| && Iter(f, 0, k) == v;
  }

  // ----- init_run --------------------------------------------------------------------------------

  /**
    The do-while loop of init_run: it follows the table from index 0 until it is back, linking each
    node to its successor. It takes exactly n rounds, and every node of the job is linked.
   */
  method LinkNodes(next: array<int>, base: nat, cycle: array<int>) returns (rounds: nat)
    requires 0 < cycle.Length && SingleCycle(cycle[..]) && base + cycle.Length <= next.Length && next != cycle
    modifies next
    ensures rounds == cycle.Length
    ensures forall v :: 0 <= v < cycle.Length ==> next[base + v] == base + cycle[v]
    ensures forall x :: 0 <= x < next.Length && !(base <= x < base + cycle.Length) ==> next[x] == old(next[x])
  {
    hide SingleCycle, Reaches, Iter;
    var cur := 0;
    rounds := 0;
    ghost var f, n := cycle[..], cycle.Length;
    SingleIsClosed(f);
    IterSteps(f, 0);
    ghost var path := [];
    while true
      invariant 0 <= rounds < n && cur == Iter(f, 0, rounds) && cycle[..] == f && |path| == rounds
      invariant forall k :: 0 <= k < rounds ==> path[k] == Iter(f, 0, k)
      invariant forall k :: 0 <= k < rounds ==> next[base + path[k]] == base + f[path[k]]
      invariant forall x :: 0 <= x < next.Length && !(base <= x < base + n) ==> next[x] == old(next[x])
      decreases n - rounds
    {
      next[base + cur] := base + cycle[cur];
      path := path + [cur];
      cur := cycle[cur];
      IterSteps(f, rounds);
      rounds := rounds + 1;
      FirstReturn(f, rounds);
      if cur == 0 {
        break;
      }
    }
    forall v | 0 <= v < n ensures next[base + v] == base + cycle[v] {
      var k := PlaceOf(f, v);
      assert path[k] == v;
    }
  }

  /** f is the cycle along the shuffle of these draws. */
  ghost predicate DrawnCycle(rnd: seq<nat>, f: seq<int>) {
    exists p :: ShufflesTo(rnd, p) && CycleAlong(f, p)
  }

  /** init_run for one job: a fresh cycle, linked into the node array from `base` on. */
  method InitRun(next: array<int>, base: nat, arrLen: nat, rnd: seq<nat>) returns (rounds: nat, ghost f: seq<int>)
    requires 0 < arrLen && base + arrLen <= next.Length && |rnd| == arrLen
    modifies next
    ensures rounds == arrLen && |f| == arrLen && SingleCycle(f) && DrawnCycle(rnd, f)
    ensures forall v :: 0 <= v < arrLen ==> next[base + v] == base + f[v]
    ensures forall x :: 0 <= x < next.Length && !(base <= x < base + arrLen) ==> next[x] == old(next[x])
  {
    var cycle := new int[arrLen];
    ghost var p := GenCycle(cycle, rnd);
    rounds := LinkNodes(next, base, cycle);
    f := cycle[..];
  }

  // ----- ptrchase_tq -----------------------------------------------------------------------------

  /** How often v is the node whose link is followed in the first k steps from node 0. */
  function Visits(f: seq<int>, k: nat, v: int): nat
    requires Closed(f) && 0 < |f|
  {
    if k == 0 then 0 else Visits(f, k - 1, v) + if Iter(f, 0, k - 1) == v then 1 else 0
  }

  /** The chase loop of ptrchase_tq over the nodes of job 0. */
  method Chase(next: array<int>, repPerTask: nat) returns (cur: int, ghost visits: seq<nat>)
    requires 0 < next.Length && Closed(next[..])
    ensures cur == Iter(next[..], 0, repPerTask)
    ensures |visits| == next.Length
    ensures forall v :: 0 <= v < next.Length ==> visits[v] == Visits(next[..], repPerTask, v)
  {
    cur := 0;
    visits := seq(next.Length, v => 0);
    var reps := 0;
    while reps < repPerTask
      invariant 0 <= reps <= repPerTask && cur == Iter(next[..], 0, reps)
      invariant |visits| == next.Length
      invariant forall v :: 0 <= v < next.Length ==> visits[v] == Visits(next[..], reps, v)
    {
      visits := visits[cur := visits[cur] + 1];
      cur := next[cur];
      reps := reps + 1;
    }
  }

  lemma {:induction false} IterAdds(f: seq<int>, v: int, j: nat, k: nat)
    requires Closed(f) && 0 <= v < |f|
    ensures Iter(f, v, j + k) == Iter(f, Iter(f, v, j), k)
  {
    if k > 0 {
      IterAdds(f, v, j, k - 1);
    }
  }

  /** A whole number of rounds is back at the start. */
  lemma {:induction false} RoundsReturn(f: seq<int>, reps: nat)
    requires SingleCycle(f) && 0 < |f|
    ensures Iter(f, 0, reps * |f|) == 0
  {
    if reps > 0 {
      RoundsReturn(f, reps - 1);
      assert reps * |f| == (reps - 1) * |f| + |f|;
      IterAdds(f, 0, (reps - 1) * |f|, |f|);
    }
  }

  /** Within one round from node 0, v has been visited once k is past its place, else not at all. */
  lemma {:induction false} VisitsInRound(f: seq<int>, start: nat, k: nat, v: int, at: nat)
    requires SingleCycle(f) && 0 < |f| && k <= |f| && at < |f|
    requires Iter(f, 0, start) == 0 && Iter(f, 0, at) == v
    ensures Visits(f, start + k, v) == Visits(f, start, v) + if at < k then 1 else 0
  {
    if k > 0 {
      VisitsInRound(f, start, k - 1, v, at);
      IterAdds(f, 0, start, k - 1);
      assert Iter(f, 0, start + k - 1) == Iter(f, 0, k - 1);
      if at != k - 1 {
        var lo, hi := if at < k - 1 then at else k - 1, if at < k - 1 then k - 1 else at;
        assert Iter(f, 0, lo) != Iter(f, 0, hi);
      }
    }
  }

  lemma RoundVisitsOnce(f: seq<int>, start: nat, v: int)
    requires SingleCycle(f) && 0 <= v < |f| && Iter(f, 0, start) == 0
    ensures Visits(f, start + |f|, v) == Visits(f, start, v) + 1
  {
    var at := PlaceOf(f, v);
    VisitsInRound(f, start, |f|, v, at);
  }

  /**
    A chase of n * reps steps over a single cycle of n nodes ends where it began and has followed
    the link of every node exactly reps times.
   */
  lemma {:induction false} ChaseIsUniform(f: seq<int>, reps: nat, v: int)
    requires SingleCycle(f) && 0 <= v < |f|
    ensures Iter(f, 0, reps * |f|) == 0
    ensures Visits(f, reps * |f|, v) == reps
  {
    hide Iter, SingleCycle;
    SingleIsClosed(f);
    RoundsReturn(f, reps);
    if reps == 0 {
      assert 0 * |f| == 0;
    } else {
      hide Visits;
      ChaseIsUniform(f, reps - 1, v);
      RoundVisitsOnce(f, (reps - 1) * |f|, v);
      assert reps * |f| == (reps - 1) * |f| + |f|;
    }
  }

  // ----- The whole run -----------------------------------------------------------------------------

  /** The nodes of job j are linked along f, which is one single cycle. */
  predicate JobLinked(next: seq<int>, f: seq<int>, arrLen: nat, j: nat)
    requires j * arrLen + arrLen <= |next|
  {
    |f| == arrLen && forall v :: 0 <= v < arrLen ==> next[j * arrLen + v] == j * arrLen + f[v]
  }

  lemma JobsFit(j: nat, jobs: nat, arrLen: nat)
    requires j < jobs
    ensures 0 <= j * arrLen && (j + 1) * arrLen == j * arrLen + arrLen <= jobs * arrLen
  {
    if j + 1 < jobs {
      JobsFit(j, jobs - 1, arrLen);
      assert jobs * arrLen == (jobs - 1) * arrLen + arrLen;
    }
  }

  /** Every job's nodes are linked along one single cycle of their own. */
  ghost predicate JobsLinked(next: seq<int>, fs: seq<seq<int>>, arrLen: nat, jobs: nat)
    requires |next| == jobs * arrLen
  {
    && |fs| <= jobs
    && forall j :: 0 <= j < |fs| ==>
      (JobsFit(j, jobs, arrLen); SingleCycle(fs[j]) && JobLinked(next, fs[j], arrLen, j))
  }

  /** init_run: a fresh cycle for every job. */
  method InitJobs(next: array<int>, arrLen: nat, jobs: nat, rnds: seq<seq<nat>>) returns (ghost fs: seq<seq<int>>)
    requires 0 < arrLen && next.Length == jobs * arrLen
    requires |rnds| == jobs && forall j :: 0 <= j < jobs ==> |rnds[j]| == arrLen
    modifies next
    ensures |fs| == jobs && JobsLinked(next[..], fs, arrLen, jobs)
    ensures forall j :: 0 <= j < jobs ==> DrawnCycle(rnds[j], fs[j])
  {
    hide SingleCycle, DrawnCycle;
    fs := [];
    for j := 0 to jobs
      invariant |fs| == j && forall i :: 0 <= i < j ==> DrawnCycle(rnds[i], fs[i])
      invariant JobsLinked(next[..], fs, arrLen, jobs)
    {
      JobsFit(j, jobs, arrLen);
      ghost var before := next[..];
      var rounds, f := InitRun(next, j * arrLen, arrLen, rnds[j]);
      OneMoreJob(before, next[..], fs, f, arrLen, jobs);
      fs := fs + [f];
    }
  }

  lemma OneMoreJob(a: seq<int>, b: seq<int>, fs: seq<seq<int>>, f: seq<int>, arrLen: nat, jobs: nat)
    requires |a| == |b| == jobs * arrLen && |fs| < jobs && JobsLinked(a, fs, arrLen, jobs)
    requires |fs| * arrLen + arrLen <= |b| && SingleCycle(f) && JobLinked(b, f, arrLen, |fs|)
    requires forall x :: 0 <= x < |a| && !(|fs| * arrLen <= x < |fs| * arrLen + arrLen) ==> b[x] == a[x]
    ensures JobsLinked(b, fs + [f], arrLen, jobs)
  {
    hide SingleCycle;
    var gs := fs + [f];
    forall j | 0 <= j < |gs|
      ensures j * arrLen + arrLen <= |b| && SingleCycle(gs[j]) && JobLinked(b, gs[j], arrLen, j)
    {
      JobsFit(j, jobs, arrLen);
      if j < |fs| {
        JobsFit(j, |fs|, arrLen);
        assert JobLinked(a, fs[j], arrLen, j);
      }
    }
  }

  /** A chase from node 0 stays with job 0. */
  lemma {:induction false} ChaseStays(next: seq<int>, f: seq<int>, k: nat)
    requires Closed(next) && Closed(f) && 0 < |f| <= |next| && forall v :: 0 <= v < |f| ==> next[v] == f[v]
    ensures Iter(next, 0, k) == Iter(f, 0, k)
    ensures forall v :: 0 <= v < |f| ==> Visits(next, k, v) == Visits(f, k, v)
  {
    if k > 0 {
      ChaseStays(next, f, k - 1);
    }
  }

  lemma JobsClosed(next: seq<int>, fs: seq<seq<int>>, arrLen: nat, jobs: nat)
    requires 0 < arrLen && |next| == jobs * arrLen && |fs| == jobs && JobsLinked(next, fs, arrLen, jobs)
    ensures Closed(next)
  {
    hide SingleCycle;
    forall x | 0 <= x < |next| ensures 0 <= next[x] < |next| {
      var j, v := x / arrLen, x % arrLen;
      assert x == j * arrLen + v;
      JobOf(x, jobs, arrLen);
      JobsFit(j, jobs, arrLen);
      SingleIsClosed(fs[j]);
      LinkStaysInJob(next, fs[j], arrLen, j, v);
    }
  }

  lemma LinkStaysInJob(next: seq<int>, f: seq<int>, arrLen: nat, j: nat, v: nat)
    requires j * arrLen + arrLen <= |next| && JobLinked(next, f, arrLen, j) && Closed(f) && v < arrLen
    ensures 0 <= j * arrLen && j * arrLen + v < |next| && 0 <= next[j * arrLen + v] < |next|
  {
    JobsFit(j, j + 1, arrLen);
    assert 0 <= f[v] < |f|;
    assert next[j * arrLen + v] == j * arrLen + f[v];
  }

  lemma JobOf(x: nat, jobs: nat, arrLen: nat)
    requires 0 < arrLen && x < jobs * arrLen
    ensures x / arrLen < jobs
  {
    if x / arrLen >= jobs {
      assert x / arrLen * arrLen >= jobs * arrLen by {
        JobsOrder(jobs, x / arrLen, arrLen);
      }
    }
  }

  lemma JobsOrder(a: nat, b: nat, n: nat)
    requires a <= b
    ensures a * n <= b * n
  {
    if a < b {
      JobsFit(a, b, n);
    }
  }

  /**
    run: whatever rand() returns, the chase over arrLen * reps links ends where it began, having
    followed the link of each node of its job exactly reps times.
   */
  method Run(next: array<int>, arrLen: nat, jobs: nat, reps: nat, rnds: seq<seq<nat>>)
    returns (cur: int, ghost visits: seq<nat>)
    requires 0 < arrLen && 0 < jobs && next.Length == jobs * arrLen
    requires |rnds| == jobs && forall j :: 0 <= j < jobs ==> |rnds[j]| == arrLen
    modifies next
    ensures cur == 0 && |visits| == next.Length
    ensures forall v :: 0 <= v < next.Length ==> visits[v] == if v < arrLen then reps else 0
  {
    hide SingleCycle, Iter, Visits, JobsLinked, Closed;
    ghost var fs := InitJobs(next, arrLen, jobs, rnds);
    JobsClosed(next[..], fs, arrLen, jobs);
    cur, visits := Chase(next, arrLen * reps);
    WholeChase(next[..], fs, arrLen, jobs, reps);
  }

  lemma WholeChase(next: seq<int>, fs: seq<seq<int>>, arrLen: nat, jobs: nat, reps: nat)
    requires 0 < arrLen && 0 < jobs && |next| == jobs * arrLen && Closed(next)
    requires |fs| == jobs && JobsLinked(next, fs, arrLen, jobs)
    ensures |next| > 0 && Iter(next, 0, arrLen * reps) == 0
    ensures forall v :: 0 <= v < |next| ==> Visits(next, arrLen * reps, v) == if v < arrLen then reps else 0
  {
    hide SingleCycle, Iter, Visits;
    JobsFit(0, jobs, arrLen);
    var f := fs[0];
    assert JobLinked(next, f, arrLen, 0);
    SingleIsClosed(f);
    assert arrLen * reps == reps * |f|;
    forall v | 0 <= v < arrLen ensures Iter(f, 0, arrLen * reps) == 0 && Visits(f, arrLen * reps, v) == reps {
      ChaseIsUniform(f, reps, v);
    }
    assert forall v :: 0 <= v < arrLen ==> next[v] == f[v] by {
      assert forall v :: 0 <= v < arrLen ==> next[0 * arrLen + v] == 0 * arrLen + f[v];
    }
    ChaseStays(next, f, arrLen * reps);
    NeverElsewhere(next, f, arrLen * reps);
    ChaseIsUniform(f, reps, 0);
  }

  lemma {:induction false} NeverElsewhere(next: seq<int>, f: seq<int>, k: nat)
    requires Closed(next) && Closed(f) && 0 < |f| <= |next| && forall v :: 0 <= v < |f| ==> next[v] == f[v]
    ensures forall v :: |f| <= v < |next| ==> Visits(next, k, v) == 0
  {
    if k > 0 {
      NeverElsewhere(next, f, k - 1);
      ChaseStays(next, f, k - 1);
    }
  }
}
