/**
  The LBR aggregation of profile/scripts/compute_ld_prob.py: branch records are localized to symbols
  through a one-entry cache, counted by several workers over a strided split of the trace, and the
  workers' dictionaries are added up.
 */
module LbrProfile {
  import opened Modular
  import opened Wrappers

  /** An entry of symbol_map: object start, symbol start, symbol end; the end is inclusive. */
  datatype Sym = Sym(name: string, obj: int, lo: int, hi: int)

  datatype Hit = Hit(name: string, off: int)

  datatype Branch = Branch(src: int, dst: int, cycles: int)

  /** A basic block: object name, local start, local end. */
  datatype Key = Key(name: string, from: int, to: int)

  const LBR_SUBSAMPLE_SIZE: nat := 32

  // ----- Symbol lookup ---------------------------------------------------------------------------

  predicate Covers(s: Sym, addr: int) {
    s.lo <= addr <= s.hi
  }

  /** The first symbol, in dictionary order, that covers addr, or -1. */
  function First(syms: seq<Sym>, addr: int): (r: int)
    ensures -1 <= r < |syms|
    ensures r == -1 ==> forall j :: 0 <= j < |syms| ==> !Covers(syms[j], addr)
    ensures r != -1 ==> Covers(syms[r], addr) && forall j :: 0 <= j < r ==> !Covers(syms[j], addr)
  {
    FirstFrom(syms, addr, 0)
  }

  function FirstFrom(syms: seq<Sym>, addr: int, i: nat): (r: int)
    requires i <= |syms|
    ensures r == -1 || i <= r < |syms|
    ensures r == -1 ==> forall j :: i <= j < |syms| ==> !Covers(syms[j], addr)
    ensures r != -1 ==> Covers(syms[r], addr) && forall j :: i <= j < r ==> !Covers(syms[j], addr)
    decreases |syms| - i
  {
    if i == |syms| then -1 else if Covers(syms[i], addr) then i else FirstFrom(syms, addr, i + 1)
  }

  function HitOf(s: Sym, addr: int): Hit {
    Hit(s.name, addr - s.obj)
  }

  /** The lookup without a cache: a plain linear scan. */
  function Scan(syms: seq<Sym>, addr: int): Option<Hit> {
    var j := First(syms, addr);
    if j == -1 then None else Some(HitOf(syms[j], addr))
  }

  /** __symbol_map_lookup: the cached symbol wins if it covers the address. */
  function Lookup(syms: seq<Sym>, cache: Option<Sym>, addr: int): Option<Hit> {
    if cache.Some? && Covers(cache.value, addr) then Some(HitOf(cache.value, addr)) else Scan(syms, addr)
  }

  /** Symbol j is the first, in dictionary order, whose inclusive range holds addr. */
  predicate FirstCover(syms: seq<Sym>, j: nat, addr: int) {
    && j < |syms| && syms[j].lo <= addr <= syms[j].hi
    && forall i :: 0 <= i < j ==> !(syms[i].lo <= addr <= syms[i].hi)
  }

  predicate Uncovered(syms: seq<Sym>, addr: int) {
    forall i :: 0 <= i < |syms| ==> !(syms[i].lo <= addr <= syms[i].hi)
  }

  /** The hit is an address local to its symbol's object. */
  predicate LocalTo(s: Sym, h: Hit, addr: int) {
    h.name == s.name && h.off + s.obj == addr
  }

  /** The scan answers with the address local to the object of the first covering symbol. */
  lemma ScanFinds(syms: seq<Sym>, addr: int)
    ensures Scan(syms, addr).None? <==> Uncovered(syms, addr)
    ensures Scan(syms, addr).Some? ==>
      exists j: nat :: FirstCover(syms, j, addr) && LocalTo(syms[j], Scan(syms, addr).value, addr)
  {
    var j := First(syms, addr);
    if j != -1 {
      assert Covers(syms[j], addr);
      FirstCovers(syms, addr);
    } else {
      forall i | 0 <= i < |syms| ensures !(syms[i].lo <= addr <= syms[i].hi) {
        assert !Covers(syms[i], addr);
      }
    }
  }

  lemma FirstCovers(syms: seq<Sym>, addr: int)
    requires First(syms, addr) != -1
    ensures FirstCover(syms, First(syms, addr), addr) && !Uncovered(syms, addr)
  {
    var j := First(syms, addr);
    assert Covers(syms[j], addr);
    forall i | 0 <= i < j ensures !(syms[i].lo <= addr <= syms[i].hi) {
      assert !Covers(syms[i], addr);
    }
  }

  /** The symbol that a lookup goes by: the cached one if it covers the address, else the first. */
  ghost predicate GoesBy(syms: seq<Sym>, cache: Option<Sym>, addr: int, s: Sym) {
    if cache.Some? && cache.value.lo <= addr <= cache.value.hi then s == cache.value
    else exists j: nat :: FirstCover(syms, j, addr) && s == syms[j]
  }

  /**
    A lookup answers with an address local to the object of the symbol that it goes by, and remembers
    that symbol; it fails, and remembers nothing new, exactly if no symbol covers the address.
   */
  ghost predicate Answers(syms: seq<Sym>, cache: Option<Sym>, addr: int, r: Option<Hit>, cache': Option<Sym>) {
    && (r.None? <==> Uncovered(syms, addr)) && (r.None? ==> cache' == cache)
    && (r.Some? ==>
      && cache'.Some? && cache'.value in syms && GoesBy(syms, cache, addr, cache'.value)
      && cache'.value.lo <= addr <= cache'.value.hi
      && r.value.name == cache'.value.name && r.value.off + cache'.value.obj == addr)
  }

  lemma LookupFinds(syms: seq<Sym>, cache: Option<Sym>, addr: int)
    requires CacheOK(syms, cache)
    ensures Answers(syms, cache, addr, Lookup(syms, cache, addr), CacheAfter(syms, cache, addr))
  {
    if cache.Some? && Covers(cache.value, addr) {
      var a :| First(syms, a) != -1 && cache.value == syms[First(syms, a)];
      assert cache.value == syms[First(syms, a)];
    } else if First(syms, addr) != -1 {
      FirstCovers(syms, addr);
    } else {
      ScanFinds(syms, addr);
    }
  }

  /**
    A block is found exactly if both of its ends are covered and the two lookups, the second with the
    cache that the first leaves, go by symbols of one name; it has that name, and its ends are local to
    their symbols' objects.
   */
  ghost predicate Delimits(syms: seq<Sym>, cache: Option<Sym>, first: int, second: int, r: Option<Key>) {
    && (r.None? ==> Uncovered(syms, first) || Uncovered(syms, second) || exists s, u ::
      Ends(syms, cache, first, second, s, u) && s.name != u.name)
    && (r.Some? ==> exists s, u :: Ends(syms, cache, first, second, s, u) && SpansTo(r.value, s, first, u, second))
  }

  predicate SpansTo(k: Key, s: Sym, first: int, u: Sym, second: int) {
    s.name == k.name && u.name == k.name && k.from + s.obj == first && k.to + u.obj == second
  }

  /** The symbols that two lookups in a row go by. */
  ghost predicate Ends(syms: seq<Sym>, cache: Option<Sym>, first: int, second: int, s: Sym, u: Sym) {
    && s in syms && s.lo <= first <= s.hi && GoesBy(syms, cache, first, s)
    && u in syms && u.lo <= second <= u.hi && GoesBy(syms, Some(s), second, u)
  }

  lemma LocalizeFinds(syms: seq<Sym>, cache: Option<Sym>, first: int, second: int)
    requires CacheOK(syms, cache)
    ensures
      var cache1 := CacheAfter(syms, cache, first);
      Delimits(syms, cache, first, second, Localize(Lookup(syms, cache, first), Lookup(syms, cache1, second)))
  {
    hide Lookup, CacheAfter, GoesBy, Uncovered, CacheOK;
    var cache1 := CacheAfter(syms, cache, first);
    LookupFinds(syms, cache, first);
    LookupKeepsCacheOK(syms, cache, first);
    LookupFinds(syms, cache1, second);
    if Lookup(syms, cache, first).Some? && Lookup(syms, cache1, second).Some? {
      assert Ends(syms, cache, first, second, cache1.value, CacheAfter(syms, cache1, second).value);
    }
  }

  /** last_match after a lookup. */
  function CacheAfter(syms: seq<Sym>, cache: Option<Sym>, addr: int): Option<Sym> {
    if cache.Some? && Covers(cache.value, addr) then cache
    else
      var j := First(syms, addr);
      if j == -1 then cache else Some(syms[j])
  }

  /** A cache that some history of lookups can leave behind. */
  ghost predicate CacheOK(syms: seq<Sym>, cache: Option<Sym>) {
    cache.None? || exists a :: First(syms, a) != -1 && cache.value == syms[First(syms, a)]
  }

  lemma LookupKeepsCacheOK(syms: seq<Sym>, cache: Option<Sym>, addr: int)
    requires CacheOK(syms, cache)
    ensures CacheOK(syms, CacheAfter(syms, cache, addr))
  {
  }

  /** addr is covered by a symbol before the j-th. */
  ghost predicate CoveredBefore(syms: seq<Sym>, j: nat, addr: int)
    requires j <= |syms|
  {
    exists i :: 0 <= i < j && Covers(syms[i], addr)
  }

  /** The j-th symbol shares no address with an earlier one. */
  ghost predicate Apart(syms: seq<Sym>, j: nat)
    requires j < |syms|
  {
    forall a :: Covers(syms[j], a) ==> !CoveredBefore(syms, j, a)
  }

  /** The j-th symbol can never be found: earlier ones cover all of it. */
  ghost predicate Hidden(syms: seq<Sym>, j: nat)
    requires j < |syms|
  {
    forall a :: Covers(syms[j], a) ==> CoveredBefore(syms, j, a)
  }

  /** Every symbol is apart from the earlier ones, or wholly covered by them. */
  ghost predicate Layered(syms: seq<Sym>) {
    forall j :: 0 <= j < |syms| ==> Apart(syms, j) || Hidden(syms, j)
  }

  /** Ranges that are pairwise disjoint under their inclusive ends. */
  predicate Disjoint(syms: seq<Sym>) {
    forall i, j :: 0 <= i < j < |syms| ==> syms[i].hi < syms[j].lo || syms[j].hi < syms[i].lo
  }

  lemma DisjointIsLayered(syms: seq<Sym>)
    requires Disjoint(syms)
    ensures Layered(syms)
  {
    forall j | 0 <= j < |syms| ensures Apart(syms, j) {
      assert forall i, a :: 0 <= i < j && Covers(syms[j], a) ==> !Covers(syms[i], a);
    }
  }

  /** The keys of a dictionary are distinct. */
  predicate DistinctNames(syms: seq<Sym>) {
    forall i, j :: 0 <= i < j < |syms| ==> syms[i].name != syms[j].name
  }

  /** Whatever lookups came before, the cached lookup returns what the scan returns. */
  ghost predicate Transparent(syms: seq<Sym>) {
    forall cache, b :: CacheOK(syms, cache) ==> Lookup(syms, cache, b) == Scan(syms, b)
  }

  /** The cache is invisible exactly if the symbol ranges are layered. */
  lemma CacheIsTransparentIff(syms: seq<Sym>)
    requires DistinctNames(syms)
    ensures Transparent(syms) <==> Layered(syms)
  {
    if Layered(syms) {
      forall cache, b | CacheOK(syms, cache) ensures Lookup(syms, cache, b) == Scan(syms, b) {
        LayeredHit(syms, cache, b);
      }
    }
    if !Layered(syms) {
      var j :| 0 <= j < |syms| && !Apart(syms, j) && !Hidden(syms, j);
      var cache, b := PartialCoverShows(syms, j);
      assert Lookup(syms, cache, b) != Scan(syms, b);
    }
  }

  lemma LayeredHit(syms: seq<Sym>, cache: Option<Sym>, b: int)
    requires Layered(syms) && CacheOK(syms, cache)
    ensures Lookup(syms, cache, b) == Scan(syms, b)
  {
    if cache.Some? && Covers(cache.value, b) {
      var a :| First(syms, a) != -1 && cache.value == syms[First(syms, a)];
      var j := First(syms, a);
      assert !CoveredBefore(syms, j, a);
      assert Apart(syms, j);
      assert !CoveredBefore(syms, j, b);
      assert First(syms, b) == j;
    }
  }

  /** A symbol that is partly covered by earlier ones can be cached and then hide the right answer. */
  lemma PartialCoverShows(syms: seq<Sym>, j: nat) returns (cache: Option<Sym>, b: int)
    requires DistinctNames(syms) && j < |syms| && !Apart(syms, j) && !Hidden(syms, j)
    ensures CacheOK(syms, cache) && Lookup(syms, cache, b) != Scan(syms, b)
  {
    var a :| Covers(syms[j], a) && !CoveredBefore(syms, j, a);
    b :| Covers(syms[j], b) && CoveredBefore(syms, j, b);
    assert First(syms, a) == j;
    cache := Some(syms[j]);
    var i :| 0 <= i < j && Covers(syms[i], b);
    assert First(syms, b) <= i;
  }

  /** build_symbol_map makes neighbouring symbols share an address: the cache is then visible. */
  lemma NeighboursConflict(start: int, len: nat, next: nat)
    requires 0 < len
    ensures
      var syms := [Sym("a", 0, start, start + len), Sym("b", 0, start + len, start + len + next)];
      next > 0 ==> !Transparent(syms)
  {
    var syms := [Sym("a", 0, start, start + len), Sym("b", 0, start + len, start + len + next)];
    if next > 0 {
      CacheIsTransparentIff(syms);
      assert Covers(syms[1], start + len) && Covers(syms[0], start + len);
      assert CoveredBefore(syms, 1, start + len);
      assert Covers(syms[1], start + len + next) && !CoveredBefore(syms, 1, start + len + next);
      assert !Apart(syms, 1) && !Hidden(syms, 1);
    }
  }

  // ----- The reference: one sequential pass without a cache ----------------------------------------

  /** __localize_address with allow_diff_obj left False. */
  function Localize(first: Option<Hit>, second: Option<Hit>): Option<Key> {
    if first.None? || second.None? || first.value.name != second.value.name then None
    else Some(Key(first.value.name, first.value.off, second.value.off))
  }

  /** The block between branch i - 1 and branch i of a record. */
  function BlockAt(syms: seq<Sym>, line: seq<Branch>, i: nat): Option<Key>
    requires 1 <= i < |line|
  {
    Localize(Scan(syms, line[i].dst), Scan(syms, line[i - 1].src))
  }

  /**
    Branch i of a record ends an execution of block k: the block starts where branch i - 1 went to,
    that is, at the target of branch i, and ends at the source of branch i - 1; both are covered by
    symbols of the block's name, and counted from their objects.
   */
  ghost predicate Execution(syms: seq<Sym>, line: seq<Branch>, i: nat, k: Key) {
    && 1 <= i < |line|
    && exists a: nat, b: nat ::
      && FirstCover(syms, a, line[i].dst) && FirstCover(syms, b, line[i - 1].src)
      && SpansTo(k, syms[a], line[i].dst, syms[b], line[i - 1].src)
  }

  lemma CoverIsFirst(syms: seq<Sym>, j: nat, addr: int)
    requires FirstCover(syms, j, addr)
    ensures First(syms, addr) == j
  {
    assert Covers(syms[j], addr);
    forall i | 0 <= i < j ensures !Covers(syms[i], addr) {
      assert !(syms[i].lo <= addr <= syms[i].hi);
    }
  }

  /** The reference counts exactly the executions. */
  lemma BlockIsExecution(syms: seq<Sym>, line: seq<Branch>, i: nat, k: Key)
    requires 1 <= i < |line|
    ensures BlockAt(syms, line, i) == Some(k) <==> Execution(syms, line, i, k)
  {
    var dst, src := line[i].dst, line[i - 1].src;
    if Execution(syms, line, i, k) {
      var a: nat, b: nat :|
        && FirstCover(syms, a, dst) && FirstCover(syms, b, src) && SpansTo(k, syms[a], dst, syms[b], src);
      CoverIsFirst(syms, a, dst);
      CoverIsFirst(syms, b, src);
    }
    if BlockAt(syms, line, i) == Some(k) {
      FirstCovers(syms, dst);
      FirstCovers(syms, src);
      assert SpansTo(k, syms[First(syms, dst)], dst, syms[First(syms, src)], src);
    }
  }

  /** How often a block was seen, and the cycles spent in it. */
  datatype Tally = Tally(cnt: nat, cycles: int)

  function Plus(a: Tally, b: Tally): Tally {
    Tally(a.cnt + b.cnt, a.cycles + b.cycles)
  }

  /** The part of a record that is counted. */
  function Sample(line: seq<Branch>): seq<Branch> {
    if |line| < 2 then []
    else if |line| <= LBR_SUBSAMPLE_SIZE then line
    else line[..LBR_SUBSAMPLE_SIZE]
  }

  /** The tally of block k over the first n branches of a record. */
  function LineTally(syms: seq<Sym>, line: seq<Branch>, n: nat, k: Key): Tally
    requires n <= |line|
  {
    if n <= 1 then Tally(0, 0)
    else
      Plus(LineTally(syms, line, n - 1, k),
           if BlockAt(syms, line, n - 1) == Some(k) then Tally(1, line[n - 1].cycles) else Tally(0, 0))
  }

  function RecordTally(syms: seq<Sym>, line: seq<Branch>, k: Key): Tally {
    LineTally(syms, Sample(line), |Sample(line)|, k)
  }

  /** The tally of block k over a whole trace, in one pass. */
  function TraceTally(syms: seq<Sym>, lines: seq<seq<Branch>>, k: Key): Tally {
    if lines == [] then Tally(0, 0)
    else Plus(TraceTally(syms, lines[..|lines| - 1], k), RecordTally(syms, lines[|lines| - 1], k))
  }

  // ----- What a tally is -----------------------------------------------------------------------------

  function Sum(s: seq<int>): int {
    if s == [] then 0 else Sum(s[..|s| - 1]) + s[|s| - 1]
  }

  lemma {:induction false} SumJoins(a: seq<int>, b: seq<int>)
    ensures Sum(a + b) == Sum(a) + Sum(b)
  {
    if b == [] {
      assert a + b == a;
    } else {
      SumJoins(a, b[..|b| - 1]);
      assert (a + b)[..|a + b| - 1] == a + b[..|b| - 1];
    }
  }

  /** The cycles of block k's executions among the first n branches of a record. */
  ghost function LineCycles(syms: seq<Sym>, line: seq<Branch>, n: nat, k: Key): seq<int>
    requires n <= |line|
  {
    if n == 0 then []
    else LineCycles(syms, line, n - 1, k) + if Execution(syms, line, n - 1, k) then [line[n - 1].cycles] else []
  }

  /** The cycles of block k's executions in a trace, of which the first 32 branches a record count. */
  ghost function TraceCycles(syms: seq<Sym>, lines: seq<seq<Branch>>, k: Key): seq<int> {
    if lines == [] then []
    else
      var line := lines[|lines| - 1];
      TraceCycles(syms, lines[..|lines| - 1], k) + LineCycles(syms, line, if |line| < 32 then |line| else 32, k)
  }

  lemma {:induction false} LineTallySums(syms: seq<Sym>, line: seq<Branch>, n: nat, k: Key)
    requires n <= |line|
    ensures LineTally(syms, line, n, k).cnt == |LineCycles(syms, line, n, k)|
    ensures LineTally(syms, line, n, k).cycles == Sum(LineCycles(syms, line, n, k))
  {
    if n > 1 {
      LineTallySums(syms, line, n - 1, k);
      BlockIsExecution(syms, line, n - 1, k);
      SumJoins(LineCycles(syms, line, n - 1, k), [line[n - 1].cycles]);
      SumOfOne(line[n - 1].cycles);
      assert LineCycles(syms, line, n - 1, k) + [] == LineCycles(syms, line, n - 1, k);
    } else if n == 1 {
      assert LineCycles(syms, line, 0, k) == [] && LineCycles(syms, line, 1, k) == [];
    }
  }

  lemma SumOfOne(x: int)
    ensures Sum([x]) == x
  {
    assert [x][..0] == [];
  }

  lemma {:induction false} CyclesOfPrefix(syms: seq<Sym>, line: seq<Branch>, m: nat, n: nat, k: Key)
    requires n <= m <= |line|
    ensures LineCycles(syms, line[..m], n, k) == LineCycles(syms, line, n, k)
  {
    if n > 0 {
      CyclesOfPrefix(syms, line, m, n - 1, k);
      assert Execution(syms, line[..m], n - 1, k) <==> Execution(syms, line, n - 1, k);
    }
  }

  /**
    For every trace and every block: the count is the number of the block's executions, and the cycles
    are the sum of their cycles.
   */
  lemma {:induction false} TallyIsSum(syms: seq<Sym>, lines: seq<seq<Branch>>, k: Key)
    ensures TraceTally(syms, lines, k).cnt == |TraceCycles(syms, lines, k)|
    ensures TraceTally(syms, lines, k).cycles == Sum(TraceCycles(syms, lines, k))
    decreases |lines|
  {
    if lines != [] {
      var done, line := lines[..|lines| - 1], lines[|lines| - 1];
      var n := if |line| < 32 then |line| else 32;
      TallyIsSum(syms, done, k);
      RecordTallySums(syms, line, n, k);
      SumJoins(TraceCycles(syms, done, k), LineCycles(syms, line, n, k));
    }
  }

  lemma RecordTallySums(syms: seq<Sym>, line: seq<Branch>, n: nat, k: Key)
    requires n == if |line| < 32 then |line| else 32
    ensures RecordTally(syms, line, k).cnt == |LineCycles(syms, line, n, k)|
    ensures RecordTally(syms, line, k).cycles == Sum(LineCycles(syms, line, n, k))
  {
    LineTallySums(syms, Sample(line), |Sample(line)|, k);
    if |line| < 2 {
      assert LineCycles(syms, line, 0, k) == [];
      assert n == 1 ==> !Execution(syms, line, 0, k);
    } else {
      assert Sample(line) == line[..n];
      CyclesOfPrefix(syms, line, n, n, k);
    }
  }

  /** The dictionaries say of block k exactly what the tally t says. */
  predicate TalliedAt(cf: map<Key, nat>, lat: map<Key, Tally>, k: Key, t: Tally) {
    && (t.cnt == 0 ==> k !in cf && k !in lat && t == Tally(0, 0))
    && (t.cnt != 0 ==> k in cf && cf[k] == t.cnt && k in lat && lat[k] == t)
  }

  /** The tally of a trace and the first n branches of one more record. */
  function TallyTo(syms: seq<Sym>, done: seq<seq<Branch>>, line: seq<Branch>, n: nat, k: Key): Tally
    requires n <= |line|
  {
    Plus(TraceTally(syms, done, k), LineTally(syms, line, n, k))
  }

  /** The dictionaries hold exactly the blocks seen so far, with their tallies. */
  ghost predicate TalliedTo(cf: map<Key, nat>, lat: map<Key, Tally>,
                            syms: seq<Sym>, done: seq<seq<Branch>>, line: seq<Branch>, n: nat)
    requires n <= |line|
  {
    forall k :: TalliedAt(cf, lat, k, TallyTo(syms, done, line, n, k))
  }

  ghost predicate Tallied(cf: map<Key, nat>, lat: map<Key, Tally>, syms: seq<Sym>, done: seq<seq<Branch>>) {
    forall k :: TalliedAt(cf, lat, k, TraceTally(syms, done, k))
  }

  lemma TraceGrows(syms: seq<Sym>, done: seq<seq<Branch>>, x: seq<Branch>, k: Key)
    ensures TraceTally(syms, done + [x], k) == Plus(TraceTally(syms, done, k), RecordTally(syms, x, k))
  {
    assert (done + [x])[..|done + [x]| - 1] == done;
  }

  lemma RecordStarts(cf: map<Key, nat>, lat: map<Key, Tally>, syms: seq<Sym>, done: seq<seq<Branch>>, line: seq<Branch>)
    requires Tallied(cf, lat, syms, done)
    ensures TalliedTo(cf, lat, syms, done, line, 0)
    ensures 1 <= |line| ==> TalliedTo(cf, lat, syms, done, line, 1)
  {
    forall k ensures TalliedAt(cf, lat, k, TallyTo(syms, done, line, 0, k)) {
      assert TalliedAt(cf, lat, k, TraceTally(syms, done, k));
    }
    if 1 <= |line| {
      forall k ensures TalliedAt(cf, lat, k, TallyTo(syms, done, line, 1, k)) {
        assert TalliedAt(cf, lat, k, TraceTally(syms, done, k));
      }
    }
  }

  lemma RecordEnds(cf: map<Key, nat>, lat: map<Key, Tally>, syms: seq<Sym>, done: seq<seq<Branch>>, x: seq<Branch>)
    requires TalliedTo(cf, lat, syms, done, Sample(x), |Sample(x)|)
    ensures Tallied(cf, lat, syms, done + [x])
  {
    forall k ensures TalliedAt(cf, lat, k, TraceTally(syms, done + [x], k)) {
      TraceGrows(syms, done, x, k);
      assert TalliedAt(cf, lat, k, TallyTo(syms, done, Sample(x), |Sample(x)|, k));
    }
  }

  function Bumped(cf: map<Key, nat>, k: Key): map<Key, nat> {
    if k in cf then cf[k := cf[k] + 1] else cf[k := 1]
  }

  function LatBumped(lat: map<Key, Tally>, k: Key, cycles: int): map<Key, Tally> {
    if k in lat then lat[k := Plus(lat[k], Tally(1, cycles))] else lat[k := Tally(1, cycles)]
  }

  /** Counting the block between branch n - 1 and branch n, or none if it cannot be localized. */
  lemma BranchCounts(cf: map<Key, nat>, lat: map<Key, Tally>, syms: seq<Sym>, done: seq<seq<Branch>>, line: seq<Branch>, n: nat)
    requires 1 <= n < |line| && TalliedTo(cf, lat, syms, done, line, n)
    ensures
      var b := BlockAt(syms, line, n);
      if b.None? then TalliedTo(cf, lat, syms, done, line, n + 1)
      else TalliedTo(Bumped(cf, b.value), LatBumped(lat, b.value, line[n].cycles), syms, done, line, n + 1)
  {
    var b, m := BlockAt(syms, line, n), n + 1;
    if b.None? {
      forall k ensures TalliedAt(cf, lat, k, TallyTo(syms, done, line, m, k)) {
        var t := TallyTo(syms, done, line, n, k);
        assert TalliedAt(cf, lat, k, t);
        NextTally(syms, done, line, n, k);
        PlusNothing(t);
      }
    } else {
      var cf', lat' := Bumped(cf, b.value), LatBumped(lat, b.value, line[n].cycles);
      forall k ensures TalliedAt(cf', lat', k, TallyTo(syms, done, line, m, k)) {
        var t := TallyTo(syms, done, line, n, k);
        assert TalliedAt(cf, lat, k, t);
        NextTally(syms, done, line, n, k);
        hide TallyTo, TalliedAt, Bumped, LatBumped;
        if k == b.value {
          BumpOwn(cf, lat, line[n].cycles, k, t);
        } else {
          BumpOther(cf, lat, b.value, line[n].cycles, k, t);
          PlusNothing(t);
        }
      }
    }
  }

  lemma NextTally(syms: seq<Sym>, done: seq<seq<Branch>>, line: seq<Branch>, n: nat, k: Key)
    requires 1 <= n < |line|
    ensures TallyTo(syms, done, line, n + 1, k)
      == Plus(TallyTo(syms, done, line, n, k),
              if BlockAt(syms, line, n) == Some(k) then Tally(1, line[n].cycles) else Tally(0, 0))
  {
    hide TraceTally, BlockAt;
  }

  lemma PlusNothing(t: Tally)
    ensures Plus(t, Tally(0, 0)) == t
  {
  }

  lemma BumpOwn(cf: map<Key, nat>, lat: map<Key, Tally>, cycles: int, k: Key, t: Tally)
    requires TalliedAt(cf, lat, k, t)
    ensures TalliedAt(Bumped(cf, k), LatBumped(lat, k, cycles), k, Plus(t, Tally(1, cycles)))
  {
    var t' := Plus(t, Tally(1, cycles));
    assert t'.cnt != 0;
    if t.cnt == 0 {
      assert t' == Tally(1, cycles);
    } else {
      assert k in cf && k in lat;
    }
  }

  lemma BumpOther(cf: map<Key, nat>, lat: map<Key, Tally>, j: Key, cycles: int, k: Key, t: Tally)
    requires TalliedAt(cf, lat, k, t) && j != k
    ensures TalliedAt(Bumped(cf, j), LatBumped(lat, j, cycles), k, t)
  {
  }

  // ----- What a worker computes, cache included ------------------------------------------------------

  /** The globals of a worker: the cache and its two dictionaries. */
  datatype Memo = Memo(cache: Option<Sym>, cf: map<Key, nat>, lat: map<Key, Tally>)

  /** A process starts a part of the trace with new dictionaries, but with the cache it has. */
  function Fresh(cache: Option<Sym>): Memo {
    Memo(cache, map[], map[])
  }

  /** One call of __localize_address and the counting of its result. */
  function BranchStep(syms: seq<Sym>, st: Memo, dst: int, src: int, cycles: int): Memo {
    var cache1 := CacheAfter(syms, st.cache, dst);
    var cache2 := CacheAfter(syms, cache1, src);
    var b := Localize(Lookup(syms, st.cache, dst), Lookup(syms, cache1, src));
    if b.None? then st.(cache := cache2)
    else Memo(cache2, Bumped(st.cf, b.value), LatBumped(st.lat, b.value, cycles))
  }

  /** create_control_flow_tuples up to branch n. */
  function LineRun(syms: seq<Sym>, st: Memo, line: seq<Branch>, n: nat): Memo
    requires n <= |line|
  {
    if n <= 1 then st
    else BranchStep(syms, LineRun(syms, st, line, n - 1), line[n - 1].dst, line[n - 2].src, line[n - 1].cycles)
  }

  /** The cache after the lookups of create_predecessor_profile, first n branches. */
  function PredCache(syms: seq<Sym>, cache: Option<Sym>, line: seq<Branch>, n: nat): Option<Sym>
    requires n <= |line|
  {
    if n == 0 then cache
    else CacheAfter(syms, CacheAfter(syms, PredCache(syms, cache, line, n - 1), line[n - 1].src), line[n - 1].dst)
  }

  /** What a cache holds after looking up these addresses one after the other. */
  function CacheTrail(syms: seq<Sym>, cache: Option<Sym>, addrs: seq<int>): Option<Sym> {
    if addrs == [] then cache
    else CacheAfter(syms, CacheTrail(syms, cache, addrs[..|addrs| - 1]), addrs[|addrs| - 1])
  }

  /** The predecessor profile looks up the source and then the target of each branch in order. */
  lemma {:induction false} PredecessorTrail(syms: seq<Sym>, cache: Option<Sym>, line: seq<Branch>, addrs: seq<int>)
    requires |addrs| == 2 * |line|
    requires forall i :: 0 <= i < |line| ==> addrs[2 * i] == line[i].src && addrs[2 * i + 1] == line[i].dst
    ensures PredCache(syms, cache, line, |line|) == CacheTrail(syms, cache, addrs)
  {
    if line != [] {
      var n := |line|;
      PredecessorTrail(syms, cache, line[..n - 1], addrs[..2 * n - 2]);
      PredOfPrefix(syms, cache, line, n - 1, n - 1);
      assert addrs[..2 * n - 1][..2 * n - 2] == addrs[..2 * n - 2];
      assert addrs[2 * (n - 1)] == line[n - 1].src && addrs[2 * (n - 1) + 1] == line[n - 1].dst;
      hide CacheAfter;
      assert CacheTrail(syms, cache, addrs[..2 * n - 1])
        == CacheAfter(syms, CacheTrail(syms, cache, addrs[..2 * n - 2]), line[n - 1].src);
    }
  }

  lemma {:induction false} PredOfPrefix(syms: seq<Sym>, cache: Option<Sym>, line: seq<Branch>, m: nat, n: nat)
    requires n <= m <= |line|
    ensures PredCache(syms, cache, line[..m], n) == PredCache(syms, cache, line, n)
  {
    if n > 0 {
      PredOfPrefix(syms, cache, line, m, n - 1);
    }
  }

  /** One record of a worker; a scavenger profile looks up every branch once more. */
  function RecordRun(syms: seq<Sym>, scav: bool, st: Memo, line: seq<Branch>): Memo {
    var x := Sample(line);
    var r := LineRun(syms, st, x, |x|);
    if scav then r.(cache := PredCache(syms, r.cache, x, |x|)) else r
  }

  /** sub_process_lbr by a process with the given cache. */
  function TraceRun(syms: seq<Sym>, scav: bool, cache: Option<Sym>, lines: seq<seq<Branch>>): Memo {
    if lines == [] then Fresh(cache)
    else RecordRun(syms, scav, TraceRun(syms, scav, cache, lines[..|lines| - 1]), lines[|lines| - 1])
  }

  lemma NoTrace(syms: seq<Sym>, scav: bool, cache: Option<Sym>)
    ensures TraceRun(syms, scav, cache, []) == Fresh(cache)
  {
  }

  lemma ShortRecord(syms: seq<Sym>, scav: bool, st: Memo, x: seq<Branch>)
    requires |x| < 2
    ensures RecordRun(syms, scav, st, x) == st
  {
  }

  lemma TraceRunGrows(syms: seq<Sym>, scav: bool, cache: Option<Sym>, done: seq<seq<Branch>>, x: seq<Branch>)
    ensures TraceRun(syms, scav, cache, done + [x]) == RecordRun(syms, scav, TraceRun(syms, scav, cache, done), x)
  {
    assert (done + [x])[..|done + [x]| - 1] == done;
  }

  lemma {:induction false} PredCacheOK(syms: seq<Sym>, cache: Option<Sym>, line: seq<Branch>, n: nat)
    requires n <= |line| && CacheOK(syms, cache)
    ensures CacheOK(syms, PredCache(syms, cache, line, n))
  {
    hide CacheOK, CacheAfter;
    if n > 0 {
      PredCacheOK(syms, cache, line, n - 1);
      var c := PredCache(syms, cache, line, n - 1);
      LookupKeepsCacheOK(syms, c, line[n - 1].src);
      LookupKeepsCacheOK(syms, CacheAfter(syms, c, line[n - 1].src), line[n - 1].dst);
    }
  }

  /** On layered ranges a worker's dictionaries hold the tallies of one pass without a cache. */
  lemma {:induction false} LineRunTallies(syms: seq<Sym>, st: Memo, done: seq<seq<Branch>>, line: seq<Branch>, n: nat)
    requires Layered(syms) && n <= |line| && CacheOK(syms, st.cache) && Tallied(st.cf, st.lat, syms, done)
    ensures
      var r := LineRun(syms, st, line, n);
      CacheOK(syms, r.cache) && TalliedTo(r.cf, r.lat, syms, done, line, n)
  {
    if n <= 1 {
      RecordStarts(st.cf, st.lat, syms, done, line);
    } else {
      LineRunTallies(syms, st, done, line, n - 1);
      var r := LineRun(syms, st, line, n - 1);
      var dst, src := line[n - 1].dst, line[n - 2].src;
      var cache1 := CacheAfter(syms, r.cache, dst);
      hide Layered, CacheOK, TalliedTo, Tallied, Lookup, Scan, CacheAfter;
      LayeredHit(syms, r.cache, dst);
      LookupKeepsCacheOK(syms, r.cache, dst);
      LayeredHit(syms, cache1, src);
      LookupKeepsCacheOK(syms, cache1, src);
      BranchCounts(r.cf, r.lat, syms, done, line, n - 1);
    }
  }

  lemma {:induction false} TraceRunTallies(syms: seq<Sym>, scav: bool, cache: Option<Sym>, lines: seq<seq<Branch>>)
    requires Layered(syms) && CacheOK(syms, cache)
    ensures
      var r := TraceRun(syms, scav, cache, lines);
      CacheOK(syms, r.cache) && Tallied(r.cf, r.lat, syms, lines)
    decreases |lines|
  {
    if lines != [] {
      hide CacheOK, PredCache, LineRun, Layered;
      var done, line := lines[..|lines| - 1], lines[|lines| - 1];
      var x, st := Sample(line), TraceRun(syms, scav, cache, done);
      TraceRunTallies(syms, scav, cache, done);
      LineRunTallies(syms, st, done, x, |x|);
      var r := LineRun(syms, st, x, |x|);
      RecordEnds(r.cf, r.lat, syms, done, line);
      PredCacheOK(syms, r.cache, x, |x|);
      assert done + [line] == lines;
    }
  }

  /**
    Every worker counts every trace as one pass without a cache would, whatever its cache holds
    from before, with or without the extra lookups of a scavenger profile.
   */
  ghost predicate CountsAgree(syms: seq<Sym>) {
    forall scav, cache, lines, k :: CacheOK(syms, cache) ==>
      var r := TraceRun(syms, scav, cache, lines);
      TalliedAt(r.cf, r.lat, k, TraceTally(syms, lines, k))
  }

  /** The counts are right for every trace exactly if the symbol ranges are layered. */
  lemma CountsAgreeIff(syms: seq<Sym>)
    requires DistinctNames(syms)
    ensures CountsAgree(syms) <==> Layered(syms)
  {
    hide Tallied, TalliedAt;
    if Layered(syms) {
      forall scav, cache, lines, k | CacheOK(syms, cache)
        ensures TalliedAt(TraceRun(syms, scav, cache, lines).cf, TraceRun(syms, scav, cache, lines).lat, k,
                          TraceTally(syms, lines, k))
      {
        TraceRunTallies(syms, scav, cache, lines);
        TalliedKey(TraceRun(syms, scav, cache, lines), syms, lines, k);
      }
    } else {
      var j :| 0 <= j < |syms| && !Apart(syms, j) && !Hidden(syms, j);
      var a :| Covers(syms[j], a) && !CoveredBefore(syms, j, a);
      var b :| Covers(syms[j], b) && CoveredBefore(syms, j, b);
      var k := MiscountedTrace(syms, j, a, b);
      assert CacheOK(syms, None);
    }
  }

  lemma TalliedKey(r: Memo, syms: seq<Sym>, lines: seq<seq<Branch>>, k: Key)
    requires Tallied(r.cf, r.lat, syms, lines)
    ensures TalliedAt(r.cf, r.lat, k, TraceTally(syms, lines, k))
  {
  }

  /** A record that runs through a and then b, where a is in symbol j only and b in an earlier one too. */
  function Through(a: int, b: int): seq<Branch> {
    [Branch(a, 0, 0), Branch(b, a, 0), Branch(0, b, 0)]
  }

  lemma MiscountedTrace(syms: seq<Sym>, j: nat, a: int, b: int) returns (k: Key)
    requires DistinctNames(syms) && j < |syms| && Covers(syms[j], a) && !CoveredBefore(syms, j, a)
    requires Covers(syms[j], b) && CoveredBefore(syms, j, b)
    ensures
      var r := TraceRun(syms, false, None, [Through(a, b)]);
      !TalliedAt(r.cf, r.lat, k, TraceTally(syms, [Through(a, b)], k))
  {
    var line := Through(a, b);
    k := RightBlock(syms, j, a, b);
    CachedBlocks(syms, line, j, a, b, k);
    hide Lookup, Scan, First, BlockAt, Covers, CoveredBefore, BranchStep, LineRun;
    LastBlockCounts(syms, line, k);
    OneRecord(syms, line, k);
  }

  /** The block that the scan finds for b is that of an earlier symbol. */
  lemma RightBlock(syms: seq<Sym>, j: nat, a: int, b: int) returns (k: Key)
    requires DistinctNames(syms) && j < |syms| && Covers(syms[j], a) && !CoveredBefore(syms, j, a)
    requires Covers(syms[j], b) && CoveredBefore(syms, j, b)
    ensures First(syms, a) == j && BlockAt(syms, Through(a, b), 2) == Some(k) && k.name != syms[j].name
  {
    var i0 :| 0 <= i0 < j && Covers(syms[i0], b);
    var i := First(syms, b);
    k := Key(syms[i].name, b - syms[i].obj, b - syms[i].obj);
  }

  lemma LastBlockCounts(syms: seq<Sym>, line: seq<Branch>, k: Key)
    requires |line| == 3 && BlockAt(syms, line, 2) == Some(k)
    ensures LineTally(syms, line, 3, k).cnt >= 1
  {
    hide BlockAt;
    assert LineTally(syms, line, 3, k) == Plus(LineTally(syms, line, 2, k), Tally(1, line[2].cycles));
  }

  lemma OneRecord(syms: seq<Sym>, line: seq<Branch>, k: Key)
    requires 2 <= |line| <= LBR_SUBSAMPLE_SIZE
    ensures TraceRun(syms, false, None, [line]) == LineRun(syms, Fresh(None), line, |line|)
    ensures TraceTally(syms, [line], k).cnt == LineTally(syms, line, |line|, k).cnt
  {
    hide LineRun, LineTally;
    assert [] + [line] == [line];
    TraceRunGrows(syms, false, None, [], line);
    TraceGrows(syms, [], line, k);
  }

  /** The cached symbol j answers for b too: the block is counted for j and not for k. */
  lemma CachedBlocks(syms: seq<Sym>, line: seq<Branch>, j: nat, a: int, b: int, k: Key)
    requires j < |syms| && First(syms, a) == j && Covers(syms[j], a) && Covers(syms[j], b)
    requires line == Through(a, b) && k.name != syms[j].name
    ensures k !in LineRun(syms, Fresh(None), line, 3).cf
  {
    var st := LineRun(syms, Fresh(None), line, 2);
    assert LineRun(syms, Fresh(None), line, 1) == Fresh(None);
    assert st == BranchStep(syms, Fresh(None), a, a, 0);
    assert st.cache == Some(syms[j]) && k !in st.cf;
    assert LineRun(syms, Fresh(None), line, 3) == BranchStep(syms, st, b, b, 0);
  }

  // ----- The strided split -------------------------------------------------------------------------

  /** lines[i::n]. */
  function Strided<T>(lines: seq<T>, i: nat, n: nat): seq<T>
    requires 0 < n
    decreases |lines| - i
  {
    if i >= |lines| then [] else [lines[i]] + Strided(lines, i + n, n)
  }

  /** One more line goes to the worker whose residue it has. */
  lemma {:induction false} StridedGrows<T>(lines: seq<T>, x: T, i: nat, n: nat)
    requires 0 < n
    ensures Strided(lines + [x], i, n)
      == Strided(lines, i, n) + if i <= |lines| && (|lines| - i) % n == 0 then [x] else []
    decreases |lines| - i
  {
    var l := lines + [x];
    if i < |lines| {
      StridedGrows(lines, x, i + n, n);
      ModuloStep(|lines| - i, n);
      assert l[i] == lines[i];
      if i + n > |lines| {
        assert 0 < |lines| - i < n;
        SmallModulo(|lines| - i, n);
      }
    } else if i == |lines| {
      assert Strided(l, i, n) == [x] + Strided(l, i + n, n);
      SmallModulo(0, n);
    }
  }

  /** The j-th record of part i is the record i + j * n of the trace, as long as there is one. */
  lemma {:induction false} StridedAt<T>(lines: seq<T>, i: nat, n: nat, j: nat)
    requires 0 < n
    ensures j < |Strided(lines, i, n)| <==> i + j * n < |lines|
    ensures j < |Strided(lines, i, n)| && 0 <= i + j * n < |lines| ==> Strided(lines, i, n)[j] == lines[i + j * n]
    decreases j
  {
    if j == 0 {
      assert 0 * n == 0;
    } else {
      assert i + j * n == (i + n) + (j - 1) * n && 0 <= (j - 1) * n;
      if i < |lines| {
        StridedAt(lines, i + n, n, j - 1);
      }
    }
  }

  lemma ModuloStep(x: int, n: int)
    requires 0 < n
    ensures x % n == (x - n) % n
  {
    var q, r := x / n, x % n;
    assert x - n == (q - 1) * n + r;
    RemainderIs(x - n, q - 1, r, n);
  }

  lemma SmallModulo(x: int, n: int)
    requires 0 <= x < n
    ensures x % n == x
  {
    RemainderIs(x, 0, x, n);
  }

  /** The tallies of the first w workers, added up. */
  function WorkersTally(syms: seq<Sym>, lines: seq<seq<Branch>>, n: nat, w: nat, k: Key): Tally
    requires 0 < n
  {
    if w == 0 then Tally(0, 0)
    else Plus(WorkersTally(syms, lines, n, w - 1, k), TraceTally(syms, Strided(lines, w - 1, n), k))
  }

  /** A line counts for exactly one worker. */
  lemma {:induction false} WorkersGrow(syms: seq<Sym>, lines: seq<seq<Branch>>, x: seq<Branch>, n: nat, w: nat, k: Key)
    requires 0 < n && w <= n
    ensures WorkersTally(syms, lines + [x], n, w, k)
      == Plus(WorkersTally(syms, lines, n, w, k),
              if |lines| % n < w then RecordTally(syms, x, k) else Tally(0, 0))
  {
    hide RecordTally, TraceTally, Strided;
    if w > 0 {
      WorkersGrow(syms, lines, x, n, w - 1, k);
      StridedGrows(lines, x, w - 1, n);
      Residue(|lines|, w - 1, n);
      var s := Strided(lines, w - 1, n);
      TraceGrows(syms, s, x, k);
      assert s + [] == s;
      OneMoreBelow(|lines| % n, w);
    }
  }

  lemma OneMoreBelow(r: int, w: nat)
    requires 0 < w
    ensures r < w <==> r < w - 1 || r == w - 1
  {
  }

  lemma Residue(m: nat, i: nat, n: nat)
    requires i < n
    ensures (i <= m && (m - i) % n == 0) <==> m % n == i
  {
    var q, r := m / n, m % n;
    assert m == q * n + r;
    if i <= r {
      RemainderIs(m - i, q, r - i, n);
      assert i <= m by {
        NonNegative(q, n);
      }
    } else if i <= m {
      assert m - i == (q - 1) * n + (r - i + n);
      RemainderIs(m - i, q - 1, r - i + n, n);
    }
  }

  lemma NonNegative(a: int, b: int)
    requires 0 <= a && 0 <= b
    ensures 0 <= a * b
  {
  }

  /** The split loses nothing: for every number of workers, their tallies add up to one pass. */
  lemma {:induction false} SplitConserves(syms: seq<Sym>, lines: seq<seq<Branch>>, n: nat, k: Key)
    requires 0 < n
    ensures WorkersTally(syms, lines, n, n, k) == TraceTally(syms, lines, k)
    decreases |lines|
  {
    if lines == [] {
      NoLines(syms, n, n, k);
    } else {
      hide WorkersTally, RecordTally, TraceTally, Plus;
      SplitConserves(syms, lines[..|lines| - 1], n, k);
      LastLineCounts(syms, lines, n, k);
    }
  }

  lemma LastLineCounts(syms: seq<Sym>, lines: seq<seq<Branch>>, n: nat, k: Key)
    requires 0 < n && lines != []
    ensures
      var done, x := lines[..|lines| - 1], lines[|lines| - 1];
      && WorkersTally(syms, lines, n, n, k) == Plus(WorkersTally(syms, done, n, n, k), RecordTally(syms, x, k))
      && TraceTally(syms, lines, k) == Plus(TraceTally(syms, done, k), RecordTally(syms, x, k))
  {
    hide WorkersTally, RecordTally, TraceTally, Plus;
    var done, x := lines[..|lines| - 1], lines[|lines| - 1];
    assert lines == done + [x];
    EveryLineCounts(syms, done, x, n, k);
    TraceGrows(syms, done, x, k);
  }

  lemma EveryLineCounts(syms: seq<Sym>, done: seq<seq<Branch>>, x: seq<Branch>, n: nat, k: Key)
    requires 0 < n
    ensures WorkersTally(syms, done + [x], n, n, k) == Plus(WorkersTally(syms, done, n, n, k), RecordTally(syms, x, k))
  {
    hide WorkersTally, RecordTally, Plus;
    WorkersGrow(syms, done, x, n, n, k);
  }

  lemma {:induction false} NoLines(syms: seq<Sym>, n: nat, w: nat, k: Key)
    requires 0 < n
    ensures WorkersTally(syms, [], n, w, k) == Tally(0, 0)
  {
    if w > 0 {
      NoLines(syms, n, w - 1, k);
    }
  }

  /** Every entry of a latency dictionary stands for at least one execution. */
  predicate Counted(lat: map<Key, Tally>) {
    forall k :: k in lat ==> lat[k].cnt >= 1
  }

  // ----- One worker ------------------------------------------------------------------------------

  /** The globals of one worker process: the cache and its two dictionaries. */
  class Worker {
    const syms: seq<Sym>
    const scav: bool
    var lastMatch: Option<Sym>
    var cf: map<Key, nat>
    var lat: map<Key, Tally>

    constructor (syms: seq<Sym>, scav: bool)
      ensures this.syms == syms && this.scav == scav && lastMatch == None && cf == map[] && lat == map[]
    {
      this.syms := syms;
      this.scav := scav;
      lastMatch := None;
      cf := map[];
      lat := map[];
    }

    /** __symbol_map_lookup. */
    method SymbolMapLookup(addr: int) returns (r: Option<Hit>)
      requires CacheOK(syms, lastMatch)
      modifies this`lastMatch
      ensures r == Lookup(syms, old(lastMatch), addr)
      ensures lastMatch == CacheAfter(syms, old(lastMatch), addr) && CacheOK(syms, lastMatch)
      ensures Layered(syms) ==> r == Scan(syms, addr)
      ensures Answers(syms, old(lastMatch), addr, r, lastMatch)
    {
      hide Answers;
      LookupFinds(syms, lastMatch, addr);
      LookupKeepsCacheOK(syms, lastMatch, addr);
      if Layered(syms) {
        LayeredHit(syms, lastMatch, addr);
      }
      if lastMatch.Some? {
        if lastMatch.value.lo <= addr <= lastMatch.value.hi {
          return Some(Hit(lastMatch.value.name, addr - lastMatch.value.obj));
        }
      }
      for i := 0 to |syms|
        invariant lastMatch == old(lastMatch) && FirstFrom(syms, addr, 0) == FirstFrom(syms, addr, i)
      {
        if syms[i].lo <= addr <= syms[i].hi {
          lastMatch := Some(syms[i]);
          return Some(Hit(syms[i].name, addr - syms[i].obj));
        }
      }
      r := None;
    }

    /** __localize_address. */
    method LocalizeAddress(first: int, second: int) returns (r: Option<Key>)
      requires CacheOK(syms, lastMatch)
      modifies this`lastMatch
      ensures
        var cache1 := CacheAfter(syms, old(lastMatch), first);
        && lastMatch == CacheAfter(syms, cache1, second) && CacheOK(syms, lastMatch)
        && r == Localize(Lookup(syms, old(lastMatch), first), Lookup(syms, cache1, second))
      ensures Layered(syms) ==> r == Localize(Scan(syms, first), Scan(syms, second))
      ensures Delimits(syms, old(lastMatch), first, second, r)
    {
      hide Delimits, Answers, CacheOK;
      LocalizeFinds(syms, lastMatch, first, second);
      var a := SymbolMapLookup(first);
      var b := SymbolMapLookup(second);
      if a.None? || b.None? {
        return None;
      }
      if a.value.name != b.value.name {
        return None;
      }
      r := Some(Key(a.value.name, a.value.off, b.value.off));
    }

    /** Count one execution of a block. The source relies on both dictionaries having the same keys. */
    method Record(k: Key, cycles: int)
      requires cf.Keys == lat.Keys && Counted(lat)
      modifies this`cf, this`lat
      ensures cf == Bumped(old(cf), k) && lat == LatBumped(old(lat), k, cycles)
      ensures cf.Keys == old(cf.Keys) + {k} && lat.Keys == old(lat.Keys) + {k}
      ensures forall j :: j in cf && j != k ==> cf[j] == old(cf)[j]
      ensures forall j :: j in lat && j != k ==> lat[j] == old(lat)[j]
      ensures if k in old(cf) then cf[k] == old(cf)[k] + 1 else cf[k] == 1
      ensures if k in old(lat) then lat[k].cnt == old(lat)[k].cnt + 1 && lat[k].cycles == old(lat)[k].cycles + cycles
              else lat[k].cnt == 1 && lat[k].cycles == cycles
      ensures cf.Keys == lat.Keys && Counted(lat)
    {
      if k in cf {
        cf := cf[k := cf[k] + 1];
        lat := lat[k := Tally(lat[k].cnt + 1, lat[k].cycles + cycles)];
      } else {
        cf := cf[k := 1];
        lat := lat[k := Tally(1, cycles)];
      }
    }

    ghost predicate Valid()
      reads this
    {
      CacheOK(syms, lastMatch) && cf.Keys == lat.Keys && Counted(lat)
    }

    ghost function State(): Memo
      reads this
    {
      Memo(lastMatch, cf, lat)
    }

    /** create_control_flow_tuples on the sample of one record. */
    method CreateControlFlowTuples(branches: seq<Branch>)
      requires Valid()
      modifies this
      ensures Valid() && State() == LineRun(syms, old(State()), branches, |branches|)
    {
      var src := 0;
      for i := 0 to |branches|
        invariant Valid()
        invariant i > 0 ==> src == branches[i - 1].src
        invariant State() == LineRun(syms, old(State()), branches, i)
      {
        if i == 0 {
          src := branches[0].src;
        } else {
          var key := LocalizeAddress(branches[i].dst, src);
          if key.Some? {
            Record(key.value, branches[i].cycles);
          }
          src := branches[i].src;
        }
      }
    }

    /** The lookups of create_predecessor_profile. */
    method LookUpPredecessors(branches: seq<Branch>)
      requires Valid()
      modifies this`lastMatch
      ensures Valid() && lastMatch == PredCache(syms, old(lastMatch), branches, |branches|)
    {
      for i := 0 to |branches|
        invariant Valid() && lastMatch == PredCache(syms, old(lastMatch), branches, i)
      {
        var key := LocalizeAddress(branches[i].src, branches[i].dst);
      }
    }

    /** sub_process_lbr on parsed records: new dictionaries, but the cache of the process. */
    method SubProcessLbr(lines: seq<seq<Branch>>)
      requires Valid()
      modifies this
      ensures Valid() && State() == TraceRun(syms, scav, old(lastMatch), lines)
      ensures Layered(syms) ==> Tallied(cf, lat, syms, lines)
    {
      hide TraceRun, LineRun, RecordRun, PredCache, Tallied, Layered, CacheOK;
      ghost var cache := lastMatch;
      cf, lat := map[], map[];
      NoTrace(syms, scav, cache);
      for i := 0 to |lines|
        invariant Valid() && State() == TraceRun(syms, scav, cache, lines[..i])
      {
        TraceRunGrows(syms, scav, cache, lines[..i], lines[i]);
        assert lines[..i] + [lines[i]] == lines[..i + 1];
        if |lines[i]| >= 2 {
          CountRecord(lines[i]);
        } else {
          ShortRecord(syms, scav, State(), lines[i]);
        }
      }
      assert lines[..|lines|] == lines;
      if Layered(syms) {
        TraceRunTallies(syms, scav, cache, lines);
      }
    }

    /** The body of the loop of sub_process_lbr. */
    method CountRecord(line: seq<Branch>)
      requires Valid() && |line| >= 2
      modifies this
      ensures Valid() && State() == RecordRun(syms, scav, old(State()), line)
    {
      hide LineRun, PredCache, CacheOK;
      var sample := if |line| <= LBR_SUBSAMPLE_SIZE then line else line[..LBR_SUBSAMPLE_SIZE];
      CreateControlFlowTuples(sample);
      if scav {
        LookUpPredecessors(sample);
      }
    }
  }

  // ----- Aggregation -----------------------------------------------------------------------------

  function CountIn(m: map<Key, nat>, k: Key): nat {
    if k in m then m[k] else 0
  }

  /** The loop of aggregate_sub_dicts over one worker's cf dictionary. */
  method MergeCounts(into: map<Key, nat>, sub: map<Key, nat>) returns (m: map<Key, nat>)
    ensures m.Keys == into.Keys + sub.Keys
    ensures forall k :: k in m ==> m[k] == CountIn(into, k) + CountIn(sub, k)
  {
    m := into;
    var keys := sub.Keys;
    while keys != {}
      invariant keys <= sub.Keys && m.Keys == into.Keys + (sub.Keys - keys)
      invariant forall k :: k in m ==> m[k] == CountIn(into, k) + if k in keys then 0 else CountIn(sub, k)
      decreases keys
    {
      var k :| k in keys;
      m := if k in m then m[k := m[k] + sub[k]] else m[k := sub[k]];
      keys := keys - {k};
    }
  }

  /** The loop of aggregate_sub_dicts over one worker's latency dictionary. */
  method MergeLatencies(into: map<Key, Tally>, sub: map<Key, Tally>) returns (m: map<Key, Tally>)
    ensures m.Keys == into.Keys + sub.Keys
    ensures forall k :: k in m ==>
      m[k] == if k !in sub then into[k] else if k !in into then sub[k]
              else Tally(into[k].cnt + sub[k].cnt, into[k].cycles + sub[k].cycles)
  {
    m := into;
    var keys := sub.Keys;
    while keys != {}
      invariant keys <= sub.Keys && m.Keys == into.Keys + (sub.Keys - keys)
      invariant forall k :: k in m ==>
        m[k] == if k !in sub || k in keys then into[k] else if k !in into then sub[k]
                else Plus(into[k], sub[k])
      decreases keys
    {
      var k :| k in keys;
      m := if k in m then m[k := Tally(m[k].cnt + sub[k].cnt, m[k].cycles + sub[k].cycles)] else m[k := sub[k]];
      keys := keys - {k};
    }
  }

  /** Merged dictionaries hold the sum of the tallies. */
  lemma {:induction false} MergeAdds(cf: map<Key, nat>, lat: map<Key, Tally>, cf1: map<Key, nat>, lat1: map<Key, Tally>,
                  cf2: map<Key, nat>, lat2: map<Key, Tally>, k: Key, t1: Tally, t2: Tally)
    requires k in cf <==> k in cf1 || k in cf2
    requires k in lat <==> k in lat1 || k in lat2
    requires k in cf ==> cf[k] == CountIn(cf1, k) + CountIn(cf2, k)
    requires k in lat ==>
      lat[k] == if k !in lat2 then lat1[k] else if k !in lat1 then lat2[k]
                else Plus(lat1[k], lat2[k])
    requires TalliedAt(cf1, lat1, k, t1) && TalliedAt(cf2, lat2, k, t2)
    ensures TalliedAt(cf, lat, k, Plus(t1, t2))
  {
  }

  ghost predicate WorkersTallied(cf: map<Key, nat>, lat: map<Key, Tally>,
                                 syms: seq<Sym>, lines: seq<seq<Branch>>, n: nat, w: nat)
    requires 0 < n
  {
    forall k :: TalliedAt(cf, lat, k, WorkersTally(syms, lines, n, w, k))
  }

  lemma WorkerAdds(cf: map<Key, nat>, lat: map<Key, Tally>, cf1: map<Key, nat>, lat1: map<Key, Tally>,
                   cf2: map<Key, nat>, lat2: map<Key, Tally>, syms: seq<Sym>, lines: seq<seq<Branch>>, n: nat, w: nat)
    requires 0 < n && WorkersTallied(cf1, lat1, syms, lines, n, w) && Tallied(cf2, lat2, syms, Strided(lines, w, n))
    requires cf.Keys == cf1.Keys + cf2.Keys && lat.Keys == lat1.Keys + lat2.Keys
    requires forall k :: k in cf ==> cf[k] == CountIn(cf1, k) + CountIn(cf2, k)
    requires forall k :: k in lat ==>
      lat[k] == if k !in lat2 then lat1[k] else if k !in lat1 then lat2[k] else Plus(lat1[k], lat2[k])
    ensures WorkersTallied(cf, lat, syms, lines, n, w + 1)
  {
    hide TalliedAt, TraceTally, Strided;
    var v := w + 1;
    forall k ensures TalliedAt(cf, lat, k, WorkersTally(syms, lines, n, v, k)) {
      assert TalliedAt(cf1, lat1, k, WorkersTally(syms, lines, n, w, k));
      assert TalliedAt(cf2, lat2, k, TraceTally(syms, Strided(lines, w, n), k));
      assert k in cf <==> k in cf.Keys;
      MergeAdds(cf, lat, cf1, lat1, cf2, lat2, k,
                WorkersTally(syms, lines, n, w, k), TraceTally(syms, Strided(lines, w, n), k));
    }
  }

  lemma AllWorkersTally(cf: map<Key, nat>, lat: map<Key, Tally>, syms: seq<Sym>, lines: seq<seq<Branch>>, n: nat)
    requires 0 < n && WorkersTallied(cf, lat, syms, lines, n, n)
    ensures Tallied(cf, lat, syms, lines)
  {
    hide TalliedAt, TraceTally, WorkersTally;
    forall k ensures TalliedAt(cf, lat, k, TraceTally(syms, lines, k)) {
      SplitConserves(syms, lines, n, k);
      assert TalliedAt(cf, lat, k, WorkersTally(syms, lines, n, n, k));
    }
  }

  // ----- The pool of processes -------------------------------------------------------------------

  /** The parts of a trace and who handles them: part w goes to process proc[w], in order of w. */
  datatype Job = Job(syms: seq<Sym>, scav: bool, lines: seq<seq<Branch>>, proc: seq<nat>)

  /** The cache of process p after the first w parts have been handled. */
  function ProcCache(job: Job, w: nat, p: nat): Option<Sym>
    requires w <= |job.proc|
    decreases w, 0
  {
    if w == 0 then None
    else if job.proc[w - 1] != p then ProcCache(job, w - 1, p)
    else PartRun(job, w - 1).cache
  }

  /** What the process that handles part w computes. */
  function PartRun(job: Job, w: nat): Memo
    requires w < |job.proc|
    decreases w, 1
  {
    TraceRun(job.syms, job.scav, ProcCache(job, w, job.proc[w]), Strided(job.lines, w, |job.proc|))
  }

  /** How often block k was counted in the first w parts. */
  function PartsCount(job: Job, w: nat, k: Key): nat
    requires w <= |job.proc|
  {
    if w == 0 then 0 else PartsCount(job, w - 1, k) + CountIn(PartRun(job, w - 1).cf, k)
  }

  /** The records that process p has seen after the first w parts, in order. */
  function Handled(job: Job, w: nat, p: nat): seq<seq<Branch>>
    requires w <= |job.proc|
  {
    if w == 0 then []
    else
      Handled(job, w - 1, p) + if job.proc[w - 1] == p then Strided(job.lines, w - 1, |job.proc|) else []
  }

  /** What a record leaves in the cache depends on nothing but the cache. */
  lemma {:induction false} LineCacheOnly(syms: seq<Sym>, st: Memo, st': Memo, line: seq<Branch>, n: nat)
    requires n <= |line| && st'.cache == st.cache
    ensures LineRun(syms, st', line, n).cache == LineRun(syms, st, line, n).cache
  {
    if n > 1 {
      LineCacheOnly(syms, st, st', line, n - 1);
    }
  }

  lemma {:induction false} CacheGoesOn(syms: seq<Sym>, scav: bool, cache: Option<Sym>, a: seq<seq<Branch>>, b: seq<seq<Branch>>)
    ensures TraceRun(syms, scav, cache, a + b).cache
      == TraceRun(syms, scav, TraceRun(syms, scav, cache, a).cache, b).cache
    decreases |b|
  {
    if b == [] {
      assert a + b == a;
    } else {
      var c, x := b[..|b| - 1], b[|b| - 1];
      assert (a + c) + [x] == a + b && c + [x] == b;
      CacheGoesOn(syms, scav, cache, a, c);
      var mid := TraceRun(syms, scav, cache, a).cache;
      TraceRunGrows(syms, scav, cache, a + c, x);
      TraceRunGrows(syms, scav, mid, c, x);
      LineCacheOnly(syms, TraceRun(syms, scav, cache, a + c), TraceRun(syms, scav, mid, c), Sample(x), |Sample(x)|);
    }
  }

  /** A process' cache is the one that a single pass over all the records it has seen would leave. */
  lemma {:induction false} ProcCacheIsOnePass(job: Job, w: nat, p: nat)
    requires w <= |job.proc|
    ensures ProcCache(job, w, p) == TraceRun(job.syms, job.scav, None, Handled(job, w, p)).cache
  {
    if w > 0 {
      ProcCacheIsOnePass(job, w - 1, p);
      hide TraceRun, Strided;
      PartIs(job, w - 1, p);
      if job.proc[w - 1] == p {
        CacheGoesOn(job.syms, job.scav, None, Handled(job, w - 1, p), Strided(job.lines, w - 1, |job.proc|));
      } else {
        assert Handled(job, w - 1, p) + [] == Handled(job, w - 1, p);
      }
    }
  }

  function CyclesIn(m: map<Key, Tally>, k: Key): int {
    if k in m then m[k].cycles else 0
  }

  function RunsIn(m: map<Key, Tally>, k: Key): nat {
    if k in m then m[k].cnt else 0
  }

  /** The cycles spent in block k, and its executions, in the latency dictionaries of the first w parts. */
  function PartsCycles(job: Job, w: nat, k: Key): int
    requires w <= |job.proc|
  {
    if w == 0 then 0 else PartsCycles(job, w - 1, k) + CyclesIn(PartRun(job, w - 1).lat, k)
  }

  function PartsRuns(job: Job, w: nat, k: Key): nat
    requires w <= |job.proc|
  {
    if w == 0 then 0 else PartsRuns(job, w - 1, k) + RunsIn(PartRun(job, w - 1).lat, k)
  }

  lemma PartIs(job: Job, w: nat, p: nat)
    requires w < |job.proc|
    ensures PartRun(job, w)
      == TraceRun(job.syms, job.scav, ProcCache(job, w, job.proc[w]), Strided(job.lines, w, |job.proc|))
    ensures ProcCache(job, w + 1, p) == if job.proc[w] == p then PartRun(job, w).cache else ProcCache(job, w, p)
  {
  }

  /**
    process_lbr: the parts of the trace are handled by a pool of processes, each of which keeps its
    cache from one part to the next, and their dictionaries are added up. Every count is the sum over
    the parts; on layered ranges the totals are those of one sequential pass over the whole trace
    without any cache, for every number of parts and processes.
   */
  method CountTrace(job: Job, procs: nat) returns (cf: map<Key, nat>, lat: map<Key, Tally>)
    requires 0 < |job.proc| && forall w :: 0 <= w < |job.proc| ==> job.proc[w] < procs
    ensures Counted(lat) && cf.Keys == lat.Keys
    ensures forall k :: CountIn(cf, k) == PartsCount(job, |job.proc|, k)
    ensures forall k :: CyclesIn(lat, k) == PartsCycles(job, |job.proc|, k) && RunsIn(lat, k) == PartsRuns(job, |job.proc|, k)
    ensures Layered(job.syms) ==> Tallied(cf, lat, job.syms, job.lines)
  {
    hide Layered, Tallied, TraceTally, Strided, TraceRun, ProcCache, PartRun, CacheOK, WorkersTallied,
      PartsShown, PoolShows, Counted;
    var syms, n := job.syms, |job.proc|;
    var pool := StartPool(job, procs);
    cf, lat := map[], map[];
    NothingTallied(job);
    for w := 0 to n
      invariant PartsShown(cf, lat, job, w)
      invariant |pool| == procs && PoolShows(pool, job, w)
      invariant forall p :: 0 <= p < procs ==> fresh(pool[p])
      invariant Layered(syms) ==> WorkersTallied(cf, lat, syms, job.lines, n, w)
    {
      var cfPart, latPart := HandlePart(pool, job, w);
      ghost var cf1, lat1 := cf, lat;
      cf := MergeCounts(cf, cfPart);
      lat := MergeLatencies(lat, latPart);
      PartAdds(cf, lat, cf1, lat1, cfPart, latPart, job, w);
      if Layered(syms) {
        WorkerAdds(cf, lat, cf1, lat1, cfPart, latPart, syms, job.lines, n, w);
      }
    }
    if Layered(syms) {
      AllWorkersTally(cf, lat, syms, job.lines, n);
    }
    PartsSay(cf, lat, job);
  }

  /** The dictionaries hold the sums over the first w parts. */
  ghost predicate PartsShown(cf: map<Key, nat>, lat: map<Key, Tally>, job: Job, w: nat)
    requires w <= |job.proc|
  {
    && Counted(lat) && cf.Keys == lat.Keys
    && forall k ::
      && CountIn(cf, k) == PartsCount(job, w, k)
      && CyclesIn(lat, k) == PartsCycles(job, w, k) && RunsIn(lat, k) == PartsRuns(job, w, k)
  }

  lemma PartsSay(cf: map<Key, nat>, lat: map<Key, Tally>, job: Job)
    requires PartsShown(cf, lat, job, |job.proc|)
    ensures Counted(lat) && cf.Keys == lat.Keys && forall k :: CountIn(cf, k) == PartsCount(job, |job.proc|, k)
    ensures forall k :: CyclesIn(lat, k) == PartsCycles(job, |job.proc|, k) && RunsIn(lat, k) == PartsRuns(job, |job.proc|, k)
  {
  }

  lemma PartAdds(cf: map<Key, nat>, lat: map<Key, Tally>, cf1: map<Key, nat>, lat1: map<Key, Tally>,
                 cf2: map<Key, nat>, lat2: map<Key, Tally>, job: Job, w: nat)
    requires w < |job.proc| && PartsShown(cf1, lat1, job, w)
    requires cf2 == PartRun(job, w).cf && lat2 == PartRun(job, w).lat && cf2.Keys == lat2.Keys && Counted(lat2)
    requires cf.Keys == cf1.Keys + cf2.Keys && lat.Keys == lat1.Keys + lat2.Keys
    requires forall k :: k in cf ==> cf[k] == CountIn(cf1, k) + CountIn(cf2, k)
    requires forall k :: k in lat ==>
      lat[k] == if k !in lat2 then lat1[k] else if k !in lat1 then lat2[k] else Plus(lat1[k], lat2[k])
    ensures PartsShown(cf, lat, job, w + 1)
  {
    hide PartRun;
    var v := w + 1;
    forall k
      ensures CountIn(cf, k) == PartsCount(job, v, k)
      ensures CyclesIn(lat, k) == PartsCycles(job, v, k) && RunsIn(lat, k) == PartsRuns(job, v, k)
    {
      assert (k in cf <==> k in cf.Keys) && (k in lat <==> k in lat.Keys);
      assert CountIn(cf1, k) == PartsCount(job, w, k) && CyclesIn(lat1, k) == PartsCycles(job, w, k);
    }
    forall k | k in lat ensures lat[k].cnt >= 1 {
      assert k in lat.Keys;
    }
  }

  /** After w parts every process has the cache that its own parts have left. */
  ghost predicate PoolShows(pool: seq<Worker>, job: Job, w: nat)
    requires w <= |job.proc|
    reads pool
  {
    && (forall p :: 0 <= p < |pool| ==>
      && pool[p].syms == job.syms && pool[p].scav == job.scav && pool[p].Valid()
      && pool[p].lastMatch == ProcCache(job, w, p))
    && forall p, q :: 0 <= p < q < |pool| ==> pool[p] != pool[q]
  }

  /** Part w goes to its process; the others do not notice. */
  method HandlePart(pool: seq<Worker>, job: Job, w: nat) returns (cf: map<Key, nat>, lat: map<Key, Tally>)
    requires w < |job.proc| && job.proc[w] < |pool| && PoolShows(pool, job, w)
    modifies pool
    ensures PoolShows(pool, job, w + 1)
    ensures cf == PartRun(job, w).cf && lat == PartRun(job, w).lat && cf.Keys == lat.Keys && Counted(lat)
    ensures Layered(job.syms) ==> Tallied(cf, lat, job.syms, Strided(job.lines, w, |job.proc|))
  {
    hide Layered, Tallied, TraceTally, Strided, TraceRun, ProcCache, PartRun, CacheOK;
    var worker := pool[job.proc[w]];
    assert forall p :: 0 <= p < |pool| && p != job.proc[w] ==> pool[p] != worker;
    PartIs(job, w, job.proc[w]);
    worker.SubProcessLbr(Strided(job.lines, w, |job.proc|));
    cf, lat := worker.cf, worker.lat;
    forall p | 0 <= p < |pool| ensures pool[p].lastMatch == ProcCache(job, w + 1, p) {
      PartIs(job, w, p);
    }
  }

  method StartPool(job: Job, procs: nat) returns (pool: seq<Worker>)
    ensures |pool| == procs && PoolShows(pool, job, 0) && forall p :: 0 <= p < procs ==> fresh(pool[p])
  {
    pool := [];
    for p := 0 to procs
      invariant |pool| == p && PoolShows(pool, job, 0) && forall q :: 0 <= q < p ==> fresh(pool[q])
    {
      var worker := new Worker(job.syms, job.scav);
      pool := pool + [worker];
    }
  }

  lemma NothingTallied(job: Job)
    requires 0 < |job.proc|
    ensures WorkersTallied(map[], map[], job.syms, job.lines, |job.proc|, 0) && PartsShown(map[], map[], job, 0)
  {
  }

  /**
    process_lbr and aggregate_sub_dicts: the execution count of every block, and for a scavenger
    profile its mean latency, total cycles over that count.
   */
  method ProcessLbr(job: Job, procs: nat) returns (cf: map<Key, nat>, lat: map<Key, real>)
    requires 0 < |job.proc| && forall w :: 0 <= w < |job.proc| ==> job.proc[w] < procs
    ensures forall k :: CountIn(cf, k) == PartsCount(job, |job.proc|, k)
    ensures if job.scav then lat.Keys == cf.Keys else lat == map[]
    ensures Layered(job.syms) ==> forall k :: CountIn(cf, k) == TraceTally(job.syms, job.lines, k).cnt
    ensures Layered(job.syms) ==> forall k :: CountIn(cf, k) == |TraceCycles(job.syms, job.lines, k)|
    ensures Layered(job.syms) && job.scav ==> forall k :: k in lat ==>
      && |TraceCycles(job.syms, job.lines, k)| > 0
      && lat[k] == Sum(TraceCycles(job.syms, job.lines, k)) as real / |TraceCycles(job.syms, job.lines, k)| as real
  {
    hide PartsCount, Layered;
    var sums;
    cf, sums := CountTrace(job, procs);
    lat := map[];
    if Layered(job.syms) {
      forall k
        ensures CountIn(cf, k) == TraceTally(job.syms, job.lines, k).cnt == |TraceCycles(job.syms, job.lines, k)|
      {
        assert TalliedAt(cf, sums, k, TraceTally(job.syms, job.lines, k));
        TallyIsSum(job.syms, job.lines, k);
      }
    }
    if job.scav {
      lat := Averages(sums);
      if Layered(job.syms) {
        forall k | k in lat
          ensures |TraceCycles(job.syms, job.lines, k)| > 0
          ensures lat[k]
            == Sum(TraceCycles(job.syms, job.lines, k)) as real / |TraceCycles(job.syms, job.lines, k)| as real
        {
          assert TalliedAt(cf, sums, k, TraceTally(job.syms, job.lines, k));
          TallyIsSum(job.syms, job.lines, k);
        }
      }
    }
  }

  /** The loop of aggregate_sub_dicts that turns sums into means. */
  method Averages(sums: map<Key, Tally>) returns (lat: map<Key, real>)
    requires Counted(sums)
    ensures lat.Keys == sums.Keys
    ensures forall k :: k in sums ==> lat[k] == sums[k].cycles as real / sums[k].cnt as real
  {
    lat := map[];
    var keys := sums.Keys;
    while keys != {}
      invariant keys <= sums.Keys && lat.Keys == sums.Keys - keys
      invariant forall k :: k in lat ==> lat[k] == sums[k].cycles as real / sums[k].cnt as real
      decreases keys
    {
      var k :| k in keys;
      lat := lat[k := sums[k].cycles as real / sums[k].cnt as real];
      keys := keys - {k};
    }
  }
}
