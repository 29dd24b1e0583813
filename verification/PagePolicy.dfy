/**
 Page replacement: the reference loop of paging-policy.py and its victim choices.

 A run is the list of memory contents before each reference (and after the last one).
 The two theorems are Belady's optimality of OPT against every way of managing a cache
 that is no larger, and the inclusion property of LRU.
 */
module PagePolicy {
  import opened Arith
  import opened Collections

  datatype Policy = FIFO | LRU | MRU | OPT | UNOPT | RAND | CLOCK

  // ---------- What the policies look at ----------

  /** The position at or after `i` of the next reference to page `p`, or |refs| if there is none. */
  function NextUse(refs: seq<int>, p: int, i: nat): (t: nat)
    requires i <= |refs|
    ensures i <= t <= |refs|
    decreases |refs| - i
  {
    if i == |refs| || refs[i] == p then i else NextUse(refs, p, i + 1)
  }

  lemma {:induction false} NextUseIsFirst(refs: seq<int>, p: int, i: nat)
    requires i <= |refs|
    ensures var t := NextUse(refs, p, i); t < |refs| ==> refs[t] == p
    ensures forall j :: i <= j < NextUse(refs, p, i) ==> refs[j] != p
    decreases |refs| - i
  {
    if i < |refs| && refs[i] != p {
      NextUseIsFirst(refs, p, i + 1);
    }
  }

  /** The position before `i` of the last reference to page `p`, or -1 if there is none. */
  function LastUse(refs: seq<int>, p: int, i: nat): (t: int)
    requires i <= |refs|
    ensures -1 <= t < i
  {
    if i == 0 then -1 else if refs[i - 1] == p then i - 1 else LastUse(refs, p, i - 1)
  }

  lemma {:induction false} LastUseIsLast(refs: seq<int>, p: int, i: nat)
    requires i <= |refs|
    ensures var t := LastUse(refs, p, i); t >= 0 ==> refs[t] == p
    ensures forall j :: LastUse(refs, p, i) < j < i ==> refs[j] != p
  {
    if i > 0 && refs[i - 1] != p {
      LastUseIsLast(refs, p, i - 1);
    }
  }

  /** `v` is an index into `memory` that the policy may evict at reference `i`. */
  ghost predicate IsVictim(policy: Policy, refs: seq<int>, i: nat, memory: seq<int>, v: int)
    requires i < |refs|
  {
    && 0 <= v < |memory|
    && match policy
       case FIFO => v == 0
       case LRU => v == 0
       case MRU => v == |memory| - 1
       case OPT =>
         forall k :: 0 <= k < |memory| ==>
           && NextUse(refs, memory[k], i + 1) <= NextUse(refs, memory[v], i + 1)
           && (v < k ==> NextUse(refs, memory[k], i + 1) < NextUse(refs, memory[v], i + 1))
       case UNOPT =>
         forall k :: 0 <= k < |memory| ==>
           && NextUse(refs, memory[v], i + 1) <= NextUse(refs, memory[k], i + 1)
           && (k < v ==> NextUse(refs, memory[v], i + 1) < NextUse(refs, memory[k], i + 1))
       case RAND => true
       case CLOCK => true
  }

  function Without(m: seq<int>, k: nat): seq<int>
    requires k < |m|
  {
    m[..k] + m[k + 1..]
  }

  /** How one reference changes the memory list. */
  ghost predicate Step(policy: Policy, refs: seq<int>, C: nat, i: nat, m: seq<int>, m': seq<int>)
    requires i < |refs|
  {
    var n := refs[i];
    if n in m then
      if policy == LRU || policy == MRU then
        exists k :: 0 <= k < |m| && m[k] == n && m' == Without(m, k) + [n]
      else
        m' == m
    else if |m| == C then
      exists v :: IsVictim(policy, refs, i, m, v) && m' == Without(m, v) + [n]
    else
      m' == m + [n]
  }

  ghost predicate IsRun(policy: Policy, refs: seq<int>, C: nat, run: seq<seq<int>>) {
    && |run| == |refs| + 1
    && run[0] == []
    && forall i :: 0 <= i < |refs| ==> Step(policy, refs, C, i, run[i], run[i + 1])
  }

  ghost function Pages(m: seq<int>): set<int> {
    set p | p in m
  }

  ghost function PageSets(run: seq<seq<int>>): (r: seq<set<int>>)
    ensures |r| == |run| && forall i :: 0 <= i < |run| ==> r[i] == Pages(run[i])
  {
    seq(|run|, i requires 0 <= i < |run| => Pages(run[i]))
  }

  /** Misses among the references from position `i` on. */
  ghost function Misses(refs: seq<int>, run: seq<set<int>>, i: nat): nat
    requires i <= |refs| < |run|
    decreases |refs| - i
  {
    if i == |refs| then 0 else (if refs[i] in run[i] then 0 else 1) + Misses(refs, run, i + 1)
  }

  // ---------- CLOCK's counts ----------

  /** The count of a page just referenced. */
  function Counted(ref: map<int, int>, n: int, bits: int): map<int, int> {
    if n !in ref then ref[n := 1] else ref[n := if ref[n] + 1 > bits then bits else ref[n] + 1]
  }

  /** A scan still draws, or has found a victim; the counts are those it leaves. */
  datatype Scan = Looking(ref: map<int, int>) | Found(v: nat, ref: map<int, int>)

  predicate Drawn(memory: seq<int>, draws: seq<nat>) {
    forall k :: 0 <= k < |draws| ==> draws[k] < |memory|
  }

  predicate AllCounted(memory: seq<int>, ref: map<int, int>) {
    forall k :: 0 <= k < |memory| ==> memory[k] in ref
  }

  /** The scan with given draws: a page with a count loses one, a page without goes. */
  function Scanned(memory: seq<int>, ref: map<int, int>, draws: seq<nat>): Scan
    requires Drawn(memory, draws) && AllCounted(memory, ref)
  {
    if draws == [] then Looking(ref)
    else
      var page := memory[draws[0]];
      if ref[page] >= 1 then Scanned(memory, ref[page := ref[page] - 1], draws[1..]) else Found(draws[0], ref)
  }

  ghost predicate Scans(memory: seq<int>, ref: map<int, int>, v: int, ref': map<int, int>)
    requires AllCounted(memory, ref)
  {
    0 <= v < |memory| && exists draws :: Drawn(memory, draws) && Scanned(memory, ref, draws) == Found(v, ref')
  }

  /** How one reference changes memory and counts under CLOCK. */
  ghost predicate ClockStep(bits: int, refs: seq<int>, C: nat, i: nat, m: seq<int>, ref: map<int, int>, m': seq<int>,
                            ref': map<int, int>)
    requires i < |refs|
  {
    var n := refs[i];
    && AllCounted(m, ref)
    && if n in m then m' == m && ref' == Counted(ref, n, bits)
       else if |m| == C then
         exists v, left :: Scans(m, ref, v, left) && m' == Without(m, v) + [n]
                           && ref' == Counted(left - {m[v]}, n, bits)
       else m' == m + [n] && ref' == Counted(ref, n, bits)
  }

  ghost predicate ClockSoFar(bits: int, refs: seq<int>, C: nat, run: seq<seq<int>>, counts: seq<map<int, int>>,
                             n: nat) {
    && n <= |refs| && |run| == |counts| == n + 1
    && run[0] == [] && counts[0] == map[]
    && forall i :: 0 <= i < n ==> ClockStep(bits, refs, C, i, run[i], counts[i], run[i + 1], counts[i + 1])
  }

  ghost predicate IsClockRun(bits: int, refs: seq<int>, C: nat, run: seq<seq<int>>, counts: seq<map<int, int>>) {
    ClockSoFar(bits, refs, C, run, counts, |refs|)
  }

  lemma ClockSoFarMore(bits: int, refs: seq<int>, C: nat, run: seq<seq<int>>, counts: seq<map<int, int>>, n: nat,
                       m: seq<int>, ref: map<int, int>)
    requires n < |refs| && ClockSoFar(bits, refs, C, run, counts, n)
    requires ClockStep(bits, refs, C, n, run[n], counts[n], m, ref)
    ensures ClockSoFar(bits, refs, C, run + [m], counts + [ref], n + 1)
  {
  }

  /** How often a page may still be passed over. */
  function CountOf(ref: map<int, int>, p: int): nat {
    if p in ref && ref[p] > 0 then ref[p] else 0
  }

  /** The draws a scan can make before it must end. */
  function CountLeft(memory: seq<int>, ref: map<int, int>): nat {
    if memory == [] then 0 else CountOf(ref, memory[0]) + CountLeft(memory[1..], ref)
  }

  lemma {:induction false} OneCountLess(memory: seq<int>, ref: map<int, int>, k: nat)
    requires Unique(memory) && k < |memory| && memory[k] in ref && ref[memory[k]] >= 1
    ensures CountLeft(memory, ref[memory[k] := ref[memory[k]] - 1]) == CountLeft(memory, ref) - 1
  {
    var less := ref[memory[k] := ref[memory[k]] - 1];
    if k > 0 {
      OneCountLess(memory[1..], ref, k - 1);
    } else {
      SameCounts(memory[1..], ref, less);
    }
  }

  lemma {:induction false} SameCounts(memory: seq<int>, ref: map<int, int>, ref2: map<int, int>)
    requires forall k :: 0 <= k < |memory| ==> CountOf(ref, memory[k]) == CountOf(ref2, memory[k])
    ensures CountLeft(memory, ref) == CountLeft(memory, ref2)
  {
    if memory != [] {
      SameCounts(memory[1..], ref, ref2);
    }
  }

  /** A draw more: a scan that has ended has ended. */
  lemma {:induction false} ScanOn(memory: seq<int>, ref: map<int, int>, draws: seq<nat>, k: nat)
    requires Drawn(memory, draws) && k < |memory| && AllCounted(memory, ref)
    ensures Drawn(memory, draws + [k])
    ensures Scanned(memory, ref, draws).Found? ==> Scanned(memory, ref, draws + [k]) == Scanned(memory, ref, draws)
    ensures Scanned(memory, ref, draws).Looking? ==>
              var left, page := Scanned(memory, ref, draws).ref, memory[k];
              && page in left
              && Scanned(memory, ref, draws + [k]) ==
                 if left[page] >= 1 then Looking(left[page := left[page] - 1]) else Found(k, left)
  {
    if draws != [] {
      var page := memory[draws[0]];
      assert (draws + [k])[1..] == draws[1..] + [k];
      if ref[page] >= 1 {
        ScanOn(memory, ref[page := ref[page] - 1], draws[1..], k);
      }
    }
  }

  /** CLOCK's scan. It ends whatever is drawn. */
  method ClockVictim(memory: seq<int>, ref: map<int, int>) returns (v: int, left: map<int, int>)
    requires |memory| > 0 && Unique(memory) && AllCounted(memory, ref)
    ensures Scans(memory, ref, v, left) && AllCounted(memory, left)
  {
    left := ref;
    ghost var draws: seq<nat> := [];
    while true
      invariant Drawn(memory, draws) && Scanned(memory, ref, draws) == Looking(left) && AllCounted(memory, left)
      decreases CountLeft(memory, left)
    {
      var k: nat :| k < |memory|;
      var page := memory[k];
      ScanOn(memory, ref, draws, k);
      draws := draws + [k];
      if left[page] >= 1 {
        OneCountLess(memory, left, k);
        left := left[page := left[page] - 1];
      } else {
        v := k;
        return;
      }
    }
  }

  // ---------- The reference loop ----------

  /** The scan for a page's next reference. */
  method WhenReferenced(page: int, addrList: seq<int>, addrIndex: nat) returns (whenReferenced: nat)
    requires addrIndex < |addrList|
    ensures whenReferenced == NextUse(addrList, page, addrIndex + 1)
  {
    whenReferenced := |addrList|;
    var futureIdx := addrIndex + 1;
    while futureIdx < |addrList|
      invariant addrIndex + 1 <= futureIdx <= |addrList|
      invariant whenReferenced == |addrList|
      invariant NextUse(addrList, page, futureIdx) == NextUse(addrList, page, addrIndex + 1)
    {
      if page == addrList[futureIdx] {
        whenReferenced := futureIdx;
        break;
      }
      futureIdx := futureIdx + 1;
    }
  }

  method OptVictim(memory: seq<int>, addrList: seq<int>, addrIndex: nat) returns (replaceIdx: int)
    requires |memory| > 0 && addrIndex < |addrList|
    ensures IsVictim(OPT, addrList, addrIndex, memory, replaceIdx)
  {
    var maxReplace: int := -1;
    replaceIdx := -1;
    for pageIndex := 0 to |memory|
      invariant pageIndex == 0 ==> maxReplace == -1
      invariant pageIndex > 0 ==>
          && 0 <= replaceIdx < pageIndex
          && maxReplace == NextUse(addrList, memory[replaceIdx], addrIndex + 1)
      invariant forall k :: 0 <= k < pageIndex ==>
          && NextUse(addrList, memory[k], addrIndex + 1) <= maxReplace
          && (replaceIdx < k ==> NextUse(addrList, memory[k], addrIndex + 1) < maxReplace)
    {
      var whenReferenced := WhenReferenced(memory[pageIndex], addrList, addrIndex);
      if whenReferenced >= maxReplace {
        replaceIdx := pageIndex;
        maxReplace := whenReferenced;
      }
    }
  }

  method UnoptVictim(memory: seq<int>, addrList: seq<int>, addrIndex: nat) returns (replaceIdx: int)
    requires |memory| > 0 && addrIndex < |addrList|
    ensures IsVictim(UNOPT, addrList, addrIndex, memory, replaceIdx)
  {
    var minReplace := |addrList| + 1;
    replaceIdx := -1;
    for pageIndex := 0 to |memory|
      invariant pageIndex == 0 ==> minReplace == |addrList| + 1
      invariant pageIndex > 0 ==>
          && 0 <= replaceIdx < pageIndex
          && minReplace == NextUse(addrList, memory[replaceIdx], addrIndex + 1)
      invariant forall k :: 0 <= k < pageIndex ==>
          && minReplace <= NextUse(addrList, memory[k], addrIndex + 1)
          && (k < replaceIdx ==> minReplace < NextUse(addrList, memory[k], addrIndex + 1))
    {
      var whenReferenced := WhenReferenced(memory[pageIndex], addrList, addrIndex);
      if whenReferenced < minReplace {
        replaceIdx := pageIndex;
        minReplace := whenReferenced;
      }
    }
  }

  /** The victim choice. RAND may evict any resident page. */
  method ChooseVictim(policy: Policy, memory: seq<int>, ref: map<int, int>, addrList: seq<int>, addrIndex: nat)
    returns (v: int, left: map<int, int>)
    requires |memory| > 0 && addrIndex < |addrList| && Unique(memory) && AllCounted(memory, ref)
    ensures IsVictim(policy, addrList, addrIndex, memory, v)
    ensures if policy == CLOCK then Scans(memory, ref, v, left) else left == ref
    ensures AllCounted(memory, left)
  {
    left := ref;
    match policy
    case FIFO => v := 0;
    case LRU => v := 0;
    case MRU => v := |memory| - 1;
    case RAND => v :| 0 <= v < |memory|;
    case CLOCK => v, left := ClockVictim(memory, ref);
    case OPT => v := OptVictim(memory, addrList, addrIndex);
    case UNOPT => v := UnoptVictim(memory, addrList, addrIndex);
  }

  method IndexOf(memory: seq<int>, n: int) returns (idx: int)
    ensures idx == -1 <==> n !in memory
    ensures idx != -1 ==> 0 <= idx < |memory| && memory[idx] == n && n !in memory[..idx]
  {
    for k := 0 to |memory|
      invariant n !in memory[..k]
    {
      if memory[k] == n {
        return k;
      }
    }
    return -1;
  }

  lemma CountsStay(m: seq<int>, ref: map<int, int>, n: int, bits: int)
    requires AllCounted(m, ref)
    ensures AllCounted(m, Counted(ref, n, bits)) && AllCounted(m + [n], Counted(ref, n, bits))
  {
  }

  /** Making room. CLOCK forgets the count of the page that goes. */
  method Evict(policy: Policy, addrList: seq<int>, addrIndex: nat, memory: seq<int>, ref: map<int, int>)
    returns (ghost v: int, memory': seq<int>, ref': map<int, int>)
    requires |memory| > 0 && addrIndex < |addrList| && Unique(memory) && AllCounted(memory, ref)
    ensures IsVictim(policy, addrList, addrIndex, memory, v) && memory' == Without(memory, v)
    ensures policy == CLOCK ==> exists left :: Scans(memory, ref, v, left) && ref' == left - {memory[v]}
    ensures policy != CLOCK ==> ref' == ref
    ensures AllCounted(memory', ref')
  {
    var k, left := ChooseVictim(policy, memory, ref, addrList, addrIndex);
    v := k;
    memory', ref' := Without(memory, k), left;
    if policy == CLOCK {
      ref' := left - {memory[k]};
    }
  }

  /** One turn of the loop: look the page up, on a miss make room and load it, and count the reference. */
  method Reference(policy: Policy, clockbits: int, addrList: seq<int>, cachesize: nat, addrIndex: nat, memory: seq<int>,
                   ref: map<int, int>)
    returns (memory': seq<int>, ref': map<int, int>, hit: bool)
    requires addrIndex < |addrList| && 1 <= cachesize
    requires |memory| <= cachesize && Unique(memory) && AllCounted(memory, ref)
    ensures Step(policy, addrList, cachesize, addrIndex, memory, memory')
    ensures policy == CLOCK ==> ClockStep(clockbits, addrList, cachesize, addrIndex, memory, ref, memory', ref')
    ensures hit <==> addrList[addrIndex] in memory
    ensures AllCounted(memory', ref')
  {
    var n := addrList[addrIndex];
    var idx := IndexOf(memory, n);
    hit := idx != -1;
    memory', ref' := memory, ref;
    if hit {
      if policy == LRU || policy == MRU {
        memory' := Without(memory, idx) + [n];
      }
    } else {
      if |memory| == cachesize {
        ghost var v;
        v, memory', ref' := Evict(policy, addrList, addrIndex, memory, ref);
        assert memory[v] !in memory' && memory[v] != n;
      }
      memory' := memory' + [n];
    }
    CountsStay(memory, ref, n, clockbits);
    CountsStay(if hit then memory' else memory'[..|memory'| - 1], ref', n, clockbits);
    ref' := Counted(ref', n, clockbits);
  }

  /** The simulation: every policy, every reference list, every cache of at least one page. */
  method Simulate(policy: Policy, clockbits: int, addrList: seq<int>, cachesize: nat)
    returns (memory: seq<int>, hits: nat, miss: nat, ghost run: seq<seq<int>>, ghost counts: seq<map<int, int>>)
    requires cachesize >= 1
    ensures IsRun(policy, addrList, cachesize, run)
    ensures policy == CLOCK ==> IsClockRun(clockbits, addrList, cachesize, run, counts)
    ensures memory == run[|addrList|]
    ensures miss == Misses(addrList, PageSets(run), 0)
    ensures hits + miss == |addrList|
  {
    var ref: map<int, int> := map[];
    memory, hits, miss, run, counts := [], 0, 0, [[]], [map[]];
    for addrIndex := 0 to |addrList|
      invariant |run| == |counts| == addrIndex + 1 && run[0] == [] && counts[0] == map[]
      invariant run[addrIndex] == memory && counts[addrIndex] == ref
      invariant forall i :: 0 <= i < addrIndex ==> Step(policy, addrList, cachesize, i, run[i], run[i + 1])
      invariant policy == CLOCK ==> ClockSoFar(clockbits, addrList, cachesize, run, counts, addrIndex)
      invariant |memory| <= cachesize && Unique(memory) && AllCounted(memory, ref)
      invariant hits + miss == addrIndex
      invariant miss == MissesBefore(addrList, run, addrIndex)
    {
      var hit;
      ghost var before := memory;
      memory, ref, hit := Reference(policy, clockbits, addrList, cachesize, addrIndex, memory, ref);
      if hit {
        hits := hits + 1;
      } else {
        miss := miss + 1;
      }
      StepStaysInCache(policy, addrList, cachesize, addrIndex, before, memory);
      MissesBeforeExtend(addrList, run, memory, addrIndex);
      if policy == CLOCK {
        ClockSoFarMore(clockbits, addrList, cachesize, run, counts, addrIndex, memory, ref);
      }
      run, counts := run + [memory], counts + [ref];
    }
    MissesAgree(addrList, run, |addrList|);
  }

  /** Misses among the first `n` references. */
  ghost function MissesBefore(refs: seq<int>, run: seq<seq<int>>, n: nat): nat
    requires n <= |refs| && n <= |run|
  {
    if n == 0 then 0 else MissesBefore(refs, run, n - 1) + (if refs[n - 1] in run[n - 1] then 0 else 1)
  }

  lemma MissesBeforeExtend(refs: seq<int>, run: seq<seq<int>>, m: seq<int>, n: nat)
    requires n <= |refs| && n < |run|
    ensures MissesBefore(refs, run + [m], n) == MissesBefore(refs, run, n)
  {
  }

  lemma {:induction false} MissesAgree(refs: seq<int>, run: seq<seq<int>>, n: nat)
    requires n <= |refs| < |run|
    ensures MissesBefore(refs, run, n) + Misses(refs, PageSets(run), n) == Misses(refs, PageSets(run), 0)
  {
    if n > 0 {
      MissesAgree(refs, run, n - 1);
    }
  }

  // ---------- What every run keeps ----------

  lemma StepStaysInCache(policy: Policy, refs: seq<int>, C: nat, i: nat, m: seq<int>, m': seq<int>)
    requires C >= 1 && i < |refs| && Step(policy, refs, C, i, m, m')
    requires |m| <= C && Unique(m)
    ensures |m'| <= C && Unique(m')
  {
  }

  lemma {:induction false} RunStaysInCache(policy: Policy, refs: seq<int>, C: nat, run: seq<seq<int>>, i: nat)
    requires C >= 1 && IsRun(policy, refs, C, run) && i <= |refs|
    ensures |run[i]| <= C && Unique(run[i])
  {
    if i > 0 {
      RunStaysInCache(policy, refs, C, run, i - 1);
      StepStaysInCache(policy, refs, C, i - 1, run[i - 1], run[i]);
    }
  }

  /**
   Any way to manage a cache of at most C pages that loads every page it is asked for:
   it may drop whatever it likes, whenever it likes.
   */
  ghost predicate CacheRun(refs: seq<int>, C: nat, run: seq<set<int>>) {
    && |run| == |refs| + 1
    && run[0] == {}
    && forall i :: 0 <= i < |refs| ==> Loads(refs[i], C, run[i], run[i + 1])
  }

  ghost predicate Loads(r: int, C: nat, T: set<int>, T': set<int>) {
    r in T' && T' <= T + {r} && |T'| <= C
  }

  lemma {:induction false} PagesSize(m: seq<int>)
    requires Unique(m)
    ensures |Pages(m)| == |m|
  {
    if m != [] {
      var rest := m[..|m| - 1];
      PagesSize(rest);
      assert Pages(m) == Pages(rest) + {m[|m| - 1]};
    }
  }

  /** Every policy's run, RAND and CLOCK included, is a cache run. */
  lemma PolicyRunIsCacheRun(policy: Policy, refs: seq<int>, C: nat, run: seq<seq<int>>)
    requires C >= 1 && IsRun(policy, refs, C, run)
    ensures CacheRun(refs, C, PageSets(run))
  {
    forall i | 0 <= i < |refs|
      ensures Loads(refs[i], C, Pages(run[i]), Pages(run[i + 1]))
    {
      RunStaysInCache(policy, refs, C, run, i + 1);
      PagesSize(run[i + 1]);
      assert Step(policy, refs, C, i, run[i], run[i + 1]);
    }
    assert Pages(run[0]) == {};
  }

  // ---------- OPT is optimal ----------

  /** The pages of `S` whose next use, looking from `i`, comes before `t`. */
  ghost function Early(refs: seq<int>, S: set<int>, i: nat, t: int): set<int>
    requires i <= |refs|
  {
    set p | p in S && NextUse(refs, p, i) < t
  }

  /** Looking from `i`, `T` never has more than `k` more early pages than `S`. */
  ghost predicate Ahead(refs: seq<int>, S: set<int>, T: set<int>, i: nat, k: int)
    requires i <= |refs|
  {
    forall t :: i <= t <= |refs| ==> |Early(refs, T, i, t)| <= |Early(refs, S, i, t)| + k
  }

  /** The early pages other than the one referenced at `i`. */
  ghost function EarlyRest(refs: seq<int>, S: set<int>, i: nat, t: int): set<int>
    requires i < |refs|
  {
    Early(refs, S, i, t) - {refs[i]}
  }

  lemma EarlyNow(refs: seq<int>, X: set<int>, i: nat, t: int)
    requires i < t <= |refs|
    ensures |Early(refs, X, i, t)| == |EarlyRest(refs, X, i, t)| + Bit(refs[i] in X)
  {
    var r := refs[i];
    if r in X {
      assert r in Early(refs, X, i, t);
    } else {
      assert EarlyRest(refs, X, i, t) == Early(refs, X, i, t);
    }
  }

  lemma NextUseSkip(refs: seq<int>, p: int, i: nat)
    requires i < |refs| && refs[i] != p
    ensures NextUse(refs, p, i) == NextUse(refs, p, i + 1)
  {
  }

  /** From `i` to `i + 1` only the next use of the page referenced at `i` changes. */
  lemma EarlyNext(refs: seq<int>, X: set<int>, i: nat, t: int)
    requires i < t <= |refs| && refs[i] in X
    ensures |Early(refs, X, i + 1, t)| == |EarlyRest(refs, X, i, t)| + Bit(NextUse(refs, refs[i], i + 1) < t)
  {
    var r := refs[i];
    var next, rest := Early(refs, X, i + 1, t), EarlyRest(refs, X, i, t);
    forall p | p in X && p != r
      ensures p in next <==> p in rest
    {
      NextUseSkip(refs, p, i);
    }
    assert next - {r} == rest;
    if NextUse(refs, r, i + 1) < t {
      assert r in next;
    } else {
      assert next - {r} == next;
    }
  }

  lemma EarlyRestShrinks(refs: seq<int>, C: nat, X: set<int>, X': set<int>, i: nat, t: int)
    requires i < |refs| && Loads(refs[i], C, X, X')
    ensures |EarlyRest(refs, X', i, t)| <= |EarlyRest(refs, X, i, t)|
    ensures |EarlyRest(refs, X', i, t)| <= C - 1
  {
    SubsetSize(EarlyRest(refs, X', i, t), EarlyRest(refs, X, i, t));
    SubsetSize(EarlyRest(refs, X', i, t), X' - {refs[i]});
  }

  /** How far ahead `S` stays after a reference to `r`: a miss costs it one, a miss of `T` gains one. */
  ghost function Lead(k: int, r: int, S: set<int>, T: set<int>): int {
    k + Bit(r in S) - Bit(r in T)
  }

  lemma LeadStaysNonNegative(refs: seq<int>, S: set<int>, T: set<int>, i: nat, k: int)
    requires i < |refs| && Ahead(refs, S, T, i, k)
    ensures Lead(k, refs[i], S, T) >= 0
  {
    EarlyNow(refs, S, i, i + 1);
    EarlyNow(refs, T, i, i + 1);
    assert EarlyRest(refs, S, i, i + 1) == {};
    assert EarlyRest(refs, T, i, i + 1) == {};
  }

  /** One reference, one horizon `t`: OPT's list `m` becomes `m'` while the other cache goes from T to T'. */
  lemma OptStepAt(refs: seq<int>, C: nat, m: seq<int>, m': seq<int>, T: set<int>, T': set<int>,
                  i: nat, k: int, t: int)
    requires i < t <= |refs| && C >= 1
    requires Unique(m) && |m| <= C && Step(OPT, refs, C, i, m, m')
    requires Loads(refs[i], C, T, T')
    requires |Early(refs, T, i, t)| <= |Early(refs, Pages(m), i, t)| + k
    requires Lead(k, refs[i], Pages(m), T) >= 0
    ensures |Early(refs, T', i + 1, t)| <= |Early(refs, Pages(m'), i + 1, t)| + Lead(k, refs[i], Pages(m), T)
  {
    EarlyNow(refs, T, i, t);
    EarlyNow(refs, Pages(m), i, t);
    assert refs[i] in m';
    EarlyNext(refs, T', i, t);
    EarlyNext(refs, Pages(m'), i, t);
    EarlyRestShrinks(refs, C, T, T', i, t);
    OptKeepsEarly(refs, C, m, m', i, t);
  }

  /** One reference: the lead changes exactly by the difference in misses. */
  lemma OptStep(refs: seq<int>, C: nat, m: seq<int>, m': seq<int>, T: set<int>, T': set<int>, i: nat, k: int)
    requires i < |refs| && C >= 1
    requires Unique(m) && |m| <= C && Step(OPT, refs, C, i, m, m')
    requires Loads(refs[i], C, T, T')
    requires Ahead(refs, Pages(m), T, i, k)
    ensures Ahead(refs, Pages(m'), T', i + 1, Lead(k, refs[i], Pages(m), T))
  {
    LeadStaysNonNegative(refs, Pages(m), T, i, k);
    forall t {:trigger Early(refs, T', i + 1, t)} | i + 1 <= t <= |refs|
      ensures |Early(refs, T', i + 1, t)| <= |Early(refs, Pages(m'), i + 1, t)| + Lead(k, refs[i], Pages(m), T)
    {
      OptStepAt(refs, C, m, m', T, T', i, k, t);
    }
  }

  /** OPT gives up an early page only when its whole full cache is early. */
  lemma OptKeepsEarly(refs: seq<int>, C: nat, m: seq<int>, m': seq<int>, i: nat, t: int)
    requires i < t <= |refs| && C >= 1
    requires Unique(m) && |m| <= C && Step(OPT, refs, C, i, m, m')
    ensures || |EarlyRest(refs, Pages(m'), i, t)| == |EarlyRest(refs, Pages(m), i, t)|
            || (&& refs[i] !in m
                && |EarlyRest(refs, Pages(m), i, t)| == C
                && |EarlyRest(refs, Pages(m'), i, t)| == C - 1)
  {
    var r := refs[i];
    if r !in m && |m| == C {
      var v :| IsVictim(OPT, refs, i, m, v) && m' == Without(m, v) + [r];
      OptEviction(refs, m, v, i, t);
      EarlyRestWithout(refs, m, v, i, t);
    } else {
      assert Pages(m') - {r} == Pages(m) - {r};
      assert EarlyRest(refs, Pages(m'), i, t) == EarlyRest(refs, Pages(m), i, t);
    }
  }

  lemma EarlyRestWithout(refs: seq<int>, m: seq<int>, v: nat, i: nat, t: int)
    requires i < |refs| && v < |m| && Unique(m)
    ensures EarlyRest(refs, Pages(Without(m, v) + [refs[i]]), i, t) == EarlyRest(refs, Pages(m), i, t) - {m[v]}
  {
    PagesAfterEviction(m, v, refs[i]);
  }

  lemma PagesAfterEviction(m: seq<int>, v: nat, r: int)
    requires v < |m| && Unique(m)
    ensures Pages(Without(m, v) + [r]) == Pages(m) - {m[v]} + {r}
  {
    assert m == m[..v] + [m[v]] + m[v + 1..];
  }

  /** If OPT's victim is early then so is everything in memory. */
  lemma OptEviction(refs: seq<int>, m: seq<int>, v: int, i: nat, t: int)
    requires i < t <= |refs| && Unique(m) && refs[i] !in m && IsVictim(OPT, refs, i, m, v)
    ensures m[v] in EarlyRest(refs, Pages(m), i, t) ==> |EarlyRest(refs, Pages(m), i, t)| == |m|
  {
    if NextUse(refs, m[v], i) < t {
      forall p | p in m
        ensures p in EarlyRest(refs, Pages(m), i, t)
      {
        var k :| 0 <= k < |m| && m[k] == p;
        assert NextUse(refs, m[k], i + 1) <= NextUse(refs, m[v], i + 1);
      }
      assert EarlyRest(refs, Pages(m), i, t) == Pages(m);
      PagesSize(m);
    }
  }

  lemma {:induction false} OptNeverFallsBehind(refs: seq<int>, C: nat, opt: seq<seq<int>>,
                                               D: nat, other: seq<set<int>>, i: nat, k: int)
    requires 1 <= C && D <= C
    requires IsRun(OPT, refs, C, opt) && CacheRun(refs, D, other)
    requires i <= |refs| && Ahead(refs, Pages(opt[i]), other[i], i, k)
    ensures Misses(refs, PageSets(opt), i) <= Misses(refs, other, i) + k
    decreases |refs| - i
  {
    if i == |refs| {
      assert Early(refs, Pages(opt[i]), i, i) == {} && Early(refs, other[i], i, i) == {};
    } else {
      assert Loads(refs[i], D, other[i], other[i + 1]);
      RunStaysInCache(OPT, refs, C, opt, i);
      OptStep(refs, C, opt[i], opt[i + 1], other[i], other[i + 1], i, k);
      OptNeverFallsBehind(refs, C, opt, D, other, i + 1, Lead(k, refs[i], Pages(opt[i]), other[i]));
    }
  }

  /** OPT misses no more than any management of any cache that is no larger. */
  lemma OptIsOptimal(refs: seq<int>, C: nat, opt: seq<seq<int>>, D: nat, other: seq<set<int>>)
    requires 1 <= C && D <= C
    requires IsRun(OPT, refs, C, opt) && CacheRun(refs, D, other)
    ensures Misses(refs, PageSets(opt), 0) <= Misses(refs, other, 0)
  {
    forall t | 0 <= t <= |refs|
      ensures |Early(refs, other[0], 0, t)| <= |Early(refs, Pages(opt[0]), 0, t)|
    {
      assert Early(refs, other[0], 0, t) == {};
    }
    OptNeverFallsBehind(refs, C, opt, D, other, 0, 0);
  }

  /** Hence OPT misses no more than FIFO, LRU, MRU, UNOPT, RAND or CLOCK. */
  lemma OptBeatsEveryPolicy(refs: seq<int>, C: nat, opt: seq<seq<int>>, policy: Policy, D: nat, run: seq<seq<int>>)
    requires 1 <= D <= C
    requires IsRun(OPT, refs, C, opt) && IsRun(policy, refs, D, run)
    ensures Misses(refs, PageSets(opt), 0) <= Misses(refs, PageSets(run), 0)
  {
    PolicyRunIsCacheRun(policy, refs, D, run);
    OptIsOptimal(refs, C, opt, D, PageSets(run));
  }

  // ---------- LRU ----------

  ghost predicate IsSuffix(a: seq<int>, b: seq<int>) {
    |a| <= |b| && a == b[|b| - |a|..]
  }

  lemma DelMiddle(a: seq<int>, n: int, b: seq<int>)
    requires n !in a && n !in b
    ensures Del(a + [n] + b, n) == a + b
  {
    DelConcat(a + [n], b, n);
    DelConcat(a, [n], n);
    DelAbsent(a, n);
    DelAbsent(b, n);
    assert Del([n], n) == [] by {
      assert [n][1..] == [];
    }
    assert a + [] == a;
  }

  lemma WithoutIsDel(m: seq<int>, k: nat)
    requires k < |m| && Unique(m)
    ensures Without(m, k) == Del(m, m[k])
  {
    assert m == m[..k] + [m[k]] + m[k + 1..];
    DelMiddle(m[..k], m[k], m[k + 1..]);
  }

  /** What an LRU reference does, as a function. */
  function LruNext(C: nat, m: seq<int>, n: int): seq<int>
    requires C >= 1
  {
    (if n !in m && |m| == C then m[1..] else Del(m, n)) + [n]
  }

  lemma LruStepIsNext(refs: seq<int>, C: nat, i: nat, m: seq<int>, m': seq<int>)
    requires C >= 1 && i < |refs| && Unique(m) && Step(LRU, refs, C, i, m, m')
    ensures m' == LruNext(C, m, refs[i])
  {
    var n := refs[i];
    if n in m {
      var k :| 0 <= k < |m| && m[k] == n && m' == Without(m, k) + [n];
      WithoutIsDel(m, k);
    } else {
      DelAbsent(m, n);
    }
  }

  lemma LruNextInclusion(C: nat, m: seq<int>, D: nat, w: seq<int>, n: int)
    requires 1 <= C <= D && |m| <= C && |w| <= D && Unique(w) && IsSuffix(m, w)
    ensures IsSuffix(LruNext(C, m, n), LruNext(D, w, n))
  {
    var front := w[..|w| - |m|];
    assert w == front + m;
    DelConcat(front, m, n);
    if n in m {
      var k :| 0 <= k < |m| && m[k] == n;
      assert w[|front| + k] == n;
    } else {
      DelAbsent(m, n);
      if n !in w {
        DelAbsent(w, n);
      }
    }
    SuffixExtend(if n !in m && |m| == C then m[1..] else Del(m, n),
                 if n !in w && |w| == D then w[1..] else Del(w, n), n);
  }

  lemma SuffixExtend(a: seq<int>, b: seq<int>, n: int)
    requires IsSuffix(a, b)
    ensures IsSuffix(a + [n], b + [n])
  {
  }

  /** The memory of a smaller LRU cache is a suffix of the memory of a larger one, after every prefix. */
  lemma {:induction false} LruInclusion(refs: seq<int>, C: nat, run: seq<seq<int>>, D: nat, wide: seq<seq<int>>, i: nat)
    requires 1 <= C <= D
    requires IsRun(LRU, refs, C, run) && IsRun(LRU, refs, D, wide)
    requires i <= |refs|
    ensures IsSuffix(run[i], wide[i])
  {
    if i > 0 {
      LruInclusion(refs, C, run, D, wide, i - 1);
      RunStaysInCache(LRU, refs, C, run, i - 1);
      RunStaysInCache(LRU, refs, D, wide, i - 1);
      LruStepIsNext(refs, C, i - 1, run[i - 1], run[i]);
      LruStepIsNext(refs, D, i - 1, wide[i - 1], wide[i]);
      LruNextInclusion(C, run[i - 1], D, wide[i - 1], refs[i - 1]);
    }
  }

  lemma {:induction false} LruMissesFall(refs: seq<int>, C: nat, run: seq<seq<int>>, D: nat, wide: seq<seq<int>>,
                                         i: nat)
    requires 1 <= C <= D
    requires IsRun(LRU, refs, C, run) && IsRun(LRU, refs, D, wide)
    requires i <= |refs|
    ensures Misses(refs, PageSets(wide), i) <= Misses(refs, PageSets(run), i)
    decreases |refs| - i
  {
    if i < |refs| {
      LruMissesFall(refs, C, run, D, wide, i + 1);
      LruInclusion(refs, C, run, D, wide, i);
    }
  }

  /**
   LRU's list is the most recently used pages, oldest first: it is ordered by last use, and a
   page used before but no longer resident is older than everything in the full memory.
   */
  ghost predicate ByRecency(refs: seq<int>, C: nat, i: nat, m: seq<int>)
    requires i <= |refs|
  {
    && 1 <= C && |m| <= C
    && (forall a :: 0 <= a < |m| ==> LastUse(refs, m[a], i) >= 0)
    && (forall a, b :: 0 <= a < b < |m| ==> LastUse(refs, m[a], i) < LastUse(refs, m[b], i))
    && (forall p :: p !in m && LastUse(refs, p, i) >= 0 ==> |m| == C && LastUse(refs, p, i) < LastUse(refs, m[0], i))
  }

  ghost predicate Oldest1st(refs: seq<int>, i: nat, m: seq<int>)
    requires i <= |refs|
  {
    forall a, b :: 0 <= a < b < |m| ==> LastUse(refs, m[a], i) < LastUse(refs, m[b], i)
  }

  lemma {:induction false} DelOrdered(refs: seq<int>, i: nat, m: seq<int>, n: int)
    requires i <= |refs| && Oldest1st(refs, i, m)
    ensures Oldest1st(refs, i, Del(m, n))
  {
    if m != [] {
      var rest := Del(m[1..], n);
      DelOrdered(refs, i, m[1..], n);
      DelMembers(m[1..], n);
      forall b | 0 <= b < |rest|
        ensures LastUse(refs, m[0], i) < LastUse(refs, rest[b], i)
      {
        assert rest[b] in rest;
      }
    }
  }

  /** What stays of a recency list after dropping `n`, or the oldest page, becomes one again with `n` added. */
  lemma RecencyExtend(refs: seq<int>, C: nat, i: nat, m: seq<int>, n: int, kept: seq<int>)
    requires i < |refs| && n == refs[i] && ByRecency(refs, C, i, m)
    requires |kept| < C && Oldest1st(refs, i, kept)
    requires |m| == C ==> |kept| == C - 1
    requires forall p :: p in kept ==> p in m && p != n
    requires forall p :: p in m && p != n && p !in kept ==> |m| == C && p == m[0]
    ensures ByRecency(refs, C, i + 1, kept + [n])
  {
    var m' := kept + [n];
    forall a, b | 0 <= a < b < |m'|
      ensures LastUse(refs, m'[a], i + 1) < LastUse(refs, m'[b], i + 1)
    {
      assert m'[a] in kept;
    }
    forall a | 0 <= a < |m'|
      ensures LastUse(refs, m'[a], i + 1) >= 0
    {
      assert a < |kept| ==> m'[a] in kept;
    }
    forall p | p !in m' && LastUse(refs, p, i + 1) >= 0
      ensures |m'| == C && LastUse(refs, p, i + 1) < LastUse(refs, m'[0], i + 1)
    {
      assert p != n && LastUse(refs, p, i + 1) == LastUse(refs, p, i);
      assert |kept| > 0 ==> kept[0] in kept;
    }
  }

  lemma LruNextRecency(refs: seq<int>, C: nat, i: nat, m: seq<int>)
    requires i < |refs| && Unique(m) && ByRecency(refs, C, i, m)
    ensures ByRecency(refs, C, i + 1, LruNext(C, m, refs[i]))
  {
    var n := refs[i];
    if n !in m && |m| == C {
      assert m == [m[0]] + m[1..];
      RecencyExtend(refs, C, i, m, n, m[1..]);
    } else {
      DelMembers(m, n);
      DelOrdered(refs, i, m, n);
      if n in m {
        var k :| 0 <= k < |m| && m[k] == n;
        WithoutIsDel(m, k);
      } else {
        DelAbsent(m, n);
      }
      RecencyExtend(refs, C, i, m, n, Del(m, n));
    }
  }

  lemma {:induction false} LruKeepsMostRecent(refs: seq<int>, C: nat, run: seq<seq<int>>, i: nat)
    requires 1 <= C && IsRun(LRU, refs, C, run) && i <= |refs|
    ensures ByRecency(refs, C, i, run[i])
  {
    if i > 0 {
      LruKeepsMostRecent(refs, C, run, i - 1);
      RunStaysInCache(LRU, refs, C, run, i - 1);
      LruStepIsNext(refs, C, i - 1, run[i - 1], run[i]);
      LruNextRecency(refs, C, i - 1, run[i - 1]);
    }
  }
}
