/**
 What the other policies of paging-policy.py are: FIFO's memory is the pages loaded last, in the order of their loads;
 MRU gives up the page used last; and UNOPT misses as often as can be, against every policy with as large a cache.
 Loads and uses are read off the references and the run, not off places in the list.
 */
module PageOrder {
  import opened Collections
  import opened PagePolicy

  // ---------- FIFO ----------

  /** The position before `i` of the last reference that loaded page `p`, or -1 if there is none. */
  ghost function LastLoad(refs: seq<int>, run: seq<seq<int>>, p: int, i: nat): (t: int)
    requires i <= |refs| < |run|
    ensures -1 <= t < i
    ensures t >= 0 ==> refs[t] == p && p !in run[t]
  {
    if i == 0 then -1
    else if refs[i - 1] == p && p !in run[i - 1] then i - 1
    else LastLoad(refs, run, p, i - 1)
  }

  /** The pages of the list in the order of their loads. */
  ghost predicate InLoadOrder(refs: seq<int>, run: seq<seq<int>>, i: nat, m: seq<int>)
    requires i <= |refs| < |run|
  {
    && (forall a :: 0 <= a < |m| ==> LastLoad(refs, run, m[a], i) >= 0)
    && (forall a, b :: 0 <= a < b < |m| ==> LastLoad(refs, run, m[a], i) < LastLoad(refs, run, m[b], i))
  }

  /** A page that is gone was loaded before all that are there, and the memory is full. */
  ghost predicate GoneEarlier(refs: seq<int>, C: nat, run: seq<seq<int>>, i: nat, m: seq<int>, p: int)
    requires i <= |refs| < |run|
  {
    p !in m && LastLoad(refs, run, p, i) >= 0 ==>
      |m| == C && forall a :: 0 <= a < |m| ==> LastLoad(refs, run, p, i) < LastLoad(refs, run, m[a], i)
  }

  /** The pages loaded last, in the order of their loads. */
  ghost predicate ByLoad(refs: seq<int>, C: nat, run: seq<seq<int>>, i: nat)
    requires i <= |refs| < |run|
  {
    && |run[i]| <= C
    && InLoadOrder(refs, run, i, run[i])
    && forall p :: GoneEarlier(refs, C, run, i, run[i], p)
  }

  /** What FIFO makes of its list. */
  function FifoNext(C: nat, m: seq<int>, n: int): seq<int>
    requires C >= 1
  {
    if n in m then m else (if |m| == C then m[1..] else m) + [n]
  }

  lemma FifoStepIsNext(refs: seq<int>, C: nat, i: nat, m: seq<int>, m': seq<int>)
    requires C >= 1 && i < |refs| && |m| <= C && Step(FIFO, refs, C, i, m, m')
    ensures m' == FifoNext(C, m, refs[i])
  {
  }

  lemma FifoNextMembers(C: nat, m: seq<int>, n: int, p: int)
    requires C >= 1
    ensures p in FifoNext(C, m, n) <==> p == n || (p in m && (n in m || |m| != C || p in m[1..]))
    ensures |m| == C && p in m ==> p == m[0] || p in m[1..]
  {
    assert |m| == C ==> m == [m[0]] + m[1..];
  }

  lemma LoadsLast(refs: seq<int>, run: seq<seq<int>>, i: nat, kept: seq<int>)
    requires i < |refs| < |run| && InLoadOrder(refs, run, i, kept) && refs[i] !in run[i] && refs[i] !in kept
    ensures InLoadOrder(refs, run, i + 1, kept + [refs[i]])
  {
    var m := kept + [refs[i]];
    forall a | 0 <= a < |m|
      ensures LastLoad(refs, run, m[a], i + 1) == if a == |kept| then i else LastLoad(refs, run, m[a], i)
    {
      assert a < |kept| ==> m[a] in kept;
    }
  }

  lemma FifoNextInOrder(refs: seq<int>, C: nat, run: seq<seq<int>>, i: nat)
    requires C >= 1 && i < |refs| < |run| && InLoadOrder(refs, run, i, run[i])
    ensures InLoadOrder(refs, run, i + 1, FifoNext(C, run[i], refs[i]))
  {
    var m, n := run[i], refs[i];
    if n !in m {
      var kept := if |m| == C then m[1..] else m;
      assert |m| == C ==> m == [m[0]] + m[1..];
      assert n !in kept;
      LoadsLast(refs, run, i, kept);
    }
  }

  lemma FifoNextGone(refs: seq<int>, C: nat, run: seq<seq<int>>, i: nat, p: int)
    requires C >= 1 && i < |refs| < |run| && |run[i]| <= C && InLoadOrder(refs, run, i, run[i])
    requires GoneEarlier(refs, C, run, i, run[i], p)
    ensures GoneEarlier(refs, C, run, i + 1, FifoNext(C, run[i], refs[i]), p)
  {
    var m, n := run[i], refs[i];
    FifoNextMembers(C, m, n, p);
    if n !in m && p != n {
      var kept := if |m| == C then m[1..] else m;
      assert forall a :: 0 <= a < |kept| ==> kept[a] in m && kept[a] != n;
    }
  }

  /** After every reference, FIFO holds the pages loaded last, in the order of their loads. */
  lemma {:induction false} FifoKeepsLatestLoads(refs: seq<int>, C: nat, run: seq<seq<int>>, i: nat)
    requires C >= 1 && IsRun(FIFO, refs, C, run) && i <= |refs|
    ensures ByLoad(refs, C, run, i)
  {
    if i > 0 {
      FifoKeepsLatestLoads(refs, C, run, i - 1);
      assert Step(FIFO, refs, C, i - 1, run[i - 1], run[i]);
      FifoStepIsNext(refs, C, i - 1, run[i - 1], run[i]);
      FifoNextInOrder(refs, C, run, i - 1);
      forall p
        ensures GoneEarlier(refs, C, run, i, run[i], p)
      {
        assert GoneEarlier(refs, C, run, i - 1, run[i - 1], p);
        FifoNextGone(refs, C, run, i - 1, p);
      }
    }
  }

  /** The page FIFO gives up was loaded before every other one in memory. */
  lemma FifoEvictsFirstLoaded(refs: seq<int>, C: nat, run: seq<seq<int>>, i: nat, p: int, q: int)
    requires C >= 1 && IsRun(FIFO, refs, C, run) && i < |refs|
    requires p in run[i] && p !in run[i + 1] && q in run[i] && q != p
    ensures 0 <= LastLoad(refs, run, p, i) < LastLoad(refs, run, q, i)
  {
    FifoKeepsLatestLoads(refs, C, run, i);
    assert Step(FIFO, refs, C, i, run[i], run[i + 1]);
    FifoStepIsNext(refs, C, i, run[i], run[i + 1]);
    FifoNextMembers(C, run[i], refs[i], p);
    var k :| 0 <= k < |run[i]| && run[i][k] == q;
  }

  // ---------- MRU ----------

  /** What MRU makes of its list. */
  function MruNext(C: nat, m: seq<int>, n: int): seq<int>
    requires C >= 1
  {
    (if n !in m && |m| == C then m[..|m| - 1] else Del(m, n)) + [n]
  }

  lemma MruStepIsNext(refs: seq<int>, C: nat, i: nat, m: seq<int>, m': seq<int>)
    requires C >= 1 && i < |refs| && Unique(m) && Step(MRU, refs, C, i, m, m')
    ensures m' == MruNext(C, m, refs[i])
  {
    var n := refs[i];
    if n in m {
      var k :| 0 <= k < |m| && m[k] == n && m' == Without(m, k) + [n];
      WithoutIsDel(m, k);
    } else {
      DelAbsent(m, n);
    }
  }

  lemma MruNextKeeps(C: nat, m: seq<int>, n: int, p: int)
    requires C >= 1 && p in m && p !in MruNext(C, m, n)
    ensures p == m[|m| - 1]
  {
    DelMembers(m, n);
    assert m == m[..|m| - 1] + [m[|m| - 1]];
  }

  /** MRU's list is ordered by last use as well. */
  lemma {:induction false} MruOrdered(refs: seq<int>, C: nat, run: seq<seq<int>>, i: nat)
    requires C >= 1 && IsRun(MRU, refs, C, run) && i <= |refs|
    ensures Oldest1st(refs, i, run[i])
  {
    if i > 0 {
      var m, n := run[i - 1], refs[i - 1];
      MruOrdered(refs, C, run, i - 1);
      RunStaysInCache(MRU, refs, C, run, i - 1);
      assert Step(MRU, refs, C, i - 1, m, run[i]);
      MruStepIsNext(refs, C, i - 1, m, run[i]);
      DelOrdered(refs, i - 1, m, n);
      DelMembers(m, n);
      NewestLast(refs, i - 1, if n !in m && |m| == C then m[..|m| - 1] else Del(m, n));
    }
  }

  lemma NewestLast(refs: seq<int>, i: nat, kept: seq<int>)
    requires i < |refs| && Oldest1st(refs, i, kept) && refs[i] !in kept
    ensures Oldest1st(refs, i + 1, kept + [refs[i]])
  {
    var m := kept + [refs[i]];
    forall a, b | 0 <= a < b < |m|
      ensures LastUse(refs, m[a], i + 1) < LastUse(refs, m[b], i + 1)
    {
      assert m[a] in kept;
      assert b < |kept| ==> m[b] in kept;
    }
  }

  /** The page MRU gives up was used after every other one in memory. */
  lemma MruEvictsLastUsed(refs: seq<int>, C: nat, run: seq<seq<int>>, i: nat, p: int, q: int)
    requires C >= 1 && IsRun(MRU, refs, C, run) && i < |refs|
    requires p in run[i] && p !in run[i + 1] && q in run[i] && q != p
    ensures LastUse(refs, q, i) < LastUse(refs, p, i)
  {
    MruOrdered(refs, C, run, i);
    RunStaysInCache(MRU, refs, C, run, i);
    assert Step(MRU, refs, C, i, run[i], run[i + 1]);
    MruStepIsNext(refs, C, i, run[i], run[i + 1]);
    MruNextKeeps(C, run[i], refs[i], p);
    var k :| 0 <= k < |run[i]| && run[i][k] == q;
  }

  // ---------- UNOPT is pessimal ----------

  /** A policy's cache: at a miss it gives up one page, and only when full. */
  ghost predicate Demands(r: int, C: nat, T: set<int>, T': set<int>) {
    if r in T then T' == T
    else if |T| < C then T' == T + {r}
    else exists x :: x in T && T' == T - {x} + {r}
  }

  ghost predicate DemandRun(refs: seq<int>, C: nat, run: seq<set<int>>) {
    && |run| == |refs| + 1
    && run[0] == {}
    && forall i :: 0 <= i < |refs| ==> Demands(refs[i], C, run[i], run[i + 1])
  }

  lemma StepDemands(policy: Policy, refs: seq<int>, C: nat, i: nat, m: seq<int>, m': seq<int>)
    requires C >= 1 && i < |refs| && Unique(m) && |m| <= C && Step(policy, refs, C, i, m, m')
    ensures Demands(refs[i], C, Pages(m), Pages(m'))
  {
    var n := refs[i];
    PagesSize(m);
    if n in m {
      if policy == LRU || policy == MRU {
        var k :| 0 <= k < |m| && m[k] == n && m' == Without(m, k) + [n];
        PagesAfterEviction(m, k, n);
      }
    } else if |m| == C {
      var v :| IsVictim(policy, refs, i, m, v) && m' == Without(m, v) + [n];
      PagesAfterEviction(m, v, n);
      assert m[v] in Pages(m);
    } else {
      assert Pages(m') == Pages(m) + {n};
    }
  }

  /** Every policy's run is a demand run. */
  lemma PolicyRunDemands(policy: Policy, refs: seq<int>, C: nat, run: seq<seq<int>>)
    requires C >= 1 && IsRun(policy, refs, C, run)
    ensures DemandRun(refs, C, PageSets(run))
  {
    forall i | 0 <= i < |refs|
      ensures Demands(refs[i], C, Pages(run[i]), Pages(run[i + 1]))
    {
      RunStaysInCache(policy, refs, C, run, i);
      assert Step(policy, refs, C, i, run[i], run[i + 1]);
      StepDemands(policy, refs, C, i, run[i], run[i + 1]);
    }
    assert Pages(run[0]) == {};
  }

  /** The early pages of `T` are never more than those of `S`; before a cache is full, the two hold the same. */
  ghost predicate Later(refs: seq<int>, C: nat, S: set<int>, T: set<int>, i: nat)
    requires i <= |refs|
  {
    && |S| == |T| <= C
    && (|T| < C ==> S == T)
    && Ahead(refs, S, T, i, 0)
  }

  lemma LaterMissesToo(refs: seq<int>, C: nat, S: set<int>, T: set<int>, i: nat)
    requires i < |refs| && Later(refs, C, S, T, i)
    ensures refs[i] in T ==> refs[i] in S
  {
    EarlyNow(refs, S, i, i + 1);
    EarlyNow(refs, T, i, i + 1);
    assert EarlyRest(refs, S, i, i + 1) == {} && EarlyRest(refs, T, i, i + 1) == {};
  }

  /** At a miss of a full cache, UNOPT gives up an early page if it has one. */
  lemma UnoptLosesEarly(refs: seq<int>, C: nat, m: seq<int>, m': seq<int>, i: nat, t: int)
    requires i < t <= |refs| && C >= 1 && Unique(m) && |m| == C && refs[i] !in m && Step(UNOPT, refs, C, i, m, m')
    ensures var u := |EarlyRest(refs, Pages(m), i, t)|;
            |EarlyRest(refs, Pages(m'), i, t)| == if u == 0 then 0 else u - 1
  {
    var v :| IsVictim(UNOPT, refs, i, m, v) && m' == Without(m, v) + [refs[i]];
    EarlyRestWithout(refs, m, v, i, t);
    UnoptVictimIsEarly(refs, m, v, i, t);
  }

  lemma UnoptVictimIsEarly(refs: seq<int>, m: seq<int>, v: int, i: nat, t: int)
    requires i < t <= |refs| && refs[i] !in m && IsVictim(UNOPT, refs, i, m, v)
    ensures EarlyRest(refs, Pages(m), i, t) != {} ==> m[v] in EarlyRest(refs, Pages(m), i, t)
  {
    var early := EarlyRest(refs, Pages(m), i, t);
    if early != {} {
      var p :| p in early;
      var k :| 0 <= k < |m| && m[k] == p;
      assert NextUse(refs, m[v], i + 1) <= NextUse(refs, m[k], i + 1);
      NextUseSkip(refs, p, i);
      NextUseSkip(refs, m[v], i);
    }
  }

  /** Another cache loses one early page at most. */
  lemma DemandLosesOne(refs: seq<int>, C: nat, S: set<int>, S': set<int>, i: nat, t: int)
    requires i < t <= |refs| && Demands(refs[i], C, S, S')
    ensures |EarlyRest(refs, S', i, t)| >= |EarlyRest(refs, S, i, t)| - 1
    ensures refs[i] in S || |S| < C ==> |EarlyRest(refs, S', i, t)| == |EarlyRest(refs, S, i, t)|
  {
    var r := refs[i];
    var before, after := EarlyRest(refs, S, i, t), EarlyRest(refs, S', i, t);
    if r in S || |S| < C {
      assert after == before;
    } else {
      var x :| x in S && S' == S - {x} + {r};
      assert after == before - {x};
    }
  }

  lemma DemandSize(r: int, C: nat, T: set<int>, T': set<int>)
    requires C >= 1 && |T| <= C && Demands(r, C, T, T')
    ensures |T'| == if r !in T && |T| < C then |T| + 1 else |T|
    ensures r in T'
  {
  }

  /** One reference and one horizon. */
  lemma UnoptStepAt(refs: seq<int>, C: nat, m: seq<int>, m': seq<int>, S: set<int>, S': set<int>, i: nat, t: int)
    requires i < t <= |refs| && C >= 1 && Unique(m) && |m| <= C && Step(UNOPT, refs, C, i, m, m')
    requires Demands(refs[i], C, S, S') && Later(refs, C, S, Pages(m), i)
    ensures |Early(refs, Pages(m'), i + 1, t)| <= |Early(refs, S', i + 1, t)|
  {
    var T, T', r := Pages(m), Pages(m'), refs[i];
    PagesSize(m);
    StepDemands(UNOPT, refs, C, i, m, m');
    DemandSize(r, C, T, T');
    DemandSize(r, C, S, S');
    EarlyNow(refs, S, i, t);
    EarlyNow(refs, T, i, t);
    EarlyNext(refs, S', i, t);
    EarlyNext(refs, T', i, t);
    DemandLosesOne(refs, C, S, S', i, t);
    DemandLosesOne(refs, C, T, T', i, t);
    LaterMissesToo(refs, C, S, T, i);
    if r !in m && |m| == C {
      UnoptLosesEarly(refs, C, m, m', i, t);
    }
  }

  /** One reference: UNOPT's pages stay the later ones. */
  lemma UnoptStep(refs: seq<int>, C: nat, m: seq<int>, m': seq<int>, S: set<int>, S': set<int>, i: nat)
    requires i < |refs| && C >= 1 && Unique(m) && |m| <= C && Step(UNOPT, refs, C, i, m, m')
    requires Demands(refs[i], C, S, S') && Later(refs, C, S, Pages(m), i)
    ensures Later(refs, C, S', Pages(m'), i + 1)
  {
    var T, T', r := Pages(m), Pages(m'), refs[i];
    forall t {:trigger Early(refs, T', i + 1, t)} | i + 1 <= t <= |refs|
      ensures |Early(refs, T', i + 1, t)| <= |Early(refs, S', i + 1, t)| + 0
    {
      UnoptStepAt(refs, C, m, m', S, S', i, t);
    }
    PagesSize(m);
    StepDemands(UNOPT, refs, C, i, m, m');
    DemandSize(r, C, T, T');
    DemandSize(r, C, S, S');
    LaterMissesToo(refs, C, S, T, i);
  }

  lemma {:induction false} UnoptFallsBehind(refs: seq<int>, C: nat, unopt: seq<seq<int>>, other: seq<set<int>>, i: nat)
    requires C >= 1 && IsRun(UNOPT, refs, C, unopt) && DemandRun(refs, C, other)
    requires i <= |refs| && Later(refs, C, other[i], Pages(unopt[i]), i)
    ensures Misses(refs, other, i) <= Misses(refs, PageSets(unopt), i)
    decreases |refs| - i
  {
    if i < |refs| {
      RunStaysInCache(UNOPT, refs, C, unopt, i);
      assert Step(UNOPT, refs, C, i, unopt[i], unopt[i + 1]) && Demands(refs[i], C, other[i], other[i + 1]);
      UnoptStep(refs, C, unopt[i], unopt[i + 1], other[i], other[i + 1], i);
      LaterMissesToo(refs, C, other[i], Pages(unopt[i]), i);
      UnoptFallsBehind(refs, C, unopt, other, i + 1);
    }
  }

  /** No demand run of a cache of the same size misses more often than UNOPT. */
  lemma UnoptIsPessimal(refs: seq<int>, C: nat, unopt: seq<seq<int>>, other: seq<set<int>>)
    requires C >= 1 && IsRun(UNOPT, refs, C, unopt) && DemandRun(refs, C, other)
    ensures Misses(refs, other, 0) <= Misses(refs, PageSets(unopt), 0)
  {
    assert Pages(unopt[0]) == {} == other[0];
    UnoptFallsBehind(refs, C, unopt, other, 0);
  }

  /** Hence no policy does. */
  lemma EveryPolicyBeatsUnopt(refs: seq<int>, C: nat, unopt: seq<seq<int>>, policy: Policy, run: seq<seq<int>>)
    requires C >= 1 && IsRun(UNOPT, refs, C, unopt) && IsRun(policy, refs, C, run)
    ensures Misses(refs, PageSets(run), 0) <= Misses(refs, PageSets(unopt), 0)
  {
    PolicyRunDemands(policy, refs, C, run);
    UnoptIsPessimal(refs, C, unopt, PageSets(run));
  }
}
