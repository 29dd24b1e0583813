/**
 CLOCK in paging-policy.py: its scan ends whatever pages are drawn, the victim is the first page drawn more often than
 its count, and the counts are those of the pages in memory, within the limit the clock bits set.
 */
module PageClock {
  import opened Arith
  import opened Collections
  import opened PagePolicy

  // ---------- One scan ----------

  function TimesDrawn(draws: seq<nat>, k: nat): nat {
    multiset(draws)[k]
  }

  /** The counts left when each page has lost one for each time it was drawn. */
  ghost predicate Spent(memory: seq<int>, ref: map<int, int>, draws: seq<nat>, left: map<int, int>) {
    && left.Keys == ref.Keys && AllCounted(memory, ref)
    && (forall k: nat :: k < |memory| ==> left[memory[k]] == ref[memory[k]] - TimesDrawn(draws, k))
    && (forall p :: p in ref && p !in memory ==> left[p] == ref[p])
  }

  ghost predicate NoneOver(memory: seq<int>, ref: map<int, int>, draws: seq<nat>) {
    forall k: nat :: k < |memory| ==> TimesDrawn(draws, k) <= CountOf(ref, memory[k])
  }

  /** A scan goes on exactly as long as no page was drawn more often than its count. */
  lemma {:induction false} ScanLooks(memory: seq<int>, ref: map<int, int>, draws: seq<nat>)
    requires Drawn(memory, draws) && AllCounted(memory, ref) && Unique(memory)
    ensures Scanned(memory, ref, draws).Looking? <==> NoneOver(memory, ref, draws)
    ensures Scanned(memory, ref, draws).Looking? ==> Spent(memory, ref, draws, Scanned(memory, ref, draws).ref)
    decreases |draws|
  {
    if draws != [] {
      var before, k := draws[..|draws| - 1], draws[|draws| - 1];
      assert draws == before + [k];
      ScanLooks(memory, ref, before);
      ScanOn(memory, ref, before, k);
      assert multiset(draws) == multiset(before) + multiset{k};
      if Scanned(memory, ref, before).Found? {
        var j: nat :| j < |memory| && TimesDrawn(before, j) > CountOf(ref, memory[j]);
        assert TimesDrawn(draws, j) > CountOf(ref, memory[j]);
      }
    }
  }

  /** The victim is the first page drawn more often than its count: once more. */
  lemma {:induction false} VictimIsFirstOver(memory: seq<int>, ref: map<int, int>, draws: seq<nat>)
    requires Drawn(memory, draws) && AllCounted(memory, ref) && Unique(memory)
    requires Scanned(memory, ref, draws).Found?
    ensures var v := Scanned(memory, ref, draws).v;
            exists j :: 0 <= j < |draws| && draws[j] == v
                        && NoneOver(memory, ref, draws[..j]) && TimesDrawn(draws[..j], v) == CountOf(ref, memory[v])
                        && Spent(memory, ref, draws[..j], Scanned(memory, ref, draws).ref)
    decreases |draws|
  {
    var before, k := draws[..|draws| - 1], draws[|draws| - 1];
    assert draws == before + [k];
    ScanOn(memory, ref, before, k);
    if Scanned(memory, ref, before).Found? {
      VictimIsFirstOver(memory, ref, before);
      var v := Scanned(memory, ref, before).v;
      var j :| 0 <= j < |before| && before[j] == v
               && NoneOver(memory, ref, before[..j]) && TimesDrawn(before[..j], v) == CountOf(ref, memory[v])
               && Spent(memory, ref, before[..j], Scanned(memory, ref, before).ref);
      assert draws[..j] == before[..j] && draws[j] == v;
    } else {
      ScanLooks(memory, ref, before);
      assert draws[..|before|] == before;
    }
  }

  /** After that many draws, whichever they are, the scan has ended. */
  lemma {:induction false} ScanEnds(memory: seq<int>, ref: map<int, int>, draws: seq<nat>)
    requires Drawn(memory, draws) && AllCounted(memory, ref) && Unique(memory)
    ensures |draws| > CountLeft(memory, ref) ==> Scanned(memory, ref, draws).Found?
    decreases |draws|
  {
    if draws != [] && ref[memory[draws[0]]] >= 1 {
      var page := memory[draws[0]];
      OneCountLess(memory, ref, draws[0]);
      ScanEnds(memory, ref[page := ref[page] - 1], draws[1..]);
    }
  }

  /** Any page may be the victim: drawn often enough before the others, it goes. */
  lemma {:induction false} AnyPageMayGo(memory: seq<int>, ref: map<int, int>, v: nat)
    requires v < |memory| && AllCounted(memory, ref)
    ensures exists left :: Scans(memory, ref, v, left)
    decreases CountOf(ref, memory[v])
  {
    var page := memory[v];
    if ref[page] >= 1 {
      var less := ref[page := ref[page] - 1];
      AnyPageMayGo(memory, less, v);
      var left :| Scans(memory, less, v, left);
      var draws :| Drawn(memory, draws) && Scanned(memory, less, draws) == Found(v, left);
      assert ([v] + draws)[1..] == draws;
      assert Scanned(memory, ref, [v] + draws) == Found(v, left);
      assert Scans(memory, ref, v, left);
    } else {
      assert Scanned(memory, ref, [v]) == Found(v, ref);
      assert Scans(memory, ref, v, ref);
    }
  }

  // ---------- Runs ----------

  /** The first reference counts one, whatever the limit. */
  function Top(bits: int): nat { if bits > 1 then bits else 1 }

  function Bottom(bits: int): int { if bits < 0 then bits else 0 }

  /** The counts are those of the pages in memory. */
  ghost predicate Tallied(bits: int, m: seq<int>, ref: map<int, int>) {
    && ref.Keys == Pages(m)
    && forall p :: p in ref ==> Bottom(bits) <= ref[p] <= Top(bits)
  }

  lemma {:induction false} DrawsTallied(bits: int, m: seq<int>, ref: map<int, int>, draws: seq<nat>)
    requires Tallied(bits, m, ref) && AllCounted(m, ref) && Drawn(m, draws)
    ensures Tallied(bits, m, Scanned(m, ref, draws).ref)
    decreases |draws|
  {
    if draws != [] && ref[m[draws[0]]] >= 1 {
      var page := m[draws[0]];
      DrawsTallied(bits, m, ref[page := ref[page] - 1], draws[1..]);
    }
  }

  lemma ScanTallied(bits: int, m: seq<int>, ref: map<int, int>, v: int, left: map<int, int>)
    requires Tallied(bits, m, ref) && AllCounted(m, ref) && Scans(m, ref, v, left)
    ensures Tallied(bits, m, left)
  {
    var draws :| Drawn(m, draws) && Scanned(m, ref, draws) == Found(v, left);
    DrawsTallied(bits, m, ref, draws);
  }

  lemma CountTallied(bits: int, m: seq<int>, ref: map<int, int>, n: int)
    requires Tallied(bits, m, ref)
    ensures n in Counted(ref, n, bits) && (bits >= 1 ==> Counted(ref, n, bits)[n] >= 1)
    ensures Tallied(bits, if n in m then m else m + [n], Counted(ref, n, bits))
  {
    assert Pages(if n in m then m else m + [n]) == Pages(m) + {n};
  }

  lemma DropTallied(bits: int, m: seq<int>, ref: map<int, int>, v: nat)
    requires Unique(m) && v < |m| && Tallied(bits, m, ref)
    ensures Tallied(bits, Without(m, v), ref - {m[v]})
  {
    assert Pages(Without(m, v)) == Pages(m) - {m[v]};
  }

  lemma StepTallied(bits: int, refs: seq<int>, C: nat, i: nat, m: seq<int>, ref: map<int, int>, m': seq<int>,
                    ref': map<int, int>)
    requires i < |refs| && Unique(m) && Tallied(bits, m, ref)
    requires ClockStep(bits, refs, C, i, m, ref, m', ref')
    ensures Tallied(bits, m', ref') && refs[i] in ref' && (bits >= 1 ==> ref'[refs[i]] >= 1)
  {
    var n := refs[i];
    if n !in m && |m| == C {
      var v, left :| Scans(m, ref, v, left) && m' == Without(m, v) + [n] && ref' == Counted(left - {m[v]}, n, bits);
      ScanTallied(bits, m, ref, v, left);
      DropTallied(bits, m, left, v);
      CountTallied(bits, Without(m, v), left - {m[v]}, n);
    } else {
      CountTallied(bits, m, ref, n);
    }
  }

  /** A run of CLOCK is one of the runs in which any page may go. */
  lemma ClockRunIsRun(bits: int, refs: seq<int>, C: nat, run: seq<seq<int>>, counts: seq<map<int, int>>)
    requires IsClockRun(bits, refs, C, run, counts)
    ensures IsRun(CLOCK, refs, C, run)
  {
    forall i | 0 <= i < |refs|
      ensures Step(CLOCK, refs, C, i, run[i], run[i + 1])
    {
      assert ClockStep(bits, refs, C, i, run[i], counts[i], run[i + 1], counts[i + 1]);
    }
  }

  /** Throughout a run exactly the pages in memory have counts, within the limit, and the page referenced last has at
      least one unless the limit is less. */
  lemma {:induction false} CountsAre(bits: int, refs: seq<int>, C: nat, run: seq<seq<int>>, counts: seq<map<int, int>>,
                                     i: nat)
    requires C >= 1 && IsClockRun(bits, refs, C, run, counts) && i <= |refs|
    ensures Tallied(bits, run[i], counts[i])
    ensures i > 0 ==> refs[i - 1] in counts[i] && (bits >= 1 ==> counts[i][refs[i - 1]] >= 1)
  {
    if i > 0 {
      CountsAre(bits, refs, C, run, counts, i - 1);
      ClockRunIsRun(bits, refs, C, run, counts);
      RunStaysInCache(CLOCK, refs, C, run, i - 1);
      assert ClockStep(bits, refs, C, i - 1, run[i - 1], counts[i - 1], run[i], counts[i]);
      StepTallied(bits, refs, C, i - 1, run[i - 1], counts[i - 1], run[i], counts[i]);
    }
  }

  /** How often the first i references name a page. */
  function Uses(refs: seq<int>, p: int, i: nat): nat
    requires i <= |refs|
  {
    if i == 0 then 0 else Uses(refs, p, i - 1) + Bit(refs[i - 1] == p)
  }

  /** The count n references make. */
  function CountFor(n: nat, bits: int): int { if n > 1 && n > bits then bits else n }

  /** No count is more than the uses of the page, nor, if exact, less than them up to the limit. */
  ghost predicate CountsUses(bits: int, refs: seq<int>, i: nat, ref: map<int, int>, exact: bool)
    requires i <= |refs|
  {
    forall p :: p in ref ==>
      && ref[p] <= Uses(refs, p, i)
      && (exact ==> Uses(refs, p, i) >= 1 && ref[p] == CountFor(Uses(refs, p, i), bits))
  }

  ghost predicate OthersUnused(refs: seq<int>, i: nat, ref: map<int, int>)
    requires i <= |refs|
  {
    forall p :: p !in ref ==> Uses(refs, p, i) == 0
  }

  lemma {:induction false} ScanOnlyLowers(m: seq<int>, ref: map<int, int>, draws: seq<nat>)
    requires AllCounted(m, ref) && Drawn(m, draws)
    ensures var left := Scanned(m, ref, draws).ref; left.Keys == ref.Keys && forall p :: p in ref ==> left[p] <= ref[p]
    decreases |draws|
  {
    if draws != [] && ref[m[draws[0]]] >= 1 {
      var page := m[draws[0]];
      ScanOnlyLowers(m, ref[page := ref[page] - 1], draws[1..]);
    }
  }

  lemma CountUses(bits: int, refs: seq<int>, i: nat, ref: map<int, int>, exact: bool)
    requires i < |refs| && CountsUses(bits, refs, i, ref, exact)
    requires exact ==> OthersUnused(refs, i, ref)
    ensures CountsUses(bits, refs, i + 1, Counted(ref, refs[i], bits), exact)
    ensures exact ==> OthersUnused(refs, i + 1, Counted(ref, refs[i], bits))
  {
  }

  /** A page's count is at most the number of its references so far, and exactly that, up to the limit, as long as the
      memory is not full. */
  lemma {:induction false} CountsAreUses(bits: int, refs: seq<int>, C: nat, run: seq<seq<int>>,
                                         counts: seq<map<int, int>>, i: nat)
    requires IsClockRun(bits, refs, C, run, counts) && i <= |refs|
    ensures CountsUses(bits, refs, i, counts[i], |run[i]| < C)
    ensures |run[i]| < C ==> OthersUnused(refs, i, counts[i])
  {
    if i > 0 {
      CountsAreUses(bits, refs, C, run, counts, i - 1);
      var m, ref, n := run[i - 1], counts[i - 1], refs[i - 1];
      assert ClockStep(bits, refs, C, i - 1, m, ref, run[i], counts[i]);
      if n !in m && |m| == C {
        var v, left :| Scans(m, ref, v, left) && run[i] == Without(m, v) + [n]
                       && counts[i] == Counted(left - {m[v]}, n, bits);
        var draws :| Drawn(m, draws) && Scanned(m, ref, draws) == Found(v, left);
        ScanOnlyLowers(m, ref, draws);
        CountUses(bits, refs, i - 1, left - {m[v]}, false);
      } else {
        CountUses(bits, refs, i - 1, ref, |run[i]| < C);
      }
    }
  }

  lemma {:induction false} CountLeftAtMost(bits: nat, m: seq<int>, ref: map<int, int>)
    requires forall p :: p in ref ==> ref[p] <= bits
    ensures CountLeft(m, ref) <= Times(|m|, bits)
  {
    if m != [] {
      CountLeftAtMost(bits, m[1..], ref);
    }
  }

  /** So no scan of a run draws more than the limit times the cache size before its last draw. */
  lemma ScansAreShort(bits: int, refs: seq<int>, C: nat, run: seq<seq<int>>, counts: seq<map<int, int>>, i: nat,
                      draws: seq<nat>)
    requires C >= 1 && IsClockRun(bits, refs, C, run, counts) && i < |refs|
    requires Drawn(run[i], draws) && |draws| > Times(|run[i]|, Top(bits))
    ensures AllCounted(run[i], counts[i]) && Scanned(run[i], counts[i], draws).Found?
  {
    CountsAre(bits, refs, C, run, counts, i);
    ClockRunIsRun(bits, refs, C, run, counts);
    RunStaysInCache(CLOCK, refs, C, run, i);
    CountLeftAtMost(Top(bits), run[i], counts[i]);
    assert AllCounted(run[i], counts[i]);
    ScanEnds(run[i], counts[i], draws);
  }
}
