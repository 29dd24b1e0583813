/**
 The policies of scheduler.py: run times are real numbers. Shortest-first has the least total turnaround of
 all orders; in round robin every job's turnaround is its wait and its run time, and the last job is done
 when the sum of the run times has passed. Response times in round robin and the printed trace are left out.
 */
module JobOrder {
  import opened Collections

  datatype Job = Job(num: nat, len: real)

  // ---------- Running in order ----------

  /** The sum of the turnaround times of jobs run one after the other from time t. */
  function Turnaround(jobs: seq<Job>, t: real): real {
    if jobs == [] then 0.0 else (t + jobs[0].len) + Turnaround(jobs[1..], t + jobs[0].len)
  }

  /** The sum of the times at which they start: their responses, and their waits. */
  function Starts(jobs: seq<Job>, t: real): real {
    if jobs == [] then 0.0 else t + Starts(jobs[1..], t + jobs[0].len)
  }

  function Length(jobs: seq<Job>): real {
    if jobs == [] then 0.0 else jobs[0].len + Length(jobs[1..])
  }

  /** Turnaround is wait and run time. */
  lemma {:induction false} TurnaroundIsWaitAndRun(jobs: seq<Job>, t: real)
    ensures Turnaround(jobs, t) == Starts(jobs, t) + Length(jobs)
  {
    if jobs != [] {
      TurnaroundIsWaitAndRun(jobs[1..], t + jobs[0].len);
    }
  }

  predicate Ascending(jobs: seq<Job>) {
    forall i, j :: 0 <= i < j < |jobs| ==> jobs[i].len <= jobs[j].len
  }

  /** Job k moved to the front. */
  function ToFront(jobs: seq<Job>, k: nat): seq<Job>
    requires k < |jobs|
  {
    [jobs[k]] + (jobs[..k] + jobs[k + 1..])
  }

  /** Two neighbours, the shorter first. */
  lemma SwapNeighbours(x: Job, y: Job, rest: seq<Job>, t: real)
    requires y.len <= x.len
    ensures Turnaround([y, x] + rest, t) <= Turnaround([x, y] + rest, t)
  {
    assert ([y, x] + rest)[1..] == [x] + rest && ([x] + rest)[1..] == rest;
    assert ([x, y] + rest)[1..] == [y] + rest && ([y] + rest)[1..] == rest;
  }

  /** Moving a job before longer ones costs nothing. */
  lemma {:induction false} FrontIsBetter(jobs: seq<Job>, k: nat, t: real)
    requires k < |jobs| && forall i :: 0 <= i < k ==> jobs[k].len <= jobs[i].len
    ensures Turnaround(ToFront(jobs, k), t) <= Turnaround(jobs, t)
  {
    if k == 0 {
      assert ToFront(jobs, 0) == jobs;
    } else {
      var x, tail := jobs[0], jobs[1..];
      FrontIsBetter(tail, k - 1, t + x.len);
      var rest := tail[..k - 1] + tail[k..];
      assert ToFront(tail, k - 1) == [jobs[k]] + rest;
      var first := [x] + ToFront(tail, k - 1);
      assert first[1..] == ToFront(tail, k - 1) && first == [x, jobs[k]] + rest;
      SwapNeighbours(x, jobs[k], rest, t);
      assert ToFront(jobs, k) == [jobs[k], x] + rest;
    }
  }

  lemma TakeOut(order: seq<Job>, k: nat)
    requires k < |order|
    ensures multiset(order) == multiset(order[..k] + order[k + 1..]) + multiset{order[k]}
  {
    assert order == order[..k] + [order[k]] + order[k + 1..];
  }

  lemma Cancel(a: multiset<Job>, b: multiset<Job>, x: Job)
    requires a + multiset{x} == b + multiset{x}
    ensures a == b
  {
    forall y
      ensures a[y] == b[y]
    {
      assert (a + multiset{x})[y] == (b + multiset{x})[y];
    }
  }

  /** The same jobs without the same job. */
  lemma SameRest(sjf: seq<Job>, order: seq<Job>, k: nat)
    requires sjf != [] && multiset(sjf) == multiset(order) && k < |order| && order[k] == sjf[0]
    ensures multiset(sjf[1..]) == multiset(order[..k] + order[k + 1..])
  {
    TakeOut(order, k);
    TakeOut(sjf, 0);
    assert sjf[..0] + sjf[1..] == sjf[1..];
    Cancel(multiset(sjf[1..]), multiset(order[..k] + order[k + 1..]), sjf[0]);
  }

  /** Shortest-first has the least total turnaround of all orders of the same jobs. */
  lemma {:induction false} ShortestFirstIsBest(sjf: seq<Job>, order: seq<Job>, t: real)
    requires Ascending(sjf) && multiset(sjf) == multiset(order)
    ensures Turnaround(sjf, t) <= Turnaround(order, t)
    decreases |sjf|
  {
    if sjf == [] {
      assert |order| == |multiset(order)| == 0;
    } else {
      var m := sjf[0];
      var k := FindJob(order, m);
      ShortestOfAll(sjf, order);
      FrontIsBetter(order, k, t);
      var rest := order[..k] + order[k + 1..];
      SameRest(sjf, order, k);
      ShortestFirstIsBest(sjf[1..], rest, t + m.len);
      assert ToFront(order, k)[1..] == rest;
    }
  }

  lemma FindJob(order: seq<Job>, m: Job) returns (k: nat)
    requires m in multiset(order)
    ensures k < |order| && order[k] == m
  {
    k :| 0 <= k < |order| && order[k] == m;
  }

  lemma ShortestOfAll(sjf: seq<Job>, order: seq<Job>)
    requires Ascending(sjf) && sjf != [] && multiset(sjf) == multiset(order)
    ensures forall i :: 0 <= i < |order| ==> sjf[0].len <= order[i].len
  {
    forall i | 0 <= i < |order|
      ensures sjf[0].len <= order[i].len
    {
      assert order[i] in multiset(sjf);
      var j :| 0 <= j < |sjf| && sjf[j] == order[i];
    }
  }

  // ---------- Sorting by length ----------

  function Insert(s: seq<Job>, x: Job): seq<Job> {
    if s == [] || x.len <= s[0].len then [x] + s else [s[0]] + Insert(s[1..], x)
  }

  /** The library's sort by length. */
  function ByLength(s: seq<Job>): seq<Job> {
    if s == [] then [] else Insert(ByLength(s[1..]), s[0])
  }

  lemma {:induction false} InsertSorts(s: seq<Job>, x: Job)
    requires Ascending(s)
    ensures Ascending(Insert(s, x)) && multiset(Insert(s, x)) == multiset(s) + multiset{x}
  {
    if s == [] || x.len <= s[0].len {
      PrependShortest(s, x);
    } else {
      InsertSorts(s[1..], x);
      assert s == [s[0]] + s[1..];
      NoneShorter(Insert(s[1..], x), s[1..], x, s[0]);
      PrependShortest(Insert(s[1..], x), s[0]);
    }
  }

  lemma NoneShorter(t: seq<Job>, s: seq<Job>, x: Job, y: Job)
    requires multiset(t) == multiset(s) + multiset{x} && y.len <= x.len
    requires forall i :: 0 <= i < |s| ==> y.len <= s[i].len
    ensures forall i :: 0 <= i < |t| ==> y.len <= t[i].len
  {
    forall i | 0 <= i < |t|
      ensures y.len <= t[i].len
    {
      Member(t, s, x, i);
    }
  }

  lemma PrependShortest(t: seq<Job>, x: Job)
    requires Ascending(t) && forall i :: 0 <= i < |t| ==> x.len <= t[i].len
    ensures Ascending([x] + t) && multiset([x] + t) == multiset(t) + multiset{x}
  {
  }

  lemma {:induction false} ByLengthSorts(s: seq<Job>)
    ensures Ascending(ByLength(s)) && multiset(ByLength(s)) == multiset(s)
  {
    if s != [] {
      ByLengthSorts(s[1..]);
      InsertSorts(ByLength(s[1..]), s[0]);
      assert s == [s[0]] + s[1..];
    }
  }

  /** The sums of the final statistics. */
  method Fifo(joblist: seq<Job>) returns (turnaroundSum: real, waitSum: real, t: real)
    ensures turnaroundSum == Turnaround(joblist, 0.0) && waitSum == Starts(joblist, 0.0) && t == Length(joblist)
  {
    turnaroundSum, waitSum, t := 0.0, 0.0, 0.0;
    for i := 0 to |joblist|
      invariant turnaroundSum + Turnaround(joblist[i..], t) == Turnaround(joblist, 0.0)
      invariant waitSum + Starts(joblist[i..], t) == Starts(joblist, 0.0)
      invariant t + Length(joblist[i..]) == Length(joblist)
    {
      assert joblist[i..][0] == joblist[i] && joblist[i..][1..] == joblist[i + 1..];
      turnaroundSum := turnaroundSum + (t + joblist[i].len);
      waitSum := waitSum + t;
      t := t + joblist[i].len;
    }
  }

  /** Shortest job first: no order of the jobs does better. */
  method Sjf(joblist: seq<Job>) returns (turnaroundSum: real)
    ensures forall order: seq<Job> :: multiset(order) == multiset(joblist) ==> turnaroundSum <= Turnaround(order, 0.0)
    ensures exists order: seq<Job> :: multiset(order) == multiset(joblist) && turnaroundSum == Turnaround(order, 0.0)
  {
    var sorted := ByLength(joblist);
    ByLengthSorts(joblist);
    var waitSum, t;
    turnaroundSum, waitSum, t := Fifo(sorted);
    forall order: seq<Job> | multiset(order) == multiset(joblist)
      ensures turnaroundSum <= Turnaround(order, 0.0)
    {
      ShortestFirstIsBest(sorted, order, 0.0);
    }
  }

  // ---------- Round robin ----------

  function Sum(s: seq<real>): real {
    if s == [] then 0.0 else s[0] + Sum(s[1..])
  }

  lemma {:induction false} SumUpdate(s: seq<real>, i: nat, x: real)
    requires i < |s|
    ensures Sum(s[i := x]) == Sum(s) - s[i] + x
  {
    if i == 0 {
      assert s[i := x][1..] == s[1..];
    } else {
      assert s[i := x][1..] == s[1..][i - 1 := x];
      SumUpdate(s[1..], i - 1, x);
    }
  }

  lemma {:induction false} SumZero(s: seq<real>)
    requires forall i :: 0 <= i < |s| ==> s[i] == 0.0
    ensures Sum(s) == 0.0
  {
    if s != [] {
      SumZero(s[1..]);
    }
  }

  function Lengths(jobs: seq<Job>): (r: seq<real>)
    ensures |r| == |jobs| && forall i :: 0 <= i < |r| ==> r[i] == jobs[i].len
  {
    seq(|jobs|, i requires 0 <= i < |jobs| => jobs[i].len)
  }

  /** Jobs are numbered by their place. */
  predicate Numbered(jobs: seq<Job>) {
    forall i :: 0 <= i < |jobs| ==> jobs[i].num == i
  }

  /** A job's clock: what it waited and what it ran add up to when it last ran. */
  predicate ClockOk(jobs: seq<Job>, left: seq<real>, wait: seq<real>, lastran: seq<real>, i: nat)
    requires i < |jobs| == |left| == |wait| == |lastran|
  {
    wait[i] + (jobs[i].len - left[i]) == lastran[i]
  }

  /** A job is on the list, with what is left of it, or done. */
  predicate PlaceOk(jobs: seq<Job>, runlist: seq<Job>, left: seq<real>, lastran: seq<real>, turnaround: seq<real>,
                    i: nat)
    requires i < |jobs| == |left| == |lastran| == |turnaround|
  {
    Job(i, left[i]) in runlist || (left[i] == 0.0 && turnaround[i] == lastran[i])
  }

  predicate Distinct(runlist: seq<Job>) {
    forall i, j :: 0 <= i < j < |runlist| ==> runlist[i].num != runlist[j].num
  }

  predicate EntryOk(left: seq<real>, x: Job) {
    x.num < |left| && x.len == left[x.num]
  }

  /** The state of the loop, and what is left of each job. */
  datatype Round = Round(runlist: seq<Job>, left: seq<real>, wait: seq<real>, lastran: seq<real>, turnaround: seq<real>,
                         time: real)

  predicate Sizes(jobs: seq<Job>, r: Round) {
    |r.left| == |r.wait| == |r.lastran| == |r.turnaround| == |jobs|
  }

  predicate RoundOk(jobs: seq<Job>, r: Round) {
    && Sizes(jobs, r)
    && Distinct(r.runlist) && (forall k :: 0 <= k < |r.runlist| ==> EntryOk(r.left, r.runlist[k]))
    && (forall i: nat :: i < |jobs| ==> ClockOk(jobs, r.left, r.wait, r.lastran, i))
    && (forall i: nat :: i < |jobs| ==> PlaceOk(jobs, r.runlist, r.left, r.lastran, r.turnaround, i))
    && r.time == Sum(Lengths(jobs)) - Sum(r.left)
  }

  /** The head of the list runs for a slice, or to its end. */
  function NextRound(jobs: seq<Job>, r: Round, quantum: real): Round
    requires Sizes(jobs, r) && r.runlist != [] && r.runlist[0].num < |jobs|
  {
    var x := r.runlist[0];
    var more, ran := x.len > quantum, if x.len > quantum then quantum else x.len;
    var now := r.time + ran;
    Round(if more then r.runlist[1..] + [Job(x.num, x.len - quantum)] else r.runlist[1..],
          r.left[x.num := x.len - ran], r.wait[x.num := r.wait[x.num] + (r.time - r.lastran[x.num])],
          r.lastran[x.num := now], if more then r.turnaround else r.turnaround[x.num := now], now)
  }

  lemma HeadKnown(jobs: seq<Job>, r: Round)
    requires RoundOk(jobs, r) && r.runlist != []
    ensures r.runlist[0].num < |jobs| && r.runlist[0].len == r.left[r.runlist[0].num]
  {
    assert EntryOk(r.left, r.runlist[0]);
  }

  lemma NextClock(jobs: seq<Job>, r: Round, quantum: real, i: nat)
    requires Sizes(jobs, r) && r.runlist != [] && EntryOk(r.left, r.runlist[0]) && i < |jobs|
    requires ClockOk(jobs, r.left, r.wait, r.lastran, i)
    ensures var t := NextRound(jobs, r, quantum); ClockOk(jobs, t.left, t.wait, t.lastran, i)
  {
  }

  lemma NextEntry(jobs: seq<Job>, r: Round, quantum: real, k: nat)
    requires RoundOk(jobs, r) && r.runlist != [] && r.runlist[0].num < |jobs|
             && k < |NextRound(jobs, r, quantum).runlist|
    ensures EntryOk(NextRound(jobs, r, quantum).left, NextRound(jobs, r, quantum).runlist[k])
  {
    var t := NextRound(jobs, r, quantum);
    if k < |r.runlist| - 1 {
      assert t.runlist[k] == r.runlist[k + 1];
      assert EntryOk(r.left, r.runlist[k + 1]);
    }
  }

  lemma RoundKeeps(jobs: seq<Job>, r: Round, quantum: real)
    requires RoundOk(jobs, r) && r.runlist != []
    ensures r.runlist[0].num < |jobs| && RoundOk(jobs, NextRound(jobs, r, quantum))
  {
    HeadKnown(jobs, r);
    var x, t := r.runlist[0], NextRound(jobs, r, quantum);
    SumUpdate(r.left, x.num, t.left[x.num]);
    RunDistinct(r.runlist, x.len - quantum);
    forall i: nat | i < |jobs|
      ensures ClockOk(jobs, t.left, t.wait, t.lastran, i)
      ensures PlaceOk(jobs, t.runlist, t.left, t.lastran, t.turnaround, i)
    {
      assert ClockOk(jobs, r.left, r.wait, r.lastran, i)
             && PlaceOk(jobs, r.runlist, r.left, r.lastran, r.turnaround, i);
      NextClock(jobs, r, quantum, i);
      RunPlace(jobs, r.runlist, r.left, r.lastran, r.turnaround, quantum, t.time, i);
    }
    forall k | 0 <= k < |t.runlist|
      ensures EntryOk(t.left, t.runlist[k])
    {
      NextEntry(jobs, r, quantum, k);
    }
  }

  lemma RunDistinct(runlist: seq<Job>, rest: real)
    requires Distinct(runlist) && runlist != []
    ensures Distinct(runlist[1..]) && Distinct(runlist[1..] + [Job(runlist[0].num, rest)])
  {
  }

  lemma RunPlace(jobs: seq<Job>, runlist: seq<Job>, left: seq<real>, lastran: seq<real>, turnaround: seq<real>,
                 quantum: real, now: real, i: nat)
    requires i < |jobs| == |left| == |lastran| == |turnaround| && runlist != [] && EntryOk(left, runlist[0])
    requires PlaceOk(jobs, runlist, left, lastran, turnaround, i)
    ensures var x := runlist[0];
            var more, ran := x.len > quantum, if x.len > quantum then quantum else x.len;
            PlaceOk(jobs, if more then runlist[1..] + [Job(x.num, x.len - quantum)] else runlist[1..],
                    left[x.num := x.len - ran], lastran[x.num := now],
                    if more then turnaround else turnaround[x.num := now], i)
  {
    var x, tail := runlist[0], runlist[1..];
    var back := Job(x.num, x.len - quantum);
    assert (tail + [back])[|tail|] == back;
    if i != x.num && Job(i, left[i]) in runlist {
      var k :| 0 <= k < |runlist| && runlist[k] == Job(i, left[i]);
      assert tail[k - 1] == runlist[k] && (tail + [back])[k - 1] == runlist[k];
    }
  }

  lemma OneSliceLess(len: real, quantum: real)
    requires quantum > 0.0 && len > quantum
    ensures len - quantum > 0.0 && (len - quantum) / quantum == len / quantum - 1.0 && len / quantum >= 0.0
  {
    var a, b := len / quantum, (len - quantum) / quantum;
    assert a * quantum == len && b * quantum == len - quantum;
    assert (a - 1.0) * quantum == a * quantum - quantum;
    SameFactor(b, a - 1.0, quantum);
  }

  lemma SameFactor(a: real, b: real, q: real)
    requires q > 0.0 && a * q == b * q
    ensures a == b
  {
    assert (a - b) * q == 0.0;
  }

  /** The slices a job uses up before its last. */
  function Turns(len: real, quantum: real): nat
    requires quantum > 0.0
    decreases len / quantum
  {
    if len <= quantum then 0
    else
      OneSliceLess(len, quantum);
      1 + Turns(len - quantum, quantum)
  }

  function AllTurns(runlist: seq<Job>, quantum: real): nat
    requires quantum > 0.0
  {
    if runlist == [] then 0 else Turns(runlist[0].len, quantum) + AllTurns(runlist[1..], quantum)
  }

  lemma {:induction false} TurnsAppend(runlist: seq<Job>, x: Job, quantum: real)
    requires quantum > 0.0
    ensures AllTurns(runlist + [x], quantum) == AllTurns(runlist, quantum) + Turns(x.len, quantum)
  {
    if runlist == [] {
      assert runlist + [x] == [x] && [x][1..] == [];
    } else {
      TurnsAppend(runlist[1..], x, quantum);
      assert (runlist + [x])[1..] == runlist[1..] + [x];
    }
  }

  /** A slice used up brings the end a slice nearer. */
  lemma TurnsFall(runlist: seq<Job>, quantum: real)
    requires quantum > 0.0 && runlist != [] && runlist[0].len > quantum
    ensures AllTurns(runlist[1..] + [Job(runlist[0].num, runlist[0].len - quantum)], quantum)
         == AllTurns(runlist, quantum) - 1
  {
    var x := runlist[0];
    TurnsAppend(runlist[1..], Job(x.num, x.len - quantum), quantum);
  }

  // ---------- Round robin is fair ----------

  function Multiple(n: nat, x: real): real {
    if n == 0 then 0.0 else Multiple(n - 1, x) + x
  }

  /** A job has not waited longer, since it last ran, than the places it has come forward times a slice. */
  predicate Soon(n: nat, quantum: real, r: Round, k: nat)
    requires k < |r.runlist|
  {
    k < n && r.runlist[k].num < |r.lastran| && r.time - r.lastran[r.runlist[k].num] <= Multiple(n - 1 - k, quantum)
  }

  predicate AllSoon(n: nat, quantum: real, r: Round) {
    forall k: nat :: k < |r.runlist| ==> Soon(n, quantum, r, k)
  }

  predicate AtMost(waits: seq<real>, bound: real) {
    forall k :: 0 <= k < |waits| ==> waits[k] <= bound
  }

  /** The waits before a job's turns so far are each bounded and add up to its wait; with the turns it still needs,
      there are as many as its length asks for. */
  predicate Patient(jobs: seq<Job>, quantum: real, bound: real, r: Round, waits: seq<seq<real>>, i: nat)
    requires i < |jobs| == |r.left| == |r.wait| == |waits| && quantum > 0.0
  {
    && AtMost(waits[i], bound) && r.wait[i] == Sum(waits[i])
    && |waits[i]| == Turns(jobs[i].len, quantum) + 1
                     - if Job(i, r.left[i]) in r.runlist then Turns(r.left[i], quantum) + 1 else 0
  }

  predicate AllPatient(jobs: seq<Job>, quantum: real, r: Round, waits: seq<seq<real>>)
    requires Sizes(jobs, r) && |waits| == |jobs| && quantum > 0.0
  {
    forall i: nat :: i < |jobs| ==> Patient(jobs, quantum, Longest(|jobs|, quantum), r, waits, i)
  }

  /** The head's wait since it last ran is one more of its waits. */
  function Logged(waits: seq<seq<real>>, r: Round): seq<seq<real>>
    requires r.runlist != [] && r.runlist[0].num < |waits| == |r.lastran|
  {
    var x := r.runlist[0].num;
    waits[x := waits[x] + [r.time - r.lastran[x]]]
  }

  lemma {:induction false} SumAppend(s: seq<real>, x: real)
    ensures Sum(s + [x]) == Sum(s) + x
  {
    if s == [] {
      assert s + [x] == [x] && [x][1..] == [];
    } else {
      SumAppend(s[1..], x);
      assert (s + [x])[1..] == s[1..] + [x];
    }
  }

  lemma {:induction false} SumAtMost(s: seq<real>, bound: real)
    requires AtMost(s, bound)
    ensures Sum(s) <= Multiple(|s|, bound)
  {
    if s != [] {
      SumAtMost(s[1..], bound);
    }
  }

  /** The longest a job can wait between two turns: a slice for every other job. */
  function Longest(n: nat, quantum: real): real {
    if n == 0 then 0.0 else Multiple(n - 1, quantum)
  }

  lemma {:induction false} MultipleNonNegative(n: nat, x: real)
    requires x >= 0.0
    ensures Multiple(n, x) >= 0.0
  {
    if n > 0 {
      MultipleNonNegative(n - 1, x);
    }
  }

  lemma SoonKeeps(jobs: seq<Job>, quantum: real, r: Round, k: nat)
    requires quantum > 0.0 && RoundOk(jobs, r) && r.runlist != [] && r.runlist[0].num < |jobs|
             && AllSoon(|jobs|, quantum, r)
    requires k < |NextRound(jobs, r, quantum).runlist|
    ensures Soon(|jobs|, quantum, NextRound(jobs, r, quantum), k)
  {
    var t := NextRound(jobs, r, quantum);
    assert Soon(|jobs|, quantum, r, |r.runlist| - 1);
    if k < |r.runlist| - 1 {
      assert Soon(|jobs|, quantum, r, k + 1) && t.runlist[k] == r.runlist[k + 1];
    } else {
      MultipleNonNegative(|jobs| - 1 - k, quantum);
    }
  }

  lemma PatientKeeps(jobs: seq<Job>, quantum: real, r: Round, waits: seq<seq<real>>, i: nat)
    requires quantum > 0.0 && RoundOk(jobs, r) && r.runlist != [] && r.runlist[0].num < |jobs|
             && AllSoon(|jobs|, quantum, r)
    requires i < |jobs| == |waits| && Patient(jobs, quantum, Longest(|jobs|, quantum), r, waits, i)
    ensures var x, t := r.runlist[0], NextRound(jobs, r, quantum);
            Patient(jobs, quantum, Longest(|jobs|, quantum), t, Logged(waits, r), i)
  {
    var x, t := r.runlist[0], NextRound(jobs, r, quantum);
    assert Soon(|jobs|, quantum, r, 0) && EntryOk(r.left, x);
    if i == x.num {
      SumAppend(waits[i], r.time - r.lastran[i]);
      assert Job(i, r.left[i]) == r.runlist[0];
      if x.len > quantum {
        assert t.runlist[|t.runlist| - 1] == Job(i, t.left[i]);
      } else {
        assert forall k :: 0 <= k < |t.runlist| ==> t.runlist[k] == r.runlist[k + 1];
      }
    } else {
      StillListed(r, x.len - quantum, i);
    }
  }

  /** A job that did not run is on the list after the turn when it was before. */
  lemma StillListed(r: Round, rest: real, i: nat)
    requires r.runlist != [] && r.runlist[0].num != i && i < |r.left|
    ensures Job(i, r.left[i]) in r.runlist <==> Job(i, r.left[i]) in r.runlist[1..]
    ensures Job(i, r.left[i]) in r.runlist <==> Job(i, r.left[i]) in r.runlist[1..] + [Job(r.runlist[0].num, rest)]
  {
    assert r.runlist == [r.runlist[0]] + r.runlist[1..];
  }

  predicate FairSoFar(jobs: seq<Job>, quantum: real, r: Round, waits: seq<seq<real>>)
    requires quantum > 0.0
  {
    Sizes(jobs, r) && |waits| == |jobs| && AllSoon(|jobs|, quantum, r) && AllPatient(jobs, quantum, r, waits)
  }

  /** A turn keeps the bounds, with one more wait for the job that ran. */
  lemma TurnIsFair(jobs: seq<Job>, quantum: real, r: Round, waits: seq<seq<real>>) returns (next: seq<seq<real>>)
    requires quantum > 0.0 && RoundOk(jobs, r) && r.runlist != [] && FairSoFar(jobs, quantum, r, waits)
    ensures r.runlist[0].num < |jobs| && next == Logged(waits, r)
    ensures FairSoFar(jobs, quantum, NextRound(jobs, r, quantum), next)
  {
    HeadKnown(jobs, r);
    var x, t := r.runlist[0], NextRound(jobs, r, quantum);
    next := Logged(waits, r);
    forall k: nat | k < |t.runlist|
      ensures Soon(|jobs|, quantum, t, k)
    {
      SoonKeeps(jobs, quantum, r, k);
    }
    forall i: nat | i < |jobs|
      ensures Patient(jobs, quantum, Longest(|jobs|, quantum), t, next, i)
    {
      PatientKeeps(jobs, quantum, r, waits, i);
    }
  }

  /** All that a turn keeps, and how it brings the end nearer. */
  lemma OneTurn(jobs: seq<Job>, quantum: real, r: Round, waits: seq<seq<real>>) returns (next: seq<seq<real>>)
    requires quantum > 0.0 && RoundOk(jobs, r) && r.runlist != [] && FairSoFar(jobs, quantum, r, waits)
    ensures r.runlist[0].num < |jobs|
    ensures var t := NextRound(jobs, r, quantum);
            && RoundOk(jobs, t) && FairSoFar(jobs, quantum, t, next)
            && (if r.runlist[0].len > quantum then
                  |t.runlist| == |r.runlist| && AllTurns(t.runlist, quantum) < AllTurns(r.runlist, quantum)
                else |t.runlist| == |r.runlist| - 1)
  {
    RoundKeeps(jobs, r, quantum);
    next := TurnIsFair(jobs, quantum, r, waits);
    if r.runlist[0].len > quantum {
      TurnsFall(r.runlist, quantum);
    }
  }

  function Reals(n: nat): (r: seq<real>)
    ensures |r| == n && forall i :: 0 <= i < n ==> r[i] == 0.0
  {
    seq(n, _ => 0.0)
  }

  /** One turn of the loop: the head of the list runs. */
  method RunHead(joblist: seq<Job>, r: Round, quantum: real) returns (t: Round, done: bool)
    requires RoundOk(joblist, r) && r.runlist != []
    ensures r.runlist[0].num < |joblist| && t == NextRound(joblist, r, quantum)
            && (done <==> r.runlist[0].len <= quantum)
  {
    HeadKnown(joblist, r);
    var job, runlist := r.runlist[0], r.runlist[1..];
    var wait := r.wait[job.num := r.wait[job.num] + (r.time - r.lastran[job.num])];
    var ranfor, turnaround := job.len, r.turnaround;
    if job.len > quantum {
      ranfor := quantum;
      runlist := runlist + [Job(job.num, job.len - quantum)];
      done := false;
    } else {
      turnaround := turnaround[job.num := r.time + ranfor];
      done := true;
    }
    var thetime := r.time + ranfor;
    t := Round(runlist, r.left[job.num := job.len - ranfor], wait, r.lastran[job.num := thetime], turnaround, thetime);
  }

  /** Round robin ends, at the sum of the run times; a job's turnaround is its wait and its run time; and before
      each of its turns, one for each slice it needs, it waits at most a slice of every other job. */
  method RoundRobin(joblist: seq<Job>, quantum: real) returns (turnaround: seq<real>, wait: seq<real>, thetime: real,
                                                               ghost waits: seq<seq<real>>)
    requires Numbered(joblist) && quantum > 0.0
    ensures |turnaround| == |wait| == |joblist|
    ensures forall i :: 0 <= i < |joblist| ==> turnaround[i] == wait[i] + joblist[i].len
    ensures thetime == Sum(Lengths(joblist))
    ensures |waits| == |joblist|
    ensures forall i :: 0 <= i < |joblist| ==>
              && |waits[i]| == Turns(joblist[i].len, quantum) + 1 && wait[i] == Sum(waits[i])
              && AtMost(waits[i], Longest(|joblist|, quantum))
    ensures forall i :: 0 <= i < |joblist| ==>
              wait[i] <= Multiple(Turns(joblist[i].len, quantum) + 1, Longest(|joblist|, quantum))
  {
    var jobcount := |joblist|;
    var r := Round(joblist, Lengths(joblist), Reals(jobcount), Reals(jobcount), Reals(jobcount), 0.0);
    waits := seq(jobcount, _ => []);
    StartOk(joblist);
    StartFair(joblist, quantum, waits);
    while jobcount > 0
      invariant jobcount == |r.runlist| && RoundOk(joblist, r) && FairSoFar(joblist, quantum, r, waits)
      decreases jobcount, AllTurns(r.runlist, quantum)
    {
      waits := OneTurn(joblist, quantum, r, waits);
      var done;
      r, done := RunHead(joblist, r, quantum);
      if done {
        jobcount := jobcount - 1;
      }
    }
    AllDone(joblist, r);
    AllWaited(joblist, quantum, r, waits);
    turnaround, wait, thetime := r.turnaround, r.wait, r.time;
  }

  lemma AllDone(jobs: seq<Job>, r: Round)
    requires RoundOk(jobs, r) && r.runlist == []
    ensures forall i :: 0 <= i < |jobs| ==> r.turnaround[i] == r.wait[i] + jobs[i].len
    ensures r.time == Sum(Lengths(jobs))
  {
    forall i: nat | i < |jobs|
      ensures r.left[i] == 0.0 && r.turnaround[i] == r.wait[i] + jobs[i].len
    {
      assert PlaceOk(jobs, r.runlist, r.left, r.lastran, r.turnaround, i)
             && ClockOk(jobs, r.left, r.wait, r.lastran, i);
    }
    SumZero(r.left);
  }

  lemma StartOk(jobs: seq<Job>)
    requires Numbered(jobs)
    ensures RoundOk(jobs, Round(jobs, Lengths(jobs), Reals(|jobs|), Reals(|jobs|), Reals(|jobs|), 0.0))
  {
    forall i: nat | i < |jobs|
      ensures PlaceOk(jobs, jobs, Lengths(jobs), Reals(|jobs|), Reals(|jobs|), i)
    {
      assert jobs[i] == Job(i, Lengths(jobs)[i]);
    }
  }

  lemma AllWaited(jobs: seq<Job>, quantum: real, r: Round, waits: seq<seq<real>>)
    requires quantum > 0.0 && FairSoFar(jobs, quantum, r, waits) && r.runlist == []
    ensures forall i :: 0 <= i < |jobs| ==>
              && |waits[i]| == Turns(jobs[i].len, quantum) + 1 && r.wait[i] == Sum(waits[i])
              && AtMost(waits[i], Longest(|jobs|, quantum))
    ensures forall i :: 0 <= i < |jobs| ==>
              r.wait[i] <= Multiple(Turns(jobs[i].len, quantum) + 1, Longest(|jobs|, quantum))
  {
    forall i: nat | i < |jobs|
      ensures && |waits[i]| == Turns(jobs[i].len, quantum) + 1 && r.wait[i] == Sum(waits[i])
              && AtMost(waits[i], Longest(|jobs|, quantum))
      ensures r.wait[i] <= Multiple(Turns(jobs[i].len, quantum) + 1, Longest(|jobs|, quantum))
    {
      assert Patient(jobs, quantum, Longest(|jobs|, quantum), r, waits, i);
      SumAtMost(waits[i], Longest(|jobs|, quantum));
    }
  }

  lemma StartFair(jobs: seq<Job>, quantum: real, waits: seq<seq<real>>)
    requires Numbered(jobs) && quantum > 0.0 && |waits| == |jobs| && forall i :: 0 <= i < |waits| ==> waits[i] == []
    ensures var r := Round(jobs, Lengths(jobs), Reals(|jobs|), Reals(|jobs|), Reals(|jobs|), 0.0);
            FairSoFar(jobs, quantum, r, waits)
  {
    var r := Round(jobs, Lengths(jobs), Reals(|jobs|), Reals(|jobs|), Reals(|jobs|), 0.0);
    forall k: nat | k < |jobs|
      ensures Soon(|jobs|, quantum, r, k)
    {
      MultipleNonNegative(|jobs| - 1 - k, quantum);
    }
    forall i: nat | i < |jobs|
      ensures Patient(jobs, quantum, Longest(|jobs|, quantum), r, waits, i)
    {
      assert jobs[i] == Job(i, r.left[i]);
    }
  }
}
