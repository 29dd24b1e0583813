/**
 The multi-level feedback queue of mlfq.py: where every job is at each turn of the scheduling loop, why the
 loop ends, and how long a job keeps its level. The printed trace and the averages are left out.
 */
module Mlfq {
  import opened Arith
  import opened Collections
  import opened Sums

  /** Options: slice length and number of slices by level, boost period, length of an I/O, and two switches. */
  datatype Config = Config(quantum: seq<int>, allotment: seq<int>, boost: int, ioTime: nat, stay: bool, iobump: bool) {
    predicate Ok() {
      && |quantum| == |allotment| > 0
      && (forall q :: 0 <= q < |quantum| ==> quantum[q] > 0)
      && (forall q :: 0 < q < |allotment| ==> allotment[q] > 0)
    }
    function Hi(): nat
      requires Ok()
    {
      |quantum| - 1
    }
  }

  datatype Job = Job(currPri: nat, ticksLeft: int, allotLeft: int, startTime: nat, runTime: int, timeLeft: int,
                     ioFreq: int, doingIO: bool, firstRun: int, endTime: int)

  /** A job to begin, or whose I/O is done. */
  datatype Wake = Wake(job: nat, begins: bool)

  /** The queues by level, the jobs, the wakeups by time, the time, and how many jobs are finished. */
  datatype Sched = Sched(queue: seq<seq<nat>>, job: seq<Job>, ioDone: map<int, seq<Wake>>, time: nat, finished: nat)

  function At(io: map<int, seq<Wake>>, t: int): seq<Wake> {
    if t in io then io[t] else []
  }

  function AddWake(io: map<int, seq<Wake>>, t: int, e: Wake): map<int, seq<Wake>> {
    io[t := At(io, t) + [e]]
  }

  // ---------- One turn of the loop, as a function ----------

  predicate Boosts(c: Config, s: Sched) {
    c.boost > 0 && s.time != 0 && s.time % c.boost == 0
  }

  /** The jobs of a queue that are not doing I/O. */
  function Ready(queue: seq<nat>, job: seq<Job>): seq<nat> {
    if queue == [] then []
    else
      var n := |queue| - 1;
      Ready(queue[..n], job) + if queue[n] < |job| && job[queue[n]].doingIO then [] else [queue[n]]
  }

  /** Those of the queues below k, lowest first. */
  function Drain(queue: seq<seq<nat>>, job: seq<Job>, k: nat): seq<nat>
    requires k <= |queue|
  {
    if k == 0 then [] else Drain(queue, job, k - 1) + Ready(queue[k - 1], job)
  }

  function BoostJob(c: Config, x: Job): Job
    requires c.Ok()
  {
    if x.timeLeft > 0 then x.(currPri := c.Hi(), ticksLeft := c.quantum[c.Hi()], allotLeft := c.allotment[c.Hi()])
    else x
  }

  function BoostQueues(c: Config, queue: seq<seq<nat>>, job: seq<Job>): (r: seq<seq<nat>>)
    requires c.Ok() && |queue| == |c.quantum|
    ensures |r| == |queue|
    ensures forall q :: 0 <= q < |r| ==> r[q] == if q == c.Hi() then queue[q] + Drain(queue, job, c.Hi()) else []
  {
    seq(|queue|, q requires 0 <= q < |queue| => if q == c.Hi() then queue[q] + Drain(queue, job, c.Hi()) else [])
  }

  function BoostJobs(c: Config, job: seq<Job>): (r: seq<Job>)
    requires c.Ok()
    ensures |r| == |job| && forall j :: 0 <= j < |r| ==> r[j] == BoostJob(c, job[j])
  {
    seq(|job|, j requires 0 <= j < |job| => BoostJob(c, job[j]))
  }

  function Boost(c: Config, s: Sched): Sched
    requires c.Ok() && |s.queue| == |c.quantum|
  {
    s.(queue := BoostQueues(c, s.queue, s.job), job := BoostJobs(c, s.job))
  }

  /** One wakeup: the job goes to the back of its queue, or to the front after I/O with -I. */
  function WakeOne(c: Config, s: Sched, e: Wake): Sched {
    if e.job < |s.job| && s.job[e.job].currPri < |s.queue| then
      var x := s.job[e.job];
      var before := s.queue[x.currPri];
      s.(job := s.job[e.job := x.(doingIO := false)],
         queue := s.queue[x.currPri := if !c.iobump || e.begins then before + [e.job] else [e.job] + before])
    else s
  }

  function WakeList(c: Config, s: Sched, es: seq<Wake>): Sched
    decreases |es|
  {
    if es == [] then s else WakeList(c, WakeOne(c, s, es[0]), es[1..])
  }

  /** The highest level below k with a job, or -1. */
  function Find(queue: seq<seq<nat>>, k: nat): (q: int)
    requires k <= |queue|
    ensures -1 <= q < k
    ensures q >= 0 ==> queue[q] != []
    ensures forall i :: q < i < k ==> queue[i] == []
  {
    if k == 0 then -1 else if queue[k - 1] != [] then k - 1 else Find(queue, k - 1)
  }

  function Ran(x: Job, time: nat): Job {
    x.(timeLeft := x.timeLeft - 1, ticksLeft := x.ticksLeft - 1,
       firstRun := if x.firstRun == -1 then time else x.firstRun)
  }

  predicate DoesIO(x: Job) {
    x.ioFreq > 0 && (x.runTime - x.timeLeft) % x.ioFreq == 0
  }

  function StartIO(c: Config, x: Job, q: nat): Job
    requires c.Ok() && q < |c.quantum|
  {
    if c.stay then x.(doingIO := true, ticksLeft := c.quantum[q], allotLeft := c.allotment[q]) else x.(doingIO := true)
  }

  /** The slice is used up: another slice, the next level, or, at the lowest level, a new allotment. */
  function EndSlice(c: Config, x: Job, q: nat): Job
    requires c.Ok() && q < |c.quantum|
  {
    if x.allotLeft - 1 == 0 then
      if q > 0 then x.(currPri := q - 1, ticksLeft := c.quantum[q - 1], allotLeft := c.allotment[q - 1])
      else x.(ticksLeft := c.quantum[q], allotLeft := c.allotment[q])
    else x.(allotLeft := x.allotLeft - 1, ticksLeft := c.quantum[q])
  }

  function NextJob(c: Config, x: Job, q: nat): Job
    requires c.Ok() && q < |c.quantum|
  {
    var y := if DoesIO(x) then StartIO(c, x, q) else x;
    if x.ticksLeft == 0 then EndSlice(c, y, q) else y
  }

  function NextQueues(queue: seq<seq<nat>>, q: nat, j: nat, pops: bool, pushes: bool, level: nat): (r: seq<seq<nat>>)
    requires q < |queue| && queue[q] != [] && level < |queue|
    ensures |r| == |queue|
  {
    var rest := if pops then queue[q := queue[q][1..]] else queue;
    if pushes then rest[level := rest[level] + [j]] else rest
  }

  /** The head of the queue may run: it is a job, and its level is that of the queue. */
  predicate Head(c: Config, s: Sched, q: int) {
    && |s.queue| == |c.quantum| && 0 <= q < |s.queue| && s.queue[q] != []
    && s.queue[q][0] < |s.job| && s.job[s.queue[q][0]].currPri == q
  }

  /** The head of a queue runs for one unit of time. */
  function RunHead(c: Config, s: Sched, q: nat): Sched
    requires c.Ok() && Head(c, s, q)
  {
    var j, now := s.queue[q][0], s.time + 1;
    var x := Ran(s.job[j], s.time);
    if x.timeLeft == 0 then
      Sched(s.queue[q := s.queue[q][1..]], s.job[j := x.(endTime := now)], s.ioDone, now, s.finished + 1)
    else
      var io, slice, y := DoesIO(x), x.ticksLeft == 0, NextJob(c, x, q);
      Sched(NextQueues(s.queue, q, j, io || slice, slice && !io, y.currPri), s.job[j := y],
            if io then AddWake(s.ioDone, now + c.ioTime, Wake(j, false)) else s.ioDone, now, s.finished)
  }

  /** Runs the highest job, or idles; without a proper head the program would abort, and nothing changes. */
  function Dispatch(c: Config, s: Sched): Sched
    requires c.Ok()
  {
    var q := Find(s.queue, |s.queue|);
    if q == -1 then s.(time := s.time + 1) else if Head(c, s, q) then RunHead(c, s, q) else s
  }

  function Woken(c: Config, s: Sched): Sched
    requires c.Ok() && |s.queue| == |c.quantum|
  {
    WakeList(c, if Boosts(c, s) then Boost(c, s) else s, At(s.ioDone, s.time))
  }

  function Step(c: Config, s: Sched): Sched
    requires c.Ok() && |s.queue| == |c.quantum|
  {
    Dispatch(c, Woken(c, s))
  }

  // ---------- Where jobs are ----------

  datatype Place = Queued | Waiting(t: int) | Done

  function Occ(queue: seq<nat>, j: nat): nat { multiset(queue)[j] }

  function Jobs(es: seq<Wake>): (r: seq<nat>)
    ensures |r| == |es|
  {
    if es == [] then [] else [es[0].job] + Jobs(es[1..])
  }

  function Calls(es: seq<Wake>, j: nat): nat { Occ(Jobs(es), j) }

  /** The wakeups still to come at a time: at lo, those in `rest`. */
  function Pending(s: Sched, rest: seq<Wake>, lo: int, t: int): seq<Wake> {
    if t == lo then rest else At(s.ioDone, t)
  }

  function Pri(s: Sched, j: nat): nat { if j < |s.job| then s.job[j].currPri else 0 }

  predicate InQueue(s: Sched, j: nat, p: Place, q: nat)
    requires q < |s.queue|
  {
    Occ(s.queue[q], j) == Bit(p.Queued? && q == Pri(s, j))
  }

  predicate InWait(s: Sched, rest: seq<Wake>, lo: int, j: nat, p: Place, t: int) {
    Calls(Pending(s, rest, lo, t), j) == Bit(p == Waiting(t))
  }

  /** What is left of the slice and of the allotment is positive and within the level's. */
  predicate Budget(c: Config, x: Job)
    requires c.Ok() && x.currPri < |c.quantum|
  {
    && 0 < x.ticksLeft <= c.quantum[x.currPri]
    && (x.currPri > 0 ==> 0 < x.allotLeft <= c.allotment[x.currPri])
  }

  predicate Status(c: Config, x: Job, p: Place, lo: int)
    requires c.Ok()
  {
    && 0 <= x.timeLeft && x.currPri < |c.quantum|
    && (p.Done? <==> x.timeLeft == 0)
    && (x.timeLeft > 0 ==> Budget(c, x))
    && (p.Queued? ==> !x.doingIO)
    && (p.Waiting? ==> p.t >= lo)
  }

  predicate InQueues(s: Sched, j: nat, p: Place) {
    forall q: nat :: q < |s.queue| ==> InQueue(s, j, p, q)
  }

  /** The job is in its place and nowhere else. */
  ghost predicate Placed(c: Config, s: Sched, rest: seq<Wake>, lo: int, j: nat, p: Place)
    requires c.Ok()
  {
    && (j < |s.job| ==> Status(c, s.job[j], p, lo))
    && InQueues(s, j, p)
    && (forall t :: t >= lo ==> InWait(s, rest, lo, j, p, t))
  }

  function PlaceOf(w: seq<Place>, j: nat): Place { if j < |w| then w[j] else Done }

  const FINISHED: Place -> int := (p: Place) => if p.Done? then 1 else 0

  /** Every job is in exactly one place: a slot of the queue of its level, one wakeup to come, or finished. */
  ghost predicate Inv(c: Config, s: Sched, rest: seq<Wake>, lo: int, w: seq<Place>) {
    && c.Ok() && |s.queue| == |c.quantum| && |w| == |s.job|
    && s.finished == Sum(w, FINISHED)
    && forall j: nat :: Placed(c, s, rest, lo, j, PlaceOf(w, j))
  }

  /** At the top of the loop. */
  ghost predicate Top(c: Config, s: Sched, w: seq<Place>) {
    Inv(c, s, At(s.ioDone, s.time), s.time, w)
  }

  // ---------- Counting ----------

  lemma OccTail(queue: seq<nat>, j: nat)
    requires queue != []
    ensures Occ(queue, j) == Bit(queue[0] == j) + Occ(queue[1..], j)
  {
    assert queue == [queue[0]] + queue[1..];
  }

  lemma OccAdd(queue: seq<nat>, more: seq<nat>, j: nat)
    ensures Occ(queue + more, j) == Occ(queue, j) + Occ(more, j)
  {
  }

  lemma {:induction false} CallsAdd(es: seq<Wake>, e: Wake, j: nat)
    ensures Calls(es + [e], j) == Calls(es, j) + Bit(e.job == j)
    decreases |es|
  {
    if es == [] {
      assert es + [e] == [e];
      assert [e][1..] == [];
    } else {
      CallsAdd(es[1..], e, j);
      assert (es + [e])[1..] == es[1..] + [e];
    }
  }

  lemma {:induction false} ReadyOcc(queue: seq<nat>, job: seq<Job>, j: nat)
    ensures Occ(Ready(queue, job), j) == if j < |job| && job[j].doingIO then 0 else Occ(queue, j)
    decreases |queue|
  {
    if queue != [] {
      var n := |queue| - 1;
      ReadyOcc(queue[..n], job, j);
      assert queue == queue[..n] + [queue[n]];
      OccAdd(queue[..n], [queue[n]], j);
      OccAdd(Ready(queue[..n], job), if queue[n] < |job| && job[queue[n]].doingIO then [] else [queue[n]], j);
    }
  }

  /** A job not doing I/O counts in a drained level as it counts in its queue. */
  lemma DrainStep(s: Sched, k: nat, j: nat, p: Place)
    requires 0 < k <= |s.queue| && InQueue(s, j, p, k - 1)
    requires p.Queued? && j < |s.job| ==> !s.job[j].doingIO
    ensures Occ(Drain(s.queue, s.job, k), j)
         == Occ(Drain(s.queue, s.job, k - 1), j) + Bit(p.Queued? && k - 1 == Pri(s, j))
  {
    var before, more := Drain(s.queue, s.job, k - 1), Ready(s.queue[k - 1], s.job);
    ReadyOcc(s.queue[k - 1], s.job, j);
    assert Occ(more, j) == Bit(p.Queued? && k - 1 == Pri(s, j));
    OccAdd(before, more, j);
  }

  lemma {:induction false} DrainOcc(s: Sched, k: nat, j: nat, p: Place)
    requires k <= |s.queue| && InQueues(s, j, p)
    requires p.Queued? && j < |s.job| ==> !s.job[j].doingIO
    ensures Occ(Drain(s.queue, s.job, k), j) == Bit(p.Queued? && Pri(s, j) < k)
  {
    if k > 0 {
      DrainOcc(s, k - 1, j, p);
      assert InQueue(s, j, p, k - 1);
      DrainStep(s, k, j, p);
    }
  }

  // ---------- A boost ----------

  lemma BoostPlaced(c: Config, s: Sched, rest: seq<Wake>, lo: int, j: nat, p: Place)
    requires c.Ok() && |s.queue| == |c.quantum| && Placed(c, s, rest, lo, j, p) && (j >= |s.job| ==> p.Done?)
    ensures Placed(c, Boost(c, s), rest, lo, j, p)
  {
    var s2 := Boost(c, s);
    var hi := c.Hi();
    forall q: nat | q < |s2.queue|
      ensures InQueue(s2, j, p, q)
    {
      if q == hi {
        DrainOcc(s, hi, j, p);
        assert InQueue(s, j, p, hi);
        OccAdd(s.queue[hi], Drain(s.queue, s.job, hi), j);
      }
    }
    forall t | t >= lo
      ensures InWait(s2, rest, lo, j, p, t)
    {
      assert InWait(s, rest, lo, j, p, t);
    }
  }

  lemma BoostKeeps(c: Config, s: Sched, rest: seq<Wake>, lo: int, w: seq<Place>)
    requires Inv(c, s, rest, lo, w)
    ensures Inv(c, Boost(c, s), rest, lo, w)
  {
    forall j: nat
      ensures Placed(c, Boost(c, s), rest, lo, j, PlaceOf(w, j))
    {
      assert Placed(c, s, rest, lo, j, PlaceOf(w, j));
      BoostPlaced(c, s, rest, lo, j, PlaceOf(w, j));
    }
  }

  // ---------- Wakeups ----------

  /** A job called now was waiting for now. */
  lemma CalledWaits(c: Config, s: Sched, es: seq<Wake>, lo: int, w: seq<Place>)
    requires Inv(c, s, es, lo, w) && es != []
    ensures var j := es[0].job; j < |s.job| && w[j] == Waiting(lo)
  {
    var j := es[0].job;
    assert Placed(c, s, es, lo, j, PlaceOf(w, j));
    assert InWait(s, es, lo, j, PlaceOf(w, j), lo);
    OccTail(Jobs(es), j);
  }

  lemma WakeOcc(c: Config, s: Sched, e: Wake, q: nat, j: nat)
    requires e.job < |s.job| && s.job[e.job].currPri < |s.queue| && q < |s.queue|
    ensures Occ(WakeOne(c, s, e).queue[q], j) == Occ(s.queue[q], j) + Bit(j == e.job && q == s.job[e.job].currPri)
  {
    var level := s.job[e.job].currPri;
    OccAdd(s.queue[level], [e.job], j);
    OccAdd([e.job], s.queue[level], j);
  }

  lemma WakeInQueue(c: Config, s: Sched, e: Wake, j: nat, p: Place, lo: int, q: nat)
    requires q < |s.queue| && e.job < |s.job| && s.job[e.job].currPri < |s.queue| && InQueue(s, j, p, q)
    requires j == e.job ==> p == Waiting(lo)
    ensures InQueue(WakeOne(c, s, e), j, if j == e.job then Queued else p, q)
  {
    WakeOcc(c, s, e, q, j);
  }

  lemma WakeInWait(c: Config, s: Sched, es: seq<Wake>, lo: int, j: nat, p: Place, t: int)
    requires es != [] && t >= lo && InWait(s, es, lo, j, p, t)
    requires j == es[0].job ==> p == Waiting(lo)
    ensures InWait(WakeOne(c, s, es[0]), es[1..], lo, j, if j == es[0].job then Queued else p, t)
  {
    OccTail(Jobs(es), j);
  }

  lemma WakePlaced(c: Config, s: Sched, es: seq<Wake>, lo: int, j: nat, p: Place)
    requires c.Ok() && |s.queue| == |c.quantum| && es != [] && Placed(c, s, es, lo, j, p)
    requires es[0].job < |s.job| && s.job[es[0].job].currPri < |s.queue|
    requires j == es[0].job ==> p == Waiting(lo)
    ensures Placed(c, WakeOne(c, s, es[0]), es[1..], lo, j, if j == es[0].job then Queued else p)
  {
    var e := es[0];
    var s2, p2 := WakeOne(c, s, e), if j == e.job then Queued else p;
    forall q: nat | q < |s2.queue|
      ensures InQueue(s2, j, p2, q)
    {
      assert InQueue(s, j, p, q);
      WakeInQueue(c, s, e, j, p, lo, q);
    }
    forall t | t >= lo
      ensures InWait(s2, es[1..], lo, j, p2, t)
    {
      assert InWait(s, es, lo, j, p, t);
      WakeInWait(c, s, es, lo, j, p, t);
    }
  }

  lemma WakeKeeps(c: Config, s: Sched, es: seq<Wake>, lo: int, w: seq<Place>)
    requires Inv(c, s, es, lo, w) && es != []
    ensures es[0].job < |w|
    ensures Inv(c, WakeOne(c, s, es[0]), es[1..], lo, w[es[0].job := Queued])
  {
    CalledWaits(c, s, es, lo, w);
    var k := es[0].job;
    assert Placed(c, s, es, lo, k, PlaceOf(w, k));
    var w2 := w[k := Queued];
    SumUpdate(w, k, Queued, FINISHED);
    forall j: nat
      ensures Placed(c, WakeOne(c, s, es[0]), es[1..], lo, j, PlaceOf(w2, j))
    {
      assert Placed(c, s, es, lo, j, PlaceOf(w, j));
      WakePlaced(c, s, es, lo, j, PlaceOf(w, j));
    }
  }

  /** The latest wakeup to come. */
  function Horizon(w: seq<Place>): int {
    if w == [] then 0
    else
      var rest := Horizon(w[1..]);
      if w[0].Waiting? && w[0].t > rest then w[0].t else rest
  }

  lemma {:induction false} HorizonAtLeast(w: seq<Place>, j: nat)
    requires j < |w| && w[j].Waiting?
    ensures w[j].t <= Horizon(w)
  {
    if j > 0 {
      HorizonAtLeast(w[1..], j - 1);
    }
  }

  lemma {:induction false} HorizonQueued(w: seq<Place>, j: nat)
    requires j < |w|
    ensures Horizon(w[j := Queued]) <= Horizon(w)
  {
    if j > 0 {
      HorizonQueued(w[1..], j - 1);
      assert w[j := Queued][1..] == w[1..][j - 1 := Queued];
    } else {
      assert w[j := Queued][1..] == w[1..];
    }
  }

  const LEFT: Job -> int := (x: Job) => x.timeLeft

  function TotalLeft(s: Sched): int { Sum(s.job, LEFT) }

  lemma {:induction false} WakeListKeeps(c: Config, s: Sched, es: seq<Wake>, lo: int, w: seq<Place>)
      returns (w2: seq<Place>)
    requires Inv(c, s, es, lo, w)
    ensures Inv(c, WakeList(c, s, es), [], lo, w2) && Horizon(w2) <= Horizon(w)
    ensures TotalLeft(WakeList(c, s, es)) == TotalLeft(s)
    decreases |es|
  {
    if es == [] {
      w2 := w;
    } else {
      WakeKeeps(c, s, es, lo, w);
      HorizonQueued(w, es[0].job);
      CalledWaits(c, s, es, lo, w);
      SumUpdate(s.job, es[0].job, s.job[es[0].job].(doingIO := false), LEFT);
      w2 := WakeListKeeps(c, WakeOne(c, s, es[0]), es[1..], lo, w[es[0].job := Queued]);
    }
  }

  // ---------- Running ----------

  /** Neither Abort is reached: the head's level is the queue's, and it has time left. */
  lemma NoAbort(c: Config, s: Sched, rest: seq<Wake>, lo: int, w: seq<Place>, q: nat)
    requires Inv(c, s, rest, lo, w) && q < |s.queue| && s.queue[q] != []
    ensures Head(c, s, q) && w[s.queue[q][0]] == Queued
    ensures s.job[s.queue[q][0]].timeLeft > 0 && Budget(c, s.job[s.queue[q][0]])
  {
    var j := s.queue[q][0];
    assert Placed(c, s, rest, lo, j, PlaceOf(w, j));
    assert InQueue(s, j, PlaceOf(w, j), q);
    OccTail(s.queue[q], j);
  }

  /** Where the job that ran goes. */
  function NextPlace(c: Config, s: Sched, q: nat): Place
    requires c.Ok() && Head(c, s, q)
  {
    var x := Ran(s.job[s.queue[q][0]], s.time);
    if x.timeLeft == 0 then Done else if DoesIO(x) then Waiting(s.time + 1 + c.ioTime) else Queued
  }

  lemma NextJobStatus(c: Config, x: Job, q: nat, p: Place, lo: int)
    requires c.Ok() && q < |c.quantum| && x.currPri == q && x.timeLeft > 1 && Budget(c, x) && !x.doingIO
    requires p == if DoesIO(Ran(x, 0)) then Waiting(lo + c.ioTime) else Queued
    ensures forall time: nat :: Status(c, NextJob(c, Ran(x, time), q), p, lo)
  {
  }

  /** A popped head and a pushed tail, as counts. */
  lemma NextQueuesOcc(queue: seq<seq<nat>>, q: nat, pops: bool, pushes: bool, level: nat, k: nat, j: nat)
    requires q < |queue| && queue[q] != [] && level < |queue| && k < |queue|
    ensures Occ(NextQueues(queue, q, queue[q][0], pops, pushes, level)[k], j) ==
            Occ(queue[k], j) - Bit(pops && k == q && j == queue[q][0]) + Bit(pushes && k == level && j == queue[q][0])
  {
    OccTail(queue[q], j);
    var rest := if pops then queue[q := queue[q][1..]] else queue;
    OccAdd(rest[level], [queue[q][0]], j);
  }

  lemma AddWakeCalls(io: map<int, seq<Wake>>, at: int, e: Wake, t: int, j: nat)
    ensures Calls(At(AddWake(io, at, e), t), j) == Calls(At(io, t), j) + Bit(t == at && e.job == j)
  {
    CallsAdd(At(io, at), e, j);
  }

  lemma NewWaits(io: map<int, seq<Wake>>, h: nat, next: Place, j: nat, p: Place, t: int)
    requires Calls(At(io, t), j) == Bit(p == Waiting(t)) && (j == h ==> p.Queued?)
    ensures Calls(At(if next.Waiting? then AddWake(io, next.t, Wake(h, false)) else io, t), j)
         == Bit((if j == h then next else p) == Waiting(t))
  {
    if next.Waiting? {
      AddWakeCalls(io, next.t, Wake(h, false), t, j);
    }
  }

  lemma RunIo(c: Config, s: Sched, q: nat)
    requires c.Ok() && Head(c, s, q)
    ensures var s2, next, h := RunHead(c, s, q), NextPlace(c, s, q), s.queue[q][0];
            && s2.time == s.time + 1
            && s2.ioDone == if next.Waiting? then AddWake(s.ioDone, next.t, Wake(h, false)) else s.ioDone
  {
  }

  lemma RunWaits(c: Config, s: Sched, q: nat, j: nat, p: Place, t: int)
    requires c.Ok() && Head(c, s, q)
    requires InWait(s, [], s.time, j, p, t) && t >= s.time + 1 && (j == s.queue[q][0] ==> p.Queued?)
    ensures var s2 := RunHead(c, s, q);
            InWait(s2, At(s2.ioDone, s2.time), s2.time, j, if j == s.queue[q][0] then NextPlace(c, s, q) else p, t)
  {
    RunIo(c, s, q);
    var h, next, io, io2 := s.queue[q][0], NextPlace(c, s, q), s.ioDone, RunHead(c, s, q).ioDone;
    NewWaits(io, h, next, j, p, t);
  }

  lemma RunQueues(c: Config, s: Sched, q: nat, j: nat, p: Place, k: nat)
    requires c.Ok() && Head(c, s, q) && s.job[s.queue[q][0]].timeLeft > 0 && Budget(c, s.job[s.queue[q][0]])
    requires k < |s.queue| && InQueue(s, j, p, k) && (j == s.queue[q][0] ==> p.Queued?)
    ensures InQueue(RunHead(c, s, q), j, if j == s.queue[q][0] then NextPlace(c, s, q) else p, k)
  {
    var h := s.queue[q][0];
    var x := Ran(s.job[h], s.time);
    if x.timeLeft == 0 {
      OccTail(s.queue[q], j);
    } else {
      var io, slice, y := DoesIO(x), x.ticksLeft == 0, NextJob(c, x, q);
      NextQueuesOcc(s.queue, q, io || slice, slice && !io, y.currPri, k, j);
    }
  }

  lemma RunPlaced(c: Config, s: Sched, q: nat, j: nat, p: Place)
    requires c.Ok() && Head(c, s, q) && Placed(c, s, [], s.time, j, p)
    requires s.job[s.queue[q][0]].timeLeft > 0 && Budget(c, s.job[s.queue[q][0]]) && (j == s.queue[q][0] ==> p.Queued?)
    ensures var s2 := RunHead(c, s, q);
            Placed(c, s2, At(s2.ioDone, s2.time), s2.time, j, if j == s.queue[q][0] then NextPlace(c, s, q) else p)
  {
    var h := s.queue[q][0];
    var s2, p2 := RunHead(c, s, q), if j == h then NextPlace(c, s, q) else p;
    var rest := At(s2.ioDone, s2.time);
    assert j < |s2.job| ==> Status(c, s2.job[j], p2, s2.time) by {
      if j == h && s.job[h].timeLeft > 1 {
        NextJobStatus(c, s.job[h], q, p2, s2.time);
      }
      assert InWait(s, [], s.time, j, p, s.time);
    }
    forall k: nat | k < |s2.queue|
      ensures InQueue(s2, j, p2, k)
    {
      assert InQueue(s, j, p, k);
      RunQueues(c, s, q, j, p, k);
    }
    forall t | t >= s2.time
      ensures InWait(s2, rest, s2.time, j, p2, t)
    {
      assert InWait(s, [], s.time, j, p, t);
      RunWaits(c, s, q, j, p, t);
    }
  }

  lemma RunKeeps(c: Config, s: Sched, w: seq<Place>, q: nat)
    requires Inv(c, s, [], s.time, w) && q < |s.queue| && s.queue[q] != []
    ensures Head(c, s, q) && s.queue[q][0] < |w|
    ensures Top(c, RunHead(c, s, q), w[s.queue[q][0] := NextPlace(c, s, q)])
    ensures TotalLeft(RunHead(c, s, q)) == TotalLeft(s) - 1
  {
    NoAbort(c, s, [], s.time, w, q);
    var h, p := s.queue[q][0], NextPlace(c, s, q);
    var s2, w2 := RunHead(c, s, q), w[h := p];
    SumUpdate(w, h, p, FINISHED);
    SumUpdate(s.job, h, s2.job[h], LEFT);
    forall j: nat
      ensures Placed(c, s2, At(s2.ioDone, s2.time), s2.time, j, PlaceOf(w2, j))
    {
      assert Placed(c, s, [], s.time, j, PlaceOf(w, j));
      RunPlaced(c, s, q, j, PlaceOf(w, j));
    }
  }

  // ---------- Idling ----------

  lemma IdleKeeps(c: Config, s: Sched, w: seq<Place>)
    requires Inv(c, s, [], s.time, w)
    ensures Top(c, s.(time := s.time + 1), w)
  {
    var s2 := s.(time := s.time + 1);
    forall j: nat
      ensures Placed(c, s2, At(s2.ioDone, s2.time), s2.time, j, PlaceOf(w, j))
    {
      var p := PlaceOf(w, j);
      assert Placed(c, s, [], s.time, j, p);
      assert InWait(s, [], s.time, j, p, s.time);
      forall q: nat | q < |s2.queue|
        ensures InQueue(s2, j, p, q)
      {
        assert InQueue(s, j, p, q);
      }
      forall t | t >= s2.time
        ensures InWait(s2, At(s2.ioDone, s2.time), s2.time, j, p, t)
      {
        assert InWait(s, [], s.time, j, p, t);
      }
    }
  }

  lemma {:induction false} SomeUnfinished(w: seq<Place>) returns (j: nat)
    requires Sum(w, FINISHED) < |w|
    ensures j < |w| && !w[j].Done?
  {
    if !w[0].Done? {
      j := 0;
    } else {
      j := SomeUnfinished(w[1..]);
      j := j + 1;
    }
  }

  /** With work left and nothing to run, a wakeup is still to come. */
  lemma IdleWaits(c: Config, s: Sched, w: seq<Place>)
    requires Inv(c, s, [], s.time, w) && Find(s.queue, |s.queue|) == -1 && s.finished < |s.job|
    ensures s.time < Horizon(w)
  {
    var j := SomeUnfinished(w);
    var p := w[j];
    assert Placed(c, s, [], s.time, j, PlaceOf(w, j));
    assert InQueue(s, j, p, s.job[j].currPri) && InWait(s, [], s.time, j, p, s.time);
    assert s.queue[s.job[j].currPri] == [];
    HorizonAtLeast(w, j);
  }

  // ---------- One turn, and the loop ----------

  lemma {:induction false} SumSame(a: seq<Job>, b: seq<Job>)
    requires |a| == |b| && forall j :: 0 <= j < |a| ==> a[j].timeLeft == b[j].timeLeft
    ensures Sum(a, LEFT) == Sum(b, LEFT)
    decreases |a|
  {
    if a != [] {
      SumSame(a[1..], b[1..]);
    }
  }

  lemma WokenKeeps(c: Config, s: Sched, w: seq<Place>) returns (w2: seq<Place>)
    requires Top(c, s, w)
    ensures Inv(c, Woken(c, s), [], s.time, w2) && Woken(c, s).time == s.time
    ensures Horizon(w2) <= Horizon(w) && TotalLeft(Woken(c, s)) == TotalLeft(s)
  {
    var s1 := if Boosts(c, s) then Boost(c, s) else s;
    if Boosts(c, s) {
      BoostKeeps(c, s, At(s.ioDone, s.time), s.time, w);
      SumSame(s1.job, s.job);
    }
    w2 := WakeListKeeps(c, s1, At(s.ioDone, s.time), s.time, w);
    WakeListTime(c, s1, At(s.ioDone, s.time));
  }

  lemma {:induction false} WakeListTime(c: Config, s: Sched, es: seq<Wake>)
    ensures var s2 := WakeList(c, s, es);
            s2.time == s.time && s2.finished == s.finished && |s2.job| == |s.job| && |s2.queue| == |s.queue|
    decreases |es|
  {
    if es != [] {
      WakeListTime(c, WakeOne(c, s, es[0]), es[1..]);
    }
  }

  /** With work left, some work gets done, or the latest wakeup gets nearer. */
  predicate Nearer(s: Sched, w: seq<Place>, s2: Sched, w2: seq<Place>) {
    s.finished < |s.job| ==>
      || 0 <= TotalLeft(s2) < TotalLeft(s)
      || (TotalLeft(s2) == TotalLeft(s) && s.time < Horizon(w) && Horizon(w2) - s2.time < Horizon(w) - s.time)
  }

  /** A turn keeps every job in one place, and either work gets done or the latest wakeup gets nearer. */
  lemma StepKeeps(c: Config, s: Sched, w: seq<Place>) returns (w2: seq<Place>)
    requires Top(c, s, w)
    ensures Top(c, Step(c, s), w2) && Step(c, s).time == s.time + 1
    ensures Nearer(s, w, Step(c, s), w2)
  {
    var s1 := Woken(c, s);
    var w1 := WokenKeeps(c, s, w);
    WakeListTime(c, if Boosts(c, s) then Boost(c, s) else s, At(s.ioDone, s.time));
    var q := Find(s1.queue, |s1.queue|);
    if q == -1 {
      IdleKeeps(c, s1, w1);
      w2 := w1;
      if s.finished < |s.job| {
        IdleWaits(c, s1, w1);
      }
    } else {
      RunKeeps(c, s1, w1, q);
      w2 := w1[s1.queue[q][0] := NextPlace(c, s1, q)];
      LeftNonNegative(c, Step(c, s), w2);
    }
  }

  lemma LeftNonNegative(c: Config, s: Sched, w: seq<Place>)
    requires Top(c, s, w)
    ensures TotalLeft(s) >= 0
  {
    forall j | 0 <= j < |s.job|
      ensures LEFT(s.job[j]) >= 0
    {
      assert Placed(c, s, At(s.ioDone, s.time), s.time, j, PlaceOf(w, j));
    }
    SumNonNegative(s.job, LEFT);
  }

  // ---------- How long a job keeps its level ----------

  /** Ticks a job has left at its level. */
  function Credit(c: Config, x: Job): int
    requires c.Ok() && x.currPri < |c.quantum|
  {
    (if x.allotLeft > 0 then Times(x.allotLeft - 1, c.quantum[x.currPri]) else 0) + x.ticksLeft
  }

  function FullCredit(c: Config, q: nat): int
    requires c.Ok() && q < |c.quantum|
  {
    if c.allotment[q] > 0 then Times(c.allotment[q], c.quantum[q]) else c.quantum[q]
  }

  predicate SameBudget(x: Job, y: Job) {
    x.timeLeft == y.timeLeft && x.currPri == y.currPri && x.ticksLeft == y.ticksLeft && x.allotLeft == y.allotLeft
  }

  /** What a tick does to the budget: one less, or, with the last tick of the allotment, the next level in full. */
  predicate Ticked(c: Config, x: Job, y: Job)
    requires c.Ok() && x.currPri < |c.quantum| && y.currPri < |c.quantum|
  {
    && y.timeLeft == x.timeLeft - 1
    && (y.timeLeft > 0 && x.currPri > 0 ==>
          if Credit(c, x) == 1 then y.currPri == x.currPri - 1 && Credit(c, y) == FullCredit(c, y.currPri)
          else y.currPri == x.currPri && Credit(c, y) == Credit(c, x) - 1)
  }

  lemma {:induction false} WakeListBudget(c: Config, s: Sched, es: seq<Wake>, j: nat)
    requires j < |s.job|
    ensures |WakeList(c, s, es).job| == |s.job| && SameBudget(s.job[j], WakeList(c, s, es).job[j])
    decreases |es|
  {
    if es != [] {
      WakeListBudget(c, WakeOne(c, s, es[0]), es[1..], j);
    }
  }

  lemma NextJobTicks(c: Config, x: Job, q: nat, time: nat)
    requires c.Ok() && !c.stay && q < |c.quantum| && x.currPri == q && x.timeLeft > 1 && Budget(c, x)
    ensures NextJob(c, Ran(x, time), q).currPri < |c.quantum| && Ticked(c, x, NextJob(c, Ran(x, time), q))
  {
    if q > 0 {
      var n := c.quantum[q];
      if x.allotLeft > 1 {
        assert Times(x.allotLeft - 1, n) == Times(x.allotLeft - 2, n) + n;
      }
    }
  }

  /** A job as the boost that the turn may begin with leaves it. */
  function Afresh(c: Config, s: Sched, j: nat): Job
    requires c.Ok() && j < |s.job|
  {
    if Boosts(c, s) then BoostJob(c, s.job[j]) else s.job[j]
  }

  /** Running the head of the highest queue takes one tick of its budget; the other jobs keep theirs. */
  lemma DispatchCredit(c: Config, s: Sched, lo: int, w: seq<Place>, j: nat)
    requires Inv(c, s, [], lo, w) && !c.stay && j < |s.job|
    ensures |Dispatch(c, s).job| == |s.job|
    ensures var x, y := s.job[j], Dispatch(c, s).job[j];
            x.currPri < |c.quantum| && y.currPri < |c.quantum| && (SameBudget(x, y) || Ticked(c, x, y))
  {
    assert Placed(c, s, [], lo, j, PlaceOf(w, j));
    var q := Find(s.queue, |s.queue|);
    if q != -1 {
      NoAbort(c, s, [], lo, w, q);
      var h := s.queue[q][0];
      if j == h && s.job[h].timeLeft > 1 {
        NextJobTicks(c, s.job[h], q, s.time);
      }
    }
  }

  lemma SameBudgetTicked(c: Config, x: Job, y: Job, z: Job)
    requires c.Ok() && SameBudget(x, y) && y.currPri < |c.quantum| && z.currPri < |c.quantum|
    ensures Ticked(c, y, z) ==> Ticked(c, x, z)
  {
  }

  lemma WokenBudget(c: Config, s: Sched, j: nat)
    requires c.Ok() && |s.queue| == |c.quantum| && j < |s.job|
    ensures |Woken(c, s).job| == |s.job| && SameBudget(Afresh(c, s, j), Woken(c, s).job[j])
  {
    WakeListBudget(c, if Boosts(c, s) then Boost(c, s) else s, At(s.ioDone, s.time), j);
  }

  /** After the boost there may be, a turn either leaves a job its budget or takes one tick of it. */
  lemma StepCredit(c: Config, s: Sched, w: seq<Place>, j: nat)
    requires Top(c, s, w) && !c.stay && j < |s.job|
    ensures |Step(c, s).job| == |s.job|
    ensures var x, y := Afresh(c, s, j), Step(c, s).job[j];
            x.currPri < |c.quantum| && y.currPri < |c.quantum| && (SameBudget(x, y) || Ticked(c, x, y))
  {
    var s1 := Woken(c, s);
    var w1 := WokenKeeps(c, s, w);
    WokenBudget(c, s, j);
    DispatchCredit(c, s1, s.time, w1, j);
    SameBudgetTicked(c, Afresh(c, s, j), s1.job[j], Step(c, s).job[j]);
  }

  /** A turn that begins with a boost leaves an unfinished job the top level's slices in full, less the tick it may
      run in that very turn; when they are one tick, that tick takes it a level down. */
  lemma BoostCredit(c: Config, s: Sched, w: seq<Place>, j: nat)
    requires Top(c, s, w) && !c.stay && Boosts(c, s) && c.Hi() > 0 && j < |s.job| && s.job[j].timeLeft > 0
    ensures |Step(c, s).job| == |s.job| && Step(c, s).job[j].currPri < |c.quantum|
    ensures var y, full := Step(c, s).job[j], c.quantum[c.Hi()] * c.allotment[c.Hi()];
            var ran := s.job[j].timeLeft - y.timeLeft;
            && 0 <= ran <= 1
            && (y.timeLeft > 0 ==>
                  if ran == full then full == 1 && y.currPri == c.Hi() - 1 && Credit(c, y) == FullCredit(c, y.currPri)
                  else y.currPri == c.Hi() && Credit(c, y) == full - ran)
  {
    StepCredit(c, s, w, j);
    var x := Afresh(c, s, j);
    EntryCredit(c, x, c.Hi());
    CreditPositive(c, x);
  }

  /** For n turns without boost, the job stays unfinished at a level. */
  predicate Stays(c: Config, s: Sched, j: nat, q: nat, n: nat)
    requires c.Ok() && |s.queue| == |c.quantum|
    decreases n
  {
    && j < |s.job| && s.job[j].currPri == q && s.job[j].timeLeft > 0
    && (n == 0 || (!Boosts(c, s) && |Step(c, s).queue| == |c.quantum| && Stays(c, Step(c, s), j, q, n - 1)))
  }

  function After(c: Config, s: Sched, n: nat): Sched
    requires c.Ok()
    decreases n
  {
    if n == 0 || |s.queue| != |c.quantum| then s else After(c, Step(c, s), n - 1)
  }

  /** While a job stays at a level, the time it runs is the credit it spends. */
  lemma {:induction false} CreditIsTime(c: Config, s: Sched, w: seq<Place>, j: nat, q: nat, n: nat)
      returns (wn: seq<Place>)
    requires Top(c, s, w) && !c.stay && 0 < q < |c.quantum| && Stays(c, s, j, q, n)
    ensures var t := After(c, s, n);
            && Top(c, t, wn) && j < |t.job| && t.job[j].currPri == q && t.job[j].timeLeft > 0
            && s.job[j].timeLeft - t.job[j].timeLeft == Credit(c, s.job[j]) - Credit(c, t.job[j])
    decreases n
  {
    if n == 0 {
      wn := w;
    } else {
      StepCredit(c, s, w, j);
      var w1 := StepKeeps(c, s, w);
      wn := CreditIsTime(c, Step(c, s), w1, j, q, n - 1);
    }
  }

  /** The rest of a stay at a level, when of the level's slices some ticks are spent: the job leaves the level,
      short of a boost or its end, once it has spent them all, and goes one level down. */
  lemma StayEnds(c: Config, s: Sched, w: seq<Place>, j: nat, q: nat, n: nat, spent: int)
    requires Top(c, s, w) && !c.stay && 0 < q < |c.quantum| && Stays(c, s, j, q, n)
    requires Credit(c, s.job[j]) == c.quantum[q] * c.allotment[q] - spent
    ensures var t := After(c, s, n);
            && |t.queue| == |c.quantum| && j < |t.job|
            && spent + s.job[j].timeLeft - t.job[j].timeLeft < c.quantum[q] * c.allotment[q]
            && (!Boosts(c, t) ==>
                  var y := Step(c, t).job;
                  && |y| == |t.job|
                  && (y[j].timeLeft > 0 ==>
                        if spent + s.job[j].timeLeft - y[j].timeLeft == c.quantum[q] * c.allotment[q] then
                          y[j].currPri == q - 1
                        else y[j].currPri == q))
  {
    var wn := CreditIsTime(c, s, w, j, q, n);
    var t := After(c, s, n);
    assert Placed(c, t, At(t.ioDone, t.time), t.time, j, PlaceOf(wn, j));
    CreditPositive(c, t.job[j]);
    if !Boosts(c, t) {
      StepCredit(c, t, wn, j);
    }
  }

  /** Without -S, a job that enters a level above 0 leaves it, short of a boost or its end, exactly when it has run
      the level's slices, and goes one level down. */
  lemma FullAllotment(c: Config, s: Sched, w: seq<Place>, j: nat, q: nat, n: nat)
    requires Top(c, s, w) && !c.stay && 0 < q < |c.quantum| && Stays(c, s, j, q, n)
    requires s.job[j].allotLeft == c.allotment[q] && s.job[j].ticksLeft == c.quantum[q]
    ensures var t := After(c, s, n);
            && |t.queue| == |c.quantum| && j < |t.job|
            && s.job[j].timeLeft - t.job[j].timeLeft < c.quantum[q] * c.allotment[q]
            && (!Boosts(c, t) ==>
                  var y := Step(c, t).job;
                  && |y| == |t.job|
                  && (y[j].timeLeft > 0 ==>
                        if s.job[j].timeLeft - y[j].timeLeft == c.quantum[q] * c.allotment[q] then y[j].currPri == q - 1
                        else y[j].currPri == q))
  {
    EntryCredit(c, s.job[j], q);
    StayEnds(c, s, w, j, q, n, 0);
  }

  /** The same counted from a boost, whose turn may already run the job. */
  lemma FullAllotmentFromBoost(c: Config, s: Sched, w: seq<Place>, j: nat, n: nat)
    requires Top(c, s, w) && !c.stay && Boosts(c, s) && c.Hi() > 0 && j < |s.job| && s.job[j].timeLeft > 0
    requires |Step(c, s).queue| == |c.quantum| && Stays(c, Step(c, s), j, c.Hi(), n)
    ensures var t, q := After(c, Step(c, s), n), c.Hi();
            && |t.queue| == |c.quantum| && j < |t.job|
            && s.job[j].timeLeft - t.job[j].timeLeft < c.quantum[q] * c.allotment[q]
            && (!Boosts(c, t) ==>
                  var y := Step(c, t).job;
                  && |y| == |t.job|
                  && (y[j].timeLeft > 0 ==>
                        if s.job[j].timeLeft - y[j].timeLeft == c.quantum[q] * c.allotment[q] then y[j].currPri == q - 1
                        else y[j].currPri == q))
  {
    BoostCredit(c, s, w, j);
    var w1 := StepKeeps(c, s, w);
    StayEnds(c, Step(c, s), w1, j, c.Hi(), n, s.job[j].timeLeft - Step(c, s).job[j].timeLeft);
  }

  lemma CreditPositive(c: Config, x: Job)
    requires c.Ok() && x.currPri < |c.quantum| && Budget(c, x)
    ensures Credit(c, x) >= 1
  {
  }

  lemma EntryCredit(c: Config, x: Job, q: nat)
    requires c.Ok() && 0 < q < |c.quantum| && x.currPri == q && x.allotLeft == c.allotment[q]
             && x.ticksLeft == c.quantum[q]
    ensures Credit(c, x) == c.quantum[q] * c.allotment[q]
  {
    TimesIs(c.allotment[q], c.quantum[q]);
    assert Times(c.allotment[q], c.quantum[q]) == Times(c.allotment[q] - 1, c.quantum[q]) + c.quantum[q];
  }

  // ---------- The order within a queue ----------

  lemma {:induction false} ReadyWhole(queue: seq<nat>, job: seq<Job>)
    requires forall k :: 0 <= k < |queue| ==> queue[k] < |job| && !job[queue[k]].doingIO
    ensures Ready(queue, job) == queue
  {
    if queue != [] {
      var n := |queue| - 1;
      ReadyWhole(queue[..n], job);
      assert queue == queue[..n] + [queue[n]];
    }
  }

  /** The look at doingIO in a boost leaves no queued job out: jobs doing I/O are in no queue. */
  lemma BoostSkipsNone(c: Config, s: Sched, rest: seq<Wake>, lo: int, w: seq<Place>, k: nat)
    requires Inv(c, s, rest, lo, w) && k < |s.queue|
    ensures Ready(s.queue[k], s.job) == s.queue[k]
  {
    var queue := s.queue[k];
    forall i | 0 <= i < |queue|
      ensures queue[i] < |s.job| && !s.job[queue[i]].doingIO
    {
      var j := queue[i];
      assert Placed(c, s, rest, lo, j, PlaceOf(w, j)) && InQueue(s, j, PlaceOf(w, j), k);
      assert j in multiset(queue);
    }
    ReadyWhole(queue, s.job);
  }

  /** Running the head of a queue changes no queue, or takes the job off it; where it is put back it is last; all
      other jobs keep their order. */
  lemma RunKeepsOrder(c: Config, s: Sched, w: seq<Place>, q: nat, k: nat)
    requires Inv(c, s, [], s.time, w) && q < |s.queue| && s.queue[q] != [] && k < |s.queue|
    ensures Head(c, s, q) && |RunHead(c, s, q).queue| == |s.queue|
    ensures var j, t := s.queue[q][0], RunHead(c, s, q).queue[k];
            && Del(t, j) == Del(s.queue[k], j)
            && (t == s.queue[k] || j !in t || t[|t| - 1] == j)
  {
    NoAbort(c, s, [], s.time, w, q);
    var h := s.queue[q][0];
    HeadOnce(c, s, w, q, k);
    var rest := if k == q then s.queue[q][1..] else s.queue[k];
    DelConcat(rest, [h], h);
    if k == q {
      assert s.queue[q] == [h] + rest;
      DelConcat([h], rest, h);
    }
  }

  /** The head of a queue is nowhere else. */
  lemma HeadOnce(c: Config, s: Sched, w: seq<Place>, q: nat, k: nat)
    requires Inv(c, s, [], s.time, w) && q < |s.queue| && s.queue[q] != [] && k < |s.queue|
    ensures s.queue[q][0] !in if k == q then s.queue[q][1..] else s.queue[k]
  {
    var h := s.queue[q][0];
    NoAbort(c, s, [], s.time, w, q);
    assert Placed(c, s, [], s.time, h, PlaceOf(w, h)) && InQueue(s, h, PlaceOf(w, h), k);
    if k == q {
      OccTail(s.queue[q], h);
      assert h !in multiset(s.queue[q][1..]);
    } else {
      assert h !in multiset(s.queue[k]);
    }
  }

  /** A job that wakes goes to the end of its queue, or after I/O to the front with iobump; all others keep their
      order. */
  lemma WakeKeepsOrder(c: Config, s: Sched, e: Wake, k: nat)
    requires e.job < |s.job| && s.job[e.job].currPri < |s.queue| && k < |s.queue|
    ensures |WakeOne(c, s, e).queue| == |s.queue|
    ensures var t := WakeOne(c, s, e).queue[k];
            && Del(t, e.job) == Del(s.queue[k], e.job)
            && (if k != s.job[e.job].currPri then t == s.queue[k]
                else t != [] && if c.iobump && !e.begins then t[0] == e.job else t[|t| - 1] == e.job)
  {
    DelConcat(s.queue[k], [e.job], e.job);
    DelConcat([e.job], s.queue[k], e.job);
  }

  // ---------- The start ----------

  datatype Spec = Spec(startTime: nat, runTime: int, ioFreq: int)

  function NewJob(c: Config, spec: Spec): Job
    requires c.Ok()
  {
    Job(c.Hi(), c.quantum[c.Hi()], c.allotment[c.Hi()], spec.startTime, spec.runTime, spec.runTime, spec.ioFreq,
        false, -1, -1)
  }

  function AddJob(c: Config, s: Sched, spec: Spec): Sched
    requires c.Ok()
  {
    s.(job := s.job + [NewJob(c, spec)], ioDone := AddWake(s.ioDone, spec.startTime, Wake(|s.job|, true)))
  }

  function NoQueues(n: nat): (r: seq<seq<nat>>)
    ensures |r| == n && forall q :: 0 <= q < n ==> r[q] == []
  {
    seq(n, _ => [])
  }

  /** Every job waits to begin. */
  function Start(c: Config, specs: seq<Spec>): Sched
    requires c.Ok()
  {
    if specs == [] then Sched(NoQueues(|c.quantum|), [], map[], 0, 0)
    else AddJob(c, Start(c, specs[..|specs| - 1]), specs[|specs| - 1])
  }

  predicate Runnable(specs: seq<Spec>) {
    forall k :: 0 <= k < |specs| ==> specs[k].runTime > 0
  }

  /** With no queue filled and time zero: nothing yet. */
  predicate Early(c: Config, s: Sched)
    requires c.Ok()
  {
    s.time == 0 && s.finished == 0 && s.queue == NoQueues(|c.quantum|)
  }

  lemma AddJobPlaced(c: Config, s: Sched, spec: Spec, j: nat, p: Place)
    requires c.Ok() && spec.runTime > 0 && Early(c, s)
    requires Placed(c, s, At(s.ioDone, 0), 0, j, p) && (j >= |s.job| ==> p.Done?)
    ensures var s2 := AddJob(c, s, spec);
            Placed(c, s2, At(s2.ioDone, 0), 0, j, if j == |s.job| then Waiting(spec.startTime) else p)
  {
    var s2, p2 := AddJob(c, s, spec), if j == |s.job| then Waiting(spec.startTime) else p;
    forall q: nat | q < |s2.queue|
      ensures InQueue(s2, j, p2, q)
    {
      assert InQueue(s, j, p, q);
    }
    forall t | t >= 0
      ensures InWait(s2, At(s2.ioDone, 0), 0, j, p2, t)
    {
      assert InWait(s, At(s.ioDone, 0), 0, j, p, t);
      AddWakeCalls(s.ioDone, spec.startTime, Wake(|s.job|, true), t, j);
    }
  }

  lemma {:induction false} StartPlaced(c: Config, specs: seq<Spec>) returns (w: seq<Place>)
    requires c.Ok() && Runnable(specs)
    ensures Early(c, Start(c, specs)) && |Start(c, specs).job| == |specs| && Top(c, Start(c, specs), w)
    decreases |specs|
  {
    var s := Start(c, specs);
    if specs == [] {
      w := [];
      forall j: nat
        ensures Placed(c, s, At(s.ioDone, s.time), s.time, j, PlaceOf(w, j))
      {
        forall q: nat | q < |s.queue|
          ensures InQueue(s, j, Done, q)
        {
        }
      }
    } else {
      var n := |specs| - 1;
      var before, spec := Start(c, specs[..n]), specs[n];
      var w0 := StartPlaced(c, specs[..n]);
      w := w0 + [Waiting(spec.startTime)];
      SumAppend(w0, Waiting(spec.startTime), FINISHED);
      forall j: nat
        ensures Placed(c, s, At(s.ioDone, s.time), s.time, j, PlaceOf(w, j))
      {
        assert Placed(c, before, At(before.ioDone, before.time), before.time, j, PlaceOf(w0, j));
        AddJobPlaced(c, before, spec, j, PlaceOf(w0, j));
      }
    }
  }

  // ---------- The scheduler object ----------

  class Scheduler {
    const c: Config
    var queue: seq<seq<nat>>
    var job: seq<Job>
    var ioDone: map<int, seq<Wake>>
    var currTime: nat
    var finishedJobs: nat
    ghost var w: seq<Place>

    ghost function S(): Sched
      reads this
    {
      Sched(queue, job, ioDone, currTime, finishedJobs)
    }

    constructor (c: Config, specs: seq<Spec>)
      requires c.Ok() && Runnable(specs)
      ensures this.c == c && S() == Start(c, specs) && Top(c, S(), w)
    {
      this.c := c;
      queue, currTime, finishedJobs := NoQueues(|c.quantum|), 0, 0;
      var jobs: seq<Job>, io: map<int, seq<Wake>> := [], map[];
      for k := 0 to |specs|
        invariant Sched(NoQueues(|c.quantum|), jobs, io, 0, 0) == Start(c, specs[..k])
      {
        assert specs[..k + 1][..k] == specs[..k];
        io := AddWake(io, specs[k].startTime, Wake(|jobs|, true));
        jobs := jobs + [NewJob(c, specs[k])];
      }
      assert specs[..|specs|] == specs;
      job, ioDone := jobs, io;
      ghost var w0 := StartPlaced(c, specs);
      w := w0;
    }

    /** Moves the jobs of the lower queues to the highest. */
    method BoostQueuesInPlace()
      requires c.Ok() && |queue| == |c.quantum|
      modifies this`queue
      ensures queue == BoostQueues(c, old(queue), job)
    {
      var hi := |queue| - 1;
      for q := 0 to hi
        invariant |queue| == |old(queue)|
        invariant queue[hi] == old(queue)[hi] + Drain(old(queue), job, q)
        invariant forall k :: 0 <= k < q ==> queue[k] == []
        invariant forall k :: q <= k < hi ==> queue[k] == old(queue)[k]
      {
        var moved := [];
        for i := 0 to |queue[q]|
          invariant moved == Ready(queue[q][..i], job)
        {
          var j := queue[q][i];
          assert queue[q][..i + 1][..i] == queue[q][..i];
          if !(j < |job| && job[j].doingIO) {
            moved := moved + [j];
          }
        }
        assert queue[q][..|queue[q]|] == queue[q];
        queue := queue[hi := queue[hi] + moved][q := []];
      }
    }

    method BoostJobsInPlace()
      requires c.Ok()
      modifies this`job
      ensures job == BoostJobs(c, old(job))
    {
      for j := 0 to |job|
        invariant |job| == |old(job)|
        invariant forall k :: 0 <= k < j ==> job[k] == BoostJob(c, old(job)[k])
        invariant forall k :: j <= k < |job| ==> job[k] == old(job)[k]
      {
        if job[j].timeLeft > 0 {
          job := job[j := job[j].(currPri := c.Hi(), ticksLeft := c.quantum[c.Hi()], allotLeft := c.allotment[c.Hi()])];
        }
      }
    }

    method WakeJob(e: Wake, ghost rest: seq<Wake>)
      requires Inv(c, S(), [e] + rest, currTime, w)
      modifies this`queue, this`job, this`w
      ensures S() == WakeOne(c, old(S()), e) && Inv(c, S(), rest, currTime, w)
      ensures Horizon(w) <= Horizon(old(w)) && TotalLeft(S()) == TotalLeft(old(S()))
    {
      assert ([e] + rest)[1..] == rest;
      CalledWaits(c, S(), [e] + rest, currTime, w);
      WakeKeeps(c, S(), [e] + rest, currTime, w);
      HorizonQueued(w, e.job);
      assert Placed(c, S(), [e] + rest, currTime, e.job, PlaceOf(w, e.job));
      var q := job[e.job].currPri;
      SumUpdate(job, e.job, job[e.job].(doingIO := false), LEFT);
      job := job[e.job := job[e.job].(doingIO := false)];
      queue := queue[q := if !c.iobump || e.begins then queue[q] + [e.job] else [e.job] + queue[q]];
      w := w[e.job := Queued];
    }

    /** Wakes the jobs whose time has come. */
    method Wakeups()
      requires Inv(c, S(), At(ioDone, currTime), currTime, w)
      modifies this`queue, this`job, this`w
      ensures S() == WakeList(c, old(S()), At(ioDone, currTime)) && Inv(c, S(), [], currTime, w)
      ensures Horizon(w) <= Horizon(old(w)) && TotalLeft(S()) == TotalLeft(old(S()))
    {
      var es := At(ioDone, currTime);
      for i := 0 to |es|
        invariant Inv(c, S(), es[i..], currTime, w) && WakeList(c, S(), es[i..]) == WakeList(c, old(S()), es)
        invariant Horizon(w) <= Horizon(old(w)) && TotalLeft(S()) == TotalLeft(old(S()))
      {
        assert es[i..] == [es[i]] + es[i + 1..];
        WakeJob(es[i], es[i + 1..]);
      }
    }

    /** The highest nonempty queue, or -1. */
    method FindQueue() returns (q: int)
      requires |queue| > 0
      ensures q == Find(queue, |queue|)
    {
      q := |queue| - 1;
      while q > 0
        invariant 0 <= q < |queue| && Find(queue, |queue|) == Find(queue, q + 1)
      {
        if queue[q] != [] {
          return;
        }
        q := q - 1;
      }
      if queue[0] != [] {
        return 0;
      }
      return -1;
    }

    /** Runs the head of a queue for one tick. */
    method Tick(currQueue: nat)
      requires c.Ok() && Inv(c, S(), [], currTime, w) && currQueue < |queue| && queue[currQueue] != []
      modifies this
      ensures Head(c, old(S()), currQueue) && S() == RunHead(c, old(S()), currQueue)
      ensures Top(c, S(), w) && TotalLeft(S()) == TotalLeft(old(S())) - 1
    {
      NoAbort(c, S(), [], currTime, w, currQueue);
      RunKeeps(c, S(), w, currQueue);
      ghost var w2 := w[queue[currQueue][0] := NextPlace(c, S(), currQueue)];
      var currJob := queue[currQueue][0];
      assert job[currJob].currPri == currQueue;
      var x := Ran(job[currJob], currTime);
      assert x.timeLeft >= 0;
      currTime := currTime + 1;
      if x.timeLeft == 0 {
        finishedJobs := finishedJobs + 1;
        job := job[currJob := x.(endTime := currTime)];
        queue := queue[currQueue := queue[currQueue][1..]];
      } else {
        AfterTick(currQueue, currJob, x);
      }
      w := w2;
    }

    /** The job has time left: it may start an I/O, and its slice may end. */
    method AfterTick(currQueue: nat, currJob: nat, x: Job)
      requires c.Ok() && |queue| == |c.quantum| && currQueue < |queue| && queue[currQueue] != []
               && queue[currQueue][0] == currJob < |job|
      requires x.currPri == currQueue
      modifies this`queue, this`job, this`ioDone
      ensures var y, io, slice := NextJob(c, x, currQueue), DoesIO(x), x.ticksLeft == 0;
              && y.currPri < |c.quantum| && job == old(job)[currJob := y]
              && queue == NextQueues(old(queue), currQueue, currJob, io || slice, slice && !io, y.currPri)
              && ioDone == if io then AddWake(old(ioDone), currTime + c.ioTime, Wake(currJob, false)) else old(ioDone)
    {
      var y := x;
      var issuedIO := false;
      if x.ioFreq > 0 && (x.runTime - x.timeLeft) % x.ioFreq == 0 {
        issuedIO := true;
        queue := queue[currQueue := queue[currQueue][1..]];
        y := StartIO(c, y, currQueue);
        ioDone := AddWake(ioDone, currTime + c.ioTime, Wake(currJob, false));
      }
      if x.ticksLeft == 0 {
        if !issuedIO {
          queue := queue[currQueue := queue[currQueue][1..]];
        }
        y := EndSlice(c, y, currQueue);
        if !issuedIO {
          queue := queue[y.currPri := queue[y.currPri] + [currJob]];
        }
      }
      job := job[currJob := y];
    }

    method CheckBoost()
      requires Top(c, S(), w)
      modifies this`queue, this`job
      ensures S() == (if Boosts(c, old(S())) then Boost(c, old(S())) else old(S()))
      ensures Top(c, S(), w) && TotalLeft(S()) == TotalLeft(old(S()))
    {
      if c.boost > 0 && currTime != 0 && currTime % c.boost == 0 {
        BoostKeeps(c, S(), At(ioDone, currTime), currTime, w);
        BoostQueuesInPlace();
        BoostJobsInPlace();
        SumSame(job, old(job));
      }
    }

    method RunOrIdle()
      requires Inv(c, S(), [], currTime, w)
      modifies this
      ensures S() == Dispatch(c, old(S())) && Top(c, S(), w) && Nearer(old(S()), old(w), S(), w)
    {
      var currQueue := FindQueue();
      if currQueue == -1 {
        IdleKeeps(c, S(), w);
        if finishedJobs < |job| {
          IdleWaits(c, S(), w);
        }
        currTime := currTime + 1;
      } else {
        Tick(currQueue);
        LeftNonNegative(c, S(), w);
      }
    }

    /** One turn of the loop. */
    method Turn()
      requires Top(c, S(), w)
      modifies this
      ensures S() == Step(c, old(S())) && Top(c, S(), w) && Nearer(old(S()), old(w), S(), w)
    {
      CheckBoost();
      WakeListTime(c, S(), At(ioDone, currTime));
      Wakeups();
      RunOrIdle();
    }

    /** The whole simulation ends, with every job finished. */
    method Simulate()
      requires Top(c, S(), w)
      modifies this
      ensures Top(c, S(), w) && forall j :: 0 <= j < |w| ==> w[j].Done?
      ensures forall j :: 0 <= j < |job| ==> job[j].timeLeft == 0
    {
      while finishedJobs < |job|
        invariant Top(c, S(), w)
        decreases TotalLeft(S()), Horizon(w) - currTime
      {
        Turn();
      }
      AllDone(w);
      forall j | 0 <= j < |job|
        ensures job[j].timeLeft == 0
      {
        assert Placed(c, S(), At(ioDone, currTime), currTime, j, PlaceOf(w, j));
      }
    }
  }

  lemma {:induction false} AllDone(w: seq<Place>)
    requires Sum(w, FINISHED) >= |w|
    ensures forall j :: 0 <= j < |w| ==> w[j].Done?
  {
    if w != [] {
      SumAtMost(w[1..]);
      AllDone(w[1..]);
    }
  }

  lemma {:induction false} SumAtMost(w: seq<Place>)
    ensures Sum(w, FINISHED) <= |w|
  {
    if w != [] {
      SumAtMost(w[1..]);
    }
  }
}
