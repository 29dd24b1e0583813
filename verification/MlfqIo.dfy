/**
 When the jobs of mlfq.py wait: from the start to their start time, and then, with an I/O frequency, after every so many
 ticks of their own for the length of an I/O; a job without one never waits again.
 */
module MlfqIo {
  import opened Arith
  import opened Mlfq

  /** The job waits for a wakeup at a time to come, or now. */
  predicate WaitsAt(s: Sched, j: nat, u: int) {
    u >= s.time && Calls(At(s.ioDone, u), j) > 0
  }

  ghost predicate NeverWaits(s: Sched, j: nat) {
    forall u :: !WaitsAt(s, j, u)
  }

  /** What a job asks for and what is left of it. */
  predicate SameTask(x: Job, y: Job) {
    y.runTime == x.runTime && y.ioFreq == x.ioFreq && y.timeLeft == x.timeLeft
  }

  // ---------- One turn ----------

  lemma {:induction false} WakeListTask(c: Config, s: Sched, es: seq<Wake>, j: nat)
    requires j < |s.job|
    ensures var t := WakeList(c, s, es); |t.job| == |s.job| && SameTask(s.job[j], t.job[j]) && t.ioDone == s.ioDone
    decreases |es|
  {
    if es != [] {
      WakeListTask(c, WakeOne(c, s, es[0]), es[1..], j);
    }
  }

  lemma WokenTask(c: Config, s: Sched, j: nat)
    requires c.Ok() && |s.queue| == |c.quantum| && j < |s.job|
    ensures var t := Woken(c, s); |t.job| == |s.job| && SameTask(s.job[j], t.job[j]) && t.ioDone == s.ioDone
  {
    WakeListTask(c, if Boosts(c, s) then Boost(c, s) else s, At(s.ioDone, s.time), j);
  }

  /** The job that a turn ran has one tick less left; no other job's task changes. */
  predicate RanOne(x: Job, y: Job) {
    y.runTime == x.runTime && y.ioFreq == x.ioFreq && y.timeLeft == x.timeLeft - 1
  }

  lemma RunHeadTask(c: Config, s: Sched, q: nat, j: nat)
    requires c.Ok() && Head(c, s, q) && j < |s.job|
    ensures var x, t := s.job[j], RunHead(c, s, q);
            |t.job| == |s.job| && if j == s.queue[q][0] then RanOne(x, t.job[j]) else t.job[j] == x
  {
  }

  lemma RunHeadIo(c: Config, s: Sched, q: nat, j: nat, u: int)
    requires c.Ok() && Head(c, s, q) && j < |s.job| && s.job[s.queue[q][0]].timeLeft > 0
    ensures var t := RunHead(c, s, q);
            && |t.job| == |s.job|
            && Calls(At(t.ioDone, u), j) == Calls(At(s.ioDone, u), j)
               + Bit(j == s.queue[q][0] && t.job[j].timeLeft > 0 && DoesIO(t.job[j]) && u == s.time + 1 + c.ioTime)
  {
    var h := s.queue[q][0];
    RunIo(c, s, q);
    RunHeadTask(c, s, q, h);
    SameIo(Ran(s.job[h], s.time), RunHead(c, s, q).job[h]);
    AddWakeCalls(s.ioDone, s.time + 1 + c.ioTime, Wake(h, false), u, j);
  }

  lemma SameIo(x: Job, y: Job)
    requires SameTask(x, y)
    ensures DoesIO(x) == DoesIO(y)
  {
  }

  lemma DispatchIo(c: Config, s: Sched, lo: int, w: seq<Place>, j: nat, u: int)
    requires Inv(c, s, [], lo, w) && j < |s.job|
    ensures |Dispatch(c, s).job| == |s.job|
    ensures var x, t := s.job[j], Dispatch(c, s);
            var y := t.job[j];
            && (SameTask(x, y) || (RanOne(x, y) && PlaceOf(w, j) == Queued))
            && Calls(At(t.ioDone, u), j) == Calls(At(s.ioDone, u), j)
               + Bit(RanOne(x, y) && y.timeLeft > 0 && DoesIO(y) && u == s.time + 1 + c.ioTime)
  {
    var q := Find(s.queue, |s.queue|);
    if q != -1 {
      NoAbort(c, s, [], lo, w, q);
      RunHeadTask(c, s, q, j);
      RunHeadIo(c, s, q, j, u);
    }
  }

  /** A queued job has no wakeup to come. */
  lemma QueuedHasNone(c: Config, s: Sched, lo: int, w: seq<Place>, j: nat, u: int)
    requires Inv(c, s, [], lo, w) && PlaceOf(w, j) == Queued && u > lo
    ensures Calls(At(s.ioDone, u), j) == 0
  {
    assert Placed(c, s, [], lo, j, PlaceOf(w, j));
    assert InWait(s, [], lo, j, PlaceOf(w, j), u);
  }

  /** A turn leaves a job's task and its later wakeups alone, or runs it for a tick; a job that runs has no wakeup
      before, and has one after if and only if it does I/O, when the I/O is done. */
  lemma StepIo(c: Config, s: Sched, w: seq<Place>, j: nat, u: int)
    requires Top(c, s, w) && j < |s.job| && u > s.time
    ensures |Step(c, s).job| == |s.job|
    ensures var x, t := s.job[j], Step(c, s);
            var y := t.job[j];
            && (SameTask(x, y) || RanOne(x, y))
            && (SameTask(x, y) ==> (WaitsAt(t, j, u) <==> WaitsAt(s, j, u)))
            && (RanOne(x, y) ==>
                  && !WaitsAt(s, j, u)
                  && (WaitsAt(t, j, u) <==> y.timeLeft > 0 && DoesIO(y) && u == s.time + 1 + c.ioTime))
  {
    var s1 := Woken(c, s);
    var w1 := WokenKeeps(c, s, w);
    var w2 := StepKeeps(c, s, w);
    WokenTask(c, s, j);
    DispatchIo(c, s1, s.time, w1, j, u);
    if PlaceOf(w1, j) == Queued {
      QueuedHasNone(c, s1, s.time, w1, j, u);
    }
  }

  /** What a turn from s to t does to the wakeups of a job at a time. */
  predicate IoAt(c: Config, s: Sched, t: Sched, j: nat, u: int)
    requires j < |s.job| && j < |t.job|
  {
    var x, y := s.job[j], t.job[j];
    && (SameTask(x, y) ==> (WaitsAt(t, j, u) <==> WaitsAt(s, j, u)))
    && (RanOne(x, y) ==> !WaitsAt(s, j, u) && (WaitsAt(t, j, u) <==>
                                                 y.timeLeft > 0 && DoesIO(y) && u == s.time + 1 + c.ioTime))
  }

  ghost predicate Turned(c: Config, s: Sched, t: Sched, j: nat) {
    && t.time == s.time + 1 && j < |s.job| && j < |t.job|
    && (SameTask(s.job[j], t.job[j]) || RanOne(s.job[j], t.job[j]))
    && forall u :: u > s.time ==> IoAt(c, s, t, j, u)
  }

  lemma StepTurned(c: Config, s: Sched, w: seq<Place>, j: nat)
    requires Top(c, s, w) && j < |s.job|
    ensures Turned(c, s, Step(c, s), j)
  {
    var w1 := StepKeeps(c, s, w);
    JobsStay(c, s, w);
    StepIo(c, s, w, j, s.time + 1);
    forall u | u > s.time
      ensures IoAt(c, s, Step(c, s), j, u)
    {
      StepIo(c, s, w, j, u);
    }
  }

  // ---------- Runs ----------

  lemma JobsStay(c: Config, s: Sched, w: seq<Place>)
    requires Top(c, s, w)
    ensures |Step(c, s).job| == |s.job|
  {
    WakeListTime(c, if Boosts(c, s) then Boost(c, s) else s, At(s.ioDone, s.time));
  }

  lemma {:induction false} AfterKeeps(c: Config, s: Sched, w: seq<Place>, n: nat) returns (wn: seq<Place>)
    requires Top(c, s, w)
    ensures var t := After(c, s, n); Top(c, t, wn) && |t.job| == |s.job| && t.time == s.time + n
    ensures After(c, s, n + 1) == Step(c, After(c, s, n))
    decreases n
  {
    if n == 0 {
      wn := w;
    } else {
      var w1 := StepKeeps(c, s, w);
      JobsStay(c, s, w);
      wn := AfterKeeps(c, Step(c, s), w1, n - 1);
    }
  }

  /** The n-th turn of a run. */
  lemma NextTurned(c: Config, s: Sched, w: seq<Place>, j: nat, n: nat)
    requires Top(c, s, w) && j < |s.job| && n > 0
    ensures Turned(c, After(c, s, n - 1), After(c, s, n), j)
  {
    var wt := AfterKeeps(c, s, w, n - 1);
    StepTurned(c, After(c, s, n - 1), wt, j);
  }

  // ---------- Waiting ----------

  lemma TurnedWaits(c: Config, s: Sched, t: Sched, j: nat, u: int)
    requires Turned(c, s, t, j) && WaitsAt(s, j, u) && u > s.time
    ensures WaitsAt(t, j, u) && SameTask(s.job[j], t.job[j])
  {
    assert IoAt(c, s, t, j, u);
  }

  /** A job that waits does not run before its wakeup comes, and still waits for it when it comes. */
  lemma {:induction false} WaitLasts(c: Config, s: Sched, w: seq<Place>, j: nat, u: int, n: nat)
    requires Top(c, s, w) && j < |s.job| && WaitsAt(s, j, u) && s.time + n <= u
    ensures var t := After(c, s, n);
            && j < |t.job| && t.time == s.time + n && WaitsAt(t, j, u) && SameTask(s.job[j], t.job[j])
  {
    if n > 0 {
      WaitLasts(c, s, w, j, u, n - 1);
      NextTurned(c, s, w, j, n);
      TurnedWaits(c, After(c, s, n - 1), After(c, s, n), j, u);
    }
  }

  /** When it comes, the job is put into the queue of its level, to run in that very turn or later. */
  lemma WaitEnds(c: Config, s: Sched, w: seq<Place>, j: nat)
    requires Top(c, s, w) && j < |s.job| && WaitsAt(s, j, s.time)
    ensures var t := Woken(c, s);
            && j < |t.job| && t.job[j].currPri < |t.queue| && j in t.queue[t.job[j].currPri] && !t.job[j].doingIO
  {
    var s1 := Woken(c, s);
    var w1 := WokenKeeps(c, s, w);
    WokenTask(c, s, j);
    assert Placed(c, s, At(s.ioDone, s.time), s.time, j, PlaceOf(w, j));
    assert InWait(s, At(s.ioDone, s.time), s.time, j, PlaceOf(w, j), s.time);
    assert PlaceOf(w, j) == Waiting(s.time) && s.job[j].timeLeft > 0;
    var p := PlaceOf(w1, j);
    assert Placed(c, s1, [], s.time, j, p);
    var u := if p.Waiting? then p.t else s.time;
    assert InWait(s1, [], s.time, j, p, u) && InWait(s, At(s.ioDone, s.time), s.time, j, PlaceOf(w, j), u);
    assert !p.Waiting?;
    assert InQueue(s1, j, p, s1.job[j].currPri);
  }

  lemma TurnedNoIo(c: Config, s: Sched, t: Sched, j: nat)
    requires Turned(c, s, t, j) && s.job[j].ioFreq <= 0 && NeverWaits(s, j)
    ensures NeverWaits(t, j) && t.job[j].ioFreq <= 0
  {
    forall u
      ensures !WaitsAt(t, j, u)
    {
      assert u > s.time ==> IoAt(c, s, t, j, u);
    }
  }

  /** A job that does no I/O never waits again once it has begun. */
  lemma {:induction false} NoIoNoWait(c: Config, s: Sched, w: seq<Place>, j: nat, n: nat)
    requires Top(c, s, w) && j < |s.job| && s.job[j].ioFreq <= 0 && NeverWaits(s, j)
    ensures var t := After(c, s, n); j < |t.job| && NeverWaits(t, j) && t.job[j].ioFreq <= 0
  {
    if n > 0 {
      NoIoNoWait(c, s, w, j, n - 1);
      NextTurned(c, s, w, j, n);
      TurnedNoIo(c, After(c, s, n - 1), After(c, s, n), j);
    }
  }

  // ---------- The ticks between two I/Os ----------

  function Used(x: Job): int { x.runTime - x.timeLeft }

  /** The job has not run, or its ticks so far are a number of full periods. */
  predicate Beat(x: Job) {
    Used(x) == 0 || (x.ioFreq > 0 && Used(x) % x.ioFreq == 0)
  }

  ghost predicate OnBeat(s: Sched, j: nat)
    requires j < |s.job|
  {
    forall u :: WaitsAt(s, j, u) ==> Beat(s.job[j])
  }

  lemma SameBeat(x: Job, y: Job)
    ensures SameTask(x, y) ==> Beat(x) == Beat(y)
    ensures DoesIO(y) ==> Beat(y)
  {
  }

  lemma TurnedOnBeat(c: Config, s: Sched, t: Sched, j: nat)
    requires Turned(c, s, t, j) && OnBeat(s, j)
    ensures OnBeat(t, j)
  {
    SameBeat(s.job[j], t.job[j]);
    forall u | WaitsAt(t, j, u)
      ensures Beat(t.job[j])
    {
      assert IoAt(c, s, t, j, u);
    }
  }

  /** At the start every job waits for its start time, with all its ticks to run. */
  lemma StartOnBeat(c: Config, specs: seq<Spec>, j: nat)
    requires c.Ok() && j < |specs|
    ensures var s := Start(c, specs);
            && j < |s.job| && s.job[j] == NewJob(c, specs[j]) && s.time == 0
            && WaitsAt(s, j, specs[j].startTime) && OnBeat(s, j)
  {
    StartJobs(c, specs, j);
    StartCalls(c, specs, j);
  }

  lemma {:induction false} StartJobs(c: Config, specs: seq<Spec>, j: nat)
    requires c.Ok()
    ensures var s := Start(c, specs);
            && |s.job| == |specs| && s.time == 0
            && (j < |specs| ==> s.job[j] == NewJob(c, specs[j]))
  {
    if specs != [] {
      StartJobs(c, specs[..|specs| - 1], j);
    }
  }

  lemma {:induction false} StartCalls(c: Config, specs: seq<Spec>, j: nat)
    requires c.Ok() && j < |specs|
    ensures Calls(At(Start(c, specs).ioDone, specs[j].startTime), j) > 0
  {
    var n := |specs| - 1;
    var before := Start(c, specs[..n]);
    StartJobs(c, specs[..n], 0);
    AddWakeCalls(before.ioDone, specs[n].startTime, Wake(n, true), specs[j].startTime, j);
    if j < n {
      StartCalls(c, specs[..n], j);
    }
  }

  lemma {:induction false} AfterOnBeat(c: Config, s: Sched, w: seq<Place>, j: nat, n: nat)
    requires Top(c, s, w) && j < |s.job| && OnBeat(s, j)
    ensures var t := After(c, s, n); j < |t.job| && OnBeat(t, j)
  {
    if n > 0 {
      AfterOnBeat(c, s, w, j, n - 1);
      NextTurned(c, s, w, j, n);
      TurnedOnBeat(c, After(c, s, n - 1), After(c, s, n), j);
    }
  }

  lemma MultipleApart(a: int, b: int, f: int)
    requires f > 0 && a % f == 0 && 0 <= b - a <= f
    ensures b % f == 0 <==> b == a || b == a + f
  {
    assert a == f * (a / f);
    if b == a + f {
      DivModUnique(b, a / f + 1, f, 0);
    } else if b > a {
      DivModUnique(b, a / f, f, b - a);
    }
  }

  /** From full periods on, over ticks that do not fill another one, a job that has run does not wait. */
  lemma {:induction false} WithinPeriod(c: Config, s: Sched, w: seq<Place>, j: nat, n: nat)
    requires Top(c, s, w) && j < |s.job| && s.job[j].ioFreq > 0 && Used(s.job[j]) % s.job[j].ioFreq == 0
    ensures var t := After(c, s, n); j < |t.job| && Within(s.job[j], t, j)
  {
    if n > 0 {
      WithinPeriod(c, s, w, j, n - 1);
      NextTurned(c, s, w, j, n);
      TurnedWithin(c, After(c, s, n - 1), After(c, s, n), j, s.job[j]);
    }
  }

  /** Ticks of a task that stands at full periods, without an I/O since. */
  ghost predicate Within(x: Job, t: Sched, j: nat)
    requires j < |t.job|
  {
    var y := t.job[j];
    && y.runTime == x.runTime && y.ioFreq == x.ioFreq && y.timeLeft <= x.timeLeft
    && (0 < x.timeLeft - y.timeLeft < x.ioFreq && y.timeLeft > 0 ==> NeverWaits(t, j))
  }

  lemma IoWhenFull(x: Job, y: Job)
    requires x.ioFreq > 0 && Used(x) % x.ioFreq == 0 && y.runTime == x.runTime && y.ioFreq == x.ioFreq
    requires 0 < x.timeLeft - y.timeLeft <= x.ioFreq
    ensures DoesIO(y) <==> x.timeLeft - y.timeLeft == x.ioFreq
  {
    MultipleApart(Used(x), Used(y), x.ioFreq);
  }

  lemma TurnedWithin(c: Config, s: Sched, t: Sched, j: nat, x: Job)
    requires Turned(c, s, t, j) && Within(x, s, j) && x.ioFreq > 0 && Used(x) % x.ioFreq == 0
    ensures Within(x, t, j)
  {
    var y := t.job[j];
    if 0 < x.timeLeft - y.timeLeft < x.ioFreq && y.timeLeft > 0 {
      IoWhenFull(x, y);
      forall u
        ensures !WaitsAt(t, j, u)
      {
        assert u > s.time ==> IoAt(c, s, t, j, u);
      }
    }
  }

  lemma TurnedEnds(c: Config, s: Sched, t: Sched, j: nat, x: Job)
    requires Turned(c, s, t, j) && Within(x, s, j) && x.ioFreq > 0 && Used(x) % x.ioFreq == 0
    requires x.timeLeft - s.job[j].timeLeft < x.ioFreq == x.timeLeft - t.job[j].timeLeft && t.job[j].timeLeft > 0
    ensures forall u :: WaitsAt(t, j, u) <==> u == s.time + 1 + c.ioTime
  {
    IoWhenFull(x, t.job[j]);
    forall u
      ensures WaitsAt(t, j, u) <==> u == s.time + 1 + c.ioTime
    {
      assert u > s.time ==> IoAt(c, s, t, j, u);
    }
  }

  /** The tick that fills the period leaves an unfinished job waiting until its I/O is done, and for nothing else. */
  lemma PeriodEnds(c: Config, s: Sched, w: seq<Place>, j: nat, n: nat)
    requires Top(c, s, w) && j < |s.job| && s.job[j].ioFreq > 0 && Used(s.job[j]) % s.job[j].ioFreq == 0
    ensures var t := After(c, s, n);
            && |t.queue| == |c.quantum| && j < |t.job| && j < |Step(c, t).job|
            && var y, f := Step(c, t).job[j], s.job[j].ioFreq;
               s.job[j].timeLeft - t.job[j].timeLeft < f == s.job[j].timeLeft - y.timeLeft && y.timeLeft > 0 ==>
                 forall u :: WaitsAt(Step(c, t), j, u) <==> u == t.time + 1 + c.ioTime
  {
    var t := After(c, s, n);
    WithinPeriod(c, s, w, j, n);
    var wt := AfterKeeps(c, s, w, n);
    StepTurned(c, t, wt, j);
    var t1, x := Step(c, t), s.job[j];
    if x.timeLeft - t.job[j].timeLeft < x.ioFreq == x.timeLeft - t1.job[j].timeLeft && t1.job[j].timeLeft > 0 {
      TurnedEnds(c, t, t1, j, x);
    }
  }

  /** In any run: from its start, or from a time at which it waits for an I/O, a job runs exactly ioFreq ticks before it
      waits again; in between it does not wait, and then it waits until ioTime after the tick. */
  lemma IoEvery(c: Config, specs: seq<Spec>, m: nat, j: nat, n: nat)
    requires c.Ok() && Runnable(specs) && j < |specs| && specs[j].ioFreq > 0
    requires j < |After(c, Start(c, specs), m).job|
    requires var s := After(c, Start(c, specs), m);
             s.job[j].timeLeft == specs[j].runTime || exists u :: WaitsAt(s, j, u)
    ensures var s := After(c, Start(c, specs), m);
            var t := After(c, s, n);
            && |s.queue| == |t.queue| == |c.quantum| && j < |t.job| && j < |Step(c, t).job|
            && var ran, next := s.job[j].timeLeft - t.job[j].timeLeft, s.job[j].timeLeft - Step(c, t).job[j].timeLeft;
               && (0 < ran < specs[j].ioFreq && t.job[j].timeLeft > 0 ==> NeverWaits(t, j))
               && (ran < specs[j].ioFreq == next && Step(c, t).job[j].timeLeft > 0 ==>
                     forall u :: WaitsAt(Step(c, t), j, u) <==> u == t.time + 1 + c.ioTime)
  {
    var s := After(c, Start(c, specs), m);
    var w := Reached(c, specs, m, j);
    var wt := AfterKeeps(c, s, w, n);
    WithinPeriod(c, s, w, j, n);
    PeriodEnds(c, s, w, j, n);
  }

  /** In any reachable state a job is what it was made, and if it waits or has not run, its ticks are full periods. */
  lemma Reached(c: Config, specs: seq<Spec>, m: nat, j: nat) returns (w: seq<Place>)
    requires c.Ok() && Runnable(specs) && j < |specs|
    ensures var s := After(c, Start(c, specs), m);
            && Top(c, s, w) && j < |s.job|
            && s.job[j].runTime == specs[j].runTime && s.job[j].ioFreq == specs[j].ioFreq
            && (s.job[j].ioFreq > 0 && (s.job[j].timeLeft == specs[j].runTime || exists u :: WaitsAt(s, j, u)) ==>
                  Used(s.job[j]) % s.job[j].ioFreq == 0)
  {
    var s0 := Start(c, specs);
    var w0 := StartPlaced(c, specs);
    StartOnBeat(c, specs, j);
    AfterOnBeat(c, s0, w0, j, m);
    w := AfterKeeps(c, s0, w0, m);
    TaskStays(c, s0, w0, j, m);
  }

  lemma {:induction false} TaskStays(c: Config, s: Sched, w: seq<Place>, j: nat, n: nat)
    requires Top(c, s, w) && j < |s.job|
    ensures var t := After(c, s, n);
            && j < |t.job| && t.job[j].runTime == s.job[j].runTime && t.job[j].ioFreq == s.job[j].ioFreq
  {
    if n > 0 {
      TaskStays(c, s, w, j, n - 1);
      NextTurned(c, s, w, j, n);
    }
  }
}
