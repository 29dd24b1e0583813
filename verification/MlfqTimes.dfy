/**
 What mlfq.py does when: boosts at the multiples of the boost period and at no other time, the times at which a job
 first runs and ends, which its statistics are made of, and the mark of a job that does I/O.
 */
module MlfqTimes {
  import opened Arith
  import opened Mlfq
  import opened MlfqIo

  // ---------- Boosts ----------

  /** A boost comes at every multiple of the period but the start. */
  lemma BoostsAtMultiples(c: Config, s: Sched, k: nat)
    requires c.boost > 0 && k >= 1 && s.time == k * c.boost
    ensures Boosts(c, s)
  {
    DivModUnique(s.time, k, c.boost, 0);
    MulMono(1, k, c.boost);
  }

  /** None comes in between, at the start, or without a period. */
  lemma NoBoostBetween(c: Config, s: Sched, k: nat)
    requires c.boost <= 0 || s.time == 0 || k * c.boost < s.time < k * c.boost + c.boost
    ensures !Boosts(c, s)
  {
    if c.boost > 0 && s.time != 0 {
      DivModUnique(s.time, k, c.boost, s.time - k * c.boost);
    }
  }

  /** At a boost every unfinished job has the top level's slices in full, and the lower queues are empty. */
  lemma BoostMeans(c: Config, s: Sched, w: seq<Place>, k: nat, j: nat, q: nat)
    requires Top(c, s, w) && c.boost > 0 && k >= 1 && s.time == k * c.boost && j < |s.job| && q < c.Hi()
    ensures var t := Woken(c, s);
            && |t.job| == |s.job| && |t.queue| == |s.queue| && t.queue[q] == []
            && (s.job[j].timeLeft > 0 ==>
                  && t.job[j].currPri == c.Hi()
                  && t.job[j].ticksLeft == c.quantum[c.Hi()] && t.job[j].allotLeft == c.allotment[c.Hi()])
  {
    BoostsAtMultiples(c, s, k);
    var t := Woken(c, s);
    var w1 := WokenKeeps(c, s, w);
    WokenBudget(c, s, j);
    if t.queue[q] != [] {
      NoAbort(c, t, [], s.time, w1, q);
      var h := t.queue[q][0];
      WokenBudget(c, s, h);
    }
  }

  /** At any other time a job keeps its level and what is left of its slices until it runs. */
  lemma NoBoostMeans(c: Config, s: Sched, k: nat, j: nat)
    requires c.Ok() && |s.queue| == |c.quantum| && j < |s.job|
    requires c.boost <= 0 || s.time == 0 || k * c.boost < s.time < k * c.boost + c.boost
    ensures |Woken(c, s).job| == |s.job| && SameBudget(s.job[j], Woken(c, s).job[j])
  {
    NoBoostBetween(c, s, k);
    WokenBudget(c, s, j);
  }

  // ---------- Finished jobs ----------

  lemma {:induction false} NotCalled(c: Config, s: Sched, es: seq<Wake>, j: nat)
    requires j < |s.job| && Calls(es, j) == 0
    ensures |WakeList(c, s, es).job| == |s.job| && WakeList(c, s, es).job[j] == s.job[j]
    decreases |es|
  {
    if es != [] {
      OccTail(Jobs(es), j);
      NotCalled(c, WakeOne(c, s, es[0]), es[1..], j);
    }
  }

  lemma DoneHasNone(c: Config, s: Sched, w: seq<Place>, j: nat, u: int)
    requires Top(c, s, w) && j < |s.job| && s.job[j].timeLeft == 0 && u >= s.time
    ensures Calls(At(s.ioDone, u), j) == 0 && PlaceOf(w, j) == Done
  {
    assert Placed(c, s, At(s.ioDone, s.time), s.time, j, PlaceOf(w, j));
    assert InWait(s, At(s.ioDone, s.time), s.time, j, PlaceOf(w, j), u);
  }

  /** A finished job is never touched again. */
  lemma FinishedStays(c: Config, s: Sched, w: seq<Place>, j: nat)
    requires Top(c, s, w) && j < |s.job| && s.job[j].timeLeft == 0
    ensures |Step(c, s).job| == |s.job| && Step(c, s).job[j] == s.job[j]
  {
    var s1 := Woken(c, s);
    var w1 := WokenKeeps(c, s, w);
    DoneHasNone(c, s, w, j, s.time);
    NotCalled(c, if Boosts(c, s) then Boost(c, s) else s, At(s.ioDone, s.time), j);
    var q := Find(s1.queue, |s1.queue|);
    if q != -1 {
      NoAbort(c, s1, [], s.time, w1, q);
      RunHeadTask(c, s1, q, j);
    }
  }

  // ---------- The first run and the end ----------

  predicate SameTimes(x: Job, y: Job) {
    y.firstRun == x.firstRun && y.endTime == x.endTime
  }

  lemma {:induction false} WakeListTimes(c: Config, s: Sched, es: seq<Wake>, j: nat)
    requires j < |s.job|
    ensures |WakeList(c, s, es).job| == |s.job| && SameTimes(s.job[j], WakeList(c, s, es).job[j])
    decreases |es|
  {
    if es != [] {
      WakeListTimes(c, WakeOne(c, s, es[0]), es[1..], j);
    }
  }

  lemma WokenTimes(c: Config, s: Sched, j: nat)
    requires c.Ok() && |s.queue| == |c.quantum| && j < |s.job|
    ensures |Woken(c, s).job| == |s.job| && SameTimes(s.job[j], Woken(c, s).job[j]) && Woken(c, s).time == s.time
  {
    var s0 := if Boosts(c, s) then Boost(c, s) else s;
    WakeListTimes(c, s0, At(s.ioDone, s.time), j);
    WakeListTime(c, s0, At(s.ioDone, s.time));
  }

  /** What a turn from s to t, at a time, writes down about a job. */
  predicate Notes(x: Job, y: Job, now: nat) {
    if RanOne(x, y) then
      && y.firstRun == (if x.firstRun == -1 then now else x.firstRun)
      && y.endTime == (if y.timeLeft == 0 then now + 1 else x.endTime)
    else SameTimes(x, y)
  }

  lemma RunHeadNotes(c: Config, s: Sched, q: nat, j: nat)
    requires c.Ok() && Head(c, s, q) && j < |s.job|
    ensures |RunHead(c, s, q).job| == |s.job| && Notes(s.job[j], RunHead(c, s, q).job[j], s.time)
  {
    RunHeadTask(c, s, q, j);
  }

  lemma DispatchNotes(c: Config, s: Sched, lo: int, w: seq<Place>, j: nat)
    requires Inv(c, s, [], lo, w) && j < |s.job|
    ensures |Dispatch(c, s).job| == |s.job| && Notes(s.job[j], Dispatch(c, s).job[j], s.time)
  {
    var q := Find(s.queue, |s.queue|);
    if q != -1 {
      NoAbort(c, s, [], lo, w, q);
      RunHeadNotes(c, s, q, j);
    }
  }

  lemma StepNotes(c: Config, s: Sched, w: seq<Place>, j: nat)
    requires Top(c, s, w) && j < |s.job|
    ensures |Step(c, s).job| == |s.job| && Notes(s.job[j], Step(c, s).job[j], s.time)
  {
    var w1 := WokenKeeps(c, s, w);
    WokenTimes(c, s, j);
    WokenTask(c, s, j);
    DispatchNotes(c, Woken(c, s), s.time, w1, j);
  }

  /** A job has a first run exactly when it has run, and an end exactly when it has ended. */
  predicate Noted(x: Job) {
    && (x.firstRun == -1 <==> Used(x) == 0) && (x.endTime == -1 <==> x.timeLeft > 0)
    && Used(x) >= 0 && x.timeLeft >= 0 && x.firstRun >= -1
  }

  lemma NotesKeep(x: Job, y: Job, now: nat)
    requires Noted(x) && Notes(x, y, now) && (SameTask(x, y) || (RanOne(x, y) && x.timeLeft > 0))
    ensures Noted(y)
  {
  }

  lemma {:induction false} ReachedNoted(c: Config, specs: seq<Spec>, n: nat, j: nat) returns (w: seq<Place>)
    requires c.Ok() && Runnable(specs) && j < |specs|
    ensures var t := After(c, Start(c, specs), n); Top(c, t, w) && j < |t.job| && Noted(t.job[j]) && t.time == n
  {
    var s := Start(c, specs);
    var w0 := StartPlaced(c, specs);
    StartOnBeat(c, specs, j);
    w := AfterKeeps(c, s, w0, n);
    if n > 0 {
      var w1 := ReachedNoted(c, specs, n - 1, j);
      NextNoted(c, s, w0, j, n, w1);
    }
  }

  lemma NextNoted(c: Config, s: Sched, w: seq<Place>, j: nat, n: nat, w1: seq<Place>)
    requires Top(c, s, w) && j < |s.job| && n > 0
    requires var t := After(c, s, n - 1); Top(c, t, w1) && j < |t.job| && Noted(t.job[j])
    ensures var t := After(c, s, n); j < |t.job| && Noted(t.job[j])
  {
    var t := After(c, s, n - 1);
    NextTurned(c, s, w, j, n);
    var wt := AfterKeeps(c, s, w, n - 1);
    StepNotes(c, t, w1, j);
    if t.job[j].timeLeft == 0 {
      FinishedStays(c, t, w1, j);
    } else {
      NotesKeep(t.job[j], After(c, s, n).job[j], t.time);
    }
  }

  /** In any run: the first turn that runs a job writes its time down, the turn that ends it the time after it, and
      neither changes later. */
  lemma TimesAre(c: Config, specs: seq<Spec>, n: nat, j: nat)
    requires c.Ok() && Runnable(specs) && j < |specs|
    ensures var t := After(c, Start(c, specs), n);
            && |t.queue| == |c.quantum| && j < |t.job| && j < |Step(c, t).job| && t.time == n
            && var x, y := t.job[j], Step(c, t).job[j];
               && (Used(x) == 0 && Used(y) == 1 ==> y.firstRun == n)
               && (Used(x) > 0 ==> y.firstRun == x.firstRun)
               && (x.timeLeft > 0 && y.timeLeft == 0 ==> y.endTime == n + 1)
               && (x.timeLeft == 0 ==> y == x)
               && (x.firstRun == -1 <==> Used(x) == 0) && (x.endTime == -1 <==> x.timeLeft > 0)
  {
    var w := ReachedNoted(c, specs, n, j);
    var t := After(c, Start(c, specs), n);
    StepNotes(c, t, w, j);
    StepTurned(c, t, w, j);
    if t.job[j].timeLeft == 0 {
      FinishedStays(c, t, w, j);
    }
  }

  // ---------- The mark of a job doing I/O ----------

  ghost predicate Waits(s: Sched, j: nat) {
    exists u :: WaitsAt(s, j, u)
  }

  /** An unfinished job is marked exactly when it has begun and waits. */
  ghost predicate Marked(s: Sched, j: nat)
    requires j < |s.job|
  {
    s.job[j].timeLeft > 0 ==> (s.job[j].doingIO <==> Used(s.job[j]) > 0 && Waits(s, j))
  }

  lemma RunHeadMark(c: Config, s: Sched, q: nat, j: nat)
    requires c.Ok() && Head(c, s, q) && j < |s.job| && !s.job[s.queue[q][0]].doingIO
    ensures var x, t := s.job[j], RunHead(c, s, q);
            && |t.job| == |s.job|
            && (j != s.queue[q][0] ==> t.job[j] == x)
            && (j == s.queue[q][0] && t.job[j].timeLeft > 0 ==> t.job[j].doingIO == DoesIO(t.job[j]))
  {
    var h := s.queue[q][0];
    RunHeadTask(c, s, q, h);
    SameIo(Ran(s.job[h], s.time), RunHead(c, s, q).job[h]);
  }

  /** What a turn does to the mark: a job that runs is marked when it does I/O; another loses its mark when its wakeup
      comes, and keeps it otherwise. */
  lemma StepMark(c: Config, s: Sched, w: seq<Place>, j: nat)
    requires Top(c, s, w) && j < |s.job|
    ensures |Step(c, s).job| == |s.job|
    ensures var x, y := s.job[j], Step(c, s).job[j];
            && (RanOne(x, y) && y.timeLeft > 0 ==> y.doingIO == DoesIO(y))
            && (SameTask(x, y) ==> y.doingIO == (x.doingIO && !WaitsAt(s, j, s.time)))
  {
    var s1 := Woken(c, s);
    var w1 := WokenKeeps(c, s, w);
    WokenMark(c, s, w, j);
    var q := Find(s1.queue, |s1.queue|);
    if q != -1 {
      NoAbort(c, s1, [], s.time, w1, q);
      var h := s1.queue[q][0];
      assert Placed(c, s1, [], s.time, h, PlaceOf(w1, h));
      RunHeadMark(c, s1, q, j);
      RunHeadTask(c, s1, q, j);
    }
  }

  lemma WokenMark(c: Config, s: Sched, w: seq<Place>, j: nat)
    requires Top(c, s, w) && j < |s.job|
    ensures var t := Woken(c, s);
            && |t.job| == |s.job| && SameTask(s.job[j], t.job[j])
            && t.job[j].doingIO == (s.job[j].doingIO && !WaitsAt(s, j, s.time))
  {
    WokenTask(c, s, j);
    if WaitsAt(s, j, s.time) {
      WaitEnds(c, s, w, j);
    } else {
      NotCalled(c, if Boosts(c, s) then Boost(c, s) else s, At(s.ioDone, s.time), j);
    }
  }

  /** A job waits for one wakeup at a time. */
  lemma WaitsOnce(c: Config, s: Sched, w: seq<Place>, j: nat, u: int, v: int)
    requires Top(c, s, w) && WaitsAt(s, j, u) && WaitsAt(s, j, v)
    ensures u == v
  {
    assert Placed(c, s, At(s.ioDone, s.time), s.time, j, PlaceOf(w, j));
    assert InWait(s, At(s.ioDone, s.time), s.time, j, PlaceOf(w, j), u);
    assert InWait(s, At(s.ioDone, s.time), s.time, j, PlaceOf(w, j), v);
  }

  lemma TurnedMarked(c: Config, s: Sched, w: seq<Place>, t: Sched, j: nat)
    requires Top(c, s, w) && Turned(c, s, t, j) && Marked(s, j) && Used(s.job[j]) >= 0
    requires var x, y := s.job[j], t.job[j];
             && (RanOne(x, y) && y.timeLeft > 0 ==> y.doingIO == DoesIO(y))
             && (SameTask(x, y) ==> y.doingIO == (x.doingIO && !WaitsAt(s, j, s.time)))
    ensures Marked(t, j)
  {
    var x, y := s.job[j], t.job[j];
    if y.timeLeft > 0 {
      if RanOne(x, y) {
        assert IoAt(c, s, t, j, s.time + 1 + c.ioTime);
        assert forall u :: WaitsAt(t, j, u) ==> IoAt(c, s, t, j, u);
      } else {
        SameWaits(c, s, w, t, j);
      }
    }
  }

  /** A job that does not run waits on unless its wakeup has come. */
  lemma SameWaits(c: Config, s: Sched, w: seq<Place>, t: Sched, j: nat)
    requires Top(c, s, w) && Turned(c, s, t, j) && SameTask(s.job[j], t.job[j])
    ensures Waits(t, j) <==> Waits(s, j) && !WaitsAt(s, j, s.time)
  {
    if u :| WaitsAt(t, j, u) {
      assert IoAt(c, s, t, j, u);
      if WaitsAt(s, j, s.time) {
        WaitsOnce(c, s, w, j, u, s.time);
      }
    }
    if Waits(s, j) && !WaitsAt(s, j, s.time) {
      var u :| WaitsAt(s, j, u);
      assert IoAt(c, s, t, j, u);
      assert WaitsAt(t, j, u);
    }
  }

  lemma NextMarked(c: Config, s: Sched, w: seq<Place>, j: nat, n: nat, w1: seq<Place>)
    requires Top(c, s, w) && j < |s.job| && n > 0
    requires var t := After(c, s, n - 1);
             Top(c, t, w1) && j < |t.job| && Marked(t, j) && Used(t.job[j]) >= 0
    ensures j < |After(c, s, n).job| && Marked(After(c, s, n), j)
  {
    var t := After(c, s, n - 1);
    var wt := AfterKeeps(c, s, w, n - 1);
    StepTurned(c, t, w1, j);
    StepMark(c, t, w1, j);
    TurnedMarked(c, t, w1, Step(c, t), j);
  }

  /** In every reachable state the jobs marked are those that wait for an I/O. */
  lemma {:induction false} ReachedMarked(c: Config, specs: seq<Spec>, n: nat, j: nat)
    requires c.Ok() && Runnable(specs) && j < |specs|
    ensures var t := After(c, Start(c, specs), n); j < |t.job| && Marked(t, j)
  {
    StartOnBeat(c, specs, j);
    if n > 0 {
      ReachedMarked(c, specs, n - 1, j);
      var w := ReachedNoted(c, specs, n - 1, j);
      var w0 := StartPlaced(c, specs);
      NextMarked(c, Start(c, specs), w0, j, n, w);
    }
  }

  // ---------- Slices ----------

  /** What a tick does to a job's slice: the last one of a slice is followed by a full slice, of its level or the next;
      any other leaves one less, or, with -S, a full allotment when it ends in an I/O. */
  predicate SliceTick(c: Config, x: Job, y: Job)
    requires c.Ok() && x.currPri < |c.quantum| && y.currPri < |c.quantum|
  {
    if x.ticksLeft == 1 then y.ticksLeft == c.quantum[y.currPri] && x.currPri - 1 <= y.currPri <= x.currPri
    else
      && y.currPri == x.currPri
      && if c.stay && DoesIO(y) then y.ticksLeft == c.quantum[x.currPri] && y.allotLeft == c.allotment[x.currPri]
         else y.ticksLeft == x.ticksLeft - 1 && y.allotLeft == x.allotLeft
  }

  lemma NextJobSlice(c: Config, x: Job, q: nat, time: nat)
    requires c.Ok() && q < |c.quantum| && x.currPri == q
    ensures var y := NextJob(c, Ran(x, time), q);
            y.currPri < |c.quantum| && DoesIO(y) == DoesIO(Ran(x, time)) && SliceTick(c, x, y)
  {
    SameIo(Ran(x, time), NextJob(c, Ran(x, time), q));
  }

  lemma DispatchSlice(c: Config, s: Sched, lo: int, w: seq<Place>, j: nat)
    requires Inv(c, s, [], lo, w) && j < |s.job|
    ensures |Dispatch(c, s).job| == |s.job|
    ensures var x, y := s.job[j], Dispatch(c, s).job[j];
            && x.currPri < |c.quantum| && y.currPri < |c.quantum|
            && (if RanOne(x, y) then y.timeLeft > 0 ==> SliceTick(c, x, y) else SameBudget(x, y))
  {
    assert Placed(c, s, [], lo, j, PlaceOf(w, j));
    var q := Find(s.queue, |s.queue|);
    if q != -1 {
      NoAbort(c, s, [], lo, w, q);
      RunHeadTask(c, s, q, j);
      NextJobSlice(c, s.job[s.queue[q][0]], q, s.time);
    }
  }

  /** A turn without a boost, at any level and under either rule. */
  lemma StepSlice(c: Config, s: Sched, w: seq<Place>, j: nat)
    requires Top(c, s, w) && j < |s.job| && !Boosts(c, s)
    ensures |Step(c, s).job| == |s.job|
    ensures var x, y := s.job[j], Step(c, s).job[j];
            && x.currPri < |c.quantum| && y.currPri < |c.quantum|
            && (if RanOne(x, y) then y.timeLeft > 0 ==> SliceTick(c, x, y) else SameBudget(x, y))
  {
    var w1 := WokenKeeps(c, s, w);
    WokenBudget(c, s, j);
    WokenTask(c, s, j);
    DispatchSlice(c, Woken(c, s), s.time, w1, j);
  }

  // ---------- What -S is for ----------

  /** The job stands at a level with its slices in full, less the ticks since its last I/O. */
  predicate Fresh(c: Config, x: Job, q: nat)
    requires c.Ok() && q < |c.quantum|
  {
    && x.currPri == q && x.ioFreq > 0 && Used(x) >= 0
    && x.ticksLeft == c.quantum[q] - Used(x) % x.ioFreq && x.allotLeft == c.allotment[q]
  }

  lemma FreshTick(c: Config, x: Job, y: Job, q: nat)
    requires c.Ok() && c.stay && q < |c.quantum| && Fresh(c, x, q) && x.ioFreq < c.quantum[q]
    requires y.currPri < |c.quantum| && RanOne(x, y) && SliceTick(c, x, y)
    ensures Fresh(c, y, q)
  {
    var f, m := x.ioFreq, Used(x) % x.ioFreq;
    Euclid(Used(x), f);
    if m + 1 == f {
      DivModUnique(Used(y), Used(x) / f + 1, f, 0);
    } else {
      DivModUnique(Used(y), Used(x) / f, f, m + 1);
    }
  }

  /** For n turns without a boost, the job stays unfinished. */
  predicate Unboosted(c: Config, s: Sched, j: nat, n: nat)
    requires c.Ok()
    decreases n
  {
    && |s.queue| == |c.quantum| && j < |s.job| && s.job[j].timeLeft > 0
    && (n == 0 || (!Boosts(c, s) && Unboosted(c, Step(c, s), j, n - 1)))
  }

  /** With -S, a job that does I/O before its slice is used up never leaves its level, however long it runs. */
  lemma {:induction false} StayKeepsLevel(c: Config, s: Sched, w: seq<Place>, j: nat, q: nat, n: nat)
    requires Top(c, s, w) && c.stay && q < |c.quantum| && Unboosted(c, s, j, n)
    requires Fresh(c, s.job[j], q) && s.job[j].ioFreq < c.quantum[q]
    ensures var t := After(c, s, n); j < |t.job| && t.job[j].currPri == q && Fresh(c, t.job[j], q)
    decreases n
  {
    if n > 0 {
      var w1 := StepKeeps(c, s, w);
      StepStaysFresh(c, s, w, j, q);
      StayKeepsLevel(c, Step(c, s), w1, j, q, n - 1);
    }
  }

  lemma StepStaysFresh(c: Config, s: Sched, w: seq<Place>, j: nat, q: nat)
    requires Top(c, s, w) && c.stay && q < |c.quantum| && j < |s.job| && !Boosts(c, s)
    requires Fresh(c, s.job[j], q) && s.job[j].ioFreq < c.quantum[q]
    requires j < |Step(c, s).job| && Step(c, s).job[j].timeLeft > 0
    ensures Fresh(c, Step(c, s).job[j], q) && Step(c, s).job[j].ioFreq == s.job[j].ioFreq
  {
    StepSlice(c, s, w, j);
    StepTurned(c, s, w, j);
    var x, y := s.job[j], Step(c, s).job[j];
    if RanOne(x, y) {
      FreshTick(c, x, y, q);
    }
  }
}
