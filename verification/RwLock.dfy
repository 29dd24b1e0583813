/**
 The reader/writer lock of rwlock.c and the threads that use it, as a state machine. Every access to shared
 memory is a step of one thread: an increment is a load and a store. A semaphore wait is enabled when the
 value is positive. Any number of readers and writers, each with any number of turns.
 */
module RwLock {
  import opened Arith
  import opened Sums

  /** Where a reader is: what it does next. */
  datatype RPc =
    | RAcquire            // Sem_wait(lock)
    | RLoad               // load readers
    | RStore(tmp: int)    // store readers + 1
    | RTest               // readers == 1?
    | RWaitWrite          // Sem_wait(writelock)
    | RPost               // Sem_post(lock)
    | RInside             // local = counter
    | RRelease            // Sem_wait(lock)
    | RUnload             // load readers
    | RUnstore(tmp: int)  // store readers - 1
    | RUntest             // readers == 0?
    | RPostWrite          // Sem_post(writelock)
    | RUnpost             // Sem_post(lock)
    | RDone

  datatype WPc = WAcquire | WLoad | WStore(tmp: int) | WRelease | WDone

  datatype Reader = Reader(pc: RPc, left: nat)
  datatype Writer = Writer(pc: WPc, left: nat)

  /** The threads, the two semaphores, the number of readers, and the counter they share. */
  datatype State = State(rs: seq<Reader>, ws: seq<Writer>, lock: int, writelock: int, readers: int, counter: int)

  datatype Act = R(i: nat) | W(i: nat)

  // ---------- Steps ----------

  predicate Enabled(s: State, a: Act) {
    match a
    case R(i) => i < |s.rs| && (match s.rs[i].pc
                                case RAcquire => s.lock > 0
                                case RRelease => s.lock > 0
                                case RWaitWrite => s.writelock > 0
                                case RDone => false
                                case _ => true)
    case W(i) => i < |s.ws| && (match s.ws[i].pc
                                case WAcquire => s.writelock > 0
                                case WDone => false
                                case _ => true)
  }

  /** The next place of a reader; the last step of a turn starts the next turn, if one is left. */
  function NextR(s: State, x: Reader): Reader {
    match x.pc
    case RAcquire => x.(pc := RLoad)
    case RLoad => x.(pc := RStore(s.readers))
    case RStore(_) => x.(pc := RTest)
    case RTest => x.(pc := if s.readers == 1 then RWaitWrite else RPost)
    case RWaitWrite => x.(pc := RPost)
    case RPost => x.(pc := RInside)
    case RInside => x.(pc := RRelease)
    case RRelease => x.(pc := RUnload)
    case RUnload => x.(pc := RUnstore(s.readers))
    case RUnstore(_) => x.(pc := RUntest)
    case RUntest => x.(pc := if s.readers == 0 then RPostWrite else RUnpost)
    case RPostWrite => x.(pc := RUnpost)
    case RUnpost => StartR(if x.left > 0 then x.left - 1 else 0)
    case RDone => x
  }

  function StartR(left: nat): Reader { Reader(if left == 0 then RDone else RAcquire, left) }

  function StartW(left: nat): Writer { Writer(if left == 0 then WDone else WAcquire, left) }

  function NextW(s: State, x: Writer): Writer {
    match x.pc
    case WAcquire => x.(pc := WLoad)
    case WLoad => x.(pc := WStore(s.counter))
    case WStore(_) => x.(pc := WRelease)
    case WRelease => StartW(if x.left > 0 then x.left - 1 else 0)
    case WDone => x
  }

  function Apply(s: State, a: Act): State
    requires Enabled(s, a)
  {
    match a
    case R(i) =>
      var pc := s.rs[i].pc;
      State(s.rs[i := NextR(s, s.rs[i])], s.ws,
            if pc == RAcquire || pc == RRelease then s.lock - 1
            else if pc == RPost || pc == RUnpost then s.lock + 1
            else s.lock,
            if pc == RWaitWrite then s.writelock - 1 else if pc == RPostWrite then s.writelock + 1 else s.writelock,
            if pc.RStore? then pc.tmp + 1 else if pc.RUnstore? then pc.tmp - 1 else s.readers,
            s.counter)
    case W(i) =>
      var pc := s.ws[i].pc;
      State(s.rs, s.ws[i := NextW(s, s.ws[i])], s.lock,
            if pc == WAcquire then s.writelock - 1 else if pc == WRelease then s.writelock + 1 else s.writelock,
            s.readers,
            if pc.WStore? then pc.tmp + 1 else s.counter)
  }

  function Readers(n: nat, loops: nat): (r: seq<Reader>)
    ensures |r| == n && forall i :: 0 <= i < n ==> r[i] == StartR(loops)
  {
    seq(n, _ => StartR(loops))
  }

  function Writers(n: nat, loops: nat): (r: seq<Writer>)
    ensures |r| == n && forall i :: 0 <= i < n ==> r[i] == StartW(loops)
  {
    seq(n, _ => StartW(loops))
  }

  function Init(r: nat, w: nat, readLoops: nat, writeLoops: nat): State {
    State(Readers(r, readLoops), Writers(w, writeLoops), 1, 1, 0, 0)
  }

  // ---------- The invariant ----------

  /** Between the wait for `lock` and its post. */
  predicate Holds(pc: RPc) {
    !(pc == RAcquire || pc == RInside || pc == RRelease || pc == RDone)
  }

  /** Counted in `readers`. */
  predicate Counts(pc: RPc) {
    pc == RTest || pc == RWaitWrite || pc == RPost || pc == RInside || pc == RRelease || pc == RUnload || pc.RUnstore?
  }

  const HOLDING: Reader -> int := (x: Reader) => Bit(Holds(x.pc))
  const COUNTED: Reader -> int := (x: Reader) => Bit(Counts(x.pc))
  const WRITING: Writer -> int := (x: Writer) => Bit(x.pc == WLoad || x.pc.WStore? || x.pc == WRelease)

  /** Someone has taken writelock, and it is no writer: the readers as a group have it. */
  predicate Held(s: State) {
    s.writelock + Sum(s.ws, WRITING) == 0
  }

  /** What the reader with `lock` knows. */
  predicate HolderOk(s: State, pc: RPc) {
    match pc
    case RLoad => Held(s) <==> s.readers > 0
    case RStore(tmp) => tmp == s.readers && (Held(s) <==> s.readers > 0)
    case RTest => Held(s) <==> s.readers > 1
    case RWaitWrite => s.readers == 1 && !Held(s)
    case RPost => Held(s)
    case RUnload => Held(s)
    case RUnstore(tmp) => tmp == s.readers && Held(s)
    case RUntest => Held(s)
    case RPostWrite => Held(s) && s.readers == 0
    case RUnpost => Held(s) <==> s.readers > 0
    case _ => true
  }

  predicate LocksOk(s: State) {
    && s.lock >= 0 && s.lock + Sum(s.rs, HOLDING) == 1
    && s.writelock >= 0 && 0 <= s.writelock + Sum(s.ws, WRITING) <= 1
    && s.readers == Sum(s.rs, COUNTED)
  }

  predicate HolderKnows(s: State, i: nat)
    requires i < |s.rs|
  {
    Holds(s.rs[i].pc) ==> HolderOk(s, s.rs[i].pc)
  }

  predicate ReadersOk(s: State) {
    && (forall i: nat :: i < |s.rs| ==> HolderKnows(s, i))
    && (s.lock == 1 ==> (Held(s) <==> s.readers > 0))
  }

  /** Increments done by a writer that has `loops` turns. */
  function Wrote(loops: nat): Writer -> int {
    (x: Writer) => loops - x.left + Bit(x.pc == WRelease)
  }

  predicate WriterKnows(s: State, i: nat)
    requires i < |s.ws|
  {
    (s.ws[i].pc.WStore? ==> s.ws[i].pc.tmp == s.counter) && (s.ws[i].pc == WDone <==> s.ws[i].left == 0)
  }

  predicate WritersOk(s: State, loops: nat) {
    && (forall i: nat :: i < |s.ws| ==> WriterKnows(s, i))
    && s.counter == Sum(s.ws, Wrote(loops))
  }

  predicate Inv(s: State, loops: nat) {
    LocksOk(s) && ReadersOk(s) && WritersOk(s, loops)
  }

  // ---------- Counting ----------

  lemma HoldingBits(s: seq<Reader>)
    ensures Sum(s, HOLDING) >= 0 && Sum(s, COUNTED) >= 0
  {
    SumNonNegative(s, HOLDING);
    SumNonNegative(s, COUNTED);
  }

  /** Two threads for which f is one make the sum two. */
  lemma SumTwo<T>(s: seq<T>, f: T -> int, i: nat, j: nat, none: T)
    requires i < |s| && j < |s| && i != j && f(none) == 0 && forall k :: 0 <= k < |s| ==> f(s[k]) >= 0
    ensures Sum(s, f) >= f(s[i]) + f(s[j])
  {
    SumUpdate(s, i, none, f);
    SumAtLeast(s[i := none], f, j);
  }

  const NO_READER := Reader(RDone, 0)
  const NO_WRITER := Writer(WDone, 0)

  /** One reader at a time has `lock`. */
  lemma OneHolder(s: State, i: nat, j: nat)
    requires LocksOk(s) && i < |s.rs| && j < |s.rs| && Holds(s.rs[i].pc) && Holds(s.rs[j].pc)
    ensures i == j && s.lock == 0
  {
    SumAtLeast(s.rs, HOLDING, i);
    if i != j {
      SumTwo(s.rs, HOLDING, i, j, NO_READER);
    }
  }

  lemma CountedAtLeast(s: State, i: nat)
    requires LocksOk(s) && i < |s.rs| && Counts(s.rs[i].pc)
    ensures s.readers >= 1
  {
    SumAtLeast(s.rs, COUNTED, i);
  }

  // ---------- Steps keep the invariant ----------

  lemma ReaderLocks(s: State, i: nat, loops: nat)
    requires Inv(s, loops) && Enabled(s, R(i))
    ensures LocksOk(Apply(s, R(i)))
    ensures Held(Apply(s, R(i)))
         == if s.rs[i].pc == RWaitWrite then true else if s.rs[i].pc == RPostWrite then false else Held(s)
  {
    var x := NextR(s, s.rs[i]);
    SumUpdate(s.rs, i, x, HOLDING);
    SumUpdate(s.rs, i, x, COUNTED);
    HoldingBits(s.rs);
    SumNonNegative(s.ws, WRITING);
    assert HolderKnows(s, i);
    if Counts(s.rs[i].pc) {
      CountedAtLeast(s, i);
    }
  }

  lemma ReaderHolders(s: State, i: nat, loops: nat)
    requires Inv(s, loops) && Enabled(s, R(i))
    ensures ReadersOk(Apply(s, R(i)))
  {
    var t := Apply(s, R(i));
    ReaderLocks(s, i, loops);
    assert HolderKnows(s, i);
    HoldingBits(s.rs);
    if Counts(s.rs[i].pc) {
      CountedAtLeast(s, i);
    }
    if Holds(s.rs[i].pc) {
      OneHolder(s, i, i);
    }
    forall j: nat | j < |t.rs|
      ensures HolderKnows(t, j)
    {
      assert HolderKnows(s, j);
      if j != i && Holds(s.rs[j].pc) {
        OneHolder(s, j, j);
        if Holds(s.rs[i].pc) {
          OneHolder(s, i, j);
        }
      }
    }
  }

  lemma ReaderKeeps(s: State, i: nat, loops: nat)
    requires Inv(s, loops) && Enabled(s, R(i))
    ensures Inv(Apply(s, R(i)), loops)
  {
    var t := Apply(s, R(i));
    ReaderLocks(s, i, loops);
    ReaderHolders(s, i, loops);
    forall j: nat | j < |t.ws|
      ensures WriterKnows(t, j)
    {
      assert WriterKnows(s, j);
    }
  }

  /** One writer at a time is inside. */
  lemma OneWriter(s: State, i: nat, j: nat)
    requires LocksOk(s) && i < |s.ws| && j < |s.ws| && WRITING(s.ws[i]) == 1 && WRITING(s.ws[j]) == 1
    ensures i == j && s.writelock == 0
  {
    SumAtLeast(s.ws, WRITING, i);
    if i != j {
      SumTwo(s.ws, WRITING, i, j, NO_WRITER);
    }
  }

  lemma WriterLocks(s: State, i: nat, loops: nat)
    requires Inv(s, loops) && Enabled(s, W(i))
    ensures LocksOk(Apply(s, W(i))) && ReadersOk(Apply(s, W(i)))
  {
    var t := Apply(s, W(i));
    SumUpdate(s.ws, i, NextW(s, s.ws[i]), WRITING);
    assert WriterKnows(s, i);
    forall j: nat | j < |t.rs|
      ensures HolderKnows(t, j)
    {
      assert HolderKnows(s, j);
    }
  }

  lemma WriterKeeps(s: State, i: nat, loops: nat)
    requires Inv(s, loops) && Enabled(s, W(i))
    ensures Inv(Apply(s, W(i)), loops)
  {
    var t := Apply(s, W(i));
    WriterLocks(s, i, loops);
    assert WriterKnows(s, i);
    SumUpdate(s.ws, i, NextW(s, s.ws[i]), Wrote(loops));
    forall j: nat | j < |t.ws|
      ensures WriterKnows(t, j)
    {
      assert WriterKnows(s, j);
      if j != i && s.ws[i].pc.WStore? && s.ws[j].pc.WStore? {
        OneWriter(s, i, j);
      }
    }
  }

  lemma StepKeeps(s: State, a: Act, loops: nat)
    requires Inv(s, loops) && Enabled(s, a)
    ensures Inv(Apply(s, a), loops)
  {
    match a
    case R(i) => ReaderKeeps(s, i, loops);
    case W(i) => WriterKeeps(s, i, loops);
  }

  lemma InvInit(r: nat, w: nat, readLoops: nat, writeLoops: nat)
    ensures Inv(Init(r, w, readLoops, writeLoops), writeLoops)
  {
    var s := Init(r, w, readLoops, writeLoops);
    SumZero(s.rs, HOLDING);
    SumZero(s.rs, COUNTED);
    SumZero(s.ws, WRITING);
    SumZero(s.ws, Wrote(writeLoops));
    forall i: nat | i < |s.rs|
      ensures HolderKnows(s, i)
    {
    }
  }

  ghost predicate Runs(s: State, acts: seq<Act>, t: State)
    decreases |acts|
  {
    if acts == [] then t == s else Enabled(s, acts[0]) && Runs(Apply(s, acts[0]), acts[1..], t)
  }

  lemma {:induction false} RunsKeep(s: State, acts: seq<Act>, t: State, loops: nat)
    requires Inv(s, loops) && Runs(s, acts, t)
    ensures Inv(t, loops) && |t.rs| == |s.rs| && |t.ws| == |s.ws|
    decreases |acts|
  {
    if acts != [] {
      StepKeeps(s, acts[0], loops);
      RunsKeep(Apply(s, acts[0]), acts[1..], t, loops);
    }
  }

  // ---------- Exclusion ----------

  /** A reader or a writer that may touch the counter. */
  predicate ReaderIn(s: State, i: nat) { i < |s.rs| && s.rs[i].pc == RInside }

  predicate WriterIn(s: State, i: nat) { i < |s.ws| && (s.ws[i].pc == WLoad || s.ws[i].pc.WStore?) }

  /** A reader inside means that the readers have writelock. */
  lemma InsideHeld(s: State, i: nat, loops: nat)
    requires Inv(s, loops) && i < |s.rs| && (s.rs[i].pc == RInside || s.rs[i].pc == RRelease)
    ensures Held(s)
  {
    CountedAtLeast(s, i);
    HoldingBits(s.rs);
    if s.lock != 1 {
      var h := SomeHolder(s.rs);
      assert HolderKnows(s, h);
      if Counts(s.rs[h].pc) {
        SumTwo(s.rs, COUNTED, i, h, NO_READER);
      }
    }
  }

  lemma {:induction false} SomeHolder(rs: seq<Reader>) returns (i: nat)
    requires Sum(rs, HOLDING) > 0
    ensures i < |rs| && Holds(rs[i].pc)
  {
    if Holds(rs[0].pc) {
      i := 0;
    } else {
      i := SomeHolder(rs[1..]);
      i := i + 1;
    }
  }

  lemma {:induction false} SomeWriter(ws: seq<Writer>) returns (i: nat)
    requires Sum(ws, WRITING) > 0
    ensures i < |ws| && WRITING(ws[i]) == 1
  {
    if WRITING(ws[0]) == 1 {
      i := 0;
    } else {
      i := SomeWriter(ws[1..]);
      i := i + 1;
    }
  }

  /** A writer inside excludes readers and other writers, in every reachable state. */
  lemma Exclusion(r: nat, w: nat, readLoops: nat, writeLoops: nat, acts: seq<Act>, s: State, i: nat)
    requires Runs(Init(r, w, readLoops, writeLoops), acts, s) && WriterIn(s, i)
    ensures forall j: nat :: !ReaderIn(s, j)
    ensures forall j: nat :: WriterIn(s, j) ==> j == i
  {
    InvInit(r, w, readLoops, writeLoops);
    RunsKeep(Init(r, w, readLoops, writeLoops), acts, s, writeLoops);
    SumAtLeast(s.ws, WRITING, i);
    forall j: nat
      ensures !ReaderIn(s, j)
    {
      if ReaderIn(s, j) {
        InsideHeld(s, j, writeLoops);
      }
    }
    forall j: nat | WriterIn(s, j)
      ensures j == i
    {
      OneWriter(s, i, j);
    }
  }

  // ---------- Who has writelock ----------

  /** A member of the group: past the point where it holds, or another holds for it. */
  predicate Member(pc: RPc) {
    pc == RPost || pc == RInside || pc == RRelease || pc == RUnload || pc.RUnstore? || pc == RUntest || pc == RPostWrite
  }

  predicate SomeMember(s: State) {
    exists i: nat :: i < |s.rs| && Member(s.rs[i].pc)
  }

  lemma {:induction false} SomeCounted(rs: seq<Reader>) returns (i: nat)
    requires Sum(rs, COUNTED) > 0
    ensures i < |rs| && Counts(rs[i].pc)
  {
    if Counts(rs[0].pc) {
      i := 0;
    } else {
      i := SomeCounted(rs[1..]);
      i := i + 1;
    }
  }

  /** A counted reader besides the one at h. */
  lemma OtherCounted(s: State, h: nat) returns (i: nat)
    requires LocksOk(s) && h < |s.rs| && s.readers > COUNTED(s.rs[h])
    ensures i < |s.rs| && i != h && Counts(s.rs[i].pc)
  {
    SumUpdate(s.rs, h, NO_READER, COUNTED);
    i := SomeCounted(s.rs[h := NO_READER]);
  }

  /** The readers have writelock exactly while one of them is a member. */
  lemma HeldIffMember(s: State, loops: nat)
    requires Inv(s, loops)
    ensures Held(s) <==> SomeMember(s)
  {
    if i: nat :| i < |s.rs| && Member(s.rs[i].pc) {
      assert HolderKnows(s, i);
      if !Holds(s.rs[i].pc) {
        InsideHeld(s, i, loops);
      }
    }
    if Held(s) {
      HeldMember(s, loops);
    }
  }

  lemma HeldMember(s: State, loops: nat)
    requires Inv(s, loops) && Held(s)
    ensures SomeMember(s)
  {
    var i: nat;
    HoldingBits(s.rs);
    if s.lock == 1 {
      i := SomeCounted(s.rs);
      if Holds(s.rs[i].pc) {
        OneHolder(s, i, i);
      }
    } else {
      var h := SomeHolder(s.rs);
      assert HolderKnows(s, h);
      if Member(s.rs[h].pc) {
        i := h;
      } else {
        i := OtherCounted(s, h);
        if Holds(s.rs[i].pc) {
          OneHolder(s, i, h);
        }
      }
    }
    assert Member(s.rs[i].pc);
  }

  // ---------- No deadlock ----------

  predicate Finished(s: State) {
    (forall i: nat :: i < |s.rs| ==> s.rs[i].pc == RDone) && (forall i: nat :: i < |s.ws| ==> s.ws[i].pc == WDone)
  }

  predicate CanStep(s: State) {
    (exists i: nat :: i < |s.rs| && Enabled(s, R(i))) || (exists i: nat :: i < |s.ws| && Enabled(s, W(i)))
  }

  lemma WriterCanStep(s: State)
    requires Sum(s.ws, WRITING) > 0
    ensures CanStep(s)
  {
    var i := SomeWriter(s.ws);
    assert Enabled(s, W(i));
  }

  /** Some thread can go on as long as not all are done. */
  lemma NoDeadlock(s: State, loops: nat)
    requires Inv(s, loops) && !Finished(s)
    ensures CanStep(s)
  {
    HoldingBits(s.rs);
    if s.lock != 1 {
      var h := SomeHolder(s.rs);
      assert HolderKnows(s, h);
      if s.rs[h].pc == RWaitWrite && s.writelock == 0 {
        WriterCanStep(s);
      } else {
        assert Enabled(s, R(h));
      }
    } else if i: nat :| i < |s.rs| && s.rs[i].pc != RDone {
      if Holds(s.rs[i].pc) {
        OneHolder(s, i, i);
      }
      assert Enabled(s, R(i));
    } else {
      SumZero(s.rs, COUNTED);
      var i: nat :| i < |s.ws| && s.ws[i].pc != WDone;
      if s.ws[i].pc == WAcquire && s.writelock == 0 {
        WriterCanStep(s);
      } else {
        assert Enabled(s, W(i));
      }
    }
  }

  lemma NoReachableDeadlock(r: nat, w: nat, readLoops: nat, writeLoops: nat, acts: seq<Act>, s: State)
    requires Runs(Init(r, w, readLoops, writeLoops), acts, s) && !Finished(s)
    ensures CanStep(s)
  {
    InvInit(r, w, readLoops, writeLoops);
    RunsKeep(Init(r, w, readLoops, writeLoops), acts, s, writeLoops);
    NoDeadlock(s, writeLoops);
  }

  // ---------- Runs end, and no increment is lost ----------

  function RankR(pc: RPc): nat {
    match pc
    case RAcquire => 13
    case RLoad => 12
    case RStore(_) => 11
    case RTest => 10
    case RWaitWrite => 9
    case RPost => 8
    case RInside => 7
    case RRelease => 6
    case RUnload => 5
    case RUnstore(_) => 4
    case RUntest => 3
    case RPostWrite => 2
    case RUnpost => 1
    case RDone => 0
  }

  function RankW(pc: WPc): nat {
    match pc
    case WAcquire => 4
    case WLoad => 3
    case WStore(_) => 2
    case WRelease => 1
    case WDone => 0
  }

  /** Steps a thread still has at most. */
  const STEPS_R: Reader -> int := (x: Reader) => (if x.left > 0 then 13 * (x.left - 1) else 0) + RankR(x.pc)
  const STEPS_W: Writer -> int := (x: Writer) => (if x.left > 0 then 4 * (x.left - 1) else 0) + RankW(x.pc)

  function Measure(s: State): int { Sum(s.rs, STEPS_R) + Sum(s.ws, STEPS_W) }

  lemma MeasureNonNegative(s: State)
    ensures Measure(s) >= 0
  {
    SumNonNegative(s.rs, STEPS_R);
    SumNonNegative(s.ws, STEPS_W);
  }

  lemma StepMeasure(s: State, a: Act)
    requires Enabled(s, a)
    ensures Measure(Apply(s, a)) < Measure(s)
  {
    match a
    case R(i) => SumUpdate(s.rs, i, NextR(s, s.rs[i]), STEPS_R);
    case W(i) => SumUpdate(s.ws, i, NextW(s, s.ws[i]), STEPS_W);
  }

  lemma {:induction false} RunsFall(s: State, acts: seq<Act>, t: State)
    requires Runs(s, acts, t)
    ensures |acts| <= Measure(s) - Measure(t)
    decreases |acts|
  {
    if acts != [] {
      StepMeasure(s, acts[0]);
      RunsFall(Apply(s, acts[0]), acts[1..], t);
    }
  }

  lemma {:induction false} ReadersMeasure(n: nat, loops: nat)
    ensures Sum(Readers(n, loops), STEPS_R) == 13 * (n * loops)
  {
    if n > 0 {
      assert Readers(n, loops)[1..] == Readers(n - 1, loops);
      ReadersMeasure(n - 1, loops);
      assert n * loops == (n - 1) * loops + loops;
    }
  }

  lemma {:induction false} WritersMeasure(n: nat, loops: nat)
    ensures Sum(Writers(n, loops), STEPS_W) == 4 * (n * loops)
  {
    if n > 0 {
      assert Writers(n, loops)[1..] == Writers(n - 1, loops);
      WritersMeasure(n - 1, loops);
      assert n * loops == (n - 1) * loops + loops;
    }
  }

  /** No run takes more steps than there are to take, thirteen for a reader's turn and four for a writer's: every
      schedule ends. */
  lemma RunsAreBounded(r: nat, w: nat, readLoops: nat, writeLoops: nat, acts: seq<Act>, t: State)
    requires Runs(Init(r, w, readLoops, writeLoops), acts, t)
    ensures |acts| <= 13 * (r * readLoops) + 4 * (w * writeLoops)
  {
    RunsFall(Init(r, w, readLoops, writeLoops), acts, t);
    ReadersMeasure(r, readLoops);
    WritersMeasure(w, writeLoops);
    MeasureNonNegative(t);
  }

  lemma {:induction false} AllWrote(ws: seq<Writer>, loops: nat)
    requires forall i: nat :: i < |ws| ==> ws[i].pc == WDone && ws[i].left == 0
    ensures Sum(ws, Wrote(loops)) == |ws| * loops
  {
    if ws != [] {
      AllWrote(ws[1..], loops);
      assert |ws| * loops == |ws[1..]| * loops + loops;
    }
  }

  /** When all threads are done the counter has every writer's increments: none was lost between a load and a store. */
  lemma NoLostIncrement(r: nat, w: nat, readLoops: nat, writeLoops: nat, acts: seq<Act>, s: State)
    requires Runs(Init(r, w, readLoops, writeLoops), acts, s) && Finished(s)
    ensures s.counter == w * writeLoops && s.lock == 1 && s.writelock == 1 && s.readers == 0
  {
    InvInit(r, w, readLoops, writeLoops);
    RunsKeep(Init(r, w, readLoops, writeLoops), acts, s, writeLoops);
    SumZero(s.rs, HOLDING);
    SumZero(s.rs, COUNTED);
    SumZero(s.ws, WRITING);
    forall i: nat | i < |s.ws|
      ensures s.ws[i].left == 0
    {
      assert WriterKnows(s, i);
    }
    AllWrote(s.ws, writeLoops);
  }
}
