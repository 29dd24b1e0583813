/**
 The producer/consumer protocol of main-two-cvs-while.c and main-common.c as a state machine.

 Producers 0..P-1 fill the buffer; main, once it has joined them, is filler P and fills it with
 end-of-stream markers. Consumers take. Every C statement that touches shared state is one step of
 one thread. Waiting follows Mesa rules: a signal moves one waiter to the lock queue, a waiter may
 also wake for no reason, and it looks at the buffer again once it has the lock.
 */
module BoundedBuffer {
  import opened Arith
  import opened Sums

  const EMPTY := -2
  const END_OF_STREAM := -1
  const MAX_THREADS := 100
  const INT_MAX := 0x7fff_ffff

  /** Producers, consumers, items per producer, buffer size. */
  datatype Config = Config(P: nat, C: nat, loops: nat, max: nat) {
    /** main's asserts, and values that fit a C int. */
    predicate Ok() {
      loops > 0 && max > 0 && P <= MAX_THREADS && C <= MAX_THREADS && P * loops <= INT_MAX
    }
  }

  /**
   Where a thread is: not created; about to lock; testing its condition; waiting on its condition
   variable; woken and about to relock; about to fill or get; about to signal; about to unlock; returned.
   */
  datatype Pc = New | Lock | Check | Wait | Wake | Act | Signal | Unlock | Done

  datatype Tid = Filler(k: nat) | Taker(k: nat) | NoOne

  datatype Phase = CreateP(i: nat) | CreateC(i: nat) | JoinP(i: nat) | Eos | JoinC(i: nat) | Finished

  /**
   `iter` counts a filler's completed rounds; `tmp`, `count` are the consumers' locals. `filled`,
   `gotten` and `got` record, in order, every value put, every value taken, and by whom.
   */
  datatype State = State(fpc: seq<Pc>, tpc: seq<Pc>, iter: seq<nat>,
                         tmp: seq<int>, count: seq<nat>, got: seq<seq<int>>,
                         main: Phase, holder: Tid,
                         buffer: seq<int>, fillPtr: nat, usePtr: nat, numFull: int, failed: bool,
                         filled: seq<int>, gotten: seq<int>, counts: seq<int>)

  function Init(c: Config): State {
    State(seq(c.P + 1, _ => New), seq(c.C, _ => New), seq(c.P + 1, _ => 0),
          seq(c.C, _ => 0), seq(c.C, _ => 0), seq(c.C, _ => []),
          CreateP(0), NoOne, seq(c.max, _ => EMPTY), 0, 0, 0, false, [], [], [])
  }

  /** Rounds filler `k` has to do, and the value it puts in round `i`. */
  function Quota(c: Config, k: nat): nat {
    if k < c.P then c.loops else c.C
  }

  function Value(c: Config, k: nat, i: nat): int {
    if k < c.P then k * c.loops + i else END_OF_STREAM
  }

  // ---------- Steps ----------

  datatype Action = Go(t: Tid, wake: Tid) | GoMain | Spurious(t: Tid)

  predicate Sized(c: Config, s: State) {
    && |s.fpc| == |s.iter| == c.P + 1
    && |s.tpc| == |s.tmp| == |s.count| == |s.got| == c.C
    && |s.buffer| == c.max
    && s.fillPtr < c.max && s.usePtr < c.max
  }

  /** A signal wakes one waiter if there is one. */
  predicate WakesTaker(s: State, wake: Tid) {
    match wake
    case Taker(j) => j < |s.tpc| && s.tpc[j] == Wait
    case NoOne => Wait !in s.tpc
    case Filler(_) => false
  }

  predicate WakesFiller(s: State, wake: Tid) {
    match wake
    case Filler(j) => j < |s.fpc| && s.fpc[j] == Wait
    case NoOne => Wait !in s.fpc
    case Taker(_) => false
  }

  predicate CanStep(pc: Pc, holder: Tid) {
    match pc
    case Lock => holder == NoOne
    case Wake => holder == NoOne
    case Check => true
    case Act => true
    case Signal => true
    case Unlock => true
    case _ => false
  }

  predicate Enabled(c: Config, s: State, a: Action) {
    && Sized(c, s)
    && !s.failed
    && match a
       case Go(Filler(k), wake) =>
         && k <= c.P && CanStep(s.fpc[k], s.holder)
         && if s.fpc[k] == Signal then WakesTaker(s, wake) else wake == NoOne
       case Go(Taker(k), wake) =>
         && k < c.C && CanStep(s.tpc[k], s.holder)
         && if s.tpc[k] == Signal then WakesFiller(s, wake) else wake == NoOne
       case Go(NoOne, _) => false
       case Spurious(Filler(k)) => k <= c.P && s.fpc[k] == Wait
       case Spurious(Taker(k)) => k < c.C && s.tpc[k] == Wait
       case Spurious(NoOne) => false
       case GoMain =>
         match s.main
         case CreateP(i) => i <= c.P
         case CreateC(i) => i <= c.C
         case JoinP(i) => i <= c.P && (i < c.P ==> s.fpc[i] == Done)
         case Eos => s.fpc[c.P] == Done
         case JoinC(i) => i <= c.C && (i < c.C ==> s.tpc[i] == Done)
         case Finished => false
  }

  /** do_fill by filler `k`: the process gives up when the slot is not empty. */
  function DoFill(c: Config, s: State, k: nat): State
    requires Sized(c, s) && k <= c.P && c.max > 0
  {
    if s.buffer[s.fillPtr] != EMPTY then s.(failed := true)
    else
      var v := Value(c, k, s.iter[k]);
      s.(buffer := s.buffer[s.fillPtr := v], fillPtr := (s.fillPtr + 1) % c.max, numFull := s.numFull + 1,
         filled := s.filled + [v], fpc := s.fpc[k := Signal])
  }

  /** do_get by consumer `k`. */
  function DoGet(c: Config, s: State, k: nat): State
    requires Sized(c, s) && k < c.C && c.max > 0
  {
    var v := s.buffer[s.usePtr];
    if v == EMPTY then s.(failed := true)
    else
      s.(buffer := s.buffer[s.usePtr := EMPTY], usePtr := (s.usePtr + 1) % c.max, numFull := s.numFull - 1,
         tmp := s.tmp[k := v], got := s.got[k := s.got[k] + [v]], gotten := s.gotten + [v],
         tpc := s.tpc[k := Signal])
  }

  function FillerStep(c: Config, s: State, k: nat, wake: Tid): State
    requires c.max > 0 && Enabled(c, s, Go(Filler(k), wake))
  {
    match s.fpc[k]
    case Check =>
      if s.numFull == c.max then s.(fpc := s.fpc[k := Wait], holder := NoOne) else s.(fpc := s.fpc[k := Act])
    case Act => DoFill(c, s, k)
    case Signal =>
      s.(fpc := s.fpc[k := Unlock], tpc := if wake == NoOne then s.tpc else s.tpc[wake.k := Wake])
    case Unlock =>
      var i := s.iter[k] + 1;
      s.(iter := s.iter[k := i], fpc := s.fpc[k := if i < Quota(c, k) then Lock else Done], holder := NoOne)
    case _ => s.(fpc := s.fpc[k := Check], holder := Filler(k))
  }

  function TakerStep(c: Config, s: State, k: nat, wake: Tid): State
    requires c.max > 0 && Enabled(c, s, Go(Taker(k), wake))
  {
    match s.tpc[k]
    case Check =>
      if s.numFull == 0 then s.(tpc := s.tpc[k := Wait], holder := NoOne) else s.(tpc := s.tpc[k := Act])
    case Act => DoGet(c, s, k)
    case Signal =>
      s.(tpc := s.tpc[k := Unlock], fpc := if wake == NoOne then s.fpc else s.fpc[wake.k := Wake])
    case Unlock =>
      s.(count := s.count[k := s.count[k] + 1],
         tpc := s.tpc[k := if s.tmp[k] != END_OF_STREAM then Lock else Done], holder := NoOne)
    case _ => s.(tpc := s.tpc[k := Check], holder := Taker(k))
  }

  function MainStep(c: Config, s: State): State
    requires Enabled(c, s, GoMain)
  {
    match s.main
    case CreateP(i) =>
      if i < c.P then s.(fpc := s.fpc[i := Lock], main := CreateP(i + 1)) else s.(main := CreateC(0))
    case CreateC(i) =>
      if i < c.C then s.(tpc := s.tpc[i := Lock], main := CreateC(i + 1)) else s.(main := JoinP(0))
    case JoinP(i) =>
      if i < c.P then s.(main := JoinP(i + 1))
      else s.(main := Eos, fpc := s.fpc[c.P := if 0 < Quota(c, c.P) then Lock else Done])
    case Eos => s.(main := JoinC(0))
    case JoinC(i) =>
      if i < c.C then s.(main := JoinC(i + 1), counts := s.counts + [s.count[i] as int - 1]) else s.(main := Finished)
  }

  function Apply(c: Config, s: State, a: Action): State
    requires c.max > 0 && Enabled(c, s, a)
  {
    match a
    case Go(Filler(k), wake) => FillerStep(c, s, k, wake)
    case Go(Taker(k), wake) => TakerStep(c, s, k, wake)
    case Spurious(Filler(k)) => s.(fpc := s.fpc[k := Wake])
    case Spurious(Taker(k)) => s.(tpc := s.tpc[k := Wake])
    case GoMain => MainStep(c, s)
  }

  /** `s` is reached from `s0` by a list of enabled actions. */
  predicate Runs(c: Config, s0: State, acts: seq<Action>, s: State)
    requires c.max > 0
    decreases |acts|
  {
    if acts == [] then s == s0
    else Enabled(c, s0, acts[0]) && Runs(c, Apply(c, s0, acts[0]), acts[1..], s)
  }

  // ---------- Sums over threads ----------

  const WAITING: Pc -> int := pc => if pc == Wait then 1 else 0
  const SIGNALLING: Pc -> int := pc => if pc == Signal then 1 else 0
  /** On its way to a fill or a get. */
  const COMING: Pc -> int := pc => if pc == Lock || pc == Check || pc == Wake || pc == Act then 1 else 0

  // ---------- The invariant ----------

  predicate Critical(pc: Pc) {
    pc == Check || pc == Act || pc == Signal || pc == Unlock
  }

  /** The lock is held by exactly the thread that is between lock and unlock. */
  predicate Mutex(s: State) {
    && (forall k :: 0 <= k < |s.fpc| ==> (Critical(s.fpc[k]) <==> s.holder == Filler(k)))
    && (forall k :: 0 <= k < |s.tpc| ==> (Critical(s.tpc[k]) <==> s.holder == Taker(k)))
    && (s.holder.Filler? ==> s.holder.k < |s.fpc|)
    && (s.holder.Taker? ==> s.holder.k < |s.tpc|)
  }

  /** What was tested under the lock still holds when the thread acts. */
  predicate Guards(c: Config, s: State) {
    && (forall k :: 0 <= k < |s.fpc| && s.fpc[k] == Act ==> s.numFull < c.max)
    && (forall k :: 0 <= k < |s.tpc| && s.tpc[k] == Act ==> s.numFull > 0)
  }

  /** main is where the other threads' states say it is. */
  predicate Phases(c: Config, s: State)
    requires Sized(c, s)
  {
    match s.main
    case CreateP(i) =>
      && i <= c.P
      && (forall k :: 0 <= k <= c.P ==> (s.fpc[k] == New <==> k >= i))
      && (forall k :: 0 <= k < c.C ==> s.tpc[k] == New)
    case CreateC(i) =>
      && i <= c.C
      && (forall k :: 0 <= k <= c.P ==> (s.fpc[k] == New <==> k == c.P))
      && (forall k :: 0 <= k < c.C ==> (s.tpc[k] == New <==> k >= i))
    case JoinP(i) =>
      && i <= c.P
      && (forall k :: 0 <= k <= c.P ==> (s.fpc[k] == New <==> k == c.P))
      && (forall k :: 0 <= k < i ==> s.fpc[k] == Done)
      && New !in s.tpc
    case Eos =>
      && (forall k :: 0 <= k < c.P ==> s.fpc[k] == Done)
      && s.fpc[c.P] != New && New !in s.tpc
    case JoinC(i) =>
      && i <= c.C
      && (forall k :: 0 <= k <= c.P ==> s.fpc[k] == Done)
      && (forall k :: 0 <= k < i ==> s.tpc[k] == Done) && New !in s.tpc
    case Finished =>
      && (forall k :: 0 <= k <= c.P ==> s.fpc[k] == Done)
      && (forall k :: 0 <= k < c.C ==> s.tpc[k] == Done)
  }

  predicate Rounds(c: Config, s: State)
    requires Sized(c, s)
  {
    forall k :: 0 <= k <= c.P ==>
      match s.fpc[k]
      case New => s.iter[k] == 0
      case Done => s.iter[k] == Quota(c, k)
      case _ => s.iter[k] < Quota(c, k)
  }

  /** The ring holds exactly what was put and not yet taken, in order, and is empty elsewhere. */
  predicate Ring(c: Config, s: State)
    requires Sized(c, s) && c.max > 0
  {
    && s.gotten <= s.filled
    && s.numFull == |s.filled| - |s.gotten| <= c.max
    && s.fillPtr == |s.filled| % c.max
    && s.usePtr == |s.gotten| % c.max
    && (forall n :: |s.gotten| <= n < |s.filled| ==> s.buffer[n % c.max] == s.filled[n])
    && (forall n :: |s.filled| <= n < |s.gotten| + c.max ==> s.buffer[n % c.max] == EMPTY)
    && (forall n :: 0 <= n < |s.filled| ==> s.filled[n] != EMPTY)
  }

  /** No wake-up is lost: if some consumer sleeps, enough others are coming for what is there, and dually. */
  predicate NoLostWakeup(c: Config, s: State) {
    && (Sum(s.tpc, WAITING) > 0 ==> s.numFull <= Sum(s.tpc, COMING) + Sum(s.fpc, SIGNALLING))
    && (Sum(s.fpc, WAITING) > 0 ==> c.max - s.numFull <= Sum(s.fpc, COMING) + Sum(s.tpc, SIGNALLING))
  }

  predicate Control(c: Config, s: State) {
    && c.Ok()
    && Sized(c, s)
    && !s.failed
    && Mutex(s) && Guards(c, s) && Phases(c, s) && Rounds(c, s)
    && Ring(c, s)
  }

  // ---------- Every step keeps the control invariant ----------

  lemma SlotsDiffer(a: int, b: int, n: nat)
    requires n > 0 && 0 <= a < b < a + n
    ensures a % n != b % n
  {
    Euclid(a, n);
    Euclid(b, n);
    if a % n == b % n {
      var q, r := a / n, b / n;
      if q < r {
        MulStep(q, r, n);
      } else {
        MulMono(r, q, n);
      }
    }
  }

  lemma NextSlot(a: nat, n: nat)
    requires n > 0
    ensures (a % n + 1) % n == (a + 1) % n
  {
    Euclid(a, n);
    var q, r := a / n, a % n;
    if r + 1 < n {
      DivModUnique(a + 1, q, n, r + 1);
      DivModUnique(r + 1, 0, n, r + 1);
    } else {
      assert (q + 1) * n == q * n + n;
      DivModUnique(a + 1, q + 1, n, 0);
      DivModUnique(n, 1, n, 0);
    }
  }

  lemma Wraps(a: nat, n: nat)
    requires n > 0
    ensures (a + n) % n == a % n
  {
    Euclid(a, n);
    assert (a / n + 1) * n == (a / n) * n + n;
    DivModUnique(a + n, a / n + 1, n, a % n);
  }

  /** do_fill finds its slot empty and appends to the ring. */
  lemma RingFill(c: Config, s: State, k: nat)
    requires Sized(c, s) && c.max > 0 && Ring(c, s) && k <= c.P && s.numFull < c.max
    ensures s.buffer[s.fillPtr] == EMPTY
    ensures Ring(c, DoFill(c, s, k)) && !DoFill(c, s, k).failed == !s.failed
  {
    var n, s' := |s.filled|, DoFill(c, s, k);
    assert s.buffer[n % c.max] == EMPTY;
    NextSlot(n, c.max);
    forall j | |s.gotten| <= j < |s.gotten| + c.max && j != n
      ensures s'.buffer[j % c.max] == s.buffer[j % c.max]
    {
      if j < n {
        SlotsDiffer(j, n, c.max);
      } else {
        SlotsDiffer(n, j, c.max);
      }
    }
    ValueNotEmpty(c, k, s.iter[k]);
  }

  lemma ValueNotEmpty(c: Config, k: nat, i: nat)
    ensures Value(c, k, i) != EMPTY
    ensures k < c.P ==> Value(c, k, i) >= 0
  {
    if k < c.P {
      assert k * c.loops >= 0 by { MulMono(0, k, c.loops); }
    }
  }

  /** do_get finds the oldest value not yet taken. */
  lemma RingGet(c: Config, s: State, k: nat)
    requires Sized(c, s) && c.max > 0 && Ring(c, s) && k < c.C && s.numFull > 0
    ensures s.buffer[s.usePtr] == s.filled[|s.gotten|] != EMPTY
    ensures Ring(c, DoGet(c, s, k)) && !DoGet(c, s, k).failed == !s.failed
  {
    var n, s' := |s.gotten|, DoGet(c, s, k);
    assert s.buffer[n % c.max] == s.filled[n];
    NextSlot(n, c.max);
    Wraps(n, c.max);
    forall j | n < j < n + c.max
      ensures s'.buffer[j % c.max] == s.buffer[j % c.max]
    {
      SlotsDiffer(n, j, c.max);
    }
  }

  lemma RingFiller(c: Config, s: State, k: nat, wake: Tid)
    requires c.max > 0 && Sized(c, s) && Guards(c, s) && Ring(c, s) && Enabled(c, s, Go(Filler(k), wake))
    ensures var s' := FillerStep(c, s, k, wake); Sized(c, s') && !s'.failed && Ring(c, s')
  {
    if s.fpc[k] == Act {
      RingFill(c, s, k);
    }
  }

  lemma RingTaker(c: Config, s: State, k: nat, wake: Tid)
    requires c.max > 0 && Sized(c, s) && Guards(c, s) && Ring(c, s) && Enabled(c, s, Go(Taker(k), wake))
    ensures var s' := TakerStep(c, s, k, wake); Sized(c, s') && !s'.failed && Ring(c, s')
  {
    if s.tpc[k] == Act {
      RingGet(c, s, k);
    }
  }

  lemma RingMain(c: Config, s: State)
    requires c.max > 0 && Sized(c, s) && Guards(c, s) && Ring(c, s) && Enabled(c, s, GoMain)
    ensures var s' := MainStep(c, s); Sized(c, s') && !s'.failed && Ring(c, s')
  {
  }

  lemma MutexFiller(c: Config, s: State, k: nat, wake: Tid)
    requires c.max > 0 && Sized(c, s) && Mutex(s) && Enabled(c, s, Go(Filler(k), wake))
    ensures var s' := FillerStep(c, s, k, wake); !s'.failed ==> Mutex(s')
  {
  }

  lemma MutexTaker(c: Config, s: State, k: nat, wake: Tid)
    requires c.max > 0 && Sized(c, s) && Mutex(s) && Enabled(c, s, Go(Taker(k), wake))
    ensures var s' := TakerStep(c, s, k, wake); !s'.failed ==> Mutex(s')
  {
  }

  lemma MutexMain(c: Config, s: State)
    requires c.max > 0 && Sized(c, s) && Mutex(s) && Phases(c, s) && Enabled(c, s, GoMain)
    ensures var s' := MainStep(c, s); !s'.failed ==> Mutex(s')
  {
  }

  lemma GuardsFiller(c: Config, s: State, k: nat, wake: Tid)
    requires c.max > 0 && Sized(c, s) && Mutex(s) && Guards(c, s) && Phases(c, s) && 0 <= s.numFull <= c.max
    requires Enabled(c, s, Go(Filler(k), wake))
    ensures var s' := FillerStep(c, s, k, wake); !s'.failed ==> Guards(c, s')
  {
  }

  lemma GuardsTaker(c: Config, s: State, k: nat, wake: Tid)
    requires c.max > 0 && Sized(c, s) && Mutex(s) && Guards(c, s) && Phases(c, s) && 0 <= s.numFull <= c.max
    requires Enabled(c, s, Go(Taker(k), wake))
    ensures var s' := TakerStep(c, s, k, wake); !s'.failed ==> Guards(c, s')
  {
  }

  lemma GuardsMain(c: Config, s: State)
    requires c.max > 0 && Sized(c, s) && Mutex(s) && Guards(c, s) && Phases(c, s) && 0 <= s.numFull <= c.max
    requires Enabled(c, s, GoMain)
    ensures var s' := MainStep(c, s); !s'.failed ==> Guards(c, s')
  {
  }

  lemma RoundsFiller(c: Config, s: State, k: nat, wake: Tid)
    requires c.Ok() && Sized(c, s) && Rounds(c, s) && Phases(c, s) && Enabled(c, s, Go(Filler(k), wake))
    ensures var s' := FillerStep(c, s, k, wake); !s'.failed && Sized(c, s') ==> Rounds(c, s')
  {
  }

  lemma RoundsTaker(c: Config, s: State, k: nat, wake: Tid)
    requires c.Ok() && Sized(c, s) && Rounds(c, s) && Phases(c, s) && Enabled(c, s, Go(Taker(k), wake))
    ensures var s' := TakerStep(c, s, k, wake); !s'.failed && Sized(c, s') ==> Rounds(c, s')
  {
  }

  lemma RoundsMain(c: Config, s: State)
    requires c.Ok() && Sized(c, s) && Rounds(c, s) && Phases(c, s) && Enabled(c, s, GoMain)
    ensures var s' := MainStep(c, s); !s'.failed && Sized(c, s') ==> Rounds(c, s')
  {
  }

  lemma PhasesFiller(c: Config, s: State, k: nat, wake: Tid)
    requires c.max > 0 && Sized(c, s) && Phases(c, s) && Enabled(c, s, Go(Filler(k), wake))
    ensures var s' := FillerStep(c, s, k, wake); !s'.failed && Sized(c, s') ==> Phases(c, s')
  {
  }

  lemma PhasesTaker(c: Config, s: State, k: nat, wake: Tid)
    requires c.max > 0 && Sized(c, s) && Phases(c, s) && Enabled(c, s, Go(Taker(k), wake))
    ensures var s' := TakerStep(c, s, k, wake); !s'.failed && Sized(c, s') ==> Phases(c, s')
  {
  }

  lemma PhasesMain(c: Config, s: State)
    requires c.max > 0 && Sized(c, s) && Phases(c, s) && Enabled(c, s, GoMain)
    ensures var s' := MainStep(c, s); !s'.failed && Sized(c, s') ==> Phases(c, s')
  {
  }

  lemma ControlStep(c: Config, s: State, a: Action)
    requires Control(c, s) && Enabled(c, s, a)
    ensures Control(c, Apply(c, s, a))
  {
    match a
    case Go(Filler(k), wake) =>
      RingFiller(c, s, k, wake);
      MutexFiller(c, s, k, wake);
      GuardsFiller(c, s, k, wake);
      RoundsFiller(c, s, k, wake);
      PhasesFiller(c, s, k, wake);
    case Go(Taker(k), wake) =>
      RingTaker(c, s, k, wake);
      MutexTaker(c, s, k, wake);
      GuardsTaker(c, s, k, wake);
      RoundsTaker(c, s, k, wake);
      PhasesTaker(c, s, k, wake);
    case GoMain =>
      RingMain(c, s);
      MutexMain(c, s);
      GuardsMain(c, s);
      RoundsMain(c, s);
      PhasesMain(c, s);
    case Spurious(t) => SpuriousControl(c, s, t);
  }

  lemma SpuriousMutex(c: Config, s: State, t: Tid)
    requires Sized(c, s) && Mutex(s) && Guards(c, s) && Enabled(c, s, Spurious(t))
    ensures var s' := Apply(c, s, Spurious(t)); Sized(c, s') && Mutex(s') && Guards(c, s')
  {
  }

  lemma SpuriousPhases(c: Config, s: State, t: Tid)
    requires Sized(c, s) && Phases(c, s) && Rounds(c, s) && Enabled(c, s, Spurious(t))
    ensures var s' := Apply(c, s, Spurious(t)); Sized(c, s') && Phases(c, s') && Rounds(c, s')
  {
  }

  lemma SpuriousControl(c: Config, s: State, t: Tid)
    requires Control(c, s) && Enabled(c, s, Spurious(t))
    ensures Control(c, Apply(c, s, Spurious(t)))
  {
    SpuriousMutex(c, s, t);
    SpuriousPhases(c, s, t);
  }

  // ---------- No wake-up is lost ----------

  lemma SumsUpdate(s: seq<Pc>, k: nat, pc: Pc)
    requires k < |s|
    ensures Sum(s[k := pc], WAITING) == Sum(s, WAITING) - WAITING(s[k]) + WAITING(pc)
    ensures Sum(s[k := pc], SIGNALLING) == Sum(s, SIGNALLING) - SIGNALLING(s[k]) + SIGNALLING(pc)
    ensures Sum(s[k := pc], COMING) == Sum(s, COMING) - COMING(s[k]) + COMING(pc)
  {
    SumUpdate(s, k, pc, WAITING);
    SumUpdate(s, k, pc, SIGNALLING);
    SumUpdate(s, k, pc, COMING);
  }

  lemma SumsNonNegative(s: seq<Pc>)
    ensures Sum(s, WAITING) >= 0 && Sum(s, SIGNALLING) >= 0 && Sum(s, COMING) >= 0
    ensures Wait !in s ==> Sum(s, WAITING) == 0
  {
    SumNonNegative(s, WAITING);
    SumNonNegative(s, SIGNALLING);
    SumNonNegative(s, COMING);
    if Wait !in s {
      SumZero(s, WAITING);
    }
  }

  lemma WakeupFillerSignals(c: Config, s: State, k: nat, wake: Tid)
    requires c.max > 0 && Sized(c, s) && NoLostWakeup(c, s) && Enabled(c, s, Go(Filler(k), wake))
    requires s.fpc[k] == Signal
    ensures NoLostWakeup(c, FillerStep(c, s, k, wake))
  {
    SumsNonNegative(s.tpc);
    SumsUpdate(s.fpc, k, Unlock);
    if wake != NoOne {
      SumsUpdate(s.tpc, wake.k, Wake);
    }
  }

  lemma WakeupFiller(c: Config, s: State, k: nat, wake: Tid)
    requires c.max > 0 && Sized(c, s) && NoLostWakeup(c, s) && Enabled(c, s, Go(Filler(k), wake))
    requires s.fpc[k] != Signal
    ensures var s' := FillerStep(c, s, k, wake); !s'.failed ==> NoLostWakeup(c, s')
  {
    var s' := FillerStep(c, s, k, wake);
    SumsNonNegative(s.tpc);
    if !s'.failed {
      SumsNonNegative(s'.fpc);
      SumsUpdate(s.fpc, k, s'.fpc[k]);
    }
  }

  lemma WakeupTakerSignals(c: Config, s: State, k: nat, wake: Tid)
    requires c.max > 0 && Sized(c, s) && NoLostWakeup(c, s) && Enabled(c, s, Go(Taker(k), wake))
    requires s.tpc[k] == Signal
    ensures NoLostWakeup(c, TakerStep(c, s, k, wake))
  {
    SumsNonNegative(s.fpc);
    SumsUpdate(s.tpc, k, Unlock);
    if wake != NoOne {
      SumsUpdate(s.fpc, wake.k, Wake);
    }
  }

  lemma WakeupTaker(c: Config, s: State, k: nat, wake: Tid)
    requires c.max > 0 && Sized(c, s) && NoLostWakeup(c, s) && Enabled(c, s, Go(Taker(k), wake))
    requires s.tpc[k] != Signal
    ensures var s' := TakerStep(c, s, k, wake); !s'.failed ==> NoLostWakeup(c, s')
  {
    var s' := TakerStep(c, s, k, wake);
    SumsNonNegative(s.fpc);
    if !s'.failed {
      SumsNonNegative(s'.tpc);
      SumsUpdate(s.tpc, k, s'.tpc[k]);
    }
  }

  lemma WakeupStep(c: Config, s: State, a: Action)
    requires Control(c, s) && NoLostWakeup(c, s) && Enabled(c, s, a)
    ensures NoLostWakeup(c, Apply(c, s, a))
  {
    ControlStep(c, s, a);
    match a
    case Go(Filler(k), wake) =>
      if s.fpc[k] == Signal {
        WakeupFillerSignals(c, s, k, wake);
      } else {
        WakeupFiller(c, s, k, wake);
      }
    case Go(Taker(k), wake) =>
      if s.tpc[k] == Signal {
        WakeupTakerSignals(c, s, k, wake);
      } else {
        WakeupTaker(c, s, k, wake);
      }
    case Spurious(t) => WakeupSpurious(c, s, t);
    case GoMain => WakeupMain(c, s);
  }

  lemma WakeupSpurious(c: Config, s: State, t: Tid)
    requires c.max > 0 && NoLostWakeup(c, s) && Enabled(c, s, Spurious(t))
    ensures NoLostWakeup(c, Apply(c, s, Spurious(t)))
  {
    if t.Filler? {
      SumsUpdate(s.fpc, t.k, Wake);
    } else {
      SumsUpdate(s.tpc, t.k, Wake);
    }
  }

  lemma WakeupNewFiller(c: Config, s: State, k: nat, pc: Pc)
    requires k < |s.fpc| && NoLostWakeup(c, s) && s.fpc[k] == New && (pc == Lock || pc == Done)
    ensures NoLostWakeup(c, s.(fpc := s.fpc[k := pc]))
  {
    SumsUpdate(s.fpc, k, pc);
  }

  lemma WakeupNewTaker(c: Config, s: State, k: nat)
    requires k < |s.tpc| && NoLostWakeup(c, s) && s.tpc[k] == New
    ensures NoLostWakeup(c, s.(tpc := s.tpc[k := Lock]))
  {
    SumsUpdate(s.tpc, k, Lock);
  }

  lemma WakeupMain(c: Config, s: State)
    requires c.max > 0 && Sized(c, s) && Phases(c, s) && NoLostWakeup(c, s) && Enabled(c, s, GoMain)
    ensures NoLostWakeup(c, MainStep(c, s))
  {
    match s.main
    case CreateP(i) => if i < c.P { WakeupNewFiller(c, s, i, Lock); }
    case CreateC(i) => if i < c.C { WakeupNewTaker(c, s, i); }
    case JoinP(i) => if i == c.P { WakeupNewFiller(c, s, c.P, if 0 < Quota(c, c.P) then Lock else Done); }
    case _ =>
  }

  // ---------- Where the values are ----------

  const ENDED: int -> int := v => if v == END_OF_STREAM then 1 else 0

  /** Fills filler `k` has made. */
  function Fills(c: Config, s: State, k: nat): nat
    requires Sized(c, s) && k <= c.P
  {
    s.iter[k] + if s.fpc[k] == Signal || s.fpc[k] == Unlock then 1 else 0
  }

  /** Every producer's value is in the record exactly once if it has been put, and main's markers are counted. */
  ghost predicate Ledger(c: Config, s: State)
    requires Sized(c, s)
  {
    && (forall k, i :: 0 <= k < c.P && 0 <= i < c.loops ==>
          multiset(s.filled)[Value(c, k, i)] == if i < Fills(c, s, k) then 1 else 0)
    && multiset(s.filled)[END_OF_STREAM] == Fills(c, s, c.P)
    && (forall v :: v in s.filled ==>
          v == END_OF_STREAM || exists k, i :: 0 <= k < c.P && 0 <= i < c.loops && v == Value(c, k, i))
  }

  /** A consumer stops at its first end-of-stream marker. */
  predicate Shares(c: Config, s: State)
    requires Sized(c, s)
  {
    && multiset(s.gotten)[END_OF_STREAM] == Sum(s.tmp, ENDED)
    && (forall k :: 0 <= k < c.C ==> Share(s.tpc[k], s.tmp[k], s.count[k], s.got[k]))
  }

  predicate Share(pc: Pc, tmp: int, count: nat, got: seq<int>) {
    && |got| == count + (if pc == Signal || pc == Unlock then 1 else 0)
    && (if got == [] then tmp == 0 else tmp == got[|got| - 1])
    && (forall j :: 0 <= j < |got| - 1 ==> got[j] != END_OF_STREAM)
    && (pc == Done ==> tmp == END_OF_STREAM)
    && (tmp == END_OF_STREAM ==> pc == Signal || pc == Unlock || pc == Done)
  }

  lemma ValuesDiffer(c: Config, k: nat, i: nat, k2: nat, i2: nat)
    requires k < c.P && k2 < c.P && i < c.loops && i2 < c.loops && Value(c, k, i) == Value(c, k2, i2)
    ensures k == k2 && i == i2
  {
    DivModUnique(Value(c, k, i), k, c.loops, i);
    DivModUnique(Value(c, k2, i2), k2, c.loops, i2);
  }

  lemma LedgerFill(c: Config, s: State, k: nat)
    requires c.Ok() && Sized(c, s) && Rounds(c, s) && Ledger(c, s) && k <= c.P && s.fpc[k] == Act
    requires s.buffer[s.fillPtr] == EMPTY
    ensures Sized(c, DoFill(c, s, k)) ==> Ledger(c, DoFill(c, s, k))
  {
    var s', v := DoFill(c, s, k), Value(c, k, s.iter[k]);
    if Sized(c, s') {
      forall k2, i2 | 0 <= k2 < c.P && 0 <= i2 < c.loops
        ensures multiset(s'.filled)[Value(c, k2, i2)] == if i2 < Fills(c, s', k2) then 1 else 0
      {
        ValueNotEmpty(c, k2, i2);
        if k < c.P && Value(c, k2, i2) == v {
          ValuesDiffer(c, k, s.iter[k], k2, i2);
        }
      }
      if k < c.P {
        ValueNotEmpty(c, k, s.iter[k]);
      }
    }
  }

  lemma LedgerFiller(c: Config, s: State, k: nat, wake: Tid)
    requires c.Ok() && Sized(c, s) && Rounds(c, s) && Ledger(c, s) && Enabled(c, s, Go(Filler(k), wake))
    ensures var s' := FillerStep(c, s, k, wake); !s'.failed && Sized(c, s') ==> Ledger(c, s')
  {
    if s.fpc[k] == Act {
      if s.buffer[s.fillPtr] == EMPTY {
        LedgerFill(c, s, k);
      }
    }
  }

  lemma SharesGet(c: Config, s: State, k: nat)
    requires c.Ok() && Sized(c, s) && Shares(c, s) && k < c.C && s.tpc[k] == Act
    requires s.buffer[s.usePtr] != EMPTY
    ensures Sized(c, DoGet(c, s, k)) ==> Shares(c, DoGet(c, s, k))
  {
    var s', v := DoGet(c, s, k), s.buffer[s.usePtr];
    SumUpdate(s.tmp, k, v, ENDED);
    assert Share(s.tpc[k], s.tmp[k], s.count[k], s.got[k]);
    assert Share(Signal, v, s.count[k], s.got[k] + [v]);
    if Sized(c, s') {
      forall j | 0 <= j < c.C
        ensures Share(s'.tpc[j], s'.tmp[j], s'.count[j], s'.got[j])
      {
        assert Share(s.tpc[j], s.tmp[j], s.count[j], s.got[j]);
      }
    }
  }

  lemma SharesTaker(c: Config, s: State, k: nat, wake: Tid)
    requires c.Ok() && Sized(c, s) && Shares(c, s) && Enabled(c, s, Go(Taker(k), wake)) && s.tpc[k] != Act
    ensures var s' := TakerStep(c, s, k, wake); Sized(c, s') ==> Shares(c, s')
  {
    var s' := TakerStep(c, s, k, wake);
    assert Share(s.tpc[k], s.tmp[k], s.count[k], s.got[k]);
    assert Share(s'.tpc[k], s'.tmp[k], s'.count[k], s'.got[k]);
    if Sized(c, s') {
      forall j | 0 <= j < c.C
        ensures Share(s'.tpc[j], s'.tmp[j], s'.count[j], s'.got[j])
      {
        assert Share(s.tpc[j], s.tmp[j], s.count[j], s.got[j]);
      }
    }
  }

  /** A step of another thread moves a consumer's pc at most from New to Lock or from Wait to Wake. */
  lemma SharesFrame(c: Config, s: State, s': State)
    requires Sized(c, s) && Sized(c, s') && Shares(c, s)
    requires s'.tmp == s.tmp && s'.count == s.count && s'.got == s.got && s'.gotten == s.gotten
    requires forall j :: 0 <= j < c.C ==>
        s'.tpc[j] == s.tpc[j] || (s.tpc[j] == New && s'.tpc[j] == Lock) || (s.tpc[j] == Wait && s'.tpc[j] == Wake)
    ensures Shares(c, s')
  {
    forall j | 0 <= j < c.C
      ensures Share(s'.tpc[j], s'.tmp[j], s'.count[j], s'.got[j])
    {
      assert Share(s.tpc[j], s.tmp[j], s.count[j], s.got[j]);
    }
  }

  /** Producers and main change nothing consumers hold. */
  lemma OthersShare(c: Config, s: State, a: Action)
    requires Control(c, s) && Shares(c, s) && Enabled(c, s, a) && !(a.Go? && a.t.Taker?) && Sized(c, Apply(c, s, a))
    ensures Shares(c, Apply(c, s, a))
  {
    SharesFrame(c, s, Apply(c, s, a));
  }

  lemma SharesStep(c: Config, s: State, a: Action)
    requires Control(c, s) && Shares(c, s) && Enabled(c, s, a)
    ensures var s' := Apply(c, s, a); Sized(c, s') && Shares(c, s')
  {
    ControlStep(c, s, a);
    if a.Go? && a.t.Taker? {
      if s.tpc[a.t.k] == Act {
        SharesGet(c, s, a.t.k);
      } else {
        SharesTaker(c, s, a.t.k, a.wake);
      }
    } else {
      OthersShare(c, s, a);
    }
  }

  lemma LedgerStep(c: Config, s: State, a: Action)
    requires Control(c, s) && Ledger(c, s) && Enabled(c, s, a)
    ensures var s' := Apply(c, s, a); Sized(c, s') && Ledger(c, s')
  {
    ControlStep(c, s, a);
    if a.Go? && a.t.Filler? {
      LedgerFiller(c, s, a.t.k, a.wake);
    } else {
      LedgerFrame(c, s, Apply(c, s, a));
    }
  }

  lemma LedgerFrame(c: Config, s: State, s': State)
    requires Sized(c, s) && Sized(c, s') && Ledger(c, s)
    requires s'.filled == s.filled
    requires forall k :: 0 <= k <= c.P ==> Fills(c, s', k) == Fills(c, s, k)
    ensures Ledger(c, s')
  {
  }

  // ---------- Totals ----------

  /** Fills made by the first `n` fillers. */
  function FillTotal(c: Config, s: State, n: nat): nat
    requires Sized(c, s) && n <= c.P + 1
  {
    if n == 0 then 0 else FillTotal(c, s, n - 1) + Fills(c, s, n - 1)
  }

  lemma {:induction false} FillTotalChange(c: Config, s: State, s': State, n: nat, k: nat, d: nat)
    requires Sized(c, s) && Sized(c, s') && n <= c.P + 1
    requires forall j :: 0 <= j < n ==> Fills(c, s', j) == Fills(c, s, j) + if j == k then d else 0
    ensures FillTotal(c, s', n) == FillTotal(c, s, n) + if k < n then d else 0
  {
    if n > 0 {
      FillTotalChange(c, s, s', n - 1, k, d);
    }
  }

  lemma {:induction false} FillTotalBound(c: Config, s: State, n: nat)
    requires Sized(c, s) && Rounds(c, s) && n <= c.P
    ensures FillTotal(c, s, n) <= n * c.loops
    ensures (forall k :: 0 <= k < n ==> s.fpc[k] == Done) ==> FillTotal(c, s, n) == n * c.loops
  {
    if n > 0 {
      FillTotalBound(c, s, n - 1);
      assert n * c.loops == (n - 1) * c.loops + c.loops;
      assert Fills(c, s, n - 1) <= Quota(c, n - 1);
    }
  }

  const LENGTH: seq<int> -> int := g => |g|

  /** Everything put or taken is accounted for, markers come last, and main has collected what it joined. */
  predicate Totals(c: Config, s: State)
    requires Sized(c, s)
  {
    && |s.filled| == FillTotal(c, s, c.P + 1)
    && |s.gotten| == Sum(s.got, LENGTH)
    && (Fills(c, s, c.P) > 0 ==> s.filled != [] && s.filled[|s.filled| - 1] == END_OF_STREAM)
    && (match s.main
        case JoinC(i) => i <= c.C && Collected(s, i)
        case Finished => Collected(s, c.C)
        case _ => s.counts == [])
  }

  predicate Collected(s: State, n: nat) {
    && |s.counts| == n <= |s.count|
    && forall k :: 0 <= k < n ==> s.counts[k] == s.count[k] as int - 1
  }

  /** While a producer is not done, main has filled nothing. */
  lemma EosNotBegun(c: Config, s: State, k: nat, wake: Tid)
    requires Control(c, s) && Totals(c, s) && Enabled(c, s, Go(Filler(k), wake)) && k < c.P
    ensures Fills(c, s, c.P) == 0
  {
    assert s.fpc[k] != Done;
  }

  lemma TotalsFill(c: Config, s: State, k: nat, wake: Tid)
    requires Control(c, s) && Totals(c, s) && Enabled(c, s, Go(Filler(k), wake)) && s.fpc[k] == Act
    ensures var s' := FillerStep(c, s, k, wake); Sized(c, s') ==> Totals(c, s')
  {
    var s' := FillerStep(c, s, k, wake);
    if Sized(c, s') {
      RingFiller(c, s, k, wake);
      FillTotalChange(c, s, s', c.P + 1, k, 1);
      if k < c.P {
        EosNotBegun(c, s, k, wake);
        assert Fills(c, s', c.P) == Fills(c, s, c.P);
      }
    }
  }

  lemma TotalsFrame(c: Config, s: State, s': State)
    requires Sized(c, s) && Sized(c, s') && Totals(c, s)
    requires s'.filled == s.filled && s'.gotten == s.gotten && s'.got == s.got && s'.counts == s.counts
             && s'.count == s.count
    requires s'.main == s.main && forall j :: 0 <= j <= c.P ==> Fills(c, s', j) == Fills(c, s, j)
    ensures Totals(c, s')
  {
    FillTotalChange(c, s, s', c.P + 1, 0, 0);
  }

  lemma TotalsFiller(c: Config, s: State, k: nat, wake: Tid)
    requires Control(c, s) && Totals(c, s) && Enabled(c, s, Go(Filler(k), wake))
    ensures var s' := FillerStep(c, s, k, wake); Sized(c, s') ==> Totals(c, s')
  {
    var s' := FillerStep(c, s, k, wake);
    if s.fpc[k] == Act {
      TotalsFill(c, s, k, wake);
    } else if Sized(c, s') {
      TotalsFrame(c, s, s');
    }
  }

  lemma TotalsGet(c: Config, s: State, k: nat)
    requires c.max > 0 && Sized(c, s) && Phases(c, s) && Totals(c, s) && k < c.C && s.tpc[k] == Act
    ensures var s' := DoGet(c, s, k); Sized(c, s') && !s'.failed ==> Totals(c, s')
  {
    var s' := DoGet(c, s, k);
    if Sized(c, s') && !s'.failed {
      FillTotalChange(c, s, s', c.P + 1, 0, 0);
      SumUpdate(s.got, k, s.got[k] + [s.buffer[s.usePtr]], LENGTH);
    }
  }

  /** Main has collected counts of consumers that are done only. */
  lemma TakerCollects(c: Config, s: State, k: nat, wake: Tid)
    requires c.max > 0 && Sized(c, s) && Phases(c, s) && Enabled(c, s, Go(Taker(k), wake))
    requires s.tpc[k] != Act
    ensures s.main.JoinC? && s.main.i <= c.C && Collected(s, s.main.i) ==> Collected(TakerStep(c, s, k, wake), s.main.i)
    ensures s.main == Finished && Collected(s, c.C) ==> Collected(TakerStep(c, s, k, wake), c.C)
  {
  }

  lemma TakerFills(c: Config, s: State, k: nat, wake: Tid)
    requires c.max > 0 && Sized(c, s) && Enabled(c, s, Go(Taker(k), wake)) && s.tpc[k] != Act
    ensures var s' := TakerStep(c, s, k, wake);
            && s'.filled == s.filled && s'.gotten == s.gotten && s'.got == s.got
            && s'.main == s.main && s'.counts == s.counts
            && (Sized(c, s') ==>
                  FillTotal(c, s', c.P + 1) == FillTotal(c, s, c.P + 1) && Fills(c, s', c.P) == Fills(c, s, c.P))
  {
    var s' := TakerStep(c, s, k, wake);
    if Sized(c, s') {
      FillTotalChange(c, s, s', c.P + 1, 0, 0);
    }
  }

  lemma TotalsTaker(c: Config, s: State, k: nat, wake: Tid)
    requires c.max > 0 && Sized(c, s) && Phases(c, s) && Totals(c, s) && Enabled(c, s, Go(Taker(k), wake))
    requires s.tpc[k] != Act
    ensures var s' := TakerStep(c, s, k, wake); Sized(c, s') ==> Totals(c, s')
  {
    var s' := TakerStep(c, s, k, wake);
    TakerCollects(c, s, k, wake);
    TakerFills(c, s, k, wake);
  }

  lemma TotalsSpurious(c: Config, s: State, t: Tid)
    requires c.max > 0 && Sized(c, s) && Totals(c, s) && Enabled(c, s, Spurious(t))
    ensures var s' := Apply(c, s, Spurious(t)); Sized(c, s') && Totals(c, s')
  {
    FillTotalChange(c, s, Apply(c, s, Spurious(t)), c.P + 1, 0, 0);
  }

  lemma FillsMain(c: Config, s: State)
    requires c.max > 0 && Sized(c, s) && Phases(c, s) && Rounds(c, s) && Enabled(c, s, GoMain)
    ensures Sized(c, MainStep(c, s)) && forall k :: 0 <= k <= c.P ==> Fills(c, MainStep(c, s), k) == Fills(c, s, k)
  {
  }

  lemma TotalsMain(c: Config, s: State)
    requires c.max > 0 && Sized(c, s) && Phases(c, s) && Rounds(c, s) && Totals(c, s) && Enabled(c, s, GoMain)
    ensures var s' := MainStep(c, s); Sized(c, s') && Totals(c, s')
  {
    FillsMain(c, s);
    FillTotalChange(c, s, MainStep(c, s), c.P + 1, 0, 0);
  }

  lemma TotalsStep(c: Config, s: State, a: Action)
    requires Control(c, s) && Totals(c, s) && Enabled(c, s, a) && Control(c, Apply(c, s, a))
    ensures Totals(c, Apply(c, s, a))
  {
    match a
    case Go(Filler(k), wake) => TotalsFiller(c, s, k, wake);
    case Go(Taker(k), wake) =>
      if s.tpc[k] == Act {
        TotalsGet(c, s, k);
      } else {
        TotalsTaker(c, s, k, wake);
      }
    case GoMain => TotalsMain(c, s);
    case Spurious(t) => TotalsSpurious(c, s, t);
  }

  // ---------- Every reachable state ----------

  ghost predicate Inv(c: Config, s: State) {
    Control(c, s) && NoLostWakeup(c, s) && Ledger(c, s) && Shares(c, s) && Totals(c, s)
  }

  lemma ControlInit(c: Config)
    requires c.Ok()
    ensures Control(c, Init(c))
  {
  }

  lemma AccountsInit(c: Config)
    requires c.Ok() && Sized(c, Init(c))
    ensures Ledger(c, Init(c)) && Shares(c, Init(c)) && Totals(c, Init(c))
  {
    var s := Init(c);
    SumZero(s.tmp, ENDED);
    SumZero(s.got, LENGTH);
    NoFillsYet(c, s, c.P + 1);
  }

  lemma InvInit(c: Config)
    requires c.Ok()
    ensures Inv(c, Init(c))
  {
    ControlInit(c);
    AccountsInit(c);
    SumZero(Init(c).fpc, WAITING);
    SumZero(Init(c).tpc, WAITING);
  }

  lemma {:induction false} NoFillsYet(c: Config, s: State, n: nat)
    requires Sized(c, s) && n <= c.P + 1 && forall k :: 0 <= k <= c.P ==> Fills(c, s, k) == 0
    ensures FillTotal(c, s, n) == 0
  {
    if n > 0 {
      NoFillsYet(c, s, n - 1);
    }
  }

  lemma InvStep(c: Config, s: State, a: Action)
    requires Inv(c, s) && Enabled(c, s, a)
    ensures Inv(c, Apply(c, s, a))
  {
    ControlStep(c, s, a);
    WakeupStep(c, s, a);
    LedgerStep(c, s, a);
    SharesStep(c, s, a);
    TotalsStep(c, s, a);
  }

  /** Every run from a state satisfying the invariant ends in one: in particular no ensure check ever fires. */
  lemma {:induction false} InvRuns(c: Config, s0: State, acts: seq<Action>, s: State)
    requires Inv(c, s0) && Runs(c, s0, acts, s)
    ensures Inv(c, s) && !s.failed
    decreases |acts|
  {
    if acts != [] {
      InvStep(c, s0, acts[0]);
      InvRuns(c, Apply(c, s0, acts[0]), acts[1..], s);
    }
  }

  // ---------- Freedom from deadlock ----------

  /** Some thread can take a step that is not a spurious wake-up. */
  ghost predicate CanProceed(c: Config, s: State) {
    exists a: Action :: !a.Spurious? && Enabled(c, s, a)
  }

  lemma SignalHasTarget(s: seq<Pc>) returns (found: bool, j: nat)
    ensures found ==> j < |s| && s[j] == Wait
    ensures !found ==> Wait !in s
  {
    if Wait in s {
      found := true;
      j :| 0 <= j < |s| && s[j] == Wait;
    } else {
      found, j := false, 0;
    }
  }

  lemma FillerCanProceed(c: Config, s: State, k: nat)
    requires Sized(c, s) && !s.failed && k <= c.P && CanStep(s.fpc[k], s.holder)
    ensures CanProceed(c, s)
  {
    var found, j := SignalHasTarget(s.tpc);
    var a := Go(Filler(k), if s.fpc[k] == Signal && found then Taker(j) else NoOne);
    assert Enabled(c, s, a);
  }

  lemma TakerCanProceed(c: Config, s: State, k: nat)
    requires Sized(c, s) && !s.failed && k < c.C && CanStep(s.tpc[k], s.holder)
    ensures CanProceed(c, s)
  {
    var found, j := SignalHasTarget(s.fpc);
    var a := Go(Taker(k), if s.tpc[k] == Signal && found then Filler(j) else NoOne);
    assert Enabled(c, s, a);
  }

  /** No thread holds or can take the lock: everyone is asleep, returned or not yet created. */
  predicate Asleep(s: State) {
    && (forall k :: 0 <= k < |s.fpc| ==> s.fpc[k] == New || s.fpc[k] == Wait || s.fpc[k] == Done)
    && (forall k :: 0 <= k < |s.tpc| ==> s.tpc[k] == New || s.tpc[k] == Wait || s.tpc[k] == Done)
  }

  lemma StuckIsAsleep(c: Config, s: State)
    requires Control(c, s) && !CanProceed(c, s)
    ensures Asleep(s)
  {
    if s.holder.Filler? {
      FillerCanProceed(c, s, s.holder.k);
    } else if s.holder.Taker? {
      TakerCanProceed(c, s, s.holder.k);
    }
    forall k | 0 <= k < |s.fpc|
      ensures s.fpc[k] == New || s.fpc[k] == Wait || s.fpc[k] == Done
    {
      if CanStep(s.fpc[k], s.holder) {
        FillerCanProceed(c, s, k);
      }
    }
    forall k | 0 <= k < |s.tpc|
      ensures s.tpc[k] == New || s.tpc[k] == Wait || s.tpc[k] == Done
    {
      if CanStep(s.tpc[k], s.holder) {
        TakerCanProceed(c, s, k);
      }
    }
  }

  /** If everyone sleeps, a sleeping filler means a full buffer and a sleeping consumer an empty one. */
  lemma AsleepMeans(c: Config, s: State)
    requires NoLostWakeup(c, s) && Asleep(s)
    ensures Wait in s.fpc ==> s.numFull >= c.max
    ensures Wait in s.tpc ==> s.numFull <= 0
  {
    SumZero(s.fpc, COMING);
    SumZero(s.fpc, SIGNALLING);
    SumZero(s.tpc, COMING);
    SumZero(s.tpc, SIGNALLING);
    WaitCounts(s.fpc);
    WaitCounts(s.tpc);
  }

  lemma WaitCounts(s: seq<Pc>)
    ensures Wait in s ==> Sum(s, WAITING) > 0
  {
    if Wait in s {
      var k :| 0 <= k < |s| && s[k] == Wait;
      SumAtLeast(s, WAITING, k);
    }
  }

  lemma {:induction false} EndedAtMost(t: seq<int>)
    ensures 0 <= Sum(t, ENDED) <= |t|
    ensures Sum(t, ENDED) == |t| <==> forall k :: 0 <= k < |t| ==> t[k] == END_OF_STREAM
  {
    if t != [] {
      EndedAtMost(t[1..]);
      assert t == [t[0]] + t[1..];
    }
  }

  /** Markers taken never exceed markers put; when the buffer is empty they agree. */
  lemma MarkersTaken(c: Config, s: State)
    requires Control(c, s) && Ledger(c, s) && Shares(c, s)
    ensures Sum(s.tmp, ENDED) <= Fills(c, s, c.P)
    ensures s.numFull == 0 ==> Sum(s.tmp, ENDED) == Fills(c, s, c.P)
  {
    assert s.filled == s.gotten + s.filled[|s.gotten|..];
    if s.numFull == 0 {
      assert s.gotten == s.filled;
    }
  }

  /** A consumer returned: main has put a marker. A consumer sleeps: it has none yet. */
  lemma ReturnedMeansMarker(c: Config, s: State, k: nat)
    requires Sized(c, s) && Shares(c, s) && k < c.C
    ensures s.tpc[k] == Done ==> s.tmp[k] == END_OF_STREAM && Sum(s.tmp, ENDED) >= 1
    ensures s.tpc[k] == Wait ==> s.tmp[k] != END_OF_STREAM && Sum(s.tmp, ENDED) < c.C
  {
    assert Share(s.tpc[k], s.tmp[k], s.count[k], s.got[k]);
    EndedAtMost(s.tmp);
    if s.tpc[k] == Done {
      SumAtLeast(s.tmp, ENDED, k);
    }
  }

  /** Someone takes the items out, or the buffer holds all of them. */
  predicate Drains(c: Config) {
    c.C >= 1 || c.P * c.loops <= c.max
  }

  /**
   No reachable state is a deadlock: until main has finished, some thread, main included, can take a
   step without any spurious wake-up.
   */
  lemma NoDeadlock(c: Config, s: State)
    requires Drains(c) && Inv(c, s) && s.main != Finished
    ensures CanProceed(c, s)
  {
    if !CanProceed(c, s) {
      StuckIsAsleep(c, s);
      AsleepMeans(c, s);
      MarkersTaken(c, s);
      AsleepMainGoes(c, s);
    }
  }

  lemma {:induction false} FillTotalLess(c: Config, s: State, n: nat, k: nat)
    requires Sized(c, s) && Rounds(c, s) && k < n <= c.P && Fills(c, s, k) < c.loops
    ensures FillTotal(c, s, n) < n * c.loops
  {
    MulStep(n - 1, n, c.loops);
    if k < n - 1 {
      FillTotalLess(c, s, n - 1, k);
      FillsAtMost(c, s, n - 1);
    } else {
      FillTotalBound(c, s, n - 1);
    }
  }

  lemma FillsAtMost(c: Config, s: State, k: nat)
    requires Sized(c, s) && Rounds(c, s) && k < c.P
    ensures Fills(c, s, k) <= c.loops
  {
  }

  /** Nobody takes: a buffer with room for all items is not full while a producer has some left. */
  lemma RoomToSpare(c: Config, s: State, k: nat)
    requires c.C == 0 && Drains(c) && Control(c, s) && Totals(c, s) && k < c.P && s.fpc[k] == Wait && s.fpc[c.P] == New
    ensures s.numFull < c.max
  {
    FillTotalLess(c, s, c.P, k);
    assert FillTotal(c, s, c.P + 1) == FillTotal(c, s, c.P) + Fills(c, s, c.P);
  }

  /** With everyone asleep, a producer main waits for has returned. */
  lemma AsleepProducer(c: Config, s: State, k: nat)
    requires Drains(c) && Inv(c, s) && Asleep(s) && s.main == JoinP(k) && k < c.P
    requires Wait in s.fpc ==> s.numFull >= c.max
    requires Wait in s.tpc ==> s.numFull <= 0
    ensures s.fpc[k] == Done
  {
    if c.C >= 1 {
      ReturnedMeansMarker(c, s, 0);
      assert s.tpc[0] == Wait;
    } else if s.fpc[k] == Wait {
      RoomToSpare(c, s, k);
    }
  }

  /** So has main's part that puts the markers. */
  lemma AsleepMarkers(c: Config, s: State)
    requires Inv(c, s) && Asleep(s) && s.main == Eos
    requires Wait in s.fpc ==> s.numFull >= c.max
    requires Wait in s.tpc ==> s.numFull <= 0
    requires Sum(s.tmp, ENDED) <= Fills(c, s, c.P)
    ensures s.fpc[c.P] == Done
  {
    if s.fpc[c.P] == Wait {
      forall k | 0 <= k < c.C
        ensures s.tmp[k] == END_OF_STREAM
      {
        ReturnedMeansMarker(c, s, k);
      }
      EndedAtMost(s.tmp);
    }
  }

  /** When every other thread sleeps or has returned, main's join succeeds. */
  lemma AsleepMainGoes(c: Config, s: State)
    requires Drains(c) && Inv(c, s) && s.main != Finished && Asleep(s)
    requires Wait in s.fpc ==> s.numFull >= c.max
    requires Wait in s.tpc ==> s.numFull <= 0
    requires Sum(s.tmp, ENDED) <= Fills(c, s, c.P)
    requires s.numFull == 0 ==> Sum(s.tmp, ENDED) == Fills(c, s, c.P)
    ensures Enabled(c, s, GoMain)
  {
    match s.main
    case CreateP(i) =>
    case CreateC(i) =>
    case JoinP(i) => if i < c.P { AsleepProducer(c, s, i); }
    case Eos => AsleepMarkers(c, s);
    case JoinC(i) =>
      if i < c.C {
        ReturnedMeansMarker(c, s, i);
      }
  }

  /** The same for a whole run from the start. */
  lemma NoReachableDeadlock(c: Config, acts: seq<Action>, s: State)
    requires c.Ok() && Drains(c) && Runs(c, Init(c), acts, s)
    ensures !s.failed
    ensures s.main == Finished || CanProceed(c, s)
  {
    InvInit(c);
    InvRuns(c, Init(c), acts, s);
    if s.main != Finished {
      NoDeadlock(c, s);
    }
  }

  // ---------- Runs end ----------

  const WEIGHT: Pc -> int := (pc: Pc) =>
    match pc
    case New => 4
    case Lock => 3
    case Wake => 3
    case Check => 2
    case Act => 1
    case Signal => 10
    case Unlock => 5
    case _ => 0

  function MainWeight(c: Config, p: Phase): int {
    match p
    case CreateP(i) => 2 * c.C + 5 + c.P + (c.P - i)
    case CreateC(i) => c.C + 4 + c.P + (c.C - i)
    case JoinP(i) => c.C + 3 + (c.P - i)
    case Eos => c.C + 2
    case JoinC(i) => 1 + (c.C - i)
    case Finished => 0
  }

  /** Ten for every fill and get still to come, and what each thread has left of its current round. */
  function Measure(c: Config, s: State): int {
    10 * (2 * (c.P * c.loops + c.C) - |s.filled| - |s.gotten|)
    + Sum(s.fpc, WEIGHT) + Sum(s.tpc, WEIGHT) + MainWeight(c, s.main)
  }

  lemma MeasureFiller(c: Config, s: State, k: nat, wake: Tid)
    requires c.max > 0 && Sized(c, s) && Enabled(c, s, Go(Filler(k), wake))
    ensures var s' := FillerStep(c, s, k, wake); !s'.failed ==> Measure(c, s') < Measure(c, s)
  {
    var s' := FillerStep(c, s, k, wake);
    if !s'.failed {
      SumUpdate(s.fpc, k, s'.fpc[k], WEIGHT);
    }
    if s.fpc[k] == Signal && wake != NoOne {
      SumUpdate(s.tpc, wake.k, Wake, WEIGHT);
    }
  }

  lemma MeasureTaker(c: Config, s: State, k: nat, wake: Tid)
    requires c.max > 0 && Sized(c, s) && Enabled(c, s, Go(Taker(k), wake))
    ensures var s' := TakerStep(c, s, k, wake); !s'.failed ==> Measure(c, s') < Measure(c, s)
  {
    var s' := TakerStep(c, s, k, wake);
    if !s'.failed {
      SumUpdate(s.tpc, k, s'.tpc[k], WEIGHT);
    }
    if s.tpc[k] == Signal && wake != NoOne {
      SumUpdate(s.fpc, wake.k, Wake, WEIGHT);
    }
  }

  lemma MeasureMain(c: Config, s: State)
    requires c.max > 0 && Sized(c, s) && Phases(c, s) && Enabled(c, s, GoMain)
    ensures Measure(c, MainStep(c, s)) < Measure(c, s)
  {
    match s.main
    case CreateP(i) => if i < c.P { SumUpdate(s.fpc, i, Lock, WEIGHT); }
    case CreateC(i) => if i < c.C { SumUpdate(s.tpc, i, Lock, WEIGHT); }
    case JoinP(i) => if i == c.P { SumUpdate(s.fpc, c.P, if 0 < Quota(c, c.P) then Lock else Done, WEIGHT); }
    case _ =>
  }

  lemma MeasureSpurious(c: Config, s: State, t: Tid)
    requires c.max > 0 && Enabled(c, s, Spurious(t))
    ensures Measure(c, Apply(c, s, Spurious(t))) == Measure(c, s) + 3
  {
    if t.Filler? {
      SumUpdate(s.fpc, t.k, Wake, WEIGHT);
    } else {
      SumUpdate(s.tpc, t.k, Wake, WEIGHT);
    }
  }

  lemma MeasureNonNegative(c: Config, s: State)
    requires Control(c, s) && Totals(c, s)
    ensures Measure(c, s) >= 0
  {
    FillTotalBound(c, s, c.P);
    assert Fills(c, s, c.P) <= c.C;
    SumNonNegative(s.fpc, WEIGHT);
    SumNonNegative(s.tpc, WEIGHT);
  }

  function SpuriousCount(acts: seq<Action>): nat {
    if acts == [] then 0 else (if acts[0].Spurious? then 1 else 0) + SpuriousCount(acts[1..])
  }

  /** A run can be no longer than its first state's measure plus four for every spurious wake-up in it. */
  lemma {:induction false} RunsAreBounded(c: Config, s0: State, acts: seq<Action>, s: State)
    requires Inv(c, s0) && Runs(c, s0, acts, s)
    ensures |acts| <= Measure(c, s0) + 4 * SpuriousCount(acts)
    decreases |acts|
  {
    MeasureNonNegative(c, s0);
    if acts != [] {
      var a, s1 := acts[0], Apply(c, s0, acts[0]);
      InvStep(c, s0, a);
      RunsAreBounded(c, s1, acts[1..], s);
      MeasureStep(c, s0, a);
    }
  }

  lemma MeasureStep(c: Config, s: State, a: Action)
    requires Control(c, s) && Enabled(c, s, a)
    ensures Measure(c, Apply(c, s, a)) <= Measure(c, s) + if a.Spurious? then 3 else -1
  {
    ControlStep(c, s, a);
    match a
    case Go(Filler(k), wake) => MeasureFiller(c, s, k, wake);
    case Go(Taker(k), wake) => MeasureTaker(c, s, k, wake);
    case Spurious(t) => MeasureSpurious(c, s, t);
    case GoMain => MeasureMain(c, s);
  }

  // ---------- Exactly when the program ends ----------

  /** No run from the start reaches a state where main is unfinished and no thread can go on. */
  ghost predicate DeadlockFree(c: Config)
    requires c.max > 0
  {
    forall acts, s :: Runs(c, Init(c), acts, s) ==> s.main == Finished || CanProceed(c, s)
  }

  /** Following the threads without spurious wake-ups always comes to a stop. */
  lemma {:induction false} SomeRunStops(c: Config, s: State) returns (acts: seq<Action>, t: State)
    requires Inv(c, s)
    ensures Runs(c, s, acts, t) && Inv(c, t) && !CanProceed(c, t)
    decreases Measure(c, s)
  {
    if CanProceed(c, s) {
      var a: Action :| !a.Spurious? && Enabled(c, s, a);
      InvStep(c, s, a);
      MeasureStep(c, s, a);
      MeasureNonNegative(c, Apply(c, s, a));
      var rest;
      rest, t := SomeRunStops(c, Apply(c, s, a));
      acts := [a] + rest;
      assert acts[1..] == rest;
    } else {
      acts, t := [], s;
    }
  }

  /** With nobody to take them, more items than slots keep main waiting for a producer. */
  lemma NeverFinishes(c: Config, s: State)
    requires !Drains(c) && Inv(c, s)
    ensures s.main != Finished
  {
    FillTotalBound(c, s, c.P);
    assert FillTotal(c, s, c.P + 1) == FillTotal(c, s, c.P) + Fills(c, s, c.P);
  }

  /** The program is free of deadlock exactly when there is a consumer or the buffer holds every item. */
  lemma DeadlockFreeExactly(c: Config)
    requires c.Ok()
    ensures DeadlockFree(c) <==> Drains(c)
  {
    if Drains(c) {
      forall acts, s | Runs(c, Init(c), acts, s)
        ensures s.main == Finished || CanProceed(c, s)
      {
        NoReachableDeadlock(c, acts, s);
      }
    } else {
      InvInit(c);
      var acts, t := SomeRunStops(c, Init(c));
      NeverFinishes(c, t);
    }
  }

  // ---------- How every finished run ends ----------

  lemma {:induction false} CollectedSum(c: Config, counts: seq<int>, got: seq<seq<int>>)
    requires |counts| == |got| && forall k :: 0 <= k < |got| ==> counts[k] == |got[k]| - 1
    ensures Sum(counts, ID) == Sum(got, LENGTH) - |got|
  {
    if counts != [] {
      CollectedSum(c, counts[1..], got[1..]);
    }
  }

  lemma LastCounts(t: seq<int>, v: int)
    ensures t != [] && t[|t| - 1] == v ==> multiset(t)[v] >= 1
  {
    if t != [] {
      assert t[|t| - 1] in multiset(t);
    }
  }

  /** Everything put has been taken. */
  lemma FinishedDrained(c: Config, s: State)
    requires c.C >= 1 && Inv(c, s) && s.main == Finished
    ensures s.gotten == s.filled
    ensures Sum(s.tmp, ENDED) == c.C == Fills(c, s, c.P)
  {
    forall k | 0 <= k < c.C
      ensures s.tmp[k] == END_OF_STREAM
    {
      ReturnedMeansMarker(c, s, k);
    }
    EndedAtMost(s.tmp);
    var rest := s.filled[|s.gotten|..];
    assert s.filled == s.gotten + rest;
    LastCounts(rest, END_OF_STREAM);
  }

  /**
   When main returns: the values were taken in the order they were put, every producer's value
   exactly once and nothing else but one marker per consumer; each consumer stopped at its only
   marker; and the returned counts add up to producers * loops.
   */
  lemma FinishedTally(c: Config, s: State)
    requires c.C >= 1 && Inv(c, s) && s.main == Finished
    ensures s.gotten == s.filled
    ensures forall v ::
              multiset(s.gotten)[v] == if 0 <= v < c.P * c.loops then 1 else if v == END_OF_STREAM then c.C else 0
    ensures forall k :: 0 <= k < c.C ==> s.got[k] != [] && forall j :: 0 <= j < |s.got[k]| ==>
                (s.got[k][j] == END_OF_STREAM <==> j == |s.got[k]| - 1)
    ensures |s.counts| == c.C && forall k :: 0 <= k < c.C ==> s.counts[k] == |s.got[k]| - 1
    ensures Sum(s.counts, ID) == c.P * c.loops
  {
    FinishedDrained(c, s);
    forall v
      ensures multiset(s.filled)[v] == if 0 <= v < c.P * c.loops then 1 else if v == END_OF_STREAM then c.C else 0
    {
      FinishedCount(c, s, v);
    }
    forall k | 0 <= k < c.C
      ensures s.got[k] != [] && s.counts[k] == |s.got[k]| - 1 && s.tmp[k] == END_OF_STREAM
    {
      assert Share(s.tpc[k], s.tmp[k], s.count[k], s.got[k]);
    }
    FillTotalBound(c, s, c.P);
    CollectedSum(c, s.counts, s.got);
  }

  /** The producer and the turn of a value. */
  lemma ValueParts(c: Config, v: int) returns (k: nat, i: nat)
    requires 0 <= v < c.P * c.loops
    ensures k < c.P && i < c.loops && v == Value(c, k, i)
  {
    k, i := v / c.loops, v % c.loops;
    Euclid(v, c.loops);
    if k >= c.P {
      MulMono(c.P, k, c.loops);
    }
  }

  lemma AllProduced(c: Config, s: State, k: nat)
    requires Inv(c, s) && s.main == Finished && k < c.P
    ensures Fills(c, s, k) == c.loops
  {
  }

  lemma PutOnce(c: Config, s: State, k: nat, i: nat)
    requires Sized(c, s) && Ledger(c, s) && k < c.P && i < c.loops && i < Fills(c, s, k)
    ensures multiset(s.filled)[Value(c, k, i)] == 1
  {
  }

  lemma ProducedOnce(c: Config, s: State, v: int)
    requires Inv(c, s) && s.main == Finished && 0 <= v < c.P * c.loops
    ensures multiset(s.filled)[v] == 1
  {
    var k, i := ValueParts(c, v);
    AllProduced(c, s, k);
    PutOnce(c, s, k, i);
  }

  lemma OnlyProduced(c: Config, s: State, v: int)
    requires Inv(c, s) && s.main == Finished && !(0 <= v < c.P * c.loops) && v != END_OF_STREAM
    ensures multiset(s.filled)[v] == 0
  {
    if v in s.filled {
      var k, i :| 0 <= k < c.P && 0 <= i < c.loops && v == Value(c, k, i);
      ValueNotEmpty(c, k, i);
      MulStep(k, c.P, c.loops);
    }
  }

  lemma FinishedCount(c: Config, s: State, v: int)
    requires Inv(c, s) && s.main == Finished && Fills(c, s, c.P) == c.C
    ensures multiset(s.filled)[v] == if 0 <= v < c.P * c.loops then 1 else if v == END_OF_STREAM then c.C else 0
  {
    if 0 <= v < c.P * c.loops {
      ProducedOnce(c, s, v);
    } else if v != END_OF_STREAM {
      OnlyProduced(c, s, v);
    }
  }
}
