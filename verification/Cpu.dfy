/**
 The multithreaded processor of x86.py: decoded instructions, one register file that is saved and restored at
 switches, and the machine it stands for, in which every thread has registers of its own. Instructions are
 kept apart from data memory: stores into code are not part of the model.
 */
module Cpu {
  import opened Sums

  const NUM_REGS := 9
  const NUM_CONDS := 6
  const REG_SP := 7

  /** Conditions by number. */
  const COND_GT := 0
  const COND_GTE := 1
  const COND_LT := 2
  const COND_LTE := 3
  const COND_EQ := 4
  const COND_NEQ := 5

  type Reg = r: nat | r < NUM_REGS
  type Cond = c: nat | c < NUM_CONDS

  /** value(reg1, reg2, scale) */
  datatype Mem = Mem(value: int, reg1: Reg, reg2: Reg, scale: int)

  datatype Instr =
    | MoveIR(src: int, dst: Reg) | MoveIM(src: int, at: Mem) | MoveMR(at: Mem, dst: Reg)
    | MoveRM(from: Reg, at: Mem) | MoveRR(from: Reg, dst: Reg) | Lea(at: Mem, dst: Reg)
    | AddI(src: int, dst: Reg) | AddR(from: Reg, dst: Reg)
    | MulI(src: int, dst: Reg) | MulR(from: Reg, dst: Reg)
    | SubI(src: int, dst: Reg) | SubR(from: Reg, dst: Reg) | Neg(dst: Reg)
    | Exchange(from: Reg, at: Mem) | FetchAdd(from: Reg, at: Mem)
    | TestIR(src: int, dst: Reg) | TestRI(from: Reg, imm: int) | TestRR(from: Reg, dst: Reg)
    | Jump(target: int) | JumpIf(cond: Cond, target: int)
    | Call(target: int) | Ret | PushR(from: Reg) | PushM(at: Mem) | Pop | PopR(dst: Reg)
    | Nop | Halt | Yield

  /** What a thread owns: program counter, registers, condition codes. */
  datatype Context = Context(pc: int, regs: seq<int>, conds: seq<bool>) {
    predicate Ok() { |regs| == NUM_REGS && |conds| == NUM_CONDS }
  }

  datatype Code = Continue | Halted | Yielded

  /** The state after an instruction, or a fetch or load from an address that holds nothing. */
  datatype Result = Fault | Done(ctx: Context, memory: map<int, int>, rc: Code)

  // ---------- Instructions ----------

  function Set(c: Context, r: Reg, v: int): (d: Context)
    requires c.Ok()
    ensures d.Ok()
  {
    c.(regs := c.regs[r := v])
  }

  function Address(c: Context, a: Mem): int
    requires c.Ok()
  {
    a.value + c.regs[a.reg1] + a.scale * c.regs[a.reg2]
  }

  /** Exchange and fetch-and-add take no scale. */
  function PlainAddress(c: Context, a: Mem): int
    requires c.Ok()
  {
    a.value + c.regs[a.reg1] + c.regs[a.reg2]
  }

  function Compare(src: int, dst: int): (s: seq<bool>)
    ensures |s| == NUM_CONDS
  {
    [dst > src, dst >= src, dst < src, dst <= src, dst == src, dst != src]
  }

  /** An instruction, with the program counter already past it. */
  function Execute(i: Instr, c: Context, memory: map<int, int>): (r: Result)
    requires c.Ok()
    ensures r.Done? ==> r.ctx.Ok()
  {
    match i
    case MoveIR(src, dst) => Done(Set(c, dst, src), memory, Continue)
    case MoveIM(src, at) => Done(c, memory[Address(c, at) := src], Continue)
    case MoveMR(at, dst) =>
      if Address(c, at) in memory then Done(Set(c, dst, memory[Address(c, at)]), memory, Continue) else Fault
    case MoveRM(from, at) => Done(c, memory[Address(c, at) := c.regs[from]], Continue)
    case MoveRR(from, dst) => Done(Set(c, dst, c.regs[from]), memory, Continue)
    case Lea(at, dst) => Done(Set(c, dst, Address(c, at)), memory, Continue)
    case AddI(src, dst) => Done(Set(c, dst, c.regs[dst] + src), memory, Continue)
    case AddR(from, dst) => Done(Set(c, dst, c.regs[dst] + c.regs[from]), memory, Continue)
    case MulI(src, dst) => Done(Set(c, dst, c.regs[dst] * src), memory, Continue)
    case MulR(from, dst) => Done(Set(c, dst, c.regs[dst] * c.regs[from]), memory, Continue)
    case SubI(src, dst) => Done(Set(c, dst, c.regs[dst] - src), memory, Continue)
    case SubR(from, dst) => Done(Set(c, dst, c.regs[dst] - c.regs[from]), memory, Continue)
    case Neg(dst) => Done(Set(c, dst, -c.regs[dst]), memory, Continue)
    case Exchange(from, at) =>
      var a := PlainAddress(c, at);
      if a in memory then Done(Set(c, from, memory[a]), memory[a := c.regs[from]], Continue) else Fault
    case FetchAdd(from, at) =>
      var a := PlainAddress(c, at);
      if a in memory then Done(Set(c, from, memory[a]), memory[a := memory[a] + c.regs[from]], Continue) else Fault
    case TestIR(src, dst) => Done(c.(conds := Compare(src, c.regs[dst])), memory, Continue)
    case TestRI(from, imm) => Done(c.(conds := Compare(c.regs[from], imm)), memory, Continue)
    case TestRR(from, dst) => Done(c.(conds := Compare(c.regs[from], c.regs[dst])), memory, Continue)
    case Jump(target) => Done(c.(pc := target), memory, Continue)
    case JumpIf(cond, target) => Done(if c.conds[cond] then c.(pc := target) else c, memory, Continue)
    case Call(target) =>
      var d := Set(c, REG_SP, c.regs[REG_SP] - 4);
      Done(d.(pc := target), memory[d.regs[REG_SP] := d.pc], Continue)
    case Ret =>
      if c.regs[REG_SP] in memory then
        Done(Set(c.(pc := memory[c.regs[REG_SP]]), REG_SP, c.regs[REG_SP] + 4), memory, Continue)
      else Fault
    case PushR(from) =>
      var d := Set(c, REG_SP, c.regs[REG_SP] - 4);
      Done(d, memory[d.regs[REG_SP] := d.regs[from]], Continue)
    case PushM(at) =>
      var d := Set(c, REG_SP, c.regs[REG_SP] - 4);
      Done(d, memory[d.regs[REG_SP] := Address(d, at)], Continue)
    case Pop => Done(Set(c, REG_SP, c.regs[REG_SP] + 4), memory, Continue)
    case PopR(dst) =>
      if c.regs[REG_SP] in memory then
        var d := Set(c, dst, memory[c.regs[REG_SP]]);
        Done(Set(d, REG_SP, d.regs[REG_SP] + 4), memory, Continue)
      else Fault
    case Nop => Done(c, memory, Continue)
    case Halt => Done(c, memory, Halted)
    case Yield => Done(c, memory, Yielded)
  }

  /** Fetch, step over, execute. */
  function Cycle(code: map<int, Instr>, c: Context, memory: map<int, int>): (r: Result)
    requires c.Ok()
    ensures r.Done? ==> r.ctx.Ok()
  {
    if c.pc in code then Execute(code[c.pc], c.(pc := c.pc + 1), memory) else Fault
  }

  // ---------- What instructions undo ----------

  /** A pushed register popped into another: a move that leaves the stack pointer where it was. */
  lemma PushThenPop(c: Context, memory: map<int, int>, from: Reg, dst: Reg)
    requires c.Ok() && from != REG_SP && dst != REG_SP
    ensures var p := Execute(PushR(from), c, memory);
            && p.Done?
            && Execute(PopR(dst), p.ctx, p.memory) == Done(Set(c, dst, c.regs[from]), p.memory, Continue)
            && p.memory - {c.regs[REG_SP] - 4} == memory - {c.regs[REG_SP] - 4}
  {
    var d := Set(c, REG_SP, c.regs[REG_SP] - 4);
    var e := Set(d, dst, c.regs[from]);
    assert Set(e, REG_SP, c.regs[REG_SP]).regs == Set(c, dst, c.regs[from]).regs;
  }

  /** A return from a call that left stack and memory alone comes back behind the call with all registers as before. */
  lemma CallThenReturn(c: Context, memory: map<int, int>, target: int)
    requires c.Ok()
    ensures var p := Execute(Call(target), c, memory);
            && p.Done? && p.ctx.pc == target
            && Execute(Ret, p.ctx, p.memory) == Done(c, p.memory, Continue)
  {
    var d := Set(c, REG_SP, c.regs[REG_SP] - 4);
    assert Set(d, REG_SP, c.regs[REG_SP]).regs == c.regs;
  }

  /** Exchanging twice at an address the register takes no part in restores register and memory. */
  lemma ExchangeTwice(c: Context, memory: map<int, int>, from: Reg, at: Mem)
    requires c.Ok() && from != at.reg1 && from != at.reg2 && PlainAddress(c, at) in memory
    ensures var x := Execute(Exchange(from, at), c, memory);
            && x.Done? && x.ctx.regs[from] == memory[PlainAddress(c, at)]
            && x.memory[PlainAddress(c, at)] == c.regs[from]
            && Execute(Exchange(from, at), x.ctx, x.memory) == Done(c, memory, Continue)
  {
    var a := PlainAddress(c, at);
    var d := Set(c, from, memory[a]);
    assert PlainAddress(d, at) == a;
    assert Set(d, from, c.regs[from]).regs == c.regs;
    assert memory[a := c.regs[from]][a := memory[a]] == memory;
  }

  // ---------- Threads with registers of their own ----------

  /** Every thread's context, the memory they share, who is done, and who runs. */
  datatype Threads = Threads(ctx: seq<Context>, memory: map<int, int>, done: seq<bool>, cur: nat) {
    predicate Ok() { |ctx| == |done| && cur < |ctx| && forall t :: 0 <= t < |ctx| ==> ctx[t].Ok() }
  }

  /** The running thread takes a step; then another may be picked. */
  function ThreadStep(code: map<int, Instr>, a: Threads, next: nat): Threads
    requires a.Ok() && Cycle(code, a.ctx[a.cur], a.memory).Done?
  {
    var r := Cycle(code, a.ctx[a.cur], a.memory);
    Threads(a.ctx[a.cur := r.ctx], r.memory, if r.rc == Halted then a.done[a.cur := true] else a.done, next)
  }

  // ---------- One register file ----------

  /** The processor's context, the memory, the saved contexts, who is done, the schedule, the place in it, the
      number of threads not done, and the countdown to the next interrupt. */
  datatype Machine = Machine(cpu: Context, memory: map<int, int>, saved: seq<Context>, done: seq<bool>,
                             sched: seq<nat>, curr: nat, active: int, interrupt: int)

  const UNDONE: bool -> int := (d: bool) => if d then 0 else 1

  /** Every thread is on the schedule: what finalize checks. */
  predicate Covered(sched: seq<nat>, n: nat) {
    (forall k :: 0 <= k < |sched| ==> sched[k] < n) && (forall t: nat :: t < n ==> t in sched)
  }

  predicate MachineOk(m: Machine) {
    && |m.saved| == |m.done| && m.cpu.Ok() && (forall t :: 0 <= t < |m.saved| ==> m.saved[t].Ok())
    && Covered(m.sched, |m.saved|) && m.curr < |m.sched|
    && m.active == Sum(m.done, UNDONE)
  }

  function Running(m: Machine): nat
    requires m.curr < |m.sched|
  {
    m.sched[m.curr]
  }

  function Succ(i: nat, n: nat): nat { if i + 1 == n then 0 else i + 1 }

  /** The place k further on, round the schedule. */
  function Ahead(i: nat, n: nat, k: nat): nat {
    if k == 0 then i else Succ(Ahead(i, n, k - 1), n)
  }

  lemma {:induction false} AheadIs(i: nat, n: nat, k: nat)
    requires i < n && k <= n
    ensures Ahead(i, n, k) == if i + k < n then i + k else i + k - n
  {
    if k > 0 {
      AheadIs(i, n, k - 1);
    }
  }

  predicate Busy(done: seq<bool>, sched: seq<nat>, i: nat) {
    i < |sched| && sched[i] < |done| && !done[sched[i]]
  }

  /** The next place is the first one ahead whose thread is not done: no thread is passed over. */
  predicate IsNext(done: seq<bool>, sched: seq<nat>, curr: nat, next: nat) {
    exists k: nat :: 1 <= k <= |sched| && FirstAhead(done, sched, curr, next, k)
  }

  predicate FirstAhead(done: seq<bool>, sched: seq<nat>, curr: nat, next: nat, k: nat) {
    && next == Ahead(curr, |sched|, k) && Busy(done, sched, next)
    && (forall j: nat :: 1 <= j < k ==> !Busy(done, sched, Ahead(curr, |sched|, j)))
  }

  lemma {:induction false} SomeUndone(done: seq<bool>) returns (t: nat)
    requires Sum(done, UNDONE) > 0
    ensures t < |done| && !done[t]
  {
    if !done[0] {
      t := 0;
    } else {
      t := SomeUndone(done[1..]);
      t := t + 1;
    }
  }

  /** While a thread is not done, it is at some place of the schedule. */
  lemma SomeBusy(m: Machine) returns (j: nat)
    requires MachineOk(m) && m.active > 0
    ensures j < |m.sched| && Busy(m.done, m.sched, j)
  {
    var t := SomeUndone(m.done);
    assert t in m.sched;
    j :| 0 <= j < |m.sched| && m.sched[j] == t;
  }

  // ---------- A turn of the loop ----------

  function SaveCurrent(m: Machine): Machine
    requires m.curr < |m.sched| && Running(m) < |m.saved|
  {
    m.(saved := m.saved[Running(m) := m.cpu])
  }

  function SwitchTo(m: Machine, next: nat): Machine
    requires next < |m.sched| && m.sched[next] < |m.saved|
  {
    m.(curr := next, cpu := m.saved[m.sched[next]])
  }

  /** The thread that ran has halted. */
  function Retire(m: Machine): Machine
    requires m.curr < |m.sched| && Running(m) < |m.done|
  {
    m.(done := m.done[Running(m) := true], active := m.active - 1)
  }

  /** After the instruction: m with the new processor state, memory. */
  function Executed(code: map<int, Instr>, m: Machine): Machine
    requires MachineOk(m) && Cycle(code, m.cpu, m.memory).Done?
  {
    var r := Cycle(code, m.cpu, m.memory);
    m.(cpu := r.ctx, memory := r.memory)
  }

  /** A halt switches without saving. The rest of the turn is the countdown; at its end, or at a yield, the
      processor state is saved and another thread's restored. `reload` is what setint returns. */
  predicate Turn(code: map<int, Instr>, m: Machine, m2: Machine, reload: int)
    requires MachineOk(m) && Cycle(code, m.cpu, m.memory).Done?
  {
    var rc := Cycle(code, m.cpu, m.memory).rc;
    var e := Executed(code, m);
    if rc == Halted then
      var h := Retire(e);
      if h.active == 0 then m2 == h
      else
        exists next: nat ::
          IsNext(h.done, h.sched, h.curr, next) && next < |h.sched|
          && Countdown(SwitchTo(h, next), m2, false, reload)
    else Countdown(e, m2, rc == Yielded, reload)
  }

  predicate Countdown(e: Machine, m2: Machine, yielded: bool, reload: int)
    requires |e.saved| == |e.done| && Covered(e.sched, |e.saved|) && e.curr < |e.sched|
  {
    var c := e.(interrupt := e.interrupt - 1);
    if c.interrupt == 0 || yielded then
      var s := SaveCurrent(c.(interrupt := reload));
      exists next: nat :: IsNext(s.done, s.sched, s.curr, next) && next < |s.sched| && m2 == SwitchTo(s, next)
    else m2 == c
  }

  // ---------- The refinement ----------

  /** Threads that are not done: the running one is in the processor, the others are saved. */
  predicate Holds(m: Machine, a: Threads, t: nat)
    requires MachineOk(m) && a.Ok() && |a.ctx| == |m.saved| && t < |a.ctx|
  {
    !m.done[t] ==> a.ctx[t] == if t == Running(m) then m.cpu else m.saved[t]
  }

  predicate Refines(m: Machine, a: Threads) {
    && MachineOk(m) && a.Ok() && |a.ctx| == |m.saved| && a.memory == m.memory && a.done == m.done
    && a.cur == Running(m)
    && (forall t: nat :: t < |a.ctx| ==> Holds(m, a, t))
  }

  /** A thread runs, or all are done. */
  predicate Alive(m: Machine)
    requires m.curr < |m.sched|
  {
    Running(m) < |m.done| && !m.done[Running(m)]
  }

  lemma RetireActive(m: Machine)
    requires MachineOk(m) && Alive(m)
    ensures MachineOk(Retire(m))
  {
    SumUpdate(m.done, Running(m), true, UNDONE);
  }

  /** Saving and switching changes nothing a thread owns. */
  lemma SwitchKeeps(m: Machine, a: Threads, next: nat)
    requires Refines(m, a) && next < |m.sched| && Busy(m.done, m.sched, next)
    ensures Refines(SwitchTo(SaveCurrent(m), next), a.(cur := m.sched[next]))
    ensures Alive(SwitchTo(SaveCurrent(m), next))
  {
    var m2, a2 := SwitchTo(SaveCurrent(m), next), a.(cur := m.sched[next]);
    forall t: nat | t < |a.ctx|
      ensures Holds(m2, a2, t)
    {
      assert Holds(m, a, t) && Holds(m, a, m.sched[next]);
    }
  }

  /** After a halt the processor state may be lost: nobody needs it. */
  lemma HaltSwitchKeeps(m: Machine, a: Threads, next: nat)
    requires Refines(m, a) && m.done[Running(m)] && next < |m.sched| && Busy(m.done, m.sched, next)
    ensures Refines(SwitchTo(m, next), a.(cur := m.sched[next])) && Alive(SwitchTo(m, next))
  {
    var m2, a2 := SwitchTo(m, next), a.(cur := m.sched[next]);
    forall t: nat | t < |a.ctx|
      ensures Holds(m2, a2, t)
    {
      assert Holds(m, a, t) && Holds(m, a, m.sched[next]);
    }
  }

  lemma CountdownKeeps(e: Machine, m2: Machine, yielded: bool, reload: int, a: Threads) returns (next: nat)
    requires Refines(e, a) && Alive(e) && Countdown(e, m2, yielded, reload)
    ensures Refines(m2, a.(cur := next)) && Alive(m2) && next == Running(m2)
  {
    var c := e.(interrupt := e.interrupt - 1);
    forall t: nat | t < |a.ctx|
      ensures Holds(c, a, t) && Holds(c.(interrupt := reload), a, t)
    {
      assert Holds(e, a, t);
    }
    if c.interrupt == 0 || yielded {
      var d := c.(interrupt := reload);
      var s := SaveCurrent(d);
      var n: nat :| IsNext(s.done, s.sched, s.curr, n) && n < |s.sched| && m2 == SwitchTo(s, n);
      SwitchKeeps(d, a, n);
      next := s.sched[n];
    } else {
      next := a.cur;
      assert a.(cur := next) == a;
    }
  }

  lemma ExecutedKeeps(code: map<int, Instr>, m: Machine, a: Threads)
    requires Refines(m, a) && Alive(m) && Cycle(code, m.cpu, m.memory).Done?
    ensures a.ctx[a.cur] == m.cpu
    ensures var r := Cycle(code, m.cpu, m.memory);
            Refines(Executed(code, m), a.(ctx := a.ctx[a.cur := r.ctx], memory := r.memory))
  {
    assert Holds(m, a, a.cur);
    var r := Cycle(code, m.cpu, m.memory);
    var e, b := Executed(code, m), a.(ctx := a.ctx[a.cur := r.ctx], memory := r.memory);
    forall t: nat | t < |b.ctx|
      ensures Holds(e, b, t)
    {
      assert Holds(m, a, t);
    }
  }

  lemma RetireKeeps(m: Machine, a: Threads)
    requires Refines(m, a) && Alive(m)
    ensures Refines(Retire(m), a.(done := a.done[a.cur := true]))
  {
    RetireActive(m);
    var h, b := Retire(m), a.(done := a.done[a.cur := true]);
    forall t: nat | t < |b.ctx|
      ensures Holds(h, b, t)
    {
      assert Holds(m, a, t);
    }
  }

  /** A turn of the machine is a step of the running thread on registers of its own; the other threads that are
      not done keep theirs. After it a thread that is not done runs, unless all are done. */
  lemma TurnRefines(code: map<int, Instr>, m: Machine, m2: Machine, reload: int, a: Threads) returns (next: nat)
    requires Refines(m, a) && Alive(m) && Cycle(code, m.cpu, m.memory).Done? && Turn(code, m, m2, reload)
    ensures Cycle(code, a.ctx[a.cur], a.memory) == Cycle(code, m.cpu, m.memory)
    ensures Refines(m2, ThreadStep(code, a, next)) && next == Running(m2)
    ensures Alive(m2) || m2.active == 0
  {
    ExecutedKeeps(code, m, a);
    var r := Cycle(code, m.cpu, m.memory);
    var e, b := Executed(code, m), a.(ctx := a.ctx[a.cur := r.ctx], memory := r.memory);
    if r.rc == Halted {
      var h, d := Retire(e), b.(done := b.done[b.cur := true]);
      RetireKeeps(e, b);
      if h.active == 0 {
        next := a.cur;
        assert ThreadStep(code, a, next) == d;
      } else {
        var n: nat :|
          IsNext(h.done, h.sched, h.curr, n) && n < |h.sched| && Countdown(SwitchTo(h, n), m2, false, reload);
        HaltSwitchKeeps(h, d, n);
        next := CountdownKeeps(SwitchTo(h, n), m2, false, reload, d.(cur := h.sched[n]));
        assert ThreadStep(code, a, next) == d.(cur := h.sched[n]).(cur := next);
      }
    } else {
      next := CountdownKeeps(e, m2, r.rc == Yielded, reload, b);
      assert ThreadStep(code, a, next) == b.(cur := next);
    }
  }

  /** The turn can always be taken: a next thread exists. */
  lemma NextExists(m: Machine) returns (next: nat)
    requires MachineOk(m) && m.active > 0
    ensures next < |m.sched| && IsNext(m.done, m.sched, m.curr, next)
  {
    var j := SomeBusy(m);
    var n, curr := |m.sched|, m.curr;
    var k: nat := if curr < j then j - curr else (j + n) - curr;
    AheadIs(curr, n, k);
    next := EarliestAhead(m, k);
  }

  lemma {:induction false} EarliestAhead(m: Machine, k: nat) returns (next: nat)
    requires MachineOk(m) && 1 <= k <= |m.sched| && Busy(m.done, m.sched, Ahead(m.curr, |m.sched|, k))
    ensures next < |m.sched| && IsNext(m.done, m.sched, m.curr, next)
    decreases k
  {
    if j: nat :| 1 <= j < k && Busy(m.done, m.sched, Ahead(m.curr, |m.sched|, j)) {
      next := EarliestAhead(m, j);
    } else {
      next := Ahead(m.curr, |m.sched|, k);
      assert FirstAhead(m.done, m.sched, m.curr, next, k);
    }
  }

  // ---------- Runs ----------

  /** Turns one after the other, as long as a thread is not done. */
  ghost predicate Runs(code: map<int, Instr>, ms: seq<Machine>) {
    forall k :: 0 <= k < |ms| - 1 ==> RunStep(code, ms[k], ms[k + 1])
  }

  ghost predicate RunStep(code: map<int, Instr>, m: Machine, m2: Machine) {
    MachineOk(m) && Alive(m) && Cycle(code, m.cpu, m.memory).Done? && exists reload: int :: Turn(code, m, m2, reload)
  }

  /** The threads' run under the schedule the machine made. */
  function ThreadRun(code: map<int, Instr>, a: Threads, curs: seq<nat>): Threads
    decreases |curs|
  {
    if curs == [] || !a.Ok() || !Cycle(code, a.ctx[a.cur], a.memory).Done? then a
    else ThreadRun(code, ThreadStep(code, a, curs[0]), curs[1..])
  }

  function Currents(ms: seq<Machine>): (r: seq<nat>)
    requires forall k :: 0 <= k < |ms| ==> ms[k].curr < |ms[k].sched|
    ensures |r| == |ms|
  {
    if ms == [] then [] else [Running(ms[0])] + Currents(ms[1..])
  }

  /** Over any run, under any interrupts, the machine with one register file and the threads with registers of
      their own do the same. */
  lemma {:induction false} RunRefines(code: map<int, Instr>, ms: seq<Machine>, a: Threads)
    requires ms != [] && Runs(code, ms) && Refines(ms[0], a)
    requires forall k :: 0 <= k < |ms| ==> ms[k].curr < |ms[k].sched|
    ensures Refines(ms[|ms| - 1], ThreadRun(code, a, Currents(ms[1..])))
    decreases |ms|
  {
    if |ms| > 1 {
      assert RunStep(code, ms[0], ms[1]);
      var reload: int :| Turn(code, ms[0], ms[1], reload);
      var next := TurnRefines(code, ms[0], ms[1], reload, a);
      var rest := ms[1..];
      forall k | 0 <= k < |rest| - 1
        ensures RunStep(code, rest[k], rest[k + 1])
      {
        assert RunStep(code, ms[k + 1], ms[k + 2]);
      }
      RunRefines(code, rest, ThreadStep(code, a, next));
      assert Currents(ms[1..])[0] == next && Currents(ms[1..])[1..] == Currents(rest[1..]);
    }
  }

  /** Before the first turn: contexts saved, the first thread's restored. */
  lemma StartRefines(m: Machine)
    requires MachineOk(m) && Alive(m) && m.cpu == m.saved[Running(m)]
    ensures Refines(m, Threads(m.saved, m.memory, m.done, Running(m)))
  {
    var a := Threads(m.saved, m.memory, m.done, Running(m));
    forall t: nat | t < |a.ctx|
      ensures Holds(m, a, t)
    {
    }
  }
}
