/**
 The objects of x86.py: the processor, whose methods change its fields; a process, which saves and restores
 them register by register; and the list of processes. A turn of the run loop is a turn of Cpu.dfy. The
 program being run need not stop, so the loop around the turns is left to its caller.
 */
module CpuMachine {
  import opened Sums
  import C = Cpu

  /** The orders in which registers and condition codes are listed. */
  const REGNUMS: seq<nat> := [0, 1, 2, 3, 4, 5, 6, 7, 8]
  const CONDLIST: seq<nat> := [1, 0, 3, 2, 5, 4]

  class Processor {
    var pc: int
    var registers: seq<int>
    var conditions: seq<bool>
    var memory: map<int, int>
    const code: map<int, C.Instr>

    predicate Valid()
      reads this
    {
      |registers| == C.NUM_REGS && |conditions| == C.NUM_CONDS
    }

    function Ctx(): C.Context
      reads this
    {
      C.Context(pc, registers, conditions)
    }

    method Address(a: C.Mem) returns (v: int)
      requires Valid()
      ensures v == C.Address(Ctx(), a)
    {
      v := a.value + registers[a.reg1] + (a.scale * registers[a.reg2]);
    }

    method SetReg(r: C.Reg, v: int)
      requires Valid()
      modifies this`registers
      ensures Valid() && registers == old(registers)[r := v]
    {
      registers := registers[r := v];
    }

    method Store(a: int, v: int)
      modifies this`memory
      ensures memory == old(memory)[a := v]
    {
      memory := memory[a := v];
    }

    method TestAll(src: int, dst: int)
      requires Valid()
      modifies this`conditions
      ensures Valid() && conditions == C.Compare(src, dst)
    {
      conditions := [false, false, false, false, false, false];
      if dst > src {
        conditions := conditions[C.COND_GT := true];
      }
      if dst >= src {
        conditions := conditions[C.COND_GTE := true];
      }
      if dst < src {
        conditions := conditions[C.COND_LT := true];
      }
      if dst <= src {
        conditions := conditions[C.COND_LTE := true];
      }
      if dst == src {
        conditions := conditions[C.COND_EQ := true];
      }
      if dst != src {
        conditions := conditions[C.COND_NEQ := true];
      }
    }

    /** Whether the processor is as an instruction's result says; on a fault nothing is promised of it. */
    ghost predicate Shows(r: C.Result, ok: bool, rc: C.Code)
      reads this
    {
      match r
      case Fault => !ok
      case Done(ctx, m, code) => ok && Valid() && Ctx() == ctx && memory == m && rc == code
    }

    method Move(i: C.Instr) returns (ok: bool)
      requires Valid() && (i.MoveIR? || i.MoveIM? || i.MoveMR? || i.MoveRM? || i.MoveRR? || i.Lea?)
      modifies this`registers, this`memory
      ensures Shows(C.Execute(i, old(Ctx()), old(memory)), ok, C.Continue)
    {
      ok := true;
      match i
      case MoveIR(src, dst) => SetReg(dst, src);
      case MoveIM(src, at) =>
        var tmp := Address(at);
        Store(tmp, src);
      case MoveMR(at, dst) =>
        var tmp := Address(at);
        if tmp !in memory {
          return false;
        }
        SetReg(dst, memory[tmp]);
      case MoveRM(from, at) =>
        var tmp := Address(at);
        Store(tmp, registers[from]);
      case MoveRR(from, dst) => SetReg(dst, registers[from]);
      case Lea(at, dst) =>
        var tmp := Address(at);
        SetReg(dst, tmp);
    }

    method Arithmetic(i: C.Instr) returns (ok: bool)
      requires Valid() && (i.AddI? || i.AddR? || i.MulI? || i.MulR? || i.SubI? || i.SubR? || i.Neg?)
      modifies this`registers
      ensures Shows(C.Execute(i, old(Ctx()), old(memory)), ok, C.Continue)
    {
      ok := true;
      match i
      case AddI(src, dst) => SetReg(dst, registers[dst] + src);
      case AddR(from, dst) => SetReg(dst, registers[dst] + registers[from]);
      case MulI(src, dst) => SetReg(dst, registers[dst] * src);
      case MulR(from, dst) => SetReg(dst, registers[dst] * registers[from]);
      case SubI(src, dst) => SetReg(dst, registers[dst] - src);
      case SubR(from, dst) => SetReg(dst, registers[dst] - registers[from]);
      case Neg(dst) => SetReg(dst, -registers[dst]);
    }

    /** The instructions that read and write memory in one step. */
    method Atomic(i: C.Instr) returns (ok: bool)
      requires Valid() && (i.Exchange? || i.FetchAdd?)
      modifies this`registers, this`memory
      ensures Shows(C.Execute(i, old(Ctx()), old(memory)), ok, C.Continue)
    {
      var tmp := i.at.value + registers[i.at.reg1] + registers[i.at.reg2];
      if tmp !in memory {
        return false;
      }
      var before := memory[tmp];
      if i.Exchange? {
        Store(tmp, registers[i.from]);
      } else {
        Store(tmp, memory[tmp] + registers[i.from]);
      }
      SetReg(i.from, before);
      ok := true;
    }

    method Stack(i: C.Instr) returns (ok: bool)
      requires Valid() && (i.Call? || i.Ret? || i.PushR? || i.PushM? || i.Pop? || i.PopR?)
      modifies this`registers, this`memory, this`pc
      ensures Shows(C.Execute(i, old(Ctx()), old(memory)), ok, C.Continue)
    {
      ok := true;
      match i
      case Call(target) =>
        SetReg(C.REG_SP, registers[C.REG_SP] - 4);
        Store(registers[C.REG_SP], pc);
        pc := target;
      case Ret =>
        if registers[C.REG_SP] !in memory {
          return false;
        }
        pc := memory[registers[C.REG_SP]];
        SetReg(C.REG_SP, registers[C.REG_SP] + 4);
      case PushR(from) =>
        SetReg(C.REG_SP, registers[C.REG_SP] - 4);
        Store(registers[C.REG_SP], registers[from]);
      case PushM(at) =>
        SetReg(C.REG_SP, registers[C.REG_SP] - 4);
        var tmp := Address(at);
        Store(registers[C.REG_SP], tmp);
      case Pop =>
        SetReg(C.REG_SP, registers[C.REG_SP] + 4);
      case PopR(dst) =>
        if registers[C.REG_SP] !in memory {
          return false;
        }
        SetReg(dst, memory[registers[C.REG_SP]]);
        SetReg(C.REG_SP, registers[C.REG_SP] + 4);
    }

    /** Fetch, step over, execute. */
    method Step() returns (ok: bool, rc: C.Code)
      requires Valid()
      modifies this
      ensures Shows(C.Cycle(code, old(Ctx()), old(memory)), ok, rc)
    {
      rc := C.Continue;
      if pc !in code {
        return false, rc;
      }
      var i := code[pc];
      pc := pc + 1;
      ok := true;
      match i
      case Nop =>
      case Halt => rc := C.Halted;
      case Yield => rc := C.Yielded;
      case _ => ok := Compute(i);
    }

    method Flow(i: C.Instr) returns (ok: bool)
      requires Valid() && (i.TestIR? || i.TestRI? || i.TestRR? || i.Jump? || i.JumpIf?)
      modifies this`conditions, this`pc
      ensures Shows(C.Execute(i, old(Ctx()), old(memory)), ok, C.Continue)
    {
      ok := true;
      match i
      case TestIR(src, dst) => TestAll(src, registers[dst]);
      case TestRI(from, imm) => TestAll(registers[from], imm);
      case TestRR(from, dst) => TestAll(registers[from], registers[dst]);
      case Jump(target) => pc := target;
      case JumpIf(cond, target) =>
        if conditions[cond] {
          pc := target;
        }
    }

    method Compute(i: C.Instr) returns (ok: bool)
      requires Valid() && !(i.Nop? || i.Halt? || i.Yield?)
      modifies this
      ensures Shows(C.Execute(i, old(Ctx()), old(memory)), ok, C.Continue)
    {
      if i.MoveIR? || i.MoveIM? || i.MoveMR? || i.MoveRM? || i.MoveRR? || i.Lea? {
        ok := Move(i);
      } else if i.Exchange? || i.FetchAdd? {
        ok := Atomic(i);
      } else if i.Call? || i.Ret? || i.PushR? || i.PushM? || i.Pop? || i.PopR? {
        ok := Stack(i);
      } else if i.TestIR? || i.TestRI? || i.TestRR? || i.Jump? || i.JumpIf? {
        ok := Flow(i);
      } else {
        ok := Arithmetic(i);
      }
    }
  }

  class Process {
    var pc: int
    var regs: seq<int>
    var cc: seq<bool>
    var done: bool

    function Ctx(): C.Context
      reads this
    {
      C.Context(pc, regs, cc)
    }

    predicate Valid()
      reads this
    {
      Ctx().Ok()
    }

    method SaveConds(cpu: Processor)
      requires Valid() && cpu.Valid()
      modifies this`cc
      ensures cc == cpu.conditions
    {
      for k := 0 to |CONDLIST|
        invariant |cc| == C.NUM_CONDS && forall j :: 0 <= j < k ==> cc[CONDLIST[j]] == cpu.conditions[CONDLIST[j]]
      {
        var c := CONDLIST[k];
        cc := cc[c := cpu.conditions[c]];
      }
      CondsListed(cc, cpu.conditions);
    }

    method SaveRegs(cpu: Processor)
      requires Valid() && cpu.Valid()
      modifies this`regs
      ensures regs == cpu.registers
    {
      for k := 0 to |REGNUMS|
        invariant |regs| == C.NUM_REGS && forall j :: 0 <= j < k ==> regs[REGNUMS[j]] == cpu.registers[REGNUMS[j]]
      {
        var r := REGNUMS[k];
        regs := regs[r := cpu.registers[r]];
      }
      RegsListed(regs, cpu.registers);
    }

    /** Copies the processor's state, code by code and register by register. */
    method Save(cpu: Processor)
      requires Valid() && cpu.Valid()
      modifies this`pc, this`regs, this`cc
      ensures Valid() && Ctx() == cpu.Ctx()
    {
      pc := cpu.pc;
      SaveConds(cpu);
      SaveRegs(cpu);
    }

    method RestoreConds(cpu: Processor)
      requires Valid() && cpu.Valid()
      modifies cpu`conditions
      ensures cpu.conditions == cc
    {
      for k := 0 to |CONDLIST|
        invariant |cpu.conditions| == C.NUM_CONDS
        invariant forall j :: 0 <= j < k ==> cpu.conditions[CONDLIST[j]] == cc[CONDLIST[j]]
      {
        var c := CONDLIST[k];
        cpu.conditions := cpu.conditions[c := cc[c]];
      }
      CondsListed(cpu.conditions, cc);
    }

    method RestoreRegs(cpu: Processor)
      requires Valid() && cpu.Valid()
      modifies cpu`registers
      ensures cpu.registers == regs
    {
      for k := 0 to |REGNUMS|
        invariant |cpu.registers| == C.NUM_REGS
        invariant forall j :: 0 <= j < k ==> cpu.registers[REGNUMS[j]] == regs[REGNUMS[j]]
      {
        var r := REGNUMS[k];
        cpu.registers := cpu.registers[r := regs[r]];
      }
      RegsListed(cpu.registers, regs);
    }

    method Restore(cpu: Processor)
      requires Valid() && cpu.Valid()
      modifies cpu`pc, cpu`registers, cpu`conditions
      ensures cpu.Valid() && cpu.Ctx() == Ctx()
    {
      cpu.pc := pc;
      RestoreConds(cpu);
      RestoreRegs(cpu);
    }
  }

  /** The lists leave no condition code and no register out. */
  lemma CondsListed(cc: seq<bool>, cc2: seq<bool>)
    requires |cc| == |cc2| == C.NUM_CONDS
    requires forall j :: 0 <= j < |CONDLIST| ==> cc[CONDLIST[j]] == cc2[CONDLIST[j]]
    ensures cc == cc2
  {
    forall c | 0 <= c < C.NUM_CONDS
      ensures cc[c] == cc2[c]
    {
      assert CONDLIST[if c % 2 == 0 then c + 1 else c - 1] == c;
    }
  }

  lemma RegsListed(regs: seq<int>, regs2: seq<int>)
    requires |regs| == |regs2| == C.NUM_REGS
    requires forall j :: 0 <= j < |REGNUMS| ==> regs[REGNUMS[j]] == regs2[REGNUMS[j]]
    ensures regs == regs2
  {
    forall r | 0 <= r < C.NUM_REGS
      ensures regs[r] == regs2[r]
    {
      assert REGNUMS[r] == r;
    }
  }

  /** The k places ahead have processes that are done. */
  predicate Skipped(done: seq<bool>, sched: seq<nat>, from: nat, k: nat) {
    forall i: nat :: 1 <= i <= k ==> !C.Busy(done, sched, C.Ahead(from, |sched|, i))
  }

  lemma SkippedMore(done: seq<bool>, sched: seq<nat>, from: nat, k: nat)
    requires Skipped(done, sched, from, k) && !C.Busy(done, sched, C.Ahead(from, |sched|, k + 1))
    ensures Skipped(done, sched, from, k + 1)
  {
  }

  lemma FoundNext(done: seq<bool>, sched: seq<nat>, from: nat, next: nat, k: nat)
    requires Skipped(done, sched, from, k) && k < |sched| && next == C.Ahead(from, |sched|, k + 1)
             && C.Busy(done, sched, next)
    ensures C.IsNext(done, sched, from, next)
  {
    assert C.FirstAhead(done, sched, from, next, k + 1);
  }

  /** The processor and its processes. */
  class ProcList {
    const cpu: Processor
    const plist: seq<Process>
    const procsched: seq<nat>
    var active: int
    var curr: nat

    ghost predicate Shape()
      reads this
    {
      && (forall i, j :: 0 <= i < j < |plist| ==> plist[i] != plist[j])
      && C.Covered(procsched, |plist|) && curr < |procsched|
    }

    ghost function Saved(): (r: seq<C.Context>)
      reads plist
      ensures |r| == |plist| && forall i :: 0 <= i < |r| ==> r[i] == plist[i].Ctx()
    {
      seq(|plist|, i requires 0 <= i < |plist| reads plist => plist[i].Ctx())
    }

    ghost function Flags(): (r: seq<bool>)
      reads plist
      ensures |r| == |plist| && forall i :: 0 <= i < |r| ==> r[i] == plist[i].done
    {
      seq(|plist|, i requires 0 <= i < |plist| reads plist => plist[i].done)
    }

    ghost function M(interrupt: int): C.Machine
      reads this, cpu, plist
    {
      C.Machine(cpu.Ctx(), cpu.memory, Saved(), Flags(), procsched, curr, active, interrupt)
    }

    ghost predicate Valid()
      reads this, cpu, plist
    {
      Shape() && C.MachineOk(M(0))
    }

    /** The first process on the schedule gets the processor. */
    constructor (cpu: Processor, plist: seq<Process>, procsched: seq<nat>)
      requires cpu.Valid() && procsched != [] && C.Covered(procsched, |plist|)
      requires forall i, j :: 0 <= i < j < |plist| ==> plist[i] != plist[j]
      requires forall i :: 0 <= i < |plist| ==> plist[i].Valid() && !plist[i].done
      modifies cpu
      ensures this.cpu == cpu && this.plist == plist && this.procsched == procsched && curr == 0
      ensures Valid() && C.Alive(M(0)) && cpu.Ctx() == plist[procsched[0]].Ctx() && cpu.memory == old(cpu.memory)
    {
      this.cpu, this.plist, this.procsched := cpu, plist, procsched;
      active, curr := |plist|, 0;
      new;
      RestoreCurr();
      AllUndone(Flags());
    }

    method SetDone(ghost n: int)
      requires Shape()
      modifies this`active, plist
      ensures M(n) == C.Retire(old(M(n)))
    {
      MarkDone(procsched[curr]);
      active := active - 1;
    }

    method MarkDone(p: nat)
      requires Shape() && p < |plist|
      modifies plist[p]
      ensures Flags() == old(Flags())[p := true] && Saved() == old(Saved()) && Shape()
      ensures plist[p].Ctx() == old(plist[p].Ctx())
    {
      plist[p].done := true;
      assert forall i :: 0 <= i < |plist| ==> plist[i].Ctx() == old(plist[i].Ctx());
    }

    method SaveCurr(ghost n: int)
      requires Shape() && cpu.Valid() && forall i :: 0 <= i < |plist| ==> plist[i].Valid()
      modifies plist
      ensures M(n) == C.SaveCurrent(old(M(n)))
    {
      var p := procsched[curr];
      plist[p].Save(cpu);
      assert Saved() == old(Saved())[p := cpu.Ctx()];
      assert Flags() == old(Flags());
    }

    method RestoreCurr()
      requires Shape() && cpu.Valid() && forall i :: 0 <= i < |plist| ==> plist[i].Valid()
      modifies cpu
      ensures cpu.Valid() && cpu.Ctx() == plist[procsched[curr]].Ctx() && cpu.memory == old(cpu.memory)
    {
      plist[procsched[curr]].Restore(cpu);
    }

    method Advance()
      requires curr < |procsched|
      modifies this`curr
      ensures curr == C.Succ(old(curr), |procsched|) && curr < |procsched|
    {
      curr := curr + 1;
      if curr == |procsched| {
        curr := 0;
      }
    }

    /** The next place whose process is not done. */
    method Next()
      requires Shape() && exists j: nat :: C.Busy(Flags(), procsched, j)
      modifies this`curr
      ensures Shape() && C.IsNext(Flags(), procsched, old(curr), curr)
    {
      ghost var n, done, c0 := |procsched|, Flags(), curr;
      ghost var j: nat :| C.Busy(done, procsched, j);
      ghost var limit: nat := if c0 < j then j - c0 else (j + n) - c0;
      C.AheadIs(c0, n, limit);
      ghost var k: nat := 0;
      while true
        invariant Shape() && 0 <= k < limit <= n && curr == C.Ahead(c0, n, k) && Skipped(done, procsched, c0, k)
        decreases limit - k
      {
        Advance();
        assert Flags()[procsched[curr]] == plist[procsched[curr]].done;
        if plist[procsched[curr]].done == false {
          FoundNext(done, procsched, c0, curr, k);
          return;
        }
        SkippedMore(done, procsched, c0, k);
        k := k + 1;
      }
    }

    /** Another process that is not done gets the processor. */
    method Switch(ghost n: int)
      requires Valid() && active > 0
      modifies this`curr, cpu
      ensures Shape() && C.IsNext(old(Flags()), procsched, old(curr), curr)
      ensures M(n) == C.SwitchTo(old(M(n)), curr)
    {
      ghost var j := C.SomeBusy(M(0));
      Next();
      assert forall i :: 0 <= i < |plist| ==> plist[i].Ctx() == Saved()[i];
      RestoreCurr();
      assert Saved() == old(Saved()) && Flags() == old(Flags());
    }

    /** The countdown at the end of a turn. */
    method Interrupts(interrupt: int, yielded: bool, reload: int) returns (left: int)
      requires Valid() && active > 0
      modifies this`curr, cpu, plist
      ensures C.Countdown(old(M(interrupt)), M(left), yielded, reload)
    {
      left := interrupt - 1;
      if left == 0 || yielded {
        left := reload;
        ghost var before := M(left);
        assert forall i :: 0 <= i < |plist| ==> plist[i].Ctx() == Saved()[i];
        SaveCurr(left);
        ghost var s := M(left);
        assert s == C.SaveCurrent(before);
        Switch(left);
        assert M(left) == C.SwitchTo(s, curr);
      }
    }

    /** A turn of the run loop; it reports a fault, and whether all processes are done. */
    method Turn(interrupt: int, reload: int) returns (ok: bool, finished: bool, left: int)
      requires Valid() && C.Alive(M(interrupt))
      modifies this, cpu, plist
      ensures ok <==> C.Cycle(cpu.code, old(cpu.Ctx()), old(cpu.memory)).Done?
      ensures ok ==> C.Turn(cpu.code, old(M(interrupt)), M(left), reload) && (finished <==> active == 0)
    {
      ghost var m := M(interrupt);
      finished, left := false, interrupt;
      var rc;
      ok, rc := cpu.Step();
      assert Saved() == m.saved && Flags() == m.done;
      if !ok {
        return;
      }
      ghost var e := M(interrupt);
      assert e == C.Executed(cpu.code, m);
      assert m.active > 0 by {
        ActivePositive(m);
      }
      if rc == C.Halted {
        C.RetireActive(e);
        SetDone(interrupt);
        ghost var h := M(interrupt);
        if active == 0 {
          return true, true, left;
        }
        assert active > 0 by {
          RetiredPositive(h);
        }
        Switch(interrupt);
        C.RetireActive(e);
        left := Interrupts(interrupt, false, reload);
      } else {
        left := Interrupts(interrupt, rc == C.Yielded, reload);
      }
      finished := active == 0;
    }
  }

  lemma {:induction false} AllUndone(done: seq<bool>)
    requires forall t :: 0 <= t < |done| ==> !done[t]
    ensures Sum(done, C.UNDONE) == |done|
  {
    if done != [] {
      AllUndone(done[1..]);
    }
  }

  lemma ActivePositive(m: C.Machine)
    requires C.MachineOk(m) && C.Alive(m)
    ensures m.active > 0
  {
    SumAtLeast(m.done, C.UNDONE, C.Running(m));
  }

  lemma RetiredPositive(m: C.Machine)
    requires C.MachineOk(m) && m.active != 0
    ensures m.active > 0
  {
    SumNonNegative(m.done, C.UNDONE);
  }
}
