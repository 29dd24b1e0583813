/**
 What the instructions of x86.py mean to a program: which undo each other, how the conditions of a test order its
 operands, where addresses point, and what small loops of them compute.
 */
module CpuLaws {
  import opened Cpu

  // ---------- Arithmetic ----------

  /** Subtracting undoes adding. */
  lemma AddThenSub(c: Context, memory: map<int, int>, v: int, from: Reg, dst: Reg)
    requires c.Ok() && from != dst
    ensures var p := Execute(AddI(v, dst), c, memory);
            p.Done? && p.memory == memory && Execute(SubI(v, dst), p.ctx, memory) == Done(c, memory, Continue)
    ensures var p := Execute(AddR(from, dst), c, memory);
            p.Done? && p.memory == memory && Execute(SubR(from, dst), p.ctx, memory) == Done(c, memory, Continue)
  {
    assert c.regs[dst := c.regs[dst] + v][dst := c.regs[dst]] == c.regs;
    assert c.regs[dst := c.regs[dst] + c.regs[from]][dst := c.regs[dst]] == c.regs;
  }

  /** Negating twice changes nothing, and adding the negated is subtracting. */
  lemma NegTwice(c: Context, memory: map<int, int>, from: Reg, dst: Reg)
    requires c.Ok() && from != dst
    ensures var p := Execute(Neg(dst), c, memory);
            p.Done? && p.memory == memory && Execute(Neg(dst), p.ctx, memory) == Done(c, memory, Continue)
    ensures var p := Execute(Neg(from), c, memory);
            var q := Execute(AddR(from, dst), p.ctx, memory);
            q.Done? && q.ctx.regs[dst] == Execute(SubR(from, dst), c, memory).ctx.regs[dst]
  {
    assert c.regs[dst := -c.regs[dst]][dst := c.regs[dst]] == c.regs;
  }

  /** The register after adding another one n times. */
  function Added(c: Context, memory: map<int, int>, from: Reg, dst: Reg, n: nat): (d: Context)
    requires c.Ok()
    ensures d.Ok()
  {
    if n == 0 then c else Execute(AddR(from, dst), Added(c, memory, from, dst, n - 1), memory).ctx
  }

  /** Multiplying is adding that often, from 0. */
  lemma {:induction false} MulIsAdds(c: Context, memory: map<int, int>, from: Reg, dst: Reg, n: nat)
    requires c.Ok() && from != dst && c.regs[dst] == 0
    ensures Added(c, memory, from, dst, n) == Set(c, dst, Execute(MulI(n, from), c, memory).ctx.regs[from])
    ensures Execute(MulR(dst, from), Set(c, dst, n), memory).ctx.regs[from]
         == Execute(MulI(n, from), c, memory).ctx.regs[from]
  {
    if n == 0 {
      assert c.regs[dst := 0] == c.regs;
    } else {
      MulIsAdds(c, memory, from, dst, n - 1);
      assert c.regs[from] * n == c.regs[from] * (n - 1) + c.regs[from];
    }
  }

  // ---------- Tests ----------

  /** The six conditions are an order of the operands: the second is greater when something was added to it. */
  lemma ConditionsOrder(x: int, y: int)
    ensures Compare(x, y)[COND_GT] == Compare(y, x)[COND_LT]
    ensures Compare(x, y)[COND_GTE] == !Compare(x, y)[COND_LT] && Compare(x, y)[COND_LTE] == !Compare(x, y)[COND_GT]
    ensures Compare(x, y)[COND_EQ] == !Compare(x, y)[COND_NEQ]
    ensures Compare(x, y)[COND_EQ] == (Compare(x, y)[COND_GTE] && Compare(x, y)[COND_LTE])
    ensures y > 0 ==> Compare(x, x + y)[COND_GT]
  {
  }

  /** The three forms of test set the conditions alike, from the values of their operands. */
  lemma TestsAgree(c: Context, memory: map<int, int>, from: Reg, dst: Reg)
    requires c.Ok()
    ensures Execute(TestRR(from, dst), c, memory) == Execute(TestIR(c.regs[from], dst), c, memory)
    ensures Execute(TestRR(from, dst), c, memory) == Execute(TestRI(from, c.regs[dst]), c, memory)
  {
  }

  // ---------- Memory ----------

  /** What is stored is loaded, through the same address or through a register that holds it. */
  lemma StoreThenLoad(c: Context, memory: map<int, int>, from: Reg, at: Mem, dst: Reg)
    requires c.Ok()
    ensures var p := Execute(MoveRM(from, at), c, memory);
            && p.Done? && p.ctx == c && p.memory - {Address(c, at)} == memory - {Address(c, at)}
            && Execute(MoveMR(at, dst), p.ctx, p.memory) == Execute(MoveRR(from, dst), c, p.memory)
    ensures Execute(MoveIM(c.regs[from], at), c, memory) == Execute(MoveRM(from, at), c, memory)
    ensures Execute(MoveIR(c.regs[from], dst), c, memory) == Execute(MoveRR(from, dst), c, memory)
  {
  }

  /** The register a lea fills points to the address; the address moves with its first register, and with its second one
      by the scale. */
  lemma LeaPoints(c: Context, memory: map<int, int>, at: Mem, dst: Reg, other: Reg, k: int)
    requires c.Ok()
    ensures var p := Execute(Lea(at, dst), c, memory);
            && p.Done? && p.memory == memory && Address(p.ctx, Mem(0, dst, other, 0)) == Address(c, at)
            && forall r: Reg :: r != dst ==> p.ctx.regs[r] == c.regs[r]
    ensures at.reg1 != at.reg2 ==> Address(Set(c, at.reg1, c.regs[at.reg1] + k), at) == Address(c, at) + k
    ensures at.reg1 != at.reg2 ==> Address(Set(c, at.reg2, c.regs[at.reg2] + 1), at) == Address(c, at) + at.scale
    ensures Address(c, at.(value := at.value + 1)) == Address(c, at) + 1
    ensures PlainAddress(c, at) == Address(c, at.(scale := 1))
  {
    var x := c.regs[at.reg2];
    assert at.scale * (x + 1) == at.scale * x + at.scale;
  }

  /** Two fetch-and-adds of one, by different contexts: each gets a ticket of its own, in order, and both count. */
  lemma TicketsDiffer(c: Context, d: Context, memory: map<int, int>, r: Reg, q: Reg, at: Mem, other: Mem)
    requires c.Ok() && d.Ok() && c.regs[r] == 1 && d.regs[q] == 1
    requires PlainAddress(c, at) == PlainAddress(d, other) && PlainAddress(c, at) in memory
    ensures var a, x := PlainAddress(c, at), Execute(FetchAdd(r, at), c, memory);
            && x.Done? && x.ctx == Set(c, r, memory[a])
            && var y := Execute(FetchAdd(q, other), d, x.memory);
               && y.Done? && y.ctx.regs[q] == x.ctx.regs[r] + 1
               && y.memory == memory[a := memory[a] + 2]
  {
    var a := PlainAddress(c, at);
    assert memory[a := memory[a] + 1][a := memory[a] + 1 + 1] == memory[a := memory[a] + 2];
  }

  lemma SetBack(regs: seq<int>, r: Reg, v: int, dst: Reg, x: int)
    requires |regs| == NUM_REGS && dst != r
    ensures regs[r := v][r := regs[r]] == regs
    ensures regs[r := v][dst := x][r := regs[r]] == regs[dst := x]
  {
  }

  /** A pop drops what was pushed. */
  lemma PushThenDrop(c: Context, memory: map<int, int>, from: Reg)
    requires c.Ok() && from != REG_SP
    ensures var p := Execute(PushR(from), c, memory);
            p.Done? && Execute(Pop, p.ctx, p.memory) == Done(c, p.memory, Continue)
  {
    SetBack(c.regs, REG_SP, c.regs[REG_SP] - 4, from, 0);
  }

  /** Pushing a memory operand pushes its address, as the program says of itself. */
  lemma PushAddress(c: Context, memory: map<int, int>, at: Mem, dst: Reg)
    requires c.Ok() && dst != REG_SP && at.reg1 != REG_SP && at.reg2 != REG_SP
    ensures var p := Execute(PushM(at), c, memory);
            p.Done? && Execute(PopR(dst), p.ctx, p.memory) == Done(Set(c, dst, Address(c, at)), p.memory, Continue)
  {
    SetBack(c.regs, REG_SP, c.regs[REG_SP] - 4, dst, Address(c, at));
  }

  // ---------- Loops ----------

  /** The thread after n cycles, none of which faults or halts. */
  ghost predicate Cycles(code: map<int, Instr>, c: Context, memory: map<int, int>, n: nat, d: Context)
    decreases n
  {
    && c.Ok()
    && if n == 0 then d == c
       else
         var r := Cycle(code, c, memory);
         r.Done? && r.rc == Continue && r.memory == memory && Cycles(code, r.ctx, memory, n - 1, d)
  }

  /** Counts a register down to 0: sub $1, r; test $0, r; jgt top. */
  predicate CountsDown(code: map<int, Instr>, top: int, r: Reg) {
    && top in code && code[top] == SubI(1, r)
    && top + 1 in code && code[top + 1] == TestIR(0, r)
    && top + 2 in code && code[top + 2] == JumpIf(COND_GT, top)
  }

  /** Counts a register up to another: add $1, r; test limit, r; jlt top. */
  predicate CountsUp(code: map<int, Instr>, top: int, r: Reg, limit: Reg) {
    && top in code && code[top] == AddI(1, r)
    && top + 1 in code && code[top + 1] == TestRR(limit, r)
    && top + 2 in code && code[top + 2] == JumpIf(COND_LT, top)
  }

  lemma OnceDown(code: map<int, Instr>, top: int, r: Reg, c: Context, memory: map<int, int>) returns (d: Context)
    requires CountsDown(code, top, r) && c.Ok() && c.pc == top
    ensures Cycles(code, c, memory, 3, d) && d.regs == c.regs[r := c.regs[r] - 1]
    ensures d.pc == if c.regs[r] > 1 then top else top + 3
  {
    var c1 := Cycle(code, c, memory).ctx;
    var c2 := Cycle(code, c1, memory).ctx;
    d := Cycle(code, c2, memory).ctx;
    assert Cycles(code, d, memory, 0, d);
    assert Cycles(code, c2, memory, 1, d);
    assert Cycles(code, c1, memory, 2, d);
  }

  lemma {:induction false} CyclesOn(code: map<int, Instr>, c: Context, memory: map<int, int>, n: nat, d: Context,
                                    m: nat, e: Context)
    requires Cycles(code, c, memory, n, d) && Cycles(code, d, memory, m, e)
    ensures Cycles(code, c, memory, n + m, e)
    decreases n
  {
    if n > 0 {
      CyclesOn(code, Cycle(code, c, memory).ctx, memory, n - 1, d, m, e);
    }
  }

  /** The loop down runs as often as the register says, and leaves it at 0 and everything else alone. */
  lemma {:induction false} DownLoop(code: map<int, Instr>, top: int, r: Reg, c: Context, memory: map<int, int>, n: nat)
    returns (d: Context)
    requires CountsDown(code, top, r) && c.Ok() && c.pc == top && c.regs[r] == n > 0
    ensures Cycles(code, c, memory, 3 * n, d) && d.pc == top + 3 && d.regs == c.regs[r := 0]
    decreases n
  {
    var e := OnceDown(code, top, r, c, memory);
    if n == 1 {
      d := e;
    } else {
      assert Cycles(code, e, memory, 0, e);
      d := DownLoop(code, top, r, e, memory, n - 1);
      CyclesOn(code, c, memory, 3, e, 3 * (n - 1), d);
    }
  }

  lemma OnceUp(code: map<int, Instr>, top: int, r: Reg, limit: Reg, c: Context, memory: map<int, int>)
    returns (d: Context)
    requires CountsUp(code, top, r, limit) && r != limit && c.Ok() && c.pc == top
    ensures Cycles(code, c, memory, 3, d) && d.regs == c.regs[r := c.regs[r] + 1]
    ensures d.pc == if c.regs[r] + 1 < c.regs[limit] then top else top + 3
  {
    var c1 := Cycle(code, c, memory).ctx;
    var c2 := Cycle(code, c1, memory).ctx;
    d := Cycle(code, c2, memory).ctx;
    assert Cycles(code, d, memory, 0, d);
    assert Cycles(code, c2, memory, 1, d);
    assert Cycles(code, c1, memory, 2, d);
  }

  /** The loop up runs as often as the register is below its limit, and leaves it there. */
  lemma {:induction false} UpLoop(code: map<int, Instr>, top: int, r: Reg, limit: Reg, c: Context,
                                  memory: map<int, int>, n: nat) returns (d: Context)
    requires CountsUp(code, top, r, limit) && r != limit && c.Ok() && c.pc == top
    requires c.regs[limit] - c.regs[r] == n > 0
    ensures Cycles(code, c, memory, 3 * n, d) && d.pc == top + 3 && d.regs == c.regs[r := c.regs[limit]]
    decreases n
  {
    var e := OnceUp(code, top, r, limit, c, memory);
    if n == 1 {
      d := e;
    } else {
      assert Cycles(code, e, memory, 0, e);
      d := UpLoop(code, top, r, limit, e, memory, n - 1);
      CyclesOn(code, c, memory, 3, e, 3 * (n - 1), d);
    }
  }
}
