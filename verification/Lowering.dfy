// When emitted code and the interpreter agree, stated once for every kind of
// instruction.
module Lowering {
  import opened Words
  import opened Ir
  import opened Cpu
  import opened Reference
  import opened RuntimeOps
  import opened Host
  import opened Codegen

  /** The cycles `step` reports for an executed instruction. */
  function Cycles(ins: Instr, e: Effect): nat {
    CycleBase(ins.op) + e.memCycles + e.extraCycles
      + (if ShiftedByRegister(ins.op2) then 1 else 0)
      + (if e.wrotePc && !IsBranch(ins.op) then 2 else 0)
  }

  /** A link call finds room on the generated-call stack; the runtime aborts when there is none. */
  predicate HasRoom(ins: Instr, calls: CallStack) {
    ins.op.BL? || ins.op.BL_suffix? ==> |calls.frames| < CALL_STACK_SIZE
  }

  /** A direct branch runs in the instruction set its function was compiled for. */
  predicate InSet(ins: Instr, ctx: Ctx, cpu: Packed) {
    ins.op.B? || ins.op.BL? ==> ctx.fnThumb == Unpack(cpu.cpsr).t
  }

  /** Control goes where the registers say at that moment: to code for R15 in the instruction set of CPSR.T, to
      the frame that waits for R15, or out to a loop that dispatches R15. */
  predicate ToItsPc(h: Handover) {
    h.Handed? &&
    var pc := h.cpu.R[15];
    match h.to
    case Code(target, thumb) => (target == pc || target == EvenPc(pc)) && thumb == Unpack(h.cpu.cpsr).t
    case Frame(target) => target == EvenPc(pc)
    case Unwound => true
  }

  /** The body of an instruction is about to run. */
  ghost predicate AtBody(ins: Instr, x: State) {
    x.status.Running? && x.handed.Kept? && x.m.cpu.R[15] == ins.pc && x.cyc == ExecCost(ins) && HasRoom(ins, x.m.calls)
  }

  /** The body kept control: registers, memory and pending charge are the interpreter's, the call stack is
      as it was. */
  ghost predicate Falls(ins: Instr, x: State, y: State, e: Effect) {
    && y.status.Running? && y.handed.Kept?
    && Abs(y.m.cpu) == e.cpu && y.m.mem == e.mem && y.m.calls == x.m.calls
    && y.cyc == Cycles(ins, e) && y.ticks == x.ticks
  }

  /** The body gave control away in exactly the interpreter's state, for exactly its PC, having ticked exactly
      its cycles. */
  ghost predicate Leaves(ins: Instr, x: State, y: State, e: Effect) {
    && !y.status.Running? && !y.status.Aborted?
    && ToItsPc(y.handed)
    && Abs(y.handed.cpu) == e.cpu && y.handed.mem == e.mem
    && y.handed.ticks == x.ticks + Cycles(ins, e) && y.ticks == y.handed.ticks
  }

  /** A link call whose callee came back to the next instruction: handed over like Leaves, nothing left to charge. */
  ghost predicate Returns(ins: Instr, x: State, y: State, e: Effect) {
    && y.status.Running?
    && ToItsPc(y.handed)
    && Abs(y.handed.cpu) == e.cpu && y.handed.mem == e.mem
    && y.handed.ticks == x.ticks + Cycles(ins, e) && y.ticks == y.handed.ticks
    && y.cyc == 0
  }

  lemma AbsSetReg(p: Packed, r: Reg, v: Word)
    ensures Abs(p.(R := p.R[r := v])) == SetReg(Abs(p), r, v)
  {}

  lemma PcPlus12(pc: Word)
    ensures Add(Add(pc, 8), 4) == Add(pc, 12)
  {
    assert Add(8, 4) == 12;
    hide Add;
    AddAssoc(pc, 8, 4);
  }

  // ----- Ways of leaving ---------------------------------------------------------------

  /** What a transfer with the charge ticked looks like, whatever the code it reaches does. */
  ghost predicate TickedOut(x: State, y: State) {
    && !y.status.Running? && !y.status.Aborted? && ToItsPc(y.handed)
    && y.handed == Handed(x.m.cpu, x.m.mem, x.ticks + x.cyc, y.handed.to) && y.ticks == x.ticks + x.cyc
  }

  /** A dispatch argument that is R15, or the local just stored there. */
  predicate HoldsPc(pc: Expr, x: State) {
    pc == G(15) || (pc == Var(VPc) && VPc in x.vars && x.vars[VPc] == x.m.cpu.R[15])
  }

  lemma PcValue(env: Env, pc: Expr, x: State)
    requires HoldsPc(pc, x)
    ensures Eval(env, pc, x) == x.m.cpu.R[15]
  {
    hide Eval;
    LeafRules(env);
  }

  /** After the test either control has left for the frame of R15, or only the call stack may have changed. */
  lemma ReturnTest(x: State, target: Word)
    requires x.status.Running? && x.handed.Kept? && target == x.m.cpu.R[15]
    ensures var y := AfterReturnTest(x, target);
            (y.status.Left? && y.handed == Handed(x.m.cpu, x.m.mem, x.ticks, Frame(EvenPc(target))) && y.ticks == x.ticks)
            || y == x.(m := x.m.(calls := y.m.calls))
  {
    hide ShouldReturn, PopTo, EvenPc;
  }

  lemma DispatchOut(env: Env, pc: Expr, x: State)
    requires x.status.Running? && x.handed.Kept? && HoldsPc(pc, x)
    ensures var y := Exec(env, Seq(Dispatch(pc), Return), x);
            y.status.Left? && y.ticks == x.ticks
            && y.handed == Handed(x.m.cpu, x.m.mem, x.ticks, Dispatched(x.m.cpu, x.m.cpu.R[15]))
  {
    hide Exec, Eval, Dispatched;
    SeqRules(env); RunDispatch(env); RunReturn(env);
    PcValue(env, pc, x);
  }

  /** A jump through R15: control leaves here with the charge ticked. */
  lemma JumpLeaves(env: Env, pc: Expr, cReturn: bool, x: State)
    requires x.status.Running? && x.handed.Kept? && HoldsPc(pc, x)
    ensures TickedOut(x, Exec(env, JumpThrough(pc, cReturn), x))
  {
    hide Exec, Eval, AfterReturnTest, EvenPc, Unpack;
    SeqRules(env); ChoiceRules(env); RunTick(env); RunReturnTest(env);
    var x1 := x.(ticks := x.ticks + x.cyc);
    PcValue(env, pc, x1);
    if cReturn {
      var x2 := AfterReturnTest(x1, x.m.cpu.R[15]);
      ReturnTest(x1, x.m.cpu.R[15]);
      if x2.status.Running? { DispatchOut(env, pc, x2); }
    } else {
      DispatchOut(env, pc, x1);
    }
  }

  /** An exception return: SPSR into CPSR, the new R15, and out. */
  lemma ExceptionLeaves(env: Env, target: Expr, x: State)
    requires x.status.Running? && x.handed.Kept?
    ensures var y := Exec(env, ExceptionReturnCode(target), x);
            !y.status.Running? && !y.status.Aborted?
            && y.handed == Handed(ReturnFromException(x.m.cpu, Eval(env, target, x.(ticks := x.ticks + x.cyc))),
                                  x.m.mem, x.ticks + x.cyc, Unwound)
            && y.ticks == x.ticks + x.cyc
  {
    hide Exec, Eval, ReturnFromException;
    SeqRules(env);
    RunTick(env); RunReturnException(env); RunReturn(env);
  }
}
