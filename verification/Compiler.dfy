// One instruction: what emit_instr's code does, for every instruction the decoders produce.
module Compiler {
  import opened Words
  import opened Ir
  import opened Cpu
  import opened Reference
  import opened RuntimeOps
  import opened Host
  import opened Codegen
  import opened Flags
  import opened Shifter
  import opened Lowering
  import opened Alu
  import opened Branches
  import opened Transfers
  import opened BlockTransfers
  import opened Arithmetic

  /** What the decoders guarantee of an instruction that is neither Undefined nor SWI. */
  predicate WellFormed(ins: Instr) {
    && !ins.isUndefined && Executes(ins.op)
    && (IsDataProcessing(ins.op) ==> Op2Ok(ins.op2) && RnOk(ins))
    && (IsLoad(ins.op) || IsStore(ins.op) ==> MemOk(ins))
    && (ins.op.BL? ==> !ins.thumb)
    && (ins.op.LDM? || ins.op.STM? ==> (ins.block.load <==> ins.op.LDM?))
  }

  // ----- The switch ------------------------------------------------------------------------

  /** What the emitted code of a passing instruction does to the machine. */
  function EmittedEffect(p: Packed, mem: Mem, ins: Instr, costs: CostModel): Effect
    requires Executes(ins.op)
  {
    var cpu := Abs(p);
    if IsDataProcessing(ins.op) then EmittedDp(cpu, mem, ins)
    else if IsLoad(ins.op) || IsStore(ins.op) then EmittedMemory(cpu, mem, ins, costs)
    else if ins.op.LDM? || ins.op.STM? then EmittedBlock(cpu, mem, ins, costs)
    else if ins.op.MRS? || ins.op.MSR? then EmittedPsr(p, mem, ins)
    else Execute(cpu, mem, ins, costs)
  }

  /** A transfer of control hands over; everything else keeps it. */
  ghost predicate Lowered(ins: Instr, x: State, y: State, e: Effect) {
    if e.wrotePc && !FallsThrough(ins) then HandsOver(ins, x, y, e) else Falls(ins, x, y, e)
  }

  lemma PcOnly(ins: Instr, cpu: CpuState, mem: Mem, costs: CostModel)
    requires IsLoad(ins.op) || IsStore(ins.op)
    ensures EmittedMemory(cpu, mem, ins, costs).wrotePc <==> IsLoad(ins.op) && ins.rd == 15
    ensures !EmittedMemory(cpu, mem, ins, costs).returned
  {
    hide LoadValue, StoreMem, EffectiveAddress, WritebackAddress, And, Add, AddressView, AccessWidth;
  }

  lemma {:induction false} LoopPc(cpu: CpuState, mem: Mem, ins: Instr, costs: CostModel, k: nat)
    requires k <= 16
    ensures var e := TransferBelow(cpu, mem, ins, costs, k);
            (e.wrotePc <==> k == 16 && ins.block.load && ins.block.list[15]) && (e.returned ==> e.wrotePc)
            && e.extraCycles == 0
  {
    hide And, Read32, Write32, AnyBelow, BlockFinalBase, Cursor, ExceptionReturn;
    if k > 0 { LoopPc(cpu, mem, ins, costs, k - 1); }
  }

  lemma BlockPc(ins: Instr, cpu: CpuState, mem: Mem, costs: CostModel)
    ensures EmittedBlock(cpu, mem, ins, costs).wrotePc <==> LoadsPc(ins)
  {
    LoopPc(cpu, mem, ins, costs, 16);
    hide TransferBelow, EmptyList, BlockStart, BlockFinalBase, ExceptionReturn, Read32, Write32, And, StmPcValue;
  }

  /** The switch of emit_instr, whatever the instruction. */
  lemma OpAgrees(env: Env, ins: Instr, ctx: Ctx, x: State)
    requires AtBody(ins, x) && InSet(ins, ctx, x.m.cpu) && WellFormed(ins)
    ensures Lowered(ins, x, Exec(env, EmitOp(ins, ctx), x), EmittedEffect(x.m.cpu, x.m.mem, ins, env.costs))
  {
    hide Exec, Abs, Leaves, Falls, Returns, EmitDataProcessing, EmitBranch, EmitMemory, EmitBlockTransfer, EmitMultiply,
      EmitMultiplyLong, EmitSwap, EmitPsr, EmittedDp, EmittedMemory, EmittedBlock, EmittedPsr, AtBody, InSet, FallsThrough,
      ExecBranch, ExecMultiply, ExecMultiplyLong, ExecSwap;
    var cpu := Abs(x.m.cpu);
    KindFalls(ins, x);
    if IsDataProcessing(ins.op) { DataProcessingAgrees(env, ins, x); }
    else if IsBranch(ins.op) { BranchAgrees(env, ins, ctx, x); }
    else if IsLoad(ins.op) {
      PcOnly(ins, cpu, x.m.mem, env.costs);
      LoadInstrAgrees(env, ins, x);
    }
    else if IsStore(ins.op) {
      PcOnly(ins, cpu, x.m.mem, env.costs);
      StoreInstrAgrees(env, ins, x);
    }
    else if ins.op.LDM? || ins.op.STM? {
      BlockPc(ins, cpu, x.m.mem, env.costs);
      BlockAgrees(env, ins, x);
    }
    else if ins.op.MUL? || ins.op.MLA? { MultiplyAgrees(env, ins, x); }
    else if IsMultiplyLong(ins.op) { MultiplyLongAgrees(env, ins, x); }
    else if ins.op.SWP? { SwapWordAgrees(env, ins, x); }
    else if ins.op.SWPB? { SwapByteAgrees(env, ins, x); }
    else if ins.op.MRS? { MrsAgrees(env, ins, x); }
    else { MsrAgrees(env, ins, x); }
  }

  /** Which instructions transfer control at all. */
  lemma KindFalls(ins: Instr, x: State)
    requires Executes(ins.op)
    ensures FallsThrough(ins) ==> ins.op.BL?
    ensures IsBranch(ins.op) ==> (ExecBranch(Abs(x.m.cpu), x.m.mem, ins).wrotePc <==> !ins.op.BL_prefix?)
    ensures ins.op.MUL? || ins.op.MLA? ==> !ExecMultiply(Abs(x.m.cpu), x.m.mem, ins).wrotePc
    ensures IsMultiplyLong(ins.op) ==> !ExecMultiplyLong(Abs(x.m.cpu), x.m.mem, ins).wrotePc
    ensures ins.op.SWP? || ins.op.SWPB? ==> !ExecSwap(Abs(x.m.cpu), x.m.mem, ins).wrotePc
    ensures ins.op.MRS? || ins.op.MSR? ==> !EmittedPsr(x.m.cpu, x.m.mem, ins).wrotePc
  {
    hide Unpack, And, Add, Or, Mul, MulWait, Read32, Write32, Read8, Write8, Rotr32, Merge, ByteMask, ModeToBank,
      WriteCpsr,
      Pack, LongProduct, SetNZ, SignBit, IsZero;
  }

  // ----- The whole instruction ---------------------------------------------------------------

  /** About to run the code of `ins`. */
  ghost predicate AtInstr(ins: Instr, ctx: Ctx, x: State) {
    && x.status.Running? && x.handed.Kept? && x.m.cpu.R[15] == ins.pc
    && HasRoom(ins, x.m.calls) && InSet(ins, ctx, x.m.cpu)
  }

  /** What the code of one instruction amounts to, as step reports it. */
  function EmittedStep(p: Packed, mem: Mem, ins: Instr, costs: CostModel): StepResult
    requires Executes(ins.op)
  {
    var cpu := Abs(p);
    if !CondPasses(ins.cond, cpu.cpsr) then StepResult(Normal, SetReg(cpu, 15, Next(ins)), mem, 1)
    else
      var e := EmittedEffect(p, mem, ins, costs);
      if e.returned then StepResult(ExceptionReturned, e.cpu, e.mem, Cycles(ins, e))
      else if !e.wrotePc then StepResult(Normal, SetReg(e.cpu, 15, Next(ins)), e.mem, Cycles(ins, e))
      else StepResult(Branched, e.cpu, e.mem, Cycles(ins, e))
  }

  /** From x to y, running the code of `ins` did exactly r: if control was handed over, the machine and the
      cycles ticked were r's at that moment and it went to r's PC; otherwise they are r's now. The code itself
      ticked r's cycles. */
  ghost predicate Performs(ins: Instr, x: State, y: State, r: StepResult) {
    && !y.status.Aborted? && y.ticks == x.ticks + r.cycles
    && (y.handed.Handed? <==> r.outcome != Normal && !FallsThrough(ins))
    && if y.handed.Handed?
       then Abs(y.handed.cpu) == r.cpu && y.handed.mem == r.mem && y.handed.ticks == y.ticks && ToItsPc(y.handed)
            && (y.status.Running? ==> y.m.cpu.R[15] == Next(ins))
       else y.status.Running? && Abs(y.m.cpu) == r.cpu && y.m.mem == r.mem && y.m.calls == x.m.calls
  }

  lemma EpilogueRuns(env: Env, ins: Instr, s: State)
    requires s.status.Running?
    ensures Exec(env, Epilogue(ins), s) == PutReg(s, 15, Next(ins)).(ticks := s.ticks + s.cyc)
  {
    hide Exec, Eval, Next;
    SeqRules(env); RunSetG(env); RunTick(env); LeafRules(env);
  }

  lemma GuardRuns(env: Env, ins: Instr, ctx: Ctx, s: State)
    requires s.status.Running?
    ensures Exec(env, EmitGuarded(ins, ctx), s) ==
            if CondPasses(ins.cond, Abs(s.m.cpu).cpsr) then Exec(env, EmitBody(ins, ctx), s) else s
  {
    hide Exec, EvalTest, EmitBody, Unpack, CondPassesPacked;
    ConditionsAgree(ins.cond, s.m.cpu.cpsr);
    ChoiceRules(env); TestRules(env);
  }

  lemma BodyRuns(env: Env, ins: Instr, ctx: Ctx, s: State)
    requires s.status.Running? && WellFormed(ins)
    ensures Exec(env, EmitBody(ins, ctx), s) == Exec(env, EmitOp(ins, ctx), s.(cyc := ExecCost(ins)))
  {
    hide Exec, EmitOp, ExecCost;
    SeqRules(env); RunCycSet(env);
  }

  /** Running from the instruction's boundary to the guard. */
  lemma PrologueRuns(env: Env, ins: Instr, ctx: Ctx, x: State)
    requires x.status.Running? && x.m.cpu.R[15] == ins.pc && !ins.isUndefined && !ins.cond.NV?
    ensures Exec(env, EmitInstr(ins, ctx), x) ==
            Exec(env, Epilogue(ins), Exec(env, EmitGuarded(ins, ctx), x.(cyc := 1)))
  {
    hide Exec, Eval, EmitGuarded, Epilogue;
    SeqRules(env); RunSetG(env); RunCycSet(env); LeafRules(env);
    assert x.m.cpu.R[15 := ins.pc] == x.m.cpu.R;
  }

  lemma NeverRuns(env: Env, ins: Instr, ctx: Ctx, x: State)
    requires AtInstr(ins, ctx, x) && !ins.isUndefined && ins.cond.NV?
    ensures var y := Exec(env, EmitInstr(ins, ctx), x);
            y == PutReg(x, 15, Next(ins)).(cyc := 1, ticks := x.ticks + 1)
  {
    hide Exec, Eval, Next;
    SeqRules(env); RunSetG(env); RunCycSet(env); RunTick(env); LeafRules(env);
  }

  lemma SkippedRuns(env: Env, ins: Instr, ctx: Ctx, x: State)
    requires AtInstr(ins, ctx, x) && !ins.isUndefined && !CondPasses(ins.cond, Abs(x.m.cpu).cpsr)
    ensures var y := Exec(env, EmitInstr(ins, ctx), x);
            y == PutReg(x, 15, Next(ins)).(cyc := 1, ticks := x.ticks + 1)
  {
    hide Exec, EmitInstr, EmitGuarded, Epilogue, Next, Unpack;
    if ins.cond.NV? {
      NeverRuns(env, ins, ctx, x);
    } else {
      PrologueRuns(env, ins, ctx, x);
      GuardRuns(env, ins, ctx, x.(cyc := 1));
      EpilogueRuns(env, ins, x.(cyc := 1));
    }
  }

  /** Only the fall-through case keeps control with nothing handed over; a returning link call left R15 there itself. */
  lemma FinishRuns(env: Env, ins: Instr, x: State, s: State, e: Effect)
    requires Lowered(ins, x, s, e) && (e.returned ==> e.wrotePc)
    requires FallsThrough(ins) && e.wrotePc ==> e.cpu == SetReg(e.cpu, 15, Next(ins)) && !e.returned
    ensures var y := Exec(env, Epilogue(ins), s);
            Performs(ins, x, y, if e.returned then StepResult(ExceptionReturned, e.cpu, e.mem, Cycles(ins, e))
                                else if !e.wrotePc then StepResult(Normal, SetReg(e.cpu, 15, Next(ins)), e.mem, Cycles(ins, e))
                                else StepResult(Branched, e.cpu, e.mem, Cycles(ins, e)))
  {
    hide Exec, Unpack, Next, Cycles, Epilogue;
    SeqRules(env);
    if s.status.Running? {
      EpilogueRuns(env, ins, s);
      AbsSetReg(s.m.cpu, 15, Next(ins));
    }
  }

  lemma ReturnedWrites(p: Packed, mem: Mem, ins: Instr, costs: CostModel)
    requires Executes(ins.op)
    ensures var e := EmittedEffect(p, mem, ins, costs);
            (e.returned ==> e.wrotePc) && (FallsThrough(ins) ==> e.cpu == SetReg(e.cpu, 15, Next(ins)) && !e.returned)
  {
    hide Unpack, EvalOp2, DpRn, LogicalResult, ArithResult, And, Add, Or, Mul, MulWait, Read32, Write32, Read8, Write8,
      Rotr32, Merge, ByteMask, ModeToBank, WriteCpsr, Pack, LongProduct, SetNZ, SignBit, IsZero, ExceptionReturn,
      RestoreCpsr, WriteDest, TransferBelow, EmptyList, StmPcValue, EmittedMemory, Next, SetLogicalFlags, SetArithFlags,
      BlockStart, BlockFinalBase;
    if IsLoad(ins.op) || IsStore(ins.op) { PcOnly(ins, Abs(p), mem, costs); }
    LoopPc(Abs(p), mem, ins, costs, 16);
  }

  /** The code of every instruction the decoders produce, in every machine state at that instruction. */
  lemma InstrRuns(env: Env, ins: Instr, ctx: Ctx, x: State)
    requires AtInstr(ins, ctx, x) && WellFormed(ins)
    ensures Performs(ins, x, Exec(env, EmitInstr(ins, ctx), x), EmittedStep(x.m.cpu, x.m.mem, ins, env.costs))
  {
    hide Exec, EmitInstr, EmitGuarded, EmitBody, EmitOp, Epilogue, EmittedEffect, Lowered, Next, Unpack, Cycles, ExecCost;
    if CondPasses(ins.cond, Abs(x.m.cpu).cpsr) {
      PrologueRuns(env, ins, ctx, x);
      GuardRuns(env, ins, ctx, x.(cyc := 1));
      BodyRuns(env, ins, ctx, x.(cyc := 1));
      var x1 := x.(cyc := ExecCost(ins));
      OpAgrees(env, ins, ctx, x1);
      ReturnedWrites(x.m.cpu, x.m.mem, ins, env.costs);
      FinishRuns(env, ins, x1, Exec(env, EmitOp(ins, ctx), x1), EmittedEffect(x.m.cpu, x.m.mem, ins, env.costs));
    } else {
      SkippedRuns(env, ins, ctx, x);
      AbsSetReg(x.m.cpu, 15, Next(ins));
    }
  }

  // ----- No room for the call ------------------------------------------------------------------

  lemma FullStackCall(env: Env, target: Word, pc: Word, link: Word, thumb: bool, ctx: Ctx, x: State)
    requires x.status.Running? && |x.m.calls.frames| >= CALL_STACK_SIZE && target != link
    ensures Exec(env, EmitDirectBranch(target, pc, true, link, thumb, ctx), x).status.Aborted?
  {
    hide Exec, Eval, And, Or, AfterCall, AtLeast, Below;
    SeqRules(env); RunSetG(env); RunPushCall(env);
  }

  lemma FullStackSuffix(env: Env, ins: Instr, x: State)
    requires x.status.Running? && |x.m.calls.frames| >= CALL_STACK_SIZE
    ensures Exec(env, EmitLongSuffix(ins), x).status.Aborted?
  {
    hide Exec, Eval, And, Or, Add, AfterCall;
    SeqRules(env); RunSetVar(env); RunSetG(env); RunPushCall(env);
  }

  lemma FullStackBody(env: Env, ins: Instr, ctx: Ctx, x: State)
    requires x.status.Running? && |x.m.calls.frames| >= CALL_STACK_SIZE
    requires (ins.op.BL? && !FallsThrough(ins)) || ins.op.BL_suffix?
    ensures Exec(env, EmitBranch(ins, ctx), x).status.Aborted?
  {
    hide Exec, EmitDirectBranch, EmitLongSuffix, Next;
    if ins.op.BL? {
      FullStackCall(env, ins.branchTarget, ins.pc, Next(ins), ins.thumb, ctx, x);
    } else {
      FullStackSuffix(env, ins, x);
    }
  }

  /** A taken link call aborts exactly if the generated-call stack is full. */
  lemma FullStackAborts(env: Env, ins: Instr, ctx: Ctx, x: State)
    requires WellFormed(ins) && ((ins.op.BL? && !FallsThrough(ins)) || ins.op.BL_suffix?)
    requires x.status.Running? && x.handed.Kept? && x.m.cpu.R[15] == ins.pc && InSet(ins, ctx, x.m.cpu)
    requires CondPasses(ins.cond, Abs(x.m.cpu).cpsr)
    ensures Exec(env, EmitInstr(ins, ctx), x).status.Aborted? <==> |x.m.calls.frames| >= 16384
  {
    hide Exec, EmitInstr, EmitGuarded, EmitBody, EmitBranch, Epilogue, EmittedStep, WellFormed, FallsThrough, Abs,
      CondPasses, ExecCost;
    if |x.m.calls.frames| < CALL_STACK_SIZE {
      InstrRuns(env, ins, ctx, x);
    } else {
      LinkExecutes(ins);
      NeverFails(ins.cond, Abs(x.m.cpu).cpsr);
      PrologueRuns(env, ins, ctx, x);
      GuardRuns(env, ins, ctx, x.(cyc := 1));
      BodyRuns(env, ins, ctx, x.(cyc := 1));
      FullStackBody(env, ins, ctx, x.(cyc := ExecCost(ins)));
      LeftStays(env, Epilogue(ins), Exec(env, EmitBranch(ins, ctx), x.(cyc := ExecCost(ins))));
    }
  }

  lemma LinkExecutes(ins: Instr)
    requires WellFormed(ins)
    ensures !ins.isUndefined && Executes(ins.op)
  {}

  lemma NeverFails(c: Cond, p: Psr)
    ensures CondPasses(c, p) ==> !c.NV?
  {}
}
