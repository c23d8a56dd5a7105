// Straight-line blocks: emit_block's code against iterating the interpreter.
module Blocks {
  import opened Words
  import opened Ir
  import opened Cpu
  import opened Reference
  import opened RuntimeOps
  import opened Host
  import opened Codegen
  import opened Lowering
  import opened Branches
  import opened BlockTransfers
  import opened Compiler
  import opened Correctness

  /** Where iterating step over a block stands; `left` once control has been transferred. */
  datatype Progress = Progress(cpu: CpuState, mem: Mem, cycles: nat, left: bool)

  /** Step over the first k instructions, stopping at the first taken transfer of control. */
  function StepThrough(cpu: CpuState, mem: Mem, block: seq<Instr>, costs: CostModel, k: nat): Progress
    requires k <= |block|
  {
    if k == 0 then Progress(cpu, mem, 0, false) else
    var p := StepThrough(cpu, mem, block, costs, k - 1);
    if p.left then p else
    var r := Step(p.cpu, p.mem, block[k - 1], costs);
    Progress(r.cpu, r.mem, p.cycles + r.cycles, r.outcome != Normal && !FallsThrough(block[k - 1]))
  }

  /** Instructions the decoders produce, at consecutive addresses. */
  predicate Consecutive(block: seq<Instr>) {
    && (forall i | 0 <= i < |block| :: WellFormed(block[i]))
    && (forall i | 0 < i < |block| :: block[i].pc == Next(block[i - 1]))
  }

  /** When the run reaches instruction i, none of the listed differences applies to it. */
  ghost predicate Unaffected(env: Env, block: seq<Instr>, ctx: Ctx, x: State, i: nat)
    requires i < |block| && Consecutive(block)
  {
    var y := Exec(env, EmitFirst(block, ctx, i), x);
    y.handed.Kept? ==>
      && SameOffset(block[i], Abs(y.m.cpu)) && !Differs(y.m.cpu, y.m.mem, block[i])
      && HasRoom(block[i], y.m.calls) && InSet(block[i], ctx, y.m.cpu)
  }

  /** The emitted run stands where iterating step stands: at the handover if there was one, which then went to the
      PC step reached, else now. */
  ghost predicate Tracks(x: State, y: State, p: Progress, next: Word) {
    && (y.handed.Handed? <==> p.left)
    && if p.left
       then Abs(y.handed.cpu) == p.cpu && y.handed.mem == p.mem && y.handed.ticks == x.ticks + p.cycles && ToItsPc(y.handed)
       else y.status.Running? && Abs(y.m.cpu) == p.cpu && y.m.mem == p.mem && y.ticks == x.ticks + p.cycles
            && y.m.cpu.R[15] == next && y.m.calls == x.m.calls
  }

  /** The handover, once recorded, is never changed. */
  lemma {:induction false} HandoverStays(env: Env, st: Stmt, s: State)
    requires s.handed.Handed?
    ensures Exec(env, st, s).handed == s.handed
  {
    if st.Seq? {
      HandoverStays(env, st.s1, s);
      HandoverStays(env, st.s2, Exec(env, st.s1, s));
    } else if st.IfElse? {
      hide EvalTest;
      HandoverStays(env, st.s1, s);
      HandoverStays(env, st.s2, s);
    } else {
      hide Do;
      DoKeepsHandover(env, st, s);
    }
  }

  // Only the statements that leave can record a handover.

  lemma AssignFrame(env: Env, st: Stmt, s: State)
    ensures DoAssign(env, st, s).handed == s.handed && DoCycles(env, st, s).handed == s.handed
  {
    hide Eval, EvalWide, MulWait;
  }

  lemma BusFrame(env: Env, st: Stmt, s: State)
    ensures DoBus(env, st, s).handed == s.handed
  {
    hide Eval, Write8, Write16, Write32, Low8, Low16;
  }

  lemma PsrFrame(env: Env, st: Stmt, s: State)
    ensures DoPsr(env, st, s).handed == s.handed
  {
    hide Eval, SetUserReg, MsrCpsr, MsrSpsr, RestoreFromSpsr, ReturnFromException;
  }

  lemma FlagsFrame(env: Env, st: Stmt, s: State)
    ensures DoFlags(env, st, s).handed == s.handed && DoArithFlags(env, st, s).handed == s.handed
  {
    hide Eval, FlagsNZ, FlagsNZ64, FlagsLogic, ExchangeT, FlagsAdd, FlagsAdc, FlagsSub, FlagsSbc;
  }

  lemma DoKeepsHandover(env: Env, st: Stmt, s: State)
    requires s.handed.Handed?
    ensures Do(env, st, s).handed == s.handed
  {
    hide DoAssign, DoFlags, DoArithFlags, DoBus, DoPsr, DoCycles, DoCalls, DoLeave;
    AssignFrame(env, st, s);
    BusFrame(env, st, s);
    PsrFrame(env, st, s);
    FlagsFrame(env, st, s);
    LeaveKeepsHandover(env, st, s);
  }

  lemma LeaveKeepsHandover(env: Env, st: Stmt, s: State)
    requires s.handed.Handed?
    ensures DoLeave(env, st, s).handed == s.handed && DoCalls(env, st, s).handed == s.handed
  {
    hide Eval, ExchangeT, SwiEntry, PopTo, ShouldReturn;
  }

  function PcAfter(block: seq<Instr>, k: nat): Word
    requires k <= |block| && |block| > 0
  {
    if k == 0 then block[0].pc else Next(block[k - 1])
  }

  lemma NothingRun(env: Env, block: seq<Instr>, ctx: Ctx, x: State)
    requires x.status.Running?
    ensures Exec(env, EmitFirst(block, ctx, 0), x) == x
  {
    hide Exec;
    ChoiceRules(env);
  }

  /** Block correctness, with cycle conservation: running the code of the first k instructions is iterating
      step over them until the first transfer of control. */
  lemma {:induction false} BlockCorrect(env: Env, block: seq<Instr>, ctx: Ctx, x: State, k: nat)
    requires 0 < |block| && k <= |block| && Consecutive(block) && AtInstr(block[0], ctx, x)
    requires forall i | 0 <= i < k :: Unaffected(env, block, ctx, x, i)
    ensures Tracks(x, Exec(env, EmitFirst(block, ctx, k), x),
                   StepThrough(Abs(x.m.cpu), x.m.mem, block, env.costs, k), PcAfter(block, k))
  {
    hide Exec, EmitFirst, Unaffected, WellFormed, Next;
    if k == 0 {
      NothingRun(env, block, ctx, x);
    } else {
      BlockCorrect(env, block, ctx, x, k - 1);
      BlockTurn(env, block, ctx, x, k);
    }
  }

  lemma BlockTurn(env: Env, block: seq<Instr>, ctx: Ctx, x: State, k: nat)
    requires 0 < k <= |block| && Consecutive(block)
    requires Unaffected(env, block, ctx, x, k - 1)
    requires Tracks(x, Exec(env, EmitFirst(block, ctx, k - 1), x),
                    StepThrough(Abs(x.m.cpu), x.m.mem, block, env.costs, k - 1), PcAfter(block, k - 1))
    ensures Tracks(x, Exec(env, EmitFirst(block, ctx, k), x),
                   StepThrough(Abs(x.m.cpu), x.m.mem, block, env.costs, k), PcAfter(block, k))
  {
    hide Exec, EmitInstr, Abs, Step, SameOffset, Differs, WellFormed, FallsThrough, Next;
    SeqRules(env);
    var ins := block[k - 1];
    var y := Exec(env, EmitFirst(block, ctx, k - 1), x);
    if y.handed.Handed? {
      HandoverStays(env, EmitInstr(ins, ctx), y);
    } else {
      CompilerCorrect(env, ins, ctx, y);
      NextPcHeld(env, ins, ctx, y);
    }
  }

  /** Where control is kept, R15 is at the next instruction. */
  lemma NextPcHeld(env: Env, ins: Instr, ctx: Ctx, x: State)
    requires AtInstr(ins, ctx, x) && WellFormed(ins)
    ensures var y := Exec(env, EmitInstr(ins, ctx), x);
            y.handed.Kept? ==> y.m.cpu.R[15] == Next(ins)
  {
    hide Exec, EmitInstr, EmittedEffect, WellFormed, FallsThrough, Next, Unpack, Cycles, CondPasses;
    WellFormedRuns(ins);
    InstrRuns(env, ins, ctx, x);
    KeptPc(x.m.cpu, x.m.mem, ins, env.costs);
  }

  lemma KeptPc(p: Packed, mem: Mem, ins: Instr, costs: CostModel)
    requires Executes(ins.op)
    ensures var r := EmittedStep(p, mem, ins, costs);
            r.outcome == Normal || FallsThrough(ins) ==> r.cpu.R[15] == Next(ins)
  {
    hide EmittedEffect, FallsThrough, Next, Unpack, Cycles, CondPasses;
    ReturnedWrites(p, mem, ins, costs);
  }

  // ----- Blocks that never differ -------------------------------------------------------------------------

  /** Instruction fields that rule out every listed difference, and any change of instruction set short of a transfer
      of control, whatever the machine holds. */
  predicate Steady(ins: Instr) {
    && !(IsTest(ins.op) && ins.rd == 15 && ins.setFlags)
    && !(IsLoad(ins.op) && ins.rd == 15 && !ins.thumb)
    && !LateBase(ins)
    && (ins.op.MRS? ==> ins.psr.spsr)
    && (ins.op.MSR? ==> !ins.psr.spsr && (ins.psr.mask & 1 == 0 || ClearsSet(ins)))
    && (Multiplies(ins.op) || ins.op.MRS? ==> ins.rd != 15)
    && (IsMultiplyLong(ins.op) ==> ins.rn != 15)
    && (IsLoad(ins.op) || IsStore(ins.op) ==>
          !(ins.mem.writeback && ins.mem.rn == 15) && !(ins.mem.offset.RegOffset? && ins.mem.offset.rm == 15))
    && (ins.op.LDM? || ins.op.STM? ==> !(ins.block.writeback && ins.block.rn == 15 && !LoadsPc(ins)))
  }

  /** An immediate for the control byte that keeps ARM code in ARM state. */
  predicate ClearsSet(ins: Instr) {
    !ins.thumb && ins.op2.Imm? && And(ins.op2.value, 0x20) == 0
  }

  lemma SteadyAgrees(ins: Instr, p: Packed, mem: Mem)
    requires Steady(ins)
    ensures SameOffset(ins, Abs(p)) && !DiffersIfRun(p, mem, ins)
  {
    hide Unpack, RestoreKeeps, LoadValue, EffectiveAddress, WritebackAddress, BlockFinalBase, SeenIn, Merge, Canonical,
      Product, SwappedIn, LongProduct, StatusWord, And, DoShift, LoadsPc;
  }

  // MSR and bit T.

  lemma UntouchedSet(p: Psr, v: Word, mask: bv4)
    requires mask & 1 == 0
    ensures Unpack(Merge(Pack(p), v, ByteMask(mask))).t == p.t
  {}

  lemma UserSet(p: Psr, v: Word, mask: bv4)
    ensures Unpack(Merge(Pack(p), v, UserMask(mask))).t == p.t
  {}

  lemma ClearedSet(p: Psr, v: Word, mask: bv4)
    requires And(v, 0x20) == 0 && !p.t
    ensures !Unpack(Merge(Pack(p), v, ByteMask(mask))).t
  {}

  lemma PsrKeepsSet(cpu: CpuState, mem: Mem, ins: Instr)
    requires (ins.op.MRS? || ins.op.MSR?) && Steady(ins) && cpu.thumb == cpu.cpsr.t == ins.thumb
    ensures ExecPsr(cpu, mem, ins).cpu.thumb == cpu.thumb
  {
    hide Pack, Unpack, Merge, ByteMask, UserMask, ModeToBank, And;
    if ins.op.MSR? {
      var v := MsrSource(cpu, ins);
      UserSet(cpu.cpsr, v, ins.psr.mask);
      if ins.psr.mask & 1 == 0 { UntouchedSet(cpu.cpsr, v, ins.psr.mask); } else { ClearedSet(cpu.cpsr, v, ins.psr.mask); }
    }
  }

  lemma BlockKeepsSet(cpu: CpuState, mem: Mem, ins: Instr, costs: CostModel)
    ensures LoadsPc(ins) || ExecBlock(cpu, mem, ins, costs).cpu.thumb == cpu.thumb
  {
    hide TransferBelow, EmptyList, BlockStart, BlockFinalBase, ExceptionReturn, Read32, Write32, And, StmPcValue;
    if !LoadsPc(ins) && !EmptyList(ins.block.list) { LoopKeeps(cpu, mem, ins, costs, 16); }
  }

  lemma LoadedPc(ins: Instr, cpu: CpuState, mem: Mem, costs: CostModel)
    ensures ExecBlock(cpu, mem, ins, costs).wrotePc <==> LoadsPc(ins)
  {
    LoopPc(cpu, mem, ins, costs, 16);
    hide TransferBelow, EmptyList, BlockStart, BlockFinalBase, ExceptionReturn, Read32, Write32, And, StmPcValue;
  }

  lemma DpKeepsSet(cpu: CpuState, mem: Mem, ins: Instr)
    requires IsDataProcessing(ins.op)
    ensures var e := ExecDataProcessing(cpu, mem, ins); e.wrotePc || e.cpu.thumb == cpu.thumb
  {
    hide EvalOp2, DpRn, LogicalResult, ArithResult, ExceptionReturn, RestoreCpsr;
  }

  lemma OtherKeepsSet(cpu: CpuState, mem: Mem, ins: Instr, costs: CostModel)
    requires IsBranch(ins.op) || IsLoad(ins.op) || IsStore(ins.op) || Multiplies(ins.op)
    ensures var e := Execute(cpu, mem, ins, costs); (e.wrotePc && !FallsThrough(ins)) || e.cpu.thumb == cpu.thumb
  {
    hide ExecDataProcessing, ExecBlock, ExecPsr, Mul, MulWait, Add, And, Or, LongProduct, Rotr32, Read32, Write32, Read8,
      Write8, SignBit, IsZero, Lo32, Hi32, LoadValue, StoreMem, EffectiveAddress, WritebackAddress, AccessWidth, Next;
  }

  /** Where control is kept, so is the instruction set. */
  lemma SteadyKeepsSet(cpu: CpuState, mem: Mem, ins: Instr, costs: CostModel)
    requires Steady(ins) && WellFormed(ins) && cpu.thumb == cpu.cpsr.t == ins.thumb
    ensures var r := Step(cpu, mem, ins, costs);
            r.outcome == Normal || FallsThrough(ins) ==> r.cpu.thumb == cpu.thumb
  {
    hide ExecDataProcessing, ExecMemory, ExecBlock, ExecPsr, ExecBranch, ExecMultiply, ExecMultiplyLong, ExecSwap,
      WellFormed,
      Steady, Next, CondPasses, CycleBase, Add, EmptyList;
    WellFormedRuns(ins);
    if IsDataProcessing(ins.op) { DpKeepsSet(cpu, mem, ins); }
    else if ins.op.LDM? || ins.op.STM? {
      WellFormedExecutes(ins);
      LoadedPc(ins, cpu, mem, costs);
      BlockKeepsSet(cpu, mem, ins, costs);
    }
    else if ins.op.MRS? || ins.op.MSR? { PsrKeepsSet(cpu, mem, ins); }
    else { OtherKeepsSet(cpu, mem, ins, costs); }
  }

  /** Code of one instruction set whose fields rule the differences out. */
  predicate SteadyBlock(block: seq<Instr>, ctx: Ctx) {
    && |block| > 0 && Consecutive(block)
    && forall i | 0 <= i < |block| :: Steady(block[i]) && block[i].thumb == ctx.fnThumb
  }

  /** A machine at the first instruction, in that instruction set, with room for a call. */
  ghost predicate EntersBlock(block: seq<Instr>, ctx: Ctx, x: State)
    requires |block| > 0
  {
    AtInstr(block[0], ctx, x) && Unpack(x.m.cpu.cpsr).t == ctx.fnThumb && |x.m.calls.frames| < CALL_STACK_SIZE
  }

  /** Block correctness with nothing assumed of the states in between: running the code of a steady block is iterating
      step until the first transfer of control. */
  lemma {:induction false} SteadyBlockCorrect(env: Env, block: seq<Instr>, ctx: Ctx, x: State, k: nat)
    requires SteadyBlock(block, ctx) && k <= |block| && EntersBlock(block, ctx, x)
    ensures var y := Exec(env, EmitFirst(block, ctx, k), x);
            Tracks(x, y, StepThrough(Abs(x.m.cpu), x.m.mem, block, env.costs, k), PcAfter(block, k))
            && (y.handed.Kept? ==> Unpack(y.m.cpu.cpsr).t == ctx.fnThumb)
  {
    if k == 0 {
      hide Exec, EmitFirst, Unpack, Steady;
      NothingRun(env, block, ctx, x);
    } else {
      hide Exec, Unpack, Steady, EmitInstr, WellFormed, Next, Unaffected, Step, FallsThrough, ToItsPc;
      SteadyBlockCorrect(env, block, ctx, x, k - 1);
      var y := Exec(env, EmitFirst(block, ctx, k - 1), x);
      SteadyUnaffected(env, block, ctx, x, k - 1);
      BlockTurn(env, block, ctx, x, k);
      if y.handed.Kept? { SteadyKeepsSet(Abs(y.m.cpu), y.m.mem, block[k - 1], env.costs); }
      else { SeqRules(env); HandoverStays(env, EmitInstr(block[k - 1], ctx), y); }
    }
  }

  lemma SteadyUnaffected(env: Env, block: seq<Instr>, ctx: Ctx, x: State, i: nat)
    requires i < |block| && Consecutive(block) && Steady(block[i])
    requires var y := Exec(env, EmitFirst(block, ctx, i), x);
             y.handed.Kept? ==> |y.m.calls.frames| < CALL_STACK_SIZE && Unpack(y.m.cpu.cpsr).t == ctx.fnThumb
    ensures Unaffected(env, block, ctx, x, i)
  {
    hide Exec, EmitFirst, Abs, WellFormed, DiffersIfRun, SameOffset, Steady, Unpack;
    var y := Exec(env, EmitFirst(block, ctx, i), x);
    SteadyAgrees(block[i], y.m.cpu, y.m.mem);
  }
}
