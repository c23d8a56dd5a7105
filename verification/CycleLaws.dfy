// What step charges: the cost of each class of instruction, and how a multiply's wait depends on its operand.
module CycleLaws {
  import opened Words
  import opened Ir
  import opened Cpu
  import opened Reference
  import opened ByteNumbers
  import opened ByteStreams
  import opened Numbers
  import opened BlockTransfers
  import opened Compiler
  import opened Correctness

  // ----- The multiplier ------------------------------------------------------------------------------

  lemma Clear1(w: Word) ensures w & 0xFFFF_FF00 == 0 <==> Byte(w, 1) == 0 && Byte(w, 2) == 0 && Byte(w, 3) == 0 {}
  lemma Clear2(w: Word) ensures w & 0xFFFF_0000 == 0 <==> Byte(w, 2) == 0 && Byte(w, 3) == 0 {}
  lemma Clear3(w: Word) ensures w & 0xFF00_0000 == 0 <==> Byte(w, 3) == 0 {}

  lemma Full1(w: Word)
    ensures w & 0xFFFF_FF00 == 0xFFFF_FF00 <==> Byte(w, 1) == 0xFF && Byte(w, 2) == 0xFF && Byte(w, 3) == 0xFF
  {}

  lemma Full2(w: Word) ensures w & 0xFFFF_0000 == 0xFFFF_0000 <==> Byte(w, 2) == 0xFF && Byte(w, 3) == 0xFF {}
  lemma Full3(w: Word) ensures w & 0xFF00_0000 == 0xFF00_0000 <==> Byte(w, 3) == 0xFF {}

  lemma ByteEnds(b: bv8)
    ensures (Value(b) == 0 <==> b == 0) && (Value(b) == 255 <==> b == 0xFF) && Value(b) <= 255
  {
    hide Value, LowByte;
    Extremes();
    ValueBound(b);
    ValueLow(b);
    ValueLow(0);
    ValueLow(0xFF);
  }

  /** The multiplier waits one cycle for each significant byte of its operand, at most four: bytes above are all
      clear, or for the signed forms all clear or all set. */
  lemma WaitIs(w: Word, extra: nat)
    ensures MulWait(w, false, extra) ==
            extra + if Nat32(w) < 0x100 then 1 else if Nat32(w) < 0x1_0000 then 2 else if Nat32(w) < 0x100_0000 then 3 else 4
    ensures MulWait(w, true, extra) ==
            extra + if -0x100 <= Signed(w) < 0x100 then 1 else if -0x1_0000 <= Signed(w) < 0x1_0000 then 2
                    else if -0x100_0000 <= Signed(w) < 0x100_0000 then 3 else 4
  {
    hide Byte, Value;
    Clear1(w);
    Clear2(w);
    Clear3(w);
    Full1(w);
    Full2(w);
    Full3(w);
    ByteEnds(Byte(w, 0));
    ByteEnds(Byte(w, 1));
    ByteEnds(Byte(w, 2));
    ByteEnds(Byte(w, 3));
  }

  // ----- Classes of instruction ------------------------------------------------------------------------

  /** One access per listed register below k, the first nonsequential. */
  function ListCost(ins: Instr, base: Word, costs: CostModel, k: nat): nat
    requires k <= 16
  {
    if k == 0 then 0
    else
      ListCost(ins, base, costs, k - 1)
        + if ins.block.list[k - 1] then costs(Align4(Reference.Cursor(base, ins.block, k - 1)), 4, AnyBelow(ins.block.list, k - 1)) else 0
  }

  lemma {:induction false} LoopCost(cpu: CpuState, mem: Mem, ins: Instr, costs: CostModel, k: nat)
    requires k <= 16
    ensures TransferBelow(cpu, mem, ins, costs, k).memCycles == ListCost(ins, cpu.R[ins.block.rn], costs, k)
  {
    hide And, Read32, Write32, AnyBelow, BlockFinalBase, Reference.Cursor, ExceptionReturn, StmPcValue, WriteUserReg, ReadUserReg;
    if k > 0 { LoopCost(cpu, mem, ins, costs, k - 1); }
  }

  lemma BlockMemory(cpu: CpuState, mem: Mem, ins: Instr, costs: CostModel)
    ensures var e := ExecBlock(cpu, mem, ins, costs);
            var base := cpu.R[ins.block.rn];
            && e.extraCycles == 0 && (e.wrotePc <==> LoadsPc(ins)) && (e.returned ==> e.wrotePc)
            && e.memCycles == if EmptyList(ins.block.list) then costs(Align4(BlockStart(base, ins.block)), 4, false)
                              else ListCost(ins, base, costs, 16)
  {
    hide TransferBelow, EmptyList, BlockStart, BlockFinalBase, ExceptionReturn, Read32, Write32, And, StmPcValue, ListCost;
    LoopCost(cpu, mem, ins, costs, 16);
    LoopPc(cpu, mem, ins, costs, 16);
  }

  function PlusShift(ins: Instr): nat {
    if ins.op2.Shifted? && ins.op2.reg.count.ByReg? then 1 else 0
  }

  /** What the epilogue of step adds up. */
  lemma Executed(cpu: CpuState, mem: Mem, ins: Instr, costs: CostModel)
    requires CondPasses(ins.cond, cpu.cpsr) && !ins.isUndefined && !ins.op.SWI? && Executes(ins.op)
    ensures var e := Execute(cpu, mem, ins, costs);
            Step(cpu, mem, ins, costs).cycles ==
            CycleBase(ins.op) + e.memCycles + e.extraCycles + PlusShift(ins)
              + if e.wrotePc && !IsBranch(ins.op) then 2 else 0
  {
    hide CondPasses, Execute, Add, CycleBase;
  }

  lemma DpEffects(cpu: CpuState, mem: Mem, ins: Instr)
    requires IsDataProcessing(ins.op)
    ensures var e := ExecDataProcessing(cpu, mem, ins);
            e.memCycles == 0 && e.extraCycles == 0 && (e.wrotePc <==> ins.rd == 15 && !(ins.op.TST? || ins.op.TEQ? || ins.op.CMP? || ins.op.CMN?))
  {
    hide EvalOp2, DpRn, LogicalResult, ArithResult, ExceptionReturn, RestoreCpsr;
  }

  /** Data processing takes one cycle, one more with a shift by a register, two more to reach a new PC. */
  lemma DpCost(cpu: CpuState, mem: Mem, ins: Instr, costs: CostModel)
    requires CondPasses(ins.cond, cpu.cpsr) && !ins.isUndefined && IsDataProcessing(ins.op)
    ensures Step(cpu, mem, ins, costs).cycles ==
            1 + PlusShift(ins) + if ins.rd == 15 && !(ins.op.TST? || ins.op.TEQ? || ins.op.CMP? || ins.op.CMN?) then 2 else 0
  {
    hide CondPasses, Step, ExecDataProcessing;
    Executed(cpu, mem, ins, costs);
    DpEffects(cpu, mem, ins);
  }

  lemma BranchEffects(cpu: CpuState, mem: Mem, ins: Instr)
    requires IsBranch(ins.op)
    ensures var e := ExecBranch(cpu, mem, ins); e.memCycles == 0 && e.extraCycles == 0
  {
    hide And, Add, Or;
  }

  /** A taken branch takes three, the first half of a THUMB BL one. */
  lemma BranchCost(cpu: CpuState, mem: Mem, ins: Instr, costs: CostModel)
    requires CondPasses(ins.cond, cpu.cpsr) && !ins.isUndefined && IsBranch(ins.op)
    ensures Step(cpu, mem, ins, costs).cycles == (if ins.op.BL_prefix? then 1 else 3) + PlusShift(ins)
  {
    hide CondPasses, Step, ExecBranch;
    Executed(cpu, mem, ins, costs);
    BranchEffects(cpu, mem, ins);
  }

  /** Bytes, halfwords and words by operation. */
  function Width(op: IrOp): nat {
    if op.LDRB? || op.STRB? || op.LDRSB? then 1 else if op.LDRH? || op.STRH? || op.LDRSH? then 2 else 4
  }

  lemma MemoryEffects(cpu: CpuState, mem: Mem, ins: Instr, costs: CostModel)
    requires IsLoad(ins.op) || IsStore(ins.op)
    ensures var e := ExecMemory(cpu, mem, ins, costs);
            e.memCycles == costs(EffectiveAddress(cpu, ins), Width(ins.op), false) && e.extraCycles == 0
            && (e.wrotePc <==> IsLoad(ins.op) && ins.rd == 15)
  {
    hide LoadValue, StoreMem, EffectiveAddress, WritebackAddress, And, Add;
  }

  /** A load takes two and its access, and two more to reach a new PC; a store one and its access. */
  lemma MemoryCost(cpu: CpuState, mem: Mem, ins: Instr, costs: CostModel)
    requires CondPasses(ins.cond, cpu.cpsr) && !ins.isUndefined && (IsLoad(ins.op) || IsStore(ins.op))
    ensures Step(cpu, mem, ins, costs).cycles ==
            (if IsStore(ins.op) then 1 else if ins.rd == 15 then 4 else 2)
              + costs(EffectiveAddress(cpu, ins), Width(ins.op), false) + PlusShift(ins)
  {
    hide CondPasses, Step, ExecMemory, EffectiveAddress, Width;
    Executed(cpu, mem, ins, costs);
    MemoryEffects(cpu, mem, ins, costs);
  }

  /** A block transfer likewise, with an access for each register, the first nonsequential. */
  lemma BlockCost(cpu: CpuState, mem: Mem, ins: Instr, costs: CostModel)
    requires CondPasses(ins.cond, cpu.cpsr) && !ins.isUndefined && (ins.op.LDM? || ins.op.STM?)
    ensures var base := cpu.R[ins.block.rn];
            Step(cpu, mem, ins, costs).cycles ==
            (if ins.op.LDM? then 2 else 1) + (if LoadsPc(ins) then 2 else 0) + PlusShift(ins)
              + if EmptyList(ins.block.list) then costs(Align4(BlockStart(base, ins.block)), 4, false)
                else ListCost(ins, base, costs, 16)
  {
    hide CondPasses, Step, ExecBlock, ListCost, BlockStart, EmptyList, LoadsPc;
    Executed(cpu, mem, ins, costs);
    BlockMemory(cpu, mem, ins, costs);
  }

  lemma WaitSplits(w: Word, signed: bool, extra: nat)
    ensures MulWait(w, signed, extra) == extra + MulWait(w, signed, 0)
  {}

  lemma MultiplyEffects(cpu: CpuState, mem: Mem, ins: Instr)
    requires ins.op.MUL? || ins.op.MLA?
    ensures var e := ExecMultiply(cpu, mem, ins);
            var operand := if ins.op.MUL? && ins.thumb then cpu.R[ins.rm] else cpu.R[ins.rs];
            e.memCycles == 0 && !e.wrotePc && e.extraCycles == MulWait(operand, true, if ins.op.MLA? then 1 else 0)
  {
    hide MulWait, Mul, Add, SetNZ, SignBit, IsZero;
  }

  lemma LongEffects(cpu: CpuState, mem: Mem, ins: Instr)
    requires IsMultiplyLong(ins.op)
    ensures var e := ExecMultiplyLong(cpu, mem, ins);
            e.memCycles == 0 && !e.wrotePc
            && e.extraCycles == MulWait(cpu.R[ins.rs], ins.op.SMULL? || ins.op.SMLAL?, if ins.op.UMLAL? || ins.op.SMLAL? then 2 else 1)
  {
    hide MulWait, LongProduct, SetNZ, Lo32, Hi32, Bit63, IsZero64;
  }

  /** Multiplies take one and their wait; accumulating takes one more, and so does a long result. */
  lemma MultiplyCost(cpu: CpuState, mem: Mem, ins: Instr, costs: CostModel)
    requires CondPasses(ins.cond, cpu.cpsr) && !ins.isUndefined && IsMultiply(ins.op)
    ensures var operand := if ins.op.MUL? && ins.thumb then cpu.R[ins.rm] else cpu.R[ins.rs];
            var signed := !(ins.op.UMULL? || ins.op.UMLAL?);
            var more := (if IsMultiplyLong(ins.op) then 1 else 0) + (if ins.op.MLA? || ins.op.UMLAL? || ins.op.SMLAL? then 1 else 0);
            Step(cpu, mem, ins, costs).cycles == 1 + more + MulWait(operand, signed, 0) + PlusShift(ins)
  {
    hide CondPasses, Step, MulWait, ExecMultiply, ExecMultiplyLong;
    Executed(cpu, mem, ins, costs);
    if IsMultiplyLong(ins.op) {
      LongEffects(cpu, mem, ins);
      WaitSplits(cpu.R[ins.rs], ins.op.SMULL? || ins.op.SMLAL?, if ins.op.UMLAL? || ins.op.SMLAL? then 2 else 1);
    } else {
      MultiplyEffects(cpu, mem, ins);
      WaitSplits(if ins.op.MUL? && ins.thumb then cpu.R[ins.rm] else cpu.R[ins.rs], true, if ins.op.MLA? then 1 else 0);
    }
  }

  lemma SwapEffects(cpu: CpuState, mem: Mem, ins: Instr)
    requires ins.op.SWP? || ins.op.SWPB?
    ensures var e := ExecSwap(cpu, mem, ins); e.memCycles == 0 && e.extraCycles == 0 && !e.wrotePc
  {
    hide And, Mul, Rotr32, Read32, Write32, Read8, Write8;
  }

  lemma PsrEffects(cpu: CpuState, mem: Mem, ins: Instr)
    requires ins.op.MRS? || ins.op.MSR?
    ensures var e := ExecPsr(cpu, mem, ins); e.memCycles == 0 && e.extraCycles == 0 && !e.wrotePc
  {
    hide Pack, Merge, ByteMask, ModeToBank, WriteCpsr;
  }

  /** SWP takes three, and so does a SWI; a PSR transfer one, and so does whatever fails its condition or is undefined. */
  lemma OtherCost(cpu: CpuState, mem: Mem, ins: Instr, costs: CostModel)
    ensures var c := Step(cpu, mem, ins, costs).cycles;
            if !CondPasses(ins.cond, cpu.cpsr) then c == 1
            else if ins.isUndefined then c == 1
            else if ins.op.SWI? then c == 3
            else if ins.op.SWP? || ins.op.SWPB? then c == 3 + PlusShift(ins)
            else ins.op.MRS? || ins.op.MSR? ==> c == 1 + PlusShift(ins)
  {
    hide CondPasses, Execute, Finish, Add;
    if CondPasses(ins.cond, cpu.cpsr) && !ins.isUndefined && (ins.op.SWP? || ins.op.SWPB? || ins.op.MRS? || ins.op.MSR?) {
      Executed(cpu, mem, ins, costs);
      OtherEffects(cpu, mem, ins, costs);
    }
  }

  lemma OtherEffects(cpu: CpuState, mem: Mem, ins: Instr, costs: CostModel)
    requires ins.op.SWP? || ins.op.SWPB? || ins.op.MRS? || ins.op.MSR?
    ensures var e := Execute(cpu, mem, ins, costs); e.memCycles == 0 && e.extraCycles == 0 && !e.wrotePc
  {
    hide ExecSwap, ExecPsr, ExecDataProcessing, ExecBranch, ExecMemory, ExecBlock, ExecMultiply, ExecMultiplyLong;
    if ins.op.SWP? || ins.op.SWPB? { SwapEffects(cpu, mem, ins); } else { PsrEffects(cpu, mem, ins); }
  }
}
