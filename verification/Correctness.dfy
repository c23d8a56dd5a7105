// Compiler correctness: exactly when emitted code does what the interpreter's step does.
module Correctness {
  import opened Words
  import opened Ir
  import opened Cpu
  import opened Reference
  import opened RuntimeOps
  import opened Host
  import opened Codegen
  import opened Flags
  import opened Lowering
  import opened Alu
  import opened Branches
  import opened Transfers
  import opened BlockTransfers
  import opened Arithmetic
  import opened Compiler

  // ----- Where the two engines differ ---------------------------------------------------------

  /** An SPSR restore would change nothing: the SPSR holds the current fields, and the banks of the
      current mode already hold the live registers. */
  predicate RestoreKeeps(cpu: CpuState) {
    var b := ModeToBank(cpu.cpsr.mode);
    && Unpack(cpu.spsr[b]) == cpu.cpsr && cpu.thumb == cpu.cpsr.t
    && cpu.sp[b] == cpu.R[13] && cpu.lr[b] == cpu.R[14]
    && (if cpu.cpsr.mode == FIQ then cpu.fiq8 else cpu.user8) == cpu.R[8..13]
  }

  /** TST, TEQ, CMP or CMN naming R15 with S: restores the SPSR in one engine only. */
  predicate TestDiffers(ins: Instr, cpu: CpuState) {
    IsDataProcessing(ins.op) && TestRestores(ins, cpu) && !RestoreKeeps(cpu)
  }

  /** A PC loaded in ARM state is word-aligned by the interpreter, halfword-aligned by emitted code. */
  predicate LoadedPcDiffers(ins: Instr, cpu: CpuState, mem: Mem) {
    IsLoad(ins.op) && ins.rd == 15 && !ins.thumb && And(LoadValue(mem, ins.op, EffectiveAddress(cpu, ins)), 2) != 0
  }

  /** What register r reads as in `mode`, wherever it is kept now. */
  function SeenIn(cpu: CpuState, mode: Word, r: Reg): Word {
    if r < 8 || r == 15 then cpu.R[r]
    else if r < 13 then
      if (mode == FIQ) == (cpu.cpsr.mode == FIQ) then cpu.R[r]
      else if mode == FIQ then cpu.fiq8[r - 8] else cpu.user8[r - 8]
    else if ModeToBank(mode) == ModeToBank(cpu.cpsr.mode) then cpu.R[r]
    else if r == 13 then cpu.sp[ModeToBank(mode)] else cpu.lr[ModeToBank(mode)]
  }

  /** LDM with S, R15 and an unlisted base: an exception return with writeback. */
  predicate LateBase(ins: Instr) {
    var blk := ins.block;
    ins.op.LDM? && blk.load && blk.sBit && blk.list[15] && blk.writeback && !blk.list[blk.rn]
  }

  /** Only the interpreter then writes the base back, and it does so in the mode returned to; that makes no difference
      exactly if that mode's register holds the final base already. */
  predicate LateBaseDiffers(ins: Instr, cpu: CpuState) {
    && LateBase(ins) && PrivNonSystem(cpu.cpsr.mode)
    && var mode := Unpack(cpu.spsr[ModeToBank(cpu.cpsr.mode)]).mode;
       SeenIn(cpu, mode, ins.block.rn) != BlockFinalBase(cpu.R[ins.block.rn], ins.block)
  }

  /** MSR to an SPSR in User or System mode: dropped by emitted code, written to the User slot by the interpreter. */
  predicate LostSpsrDiffers(ins: Instr, cpu: CpuState) {
    && ins.op.MSR? && ins.psr.spsr && ModeToBank(cpu.cpsr.mode) == BANK_USER
    && Merge(cpu.spsr[BANK_USER], MsrSource(cpu, ins), ByteMask(ins.psr.mask)) != cpu.spsr[BANK_USER]
  }

  /** MRS of a CPSR word whose reserved bits are not clear. */
  predicate ReservedBitsDiffer(ins: Instr, p: Packed) {
    ins.op.MRS? && !ins.psr.spsr && ins.rd != 15 && !Canonical(p.cpsr)
  }

  // An instruction that is no transfer of control leaves something else than its own address in R15: by writing
  // a base back there, or by naming it as a destination.

  predicate BaseClobbersPc(ins: Instr, cpu: CpuState) {
    || ((IsLoad(ins.op) || IsStore(ins.op)) && ins.mem.writeback && ins.mem.rn == 15 && !(IsLoad(ins.op) && ins.rd == 15)
        && WritebackAddress(cpu, ins) != ins.pc)
    || ((ins.op.LDM? || ins.op.STM?) && ins.block.writeback && ins.block.rn == 15 && !LoadsPc(ins)
        && BlockFinalBase(ins.pc, ins.block) != ins.pc)
  }

  function Product(cpu: CpuState, ins: Instr): Word {
    var p := Mul(cpu.R[ins.rm], cpu.R[ins.rs]);
    if ins.op.MUL? then p else Add(p, cpu.R[ins.rn])
  }

  function SwappedIn(cpu: CpuState, mem: Mem, ins: Instr): Word {
    var addr := cpu.R[ins.rn];
    if ins.op.SWP? then Rotr32(Read32(mem, Align4(addr)), Mul(And(addr, 3), 8)) else FromByte(Read8(mem, addr))
  }

  function StatusWord(cpu: CpuState, ins: Instr): Word {
    if ins.psr.spsr then cpu.spsr[ModeToBank(cpu.cpsr.mode)] else Pack(cpu.cpsr)
  }

  predicate ResultClobbersPc(ins: Instr, cpu: CpuState, mem: Mem) {
    if ins.op.MUL? || ins.op.MLA? then ins.rd == 15 && Product(cpu, ins) != ins.pc
    else if IsMultiplyLong(ins.op) then
      if ins.rd == 15 then Hi32(LongProduct(cpu, ins)) != ins.pc
      else ins.rn == 15 && Lo32(LongProduct(cpu, ins)) != ins.pc
    else if ins.op.SWP? || ins.op.SWPB? then ins.rd == 15 && SwappedIn(cpu, mem, ins) != ins.pc
    else ins.op.MRS? && ins.rd == 15 && StatusWord(cpu, ins) != ins.pc
  }

  /** The instruction, once its condition has passed, is one of the listed differences. */
  predicate DiffersIfRun(p: Packed, mem: Mem, ins: Instr) {
    var cpu := Abs(p);
    || TestDiffers(ins, cpu) || LoadedPcDiffers(ins, cpu, mem) || LateBaseDiffers(ins, cpu) || LostSpsrDiffers(ins, cpu)
    || ReservedBitsDiffer(ins, p) || BaseClobbersPc(ins, cpu) || ResultClobbersPc(ins, cpu, mem)
  }

  predicate Differs(p: Packed, mem: Mem, ins: Instr) {
    CondPasses(ins.cond, Abs(p).cpsr) && DiffersIfRun(p, mem, ins)
  }

  /** A register offset taken from R15 comes out the same from the PC and from the PC operand. */
  predicate SameOffset(ins: Instr, cpu: CpuState) {
    IsLoad(ins.op) || IsStore(ins.op) ==> MemOffsetOf(AddressView(cpu, ins), ins) == MemOffsetOf(cpu, ins)
  }

  // ----- From effects to steps --------------------------------------------------------------------

  /** EmittedStep after the condition passed. */
  function EmittedFinish(ins: Instr, e: Effect): StepResult {
    if e.returned then StepResult(ExceptionReturned, e.cpu, e.mem, Cycles(ins, e))
    else if !e.wrotePc then StepResult(Normal, SetReg(e.cpu, 15, Next(ins)), e.mem, Cycles(ins, e))
    else StepResult(Branched, e.cpu, e.mem, Cycles(ins, e))
  }

  /** The same effect finishes the same way unless it left something else in R15. */
  lemma SameEffect(ins: Instr, e: Effect)
    ensures EmittedFinish(ins, e) == Finish(ins, e) <==> e.returned || e.wrotePc || e.cpu.R[15] == ins.pc
  {
    hide Add, Size, CycleBase;
    AddCancels(e.cpu.R[15], ins.pc, Size(ins.thumb));
    if EmittedFinish(ins, e) == Finish(ins, e) && !e.returned && !e.wrotePc {
      assert EmittedFinish(ins, e).cpu.R[15] == Finish(ins, e).cpu.R[15];
    }
  }

  // ----- One kind at a time -------------------------------------------------------------------------

  lemma RestoreUnchanged(cpu: CpuState)
    requires PrivNonSystem(cpu.cpsr.mode)
    ensures RestoreCpsr(cpu) == cpu <==> RestoreKeeps(cpu)
    ensures RestoreCpsr(cpu).R[15] == cpu.R[15]
    ensures SetReg(RestoreCpsr(cpu), 15, cpu.R[15]) == RestoreCpsr(cpu)
  {
    hide Unpack, ModeToBank;
    var b := ModeToBank(cpu.cpsr.mode);
    var r := RestoreCpsr(cpu);
    assert cpu.R[..8] + cpu.R[8..13] + cpu.R[13..] == cpu.R;
    if RestoreKeeps(cpu) {
      assert cpu.sp[b := cpu.R[13]] == cpu.sp && cpu.lr[b := cpu.R[14]] == cpu.lr;
      assert cpu.R[13 := cpu.R[13]][14 := cpu.R[14]] == cpu.R;
    }
    if r == cpu {
      assert r.sp[b] == cpu.R[13] && r.lr[b] == cpu.R[14];
      assert cpu.R[13 := cpu.sp[b]][14 := cpu.lr[b]][8..13] == cpu.R[8..13];
    }
  }

  lemma PlainFinish(ins: Instr, c: CpuState, d: CpuState, mem: Mem)
    requires c.R[15] == ins.pc && d.R[15] == ins.pc
    ensures EmittedFinish(ins, Plain(c, mem)) == Finish(ins, Plain(d, mem)) <==> c == d
  {
    hide Add, CycleBase;
    var e := EmittedFinish(ins, Plain(c, mem));
    var f := Finish(ins, Plain(d, mem));
    if e == f {
      assert c.R == e.cpu.R[15 := ins.pc] && d.R == f.cpu.R[15 := ins.pc];
      assert c == e.cpu.(R := c.R) && d == f.cpu.(R := d.R);
    }
  }

  lemma TestExact(ins: Instr, cpu: CpuState, mem: Mem)
    requires IsDataProcessing(ins.op) && TestRestores(ins, cpu) && cpu.R[15] == ins.pc
    ensures ExecDataProcessing(cpu, mem, ins) == Plain(cpu, mem)
    ensures EmittedFinish(ins, EmittedDp(cpu, mem, ins)) == Finish(ins, Plain(cpu, mem)) <==> RestoreKeeps(cpu)
  {
    hide EvalOp2, DpRn, LogicalResult, ArithResult, RestoreCpsr, RestoreKeeps, EmittedFinish, Finish;
    RestoreUnchanged(cpu);
    PlainFinish(ins, RestoreCpsr(cpu), cpu, mem);
  }

  lemma Bit1(v: Word)
    ensures And(v, 0xFFFF_FFFE) == And(v, 0xFFFF_FFFC) <==> And(v, 2) == 0
  {}

  lemma FinishJump(ins: Instr, e: Effect, c: CpuState)
    requires e.wrotePc && !e.returned
    ensures EmittedFinish(ins, e.(cpu := c)) == Finish(ins, e) <==> c == e.cpu
  {
    hide CycleBase;
  }

  lemma MemoryPcKept(ins: Instr, cpu: CpuState, mem: Mem, costs: CostModel)
    requires (IsLoad(ins.op) || IsStore(ins.op)) && cpu.R[15] == ins.pc
    ensures var e := ExecMemory(cpu, mem, ins, costs);
            !e.returned && (e.wrotePc <==> IsLoad(ins.op) && ins.rd == 15)
            && (e.wrotePc || (e.cpu.R[15] == ins.pc <==> !BaseClobbersPc(ins, cpu)))
  {
    hide LoadValue, StoreMem, And, Add, AccessWidth, EffectiveAddress, WritebackAddress;
  }

  lemma MemoryExact(ins: Instr, cpu: CpuState, mem: Mem, costs: CostModel)
    requires (IsLoad(ins.op) || IsStore(ins.op)) && SameOffset(ins, cpu) && cpu.R[15] == ins.pc
    ensures EmittedFinish(ins, EmittedMemory(cpu, mem, ins, costs)) == Finish(ins, ExecMemory(cpu, mem, ins, costs)) <==>
            !LoadedPcDiffers(ins, cpu, mem) && !BaseClobbersPc(ins, cpu)
  {
    hide EmittedFinish, Finish, LoadValue, StoreMem, And, Add, AccessWidth, EffectiveAddress, WritebackAddress;
    SameAddresses(ins, cpu);
    MemoryPcKept(ins, cpu, mem, costs);
    var e := ExecMemory(cpu, mem, ins, costs);
    if IsLoad(ins.op) && ins.rd == 15 {
      var v := LoadValue(mem, ins.op, EffectiveAddress(cpu, ins));
      Bit1(v);
      FinishJump(ins, e, SetReg(e.cpu, 15, And(v, 0xFFFF_FFFE)));
      assert e.cpu.R[15] == And(v, if ins.thumb then 0xFFFF_FFFE else 0xFFFF_FFFC);
      assert e.cpu == SetReg(e.cpu, 15, e.cpu.R[15]);
      assert SetReg(e.cpu, 15, And(v, 0xFFFF_FFFE)).R[15] == And(v, 0xFFFF_FFFE);
    } else {
      SameEffect(ins, e);
    }
  }

  lemma SameAddresses(ins: Instr, cpu: CpuState)
    requires (IsLoad(ins.op) || IsStore(ins.op)) && SameOffset(ins, cpu)
    ensures EffectiveAddress(AddressView(cpu, ins), ins) == EffectiveAddress(cpu, ins)
    ensures WritebackAddress(AddressView(cpu, ins), ins) == WritebackAddress(cpu, ins)
  {
    hide MemOffsetOf, Add, Sub, And;
    ReadsView(cpu, ins.mem.rn, ins);
  }

  lemma EmptyReturn(ins: Instr, cpu: CpuState, mem: Mem, costs: CostModel)
    ensures var e := ExecEmptyBlock(cpu, mem, ins, costs); e.returned ==> e.wrotePc
  {
    hide ExceptionReturn, BlockStart, BlockFinalBase, Read32, Write32, And, StmPcValue;
  }

  /** One turn that does not load R15 leaves R15 and the instruction set alone; when R15 is listed too, a load
      changes its own register only. */
  lemma TurnKeeps(e: Effect, ins: Instr, fb: Word, cursor: Word, r: Reg, costs: CostModel)
    requires r < 15 || !ins.block.load
    ensures var c := TransferOne(e, ins, fb, cursor, r, costs).cpu;
            && c.R[15] == e.cpu.R[15] && c.thumb == e.cpu.thumb
            && (ins.block.load && ins.block.list[15] ==>
                  c == e.cpu.(R := c.R) && forall q: Reg | q != r :: c.R[q] == e.cpu.R[q])
  {
    hide And, Read32, Write32, AnyBelow, StmPcValue, ReadUserReg;
  }

  /** Up to the load of R15 the loop leaves R15 and the instruction set alone; when it will load R15, it also leaves
      the banks and every register not listed. */
  lemma {:induction false} LoopKeeps(cpu: CpuState, mem: Mem, ins: Instr, costs: CostModel, k: nat)
    requires k <= 16 && (k == 16 ==> !(ins.block.load && ins.block.list[15]))
    ensures var c := TransferBelow(cpu, mem, ins, costs, k).cpu;
            && c.R[15] == cpu.R[15] && c.thumb == cpu.thumb
            && (ins.block.load && ins.block.list[15] ==>
                  c == cpu.(R := c.R) && forall r: Reg | !ins.block.list[r] :: c.R[r] == cpu.R[r])
  {
    hide TransferOne, BlockFinalBase, Cursor;
    if k > 0 {
      LoopKeeps(cpu, mem, ins, costs, k - 1);
      var base := cpu.R[ins.block.rn];
      if ins.block.list[k - 1] {
        TurnKeeps(TransferBelow(cpu, mem, ins, costs, k - 1), ins, BlockFinalBase(base, ins.block),
                  Cursor(base, ins.block, k - 1), k - 1, costs);
      }
    }
  }

  /** The restore puts into each register what the mode returned to sees there. */
  lemma RestoredReg(cpu: CpuState, r: Reg)
    requires PrivNonSystem(cpu.cpsr.mode) && r < 15
    ensures RestoreCpsr(cpu).R[r] == SeenIn(cpu, Unpack(cpu.spsr[ModeToBank(cpu.cpsr.mode)]).mode, r)
  {
    hide Unpack, ModeToBank;
  }

  /** The loop ends in an exception return exactly for these, and then the base reads as the restored mode sees it. */
  lemma ReturnedBase(ins: Instr, cpu: CpuState, mem: Mem, costs: CostModel)
    requires (ins.block.load <==> ins.op.LDM?) && WritesBase(ins)
    ensures var e := TransferBelow(cpu, mem, ins, costs, 16);
            && (e.returned <==> LateBase(ins) && PrivNonSystem(cpu.cpsr.mode))
            && (e.returned ==> e.cpu.R[ins.block.rn] ==
                                 SeenIn(cpu, Unpack(cpu.spsr[ModeToBank(cpu.cpsr.mode)]).mode, ins.block.rn))
  {
    hide TransferBelow, And, Read32, Cursor, AnyBelow, Unpack, ModeToBank, SeenIn, RestoreCpsr;
    if ins.block.load && ins.block.list[15] {
      LastTurn(cpu, mem, ins, costs);
      LoopKeeps(cpu, mem, ins, costs, 15);
      SameMode(cpu, mem, ins, costs, 15);
      var c := TransferBelow(cpu, mem, ins, costs, 15).cpu;
      if ReturnsFromException(ins, cpu.cpsr.mode) {
        RestoredReg(c, ins.block.rn);
        SameSeen(cpu, c, Unpack(cpu.spsr[ModeToBank(cpu.cpsr.mode)]).mode, ins.block.rn);
      }
    } else {
      LoopPc(cpu, mem, ins, costs, 16);
    }
  }

  lemma SameSeen(cpu: CpuState, c: CpuState, mode: Word, r: Reg)
    requires c == cpu.(R := c.R) && c.R[r] == cpu.R[r]
    ensures SeenIn(c, mode, r) == SeenIn(cpu, mode, r)
  {
    hide ModeToBank;
  }

  /** A block transfer that does not load R15 changes it exactly by writing a base back. */
  lemma BlockPcKept(ins: Instr, cpu: CpuState, mem: Mem, costs: CostModel)
    requires (ins.op.LDM? || ins.op.STM?) && cpu.R[15] == ins.pc && (ins.block.load <==> ins.op.LDM?)
    ensures var e := ExecBlock(cpu, mem, ins, costs);
            (e.wrotePc <==> LoadsPc(ins)) && (if e.wrotePc then !BaseClobbersPc(ins, cpu)
                                              else e.cpu.R[15] == ins.pc <==> !BaseClobbersPc(ins, cpu))
  {
    hide TransferBelow, EmptyList, BlockStart, BlockFinalBase, ExceptionReturn, Read32, Write32, And, StmPcValue;
    LoopPc(cpu, mem, ins, costs, 16);
    if !LoadsPc(ins) && !EmptyList(ins.block.list) { LoopKeeps(cpu, mem, ins, costs, 16); }
  }

  lemma BlockExact(ins: Instr, p: Packed, mem: Mem, costs: CostModel)
    requires (ins.op.LDM? || ins.op.STM?) && p.R[15] == ins.pc && (ins.block.load <==> ins.op.LDM?)
    ensures var cpu := Abs(p);
            EmittedFinish(ins, EmittedBlock(cpu, mem, ins, costs)) == Finish(ins, ExecBlock(cpu, mem, ins, costs)) <==>
            !LateBaseDiffers(ins, cpu) && !BaseClobbersPc(ins, cpu)
  {
    hide ExecEmptyBlock, EmptyList, TransferBelow, BlockFinalBase, CycleBase, Add, SeenIn, Unpack, BaseClobbersPc,
      ModeToBank;
    var cpu := Abs(p);
    var e := ExecBlock(cpu, mem, ins, costs);
    BlockPcKept(ins, cpu, mem, costs);
    LoopPc(cpu, mem, ins, costs, 16);
    EmptyReturn(ins, cpu, mem, costs);
    if LateBase(ins) { NotEmpty(ins); }
    if WritesBase(ins) { ReturnedBase(ins, cpu, mem, costs); }
    if !EmptyList(ins.block.list) && e.returned {
      var t := TransferBelow(cpu, mem, ins, costs, 16);
      var fb := BlockFinalBase(cpu.R[ins.block.rn], ins.block);
      assert t.cpu.R[ins.block.rn := t.cpu.R[ins.block.rn]] == t.cpu.R;
      assert SetReg(t.cpu, ins.block.rn, fb).R[ins.block.rn] == fb;
    } else {
      SameEffect(ins, e);
    }
  }

  lemma MrsExact(ins: Instr, p: Packed, mem: Mem)
    requires ins.op.MRS? && !ins.psr.spsr && p.R[15] == ins.pc
    ensures var e := ExecPsr(Abs(p), mem, ins);
            EmittedFinish(ins, EmittedPsr(p, mem, ins)) == Finish(ins, e) <==>
            if ins.rd == 15 then e.cpu.R[15] == ins.pc else Canonical(p.cpsr)
  {
    hide Unpack, Pack, Canonical, CycleBase, Add, Size, Merge, ByteMask, ModeToBank, WriteCpsr;
    var cpu := Abs(p);
    var w := Pack(cpu.cpsr);
    PackUnpack(p.cpsr);
    if ins.rd == 15 {
      SameEffect(ins, Plain(SetReg(cpu, 15, w), mem));
      assert SetReg(SetReg(cpu, 15, p.cpsr), 15, Next(ins)) == SetReg(SetReg(cpu, 15, w), 15, Next(ins));
    } else {
      PlainFinish(ins, SetReg(cpu, ins.rd, p.cpsr), SetReg(cpu, ins.rd, w), mem);
      assert SetReg(cpu, ins.rd, p.cpsr).R[ins.rd] == p.cpsr && SetReg(cpu, ins.rd, w).R[ins.rd] == w;
    }
  }

  lemma MsrExact(ins: Instr, p: Packed, mem: Mem)
    requires ins.op.MSR? || (ins.op.MRS? && ins.psr.spsr)
    requires p.R[15] == ins.pc
    ensures var e := ExecPsr(Abs(p), mem, ins);
            EmittedFinish(ins, EmittedPsr(p, mem, ins)) == Finish(ins, e) <==>
            !LostSpsrDiffers(ins, Abs(p)) && e.cpu.R[15] == ins.pc
  {
    hide Unpack, Merge, ByteMask, ModeToBank, WriteCpsr, MsrSource, EmittedFinish, Finish, Pack;
    var cpu := Abs(p);
    var e := ExecPsr(cpu, mem, ins);
    if ins.op.MSR? && ins.psr.spsr && ModeToBank(cpu.cpsr.mode) == BANK_USER {
      PlainFinish(ins, cpu, e.cpu, mem);
      var w := Merge(cpu.spsr[BANK_USER], MsrSource(cpu, ins), ByteMask(ins.psr.mask));
      assert e.cpu.spsr[BANK_USER] == w;
      if w == cpu.spsr[BANK_USER] { assert cpu.spsr[BANK_USER := w] == cpu.spsr; }
    } else {
      SameEffect(ins, e);
    }
  }

  lemma PsrPcKept(ins: Instr, cpu: CpuState, mem: Mem)
    requires (ins.op.MRS? || ins.op.MSR?) && cpu.R[15] == ins.pc
    ensures var e := ExecPsr(cpu, mem, ins);
            !e.wrotePc && !e.returned && (e.cpu.R[15] == ins.pc <==> !ResultClobbersPc(ins, cpu, mem))
  {
    hide Pack, Unpack, Merge, ByteMask, ModeToBank, MsrSource;
    if ins.op.MSR? && !ins.psr.spsr {
      hide StatusWord, SwitchBanks;
      WriteKeepsPc(cpu, MsrSource(cpu, ins), ins.psr.mask);
    }
  }

  lemma WriteKeepsPc(cpu: CpuState, v: Word, mask: bv4)
    ensures WriteCpsr(cpu, v, mask).R[15] == cpu.R[15]
  {
    hide Pack, Unpack, Merge, ByteMask, UserMask, ModeToBank;
  }

  lemma PsrExact(ins: Instr, p: Packed, mem: Mem)
    requires (ins.op.MRS? || ins.op.MSR?) && p.R[15] == ins.pc
    ensures EmittedFinish(ins, EmittedPsr(p, mem, ins)) == Finish(ins, ExecPsr(Abs(p), mem, ins)) <==>
            !LostSpsrDiffers(ins, Abs(p)) && !ReservedBitsDiffer(ins, p) && !ResultClobbersPc(ins, Abs(p), mem)
  {
    hide Unpack, Merge, ByteMask, ModeToBank, MsrSource, EmittedFinish, Finish, Pack, ExecPsr, EmittedPsr, Canonical,
      StatusWord;
    PsrPcKept(ins, Abs(p), mem);
    if ins.op.MRS? && !ins.psr.spsr { MrsExact(ins, p, mem); } else { MsrExact(ins, p, mem); }
  }

  lemma DpPcKept(ins: Instr, cpu: CpuState, mem: Mem)
    requires IsDataProcessing(ins.op) && !TestRestores(ins, cpu)
    ensures var e := ExecDataProcessing(cpu, mem, ins);
            (e.wrotePc || e.cpu.R[15] == cpu.R[15]) && (e.returned ==> e.wrotePc)
  {
    hide EvalOp2, DpRn, LogicalResult, ArithResult, ExceptionReturn, RestoreCpsr;
  }

  lemma DpExact(ins: Instr, cpu: CpuState, mem: Mem)
    requires IsDataProcessing(ins.op) && cpu.R[15] == ins.pc
    ensures EmittedFinish(ins, EmittedDp(cpu, mem, ins)) == Finish(ins, ExecDataProcessing(cpu, mem, ins)) <==>
            !TestDiffers(ins, cpu)
  {
    hide EmittedFinish, Finish, ExecDataProcessing, RestoreKeeps, RestoreCpsr;
    if TestRestores(ins, cpu) {
      TestExact(ins, cpu, mem);
    } else {
      DpPcKept(ins, cpu, mem);
      SameEffect(ins, ExecDataProcessing(cpu, mem, ins));
    }
  }

  lemma BranchExact(ins: Instr, cpu: CpuState, mem: Mem)
    requires IsBranch(ins.op) && cpu.R[15] == ins.pc
    ensures var e := ExecBranch(cpu, mem, ins); EmittedFinish(ins, e) == Finish(ins, e)
  {
    hide EmittedFinish, Finish, Add, And, Or;
    SameEffect(ins, ExecBranch(cpu, mem, ins));
  }

  predicate Multiplies(op: IrOp) {
    IsMultiply(op) || op.SWP? || op.SWPB?
  }

  lemma MultiplyPcKept(ins: Instr, cpu: CpuState, mem: Mem)
    requires (ins.op.MUL? || ins.op.MLA?) && cpu.R[15] == ins.pc
    ensures var e := ExecMultiply(cpu, mem, ins);
            !e.wrotePc && !e.returned && (e.cpu.R[15] == ins.pc <==> !ResultClobbersPc(ins, cpu, mem))
  {
    hide Mul, MulWait, Add, SignBit, IsZero;
  }

  lemma LongPcKept(ins: Instr, cpu: CpuState, mem: Mem)
    requires IsMultiplyLong(ins.op) && cpu.R[15] == ins.pc
    ensures var e := ExecMultiplyLong(cpu, mem, ins);
            !e.wrotePc && !e.returned && (e.cpu.R[15] == ins.pc <==> !ResultClobbersPc(ins, cpu, mem))
  {
    hide LongProduct, MulWait, Lo32, Hi32, Bit63, IsZero64;
  }

  lemma SwapPcKept(ins: Instr, cpu: CpuState, mem: Mem)
    requires (ins.op.SWP? || ins.op.SWPB?) && cpu.R[15] == ins.pc
    ensures var e := ExecSwap(cpu, mem, ins);
            !e.wrotePc && !e.returned && (e.cpu.R[15] == ins.pc <==> !ResultClobbersPc(ins, cpu, mem))
  {
    hide Mul, And, Rotr32, Read32, Write32, Read8, Write8;
  }

  lemma ResultPcKept(ins: Instr, cpu: CpuState, mem: Mem, costs: CostModel)
    requires Multiplies(ins.op) && cpu.R[15] == ins.pc
    ensures var e := Execute(cpu, mem, ins, costs);
            !e.wrotePc && !e.returned && (e.cpu.R[15] == ins.pc <==> !ResultClobbersPc(ins, cpu, mem))
  {
    hide ExecDataProcessing, ExecMemory, ExecBlock, ExecPsr, ExecBranch, ExecMultiply, ExecMultiplyLong, ExecSwap,
      ResultClobbersPc;
    if ins.op.MUL? || ins.op.MLA? { MultiplyPcKept(ins, cpu, mem); }
    else if IsMultiplyLong(ins.op) { LongPcKept(ins, cpu, mem); }
    else { SwapPcKept(ins, cpu, mem); }
  }

  lemma ResultExact(ins: Instr, cpu: CpuState, mem: Mem, costs: CostModel)
    requires Multiplies(ins.op) && cpu.R[15] == ins.pc
    ensures var e := Execute(cpu, mem, ins, costs);
            EmittedFinish(ins, e) == Finish(ins, e) <==> !ResultClobbersPc(ins, cpu, mem)
  {
    hide EmittedFinish, Finish, Execute, ResultClobbersPc;
    ResultPcKept(ins, cpu, mem, costs);
    SameEffect(ins, Execute(cpu, mem, ins, costs));
  }

  // ----- Main results ----------------------------------------------------------------------------------

  lemma WellFormedExecutes(ins: Instr)
    requires WellFormed(ins)
    ensures Executes(ins.op) && (ins.op.LDM? || ins.op.STM? ==> (ins.block.load <==> ins.op.LDM?))
  {}

  /** After a passed condition the two engines' results are equal exactly outside the listed differences. */
  lemma StepExact(ins: Instr, p: Packed, mem: Mem, costs: CostModel)
    requires WellFormed(ins) && p.R[15] == ins.pc && SameOffset(ins, Abs(p))
    ensures EmittedFinish(ins, EmittedEffect(p, mem, ins, costs)) == Finish(ins, Execute(Abs(p), mem, ins, costs)) <==>
            !DiffersIfRun(p, mem, ins)
  {
    hide EmittedFinish, Finish, EmittedDp, EmittedMemory, EmittedBlock, EmittedPsr, ExecDataProcessing, ExecMemory,
      ExecBlock, ExecPsr, ExecBranch, ExecMultiply, ExecMultiplyLong, ExecSwap, SameOffset, WellFormed, RestoreKeeps,
      LoadValue, And, EffectiveAddress, WritebackAddress, BlockFinalBase, SeenIn, Unpack, Canonical, Merge, LoadsPc,
      Product, SwappedIn, LongProduct, StatusWord, ModeToBank, TestRestores;
    var cpu := Abs(p);
    WellFormedExecutes(ins);
    if IsDataProcessing(ins.op) { DpExact(ins, cpu, mem); }
    else if IsLoad(ins.op) || IsStore(ins.op) { MemoryExact(ins, cpu, mem, costs); }
    else if ins.op.LDM? || ins.op.STM? { BlockExact(ins, p, mem, costs); }
    else if ins.op.MRS? || ins.op.MSR? { PsrExact(ins, p, mem); }
    else if IsBranch(ins.op) { BranchExact(ins, cpu, mem); }
    else { ResultExact(ins, cpu, mem, costs); }
  }

  /** EmittedStep and Step are equal exactly outside the listed differences. */
  lemma StepsEqual(ins: Instr, p: Packed, mem: Mem, costs: CostModel)
    requires WellFormed(ins) && p.R[15] == ins.pc && SameOffset(ins, Abs(p))
    ensures EmittedStep(p, mem, ins, costs) == Step(Abs(p), mem, ins, costs) <==> !Differs(p, mem, ins)
  {
    hide EmittedEffect, Execute, Finish, DiffersIfRun, SameOffset, Unpack, CondPasses, Cycles, Add;
    WellFormedRuns(ins);
    if CondPasses(ins.cond, Abs(p).cpsr) { StepExact(ins, p, mem, costs); }
  }

  lemma WellFormedRuns(ins: Instr)
    requires WellFormed(ins)
    ensures !ins.isUndefined && Executes(ins.op) && !ins.op.SWI?
  {}

  /** Compiler correctness. From any state with R15 at the instruction, running what emit_instr emits does what
      Interpreter::step does, registers, flags, banks, memory, next PC and cycles, whatever code it hands
      control to, if and only if none of the listed differences applies. */
  lemma CompilerCorrect(env: Env, ins: Instr, ctx: Ctx, x: State)
    requires AtInstr(ins, ctx, x) && WellFormed(ins) && SameOffset(ins, Abs(x.m.cpu))
    ensures Performs(ins, x, Exec(env, EmitInstr(ins, ctx), x), Step(Abs(x.m.cpu), x.m.mem, ins, env.costs)) <==>
            !Differs(x.m.cpu, x.m.mem, ins)
  {
    hide Exec, EmitInstr, Performs, WellFormed, SameOffset, Differs, EmittedStep, Step, Abs;
    WellFormedRuns(ins);
    var y := Exec(env, EmitInstr(ins, ctx), x);
    var r := EmittedStep(x.m.cpu, x.m.mem, ins, env.costs);
    var t := Step(Abs(x.m.cpu), x.m.mem, ins, env.costs);
    InstrRuns(env, ins, ctx, x);
    StepsEqual(ins, x.m.cpu, x.m.mem, env.costs);
    if Performs(ins, x, y, t) {
      PerformsOnce(ins, x, y, r, t);
      SameOutcome(ins, x.m.cpu, x.m.mem, env.costs);
    }
  }

  /** A run performs at most one result, up to its outcome. */
  lemma PerformsOnce(ins: Instr, x: State, y: State, r: StepResult, t: StepResult)
    requires Performs(ins, x, y, r) && Performs(ins, x, y, t)
    ensures r.cpu == t.cpu && r.mem == t.mem && r.cycles == t.cycles
  {
    hide Unpack, Next;
  }

  lemma SameOutcome(ins: Instr, p: Packed, mem: Mem, costs: CostModel)
    requires WellFormed(ins) && Executes(ins.op)
    ensures EmittedStep(p, mem, ins, costs).outcome == Step(Abs(p), mem, ins, costs).outcome
  {
    hide EmittedEffect, Execute, Unpack, CondPasses, Cycles, Add, Next;
    WellFormedRuns(ins);
    SameControl(ins, p, mem, costs);
  }

  /** Both engines transfer control, and return from exceptions, in the same cases. */
  lemma SameControl(ins: Instr, p: Packed, mem: Mem, costs: CostModel)
    requires Executes(ins.op)
    ensures var e := EmittedEffect(p, mem, ins, costs);
            var f := Execute(Abs(p), mem, ins, costs);
            e.wrotePc == f.wrotePc && e.returned == f.returned
  {
    hide Unpack, EvalOp2, DpRn, LogicalResult, ArithResult, And, Add, Merge, ByteMask, ModeToBank, WriteCpsr, Pack,
      ExceptionReturn, RestoreCpsr, WriteDest, TransferBelow, ExecEmptyBlock, EmptyList, LoadValue, StoreMem,
      EffectiveAddress, WritebackAddress, AddressView, AccessWidth, SetLogicalFlags, SetArithFlags, BlockFinalBase,
      ExecBranch, ExecMultiply, ExecMultiplyLong, ExecSwap;
  }

  // ----- Register offsets from R15 -----------------------------------------------------------------

  /** The base is written back, and neither the PC nor the loaded value hides it. */
  predicate ShowsBase(ins: Instr) {
    (IsLoad(ins.op) || IsStore(ins.op)) && ins.mem.writeback && ins.mem.rn != 15
    && !(IsLoad(ins.op) && ins.mem.rn == ins.rd)
  }

  lemma IndexedApart(base: Word, a: Word, b: Word, ins: Instr)
    ensures Indexed(base, a, ins) == Indexed(base, b, ins) <==> a == b
  {
    hide Add, Sub;
    AddComm(base, a);
    AddComm(base, b);
    AddCancels(a, b, base);
    if Sub(base, a) == Sub(base, b) {
      SubThenAdd(base, a);
      SubThenAdd(base, b);
      AddComm(Sub(base, a), a);
      AddComm(Sub(base, a), b);
      AddCancels(a, b, Sub(base, a));
    }
  }

  lemma BaseShown(cpu: CpuState, mem: Mem, ins: Instr, ea: Word, wb: Word, costs: CostModel)
    requires ShowsBase(ins)
    ensures Access(cpu, mem, ins, ea, wb, costs).cpu.R[ins.mem.rn] == wb
  {
    hide LoadValue, StoreMem, And, Add, AccessWidth;
  }

  /** Different offsets leave different bases. */
  lemma OffsetShows(ins: Instr, cpu: CpuState, mem: Mem, costs: CostModel)
    requires ShowsBase(ins) && !SameOffset(ins, cpu)
    ensures EmittedMemory(cpu, mem, ins, costs).cpu.R[ins.mem.rn] != ExecMemory(cpu, mem, ins, costs).cpu.R[ins.mem.rn]
  {
    hide Access, LoadValue, And, EffectiveAddress, Indexed, MemOffsetOf, ReadReg;
    var view := AddressView(cpu, ins);
    ReadsView(cpu, ins.mem.rn, ins);
    IndexedApart(MemBase(cpu, ins), MemOffsetOf(view, ins), MemOffsetOf(cpu, ins), ins);
    BaseShown(cpu, mem, ins, EffectiveAddress(view, ins), WritebackAddress(view, ins), costs);
    BaseShown(cpu, mem, ins, EffectiveAddress(cpu, ins), WritebackAddress(cpu, ins), costs);
  }

  lemma StepsApart(ins: Instr, p: Packed, mem: Mem, costs: CostModel)
    requires ShowsBase(ins) && !ins.isUndefined && CondPasses(ins.cond, Abs(p).cpsr) && !SameOffset(ins, Abs(p))
    ensures EmittedStep(p, mem, ins, costs).cpu != Step(Abs(p), mem, ins, costs).cpu
  {
    hide Abs, EmittedMemory, ExecMemory, SameOffset, CondPasses, Cycles, Next, Add, ExecDataProcessing, ExecBlock,
      ExecBranch,
      ExecPsr, ExecMultiply, ExecMultiplyLong, ExecSwap;
    OffsetShows(ins, Abs(p), mem, costs);
    var e := EmittedMemory(Abs(p), mem, ins, costs);
    var f := ExecMemory(Abs(p), mem, ins, costs);
    assert EmittedStep(p, mem, ins, costs).cpu.R[ins.mem.rn] == e.cpu.R[ins.mem.rn];
    assert Step(Abs(p), mem, ins, costs).cpu.R[ins.mem.rn] == f.cpu.R[ins.mem.rn];
  }

  /** The offset can matter only if the condition passes, and where the written-back base shows it, it does: there
      agreement asks for the same offset too, and for nothing else. */
  lemma OffsetExact(env: Env, ins: Instr, ctx: Ctx, x: State)
    requires AtInstr(ins, ctx, x) && WellFormed(ins)
    requires SameOffset(ins, Abs(x.m.cpu)) || ShowsBase(ins) || !CondPasses(ins.cond, Abs(x.m.cpu).cpsr)
    ensures var cpu := Abs(x.m.cpu);
            Performs(ins, x, Exec(env, EmitInstr(ins, ctx), x), Step(cpu, x.m.mem, ins, env.costs)) <==>
            CondPasses(ins.cond, cpu.cpsr) ==> SameOffset(ins, cpu) && !DiffersIfRun(x.m.cpu, x.m.mem, ins)
  {
    hide Exec, EmitInstr, Performs, WellFormed, SameOffset, DiffersIfRun, EmittedStep, Step, Abs, CondPasses, ShowsBase;
    WellFormedRuns(ins);
    var cpu := Abs(x.m.cpu);
    var r := EmittedStep(x.m.cpu, x.m.mem, ins, env.costs);
    var t := Step(cpu, x.m.mem, ins, env.costs);
    var y := Exec(env, EmitInstr(ins, ctx), x);
    InstrRuns(env, ins, ctx, x);
    if !CondPasses(ins.cond, cpu.cpsr) {
      SkipsAgree(ins, x.m.cpu, x.m.mem, env.costs);
    } else if SameOffset(ins, cpu) {
      CompilerCorrect(env, ins, ctx, x);
    } else {
      StepsApart(ins, x.m.cpu, x.m.mem, env.costs);
      if Performs(ins, x, y, t) { PerformsOnce(ins, x, y, r, t); }
    }
  }

  lemma SkipsAgree(ins: Instr, p: Packed, mem: Mem, costs: CostModel)
    requires Executes(ins.op) && p.R[15] == ins.pc && !CondPasses(ins.cond, Abs(p).cpsr)
    ensures EmittedStep(p, mem, ins, costs) == Step(Abs(p), mem, ins, costs)
  {
    hide EmittedEffect, Execute, Finish, Unpack, CondPasses, Cycles, Add;
  }

  // ----- Cycles ----------------------------------------------------------------------------------------

  lemma SameCycles(ins: Instr, p: Packed, mem: Mem, costs: CostModel)
    requires Executes(ins.op) && SameOffset(ins, Abs(p))
    ensures var e := EmittedEffect(p, mem, ins, costs);
            var f := Execute(Abs(p), mem, ins, costs);
            e.memCycles == f.memCycles && e.extraCycles == f.extraCycles
  {
    hide Unpack, EvalOp2, DpRn, LogicalResult, ArithResult, And, Add, Merge, ByteMask, ModeToBank, WriteCpsr, Pack,
      ExceptionReturn, RestoreCpsr, WriteDest, TransferBelow, ExecEmptyBlock, EmptyList, LoadValue, StoreMem, SameOffset,
      EffectiveAddress, WritebackAddress, AddressView, AccessWidth, SetLogicalFlags, SetArithFlags, BlockFinalBase,
      ExecBranch, ExecMultiply, ExecMultiplyLong, ExecSwap;
    if IsLoad(ins.op) || IsStore(ins.op) { SameAddresses(ins, Abs(p)); }
  }

  /** Cycle conservation: whichever way control goes, failed condition, fall-through, jump, call, exception
      return, and in the states where the engines differ too, the emitted code ticks what step reports. */
  lemma CyclesConserved(env: Env, ins: Instr, ctx: Ctx, x: State)
    requires AtInstr(ins, ctx, x) && WellFormed(ins) && SameOffset(ins, Abs(x.m.cpu))
    ensures var y := Exec(env, EmitInstr(ins, ctx), x);
            var r := Step(Abs(x.m.cpu), x.m.mem, ins, env.costs);
            y.ticks == x.ticks + r.cycles && (y.handed.Handed? ==> y.handed.ticks == y.ticks)
  {
    hide Exec, EmitInstr, WellFormed, SameOffset, Abs, EmittedEffect, Execute, CondPasses;
    WellFormedRuns(ins);
    InstrRuns(env, ins, ctx, x);
    SameCycles(ins, x.m.cpu, x.m.mem, env.costs);
    SameControl(ins, x.m.cpu, x.m.mem, env.costs);
  }

  // ----- SWI and undefined words ---------------------------------------------------------------------------

  /** A SWI hands control to the supervisor's vector, having charged the interpreter's three cycles; the
      interpreter itself only reports it. */
  lemma SwiRuns(env: Env, ins: Instr, ctx: Ctx, x: State)
    requires AtInstr(ins, ctx, x) && ins.op.SWI? && !ins.isUndefined
    ensures var y := Exec(env, EmitInstr(ins, ctx), x);
            var cpu := x.m.cpu.(R := x.m.cpu.R[15 := Next(ins)]);
            var r := Step(Abs(x.m.cpu), x.m.mem, ins, env.costs);
            if CondPasses(ins.cond, Abs(x.m.cpu).cpsr)
            then EntersSwi(x, y, cpu) && r == StepResult(Swi, Abs(x.m.cpu), x.m.mem, 3)
            else Performs(ins, x, y, r)
  {
    hide Exec, EmitInstr, Next, Abs, EntersSwi, CondPasses, Add;
    if CondPasses(ins.cond, Abs(x.m.cpu).cpsr) {
      SwiPasses(env, ins, ctx, x);
    } else {
      SkippedRuns(env, ins, ctx, x);
      AbsSetReg(x.m.cpu, 15, Next(ins));
      NextPc(ins);
      AbsRegs(x.m.cpu);
    }
  }

  /** The supervisor's vector is reached with three cycles charged. */
  ghost predicate EntersSwi(x: State, y: State, cpu: Packed) {
    y.status.Left? && y.handed == Handed(SwiEntry(cpu), x.m.mem, x.ticks + 3, Code(0x08, false)) && y.ticks == x.ticks + 3
  }

  lemma SwiPasses(env: Env, ins: Instr, ctx: Ctx, x: State)
    requires AtInstr(ins, ctx, x) && ins.op.SWI? && !ins.isUndefined && CondPasses(ins.cond, Abs(x.m.cpu).cpsr)
    ensures EntersSwi(x, Exec(env, EmitInstr(ins, ctx), x), x.m.cpu.(R := x.m.cpu.R[15 := Next(ins)]))
  {
    hide Exec, EmitInstr, EmitGuarded, EmitBody, Epilogue, Next, Unpack, SwiEntry;
    PrologueRuns(env, ins, ctx, x);
    hide CondPasses;
    GuardRuns(env, ins, ctx, x.(cyc := 1));
    SwiBody(env, ins, ctx, x.(cyc := 1));
    SeqRules(env);
  }

  lemma NextPc(ins: Instr)
    ensures Next(ins) == Add(ins.pc, Size(ins.thumb))
  {}

  lemma SwiShape(ins: Instr, ctx: Ctx)
    requires ins.op.SWI?
    ensures EmitBody(ins, ctx) == Seq(Skip, EmitSwi(ins))
  {
    hide EmitDataProcessing, EmitBranch, EmitMemory, EmitBlockTransfer, EmitMultiply, EmitMultiplyLong, EmitSwap,
      EmitPsr, EmitSwi;
  }

  /** The supervisor's vector is dispatched in ARM state. */
  lemma VectorSet(p: Packed)
    ensures Dispatched(SwiEntry(p), 0x08) == Code(0x08, false)
  {
    assert EvenPc(0x08) == 0x08;
    HandlerSet(p.cpsr);
    hide HandlerCpsr, Unpack, EvenPc;
  }

  lemma HandlerSet(cpsr: Word)
    ensures !Unpack(HandlerCpsr(cpsr, SUPERVISOR)).t
  {}

  lemma SwiBody(env: Env, ins: Instr, ctx: Ctx, x: State)
    requires x.status.Running? && x.handed.Kept? && ins.op.SWI?
    ensures EntersSwi(x, Exec(env, EmitBody(ins, ctx), x), x.m.cpu.(R := x.m.cpu.R[15 := Next(ins)]))
  {
    hide Exec, Eval, EmitBody, Next, SwiEntry, EvenPc, Unpack;
    SwiShape(ins, ctx);
    VectorSet(x.m.cpu.(R := x.m.cpu.R[15 := Next(ins)]));
    SeqRules(env); ChoiceRules(env); RunSetG(env); RunSwiCall(env); RunReturn(env); LeafRules(env);
  }

  /** An undefined word aborts in emitted code; the interpreter traps exactly when its condition passes. */
  lemma UndefinedRuns(env: Env, ins: Instr, ctx: Ctx, x: State)
    requires AtInstr(ins, ctx, x) && ins.isUndefined
    ensures Exec(env, EmitInstr(ins, ctx), x).status.Aborted?
    ensures Step(Abs(x.m.cpu), x.m.mem, ins, env.costs).outcome.Trapped? <==> CondPasses(ins.cond, Abs(x.m.cpu).cpsr)
  {
    hide Exec, Unpack, CondPasses, Add;
    SeqRules(env); RunUnimplemented(env);
  }
}
