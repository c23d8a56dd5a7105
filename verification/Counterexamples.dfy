// One instruction word and machine state for each way the engines differ.
module Counterexamples {
  import opened Words
  import opened Ir
  import opened Cpu
  import opened Reference
  import opened RuntimeOps
  import opened Host
  import opened Codegen
  import opened Shifter
  import opened Alu
  import opened Transfers
  import opened BlockTransfers
  import opened Lowering
  import opened Compiler
  import opened Correctness
  import opened ArmDecode
  import opened ThumbDecode
  import opened Decoded

  const ZEROS: Regs := [0, 0, 0, 0, 0, 0, 0, 0, 0, 0, 0, 0, 0, 0, 0, 0]

  /** All registers clear but R15, with this CPSR and IRQ-mode SPSR. */
  function Cleared(cpsr: Word, pc: Word, spsr: Word): Packed {
    Packed(ZEROS[15 := pc], cpsr, [0, 0, 0, 0, 0, 0], [0, 0, 0, 0, 0, 0], [0, 0, spsr, 0, 0, 0], [0, 0, 0, 0, 0],
           [0, 0, 0, 0, 0])
  }

  /** Memory that holds 2 in every word. */
  function Twos(): Mem {
    a => if a & 3 == 0 then 2 else 0
  }

  function At(p: Packed, mem: Mem): State {
    Start(Machine(p, mem, CallStack([], 0)))
  }

  function Always(op: IrOp): Instr {
    BLANK.(op := op, cond := AL)
  }

  /** The emitted code of this word, started there, does not do what step does. */
  ghost predicate Fails(env: Env, w: Word, ctx: Ctx, p: Packed, mem: Mem) {
    var ins := Decode(w, p.R[15]);
    var x := At(p, mem);
    AtInstr(ins, ctx, x) && !Performs(ins, x, Exec(env, EmitInstr(ins, ctx), x), Step(Abs(p), mem, ins, env.costs))
  }

  /** The word decodes to a well-formed instruction to which one of the differences applies. */
  lemma Fail(env: Env, w: Word, ctx: Ctx, p: Packed, mem: Mem)
    requires var ins := Decode(w, p.R[15]);
             !ins.isUndefined && !ins.op.SWI? && !IsBranch(ins.op) && ins.cond.AL?
             && SameOffset(ins, Abs(p)) && DiffersIfRun(p, mem, ins)
    ensures Fails(env, w, ctx, p, mem)
  {
    hide Exec, EmitInstr, Performs, WellFormed, SameOffset, DiffersIfRun, Step, Abs, Decode;
    DecodeClosed(w, p.R[15]);
    CompilerCorrect(env, Decode(w, p.R[15]), ctx, At(p, mem));
  }

  function CompareToPc(): Instr {
    Always(CMP).(setFlags := true, rd := 15, op2 := Shifted(ShiftedRegister(0, LSL, ByImm(0))))
  }

  lemma CompareDecodes()
    ensures Decode(0xE150_F000, 0) == CompareToPc()
  {}

  lemma CompareDiffers()
    ensures TestDiffers(CompareToPc(), Abs(Cleared(0x12, 0, 0x10)))
  {
    assert Unpack(0x12).mode == 0x12 && ModeToBank(0x12) == BANK_IRQ && Unpack(0x10).mode == 0x10;
    hide Unpack;
  }

  /** CMP R0, R0 with Rd = 15 in IRQ mode, the SPSR holding User mode: only emitted code changes mode. */
  lemma TestExample(env: Env, ctx: Ctx)
    ensures Fails(env, 0xE150_F000, ctx, Cleared(0x12, 0, 0x10), Twos())
  {
    CompareDecodes();
    CompareDiffers();
    hide Decode, TestDiffers, Fails, Unpack;
    Fail(env, 0xE150_F000, ctx, Cleared(0x12, 0, 0x10), Twos());
  }

  lemma ThumbCompareDecodes()
    ensures var ins := DecodeThumb(0x4587, 0); ins.op.CMP? && ins.rd == 15 && ins.setFlags && ins.pc == 0 && !ins.isUndefined
  {}

  lemma ThumbModes()
    ensures Unpack(0x32).mode == 0x12 && ModeToBank(0x12) == BANK_IRQ && Unpack(0x30).mode == 0x10
  {}

  /** CMP R15, R0 in THUMB state and IRQ mode: the same difference. */
  lemma ThumbTestExample(env: Env, ctx: Ctx)
    ensures var p := Cleared(0x32, 0, 0x30);
            var ins := DecodeThumb(0x4587, 0);
            AtInstr(ins, ctx, At(p, Twos()))
            && !Performs(ins, At(p, Twos()), Exec(env, EmitInstr(ins, ctx), At(p, Twos())), Step(Abs(p), Twos(), ins, env.costs))
  {
    ThumbCompareDecodes();
    ThumbModes();
    hide Exec, EmitInstr, Performs, Step, DecodeThumb, Unpack, Twos;
    ThumbCorrect(env, 0x4587, ctx, At(Cleared(0x32, 0, 0x30), Twos()));
  }

  function LoadPc(): Instr {
    Always(LDR).(pc := 8, rd := 15, mem := MemAddress(0, true, true, false, ImmOffset(0)))
  }

  lemma LoadPcDecodes()
    ensures Decode(0xE590_F000, 8) == LoadPc()
  {}

  lemma LoadPcAddress(cpu: CpuState)
    requires cpu.R[0] == 0
    ensures EffectiveAddress(cpu, LoadPc()) == 0 && SameOffset(LoadPc(), cpu)
  {}

  lemma TwoDiffers()
    ensures var cpu := Abs(Cleared(0x10, 8, 0)); LoadedPcDiffers(LoadPc(), cpu, Twos()) && SameOffset(LoadPc(), cpu)
  {
    hide LoadValue, EffectiveAddress, SameOffset, And, Twos, Unpack;
    LoadPcAddress(Abs(Cleared(0x10, 8, 0)));
    TwoRead();
  }

  lemma TwoRead()
    ensures And(LoadValue(Twos(), LDR, 0), 2) != 0
  {
    assert Read32(Twos(), 0) == 2;
  }

  /** LDR R15, [R0] of the word 2 in ARM state: one engine continues at 0, the other at 2. */
  lemma LoadedPcExample(env: Env, ctx: Ctx)
    ensures Fails(env, 0xE590_F000, ctx, Cleared(0x10, 8, 0), Twos())
  {
    LoadPcDecodes();
    TwoDiffers();
    hide Decode, LoadedPcDiffers, SameOffset, Fails, Unpack, Twos;
    Fail(env, 0xE590_F000, ctx, Cleared(0x10, 8, 0), Twos());
  }

  function LoadPcList(): Instr {
    Always(LDM).(block := BlockAddr(0, false, true, true, true, true, NO_REGS[15 := true]))
  }

  lemma LoadPcListDecodes()
    ensures Decode(0xE8F0_8000, 0) == LoadPcList()
  {}

  lemma {:induction false} NoBytes(k: nat)
    requires k <= 15
    ensures BytesBelow(LoadPcList().block.list, k) == 0
  {
    if k > 0 { NoBytes(k - 1); }
  }

  /** One listed register takes four bytes. */
  lemma FourBytes()
    ensures BlockFinalBase(0, LoadPcList().block) == 4
  {
    NoBytes(15);
    NotEmpty(LoadPcList());
    hide EmptyList;
  }

  lemma LateDiffers()
    ensures LateBaseDiffers(LoadPcList(), Abs(Cleared(0x12, 0, 0x10)))
  {
    assert Unpack(0x12).mode == 0x12;
    FourBytes();
    hide Unpack, BlockFinalBase, ModeToBank;
  }

  /** LDM R0!, {R15}^ in IRQ mode: only the interpreter advances R0. */
  lemma LateBaseExample(env: Env, ctx: Ctx)
    ensures Fails(env, 0xE8F0_8000, ctx, Cleared(0x12, 0, 0x10), Twos())
  {
    LoadPcListDecodes();
    LateDiffers();
    hide Decode, LateBaseDiffers, Fails, Unpack, Twos;
    Fail(env, 0xE8F0_8000, ctx, Cleared(0x12, 0, 0x10), Twos());
  }

  function StoreSpsr(): Instr {
    Always(MSR).(op2 := Imm(0xF000_0000, ImmCarry.Set), psr := PsrTransfer(8, true))
  }

  lemma StoreSpsrDecodes()
    ensures Decode(0xE368_F20F, 0) == StoreSpsr()
  {}

  lemma LostDiffers()
    ensures LostSpsrDiffers(StoreSpsr(), Abs(Cleared(0x10, 0, 0)))
  {
    assert Unpack(0x10).mode == 0x10 && ModeToBank(0x10) == BANK_USER;
    assert Merge(0, 0xF000_0000, ByteMask(8)) == 0xF000_0000;
    hide Merge, ByteMask, Unpack;
  }

  /** MSR SPSR_f, #0xF0000000 in User mode: only the interpreter stores it. */
  lemma LostSpsrExample(env: Env, ctx: Ctx)
    ensures Fails(env, 0xE368_F20F, ctx, Cleared(0x10, 0, 0), Twos())
  {
    StoreSpsrDecodes();
    LostDiffers();
    hide Decode, LostSpsrDiffers, Fails, Twos, Unpack;
    Fail(env, 0xE368_F20F, ctx, Cleared(0x10, 0, 0), Twos());
  }

  lemma ReadCpsrDecodes()
    ensures Decode(0xE10F_0000, 0) == Always(MRS)
  {}

  /** MRS R0, CPSR with reserved bit 8 set: only emitted code reads it. */
  lemma ReservedBitExample(env: Env, ctx: Ctx)
    ensures Fails(env, 0xE10F_0000, ctx, Cleared(0x110, 0, 0), Twos())
  {
    ReadCpsrDecodes();
    hide Decode, Fails, Twos, Unpack;
    Fail(env, 0xE10F_0000, ctx, Cleared(0x110, 0, 0), Twos());
  }

  function MultiplyPc(): Instr {
    Always(MUL).(pc := 8, rd := 15)
  }

  lemma MultiplyDecodes()
    ensures Decode(0xE00F_0090, 8) == MultiplyPc()
  {}

  lemma ProductClobbers()
    ensures ResultClobbersPc(MultiplyPc(), Abs(Cleared(0x10, 8, 0)), Twos())
  {
    assert Mul(0, 0) == 0;
    hide Unpack, Mul, Twos;
  }

  /** MUL R15, R0, R0: the interpreter continues at the product plus four, emitted code at the next instruction. */
  lemma ClobberedPcExample(env: Env, ctx: Ctx)
    ensures Fails(env, 0xE00F_0090, ctx, Cleared(0x10, 8, 0), Twos())
  {
    MultiplyDecodes();
    ProductClobbers();
    hide Decode, ResultClobbersPc, Fails, Twos, Unpack;
    Fail(env, 0xE00F_0090, ctx, Cleared(0x10, 8, 0), Twos());
  }

  // ----- Register offsets from R15 ------------------------------------------------------------------

  function LoadFromPc(): Instr {
    Always(LDRB).(mem := MemAddress(1, true, true, false, RegOffset(15, LSL, 0)))
  }

  /** Memory that is clear but for the byte at 8. */
  function OneByte(): Mem {
    a => if a == 8 then 1 else 0
  }

  lemma OffsetAddresses(cpu: CpuState)
    requires cpu.R == ZEROS
    ensures EffectiveAddress(AddressView(cpu, LoadFromPc()), LoadFromPc()) == 8
    ensures EffectiveAddress(cpu, LoadFromPc()) == 0
  {}

  lemma OffsetLoads(cpu: CpuState, costs: CostModel)
    requires cpu.R == ZEROS
    ensures EmittedMemory(cpu, OneByte(), LoadFromPc(), costs).cpu.R[0] == 1
    ensures ExecMemory(cpu, OneByte(), LoadFromPc(), costs).cpu.R[0] == 0
  {
    hide *;
    OffsetAddresses(cpu);
    OffsetRegister(cpu, costs);
    OffsetBytes();
  }

  lemma OffsetRegister(cpu: CpuState, costs: CostModel)
    ensures var ins := LoadFromPc();
            EmittedMemory(cpu, OneByte(), ins, costs).cpu.R[0] ==
            LoadValue(OneByte(), LDRB, EffectiveAddress(AddressView(cpu, ins), ins))
            && ExecMemory(cpu, OneByte(), ins, costs).cpu.R[0] == LoadValue(OneByte(), LDRB, EffectiveAddress(cpu, ins))
  {
    hide LoadValue, OneByte, EffectiveAddress, WritebackAddress, AddressView, And, Add, AccessWidth;
  }

  lemma OffsetBytes()
    ensures LoadValue(OneByte(), LDRB, 8) == 1 && LoadValue(OneByte(), LDRB, 0) == 0
  {
    assert Read8(OneByte(), 8) == 1 && Read8(OneByte(), 0) == 0;
    assert FromByte(1) == 1 && FromByte(0) == 0;
    hide Read8, Read16, Read32, OneByte, FromByte, FromHalf, Sext, Rotr32, And, Or, Shl, Shr, Mul;
  }

  lemma LoadFromPcDecodes()
    ensures Decode(0xE7D1_000F, 0) == LoadFromPc()
  {}

  /** LDRB R0, [R1, R15] at address 0: emitted code reads the byte at 8, the interpreter the byte at 0. */
  lemma PcOffsetExample(env: Env, ctx: Ctx)
    ensures Fails(env, 0xE7D1_000F, ctx, Cleared(0x10, 0, 0), OneByte())
  {
    LoadFromPcDecodes();
    DecodeClosed(0xE7D1_000F, 0);
    hide Exec, EmitInstr, Performs, EmittedMemory, ExecMemory, Unpack, WellFormed, EmittedStep, Step, OneByte, Decode;
    var ins := LoadFromPc();
    var p := Cleared(0x10, 0, 0);
    var x := At(p, OneByte());
    OffsetLoads(Abs(p), env.costs);
    OffsetResults(p, env.costs);
    var y := Exec(env, EmitInstr(ins, ctx), x);
    var r := EmittedStep(p, OneByte(), ins, env.costs);
    var t := Step(Abs(p), OneByte(), ins, env.costs);
    InstrRuns(env, ins, ctx, x);
    if Performs(ins, x, y, t) { PerformsOnce(ins, x, y, r, t); }
  }

  lemma OffsetResults(p: Packed, costs: CostModel)
    ensures var ins := LoadFromPc();
            EmittedStep(p, OneByte(), ins, costs).cpu.R[0] == EmittedMemory(Abs(p), OneByte(), ins, costs).cpu.R[0]
            && Step(Abs(p), OneByte(), ins, costs).cpu.R[0] == ExecMemory(Abs(p), OneByte(), ins, costs).cpu.R[0]
  {
    hide Unpack, Access, EffectiveAddress, WritebackAddress, LoadValue, Add, And, OneByte, ExecDataProcessing, ExecBlock,
      ExecBranch, ExecPsr, Cycles;
    OffsetPlain(p, costs);
  }

  lemma OffsetPlain(p: Packed, costs: CostModel)
    ensures var ins := LoadFromPc();
            !EmittedMemory(Abs(p), OneByte(), ins, costs).wrotePc && !EmittedMemory(Abs(p), OneByte(), ins, costs).returned
            && !ExecMemory(Abs(p), OneByte(), ins, costs).wrotePc && !ExecMemory(Abs(p), OneByte(), ins, costs).returned
  {
    hide LoadValue, OneByte, EffectiveAddress, WritebackAddress, AddressView, And, Add, AccessWidth, Unpack;
  }
}
