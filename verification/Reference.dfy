// The meaning of one instruction as interpreter.cpp gives it, on values.
// Module Interpreter holds the same code as methods that update a CPU object.
module Reference {
  import opened Words
  import opened Ir
  import opened Cpu

  /** Bus::access_cycles, for an address, a width in bytes and whether the access is sequential. */
  type CostModel = (Word, nat, bool) -> nat

  datatype Outcome = Normal | Branched | ExceptionReturned | Swi | Trapped | NotImplemented

  datatype StepResult = StepResult(outcome: Outcome, cpu: CpuState, mem: Mem, cycles: nat)

  // ----- Shifter and adder ---------------------------------------------------

  datatype ShiftResult = ShiftResult(value: Word, carry: Word)

  function C01(c: bool): Word {
    if c then 1 else 0
  }

  /** do_shift. */
  function DoShift(rm: Word, kind: ShiftType, count: Word, zeroEncoded: bool, c: bool): ShiftResult {
    match kind
    case LSL =>
      if count == 0 then ShiftResult(rm, C01(c))
      else if count < 32 then ShiftResult(Shl(rm, count), And(Shr(rm, Sub(32, count)), 1))
      else if count == 32 then ShiftResult(0, And(rm, 1))
      else ShiftResult(0, 0)
    case LSR =>
      if count == 0 then
        if zeroEncoded then ShiftResult(0, And(Shr(rm, 31), 1)) else ShiftResult(rm, C01(c))
      else if count < 32 then ShiftResult(Shr(rm, count), And(Shr(rm, Sub(count, 1)), 1))
      else if count == 32 then ShiftResult(0, And(Shr(rm, 31), 1))
      else ShiftResult(0, 0)
    case ASR =>
      if count == 0 then
        if zeroEncoded then ShiftResult(if SignBit(rm) then 0xFFFF_FFFF else 0, And(Shr(rm, 31), 1))
        else ShiftResult(rm, C01(c))
      else if count < 32 then ShiftResult(Asr(rm, count), And(Shr(rm, Sub(count, 1)), 1))
      else ShiftResult(if SignBit(rm) then 0xFFFF_FFFF else 0, And(Shr(rm, 31), 1))
    case ROR =>
      if count == 0 then ShiftResult(rm, C01(c))
      else var v := Rotr32(rm, count); ShiftResult(v, And(Shr(v, 31), 1))
    case RRX =>
      ShiftResult(Or(Shr(rm, 1), Shl(C01(c), 31)), And(rm, 1))
  }

  datatype ArithFlags = ArithFlags(result: Word, n: bool, z: bool, c: bool, v: bool)

  /** add_with_carry: the 64-bit sum, its low word and its bit 32. */
  function AddWithCarry(a: Word, b: Word, carryIn: Word): ArithFlags {
    var u := Sum64(a, b, carryIn);
    var r := Lo32(u);
    ArithFlags(r, SignBit(r), IsZero(r), Bit32(u), AddOverflows(a, b, r))
  }

  function SubWithCarry(a: Word, b: Word, carryIn: Word): ArithFlags {
    AddWithCarry(a, Not(b), carryIn)
  }

  // ----- Conditions and operands ---------------------------------------------

  predicate CondPasses(c: Cond, p: Psr) {
    match c
    case EQ => p.z
    case NE => !p.z
    case CS => p.c
    case CC => !p.c
    case MI => p.n
    case PL => !p.n
    case VS => p.v
    case VC => !p.v
    case HI => p.c && !p.z
    case LS => !p.c || p.z
    case GE => p.n == p.v
    case LT => p.n != p.v
    case GT => !p.z && p.n == p.v
    case LE => p.z || p.n != p.v
    case AL => true
    case NV => false
  }

  /** What reading R15 as an operand gives: two instructions ahead. */
  function PcOperand(ins: Instr): Word {
    Add(ins.pc, if ins.thumb then 4 else 8)
  }

  function ReadReg(cpu: CpuState, r: Reg, ins: Instr): Word {
    if r != 15 then cpu.R[r] else PcOperand(ins)
  }

  /** stm_pc_store_value. */
  function StmPcValue(ins: Instr): Word {
    Add(if ins.thumb then And(PcOperand(ins), 0xFFFF_FFFD) else PcOperand(ins), 4)
  }

  function CarryOf(c: ImmCarry, cpsrC: bool): Word {
    match c
    case Clear => 0
    case Set => 1
    case Unchanged => C01(cpsrC)
  }

  /** eval_op2. */
  function EvalOp2(cpu: CpuState, ins: Instr): ShiftResult {
    match ins.op2
    case Imm(value, carry) => ShiftResult(value, CarryOf(carry, cpu.cpsr.c))
    case Shifted(sr) =>
      var rm := ReadReg(cpu, sr.rm, ins);
      match sr.count
      case ByReg(rs) =>
        var value := if !ins.thumb && sr.rm == 15 then Add(rm, 4) else rm;
        var count := if rs == 15 then Add(PcOperand(ins), 4) else cpu.R[rs];
        DoShift(value, sr.kind, And(count, 0xFF), false, cpu.cpsr.c)
      case ByImm(n) =>
        DoShift(rm, sr.kind, n, n == 0, cpu.cpsr.c)
  }

  // ----- Banked registers ------------------------------------------------------

  /** swap_r8_12_banks. */
  function SwapHigh(cpu: CpuState, oldMode: Word, newMode: Word): CpuState {
    var live := cpu.R[8..13];
    var c1 := if oldMode == FIQ then cpu.(fiq8 := live) else cpu.(user8 := live);
    var incoming := if newMode == FIQ then c1.fiq8 else c1.user8;
    c1.(R := c1.R[..8] + incoming + c1.R[13..])
  }

  /** R13 and R14 out to the old mode's bank and in from the new one's, then R8 to R12. */
  function SwitchBanks(cpu: CpuState, oldMode: Word, newMode: Word): CpuState {
    var ob := ModeToBank(oldMode);
    var nb := ModeToBank(newMode);
    var sp := cpu.sp[ob := cpu.R[13]];
    var lr := cpu.lr[ob := cpu.R[14]];
    SwapHigh(cpu.(sp := sp, lr := lr, R := cpu.R[13 := sp[nb]][14 := lr[nb]]), oldMode, newMode)
  }

  /** restore_cpsr_from_spsr: SPSR into CPSR, with the bank switch; nothing in User or System mode. */
  function RestoreCpsr(cpu: CpuState): CpuState {
    var oldMode := cpu.cpsr.mode;
    if !PrivNonSystem(oldMode) then cpu else
    var spsr := cpu.spsr[ModeToBank(oldMode)];
    SwitchBanks(cpu.(cpsr := Unpack(spsr), thumb := Unpack(spsr).t), oldMode, Unpack(spsr).mode)
  }

  /** exception_return. */
  function ExceptionReturn(cpu: CpuState, newPc: Word): CpuState {
    var c := RestoreCpsr(cpu);
    c.(R := c.R[15 := newPc])
  }

  function ReadUserReg(cpu: CpuState, r: Reg): Word {
    if r < 8 || r == 15 then cpu.R[r]
    else if r < 13 then if cpu.cpsr.mode == FIQ then cpu.user8[r - 8] else cpu.R[r]
    else if !PrivNonSystem(cpu.cpsr.mode) then cpu.R[r]
    else if r == 13 then cpu.sp[BANK_USER] else cpu.lr[BANK_USER]
  }

  function WriteUserReg(cpu: CpuState, r: Reg, v: Word): CpuState {
    if r < 8 || r == 15 then cpu.(R := cpu.R[r := v])
    else if r < 13 then
      if cpu.cpsr.mode == FIQ then cpu.(user8 := cpu.user8[r - 8 := v]) else cpu.(R := cpu.R[r := v])
    else if !PrivNonSystem(cpu.cpsr.mode) then cpu.(R := cpu.R[r := v])
    else if r == 13 then cpu.(sp := cpu.sp[BANK_USER := v]) else cpu.(lr := cpu.lr[BANK_USER := v])
  }

  // ----- Execute --------------------------------------------------------------

  /** What the switch in step leaves behind for the epilogue. */
  datatype Effect = Effect(
    cpu: CpuState, mem: Mem, wrotePc: bool, returned: bool, memCycles: nat, extraCycles: nat)

  function Plain(cpu: CpuState, mem: Mem): Effect {
    Effect(cpu, mem, false, false, 0, 0)
  }

  function SetReg(cpu: CpuState, r: Reg, v: Word): CpuState {
    cpu.(R := cpu.R[r := v])
  }

  /** write_dest: a write to R15 is aligned to the instruction set. */
  function WriteDest(cpu: CpuState, rd: Reg, v: Word, ins: Instr): CpuState {
    if rd == 15 then SetReg(cpu, 15, And(v, if ins.thumb then 0xFFFF_FFFE else 0xFFFF_FFFC))
    else SetReg(cpu, rd, v)
  }

  function LogicalResult(op: IrOp, rn: Word, o: Word): Word
    requires IsLogical(op)
  {
    match op
    case AND | TST => And(rn, o)
    case EOR | TEQ => Xor(rn, o)
    case ORR => Or(rn, o)
    case BIC => And(rn, Not(o))
    case MOV => o
    case _ => Not(o)
  }

  function ArithResult(op: IrOp, rn: Word, o: Word, c: Word): ArithFlags
    requires IsArith(op)
  {
    match op
    case ADD | CMN => AddWithCarry(rn, o, 0)
    case ADC => AddWithCarry(rn, o, c)
    case SUB | CMP => SubWithCarry(rn, o, 1)
    case SBC => SubWithCarry(rn, o, c)
    case RSB => SubWithCarry(o, rn, 1)
    case _ => SubWithCarry(o, rn, c)
  }

  function SetLogicalFlags(cpu: CpuState, r: Word, carry: Word): CpuState {
    cpu.(cpsr := cpu.cpsr.(n := SignBit(r), z := IsZero(r), c := !IsZero(carry)))
  }

  function SetArithFlags(cpu: CpuState, f: ArithFlags): CpuState {
    cpu.(cpsr := cpu.cpsr.(n := f.n, z := f.z, c := f.c, v := f.v))
  }

  /** The first operand of a data-processing instruction. */
  function DpRn(cpu: CpuState, ins: Instr): Word {
    var rn := if ins.op.MOV? || ins.op.MVN? then 0 else ReadReg(cpu, ins.rn, ins);
    var rn1 := if !ins.thumb && ins.rn == 15 && ShiftedByRegister(ins.op2) then Add(rn, 4) else rn;
    if IsArith(ins.op) && ins.thumb && ins.rn == 15 && ins.op2.Imm? then And(rn1, 0xFFFF_FFFC) else rn1
  }

  /** The tail both data-processing cases share: flags, SPSR restore, destination. */
  function FinishDp(cpu: CpuState, mem: Mem, flagged: CpuState, r: Word, ins: Instr): Effect {
    var exceptionReturn := ins.setFlags && ins.rd == 15 && PrivNonSystem(cpu.cpsr.mode);
    var c1 :=
      if ins.setFlags && !exceptionReturn then
        if ins.setFlags && ins.rd == 15 && IsTest(ins.op) && PrivNonSystem(cpu.cpsr.mode)
        then RestoreCpsr(flagged) else flagged
      else cpu;
    if IsTest(ins.op) then Plain(c1, mem)
    else if exceptionReturn then Effect(ExceptionReturn(c1, r), mem, true, true, 0, 0)
    else Effect(WriteDest(c1, ins.rd, r, ins), mem, ins.rd == 15, false, 0, 0)
  }

  function ExecDataProcessing(cpu: CpuState, mem: Mem, ins: Instr): Effect
    requires IsDataProcessing(ins.op)
  {
    var o2 := EvalOp2(cpu, ins);
    var rn := DpRn(cpu, ins);
    if IsLogical(ins.op) then
      var r := LogicalResult(ins.op, rn, o2.value);
      FinishDp(cpu, mem, SetLogicalFlags(cpu, r, o2.carry), r, ins)
    else
      var f := ArithResult(ins.op, rn, o2.value, C01(cpu.cpsr.c));
      FinishDp(cpu, mem, SetArithFlags(cpu, f), f.result, ins)
  }

  function ExecBranch(cpu: CpuState, mem: Mem, ins: Instr): Effect
    requires IsBranch(ins.op)
  {
    match ins.op
    case B => Effect(SetReg(cpu, 15, ins.branchTarget), mem, true, false, 0, 0)
    case BL => Effect(SetReg(SetReg(cpu, 14, Next(ins)), 15, ins.branchTarget), mem, true, false, 0, 0)
    case BL_prefix => Plain(SetReg(cpu, 14, ins.branchTarget), mem)
    case BL_suffix =>
      var target := And(Add(cpu.R[14], ins.swiImm), 0xFFFF_FFFE);
      Effect(SetReg(SetReg(cpu, 14, Or(Add(ins.pc, 2), 1)), 15, target), mem, true, false, 0, 0)
    case _ =>
      var target := ReadReg(cpu, ins.rm, ins);
      var t := And(target, 1) != 0;
      Effect(SetReg(cpu.(cpsr := cpu.cpsr.(t := t), thumb := t), 15, And(target, 0xFFFF_FFFE)), mem, true, false, 0, 0)
  }

  function AccessWidth(op: IrOp): nat {
    match op
    case LDRB | STRB | LDRSB => 1
    case LDRH | STRH | LDRSH => 2
    case _ => 4
  }

  function MemBase(cpu: CpuState, ins: Instr): Word {
    var base := ReadReg(cpu, ins.mem.rn, ins);
    if ins.thumb && ins.mem.rn == 15 then And(base, 0xFFFF_FFFC) else base
  }

  function MemOffsetOf(cpu: CpuState, ins: Instr): Word {
    match ins.mem.offset
    case ImmOffset(imm) => imm
    case RegOffset(rm, kind, n) => DoShift(cpu.R[rm], kind, n, n == 0, cpu.cpsr.c).value
  }

  function Indexed(base: Word, offset: Word, ins: Instr): Word {
    if ins.mem.add then Add(base, offset) else Sub(base, offset)
  }

  function EffectiveAddress(cpu: CpuState, ins: Instr): Word {
    if ins.mem.preIndexed then Indexed(MemBase(cpu, ins), MemOffsetOf(cpu, ins), ins) else MemBase(cpu, ins)
  }

  /** The value writeback puts into the base register. */
  function WritebackAddress(cpu: CpuState, ins: Instr): Word {
    Indexed(MemBase(cpu, ins), MemOffsetOf(cpu, ins), ins)
  }

  function LoadValue(mem: Mem, op: IrOp, ea: Word): Word
    requires IsLoad(op)
  {
    match op
    case LDR => Rotr32(Read32(mem, Align4(ea)), Mul(And(ea, 3), 8))
    case LDRB => FromByte(Read8(mem, ea))
    case LDRH =>
      if And(ea, 1) != 0 then
        var v := FromHalf(Read16(mem, And(ea, 0xFFFF_FFFE)));
        Or(Shr(v, 8), Shl(v, 24))
      else FromHalf(Read16(mem, ea))
    case LDRSB => Sext(FromByte(Read8(mem, ea)), 8)
    case _ =>
      if And(ea, 1) != 0 then Sext(FromByte(Read8(mem, ea)), 8) else Sext(FromHalf(Read16(mem, ea)), 16)
  }

  function StoreMem(mem: Mem, op: IrOp, ea: Word, v: Word): Mem
    requires IsStore(op)
  {
    match op
    case STR => Write32(mem, Align4(ea), v)
    case STRB => Write8(mem, ea, Low8(v))
    case _ => Write16(mem, And(ea, 0xFFFF_FFFE), Low16(v))
  }

  /** The access and its register updates, once both addresses are known. */
  function Access(cpu: CpuState, mem: Mem, ins: Instr, ea: Word, wb: Word, costs: CostModel): Effect
    requires IsLoad(ins.op) || IsStore(ins.op)
  {
    var cost := costs(ea, AccessWidth(ins.op), false);
    if IsLoad(ins.op) then
      var c1 := WriteDest(cpu, ins.rd, LoadValue(mem, ins.op, ea), ins);
      var c2 := if ins.mem.writeback && ins.mem.rn != ins.rd then SetReg(c1, ins.mem.rn, wb) else c1;
      Effect(c2, mem, ins.rd == 15, false, cost, 0)
    else
      var v := if ins.rd == 15 then Add(ins.pc, 12) else cpu.R[ins.rd];
      var c1 := if ins.mem.writeback then SetReg(cpu, ins.mem.rn, wb) else cpu;
      Effect(c1, StoreMem(mem, ins.op, ea, v), false, false, cost, 0)
  }

  function ExecMemory(cpu: CpuState, mem: Mem, ins: Instr, costs: CostModel): Effect
    requires IsLoad(ins.op) || IsStore(ins.op)
  {
    Access(cpu, mem, ins, EffectiveAddress(cpu, ins), WritebackAddress(cpu, ins), costs)
  }

  // ----- Block transfer ---------------------------------------------------------

  function BlockStart(base: Word, blk: BlockAddr): Word {
    if EmptyList(blk.list) then
      if blk.add then (if blk.preIndexed then Add(base, 4) else base)
      else Sub(base, if blk.preIndexed then 0x40 else 0x3C)
    else if blk.add then (if blk.preIndexed then Add(base, 4) else base)
    else Sub(base, if blk.preIndexed then BytesBelow(blk.list, 16) else Sub(BytesBelow(blk.list, 16), 4))
  }

  function BlockFinalBase(base: Word, blk: BlockAddr): Word {
    var n := if EmptyList(blk.list) then 0x40 else BytesBelow(blk.list, 16);
    if blk.add then Add(base, n) else Sub(base, n)
  }

  function ExecEmptyBlock(cpu: CpuState, mem: Mem, ins: Instr, costs: CostModel): Effect {
    var blk := ins.block;
    var base := cpu.R[blk.rn];
    var addr := Align4(BlockStart(base, blk));
    var c1 := if blk.writeback then SetReg(cpu, blk.rn, BlockFinalBase(base, blk)) else cpu;
    var cost := costs(addr, 4, false);
    if blk.load then
      var v := And(Read32(mem, addr), 0xFFFF_FFFE);
      if blk.sBit && PrivNonSystem(cpu.cpsr.mode)
      then Effect(ExceptionReturn(c1, v), mem, true, true, cost, 0)
      else Effect(SetReg(c1, 15, v), mem, true, false, cost, 0)
    else
      Effect(c1, Write32(mem, addr, StmPcValue(ins)), false, false, cost, 0)
  }

  /** One turn of the register loop: register r is in the list and lives at `cursor`. */
  function TransferOne(e: Effect, ins: Instr, finalBase: Word, cursor: Word, r: Reg, costs: CostModel): Effect {
    var blk := ins.block;
    var a := Align4(cursor);
    var cost := e.memCycles + costs(a, 4, AnyBelow(blk.list, r));
    if blk.load then
      var v := Read32(e.mem, a);
      if r == 15 then
        if blk.sBit && PrivNonSystem(e.cpu.cpsr.mode)
        then e.(cpu := ExceptionReturn(e.cpu, And(v, 0xFFFF_FFFE)), wrotePc := true, returned := true, memCycles := cost)
        else e.(cpu := SetReg(e.cpu, 15, And(v, 0xFFFF_FFFE)), wrotePc := true, memCycles := cost)
      else if blk.sBit && !blk.list[15] then e.(cpu := WriteUserReg(e.cpu, r, v), memCycles := cost)
      else e.(cpu := SetReg(e.cpu, r, v), memCycles := cost)
    else
      var v := if r == 15 then StmPcValue(ins)
               else if blk.writeback && r == blk.rn && AnyBelow(blk.list, r) then finalBase
               else if blk.sBit then ReadUserReg(e.cpu, r)
               else e.cpu.R[r];
      e.(mem := Write32(e.mem, a, v), memCycles := cost)
  }

  /** Where the transfer address stands when the register loop reaches register k. */
  function Cursor(base: Word, blk: BlockAddr, k: nat): Word
    requires k <= 16
  {
    if k == 0 then BlockStart(base, blk)
    else if blk.list[k - 1] then Add(Cursor(base, blk, k - 1), 4)
    else Cursor(base, blk, k - 1)
  }

  /** The state when the register loop reaches register k. */
  function TransferBelow(cpu: CpuState, mem: Mem, ins: Instr, costs: CostModel, k: nat): Effect
    requires k <= 16
  {
    if k == 0 then Plain(cpu, mem) else
    var e := TransferBelow(cpu, mem, ins, costs, k - 1);
    var base := cpu.R[ins.block.rn];
    if ins.block.list[k - 1]
    then TransferOne(e, ins, BlockFinalBase(base, ins.block), Cursor(base, ins.block, k - 1), k - 1, costs)
    else e
  }

  function ExecBlock(cpu: CpuState, mem: Mem, ins: Instr, costs: CostModel): Effect {
    var blk := ins.block;
    if EmptyList(blk.list) then ExecEmptyBlock(cpu, mem, ins, costs) else
    var e := TransferBelow(cpu, mem, ins, costs, 16);
    if blk.writeback && !(blk.load && blk.list[blk.rn])
    then e.(cpu := SetReg(e.cpu, blk.rn, BlockFinalBase(cpu.R[blk.rn], blk)))
    else e
  }

  // ----- Multiply, swap, PSR transfer ---------------------------------------------

  function SetNZ(cpu: CpuState, n: bool, z: bool): CpuState {
    cpu.(cpsr := cpu.cpsr.(n := n, z := z))
  }

  function ExecMultiply(cpu: CpuState, mem: Mem, ins: Instr): Effect
    requires ins.op.MUL? || ins.op.MLA?
  {
    var waitOperand := if ins.op.MUL? && ins.thumb then cpu.R[ins.rm] else cpu.R[ins.rs];
    var extra := MulWait(waitOperand, true, if ins.op.MUL? then 0 else 1);
    var p := Mul(cpu.R[ins.rm], cpu.R[ins.rs]);
    var r := if ins.op.MUL? then p else Add(p, cpu.R[ins.rn]);
    var c1 := SetReg(cpu, ins.rd, r);
    Effect(if ins.setFlags then SetNZ(c1, SignBit(r), IsZero(r)) else c1, mem, false, false, 0, extra)
  }

  /** The 64-bit result of the long multiplies; RdHi is rd and RdLo is rn. */
  function LongProduct(cpu: CpuState, ins: Instr): bv64
    requires IsMultiplyLong(ins.op)
  {
    var signed := ins.op.SMULL? || ins.op.SMLAL?;
    var rm := cpu.R[ins.rm];
    var rs := cpu.R[ins.rs];
    var p := if signed then Mul64(SExt64(rm), SExt64(rs)) else Mul64(ZExt64(rm), ZExt64(rs));
    if ins.op.UMLAL? || ins.op.SMLAL?
    then Add64(Pair64(cpu.R[ins.rd], cpu.R[ins.rn]), p)
    else p
  }

  function ExecMultiplyLong(cpu: CpuState, mem: Mem, ins: Instr): Effect
    requires IsMultiplyLong(ins.op)
  {
    var signed := ins.op.SMULL? || ins.op.SMLAL?;
    var extra := MulWait(cpu.R[ins.rs], signed, if ins.op.UMLAL? || ins.op.SMLAL? then 2 else 1);
    var u := LongProduct(cpu, ins);
    var c1 := SetReg(SetReg(cpu, ins.rn, Lo32(u)), ins.rd, Hi32(u));
    Effect(if ins.setFlags then SetNZ(c1, Bit63(u), IsZero64(u)) else c1, mem, false, false, 0, extra)
  }

  function ExecSwap(cpu: CpuState, mem: Mem, ins: Instr): Effect
    requires ins.op.SWP? || ins.op.SWPB?
  {
    var addr := cpu.R[ins.rn];
    if ins.op.SWP? then
      var orig := Rotr32(Read32(mem, Align4(addr)), Mul(And(addr, 3), 8));
      Plain(SetReg(cpu, ins.rd, orig), Write32(mem, Align4(addr), cpu.R[ins.rm]))
    else
      Plain(SetReg(cpu, ins.rd, FromByte(Read8(mem, addr))), Write8(mem, addr, Low8(cpu.R[ins.rm])))
  }

  /** The byte mask MSR's field bits select. */
  function ByteMask(mask: bv4): Word {
    (if mask & 1 != 0 then 0x0000_00FF else 0) | (if mask & 2 != 0 then 0x0000_FF00 else 0)
      | (if mask & 4 != 0 then 0x00FF_0000 else 0) | (if mask & 8 != 0 then 0xFF00_0000 else 0)
  }

  /** User mode reaches the flags byte only. */
  function UserMask(mask: bv4): Word {
    ByteMask(mask) & 0xFF00_0000
  }

  function Merge(was: Word, v: Word, mask: Word): Word {
    (was & !mask) | (v & mask)
  }

  function MsrSource(cpu: CpuState, ins: Instr): Word {
    match ins.op2
    case Imm(value, _) => value
    case Shifted(sr) => cpu.R[sr.rm]
  }

  function WriteCpsr(cpu: CpuState, v: Word, mask: bv4): CpuState {
    var m := if cpu.cpsr.mode == USER then UserMask(mask) else ByteMask(mask);
    var newv := Merge(Pack(cpu.cpsr), v, m);
    var oldMode := cpu.cpsr.mode;
    var newMode := Unpack(newv).mode;
    var c1 := cpu.(cpsr := Unpack(newv), thumb := Unpack(newv).t);
    if oldMode != newMode && ModeToBank(oldMode) != ModeToBank(newMode)
    then SwitchBanks(c1, oldMode, newMode) else c1
  }

  function ExecPsr(cpu: CpuState, mem: Mem, ins: Instr): Effect
    requires ins.op.MRS? || ins.op.MSR?
  {
    var bank := ModeToBank(cpu.cpsr.mode);
    if ins.op.MRS? then
      Plain(SetReg(cpu, ins.rd, if ins.psr.spsr then cpu.spsr[bank] else Pack(cpu.cpsr)), mem)
    else if ins.psr.spsr then
      Plain(cpu.(spsr := cpu.spsr[bank := Merge(cpu.spsr[bank], MsrSource(cpu, ins), ByteMask(ins.psr.mask))]), mem)
    else
      Plain(WriteCpsr(cpu, MsrSource(cpu, ins), ins.psr.mask), mem)
  }

  // ----- step -------------------------------------------------------------------

  /** The operations the big switch executes, that is all but SWI and Undefined. */
  predicate Executes(op: IrOp) {
    IsDataProcessing(op) || IsBranch(op) || IsLoad(op) || IsStore(op) || op.LDM? || op.STM?
    || IsMultiply(op) || op.SWP? || op.SWPB? || op.MRS? || op.MSR?
  }

  function Execute(cpu: CpuState, mem: Mem, ins: Instr, costs: CostModel): Effect
    requires Executes(ins.op)
  {
    if IsDataProcessing(ins.op) then ExecDataProcessing(cpu, mem, ins)
    else if IsBranch(ins.op) then ExecBranch(cpu, mem, ins)
    else if IsLoad(ins.op) || IsStore(ins.op) then ExecMemory(cpu, mem, ins, costs)
    else if ins.op.LDM? || ins.op.STM? then ExecBlock(cpu, mem, ins, costs)
    else if ins.op.MUL? || ins.op.MLA? then ExecMultiply(cpu, mem, ins)
    else if IsMultiplyLong(ins.op) then ExecMultiplyLong(cpu, mem, ins)
    else if ins.op.SWP? || ins.op.SWPB? then ExecSwap(cpu, mem, ins)
    else ExecPsr(cpu, mem, ins)
  }

  /** The cycle sum and the program counter after the switch. */
  function Finish(ins: Instr, e: Effect): StepResult {
    var cycles := CycleBase(ins.op) + e.memCycles + e.extraCycles
                  + (if ShiftedByRegister(ins.op2) then 1 else 0)
                  + (if e.wrotePc && !IsBranch(ins.op) then 2 else 0);
    if e.returned then StepResult(ExceptionReturned, e.cpu, e.mem, cycles)
    else if !e.wrotePc then
      StepResult(Normal, SetReg(e.cpu, 15, Add(e.cpu.R[15], Size(ins.thumb))), e.mem, cycles)
    else StepResult(Branched, e.cpu, e.mem, cycles)
  }

  function Step(cpu: CpuState, mem: Mem, ins: Instr, costs: CostModel): StepResult {
    if !CondPasses(ins.cond, cpu.cpsr) then
      StepResult(Normal, SetReg(cpu, 15, Add(cpu.R[15], Size(ins.thumb))), mem, 1)
    else if ins.isUndefined then StepResult(Trapped, cpu, mem, 1)
    else if ins.op.SWI? then StepResult(Swi, cpu, mem, CycleBase(ins.op))
    else if !Executes(ins.op) then StepResult(NotImplemented, cpu, mem, 1)
    else Finish(ins, Execute(cpu, mem, ins, costs))
  }
}
