// The decoded instruction record and the cycle model both engines share
// (arm_ir.h, arm_ir.cpp, condition_codes.h).
module Ir {
  import opened Words

  datatype Cond = EQ | NE | CS | CC | MI | PL | VS | VC | HI | LS | GE | LT | GT | LE | AL | NV

  datatype ShiftType = LSL | LSR | ASR | ROR | RRX

  /** The shift count: a field of the instruction, or the low byte of a register. */
  datatype Count = ByImm(n: Word) | ByReg(rs: Reg)

  datatype ShiftedRegister = ShiftedRegister(rm: Reg, kind: ShiftType, count: Count)

  /** The shifter carry of a rotated immediate; Unchanged is the encoding 2. */
  datatype ImmCarry = Clear | Set | Unchanged

  datatype Op2 =
    | Imm(value: Word, carry: ImmCarry)
    | Shifted(reg: ShiftedRegister)

  datatype IrOp =
    | Undefined
    | AND | EOR | SUB | RSB | ADD | ADC | SBC | RSC
    | TST | TEQ | CMP | CMN
    | ORR | MOV | BIC | MVN
    | B | BL | BX | BL_prefix | BL_suffix
    | LDR | STR | LDRB | STRB | LDRH | STRH | LDRSB | LDRSH
    | LDM | STM
    | SWP | SWPB
    | MUL | MLA | UMULL | UMLAL | SMULL | SMLAL
    | SWI
    | MRS | MSR

  datatype MemOffset = ImmOffset(imm: Word) | RegOffset(rm: Reg, kind: ShiftType, n: Word)

  datatype MemAddress = MemAddress(rn: Reg, preIndexed: bool, add: bool, writeback: bool, offset: MemOffset)

  /** The 16-bit register bitmap, bit r at index r. */
  type RegList = l: seq<bool> | |l| == 16 witness seq(16, i => false)

  datatype BlockAddr =
    BlockAddr(rn: Reg, preIndexed: bool, add: bool, sBit: bool, writeback: bool, load: bool, list: RegList)

  datatype PsrTransfer = PsrTransfer(mask: bv4, spsr: bool)

  datatype Instr = Instr(
    pc: Word,
    thumb: bool,
    cond: Cond,
    op: IrOp,
    setFlags: bool,
    rd: Reg,
    rn: Reg,
    rs: Reg,
    rm: Reg,
    op2: Op2,
    mem: MemAddress,
    block: BlockAddr,
    branchTarget: Word,
    swiImm: Word,
    psr: PsrTransfer,
    isUndefined: bool)

  const NO_REGS: RegList :=
    [false, false, false, false, false, false, false, false, false, false, false, false, false, false, false, false]

  /** memset(0): every field of a fresh record. */
  const BLANK: Instr := Instr(
    0, false, EQ, Undefined, false, 0, 0, 0, 0,
    Imm(0, Clear),
    MemAddress(0, false, false, false, ImmOffset(0)),
    BlockAddr(0, false, false, false, false, false, NO_REGS),
    0, 0, PsrTransfer(0, false), false)

  // ----- Classes of operation ----------------------------------------------

  predicate IsTest(op: IrOp) {
    op.TST? || op.TEQ? || op.CMP? || op.CMN?
  }

  predicate IsLogical(op: IrOp) {
    op.AND? || op.EOR? || op.ORR? || op.BIC? || op.MOV? || op.MVN? || op.TST? || op.TEQ?
  }

  predicate IsArith(op: IrOp) {
    op.ADD? || op.ADC? || op.SUB? || op.SBC? || op.RSB? || op.RSC? || op.CMP? || op.CMN?
  }

  predicate IsDataProcessing(op: IrOp) {
    IsLogical(op) || IsArith(op)
  }

  predicate IsBranch(op: IrOp) {
    op.B? || op.BL? || op.BX? || op.BL_prefix? || op.BL_suffix?
  }

  predicate IsLoad(op: IrOp) {
    op.LDR? || op.LDRB? || op.LDRH? || op.LDRSB? || op.LDRSH?
  }

  predicate IsStore(op: IrOp) {
    op.STR? || op.STRB? || op.STRH?
  }

  predicate IsMultiply(op: IrOp) {
    op.MUL? || op.MLA? || IsMultiplyLong(op)
  }

  predicate IsMultiplyLong(op: IrOp) {
    op.UMULL? || op.UMLAL? || op.SMULL? || op.SMLAL?
  }

  predicate ShiftedByRegister(o: Op2) {
    o.Shifted? && o.reg.count.ByReg?
  }

  function Size(thumb: bool): Word {
    if thumb then 2 else 4
  }

  /** The address of the instruction after this one. */
  function Next(ins: Instr): Word {
    Add(ins.pc, Size(ins.thumb))
  }

  // ----- Register lists ------------------------------------------------------

  /** Four bytes for each register numbered below k in the list. */
  function BytesBelow(l: RegList, k: nat): Word
    requires k <= 16
  {
    if k == 0 then 0 else if l[k - 1] then Add(BytesBelow(l, k - 1), 4) else BytesBelow(l, k - 1)
  }

  /** Some register numbered below k is in the list. */
  predicate AnyBelow(l: RegList, k: nat)
    requires k <= 16
  {
    exists r | 0 <= r < k :: l[r]
  }

  predicate EmptyList(l: RegList) {
    !AnyBelow(l, 16)
  }

  // ----- Cycle model ---------------------------------------------------------

  /** instr_cycle_base. */
  function CycleBase(op: IrOp): nat {
    match op
    case B | BL | BX | BL_suffix => 3
    case LDR | LDRB | LDRH | LDRSB | LDRSH | LDM => 2
    case SWP | SWPB | SWI => 3
    case _ => 1
  }

  /** mul_wait_cycles. */
  function MulWait(rs: Word, signed: bool, extra: nat): nat {
    if signed then
      if rs & 0xFFFF_FF00 == 0xFFFF_FF00 || rs & 0xFFFF_FF00 == 0 then extra + 1
      else if rs & 0xFFFF_0000 == 0xFFFF_0000 || rs & 0xFFFF_0000 == 0 then extra + 2
      else if rs & 0xFF00_0000 == 0xFF00_0000 || rs & 0xFF00_0000 == 0 then extra + 3
      else extra + 4
    else
      if rs & 0xFFFF_FF00 == 0 then extra + 1
      else if rs & 0xFFFF_0000 == 0 then extra + 2
      else if rs & 0xFF00_0000 == 0 then extra + 3
      else extra + 4
  }
}
