// ArmDecoder (arm_decode.cpp): from a 32-bit word to an instruction record.
module ArmDecode {
  import opened Words
  import opened Ir
  import opened Reference
  import opened Shifter
  import opened Alu
  import opened Transfers
  import opened Compiler

  // ----- Fields ----------------------------------------------------------------------------

  /** bit. */
  predicate BitOf(w: Word, b: Word)
    requires b < 32
  {
    (w >> b) & 1 == 1
  }

  function Field4(w: Word, lo: Word): bv4
    requires lo < 32
  {
    ((w >> lo) & 0xF) as bv4
  }

  /** A four-bit register field. */
  function RegAt(w: Word, lo: Word): Reg
    requires lo < 32
  {
    Field4(w, lo) as nat
  }

  function ListOf(w: Word): RegList {
    [w & 1 != 0, w & 2 != 0, w & 4 != 0, w & 8 != 0,
     w & 0x10 != 0, w & 0x20 != 0, w & 0x40 != 0, w & 0x80 != 0,
     w & 0x100 != 0, w & 0x200 != 0, w & 0x400 != 0, w & 0x800 != 0,
     w & 0x1000 != 0, w & 0x2000 != 0, w & 0x4000 != 0, w & 0x8000 != 0]
  }

  const CONDS: seq<Cond> := [EQ, NE, CS, CC, MI, PL, VS, VC, HI, LS, GE, LT, GT, LE, AL, NV]

  function CondOf(w: Word): Cond {
    CONDS[RegAt(w, 28)]
  }

  const DP_OPS: seq<IrOp> :=
    [AND, EOR, SUB, RSB, ADD, ADC, SBC, RSC, TST, TEQ, CMP, CMN, ORR, MOV, BIC, MVN]

  // The fields of a shifter operand, unshifted.

  function ByteField(w: Word): Word { w & 0xFF }
  function RotateField(w: Word): Word { (w >> 8) & 0xF }
  function CountField(w: Word): Word { (w >> 7) & 0x1F }
  function KindField(w: Word): Word { (w >> 5) & 3 }

  /** The two-bit shift field. */
  function KindOf(w: Word): ShiftType {
    var k := KindField(w);
    if k == 0 then LSL else if k == 1 then LSR else if k == 2 then ASR else ROR
  }

  /** Shift field and immediate count; ROR #0 encodes RRX. */
  function ShiftByImm(w: Word): (ShiftType, Word) {
    var n := CountField(w);
    (if KindOf(w).ROR? && n == 0 then RRX else KindOf(w), n)
  }

  function Twice(w: Word): Word { w * 2 }

  /** expand_imm: eight bits rotated right by twice the four-bit field. */
  function ExpandImm(w: Word): Op2 {
    var imm8 := ByteField(w);
    var rot := RotateField(w);
    if rot == 0 then Imm(imm8, Unchanged) else
    var r := Rotr32(imm8, Twice(rot));
    Imm(r, if SignBit(r) then ImmCarry.Set else Clear)
  }

  /** decode_op2. */
  function DecodeOp2(w: Word): Op2 {
    if BitOf(w, 25) then ExpandImm(w)
    else if BitOf(w, 4) then Shifted(ShiftedRegister(RegAt(w, 0), KindOf(w), ByReg(RegAt(w, 8))))
    else Shifted(ShiftedRegister(RegAt(w, 0), ShiftByImm(w).0, ByImm(ShiftByImm(w).1)))
  }

  /** zero_instr. */
  function Fresh(w: Word, pc: Word): Instr {
    BLANK.(pc := pc, cond := CondOf(w))
  }

  // ----- Formats ------------------------------------------------------------------------------

  function DecodeUndefined(w: Word, pc: Word): Instr {
    Fresh(w, pc).(isUndefined := true)
  }

  function DecodeDataProcessing(w: Word, pc: Word): Instr {
    Fresh(w, pc).(op := DP_OPS[RegAt(w, 21)], setFlags := BitOf(w, 20), rn := RegAt(w, 16), rd := RegAt(w, 12),
                  op2 := DecodeOp2(w))
  }

  /** The 24-bit branch field, sign-extended, and scaled to a byte offset. */
  function BranchField(w: Word): Word {
    SignExtend24(Low24(w))
  }

  function Low24(w: Word): Word { w & 0x00FF_FFFF }

  function SignExtend24(imm: Word): Word {
    if imm & 0x0080_0000 != 0 then imm | 0xFF00_0000 else imm
  }

  function BranchOffset(w: Word): Word {
    Shl(BranchField(w), 2)
  }

  function DecodeBranch(w: Word, pc: Word): Instr {
    Fresh(w, pc).(op := if BitOf(w, 24) then BL else B, branchTarget := Add(Add(pc, 8), BranchOffset(w)))
  }

  function DecodeBranchExchange(w: Word, pc: Word): Instr {
    Fresh(w, pc).(op := BX, rm := RegAt(w, 0))
  }

  function TransferAddress(w: Word, offset: MemOffset): MemAddress {
    MemAddress(RegAt(w, 16), BitOf(w, 24), BitOf(w, 23), BitOf(w, 21) || !BitOf(w, 24), offset)
  }

  function DecodeSingleDataTransfer(w: Word, pc: Word): Instr {
    var byte := BitOf(w, 22);
    var offset := if BitOf(w, 25) then RegOffset(RegAt(w, 0), ShiftByImm(w).0, ShiftByImm(w).1) else ImmOffset(w & 0xFFF);
    Fresh(w, pc).(op := if BitOf(w, 20) then (if byte then LDRB else LDR) else if byte then STRB else STR,
                  rd := RegAt(w, 12), mem := TransferAddress(w, offset))
  }

  function DecodeHalfwordTransfer(w: Word, pc: Word): Instr {
    var sh := KindField(w);
    var load := BitOf(w, 20);
    if sh == 0 || (!load && sh != 1) then DecodeUndefined(w, pc) else
    var offset := if BitOf(w, 22) then ImmOffset((((w >> 8) & 0xF) << 4) | (w & 0xF)) else RegOffset(RegAt(w, 0), LSL, 0);
    Fresh(w, pc).(op := if !load then STRH else if sh == 1 then LDRH else if sh == 2 then LDRSB else LDRSH,
                  rd := RegAt(w, 12), mem := TransferAddress(w, offset))
  }

  function DecodeBlockDataTransfer(w: Word, pc: Word): Instr {
    Fresh(w, pc).(op := if BitOf(w, 20) then LDM else STM,
                  block := BlockAddr(RegAt(w, 16), BitOf(w, 24), BitOf(w, 23), BitOf(w, 22), BitOf(w, 21), BitOf(w, 20),
                                     ListOf(w)))
  }

  function DecodeSwap(w: Word, pc: Word): Instr {
    Fresh(w, pc).(op := if BitOf(w, 22) then SWPB else SWP, rn := RegAt(w, 16), rd := RegAt(w, 12), rm := RegAt(w, 0))
  }

  function DecodeMultiply(w: Word, pc: Word): Instr {
    Fresh(w, pc).(op := if BitOf(w, 21) then MLA else MUL, setFlags := BitOf(w, 20),
                  rd := RegAt(w, 16), rn := RegAt(w, 12), rs := RegAt(w, 8), rm := RegAt(w, 0))
  }

  function DecodeMultiplyLong(w: Word, pc: Word): Instr {
    var acc := BitOf(w, 21);
    Fresh(w, pc).(op := if BitOf(w, 22) then (if acc then SMLAL else SMULL) else if acc then UMLAL else UMULL,
                  setFlags := BitOf(w, 20),
                  rd := RegAt(w, 16), rn := RegAt(w, 12), rs := RegAt(w, 8), rm := RegAt(w, 0))
  }

  function DecodePsrTransfer(w: Word, pc: Word): Instr {
    if !BitOf(w, 21) then Fresh(w, pc).(op := MRS, rd := RegAt(w, 12), psr := PsrTransfer(0, BitOf(w, 22)))
    else
      Fresh(w, pc).(op := MSR, psr := PsrTransfer(Field4(w, 16), BitOf(w, 22)),
                    op2 := if BitOf(w, 25) then DecodeOp2(w) else Shifted(ShiftedRegister(RegAt(w, 0), LSL, ByImm(0))))
  }

  function DecodeSoftwareInterrupt(w: Word, pc: Word): Instr {
    Fresh(w, pc).(op := SWI, swiImm := Low24(w))
  }

  /** The multiply, swap and halfword encodings inside the register forms of the 00 space. */
  predicate IsExtension(w: Word) {
    !BitOf(w, 25) && BitOf(w, 7) && BitOf(w, 4)
  }

  function DecodeExtension(w: Word, pc: Word): Instr {
    var top := (w >> 23) & 0x1F;
    if (w >> 4) & 0xF == 9 then
      if top == 0 then DecodeMultiply(w, pc)
      else if top == 1 then DecodeMultiplyLong(w, pc)
      else if top == 2 && (w >> 20) & 3 == 0 then DecodeSwap(w, pc)
      else DecodeHalfwordTransfer(w, pc)
    else DecodeHalfwordTransfer(w, pc)
  }

  /** TST, TEQ, CMP and CMN without S are the PSR transfers. */
  function DecodeDpSpace(w: Word, pc: Word): Instr {
    if IsExtension(w) then DecodeExtension(w, pc)
    else if !BitOf(w, 20) && 8 <= RegAt(w, 21) < 12 then DecodePsrTransfer(w, pc)
    else DecodeDataProcessing(w, pc)
  }

  predicate IsBranchExchange(w: Word) {
    w & 0x0FFF_FFF0 == 0x012F_FF10
  }

  /** ArmDecoder::decode. */
  function Decode(w: Word, pc: Word): Instr {
    if IsBranchExchange(w) then DecodeBranchExchange(w, pc)
    else if (w >> 25) & 7 == 5 then DecodeBranch(w, pc)
    else if (w >> 24) & 0xF == 0xF then DecodeSoftwareInterrupt(w, pc)
    else if (w >> 25) & 7 == 4 then DecodeBlockDataTransfer(w, pc)
    else if (w >> 26) & 3 == 1 then
      if BitOf(w, 25) && BitOf(w, 4) then DecodeUndefined(w, pc) else DecodeSingleDataTransfer(w, pc)
    else if (w >> 26) & 3 == 0 then DecodeDpSpace(w, pc)
    else DecodeUndefined(w, pc)
  }

  // ----- Closure ---------------------------------------------------------------------------------

  /** What either decoder promises: an instruction the code generator lowers and step executes, a SWI, or Undefined. */
  predicate Closed(ins: Instr) {
    if ins.isUndefined then ins.op.Undefined? else ins.op.SWI? || WellFormed(ins)
  }

  lemma Op2Closed(w: Word)
    ensures Op2Ok(DecodeOp2(w))
    ensures ShiftByImm(w).1 < 32 && (ShiftByImm(w).0.ROR? ==> ShiftByImm(w).1 != 0)
  {
    ShiftField(w);
    hide Rotr32, SignBit, BitOf;
  }

  lemma ShiftField(w: Word)
    ensures CountField(w) < 32
    ensures !KindOf(w).RRX?
  {}

  lemma DpOpsAre(n: Reg)
    ensures IsDataProcessing(DP_OPS[n])
  {}

  lemma DataProcessingClosed(w: Word, pc: Word)
    ensures Closed(DecodeDataProcessing(w, pc))
  {
    hide BitOf, RegAt, DecodeOp2, CondOf, MemOk;
    Op2Closed(w);
    DpOpsAre(RegAt(w, 21));
  }

  lemma HalfwordClosed(w: Word, pc: Word)
    ensures Closed(DecodeHalfwordTransfer(w, pc))
  {
    hide BitOf, RegAt, CondOf, Op2Ok, RnOk;
  }

  lemma ExtensionClosed(w: Word, pc: Word)
    ensures Closed(DecodeExtension(w, pc))
  {
    hide BitOf, RegAt, CondOf, DecodeHalfwordTransfer, MemOk, Op2Ok, RnOk;
    HalfwordClosed(w, pc);
  }

  lemma PsrClosed(w: Word, pc: Word)
    ensures Closed(DecodePsrTransfer(w, pc))
  {
    hide BitOf, RegAt, CondOf, DecodeOp2, MemOk, Op2Ok, RnOk;
  }

  lemma DpClosed(w: Word, pc: Word)
    ensures Closed(DecodeDpSpace(w, pc))
  {
    hide Closed, DecodeExtension, DecodePsrTransfer, DecodeDataProcessing;
    ExtensionClosed(w, pc);
    PsrClosed(w, pc);
    DataProcessingClosed(w, pc);
  }

  /** Every 32-bit word decodes to Undefined, a SWI, or an ARM instruction both engines handle. */
  lemma DecodeClosed(w: Word, pc: Word)
    ensures var ins := Decode(w, pc);
            Closed(ins) && ins.pc == pc && !ins.thumb
  {
    hide BitOf, RegAt, DecodeDpSpace, CondOf, ListOf, BranchOffset, ShiftByImm, DecodeOp2;
    Op2Closed(w);
    DpClosed(w, pc);
    DpPlace(w, pc);
  }

  lemma DpPlace(w: Word, pc: Word)
    ensures var ins := DecodeDpSpace(w, pc); ins.pc == pc && !ins.thumb
  {
    hide BitOf, RegAt, CondOf, ShiftByImm, DecodeOp2;
  }
}
