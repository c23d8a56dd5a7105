// ThumbDecoder (thumb_decode.cpp): from a halfword to an instruction record.
module ThumbDecode {
  import opened Words
  import opened Ir
  import opened Reference
  import opened Shifter
  import opened Alu
  import opened Transfers
  import opened Compiler
  import opened ArmDecode

  // ----- Fields ------------------------------------------------------------------------------

  predicate HalfBit(h: bv16, b: bv16)
    requires b < 16
  {
    (h >> b) & 1 == 1
  }

  function Field3(h: bv16, lo: bv16): bv3
    requires lo < 16
  {
    ((h >> lo) & 7) as bv3
  }

  /** A three-bit register field. */
  function LowReg(h: bv16, lo: bv16): (r: Reg)
    requires lo < 16
    ensures r < 8
  {
    Field3(h, lo) as nat
  }

  /** The operation of format 4, the condition of format 16, and its offset. */
  function AluField(h: bv16): bv4 { ((h >> 6) & 0xF) as bv4 }
  function CondField(h: bv16): bv4 { ((h >> 8) & 0xF) as bv4 }
  function ByteOf(h: bv16): bv8 { (h & 0xFF) as bv8 }

  function Imm5(h: bv16): Word {
    FromHalf((h >> 6) & 0x1F)
  }

  function Imm8(h: bv16): Word {
    FromHalf(h & 0xFF)
  }

  function Imm11(h: bv16): Word {
    FromHalf(h & 0x7FF)
  }

  function LowList(h: bv16): RegList {
    [h & 1 != 0, h & 2 != 0, h & 4 != 0, h & 8 != 0, h & 0x10 != 0, h & 0x20 != 0, h & 0x40 != 0, h & 0x80 != 0,
     false, false, false, false, false, false, false, false]
  }

  /** zero_instr: every THUMB instruction but Bcc is unconditional. */
  function FreshThumb(pc: Word): Instr {
    BLANK.(pc := pc, thumb := true, cond := AL)
  }

  function PlainReg(rm: Reg): Op2 {
    Shifted(ShiftedRegister(rm, LSL, ByImm(0)))
  }

  function Offset(rn: Reg, offset: MemOffset): MemAddress {
    MemAddress(rn, true, true, false, offset)
  }

  // ----- Formats ----------------------------------------------------------------------------------

  function ThumbUndefined(pc: Word): Instr {
    FreshThumb(pc).(isUndefined := true)
  }

  /** Format 1: LSL, LSR and ASR by an immediate. */
  function ShiftImm(h: bv16, pc: Word): Instr {
    var op := (h >> 11) & 3;
    if op == 3 then ThumbUndefined(pc) else
    FreshThumb(pc).(op := MOV, setFlags := true, rd := LowReg(h, 0),
                    op2 := Shifted(ShiftedRegister(LowReg(h, 3), if op == 0 then LSL else if op == 1 then LSR else ASR,
                                                   ByImm(Imm5(h)))))
  }

  /** Format 2: ADD and SUB with a register or a three-bit immediate. */
  function AddSub(h: bv16, pc: Word): Instr {
    FreshThumb(pc).(op := if HalfBit(h, 9) then SUB else ADD, setFlags := true, rd := LowReg(h, 0), rn := LowReg(h, 3),
                    op2 := if HalfBit(h, 10) then Imm(FromHalf((h >> 6) & 7), Unchanged) else PlainReg(LowReg(h, 6)))
  }

  /** Format 3: MOV, CMP, ADD and SUB with an eight-bit immediate. */
  function AluImm(h: bv16, pc: Word): Instr {
    var op := (h >> 11) & 3;
    FreshThumb(pc).(op := if op == 0 then MOV else if op == 1 then CMP else if op == 2 then ADD else SUB,
                    setFlags := true, rd := LowReg(h, 8), rn := LowReg(h, 8), op2 := Imm(Imm8(h), Unchanged))
  }

  const ALU_OPS: seq<IrOp> :=
    [AND, EOR, MOV, MOV, MOV, ADC, SBC, MOV, TST, RSB, CMP, CMN, ORR, MUL, BIC, MVN]

  /** Format 4: the shifts by a register become MOVs, NEG a subtraction from zero. */
  function AluReg(h: bv16, pc: Word): Instr {
    var op := AluField(h) as nat;
    var rs := LowReg(h, 3);
    var rd := LowReg(h, 0);
    var i := FreshThumb(pc).(op := ALU_OPS[op], setFlags := true, rd := rd, rn := rd);
    if i.op.MUL? then i.(rm := rd, rs := rs)
    else if op == 9 then i.(rn := rs, op2 := Imm(0, Unchanged))
    else if i.op.MOV? then
      i.(op2 := Shifted(ShiftedRegister(rd, if op == 2 then LSL else if op == 3 then LSR else if op == 4 then ASR else ROR,
                                        ByReg(rs))))
    else i.(op2 := PlainReg(rs))
  }

  /** Format 5: high registers and BX. */
  function HiReg(h: bv16, pc: Word): Instr {
    var op := (h >> 8) & 3;
    var rs: Reg := LowReg(h, 3) + if HalfBit(h, 6) then 8 else 0;
    var rd: Reg := LowReg(h, 0) + if HalfBit(h, 7) then 8 else 0;
    if op == 3 then FreshThumb(pc).(op := BX, rm := rs) else
    FreshThumb(pc).(op := if op == 0 then ADD else if op == 1 then CMP else MOV, setFlags := op == 1, rd := rd, rn := rd,
                    op2 := PlainReg(rs))
  }

  /** Format 6: LDR from the literal pool. */
  function PcRelLoad(h: bv16, pc: Word): Instr {
    FreshThumb(pc).(op := LDR, rd := LowReg(h, 8), mem := Offset(15, ImmOffset(Shl(Imm8(h), 2))))
  }

  /** Format 7: register offset. */
  function LoadStoreReg(h: bv16, pc: Word): Instr {
    var b := HalfBit(h, 10);
    FreshThumb(pc).(op := if HalfBit(h, 11) then (if b then LDRB else LDR) else if b then STRB else STR,
                    rd := LowReg(h, 0), mem := Offset(LowReg(h, 3), RegOffset(LowReg(h, 6), LSL, 0)))
  }

  /** Format 8: halfword and sign-extended register offset. */
  function LoadStoreSigned(h: bv16, pc: Word): Instr {
    var half := HalfBit(h, 11);
    FreshThumb(pc).(op := if HalfBit(h, 10) then (if half then LDRSH else LDRSB) else if half then LDRH else STRH,
                    rd := LowReg(h, 0), mem := Offset(LowReg(h, 3), RegOffset(LowReg(h, 6), LSL, 0)))
  }

  /** Format 9: word or byte, five-bit offset. */
  function LoadStoreImm(h: bv16, pc: Word): Instr {
    var b := HalfBit(h, 12);
    FreshThumb(pc).(op := if HalfBit(h, 11) then (if b then LDRB else LDR) else if b then STRB else STR,
                    rd := LowReg(h, 0), mem := Offset(LowReg(h, 3), ImmOffset(if b then Imm5(h) else Shl(Imm5(h), 2))))
  }

  /** Format 10: halfword, five-bit offset. */
  function LoadStoreHalf(h: bv16, pc: Word): Instr {
    FreshThumb(pc).(op := if HalfBit(h, 11) then LDRH else STRH, rd := LowReg(h, 0),
                    mem := Offset(LowReg(h, 3), ImmOffset(Shl(Imm5(h), 1))))
  }

  /** Format 11: SP-relative. */
  function SpRelative(h: bv16, pc: Word): Instr {
    FreshThumb(pc).(op := if HalfBit(h, 11) then LDR else STR, rd := LowReg(h, 8), mem := Offset(13, ImmOffset(Shl(Imm8(h), 2))))
  }

  /** Format 12: ADD to the PC or SP. */
  function LoadAddress(h: bv16, pc: Word): Instr {
    FreshThumb(pc).(op := ADD, rd := LowReg(h, 8), rn := if HalfBit(h, 11) then 13 else 15,
                    op2 := Imm(Shl(Imm8(h), 2), Unchanged))
  }

  /** Format 13: ADD to or SUB from SP. */
  function AddSubSp(h: bv16, pc: Word): Instr {
    FreshThumb(pc).(op := if HalfBit(h, 7) then SUB else ADD, rd := 13, rn := 13,
                    op2 := Imm(Shl(FromHalf(h & 0x7F), 2), Unchanged))
  }

  /** Format 14: PUSH with LR and POP with PC. */
  function PushPop(h: bv16, pc: Word): Instr {
    var load := HalfBit(h, 11);
    var l := LowList(h);
    var list := if !HalfBit(h, 8) then l else if load then l[15 := true] else l[14 := true];
    FreshThumb(pc).(op := if load then LDM else STM, block := BlockAddr(13, !load, load, false, true, load, list))
  }

  /** Format 15: LDMIA and STMIA. */
  function MultiLoadStore(h: bv16, pc: Word): Instr {
    var load := HalfBit(h, 11);
    FreshThumb(pc).(op := if load then LDM else STM,
                    block := BlockAddr(LowReg(h, 8), false, true, false, true, load, LowList(h)))
  }

  /** Format 16: Bcc, with SWI as the last condition. */
  function CondBranch(h: bv16, pc: Word): Instr {
    var c := CondField(h) as nat;
    if c == 15 then SoftwareInterrupt(h, pc) else
    FreshThumb(pc).(cond := CONDS[c], op := B, branchTarget := Add(Add(pc, 4), Shl(SExt8(ByteOf(h)), 1)))
  }

  /** Format 17. */
  function SoftwareInterrupt(h: bv16, pc: Word): Instr {
    FreshThumb(pc).(op := SWI, swiImm := Imm8(h))
  }

  /** An 11-bit field, sign-extended. */
  function SExt11(imm: Word): Word {
    if imm & 0x400 != 0 then imm | 0xFFFF_F800 else imm
  }

  /** Format 18. */
  function Branch(h: bv16, pc: Word): Instr {
    FreshThumb(pc).(op := B, branchTarget := Add(Add(pc, 4), Shl(SExt11(Imm11(h)), 1)))
  }

  /** Format 19: one half of a BL. */
  function LongBranch(h: bv16, pc: Word): Instr {
    if HalfBit(h, 11) then FreshThumb(pc).(op := BL_suffix, swiImm := Shl(Imm11(h), 1))
    else FreshThumb(pc).(op := BL_prefix, branchTarget := Add(Add(pc, 4), Shl(SExt11(Imm11(h)), 12)))
  }

  function Decode010(h: bv16, pc: Word): Instr {
    var b := (h >> 10) & 7;
    if b == 0 then AluReg(h, pc)
    else if b == 1 then HiReg(h, pc)
    else if b == 2 || b == 3 then PcRelLoad(h, pc)
    else if HalfBit(h, 9) then LoadStoreSigned(h, pc)
    else LoadStoreReg(h, pc)
  }

  function Decode101(h: bv16, pc: Word): Instr {
    var b := (h >> 9) & 0xF;
    if !HalfBit(h, 12) then LoadAddress(h, pc)
    else if b == 0xA || b == 0xE then PushPop(h, pc)
    else if (h >> 8) & 0x1F == 0x10 then AddSubSp(h, pc)
    else ThumbUndefined(pc)
  }

  function Decode111(h: bv16, pc: Word): Instr {
    var b := (h >> 11) & 3;
    if b == 0 then Branch(h, pc) else if b == 1 then ThumbUndefined(pc) else LongBranch(h, pc)
  }

  /** ThumbDecoder::decode. */
  function DecodeThumb(h: bv16, pc: Word): Instr {
    var top := h >> 13;
    if top == 0 then if (h >> 11) & 3 == 3 then AddSub(h, pc) else ShiftImm(h, pc)
    else if top == 1 then AluImm(h, pc)
    else if top == 2 then Decode010(h, pc)
    else if top == 3 then LoadStoreImm(h, pc)
    else if top == 4 then if HalfBit(h, 12) then SpRelative(h, pc) else LoadStoreHalf(h, pc)
    else if top == 5 then Decode101(h, pc)
    else if top == 6 then if HalfBit(h, 12) then CondBranch(h, pc) else MultiLoadStore(h, pc)
    else Decode111(h, pc)
  }

  // ----- Closure ----------------------------------------------------------------------------------

  lemma Imm5Small(h: bv16)
    ensures Imm5(h) < 32
  {}

  lemma DpIsClosed(ins: Instr)
    requires !ins.isUndefined && IsDataProcessing(ins.op) && Op2Ok(ins.op2) && RnOk(ins)
    ensures Closed(ins)
  {
    hide Op2Ok, RnOk, MemOk;
  }

  lemma MemIsClosed(ins: Instr)
    requires !ins.isUndefined && (IsLoad(ins.op) || IsStore(ins.op)) && MemOk(ins)
    ensures Closed(ins)
  {
    hide Op2Ok, RnOk, MemOk;
  }

  lemma OtherIsClosed(ins: Instr)
    requires !ins.isUndefined
    requires ins.op.MUL? || (IsBranch(ins.op) && !ins.op.BL?) || ins.op.SWI?
             || ((ins.op.LDM? || ins.op.STM?) && (ins.block.load <==> ins.op.LDM?))
    ensures Closed(ins)
  {
    hide Op2Ok, RnOk, MemOk;
  }

  lemma ShiftImmClosed(h: bv16, pc: Word)
    ensures Closed(ShiftImm(h, pc))
  {
    Imm5Small(h);
    hide Imm5, LowReg, MemOk;
  }

  lemma AluClosed(h: bv16, pc: Word)
    ensures Closed(AddSub(h, pc)) && Closed(AluImm(h, pc)) && Closed(HiReg(h, pc))
    ensures Closed(LoadAddress(h, pc)) && Closed(AddSubSp(h, pc))
  {
    hide Imm8, LowReg, HalfBit, FromHalf, Closed;
    DpIsClosed(AddSub(h, pc));
    DpIsClosed(AluImm(h, pc));
    if (h >> 8) & 3 == 3 { OtherIsClosed(HiReg(h, pc)); } else { DpIsClosed(HiReg(h, pc)); }
    DpIsClosed(LoadAddress(h, pc));
    DpIsClosed(AddSubSp(h, pc));
  }

  lemma AluRegClosed(h: bv16, pc: Word)
    ensures Closed(AluReg(h, pc))
  {
    hide LowReg, MemOk, Closed;
    AluOpsAre(AluField(h) as nat);
    if AluReg(h, pc).op.MUL? { OtherIsClosed(AluReg(h, pc)); } else { DpIsClosed(AluReg(h, pc)); }
  }

  lemma AluOpsAre(n: Reg)
    ensures var op := ALU_OPS[n]; IsDataProcessing(op) || op.MUL?
  {}

  lemma TransfersClosed(h: bv16, pc: Word)
    ensures Closed(PcRelLoad(h, pc)) && Closed(LoadStoreReg(h, pc)) && Closed(LoadStoreSigned(h, pc))
    ensures Closed(LoadStoreImm(h, pc)) && Closed(LoadStoreHalf(h, pc)) && Closed(SpRelative(h, pc))
    ensures Closed(PushPop(h, pc)) && Closed(MultiLoadStore(h, pc))
  {
    hide Imm8, Imm5, LowReg, HalfBit, LowList, Closed;
    MemIsClosed(PcRelLoad(h, pc));
    MemIsClosed(LoadStoreReg(h, pc));
    MemIsClosed(LoadStoreSigned(h, pc));
    MemIsClosed(LoadStoreImm(h, pc));
    MemIsClosed(LoadStoreHalf(h, pc));
    MemIsClosed(SpRelative(h, pc));
    OtherIsClosed(PushPop(h, pc));
    OtherIsClosed(MultiLoadStore(h, pc));
  }

  lemma BranchesClosed(h: bv16, pc: Word)
    ensures Closed(CondBranch(h, pc)) && Closed(Branch(h, pc)) && Closed(LongBranch(h, pc))
    ensures Closed(SoftwareInterrupt(h, pc)) && Closed(ThumbUndefined(pc))
  {
    hide Imm8, Imm11, SExt8, SExt11, Add, HalfBit, WellFormed;
    OtherIsClosed(CondBranch(h, pc));
    OtherIsClosed(Branch(h, pc));
    OtherIsClosed(LongBranch(h, pc));
    OtherIsClosed(SoftwareInterrupt(h, pc));
  }

  // ----- What THUMB cannot say ---------------------------------------------------------------------

  /** THUMB reaches the PC and the banked modes only through a few forms. */
  predicate Narrow(ins: Instr, pc: Word) {
    && ins.thumb && ins.pc == pc && (ins.cond.AL? || ins.op.B?)
    && (IsTest(ins.op) && ins.rd == 15 ==> ins.op.CMP?)
    && (IsDataProcessing(ins.op) && !IsTest(ins.op) && ins.rd == 15 ==> !ins.setFlags)
    && (IsLoad(ins.op) || IsStore(ins.op) ==>
          ins.rd < 8 && !ins.mem.writeback && (ins.mem.offset.RegOffset? ==> ins.mem.offset.rm < 8))
    && (ins.op.LDM? || ins.op.STM? ==> !ins.block.sBit && ins.block.rn < 15 && (ins.block.load <==> ins.op.LDM?))
    && (ins.op.MUL? ==> ins.rd < 8)
    && !ins.op.MLA? && !IsMultiplyLong(ins.op) && !ins.op.SWP? && !ins.op.SWPB? && !ins.op.MRS? && !ins.op.MSR?
  }

  lemma DpIsNarrow(ins: Instr, pc: Word)
    requires ins.thumb && ins.pc == pc && ins.cond.AL? && IsDataProcessing(ins.op)
    requires ins.rd < 15 || ins.op.CMP? || (!IsTest(ins.op) && !ins.setFlags)
    ensures Narrow(ins, pc)
  {}

  lemma MemIsNarrow(ins: Instr, pc: Word)
    requires ins.thumb && ins.pc == pc && ins.cond.AL? && (IsLoad(ins.op) || IsStore(ins.op))
    requires ins.rd < 8 && !ins.mem.writeback && (ins.mem.offset.RegOffset? ==> ins.mem.offset.rm < 8)
    ensures Narrow(ins, pc)
  {}

  lemma BlockIsNarrow(ins: Instr, pc: Word)
    requires ins.thumb && ins.pc == pc && ins.cond.AL? && (ins.op.LDM? || ins.op.STM?)
    requires !ins.block.sBit && ins.block.rn < 15 && (ins.block.load <==> ins.op.LDM?)
    ensures Narrow(ins, pc)
  {}

  lemma OtherIsNarrow(ins: Instr, pc: Word)
    requires ins.thumb && ins.pc == pc && (ins.cond.AL? || ins.op.B?)
    requires (ins.op.MUL? && ins.rd < 8) || IsBranch(ins.op) || ins.op.SWI? || ins.op.Undefined?
    ensures Narrow(ins, pc)
  {}

  lemma AluNarrow(h: bv16, pc: Word)
    ensures Narrow(AddSub(h, pc), pc) && Narrow(AluImm(h, pc), pc) && Narrow(HiReg(h, pc), pc)
    ensures Narrow(LoadAddress(h, pc), pc) && Narrow(AddSubSp(h, pc), pc)
  {
    hide Imm8, LowReg, HalfBit, FromHalf, Narrow;
    DpIsNarrow(AddSub(h, pc), pc);
    DpIsNarrow(AluImm(h, pc), pc);
    if (h >> 8) & 3 == 3 { OtherIsNarrow(HiReg(h, pc), pc); } else { DpIsNarrow(HiReg(h, pc), pc); }
    DpIsNarrow(LoadAddress(h, pc), pc);
    DpIsNarrow(AddSubSp(h, pc), pc);
  }

  lemma ShiftNarrow(h: bv16, pc: Word)
    ensures Narrow(ShiftImm(h, pc), pc) && Narrow(AluReg(h, pc), pc)
  {
    hide Imm5, LowReg, Narrow;
    AluOpsAre(AluField(h) as nat);
    if AluReg(h, pc).op.MUL? { OtherIsNarrow(AluReg(h, pc), pc); } else { DpIsNarrow(AluReg(h, pc), pc); }
    if (h >> 11) & 3 == 3 { OtherIsNarrow(ShiftImm(h, pc), pc); } else { DpIsNarrow(ShiftImm(h, pc), pc); }
  }

  lemma TransfersNarrow(h: bv16, pc: Word)
    ensures Narrow(PcRelLoad(h, pc), pc) && Narrow(LoadStoreReg(h, pc), pc) && Narrow(LoadStoreSigned(h, pc), pc)
    ensures Narrow(LoadStoreImm(h, pc), pc) && Narrow(LoadStoreHalf(h, pc), pc) && Narrow(SpRelative(h, pc), pc)
    ensures Narrow(PushPop(h, pc), pc) && Narrow(MultiLoadStore(h, pc), pc)
  {
    hide Imm8, Imm5, LowReg, HalfBit, LowList, Narrow;
    MemIsNarrow(PcRelLoad(h, pc), pc);
    MemIsNarrow(LoadStoreReg(h, pc), pc);
    MemIsNarrow(LoadStoreSigned(h, pc), pc);
    MemIsNarrow(LoadStoreImm(h, pc), pc);
    MemIsNarrow(LoadStoreHalf(h, pc), pc);
    MemIsNarrow(SpRelative(h, pc), pc);
    BlockIsNarrow(PushPop(h, pc), pc);
    BlockIsNarrow(MultiLoadStore(h, pc), pc);
  }

  lemma BranchesNarrow(h: bv16, pc: Word)
    ensures Narrow(CondBranch(h, pc), pc) && Narrow(Branch(h, pc), pc) && Narrow(LongBranch(h, pc), pc)
    ensures Narrow(SoftwareInterrupt(h, pc), pc) && Narrow(ThumbUndefined(pc), pc)
  {
    hide Imm8, Imm11, SExt8, SExt11, Add, HalfBit, Narrow;
    OtherIsNarrow(CondBranch(h, pc), pc);
    OtherIsNarrow(Branch(h, pc), pc);
    OtherIsNarrow(LongBranch(h, pc), pc);
    OtherIsNarrow(SoftwareInterrupt(h, pc), pc);
    OtherIsNarrow(ThumbUndefined(pc), pc);
  }

  /** Every halfword decodes to Undefined, a SWI, or a THUMB instruction both engines handle. */
  lemma ThumbClosed(h: bv16, pc: Word)
    ensures Closed(DecodeThumb(h, pc)) && Narrow(DecodeThumb(h, pc), pc)
  {
    hide AddSub, ShiftImm, AluImm, AluReg, HiReg, PcRelLoad, LoadStoreSigned, LoadStoreReg, LoadStoreImm, LoadStoreHalf,
      SpRelative, LoadAddress, PushPop, AddSubSp, MultiLoadStore, CondBranch, SoftwareInterrupt, Branch, LongBranch,
      ThumbUndefined, Closed, Narrow, HalfBit;
    ShiftImmClosed(h, pc);
    AluClosed(h, pc);
    AluRegClosed(h, pc);
    TransfersClosed(h, pc);
    BranchesClosed(h, pc);
    AluNarrow(h, pc);
    ShiftNarrow(h, pc);
    TransfersNarrow(h, pc);
    BranchesNarrow(h, pc);
  }
}
