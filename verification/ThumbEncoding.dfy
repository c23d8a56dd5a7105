// The nineteen THUMB formats as the architecture lays them out (ARM ARM section A6), and what decoding an
// assembled halfword gives back.
module ThumbEncoding {
  import opened Words
  import opened Ir
  import opened Reference
  import opened ArmDecode
  import opened ThumbDecode
  import ArmEncoding

  // ----- Assembling ------------------------------------------------------------------------------

  function F(b: bool): bv16 {
    if b then 1 else 0
  }

  /** Opcode bits above three three-bit registers. */
  function Three(top: bv16, a: bv3, b: bv3, c: bv3): bv16 {
    top | ((a as bv16) << 6) | ((b as bv16) << 3) | (c as bv16)
  }

  /** Opcode bits above a register and an eight-bit immediate. */
  function RegImm(top: bv16, r: bv3, imm: bv8): bv16 {
    top | ((r as bv16) << 8) | (imm as bv16)
  }

  /** Opcode bits above a five-bit immediate and two registers. */
  function ImmRegs(top: bv16, imm: bv5, b: bv3, d: bv3): bv16 {
    top | ((imm as bv16) << 6) | ((b as bv16) << 3) | (d as bv16)
  }

  datatype Format =
    | Shift(op: bv2, n: bv5, rs: bv3, rd: bv3)
    | AddSubtract(immediate: bool, sub: bool, x: bv3, rs: bv3, rd: bv3)
    | Immediate(op: bv2, rd: bv3, imm: bv8)
    | Alu(alu: bv4, rs: bv3, rd: bv3)
    | High(op: bv2, hs: bool, rs: bv3, hd: bool, rd: bv3)
    | LoadPool(rd: bv3, imm: bv8)
    | TransferReg(load: bool, byte: bool, ro: bv3, rb: bv3, rd: bv3)
    | TransferSigned(half: bool, signed: bool, ro: bv3, rb: bv3, rd: bv3)
    | TransferImm(byte: bool, load: bool, n: bv5, rb: bv3, rd: bv3)
    | TransferHalf(load: bool, n: bv5, rb: bv3, rd: bv3)
    | TransferSp(load: bool, rd: bv3, imm: bv8)
    | AddressOf(sp: bool, rd: bv3, imm: bv8)
    | AdjustSp(sub: bool, words: bv7)
    | PushPopList(load: bool, extra: bool, list: bv8)
    | Multiple(load: bool, rb: bv3, list: bv8)
    | BranchIf(c: bv4, near: bv8)
    | Software(imm: bv8)
    | BranchTo(offset: bv11)
    | LongHalf(second: bool, offset: bv11)

  predicate Encodes(f: Format) {
    (f.Shift? ==> f.op != 3) && (f.BranchIf? ==> f.c != 15)
  }

  function Assemble(f: Format): bv16 {
    match f
    case Shift(op, n, rs, rd) => ImmRegs((op as bv16) << 11, n, rs, rd)
    case AddSubtract(immediate, sub, x, rs, rd) => Three(0x1800 | (F(immediate) << 10) | (F(sub) << 9), x, rs, rd)
    case Immediate(op, rd, imm) => RegImm(0x2000 | ((op as bv16) << 11), rd, imm)
    case Alu(op, rs, rd) => 0x4000 | ((op as bv16) << 6) | ((rs as bv16) << 3) | (rd as bv16)
    case High(op, hs, rs, hd, rd) =>
      0x4400 | ((op as bv16) << 8) | (F(hd) << 7) | (F(hs) << 6) | ((rs as bv16) << 3) | (rd as bv16)
    case LoadPool(rd, imm) => RegImm(0x4800, rd, imm)
    case TransferReg(load, byte, ro, rb, rd) => Three(0x5000 | (F(load) << 11) | (F(byte) << 10), ro, rb, rd)
    case TransferSigned(half, signed, ro, rb, rd) => Three(0x5200 | (F(half) << 11) | (F(signed) << 10), ro, rb, rd)
    case TransferImm(byte, load, imm, rb, rd) => ImmRegs(0x6000 | (F(byte) << 12) | (F(load) << 11), imm, rb, rd)
    case TransferHalf(load, imm, rb, rd) => ImmRegs(0x8000 | (F(load) << 11), imm, rb, rd)
    case TransferSp(load, rd, imm) => RegImm(0x9000 | (F(load) << 11), rd, imm)
    case AddressOf(sp, rd, imm) => RegImm(0xA000 | (F(sp) << 11), rd, imm)
    case AdjustSp(sub, imm) => 0xB000 | (F(sub) << 7) | (imm as bv16)
    case PushPopList(load, extra, list) => 0xB400 | (F(load) << 11) | (F(extra) << 8) | (list as bv16)
    case Multiple(load, rb, list) => RegImm(0xC000 | (F(load) << 11), rb, list)
    case BranchIf(c, offset) => 0xD000 | ((c as bv16) << 8) | (offset as bv16)
    case Software(imm) => 0xDF00 | (imm as bv16)
    case BranchTo(offset) => 0xE000 | (offset as bv16)
    case LongHalf(second, offset) => 0xF000 | (F(second) << 11) | (offset as bv16)
  }

  // ----- Meaning -----------------------------------------------------------------------------------

  function W3(r: bv3): Word { r as bv32 }
  function W5(n: bv5): Word { n as bv32 }
  function W7(n: bv7): Word { n as bv32 }
  function W8(b: bv8): Word { b as bv32 }
  function W11(o: bv11): Word { o as bv32 }

  function List8(l: bv8): RegList {
    [l & 1 != 0, l & 2 != 0, l & 4 != 0, l & 8 != 0, l & 0x10 != 0, l & 0x20 != 0, l & 0x40 != 0, l & 0x80 != 0,
     false, false, false, false, false, false, false, false]
  }

  function HighNumber(h: bool, r: bv3): Reg {
    (r as nat) + if h then 8 else 0
  }

  /** A register operand, unshifted; a base with an offset added, not written back; an eleven-bit signed offset. */
  function RegisterOperand(rm: Reg): Op2 {
    Shifted(ShiftedRegister(rm, LSL, ByImm(0)))
  }

  function BaseAnd(rn: Reg, offset: MemOffset): MemAddress {
    MemAddress(rn, true, true, false, offset)
  }

  function Signed11(o: bv11): Word {
    if o & 0x400 != 0 then W11(o) | 0xFFFF_F800 else W11(o)
  }

  lemma Signed11Is(o: bv11)
    ensures SExt11(W11(o)) == Signed11(o)
  {}

  /** The instruction each format stands for: what it reads, writes and does in terms of the ARM operations. */
  function Meaning(f: Format, pc: Word): Instr {
    var i := BLANK.(pc := pc, thumb := true, cond := AL);
    match f
    case Shift(op, n, rs, rd) =>
      i.(op := MOV, setFlags := true, rd := rd as nat,
         op2 := Shifted(ShiftedRegister(rs as nat, if op == 0 then LSL else if op == 1 then LSR else ASR, ByImm(W5(n)))))
    case AddSubtract(immediate, sub, x, rs, rd) =>
      i.(op := if sub then SUB else ADD, setFlags := true, rd := rd as nat, rn := rs as nat,
         op2 := if immediate then Imm(W3(x), Unchanged) else RegisterOperand(x as nat))
    case Immediate(op, rd, imm) =>
      i.(op := if op == 0 then MOV else if op == 1 then CMP else if op == 2 then ADD else SUB, setFlags := true,
         rd := rd as nat, rn := rd as nat, op2 := Imm(W8(imm), Unchanged))
    case Alu(op, rs, rd) => AluMeaning(i.(setFlags := true, rd := rd as nat, rn := rd as nat), op as nat, rs as nat, rd as nat)
    case High(op, hs, rs, hd, rd) =>
      if op == 3 then i.(op := BX, rm := HighNumber(hs, rs)) else
      i.(op := if op == 0 then ADD else if op == 1 then CMP else MOV, setFlags := op == 1, rd := HighNumber(hd, rd),
         rn := HighNumber(hd, rd), op2 := RegisterOperand(HighNumber(hs, rs)))
    case LoadPool(rd, imm) => i.(op := LDR, rd := rd as nat, mem := BaseAnd(15, ImmOffset(Shl(W8(imm), 2))))
    case TransferReg(load, byte, ro, rb, rd) =>
      i.(op := if load then (if byte then LDRB else LDR) else if byte then STRB else STR, rd := rd as nat,
         mem := BaseAnd(rb as nat, RegOffset(ro as nat, LSL, 0)))
    case TransferSigned(half, signed, ro, rb, rd) =>
      i.(op := if signed then (if half then LDRSH else LDRSB) else if half then LDRH else STRH, rd := rd as nat,
         mem := BaseAnd(rb as nat, RegOffset(ro as nat, LSL, 0)))
    case TransferImm(byte, load, imm, rb, rd) =>
      i.(op := if load then (if byte then LDRB else LDR) else if byte then STRB else STR, rd := rd as nat,
         mem := BaseAnd(rb as nat, ImmOffset(if byte then W5(imm) else Shl(W5(imm), 2))))
    case TransferHalf(load, imm, rb, rd) =>
      i.(op := if load then LDRH else STRH, rd := rd as nat, mem := BaseAnd(rb as nat, ImmOffset(Shl(W5(imm), 1))))
    case TransferSp(load, rd, imm) =>
      i.(op := if load then LDR else STR, rd := rd as nat, mem := BaseAnd(13, ImmOffset(Shl(W8(imm), 2))))
    case AddressOf(sp, rd, imm) =>
      i.(op := ADD, rd := rd as nat, rn := if sp then 13 else 15, op2 := Imm(Shl(W8(imm), 2), Unchanged))
    case AdjustSp(sub, imm) =>
      i.(op := if sub then SUB else ADD, rd := 13, rn := 13, op2 := Imm(Shl(W7(imm), 2), Unchanged))
    case PushPopList(load, extra, list) =>
      i.(op := if load then LDM else STM,
         block := BlockAddr(13, !load, load, false, true, load,
                            if !extra then List8(list) else List8(list)[(if load then 15 else 14) := true]))
    case Multiple(load, rb, list) =>
      i.(op := if load then LDM else STM, block := BlockAddr(rb as nat, false, true, false, true, load, List8(list)))
    case BranchIf(c, offset) =>
      i.(cond := ArmEncoding.Condition(c), op := B, branchTarget := Add(Add(pc, 4), Shl(SExt8(offset), 1)))
    case Software(imm) => i.(op := SWI, swiImm := W8(imm))
    case BranchTo(offset) => i.(op := B, branchTarget := Add(Add(pc, 4), Shl(Signed11(offset), 1)))
    case LongHalf(second, offset) =>
      if second then i.(op := BL_suffix, swiImm := Shl(W11(offset), 1))
      else i.(op := BL_prefix, branchTarget := Add(Add(pc, 4), Shl(Signed11(offset), 12)))
  }

  /** Format 4 in ARM terms: the four shifts are MOVs by a register count, NEG subtracts from zero. */
  function AluMeaning(i: Instr, op: nat, rs: Reg, rd: Reg): Instr
    requires op < 16
  {
    if op == 2 then i.(op := MOV, op2 := Shifted(ShiftedRegister(rd, LSL, ByReg(rs))))
    else if op == 3 then i.(op := MOV, op2 := Shifted(ShiftedRegister(rd, LSR, ByReg(rs))))
    else if op == 4 then i.(op := MOV, op2 := Shifted(ShiftedRegister(rd, ASR, ByReg(rs))))
    else if op == 7 then i.(op := MOV, op2 := Shifted(ShiftedRegister(rd, ROR, ByReg(rs))))
    else if op == 9 then i.(op := RSB, rn := rs, op2 := Imm(0, Unchanged))
    else if op == 13 then i.(op := MUL, rm := rd, rs := rs)
    else
      i.(op := if op == 0 then AND else if op == 1 then EOR else if op == 5 then ADC else if op == 6 then SBC
               else if op == 8 then TST else if op == 10 then CMP else if op == 11 then CMN else if op == 12 then ORR
               else if op == 14 then BIC else MVN,
         op2 := RegisterOperand(rs))
  }

  // ----- Format by format ------------------------------------------------------------------------------

  lemma OpBits(op: bv2)
    ensures (op as bv16 == 0 <==> op == 0) && (op as bv16 == 1 <==> op == 1)
    ensures (op as bv16 == 2 <==> op == 2) && (op as bv16 == 3 <==> op == 3)
  {}

  lemma ShiftTop(op: bv2, n: bv5, rs: bv3, rd: bv3)
    ensures var h := Assemble(Shift(op, n, rs, rd));
            h >> 13 == 0 && (h >> 11) & 3 == op as bv16 && Field3(h, 3) == rs && Field3(h, 0) == rd && Imm5(h) == W5(n)
  {}

  lemma ShiftDecodes(f: Format, pc: Word)
    requires f.Shift? && Encodes(f)
    ensures DecodeThumb(Assemble(f), pc) == Meaning(f, pc)
  {
    hide Assemble, Field3, HalfBit, FromHalf, Imm5, Imm8, Imm11, LowList, List8, W3, W5, W7, W8, W11, Shl, Add, SExt11, SExt8;
    OpBits(f.op);
    ShiftTop(f.op, f.n, f.rs, f.rd);
  }

  lemma AddSubtractTop(immediate: bool, sub: bool, x: bv3, rs: bv3, rd: bv3)
    ensures var h := Assemble(AddSubtract(immediate, sub, x, rs, rd));
            h >> 13 == 0 && (h >> 11) & 3 == 3 && HalfBit(h, 10) == immediate && HalfBit(h, 9) == sub && Field3(h, 3) == rs
            && Field3(h, 0) == rd && Field3(h, 6) == x && FromHalf((h >> 6) & 7) == W3(x)
  {}

  lemma AddSubtractDecodes(f: Format, pc: Word)
    requires f.AddSubtract? && Encodes(f)
    ensures DecodeThumb(Assemble(f), pc) == Meaning(f, pc)
  {
    hide Assemble, Field3, HalfBit, FromHalf, Imm5, Imm8, Imm11, LowList, List8, W3, W5, W7, W8, W11, Shl, Add, SExt11, SExt8;
    AddSubtractTop(f.immediate, f.sub, f.x, f.rs, f.rd);
  }

  lemma ImmediateTop(op: bv2, rd: bv3, imm: bv8)
    ensures var h := Assemble(Immediate(op, rd, imm));
            h >> 13 == 1 && (h >> 11) & 3 == op as bv16 && Field3(h, 8) == rd && Imm8(h) == W8(imm)
  {}

  lemma ImmediateDecodes(f: Format, pc: Word)
    requires f.Immediate? && Encodes(f)
    ensures DecodeThumb(Assemble(f), pc) == Meaning(f, pc)
  {
    hide Assemble, Field3, HalfBit, FromHalf, Imm5, Imm8, Imm11, LowList, List8, W3, W5, W7, W8, W11, Shl, Add, SExt11, SExt8;
    OpBits(f.op);
    ImmediateTop(f.op, f.rd, f.imm);
  }

  lemma AluTop(alu: bv4, rs: bv3, rd: bv3)
    ensures var h := Assemble(Alu(alu, rs, rd));
            h >> 13 == 2 && (h >> 10) & 7 == 0 && AluField(h) == alu && Field3(h, 3) == rs && Field3(h, 0) == rd
  {}

  lemma AluDecodes(f: Format, pc: Word)
    requires f.Alu? && Encodes(f)
    ensures DecodeThumb(Assemble(f), pc) == Meaning(f, pc)
  {
    hide Assemble, Field3, HalfBit, FromHalf, Imm5, Imm8, Imm11, LowList, List8, W3, W5, W7, W8, W11, Shl, Add, SExt11, SExt8, AluField;
    AluTop(f.alu, f.rs, f.rd);
  }

  lemma HighTop(op: bv2, hs: bool, rs: bv3, hd: bool, rd: bv3)
    ensures var h := Assemble(High(op, hs, rs, hd, rd));
            h >> 13 == 2 && (h >> 10) & 7 == 1 && (h >> 8) & 3 == op as bv16 && HalfBit(h, 7) == hd && HalfBit(h, 6) == hs
            && Field3(h, 3) == rs && Field3(h, 0) == rd
  {}

  lemma HighDecodes(f: Format, pc: Word)
    requires f.High? && Encodes(f)
    ensures DecodeThumb(Assemble(f), pc) == Meaning(f, pc)
  {
    hide Assemble, Field3, HalfBit, FromHalf, Imm5, Imm8, Imm11, LowList, List8, W3, W5, W7, W8, W11, Shl, Add, SExt11, SExt8;
    OpBits(f.op);
    HighTop(f.op, f.hs, f.rs, f.hd, f.rd);
  }

  lemma LoadPoolTop(rd: bv3, imm: bv8)
    ensures var h := Assemble(LoadPool(rd, imm));
            h >> 13 == 2 && ((h >> 10) & 7 == 2 || (h >> 10) & 7 == 3) && Field3(h, 8) == rd && Imm8(h) == W8(imm)
  {}

  lemma LoadPoolDecodes(f: Format, pc: Word)
    requires f.LoadPool? && Encodes(f)
    ensures DecodeThumb(Assemble(f), pc) == Meaning(f, pc)
  {
    hide Assemble, Field3, HalfBit, FromHalf, Imm5, Imm8, Imm11, LowList, List8, W3, W5, W7, W8, W11, Shl, Add, SExt11, SExt8;
    LoadPoolTop(f.rd, f.imm);
  }

  lemma TransferRegTop(load: bool, byte: bool, ro: bv3, rb: bv3, rd: bv3)
    ensures var h := Assemble(TransferReg(load, byte, ro, rb, rd));
            h >> 13 == 2 && (h >> 10) & 7 >= 4 && !HalfBit(h, 9) && HalfBit(h, 11) == load && HalfBit(h, 10) == byte
            && Field3(h, 6) == ro && Field3(h, 3) == rb && Field3(h, 0) == rd
  {}

  lemma TransferRegDecodes(f: Format, pc: Word)
    requires f.TransferReg? && Encodes(f)
    ensures DecodeThumb(Assemble(f), pc) == Meaning(f, pc)
  {
    hide Assemble, Field3, HalfBit, FromHalf, Imm5, Imm8, Imm11, LowList, List8, W3, W5, W7, W8, W11, Shl, Add, SExt11, SExt8;
    TransferRegTop(f.load, f.byte, f.ro, f.rb, f.rd);
  }

  lemma TransferSignedTop(half: bool, signed: bool, ro: bv3, rb: bv3, rd: bv3)
    ensures var h := Assemble(TransferSigned(half, signed, ro, rb, rd));
            h >> 13 == 2 && (h >> 10) & 7 >= 4 && HalfBit(h, 9) && HalfBit(h, 11) == half && HalfBit(h, 10) == signed
            && Field3(h, 6) == ro && Field3(h, 3) == rb && Field3(h, 0) == rd
  {}

  lemma TransferSignedDecodes(f: Format, pc: Word)
    requires f.TransferSigned? && Encodes(f)
    ensures DecodeThumb(Assemble(f), pc) == Meaning(f, pc)
  {
    hide Assemble, Field3, HalfBit, FromHalf, Imm5, Imm8, Imm11, LowList, List8, W3, W5, W7, W8, W11, Shl, Add, SExt11, SExt8;
    TransferSignedTop(f.half, f.signed, f.ro, f.rb, f.rd);
  }

  lemma TransferImmTop(byte: bool, load: bool, n: bv5, rb: bv3, rd: bv3)
    ensures var h := Assemble(TransferImm(byte, load, n, rb, rd));
            h >> 13 == 3 && HalfBit(h, 12) == byte && HalfBit(h, 11) == load && Imm5(h) == W5(n)
            && Field3(h, 3) == rb && Field3(h, 0) == rd
  {}

  lemma TransferImmDecodes(f: Format, pc: Word)
    requires f.TransferImm? && Encodes(f)
    ensures DecodeThumb(Assemble(f), pc) == Meaning(f, pc)
  {
    hide Assemble, Field3, HalfBit, FromHalf, Imm5, Imm8, Imm11, LowList, List8, W3, W5, W7, W8, W11, Shl, Add, SExt11, SExt8;
    TransferImmTop(f.byte, f.load, f.n, f.rb, f.rd);
  }

  lemma TransferHalfTop(load: bool, n: bv5, rb: bv3, rd: bv3)
    ensures var h := Assemble(TransferHalf(load, n, rb, rd));
            h >> 13 == 4 && !HalfBit(h, 12) && HalfBit(h, 11) == load && Imm5(h) == W5(n)
            && Field3(h, 3) == rb && Field3(h, 0) == rd
  {}

  lemma TransferHalfDecodes(f: Format, pc: Word)
    requires f.TransferHalf? && Encodes(f)
    ensures DecodeThumb(Assemble(f), pc) == Meaning(f, pc)
  {
    hide Assemble, Field3, HalfBit, FromHalf, Imm5, Imm8, Imm11, LowList, List8, W3, W5, W7, W8, W11, Shl, Add, SExt11, SExt8;
    TransferHalfTop(f.load, f.n, f.rb, f.rd);
  }

  lemma TransferSpTop(load: bool, rd: bv3, imm: bv8)
    ensures var h := Assemble(TransferSp(load, rd, imm));
            h >> 13 == 4 && HalfBit(h, 12) && HalfBit(h, 11) == load && Field3(h, 8) == rd && Imm8(h) == W8(imm)
  {}

  lemma TransferSpDecodes(f: Format, pc: Word)
    requires f.TransferSp? && Encodes(f)
    ensures DecodeThumb(Assemble(f), pc) == Meaning(f, pc)
  {
    hide Assemble, Field3, HalfBit, FromHalf, Imm5, Imm8, Imm11, LowList, List8, W3, W5, W7, W8, W11, Shl, Add, SExt11, SExt8;
    TransferSpTop(f.load, f.rd, f.imm);
  }

  lemma AddressOfTop(sp: bool, rd: bv3, imm: bv8)
    ensures var h := Assemble(AddressOf(sp, rd, imm));
            h >> 13 == 5 && !HalfBit(h, 12) && HalfBit(h, 11) == sp && Field3(h, 8) == rd && Imm8(h) == W8(imm)
  {}

  lemma AddressOfDecodes(f: Format, pc: Word)
    requires f.AddressOf? && Encodes(f)
    ensures DecodeThumb(Assemble(f), pc) == Meaning(f, pc)
  {
    hide Assemble, Field3, HalfBit, FromHalf, Imm5, Imm8, Imm11, LowList, List8, W3, W5, W7, W8, W11, Shl, Add, SExt11, SExt8;
    AddressOfTop(f.sp, f.rd, f.imm);
  }

  lemma AdjustSpTop(sub: bool, words: bv7)
    ensures var h := Assemble(AdjustSp(sub, words));
            h >> 13 == 5 && HalfBit(h, 12) && (h >> 9) & 0xF != 0xA && (h >> 9) & 0xF != 0xE && (h >> 8) & 0x1F == 0x10
            && HalfBit(h, 7) == sub && FromHalf(h & 0x7F) == W7(words)
  {}

  lemma AdjustSpDecodes(f: Format, pc: Word)
    requires f.AdjustSp? && Encodes(f)
    ensures DecodeThumb(Assemble(f), pc) == Meaning(f, pc)
  {
    hide Assemble, Field3, HalfBit, FromHalf, Imm5, Imm8, Imm11, LowList, List8, W3, W5, W7, W8, W11, Shl, Add, SExt11, SExt8;
    AdjustSpTop(f.sub, f.words);
  }

  lemma PushPopListTop(load: bool, extra: bool, list: bv8)
    ensures var h := Assemble(PushPopList(load, extra, list));
            h >> 13 == 5 && HalfBit(h, 12) && ((h >> 9) & 0xF == 0xA || (h >> 9) & 0xF == 0xE)
            && HalfBit(h, 11) == load && HalfBit(h, 8) == extra && LowList(h) == List8(list)
  {}

  lemma PushPopListDecodes(f: Format, pc: Word)
    requires f.PushPopList? && Encodes(f)
    ensures DecodeThumb(Assemble(f), pc) == Meaning(f, pc)
  {
    hide Assemble, Field3, HalfBit, FromHalf, Imm5, Imm8, Imm11, LowList, List8, W3, W5, W7, W8, W11, Shl, Add, SExt11, SExt8;
    PushPopListTop(f.load, f.extra, f.list);
  }

  lemma MultipleTop(load: bool, rb: bv3, list: bv8)
    ensures var h := Assemble(Multiple(load, rb, list));
            h >> 13 == 6 && !HalfBit(h, 12) && HalfBit(h, 11) == load && Field3(h, 8) == rb && LowList(h) == List8(list)
  {}

  lemma MultipleDecodes(f: Format, pc: Word)
    requires f.Multiple? && Encodes(f)
    ensures DecodeThumb(Assemble(f), pc) == Meaning(f, pc)
  {
    hide Assemble, Field3, HalfBit, FromHalf, Imm5, Imm8, Imm11, LowList, List8, W3, W5, W7, W8, W11, Shl, Add, SExt11, SExt8;
    MultipleTop(f.load, f.rb, f.list);
  }

  lemma BranchIfTop(c: bv4, near: bv8)
    ensures var h := Assemble(BranchIf(c, near));
            h >> 13 == 6 && HalfBit(h, 12) && CondField(h) == c && ByteOf(h) == near
  {}

  lemma BranchIfDecodes(f: Format, pc: Word)
    requires f.BranchIf? && Encodes(f)
    ensures DecodeThumb(Assemble(f), pc) == Meaning(f, pc)
  {
    hide Assemble, Field3, HalfBit, FromHalf, Imm5, Imm8, Imm11, LowList, List8, W3, W5, W7, W8, W11, Shl, Add, SExt11, SExt8, CondField, ByteOf;
    hide ArmEncoding.Condition;
    ArmEncoding.TablesMatch(f.c);
    BranchIfTop(f.c, f.near);
  }

  lemma SoftwareTop(imm: bv8)
    ensures var h := Assemble(Software(imm));
            h >> 13 == 6 && HalfBit(h, 12) && CondField(h) == 15 && Imm8(h) == W8(imm)
  {}

  lemma SoftwareDecodes(f: Format, pc: Word)
    requires f.Software? && Encodes(f)
    ensures DecodeThumb(Assemble(f), pc) == Meaning(f, pc)
  {
    hide Assemble, Field3, HalfBit, FromHalf, Imm5, Imm8, Imm11, LowList, List8, W3, W5, W7, W8, W11, Shl, Add, SExt11, SExt8, CondField;
    SoftwareTop(f.imm);
  }

  lemma BranchToTop(offset: bv11)
    ensures var h := Assemble(BranchTo(offset));
            h >> 13 == 7 && (h >> 11) & 3 == 0 && Imm11(h) == W11(offset)
  {}

  lemma BranchToDecodes(f: Format, pc: Word)
    requires f.BranchTo? && Encodes(f)
    ensures DecodeThumb(Assemble(f), pc) == Meaning(f, pc)
  {
    hide Assemble, Field3, HalfBit, FromHalf, Imm5, Imm8, Imm11, LowList, List8, W3, W5, W7, W8, W11, Shl, Add, SExt11, SExt8;
    hide Signed11;
    Signed11Is(f.offset);
    BranchToTop(f.offset);
  }

  lemma LongHalfTop(second: bool, offset: bv11)
    ensures var h := Assemble(LongHalf(second, offset));
            h >> 13 == 7 && (h >> 11) & 3 >= 2 && HalfBit(h, 11) == second && Imm11(h) == W11(offset)
  {}

  lemma LongHalfDecodes(f: Format, pc: Word)
    requires f.LongHalf? && Encodes(f)
    ensures DecodeThumb(Assemble(f), pc) == Meaning(f, pc)
  {
    hide Assemble, Field3, HalfBit, FromHalf, Imm5, Imm8, Imm11, LowList, List8, W3, W5, W7, W8, W11, Shl, Add, SExt11, SExt8;
    hide Signed11;
    Signed11Is(f.offset);
    LongHalfTop(f.second, f.offset);
  }

  // ----- Round trip ---------------------------------------------------------------------------------------

  /** Decoding an assembled halfword gives back the instruction it was assembled from, for all nineteen formats,
      every value of their fields and every address. */
  lemma AssembledDecodes(f: Format, pc: Word)
    requires Encodes(f)
    ensures DecodeThumb(Assemble(f), pc) == Meaning(f, pc)
  {
    hide Assemble, DecodeThumb, Meaning, Encodes;
    match f
    case Shift(_, _, _, _) => ShiftDecodes(f, pc);
    case AddSubtract(_, _, _, _, _) => AddSubtractDecodes(f, pc);
    case Immediate(_, _, _) => ImmediateDecodes(f, pc);
    case Alu(_, _, _) => AluDecodes(f, pc);
    case High(_, _, _, _, _) => HighDecodes(f, pc);
    case LoadPool(_, _) => LoadPoolDecodes(f, pc);
    case TransferReg(_, _, _, _, _) => TransferRegDecodes(f, pc);
    case TransferSigned(_, _, _, _, _) => TransferSignedDecodes(f, pc);
    case TransferImm(_, _, _, _, _) => TransferImmDecodes(f, pc);
    case TransferHalf(_, _, _, _) => TransferHalfDecodes(f, pc);
    case TransferSp(_, _, _) => TransferSpDecodes(f, pc);
    case AddressOf(_, _, _) => AddressOfDecodes(f, pc);
    case AdjustSp(_, _) => AdjustSpDecodes(f, pc);
    case PushPopList(_, _, _) => PushPopListDecodes(f, pc);
    case Multiple(_, _, _) => MultipleDecodes(f, pc);
    case BranchIf(_, _) => BranchIfDecodes(f, pc);
    case Software(_) => SoftwareDecodes(f, pc);
    case BranchTo(_) => BranchToDecodes(f, pc);
    case LongHalf(_, _) => LongHalfDecodes(f, pc);
  }

  // ----- The rest of the space ----------------------------------------------------------------------------

  lemma Space101(h: bv16, pc: Word)
    requires h >> 13 == 5
    ensures Decode101(h, pc).isUndefined <==> h & 0x1000 != 0 && h & 0x0600 != 0x0400 && h & 0x0F00 != 0
    ensures !Decode101(h, pc).op.SWI?
  {
    hide Imm8, LowReg, LowList, FromHalf, Shl;
  }

  lemma Space111(h: bv16, pc: Word)
    requires h >> 13 == 7
    ensures Decode111(h, pc).isUndefined <==> h & 0x1800 == 0x0800
    ensures !Decode111(h, pc).op.SWI?
  {
    hide Imm11, SExt11, Shl, Add;
  }

  lemma Space110(h: bv16, pc: Word)
    requires h & 0xF000 == 0xD000
    ensures !CondBranch(h, pc).isUndefined && (CondBranch(h, pc).op.SWI? <==> h & 0x0F00 == 0x0F00)
  {
    hide Imm8, SExt8, Shl, Add, CONDS;
    ConditionField(h);
  }

  lemma ConditionField(h: bv16)
    ensures CondField(h) == 15 <==> h & 0x0F00 == 0x0F00
  {}

  lemma Space010(h: bv16, pc: Word)
    ensures !Decode010(h, pc).isUndefined && !Decode010(h, pc).op.SWI?
  {
    hide Imm8, LowReg, HalfBit, FromHalf, Shl;
    assert 0 <= AluField(h) as nat < 16;
  }

  lemma OtherSpaces(h: bv16, pc: Word)
    requires h >> 13 < 5 || h & 0xF000 == 0xC000
    ensures !DecodeThumb(h, pc).isUndefined && !DecodeThumb(h, pc).op.SWI?
  {
    hide Imm5, Imm8, LowReg, LowList, FromHalf, Shl, Decode010, Decode101, Decode111, CondBranch;
    Space010(h, pc);
  }

  /** The halfwords without an instruction: 1011 outside its three formats, and 11101; SWI is 11011111. */
  lemma UndefinedHalfwords(h: bv16, pc: Word)
    ensures DecodeThumb(h, pc).isUndefined <==>
            h & 0xF800 == 0xE800 || (h & 0xF000 == 0xB000 && h & 0x0600 != 0x0400 && h & 0x0F00 != 0)
    ensures DecodeThumb(h, pc).op.SWI? <==> h & 0xFF00 == 0xDF00
  {
    Spaces(h);
    if h >> 13 == 5 { Space101(h, pc); }
    else if h >> 13 == 7 { Space111(h, pc); }
    else if h & 0xF000 == 0xD000 { Space110(h, pc); }
    else { OtherSpaces(h, pc); }
    hide Decode101, Decode111, CondBranch, Decode010, ShiftImm, AddSub, AluImm, LoadStoreImm, SpRelative, LoadStoreHalf, MultiLoadStore;
  }

  lemma Spaces(h: bv16)
    ensures h >> 13 == 6 <==> h & 0xF000 == 0xC000 || h & 0xF000 == 0xD000
    ensures h & 0xF000 == 0xD000 ==> h >> 13 == 6 && HalfBit(h, 12)
    ensures h >> 13 <= 7
  {}
}
