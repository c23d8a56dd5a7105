// The ARM encodings as the architecture lays them out (ARM ARM sections A3 and A5), and what decoding an
// assembled word gives back.
module ArmEncoding {
  import opened Words
  import opened Ir
  import opened Reference
  import opened ArmDecode

  // ----- Assembling ------------------------------------------------------------------------------

  /** A word by its nibbles: condition, eight opcode bits, then five four-bit fields. */
  function Nibbles(cond: bv4, top: bv8, a: bv4, b: bv4, c: bv4, d: bv4, e: bv4): Word {
    ((cond as bv32) << 28) | ((top as bv32) << 20) | ((a as bv32) << 16) | ((b as bv32) << 12)
      | ((c as bv32) << 8) | ((d as bv32) << 4) | (e as bv32)
  }

  // Fields as words.

  function W2(k: bv2): Word { k as bv32 }
  function W4(r: bv4): Word { r as bv32 }
  function W5(n: bv5): Word { n as bv32 }
  function W8(b: bv8): Word { b as bv32 }
  function W24(o: bv24): Word { o as bv32 }

  function Flag(b: bool): bv8 {
    if b then 1 else 0
  }

  /** P, U, then a third bit, W and L: the flags of the load and store formats. */
  function Flags5(p: bool, u: bool, x: bool, w: bool, l: bool): bv8 {
    (Flag(p) << 4) | (Flag(u) << 3) | (Flag(x) << 2) | (Flag(w) << 1) | Flag(l)
  }

  function High8(b: bv8): bv4 {
    (b >> 4) as bv4
  }

  function Low4(b: bv8): bv4 {
    (b & 0xF) as bv4
  }

  /** The two nibbles that hold a five-bit count, the shift kind and a clear bit 4. */
  function CountHigh(n: bv5): bv4 {
    (n >> 1) as bv4
  }

  function CountLow(n: bv5, kind: bv2): bv4 {
    (((n & 1) as bv4) << 3) | ((kind as bv4) << 1)
  }

  /** The operations by format, with the fields each encodes. */
  datatype Form =
    | DpImm(op: bv4, s: bool, rn: bv4, rd: bv4, rot: bv4, imm: bv8)
    | DpShiftImm(op: bv4, s: bool, rn: bv4, rd: bv4, n: bv5, kind: bv2, rm: bv4)
    | DpShiftReg(op: bv4, s: bool, rn: bv4, rd: bv4, rs: bv4, kind: bv2, rm: bv4)
    | BranchTo(link: bool, offset: bv24)
    | Exchange(rm: bv4)
    | TransferImm(p: bool, u: bool, byte: bool, w: bool, load: bool, rn: bv4, rd: bv4, high: bv4, low: bv8)
    | TransferReg(p: bool, u: bool, byte: bool, w: bool, load: bool, rn: bv4, rd: bv4, n: bv5, kind: bv2, rm: bv4)
    | HalfImm(p: bool, u: bool, w: bool, load: bool, rn: bv4, rd: bv4, sh: bv2, imm: bv8)
    | HalfReg(p: bool, u: bool, w: bool, load: bool, rn: bv4, rd: bv4, sh: bv2, rm: bv4)
    | Block(p: bool, u: bool, s: bool, w: bool, load: bool, rn: bv4, list: bv16)
    | SwapWith(byte: bool, rn: bv4, rd: bv4, rm: bv4)
    | Multiply(acc: bool, s: bool, rd: bv4, rn: bv4, rs: bv4, rm: bv4)
    | MultiplyLong(signed: bool, acc: bool, s: bool, hi: bv4, lo: bv4, rs: bv4, rm: bv4)
    | ReadPsr(spsr: bool, rd: bv4)
    | WritePsrReg(spsr: bool, mask: bv4, rm: bv4)
    | WritePsrImm(spsr: bool, mask: bv4, rot: bv4, imm: bv8)
    | Software(comment: bv24)

  /** The encodings the architecture assigns: a compare without S is a PSR transfer, and a halfword form has no
      0 selector and stores only with selector 1. */
  predicate Encodes(f: Form) {
    match f
    case DpImm(op, s, _, _, _, _) => op & 0xC == 8 ==> s
    case DpShiftImm(op, s, _, _, _, _, _) => op & 0xC == 8 ==> s
    case DpShiftReg(op, s, _, _, _, _, _) => op & 0xC == 8 ==> s
    case HalfImm(_, _, _, load, _, _, sh, _) => sh != 0 && (!load ==> sh == 1)
    case HalfReg(_, _, _, load, _, _, sh, _) => sh != 0 && (!load ==> sh == 1)
    case _ => true
  }

  // One assembler a format.

  function AsmDpImm(cond: bv4, op: bv4, s: bool, rn: bv4, rd: bv4, rot: bv4, imm: bv8): Word {
    Nibbles(cond, 0x20 | ((op as bv8) << 1) | Flag(s), rn, rd, rot, High8(imm), Low4(imm))
  }

  function AsmDpShiftImm(cond: bv4, op: bv4, s: bool, rn: bv4, rd: bv4, n: bv5, kind: bv2, rm: bv4): Word {
    Nibbles(cond, ((op as bv8) << 1) | Flag(s), rn, rd, CountHigh(n), CountLow(n, kind), rm)
  }

  function AsmDpShiftReg(cond: bv4, op: bv4, s: bool, rn: bv4, rd: bv4, rs: bv4, kind: bv2, rm: bv4): Word {
    Nibbles(cond, ((op as bv8) << 1) | Flag(s), rn, rd, rs, ((kind as bv4) << 1) | 1, rm)
  }

  function AsmBranch(cond: bv4, link: bool, offset: bv24): Word {
    ((cond as bv32) << 28) | (if link then 0x0B00_0000 else 0x0A00_0000) | (offset as bv32)
  }

  function AsmExchange(cond: bv4, rm: bv4): Word {
    Nibbles(cond, 0x12, 0xF, 0xF, 0xF, 1, rm)
  }

  function AsmTransferImm(cond: bv4, flags: bv8, rn: bv4, rd: bv4, high: bv4, low: bv8): Word {
    Nibbles(cond, 0x40 | flags, rn, rd, high, High8(low), Low4(low))
  }

  function AsmTransferReg(cond: bv4, flags: bv8, rn: bv4, rd: bv4, n: bv5, kind: bv2, rm: bv4): Word {
    Nibbles(cond, 0x60 | flags, rn, rd, CountHigh(n), CountLow(n, kind), rm)
  }

  function AsmHalf(cond: bv4, flags: bv8, rn: bv4, rd: bv4, sh: bv2, high: bv4, low: bv4): Word {
    Nibbles(cond, flags, rn, rd, high, 9 | ((sh as bv4) << 1), low)
  }

  function AsmBlock(cond: bv4, flags: bv8, rn: bv4, list: bv16): Word {
    ((cond as bv32) << 28) | (((0x80 | flags) as bv32) << 20) | ((rn as bv32) << 16) | (list as bv32)
  }

  function AsmSoftware(cond: bv4, comment: bv24): Word {
    ((cond as bv32) << 28) | 0x0F00_0000 | (comment as bv32)
  }

  /** The assembler of the whole set. */
  function Assemble(f: Form, cond: bv4): Word {
    match f
    case DpImm(op, s, rn, rd, rot, imm) => AsmDpImm(cond, op, s, rn, rd, rot, imm)
    case DpShiftImm(op, s, rn, rd, n, kind, rm) => AsmDpShiftImm(cond, op, s, rn, rd, n, kind, rm)
    case DpShiftReg(op, s, rn, rd, rs, kind, rm) => AsmDpShiftReg(cond, op, s, rn, rd, rs, kind, rm)
    case BranchTo(link, offset) => AsmBranch(cond, link, offset)
    case Exchange(rm) => AsmExchange(cond, rm)
    case TransferImm(p, u, byte, w, load, rn, rd, high, low) =>
      AsmTransferImm(cond, Flags5(p, u, byte, w, load), rn, rd, high, low)
    case TransferReg(p, u, byte, w, load, rn, rd, n, kind, rm) =>
      AsmTransferReg(cond, Flags5(p, u, byte, w, load), rn, rd, n, kind, rm)
    case HalfImm(p, u, w, load, rn, rd, sh, imm) =>
      AsmHalf(cond, Flags5(p, u, true, w, load), rn, rd, sh, High8(imm), Low4(imm))
    case HalfReg(p, u, w, load, rn, rd, sh, rm) => AsmHalf(cond, Flags5(p, u, false, w, load), rn, rd, sh, 0, rm)
    case Block(p, u, s, w, load, rn, list) => AsmBlock(cond, Flags5(p, u, s, w, load), rn, list)
    case SwapWith(byte, rn, rd, rm) => Nibbles(cond, 0x10 | (Flag(byte) << 2), rn, rd, 0, 9, rm)
    case Multiply(acc, s, rd, rn, rs, rm) => Nibbles(cond, (Flag(acc) << 1) | Flag(s), rd, rn, rs, 9, rm)
    case MultiplyLong(signed, acc, s, hi, lo, rs, rm) =>
      Nibbles(cond, 0x08 | (Flag(signed) << 2) | (Flag(acc) << 1) | Flag(s), hi, lo, rs, 9, rm)
    case ReadPsr(spsr, rd) => Nibbles(cond, 0x10 | (Flag(spsr) << 2), 0xF, rd, 0, 0, 0)
    case WritePsrReg(spsr, mask, rm) => Nibbles(cond, 0x12 | (Flag(spsr) << 2), mask, 0xF, 0, 0, rm)
    case WritePsrImm(spsr, mask, rot, imm) =>
      Nibbles(cond, 0x32 | (Flag(spsr) << 2), mask, 0xF, rot, High8(imm), Low4(imm))
    case Software(comment) => AsmSoftware(cond, comment)
  }

  // ----- Meaning -----------------------------------------------------------------------------------

  /** The data-processing opcodes (section A3.4). */
  function Operation(op: bv4): IrOp {
    if op == 0x0 then AND else if op == 0x1 then EOR else if op == 0x2 then SUB else if op == 0x3 then RSB
    else if op == 0x4 then ADD else if op == 0x5 then ADC else if op == 0x6 then SBC else if op == 0x7 then RSC
    else if op == 0x8 then TST else if op == 0x9 then TEQ else if op == 0xA then CMP else if op == 0xB then CMN
    else if op == 0xC then ORR else if op == 0xD then MOV else if op == 0xE then BIC else MVN
  }

  /** The condition field (section A3.2). */
  function Condition(c: bv4): Cond {
    if c == 0x0 then EQ else if c == 0x1 then NE else if c == 0x2 then CS else if c == 0x3 then CC
    else if c == 0x4 then MI else if c == 0x5 then PL else if c == 0x6 then VS else if c == 0x7 then VC
    else if c == 0x8 then HI else if c == 0x9 then LS else if c == 0xA then GE else if c == 0xB then LT
    else if c == 0xC then GT else if c == 0xD then LE else if c == 0xE then AL else NV
  }

  /** The decoder's tables are these. */
  lemma TablesMatch(n: bv4)
    ensures DP_OPS[n as nat] == Operation(n) && CONDS[n as nat] == Condition(n)
  {}

  const KINDS: seq<ShiftType> := [LSL, LSR, ASR, ROR]

  /** A shift by an immediate; ROR #0 is RRX. */
  function ImmKind(kind: bv2, n: bv5): ShiftType {
    if kind == 3 && n == 0 then RRX else KINDS[kind as nat]
  }

  function Doubled(rot: bv4): Word { (rot as bv32) << 1 }

  /** An eight-bit immediate rotated right by twice the four-bit field; without rotation the carry is the old one. */
  function Rotated(rot: bv4, imm: bv8): Op2 {
    if rot == 0 then Imm(W8(imm), Unchanged) else
    var r := Rotr32(W8(imm), Doubled(rot));
    Imm(r, if SignBit(r) then ImmCarry.Set else Clear)
  }

  function SExt24(offset: bv24): Word {
    if offset & 0x80_0000 != 0 then W24(offset) | 0xFF00_0000 else W24(offset)
  }

  function ListBits(l: bv16): RegList {
    [l & 1 != 0, l & 2 != 0, l & 4 != 0, l & 8 != 0, l & 0x10 != 0, l & 0x20 != 0, l & 0x40 != 0, l & 0x80 != 0,
     l & 0x100 != 0, l & 0x200 != 0, l & 0x400 != 0, l & 0x800 != 0, l & 0x1000 != 0, l & 0x2000 != 0, l & 0x4000 != 0,
     l & 0x8000 != 0]
  }

  function Imm12(high: bv4, low: bv8): Word {
    ((high as bv32) << 8) | (low as bv32)
  }

  function Address(rn: bv4, p: bool, u: bool, w: bool, offset: MemOffset): MemAddress {
    MemAddress(rn as nat, p, u, w || !p, offset)
  }

  function HalfOp(load: bool, sh: bv2): IrOp {
    if !load then STRH else if sh == 1 then LDRH else if sh == 2 then LDRSB else LDRSH
  }

  function TransferOp(load: bool, byte: bool): IrOp {
    if load then (if byte then LDRB else LDR) else if byte then STRB else STR
  }

  /** The instruction each encoding stands for. */
  function Meaning(f: Form, cond: bv4, pc: Word): Instr {
    var i := BLANK.(pc := pc, cond := Condition(cond));
    match f
    case DpImm(op, s, rn, rd, rot, imm) =>
      i.(op := Operation(op), setFlags := s, rn := rn as nat, rd := rd as nat, op2 := Rotated(rot, imm))
    case DpShiftImm(op, s, rn, rd, n, kind, rm) =>
      i.(op := Operation(op), setFlags := s, rn := rn as nat, rd := rd as nat,
         op2 := Shifted(ShiftedRegister(rm as nat, ImmKind(kind, n), ByImm(W5(n)))))
    case DpShiftReg(op, s, rn, rd, rs, kind, rm) =>
      i.(op := Operation(op), setFlags := s, rn := rn as nat, rd := rd as nat,
         op2 := Shifted(ShiftedRegister(rm as nat, KINDS[kind as nat], ByReg(rs as nat))))
    case BranchTo(link, offset) =>
      i.(op := if link then BL else B, branchTarget := Add(Add(pc, 8), Shl(SExt24(offset), 2)))
    case Exchange(rm) => i.(op := BX, rm := rm as nat)
    case TransferImm(p, u, byte, w, load, rn, rd, high, low) =>
      i.(op := TransferOp(load, byte), rd := rd as nat,
         mem := Address(rn, p, u, w, ImmOffset(Imm12(high, low))))
    case TransferReg(p, u, byte, w, load, rn, rd, n, kind, rm) =>
      i.(op := TransferOp(load, byte), rd := rd as nat,
         mem := Address(rn, p, u, w, RegOffset(rm as nat, ImmKind(kind, n), W5(n))))
    case HalfImm(p, u, w, load, rn, rd, sh, imm) =>
      i.(op := HalfOp(load, sh), rd := rd as nat, mem := Address(rn, p, u, w, ImmOffset(W8(imm))))
    case HalfReg(p, u, w, load, rn, rd, sh, rm) =>
      i.(op := HalfOp(load, sh), rd := rd as nat, mem := Address(rn, p, u, w, RegOffset(rm as nat, LSL, 0)))
    case Block(p, u, s, w, load, rn, list) =>
      i.(op := if load then LDM else STM, block := BlockAddr(rn as nat, p, u, s, w, load, ListBits(list)))
    case SwapWith(byte, rn, rd, rm) =>
      i.(op := if byte then SWPB else SWP, rn := rn as nat, rd := rd as nat, rm := rm as nat)
    case Multiply(acc, s, rd, rn, rs, rm) =>
      i.(op := if acc then MLA else MUL, setFlags := s, rd := rd as nat, rn := rn as nat, rs := rs as nat, rm := rm as nat)
    case MultiplyLong(signed, acc, s, hi, lo, rs, rm) =>
      i.(op := if signed then (if acc then SMLAL else SMULL) else if acc then UMLAL else UMULL, setFlags := s,
         rd := hi as nat, rn := lo as nat, rs := rs as nat, rm := rm as nat)
    case ReadPsr(spsr, rd) => i.(op := MRS, rd := rd as nat, psr := PsrTransfer(0, spsr))
    case WritePsrReg(spsr, mask, rm) =>
      i.(op := MSR, psr := PsrTransfer(mask, spsr), op2 := Shifted(ShiftedRegister(rm as nat, LSL, ByImm(0))))
    case WritePsrImm(spsr, mask, rot, imm) => i.(op := MSR, psr := PsrTransfer(mask, spsr), op2 := Rotated(rot, imm))
    case Software(comment) => i.(op := SWI, swiImm := W24(comment))
  }

  // ----- Fields common to all ------------------------------------------------------------------------

  lemma KindIs(w: Word, kind: bv2)
    requires KindField(w) == W2(kind)
    ensures KindOf(w) == KINDS[kind as nat]
  {}

  lemma ShiftIs(w: Word, n: bv5, kind: bv2)
    requires KindField(w) == W2(kind) && CountField(w) == W5(n)
    ensures ShiftByImm(w) == (ImmKind(kind, n), W5(n))
  {
    hide KindOf, CountField, KindField, W5, W2;
    KindIs(w, kind);
    WideZero(n, 0);
    LastKind(kind);
  }

  lemma WideZero(n: bv5, rot: bv4)
    ensures (W5(n) == 0 <==> n == 0) && (W4(rot) == 0 <==> rot == 0)
  {}

  lemma LastKind(kind: bv2)
    ensures KINDS[kind as nat].ROR? <==> kind == 3
  {}

  lemma RotationIs(w: Word, rot: bv4, imm: bv8)
    requires ByteField(w) == W8(imm) && RotateField(w) == W4(rot)
    ensures ExpandImm(w) == Rotated(rot, imm)
  {
    hide Twice, Doubled, Rotr32, SignBit, ByteField, RotateField, W4, W8;
    WideZero(0, rot);
    DoubledIs(rot);
  }

  lemma DoubledIs(rot: bv4)
    ensures Twice(W4(rot)) == Doubled(rot)
  {}

  lemma CondIs(w: Word, cond: bv4)
    requires Field4(w, 28) == cond
    ensures CondOf(w) == Condition(cond)
  {
    hide Field4, Condition;
    TablesMatch(cond);
  }

  // ----- Data processing ------------------------------------------------------------------------------

  lemma DpImmFields(cond: bv4, op: bv4, s: bool, rn: bv4, rd: bv4, rot: bv4, imm: bv8)
    ensures var w := AsmDpImm(cond, op, s, rn, rd, rot, imm);
            (w >> 26) & 3 == 0 && BitOf(w, 25) && Field4(w, 21) == op && BitOf(w, 20) == s && Field4(w, 28) == cond
            && Field4(w, 16) == rn && Field4(w, 12) == rd && ByteField(w) == W8(imm) && RotateField(w) == W4(rot)
  {}

  lemma DpShiftImmFields(cond: bv4, op: bv4, s: bool, rn: bv4, rd: bv4, n: bv5, kind: bv2, rm: bv4)
    ensures var w := AsmDpShiftImm(cond, op, s, rn, rd, n, kind, rm);
            (w >> 26) & 3 == 0 && !BitOf(w, 25) && Field4(w, 21) == op && BitOf(w, 20) == s && Field4(w, 28) == cond
            && Field4(w, 16) == rn && Field4(w, 12) == rd && Field4(w, 0) == rm
            && CountField(w) == W5(n) && KindField(w) == W2(kind) && !BitOf(w, 4)
  {}

  lemma DpShiftRegFields(cond: bv4, op: bv4, s: bool, rn: bv4, rd: bv4, rs: bv4, kind: bv2, rm: bv4)
    ensures var w := AsmDpShiftReg(cond, op, s, rn, rd, rs, kind, rm);
            (w >> 26) & 3 == 0 && !BitOf(w, 25) && Field4(w, 21) == op && BitOf(w, 20) == s && Field4(w, 28) == cond
            && Field4(w, 16) == rn && Field4(w, 12) == rd && Field4(w, 8) == rs && Field4(w, 0) == rm
            && KindField(w) == W2(kind) && BitOf(w, 4) && !BitOf(w, 7)
  {}

  /** The 00 space: data processing, multiplies, halfwords, PSR transfers. */
  predicate InDpSpace(w: Word) {
    (w >> 26) & 3 == 0
  }

  /** Words of the 00 space reach its decoder unless they are a BX. */
  lemma DpRoute(w: Word, pc: Word)
    requires InDpSpace(w) && !IsBranchExchange(w)
    ensures Decode(w, pc) == DecodeDpSpace(w, pc)
  {
    DpTop(w);
    hide IsBranchExchange, DecodeDpSpace, InDpSpace;
  }

  lemma DpTop(w: Word)
    requires InDpSpace(w)
    ensures (w >> 25) & 7 != 5 && (w >> 25) & 7 != 4 && (w >> 24) & 0xF != 0xF && (w >> 26) & 3 == 0
  {}

  lemma BxFields(w: Word)
    ensures IsBranchExchange(w) ==>
              Field4(w, 21) == 9 && !BitOf(w, 20) && !BitOf(w, 25) && Field4(w, 12) == 0xF && Field4(w, 16) == 0xF
              && Field4(w, 4) == 1 && !IsExtension(w)
  {}

  /** A data-processing opcode is one that has its S bit or is no compare. */
  lemma NoPsr(op: bv4)
    ensures 8 <= op as nat < 12 <==> op & 0xC == 8
    ensures op == 9 ==> op & 0xC == 8
  {}

  /** A word of the 00 space with these fields is a data-processing instruction. */
  lemma DpDecodes(w: Word, cond: bv4, op: bv4, s: bool, rn: bv4, rd: bv4, o: Op2, pc: Word)
    requires InDpSpace(w) && !IsExtension(w) && (op & 0xC == 8 ==> s)
    requires Field4(w, 28) == cond && Field4(w, 21) == op && BitOf(w, 20) == s && Field4(w, 16) == rn && Field4(w, 12) == rd
    requires DecodeOp2(w) == o
    ensures Decode(w, pc) ==
            BLANK.(pc := pc, cond := Condition(cond), op := Operation(op), setFlags := s, rn := rn as nat,
                   rd := rd as nat, op2 := o)
  {
    hide Field4, BitOf, IsExtension, DecodeOp2, IsBranchExchange, CondOf, InDpSpace, Decode, Operation, Condition;
    BxFields(w);
    NoPsr(op);
    CondIs(w, cond);
    TablesMatch(op);
    DpRoute(w, pc);
  }

  lemma DpImmDecodes(f: Form, cond: bv4, pc: Word)
    requires f.DpImm? && Encodes(f)
    ensures Decode(Assemble(f, cond), pc) == Meaning(f, cond, pc)
  {
    hide AsmDpImm, Field4, BitOf, Decode, ExpandImm, Rotated, ByteField, RotateField, W4, W8;
    var w := Assemble(f, cond);
    DpImmFields(cond, f.op, f.s, f.rn, f.rd, f.rot, f.imm);
    RotationIs(w, f.rot, f.imm);
    DpDecodes(w, cond, f.op, f.s, f.rn, f.rd, Rotated(f.rot, f.imm), pc);
  }

  lemma ShiftImmOperand(w: Word, n: bv5, kind: bv2, rm: bv4)
    requires !BitOf(w, 25) && !BitOf(w, 4) && Field4(w, 0) == rm
    requires KindField(w) == W2(kind) && CountField(w) == W5(n)
    ensures DecodeOp2(w) == Shifted(ShiftedRegister(rm as nat, ImmKind(kind, n), ByImm(W5(n))))
  {
    hide Field4, BitOf, ExpandImm, ShiftByImm, ImmKind, CountField, KindField, W5, W2;
    ShiftIs(w, n, kind);
  }

  lemma DpShiftImmDecodes(f: Form, cond: bv4, pc: Word)
    requires f.DpShiftImm? && Encodes(f)
    ensures Decode(Assemble(f, cond), pc) == Meaning(f, cond, pc)
  {
    hide AsmDpShiftImm, Field4, BitOf, Decode, DecodeOp2, ImmKind, CountField, KindField, W5, W2;
    var w := Assemble(f, cond);
    DpShiftImmFields(cond, f.op, f.s, f.rn, f.rd, f.n, f.kind, f.rm);
    ShiftImmOperand(w, f.n, f.kind, f.rm);
    DpDecodes(w, cond, f.op, f.s, f.rn, f.rd,
              Shifted(ShiftedRegister(f.rm as nat, ImmKind(f.kind, f.n), ByImm(W5(f.n)))), pc);
  }

  lemma DpShiftRegDecodes(f: Form, cond: bv4, pc: Word)
    requires f.DpShiftReg? && Encodes(f)
    ensures Decode(Assemble(f, cond), pc) == Meaning(f, cond, pc)
  {
    hide AsmDpShiftReg, Field4, BitOf, Decode, KindOf, KindField, W2, ExpandImm;
    var w := Assemble(f, cond);
    DpShiftRegFields(cond, f.op, f.s, f.rn, f.rd, f.rs, f.kind, f.rm);
    KindIs(w, f.kind);
    DpDecodes(w, cond, f.op, f.s, f.rn, f.rd,
              Shifted(ShiftedRegister(f.rm as nat, KINDS[f.kind as nat], ByReg(f.rs as nat))), pc);
  }

  // ----- Branches and SWI --------------------------------------------------------------------------------

  lemma BranchOffsetIs(cond: bv4, link: bool, offset: bv24)
    ensures BranchField(AsmBranch(cond, link, offset)) == SExt24(offset)
  {
    hide AsmBranch, SExt24, Low24, SignExtend24, W24;
    OffsetBits(cond, link, offset);
    OffsetSign(offset);
  }

  lemma OffsetBits(cond: bv4, link: bool, offset: bv24)
    ensures Low24(AsmBranch(cond, link, offset)) == W24(offset)
  {}

  lemma OffsetSign(offset: bv24)
    ensures SignExtend24(W24(offset)) == SExt24(offset)
  {}

  lemma BranchFields(cond: bv4, link: bool, offset: bv24)
    ensures var w := AsmBranch(cond, link, offset);
            !IsBranchExchange(w) && (w >> 25) & 7 == 5 && BitOf(w, 24) == link && Field4(w, 28) == cond
  {}

  lemma ExchangeFields(cond: bv4, rm: bv4)
    ensures var w := AsmExchange(cond, rm);
            IsBranchExchange(w) && Field4(w, 28) == cond && Field4(w, 0) == rm
  {}

  lemma SoftwareFields(cond: bv4, comment: bv24)
    ensures var w := AsmSoftware(cond, comment);
            !IsBranchExchange(w) && (w >> 25) & 7 == 7 && (w >> 24) & 0xF == 0xF && Field4(w, 28) == cond
            && Low24(w) == W24(comment)
  {}

  lemma BranchDecodes(f: Form, cond: bv4, pc: Word)
    requires f.BranchTo?
    ensures Decode(Assemble(f, cond), pc) == Meaning(f, cond, pc)
  {
    hide AsmBranch, Field4, BitOf, IsBranchExchange, BranchField, Shl, Add, CondOf, DecodeDpSpace, SExt24;
    BranchFields(cond, f.link, f.offset);
    BranchOffsetIs(cond, f.link, f.offset);
    CondIs(Assemble(f, cond), cond);
  }

  lemma ExchangeDecodes(f: Form, cond: bv4, pc: Word)
    requires f.Exchange?
    ensures Decode(Assemble(f, cond), pc) == Meaning(f, cond, pc)
  {
    hide AsmExchange, Field4, BitOf, IsBranchExchange, CondOf, DecodeDpSpace;
    ExchangeFields(cond, f.rm);
    CondIs(Assemble(f, cond), cond);
  }

  lemma SoftwareDecodes(f: Form, cond: bv4, pc: Word)
    requires f.Software?
    ensures Decode(Assemble(f, cond), pc) == Meaning(f, cond, pc)
  {
    hide AsmSoftware, Field4, BitOf, IsBranchExchange, CondOf, DecodeDpSpace, DecodeBlockDataTransfer,
      DecodeSingleDataTransfer, DecodeBranch, W24, Low24;
    SoftwareFields(cond, f.comment);
    CondIs(Assemble(f, cond), cond);
  }

  // ----- Loads and stores -----------------------------------------------------------------------------------

  /** The flags and base of a load or store. */
  predicate TransferFields(w: Word, cond: bv4, p: bool, u: bool, x: bool, wb: bool, load: bool, rn: bv4) {
    Field4(w, 28) == cond && BitOf(w, 24) == p && BitOf(w, 23) == u && BitOf(w, 22) == x && BitOf(w, 21) == wb
    && BitOf(w, 20) == load && Field4(w, 16) == rn
  }

  function ImmField(w: Word): Word {
    w & 0xFFF
  }

  lemma TransferImmFlags(cond: bv4, p: bool, u: bool, byte: bool, wb: bool, load: bool, rn: bv4, rd: bv4, high: bv4, low: bv8)
    ensures TransferFields(AsmTransferImm(cond, Flags5(p, u, byte, wb, load), rn, rd, high, low), cond, p, u, byte, wb, load, rn)
  {}

  lemma TransferImmFields(cond: bv4, p: bool, u: bool, byte: bool, wb: bool, load: bool, rn: bv4, rd: bv4, high: bv4, low: bv8)
    ensures var w := AsmTransferImm(cond, Flags5(p, u, byte, wb, load), rn, rd, high, low);
            !IsBranchExchange(w) && (w >> 25) & 7 == 2 && (w >> 24) & 0xF != 0xF && (w >> 26) & 3 == 1 && !BitOf(w, 25)
            && Field4(w, 12) == rd && ImmField(w) == Imm12(high, low)
  {}

  lemma TransferRegFlags(cond: bv4, p: bool, u: bool, byte: bool, wb: bool, load: bool, rn: bv4, rd: bv4, n: bv5, kind: bv2, rm: bv4)
    ensures TransferFields(AsmTransferReg(cond, Flags5(p, u, byte, wb, load), rn, rd, n, kind, rm), cond, p, u, byte, wb, load, rn)
  {}

  lemma TransferRegFields(cond: bv4, p: bool, u: bool, byte: bool, wb: bool, load: bool, rn: bv4, rd: bv4, n: bv5, kind: bv2, rm: bv4)
    ensures var w := AsmTransferReg(cond, Flags5(p, u, byte, wb, load), rn, rd, n, kind, rm);
            !IsBranchExchange(w) && (w >> 25) & 7 == 3 && (w >> 24) & 0xF != 0xF && (w >> 26) & 3 == 1 && BitOf(w, 25)
            && !BitOf(w, 4) && Field4(w, 12) == rd && Field4(w, 0) == rm && KindField(w) == W2(kind) && CountField(w) == W5(n)
  {}

  lemma TransferImmDecodes(f: Form, cond: bv4, pc: Word)
    requires f.TransferImm?
    ensures Decode(Assemble(f, cond), pc) == Meaning(f, cond, pc)
  {
    hide AsmTransferImm, Flags5, Field4, BitOf, IsBranchExchange, CondOf, DecodeDpSpace, ShiftByImm, Imm12;
    TransferImmFields(cond, f.p, f.u, f.byte, f.w, f.load, f.rn, f.rd, f.high, f.low);
    TransferImmFlags(cond, f.p, f.u, f.byte, f.w, f.load, f.rn, f.rd, f.high, f.low);
    CondIs(Assemble(f, cond), cond);
  }

  lemma TransferRegDecodes(f: Form, cond: bv4, pc: Word)
    requires f.TransferReg?
    ensures Decode(Assemble(f, cond), pc) == Meaning(f, cond, pc)
  {
    hide AsmTransferReg, Flags5, Field4, BitOf, IsBranchExchange, CondOf, DecodeDpSpace, ShiftByImm, ImmKind, CountField,
      KindField, W5, W2;
    TransferRegFields(cond, f.p, f.u, f.byte, f.w, f.load, f.rn, f.rd, f.n, f.kind, f.rm);
    TransferRegFlags(cond, f.p, f.u, f.byte, f.w, f.load, f.rn, f.rd, f.n, f.kind, f.rm);
    ShiftIs(Assemble(f, cond), f.n, f.kind);
    CondIs(Assemble(f, cond), cond);
  }

  function SplitImm(w: Word): Word {
    (((w >> 8) & 0xF) << 4) | (w & 0xF)
  }

  lemma HalfFlags(cond: bv4, p: bool, u: bool, x: bool, wb: bool, load: bool, rn: bv4, rd: bv4, sh: bv2, high: bv4, low: bv4)
    ensures TransferFields(AsmHalf(cond, Flags5(p, u, x, wb, load), rn, rd, sh, high, low), cond, p, u, x, wb, load, rn)
  {}

  lemma HalfFields(cond: bv4, p: bool, u: bool, x: bool, wb: bool, load: bool, rn: bv4, rd: bv4, sh: bv2, high: bv4, low: bv4)
    requires sh != 0
    ensures var w := AsmHalf(cond, Flags5(p, u, x, wb, load), rn, rd, sh, high, low);
            InDpSpace(w) && IsExtension(w) && (w >> 4) & 0xF != 9 && KindField(w) == W2(sh)
            && Field4(w, 12) == rd && Field4(w, 0) == low
  {}

  lemma HalfImmediate(cond: bv4, flags: bv8, rn: bv4, rd: bv4, sh: bv2, imm: bv8)
    ensures SplitImm(AsmHalf(cond, flags, rn, rd, sh, High8(imm), Low4(imm))) == W8(imm)
  {}

  lemma ShIs(sh: bv2)
    ensures (W2(sh) == 0 <==> sh == 0) && (W2(sh) == 1 <==> sh == 1) && (W2(sh) == 2 <==> sh == 2)
  {}

  /** A halfword transfer, from its fields. */
  lemma HalfTransfer(w: Word, cond: bv4, p: bool, u: bool, x: bool, wb: bool, load: bool, rn: bv4, rd: bv4, sh: bv2,
                     offset: MemOffset, pc: Word)
    requires sh != 0 && (!load ==> sh == 1)
    requires InDpSpace(w) && IsExtension(w) && (w >> 4) & 0xF != 9 && KindField(w) == W2(sh) && Field4(w, 12) == rd
    requires TransferFields(w, cond, p, u, x, wb, load, rn)
    requires offset == if x then ImmOffset(SplitImm(w)) else RegOffset(RegAt(w, 0), LSL, 0)
    ensures Decode(w, pc) ==
            BLANK.(pc := pc, cond := Condition(cond), op := HalfOp(load, sh), rd := rd as nat,
                   mem := Address(rn, p, u, wb, offset))
  {
    hide Field4, BitOf, IsBranchExchange, CondOf, IsExtension, InDpSpace, KindField, W2, Decode, SplitImm;
    BxFields(w);
    ShIs(sh);
    CondIs(w, cond);
    DpRoute(w, pc);
    SplitIs(w);
  }

  lemma SplitIs(w: Word)
    ensures SplitImm(w) == (((w >> 8) & 0xF) << 4) | (w & 0xF)
  {}

  lemma HalfImmMeans(f: Form, cond: bv4, pc: Word)
    requires f.HalfImm?
    ensures Meaning(f, cond, pc) ==
            BLANK.(pc := pc, cond := Condition(cond), op := HalfOp(f.load, f.sh), rd := f.rd as nat,
                   mem := Address(f.rn, f.p, f.u, f.w, ImmOffset(W8(f.imm))))
  {
    hide HalfOp, Address, W8;
  }

  lemma HalfRegMeans(f: Form, cond: bv4, pc: Word)
    requires f.HalfReg?
    ensures Meaning(f, cond, pc) ==
            BLANK.(pc := pc, cond := Condition(cond), op := HalfOp(f.load, f.sh), rd := f.rd as nat,
                   mem := Address(f.rn, f.p, f.u, f.w, RegOffset(f.rm as nat, LSL, 0)))
  {
    hide HalfOp, Address;
  }

  lemma HalfImmDecodes(f: Form, cond: bv4, pc: Word)
    requires f.HalfImm? && Encodes(f)
    ensures Decode(Assemble(f, cond), pc) == Meaning(f, cond, pc)
  {
    hide AsmHalf, Flags5, High8, Low4, Field4, BitOf, InDpSpace, IsExtension, KindField, W2, W8, Decode, SplitImm, HalfOp,
      TransferFields, Meaning, Address;
    HalfImmMeans(f, cond, pc);
    var w := Assemble(f, cond);
    HalfFields(cond, f.p, f.u, true, f.w, f.load, f.rn, f.rd, f.sh, High8(f.imm), Low4(f.imm));
    HalfFlags(cond, f.p, f.u, true, f.w, f.load, f.rn, f.rd, f.sh, High8(f.imm), Low4(f.imm));
    HalfImmediate(cond, Flags5(f.p, f.u, true, f.w, f.load), f.rn, f.rd, f.sh, f.imm);
    HalfTransfer(w, cond, f.p, f.u, true, f.w, f.load, f.rn, f.rd, f.sh, ImmOffset(W8(f.imm)), pc);
  }

  lemma HalfRegDecodes(f: Form, cond: bv4, pc: Word)
    requires f.HalfReg? && Encodes(f)
    ensures Decode(Assemble(f, cond), pc) == Meaning(f, cond, pc)
  {
    hide AsmHalf, Flags5, Field4, BitOf, InDpSpace, IsExtension, KindField, W2, Decode, SplitImm, HalfOp, TransferFields,
      Meaning, Address;
    HalfRegMeans(f, cond, pc);
    var w := Assemble(f, cond);
    HalfFields(cond, f.p, f.u, false, f.w, f.load, f.rn, f.rd, f.sh, 0, f.rm);
    HalfFlags(cond, f.p, f.u, false, f.w, f.load, f.rn, f.rd, f.sh, 0, f.rm);
    HalfTransfer(w, cond, f.p, f.u, false, f.w, f.load, f.rn, f.rd, f.sh, RegOffset(f.rm as nat, LSL, 0), pc);
  }

  lemma BlockFlags(cond: bv4, p: bool, u: bool, s: bool, wb: bool, load: bool, rn: bv4, list: bv16)
    ensures TransferFields(AsmBlock(cond, Flags5(p, u, s, wb, load), rn, list), cond, p, u, s, wb, load, rn)
  {}

  lemma BlockFields(cond: bv4, p: bool, u: bool, s: bool, wb: bool, load: bool, rn: bv4, list: bv16)
    ensures var w := AsmBlock(cond, Flags5(p, u, s, wb, load), rn, list);
            !IsBranchExchange(w) && (w >> 25) & 7 == 4 && (w >> 24) & 0xF != 0xF
  {}

  lemma BlockList(cond: bv4, flags: bv8, rn: bv4, list: bv16)
    ensures ListOf(AsmBlock(cond, flags, rn, list)) == ListBits(list)
  {}

  lemma BlockDecodes(f: Form, cond: bv4, pc: Word)
    requires f.Block?
    ensures Decode(Assemble(f, cond), pc) == Meaning(f, cond, pc)
  {
    hide AsmBlock, Flags5, Field4, BitOf, IsBranchExchange, CondOf, DecodeDpSpace, ListOf, ListBits;
    BlockFields(cond, f.p, f.u, f.s, f.w, f.load, f.rn, f.list);
    BlockFlags(cond, f.p, f.u, f.s, f.w, f.load, f.rn, f.list);
    BlockList(cond, Flags5(f.p, f.u, f.s, f.w, f.load), f.rn, f.list);
    CondIs(Assemble(f, cond), cond);
  }

  // ----- Multiplies and swaps -----------------------------------------------------------------------------------

  lemma NineRoute(w: Word, pc: Word)
    requires InDpSpace(w) && IsExtension(w)
    ensures Decode(w, pc) == DecodeExtension(w, pc)
  {
    BxFields(w);
    DpRoute(w, pc);
    hide IsBranchExchange, InDpSpace, IsExtension, Decode, DecodeExtension;
  }

  lemma MultiplyDecodes(f: Form, cond: bv4, pc: Word)
    requires f.Multiply?
    ensures Decode(Assemble(f, cond), pc) == Meaning(f, cond, pc)
  {
    hide Nibbles, Flag, Field4, BitOf, InDpSpace, IsExtension, Decode, DecodeMultiplyLong, DecodeSwap,
      DecodeHalfwordTransfer, CondOf;
    var w := Assemble(f, cond);
    MultiplyTop(cond, f.acc, f.s, f.rd, f.rn, f.rs, f.rm);
    CondIs(w, cond);
    NineRoute(w, pc);
  }

  lemma MultiplyTop(cond: bv4, acc: bool, s: bool, rd: bv4, rn: bv4, rs: bv4, rm: bv4)
    ensures var w := Nibbles(cond, (Flag(acc) << 1) | Flag(s), rd, rn, rs, 9, rm);
            InDpSpace(w) && IsExtension(w) && (w >> 4) & 0xF == 9 && (w >> 23) & 0x1F == 0 && Field4(w, 28) == cond
            && BitOf(w, 21) == acc && BitOf(w, 20) == s
            && Field4(w, 16) == rd && Field4(w, 12) == rn && Field4(w, 8) == rs && Field4(w, 0) == rm
  {}

  lemma MultiplyLongDecodes(f: Form, cond: bv4, pc: Word)
    requires f.MultiplyLong?
    ensures Decode(Assemble(f, cond), pc) == Meaning(f, cond, pc)
  {
    hide Nibbles, Flag, Field4, BitOf, InDpSpace, IsExtension, Decode, DecodeMultiply, DecodeSwap,
      DecodeHalfwordTransfer, CondOf;
    var w := Assemble(f, cond);
    LongTop(cond, f.signed, f.acc, f.s, f.hi, f.lo, f.rs, f.rm);
    CondIs(w, cond);
    NineRoute(w, pc);
  }

  lemma LongTop(cond: bv4, signed: bool, acc: bool, s: bool, hi: bv4, lo: bv4, rs: bv4, rm: bv4)
    ensures var w := Nibbles(cond, 0x08 | (Flag(signed) << 2) | (Flag(acc) << 1) | Flag(s), hi, lo, rs, 9, rm);
            InDpSpace(w) && IsExtension(w) && (w >> 4) & 0xF == 9 && (w >> 23) & 0x1F == 1 && Field4(w, 28) == cond
            && BitOf(w, 22) == signed && BitOf(w, 21) == acc && BitOf(w, 20) == s
            && Field4(w, 16) == hi && Field4(w, 12) == lo && Field4(w, 8) == rs && Field4(w, 0) == rm
  {}

  lemma SwapDecodes(f: Form, cond: bv4, pc: Word)
    requires f.SwapWith?
    ensures Decode(Assemble(f, cond), pc) == Meaning(f, cond, pc)
  {
    hide Nibbles, Flag, Field4, BitOf, InDpSpace, IsExtension, IsSwapSpace, Decode, DecodeExtension, CondOf;
    var w := Assemble(f, cond);
    SwapTop(cond, f.byte, f.rn, f.rd, f.rm);
    CondIs(w, cond);
    NineRoute(w, pc);
    SwapRoute(w, pc);
  }

  predicate IsSwapSpace(w: Word) {
    (w >> 4) & 0xF == 9 && (w >> 23) & 0x1F == 2 && (w >> 20) & 3 == 0
  }

  lemma SwapRoute(w: Word, pc: Word)
    requires IsSwapSpace(w)
    ensures DecodeExtension(w, pc) == DecodeSwap(w, pc)
  {
    hide DecodeMultiply, DecodeMultiplyLong, DecodeHalfwordTransfer, DecodeSwap;
  }

  lemma SwapTop(cond: bv4, byte: bool, rn: bv4, rd: bv4, rm: bv4)
    ensures var w := Nibbles(cond, 0x10 | (Flag(byte) << 2), rn, rd, 0, 9, rm);
            InDpSpace(w) && IsExtension(w) && IsSwapSpace(w) && Field4(w, 28) == cond && BitOf(w, 22) == byte
            && Field4(w, 16) == rn && Field4(w, 12) == rd && Field4(w, 0) == rm
  {}

  // ----- PSR transfers --------------------------------------------------------------------------------------------

  /** TST, TEQ, CMP and CMN without S. */
  predicate InPsrSpace(w: Word) {
    InDpSpace(w) && !IsExtension(w) && !IsBranchExchange(w) && !BitOf(w, 20) && Field4(w, 21) & 0xC == 8
  }

  lemma PsrRoute(w: Word, pc: Word)
    requires InPsrSpace(w)
    ensures Decode(w, pc) == DecodePsrTransfer(w, pc)
  {
    NoPsr(Field4(w, 21));
    DpRoute(w, pc);
    hide IsBranchExchange, InDpSpace, IsExtension, Decode, DecodePsrTransfer, Field4, BitOf;
  }

  lemma ReadPsrFields(cond: bv4, spsr: bool, rd: bv4)
    ensures var w := Nibbles(cond, 0x10 | (Flag(spsr) << 2), 0xF, rd, 0, 0, 0);
            InPsrSpace(w)
            && !BitOf(w, 21) && BitOf(w, 22) == spsr && Field4(w, 28) == cond && Field4(w, 12) == rd
  {}

  lemma WritePsrRegFields(cond: bv4, spsr: bool, mask: bv4, rm: bv4)
    ensures var w := Nibbles(cond, 0x12 | (Flag(spsr) << 2), mask, 0xF, 0, 0, rm);
            InPsrSpace(w)
            && BitOf(w, 21) && !BitOf(w, 25) && BitOf(w, 22) == spsr && Field4(w, 28) == cond && Field4(w, 16) == mask
            && Field4(w, 0) == rm
  {}

  lemma WritePsrImmFields(cond: bv4, spsr: bool, mask: bv4, rot: bv4, imm: bv8)
    ensures var w := Nibbles(cond, 0x32 | (Flag(spsr) << 2), mask, 0xF, rot, High8(imm), Low4(imm));
            InPsrSpace(w)
            && BitOf(w, 21) && BitOf(w, 25) && BitOf(w, 22) == spsr && Field4(w, 28) == cond && Field4(w, 16) == mask
            && ByteField(w) == W8(imm) && RotateField(w) == W4(rot)
  {}

  lemma ReadPsrDecodes(f: Form, cond: bv4, pc: Word)
    requires f.ReadPsr?
    ensures Decode(Assemble(f, cond), pc) == Meaning(f, cond, pc)
  {
    hide Nibbles, Flag, Field4, BitOf, InPsrSpace, Decode, CondOf;
    var w := Assemble(f, cond);
    ReadPsrFields(cond, f.spsr, f.rd);
    CondIs(w, cond);
    PsrRoute(w, pc);
  }

  lemma WritePsrRegDecodes(f: Form, cond: bv4, pc: Word)
    requires f.WritePsrReg?
    ensures Decode(Assemble(f, cond), pc) == Meaning(f, cond, pc)
  {
    hide Nibbles, Flag, Field4, BitOf, InPsrSpace, Decode, CondOf, DecodeOp2;
    var w := Assemble(f, cond);
    WritePsrRegFields(cond, f.spsr, f.mask, f.rm);
    CondIs(w, cond);
    PsrRoute(w, pc);
  }

  lemma ImmOp2(w: Word)
    requires BitOf(w, 25)
    ensures DecodeOp2(w) == ExpandImm(w)
  {
    hide ExpandImm, BitOf, ShiftByImm, KindOf, RegAt;
  }

  lemma PsrImmIs(w: Word, cond: bv4, spsr: bool, mask: bv4, rot: bv4, imm: bv8, pc: Word)
    requires InPsrSpace(w) && BitOf(w, 21) && BitOf(w, 25) && BitOf(w, 22) == spsr
    requires Field4(w, 28) == cond && Field4(w, 16) == mask && ByteField(w) == W8(imm) && RotateField(w) == W4(rot)
    ensures Decode(w, pc) ==
            BLANK.(pc := pc, cond := Condition(cond), op := MSR, psr := PsrTransfer(mask, spsr), op2 := Rotated(rot, imm))
  {
    hide Field4, BitOf, InPsrSpace, Decode, CondOf, DecodeOp2, ExpandImm, Rotated, ByteField, RotateField, W4, W8;
    PsrRoute(w, pc);
    CondIs(w, cond);
    ImmOp2(w);
    RotationIs(w, rot, imm);
  }

  lemma WritePsrImmDecodes(f: Form, cond: bv4, pc: Word)
    requires f.WritePsrImm?
    ensures Decode(Assemble(f, cond), pc) == Meaning(f, cond, pc)
  {
    hide Nibbles, Flag, High8, Low4, Field4, BitOf, InPsrSpace, Decode, Rotated, ByteField, RotateField, W4, W8;
    WritePsrImmFields(cond, f.spsr, f.mask, f.rot, f.imm);
    PsrImmIs(Assemble(f, cond), cond, f.spsr, f.mask, f.rot, f.imm, pc);
  }

  // ----- Round trip -----------------------------------------------------------------------------------------------

  /** Decoding an assembled word gives back the instruction it was assembled from, for every form, every value of
      its fields, every condition and every address. */
  lemma AssembledDecodes(f: Form, cond: bv4, pc: Word)
    requires Encodes(f)
    ensures Decode(Assemble(f, cond), pc) == Meaning(f, cond, pc)
  {
    hide Assemble, Decode, Meaning, Encodes;
    match f
    case DpImm(_, _, _, _, _, _) => DpImmDecodes(f, cond, pc);
    case DpShiftImm(_, _, _, _, _, _, _) => DpShiftImmDecodes(f, cond, pc);
    case DpShiftReg(_, _, _, _, _, _, _) => DpShiftRegDecodes(f, cond, pc);
    case BranchTo(_, _) => BranchDecodes(f, cond, pc);
    case Exchange(_) => ExchangeDecodes(f, cond, pc);
    case TransferImm(_, _, _, _, _, _, _, _, _) => TransferImmDecodes(f, cond, pc);
    case TransferReg(_, _, _, _, _, _, _, _, _, _) => TransferRegDecodes(f, cond, pc);
    case HalfImm(_, _, _, _, _, _, _, _) => HalfImmDecodes(f, cond, pc);
    case HalfReg(_, _, _, _, _, _, _, _) => HalfRegDecodes(f, cond, pc);
    case Block(_, _, _, _, _, _, _) => BlockDecodes(f, cond, pc);
    case SwapWith(_, _, _, _) => SwapDecodes(f, cond, pc);
    case Multiply(_, _, _, _, _, _) => MultiplyDecodes(f, cond, pc);
    case MultiplyLong(_, _, _, _, _, _, _) => MultiplyLongDecodes(f, cond, pc);
    case ReadPsr(_, _) => ReadPsrDecodes(f, cond, pc);
    case WritePsrReg(_, _, _) => WritePsrRegDecodes(f, cond, pc);
    case WritePsrImm(_, _, _, _) => WritePsrImmDecodes(f, cond, pc);
    case Software(_) => SoftwareDecodes(f, cond, pc);
  }

  // ----- The rest of the space --------------------------------------------------------------------------------

  /** The words no instruction of ARMv4T has, as the decoder draws the line: the coprocessor space, register-offset
      transfers with bit 4 set, and the extension space where it is neither multiply nor swap nor a halfword form. */
  predicate Unassigned(w: Word) {
    || (w & 0x0C00_0000 == 0x0C00_0000 && w & 0x0F00_0000 != 0x0F00_0000)
    || w & 0x0E00_0010 == 0x0600_0010
    || (w & 0x0E00_0090 == 0x0000_0090 && UnassignedExtension(w))
  }

  predicate UnassignedExtension(w: Word) {
    if w & 0x60 == 0
    then w & 0x0F80_0000 != 0 && w & 0x0F80_0000 != 0x0080_0000 && w & 0x0FB0_0000 != 0x0100_0000
    else w & 0x0010_0000 == 0 && w & 0x60 != 0x20
  }

  lemma ExtensionUndefined(w: Word, pc: Word)
    requires w & 0x0E00_0090 == 0x0000_0090
    ensures DecodeExtension(w, pc).isUndefined <==> UnassignedExtension(w)
    ensures !DecodeExtension(w, pc).op.SWI?
  {
    hide RegAt, CondOf;
  }

  /** Exactly those words are Undefined, and exactly the 1111 space is SWI. */
  lemma UndefinedWords(w: Word, pc: Word)
    ensures Decode(w, pc).isUndefined <==> Unassigned(w)
    ensures Decode(w, pc).op.SWI? <==> w & 0x0F00_0000 == 0x0F00_0000
  {
    hide RegAt, CondOf, DecodeExtension, UnassignedExtension, DecodeOp2, ShiftByImm, ListOf, BranchOffset, Add, DecodeDataProcessing;
    if w & 0x0E00_0090 == 0x0000_0090 { ExtensionUndefined(w, pc); }
    DpDefined(w, pc);
  }

  lemma DpDefined(w: Word, pc: Word)
    ensures var i := DecodeDataProcessing(w, pc); !i.isUndefined && !i.op.SWI?
  {
    hide CondOf, DecodeOp2, BitOf;
    TablesMatch(Field4(w, 21));
  }
}
