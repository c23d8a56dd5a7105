// ArmCodegen (arm_codegen.cpp): from a decoded instruction to host statements.
module Codegen {
  import opened Words
  import opened Ir
  import opened Host

  /** CodegenCtx. `known` holds the addresses, per instruction set, that have a generated function. */
  datatype Ctx = Ctx(known: set<(Word, bool)>, fnAddr: Word, fnEnd: Word, fnThumb: bool, forceBxReturn: bool)

  // ----- Operands -------------------------------------------------------------------

  /** read_reg_expr: R15 is a literal. */
  function ReadExpr(r: Reg, ins: Instr): Expr {
    if r == 15 then Lit(Add(ins.pc, if ins.thumb then 4 else 8)) else G(r)
  }

  function StmPcLiteral(ins: Instr): Word {
    if !ins.thumb then Add(ins.pc, 12) else Add(And(Add(ins.pc, 4), 0xFFFF_FFFD), 4)
  }

  /** writes_pc_nonbranch. */
  predicate WritesPcNonBranch(ins: Instr) {
    if IsDataProcessing(ins.op) then !IsTest(ins.op) && ins.rd == 15
    else if IsLoad(ins.op) then ins.rd == 15
    else ins.op.LDM? && (EmptyList(ins.block.list) || ins.block.list[15])
  }

  function BitAt(e: Expr, n: Expr): Expr {
    EAnd(EShr(e, n), Lit(1))
  }

  /** `(e & 0x80000000u) ? 0xFFFFFFFFu : 0u`. */
  function SignFill(e: Expr): Expr {
    EIf(TNonZero(EAnd(e, Lit(0x8000_0000))), Lit(0xFFFF_FFFF), Lit(0))
  }

  /** `(e >> n) | (e << (32 - n))`. */
  function RotateExpr(e: Expr, n: Expr): Expr {
    EOr(EShr(e, n), EShl(e, ESub(Lit(32), n)))
  }

  function RrxExpr(e: Expr): Expr {
    EOr(EShr(e, Lit(1)), EShl(CarryBit, Lit(31)))
  }

  /** Assign the operand and its shifter carry. */
  function Operand(value: Expr, carry: Expr): Stmt {
    Seq(SetVar(VOp2, value), SetVar(VCo, carry))
  }

  function RegisterLsl(): Stmt {
    var rm := Var(VRm);
    var cnt := Var(VCnt);
    IfElse(TEq(cnt, Lit(0)), Operand(rm, CarryBit),
    IfElse(TLt(cnt, Lit(32)), Operand(EShl(rm, cnt), BitAt(rm, ESub(Lit(32), cnt))),
    IfElse(TEq(cnt, Lit(32)), Operand(Lit(0), EAnd(rm, Lit(1))),
           Operand(Lit(0), Lit(0)))))
  }

  function RegisterLsr(): Stmt {
    var rm := Var(VRm);
    var cnt := Var(VCnt);
    IfElse(TEq(cnt, Lit(0)), Operand(rm, CarryBit),
    IfElse(TLt(cnt, Lit(32)), Operand(EShr(rm, cnt), BitAt(rm, ESub(cnt, Lit(1)))),
    IfElse(TEq(cnt, Lit(32)), Operand(Lit(0), BitAt(rm, Lit(31))),
           Operand(Lit(0), Lit(0)))))
  }

  function RegisterAsr(): Stmt {
    var rm := Var(VRm);
    var cnt := Var(VCnt);
    IfElse(TEq(cnt, Lit(0)), Operand(rm, CarryBit),
    IfElse(TLt(cnt, Lit(32)), Operand(EAsr(rm, cnt), BitAt(rm, ESub(cnt, Lit(1)))),
           Operand(SignFill(rm), BitAt(rm, Lit(31)))))
  }

  function RegisterRor(): Stmt {
    var rm := Var(VRm);
    var cnt := Var(VCnt);
    var n := EAnd(cnt, Lit(31));
    IfElse(TEq(cnt, Lit(0)), Operand(rm, CarryBit),
    IfElse(TEq(n, Lit(0)), Operand(rm, BitAt(rm, Lit(31))),
           Operand(RotateExpr(rm, n), BitAt(Var(VOp2), Lit(31)))))
  }

  /** Shift by a register: the count is known only when the code runs. */
  function RegisterShiftCode(kind: ShiftType): Stmt {
    match kind
    case LSL => RegisterLsl()
    case LSR => RegisterLsr()
    case ASR => RegisterAsr()
    case ROR => RegisterRor()
    case RRX => Seq(UnimplementedOp, Operand(Lit(0), Lit(0)))
  }

  /** Shift by an immediate: the case is picked now. */
  function ImmediateShiftCode(kind: ShiftType, n: Word): Stmt {
    var rm := Var(VRm);
    match kind
    case LSL =>
      if n == 0 then Operand(rm, CarryBit) else Operand(EShl(rm, Lit(n)), BitAt(rm, Lit(Sub(32, n))))
    case LSR =>
      if n == 0 then Operand(Lit(0), BitAt(rm, Lit(31))) else Operand(EShr(rm, Lit(n)), BitAt(rm, Lit(Sub(n, 1))))
    case ASR =>
      if n == 0 then Operand(SignFill(rm), BitAt(rm, Lit(31))) else Operand(EAsr(rm, Lit(n)), BitAt(rm, Lit(Sub(n, 1))))
    case ROR =>
      if n == 0 then Operand(RrxExpr(rm), EAnd(rm, Lit(1)))
      else Operand(RotateExpr(rm, Lit(n)), BitAt(Var(VOp2), Lit(31)))
    case RRX => Operand(RrxExpr(rm), EAnd(rm, Lit(1)))
  }

  datatype Op2Code = Op2Code(setup: Stmt, value: Expr, carry: Expr)

  function CarryExpr(c: ImmCarry): Expr {
    match c
    case Unchanged => CarryBit
    case Set => Lit(1)
    case Clear => Lit(0)
  }

  /** emit_op2. */
  function EmitOp2(ins: Instr): Op2Code {
    match ins.op2
    case Imm(value, carry) => Op2Code(Skip, Lit(value), CarryExpr(carry))
    case Shifted(sr) =>
      match sr.count
      case ByReg(rs) =>
        var rm := if sr.rm == 15 && !ins.thumb then Lit(Add(ins.pc, 12)) else ReadExpr(sr.rm, ins);
        var count := if rs == 15 then Lit(Add(Add(ins.pc, if ins.thumb then 4 else 8), 4)) else G(rs);
        Op2Code(Seq(SetVar(VRm, rm), Seq(SetVar(VCnt, EAnd(count, Lit(0xFF))), RegisterShiftCode(sr.kind))),
                Var(VOp2), Var(VCo))
      case ByImm(n) =>
        Op2Code(Seq(SetVar(VRm, ReadExpr(sr.rm, ins)), ImmediateShiftCode(sr.kind, n)), Var(VOp2), Var(VCo))
  }

  // ----- Data processing --------------------------------------------------------------

  function RnExpr(ins: Instr): Expr {
    var e := if !ins.thumb && ins.rn == 15 && ShiftedByRegister(ins.op2) then Lit(Add(ins.pc, 12))
             else ReadExpr(ins.rn, ins);
    if ins.thumb && ins.rn == 15 && ins.op2.Imm? then EAnd(e, Lit(0xFFFF_FFFC)) else e
  }

  function ResultExpr(op: IrOp, o: Expr): Expr
    requires IsDataProcessing(op)
  {
    var rn := Var(VRn);
    match op
    case AND | TST => EAnd(rn, o)
    case EOR | TEQ => EXor(rn, o)
    case ORR => EOr(rn, o)
    case BIC => EAnd(rn, ENot(o))
    case MOV => o
    case MVN => ENot(o)
    case ADD | CMN => EAdd(rn, o)
    case SUB | CMP => ESub(rn, o)
    case RSB => ESub(o, rn)
    case ADC => EAdd(EAdd(rn, o), CarryBit)
    case SBC => ESub(ESub(rn, o), ESub(Lit(1), CarryBit))
    case _ => ESub(ESub(o, rn), ESub(Lit(1), CarryBit))
  }

  function FlagCode(op: IrOp, o: Op2Code): Stmt
    requires IsDataProcessing(op)
  {
    var rn := Var(VRn);
    var r := Var(VR);
    if IsLogical(op) then FlagLogic(r, o.carry) else
    match op
    case ADD | CMN => FlagAdd(rn, o.value, r)
    case ADC => FlagAdc(rn, o.value, CarryBit, r)
    case SUB | CMP => FlagSub(rn, o.value, r)
    case SBC => FlagSbc(rn, o.value, CarryBit, r)
    case RSB => FlagSub(o.value, rn, r)
    case _ => FlagSbc(o.value, rn, CarryBit, r)
  }

  /** A PC write: set R15, charge the instruction, leave. */
  function JumpThrough(pc: Expr, cReturn: bool): Stmt {
    Seq(Tick, Seq(if cReturn then ReturnIfCallReturns(pc) else Skip, Seq(Dispatch(pc), Return)))
  }

  predicate IsLrReturn(ins: Instr) {
    ins.op.MOV? && ins.op2.Shifted? && ins.op2.reg.rm == 14 && ins.op2.reg.count == ByImm(0)
  }

  function ExceptionReturnCode(target: Expr): Stmt {
    Seq(Tick, Seq(ReturnException(target), Return))
  }

  function DpFlags(ins: Instr, o: Op2Code): Stmt
    requires IsDataProcessing(ins.op)
  {
    if !ins.setFlags then Skip else
    Seq(if ins.rd == 15 && !IsTest(ins.op) then IfElse(TPrivNonSystem, ExceptionReturnCode(Var(VR)), Skip) else Skip,
    Seq(FlagCode(ins.op, o),
        if ins.rd == 15 && IsTest(ins.op) then IfElse(TPrivNonSystem, RestoreCpsrFromSpsr, Skip) else Skip))
  }

  function DpWriteback(ins: Instr): Stmt {
    if IsTest(ins.op) then Skip
    else if ins.rd == 15 then
      Seq(SetVar(VPc, EAnd(Var(VR), Lit(if ins.thumb then 0xFFFF_FFFE else 0xFFFF_FFFC))),
      Seq(SetG(15, Var(VPc)), JumpThrough(Var(VPc), IsLrReturn(ins))))
    else SetG(ins.rd, Var(VR))
  }

  /** emit_data_processing. */
  function EmitDataProcessing(ins: Instr): Stmt
    requires IsDataProcessing(ins.op)
  {
    var o := EmitOp2(ins);
    Seq(o.setup,
    Seq(if ins.op.MOV? || ins.op.MVN? then Skip else SetVar(VRn, RnExpr(ins)),
    Seq(SetVar(VR, ResultExpr(ins.op, o.value)),
    Seq(DpFlags(ins, o), DpWriteback(ins)))))
  }

  // ----- Branches -----------------------------------------------------------------------

  /** The tail of a link call: a callee that came back anywhere else was a tail transfer. */
  function AfterCall(link: Word): Stmt {
    IfElse(TEq(G(15), Lit(link)), Skip, Seq(CancelCall(link), Return))
  }

  /** emit_direct_branch. */
  function EmitDirectBranch(target: Word, branchPc: Word, isLink: bool, link: Word, thumbLink: bool, ctx: Ctx): Stmt {
    var even := And(link, 0xFFFF_FFFE);
    Seq(if isLink then SetG(14, Lit(if thumbLink then Or(link, 1) else link)) else Skip,
    Seq(SetG(15, Lit(target)),
        if !isLink && AtLeast(target, ctx.fnAddr) && Below(target, ctx.fnEnd) && Below(target, branchPc) then
          Seq(Tick, Goto(target, ctx.fnThumb))
        else if isLink && target == link then Skip
        else
          Seq(if isLink then PushCall(even) else Skip,
          Seq(Tick,
          Seq(if isLink then CycSet(0) else Skip,
          Seq(if !isLink && target == ctx.fnAddr then Skip
              else if (target, ctx.fnThumb) in ctx.known then CallFunction(target, ctx.fnThumb)
              else Dispatch(Lit(target)),
              if isLink then AfterCall(even) else Return))))))
  }

  /** The second half of a THUMB BL: the target is LR plus the offset. */
  function EmitLongSuffix(ins: Instr): Stmt {
    var newLr := Or(Add(ins.pc, 2), 1);
    var even := And(newLr, 0xFFFF_FFFE);
    Seq(SetVar(VBlt, EAnd(EAdd(G(14), Lit(ins.swiImm)), Lit(0xFFFF_FFFE))),
    Seq(SetG(14, Lit(newLr)),
    Seq(SetG(15, Var(VBlt)),
    Seq(PushCall(even),
    Seq(Tick,
    Seq(CycSet(0),
    Seq(Dispatch(Var(VBlt)), AfterCall(even))))))))
  }

  function EmitExchange(ins: Instr, ctx: Ctx): Stmt {
    var cReturn := ins.rm == 14 || ctx.forceBxReturn;
    Seq(SetVar(VBxt, ReadExpr(ins.rm, ins)),
    Seq(SetG(15, EAnd(Var(VBxt), Lit(0xFFFF_FFFE))),
    Seq(Tick,
    Seq(if cReturn then Seq(SetTFrom(Var(VBxt)), ReturnIfCallReturns(G(15))) else Skip,
    Seq(DispatchExchange(Var(VBxt)), Return)))))
  }

  /** emit_branch. */
  function EmitBranch(ins: Instr, ctx: Ctx): Stmt
    requires IsBranch(ins.op)
  {
    match ins.op
    case B => EmitDirectBranch(ins.branchTarget, ins.pc, false, 0, ins.thumb, ctx)
    case BL => EmitDirectBranch(ins.branchTarget, ins.pc, true, Next(ins), ins.thumb, ctx)
    case BL_prefix => SetG(14, Lit(ins.branchTarget))
    case BL_suffix => EmitLongSuffix(ins)
    case _ => EmitExchange(ins, ctx)
  }

  // ----- Single loads and stores ----------------------------------------------------------

  /** The value emit_mem_offset assigns. */
  function OffsetExpr(kind: ShiftType, n: Word): Expr {
    var rm := Var(VMoRm);
    match kind
    case LSL => if n == 0 then rm else EShl(rm, Lit(n))
    case LSR => if n == 0 then Lit(0) else EShr(rm, Lit(n))
    case ASR => if n == 0 then SignFill(rm) else EAsr(rm, Lit(n))
    case ROR => if n == 0 then RrxExpr(rm) else RotateExpr(rm, Lit(n))
    case RRX => RrxExpr(rm)
  }

  /** emit_mem_offset. */
  function EmitMemOffset(ins: Instr): Stmt {
    match ins.mem.offset
    case ImmOffset(imm) => SetVar(VOff, Lit(imm))
    case RegOffset(rm, kind, n) => Seq(SetVar(VMoRm, ReadExpr(rm, ins)), SetVar(VOff, OffsetExpr(kind, n)))
  }

  function AccessBytes(op: IrOp): nat {
    if op.LDRB? || op.STRB? || op.LDRSB? then 1
    else if op.LDRH? || op.STRH? || op.LDRSH? then 2 else 4
  }

  function LoadCode(op: IrOp): Stmt
    requires IsLoad(op)
  {
    var ea := Var(VEa);
    match op
    case LDR =>
      var rot := EMul(EAnd(ea, Lit(3)), Lit(8));
      Seq(SetVar(VRaw, ERead32(EAnd(ea, Lit(0xFFFF_FFFC)))),
          SetVar(VVal, EIf(TEq(rot, Lit(0)), Var(VRaw), RotateExpr(Var(VRaw), rot))))
    case LDRB => SetVar(VVal, ERead8(ea))
    case LDRH =>
      Seq(SetVar(VRaw, ERead16(EAnd(ea, Lit(0xFFFF_FFFE)))),
          SetVar(VVal, EIf(TNonZero(EAnd(ea, Lit(1))),
                           EOr(EShr(Var(VRaw), Lit(8)), EShl(Var(VRaw), Lit(24))), Var(VRaw))))
    case LDRSB => SetVar(VVal, ECast8(ERead8(ea)))
    case _ => SetVar(VVal, EIf(TNonZero(EAnd(ea, Lit(1))), ECast8(ERead8(ea)), ECast16(ERead16(ea))))
  }

  function StoreCode(op: IrOp, v: Expr): Stmt
    requires IsStore(op)
  {
    var ea := Var(VEa);
    match op
    case STR => BusWrite32(EAnd(ea, Lit(0xFFFF_FFFC)), v)
    case STRB => BusWrite8(ea, EAnd(v, Lit(0xFF)))
    case _ => BusWrite16(EAnd(ea, Lit(0xFFFF_FFFE)), EAnd(v, Lit(0xFFFF)))
  }

  function BaseExpr(ins: Instr): Expr {
    var e := ReadExpr(ins.mem.rn, ins);
    if ins.thumb && ins.mem.rn == 15 then EAnd(e, Lit(0xFFFF_FFFC)) else e
  }

  function MemWriteback(ins: Instr): Stmt {
    if ins.mem.writeback || !ins.mem.preIndexed
    then SetG(ins.mem.rn, if ins.mem.preIndexed then Var(VEa) else Var(VPost)) else Skip
  }

  /** The address computation and the access charge. */
  function MemAddressCode(ins: Instr): Stmt {
    var sum := if ins.mem.add then EAdd(Var(VBase), Var(VOff)) else ESub(Var(VBase), Var(VOff));
    Seq(SetVar(VBase, BaseExpr(ins)),
    Seq(EmitMemOffset(ins),
    Seq(SetVar(VEa, if ins.mem.preIndexed then sum else Var(VBase)),
    Seq(SetVar(VPost, sum), CycMem(Var(VEa), AccessBytes(ins.op), false)))))
  }

  function LoadDest(ins: Instr): Stmt {
    if ins.rd == 15 then
      Seq(SetG(15, EAnd(Var(VVal), Lit(0xFFFF_FFFE))),
      Seq(Tick, Seq(Dispatch(EAnd(Var(VVal), Lit(0xFFFF_FFFE))), Return)))
    else SetG(ins.rd, Var(VVal))
  }

  /** emit_memory. */
  function EmitMemory(ins: Instr): Stmt
    requires IsLoad(ins.op) || IsStore(ins.op)
  {
    Seq(MemAddressCode(ins),
        if IsLoad(ins.op) then
          Seq(LoadCode(ins.op),
          Seq(if ins.mem.rn != ins.rd then MemWriteback(ins) else Skip,
              LoadDest(ins)))
        else
          Seq(StoreCode(ins.op, if ins.rd == 15 then Lit(Add(ins.pc, 12)) else G(ins.rd)), MemWriteback(ins)))
  }

  // ----- Block transfer ---------------------------------------------------------------------

  function AlignedAddr(): Expr {
    EAnd(Var(VAddr), Lit(0xFFFF_FFFC))
  }

  /** In a mode with an SPSR, an S bit makes the loaded PC an exception return. */
  function PcCode(ins: Instr): Stmt {
    if ins.block.sBit then IfElse(TPrivNonSystem, ExceptionReturnCode(EAnd(Var(VPc), Lit(0xFFFF_FFFE))), Skip) else Skip
  }

  // An empty list makes one access with a 0x40 stride.

  function EmptySetup(ins: Instr): Stmt {
    var blk := ins.block;
    var base := Var(VBase);
    Seq(SetVar(VBase, G(blk.rn)),
    Seq(SetVar(VAddr, if blk.add then (if blk.preIndexed then EAdd(base, Lit(4)) else base)
                      else ESub(base, Lit(if blk.preIndexed then 0x40 else 0x3C))),
    Seq(SetVar(VFb, if blk.add then EAdd(base, Lit(0x40)) else ESub(base, Lit(0x40))),
        CycMem(AlignedAddr(), 4, false))))
  }

  function EmptyWriteback(ins: Instr): Stmt {
    if ins.block.writeback then SetG(ins.block.rn, Var(VFb)) else Skip
  }

  function EmptyLoad(ins: Instr): Stmt {
    Seq(SetVar(VPc, ERead32(AlignedAddr())),
    Seq(EmptyWriteback(ins),
    Seq(PcCode(ins),
    Seq(SetG(15, EAnd(Var(VPc), Lit(0xFFFF_FFFE))), JumpThrough(G(15), false)))))
  }

  function EmptyStore(ins: Instr): Stmt {
    Seq(BusWrite32(AlignedAddr(), Lit(StmPcLiteral(ins))), EmptyWriteback(ins))
  }

  /** The load or store of one listed register. */
  function TransferCode(ins: Instr, r: Reg): Stmt {
    var blk := ins.block;
    if blk.load then
      if r == 15 then
        Seq(SetVar(VPc, ERead32(AlignedAddr())), Seq(PcCode(ins), SetG(15, EAnd(Var(VPc), Lit(0xFFFF_FFFE)))))
      else if blk.sBit && !blk.list[15] then WriteUser(r, ERead32(AlignedAddr()))
      else SetG(r, ERead32(AlignedAddr()))
    else
      BusWrite32(AlignedAddr(),
                 if r == 15 then Lit(StmPcLiteral(ins))
                 else if blk.writeback && r == blk.rn && AnyBelow(blk.list, r) then Var(VFb)
                 else if blk.sBit then EUserReg(r)
                 else G(r))
  }

  /** What the register loop appends for one listed register. */
  function Turn(ins: Instr, r: Reg): Stmt {
    Seq(CycMem(AlignedAddr(), 4, AnyBelow(ins.block.list, r)),
    Seq(TransferCode(ins, r), SetVar(VAddr, EAdd(Var(VAddr), Lit(4)))))
  }

  /** What the register loop has appended when it reaches register k. */
  function TransfersBelow(ins: Instr, k: nat): Stmt
    requires k <= 16
  {
    if k == 0 then Skip
    else if ins.block.list[k - 1] then Seq(TransfersBelow(ins, k - 1), Turn(ins, k - 1))
    else TransfersBelow(ins, k - 1)
  }

  function BlockSetup(ins: Instr): Stmt {
    var blk := ins.block;
    var base := Var(VBase);
    var bytes := BytesBelow(blk.list, 16);
    Seq(SetVar(VBase, G(blk.rn)),
    Seq(SetVar(VAddr, if blk.add then (if blk.preIndexed then EAdd(base, Lit(4)) else base)
                      else ESub(base, Lit(if blk.preIndexed then bytes else Sub(bytes, 4)))),
        SetVar(VFb, if blk.add then EAdd(base, Lit(bytes)) else ESub(base, Lit(bytes)))))
  }

  function BlockTail(ins: Instr): Stmt {
    var blk := ins.block;
    Seq(if blk.writeback && !(blk.load && blk.list[blk.rn]) then SetG(blk.rn, Var(VFb)) else Skip,
        if blk.load && blk.list[15] then JumpThrough(G(15), blk.rn == 13) else Skip)
  }

  /** emit_block_transfer. */
  function EmitBlockTransfer(ins: Instr): Stmt {
    if EmptyList(ins.block.list) then
      Seq(EmptySetup(ins), if ins.block.load then EmptyLoad(ins) else EmptyStore(ins))
    else Seq(BlockSetup(ins), Seq(TransfersBelow(ins, 16), BlockTail(ins)))
  }

  /** emit_block_transfer's register loop, appending statement by statement. */
  method AppendTransfers(ins: Instr) returns (body: Stmt)
    ensures body == TransfersBelow(ins, 16)
  {
    body := Skip;
    var firstAccess := true;
    for r := 0 to 16
      invariant body == TransfersBelow(ins, r)
      invariant firstAccess == !AnyBelow(ins.block.list, r)
    {
      if ins.block.list[r] {
        body := Seq(body,
                Seq(CycMem(AlignedAddr(), 4, !firstAccess),
                Seq(TransferCode(ins, r), SetVar(VAddr, EAdd(Var(VAddr), Lit(4))))));
        firstAccess := false;
      }
    }
  }

  // ----- Multiply, swap, PSR transfer ----------------------------------------------------------

  /** emit_multiply, the 32-bit forms. */
  function EmitMultiply(ins: Instr): Stmt
    requires ins.op.MUL? || ins.op.MLA?
  {
    var product := EMul(G(ins.rm), G(ins.rs));
    Seq(CycMul(G(if ins.op.MUL? && ins.thumb then ins.rm else ins.rs), true, if ins.op.MUL? then 0 else 1),
    Seq(SetVar(VR, if ins.op.MUL? then product else EAdd(product, G(ins.rn))),
    Seq(SetG(ins.rd, Var(VR)),
        if ins.setFlags then FlagNZ(Var(VR)) else Skip)))
  }

  /** The 64-bit value of the long forms. */
  function LongExpr(ins: Instr): Wide
    requires IsMultiplyLong(ins.op)
  {
    var signed := ins.op.SMULL? || ins.op.SMLAL?;
    var product := if signed then WMul(S64(G(ins.rm)), S64(G(ins.rs))) else WMul(U64(G(ins.rm)), U64(G(ins.rs)));
    if ins.op.UMLAL? || ins.op.SMLAL? then WAdd(WPair(G(ins.rd), G(ins.rn)), product) else product
  }

  /** emit_multiply, the 64-bit forms. */
  function EmitMultiplyLong(ins: Instr): Stmt
    requires IsMultiplyLong(ins.op)
  {
    var signed := ins.op.SMULL? || ins.op.SMLAL?;
    var accumulate := ins.op.UMLAL? || ins.op.SMLAL?;
    Seq(CycMul(G(ins.rs), signed, if accumulate then 2 else 1),
    Seq(SetWide(LongExpr(ins)),
    Seq(SetG(ins.rn, ELo),
    Seq(SetG(ins.rd, EHi),
        if ins.setFlags then FlagNZ64 else Skip))))
  }

  /** emit_swap. */
  function EmitSwap(ins: Instr): Stmt
    requires ins.op.SWP? || ins.op.SWPB?
  {
    if ins.op.SWP? then
      var rot := EMul(EAnd(Var(VAddr), Lit(3)), Lit(8));
      Seq(SetVar(VAddr, G(ins.rn)),
      Seq(SetVar(VOld, ERead32(AlignedAddr())),
      Seq(IfElse(TNonZero(rot), SetVar(VOld, RotateExpr(Var(VOld), rot)), Skip),
      Seq(BusWrite32(AlignedAddr(), G(ins.rm)), SetG(ins.rd, Var(VOld))))))
    else
      Seq(SetVar(VAddr, G(ins.rn)),
      Seq(SetVar(VOld, ERead8(Var(VAddr))),
      Seq(BusWrite8(Var(VAddr), EAnd(G(ins.rm), Lit(0xFF))), SetG(ins.rd, Var(VOld)))))
  }

  /** emit_psr. */
  function EmitPsr(ins: Instr): Stmt
    requires ins.op.MRS? || ins.op.MSR?
  {
    if ins.op.MRS? then SetG(ins.rd, if ins.psr.spsr then EMrsSpsr else EMrsCpsr)
    else
      Seq(SetVar(VMsr, if ins.op2.Imm? then Lit(ins.op2.value) else G(ins.op2.reg.rm)),
          if ins.psr.spsr then WriteMsrSpsr(Var(VMsr), ins.psr.mask) else WriteMsrCpsr(Var(VMsr), ins.psr.mask))
  }

  // ----- One instruction and a block -----------------------------------------------------------

  /** emit_swi. */
  function EmitSwi(ins: Instr): Stmt {
    Seq(SetG(15, Lit(Next(ins))), Seq(SwiCall(ins.swiImm), Return))
  }

  /** The switch of emit_instr; an operation nothing lowers becomes an abort. */
  function EmitOp(ins: Instr, ctx: Ctx): Stmt {
    if IsDataProcessing(ins.op) then EmitDataProcessing(ins)
    else if IsBranch(ins.op) then EmitBranch(ins, ctx)
    else if IsLoad(ins.op) || IsStore(ins.op) then EmitMemory(ins)
    else if ins.op.LDM? || ins.op.STM? then EmitBlockTransfer(ins)
    else if ins.op.MUL? || ins.op.MLA? then EmitMultiply(ins)
    else if IsMultiplyLong(ins.op) then EmitMultiplyLong(ins)
    else if ins.op.SWP? || ins.op.SWPB? then EmitSwap(ins)
    else if ins.op.MRS? || ins.op.MSR? then EmitPsr(ins)
    else if ins.op.SWI? then EmitSwi(ins)
    else Seq(UnimplementedOp, Return)
  }

  /** The statically known part of the cost. */
  function ExecCost(ins: Instr): nat {
    CycleBase(ins.op) + (if ShiftedByRegister(ins.op2) then 1 else 0) + (if WritesPcNonBranch(ins) then 2 else 0)
  }

  function EmitBody(ins: Instr, ctx: Ctx): Stmt {
    Seq(if ins.op.SWI? then Skip else CycSet(ExecCost(ins)), EmitOp(ins, ctx))
  }

  function EmitGuarded(ins: Instr, ctx: Ctx): Stmt {
    if ins.cond.AL? then EmitBody(ins, ctx) else IfElse(TCond(ins.cond), EmitBody(ins, ctx), Skip)
  }

  /** The boundary at the end: R15 to the next instruction, then the accumulated cost. */
  function Epilogue(ins: Instr): Stmt {
    Seq(SetG(15, Lit(Next(ins))), Tick)
  }

  /** emit_instr. */
  function EmitInstr(ins: Instr, ctx: Ctx): Stmt {
    if ins.isUndefined then Seq(UnimplementedOp, Return)
    else if ins.cond.NV? then
      Seq(SetG(15, Lit(ins.pc)), Seq(SetG(15, Lit(Next(ins))), Seq(CycSet(1), Tick)))
    else
      Seq(Seq(SetG(15, Lit(ins.pc)), CycSet(1)), Seq(EmitGuarded(ins, ctx), Epilogue(ins)))
  }

  /** The code emit_block has appended after the first k instructions. */
  function EmitFirst(block: seq<Instr>, ctx: Ctx, k: nat): Stmt
    requires k <= |block|
  {
    if k == 0 then Skip else Seq(EmitFirst(block, ctx, k - 1), EmitInstr(block[k - 1], ctx))
  }

  /** emit_block. */
  method EmitBlock(block: seq<Instr>, ctx: Ctx) returns (code: Stmt)
    ensures code == EmitFirst(block, ctx, |block|)
  {
    code := Skip;
    for k := 0 to |block|
      invariant code == EmitFirst(block, ctx, k)
    {
      code := Seq(code, EmitInstr(block[k], ctx));
    }
  }
}
