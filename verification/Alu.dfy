// Data processing: emit_data_processing against the interpreter's two cases.
module Alu {
  import opened Words
  import opened Ir
  import opened Cpu
  import opened Reference
  import opened RuntimeOps
  import opened Host
  import opened Codegen
  import opened Flags
  import opened Shifter
  import opened BankAgreement
  import opened Lowering

  // ----- Operand 2 ------------------------------------------------------------------

  /** After the setup in y, the value and carry expressions mean v, and go on meaning it while only
      locals other than the operand's change. */
  ghost predicate OperandReady(o: Op2Code, x: State, y: State, v: ShiftResult) {
    && y == x.(vars := y.vars)
    && (o.value == Lit(v.value) || (o.value == Var(VOp2) && VOp2 in y.vars && y.vars[VOp2] == v.value))
    && (o.carry == Lit(v.carry) || (o.carry == Var(VCo) && VCo in y.vars && y.vars[VCo] == v.carry)
        || (o.carry == CarryBit && v.carry == CpsrC(x.m.cpu.cpsr)))
  }

  lemma ReadAgrees(env: Env, r: Reg, ins: Instr, x: State)
    ensures Eval(env, ReadExpr(r, ins), x) == ReadReg(Abs(x.m.cpu), r, ins)
  {
    hide Add, Unpack;
  }

  lemma ByRegisterAgrees(env: Env, ins: Instr, x: State)
    requires x.status.Running? && ins.op2.Shifted? && ins.op2.reg.count.ByReg? && !ins.op2.reg.kind.RRX?
    ensures OperandReady(EmitOp2(ins), x, Exec(env, EmitOp2(ins).setup, x), EvalOp2(Abs(x.m.cpu), ins))
  {
    hide Exec, Eval, Add, And, Unpack, RegisterShiftCode, DoShift;
    var sr := ins.op2.reg;
    var cpu := Abs(x.m.cpu);
    PcPlus12(ins.pc);
    ReadAgrees(env, sr.rm, ins, x);
    SeqRules(env); RunSetVar(env); BitRules(env); LeafRules(env);
    var rm := if !ins.thumb && sr.rm == 15 then Add(ReadReg(cpu, 15, ins), 4) else ReadReg(cpu, sr.rm, ins);
    var count := if sr.count.rs == 15 then Add(PcOperand(ins), 4) else cpu.R[sr.count.rs];
    var x1 := x.(vars := x.vars[VRm := rm]);
    var x2 := x1.(vars := x1.vars[VCnt := And(count, 0xFF)]);
    assert Exec(env, EmitOp2(ins).setup, x) == Exec(env, RegisterShiftCode(sr.kind), x2);
    RegisterShiftAgrees(env, sr.kind, x2);
  }

  lemma ByImmediateAgrees(env: Env, ins: Instr, x: State)
    requires x.status.Running? && ins.op2.Shifted? && ins.op2.reg.count.ByImm? && ShiftOk(ins.op2.reg)
    ensures OperandReady(EmitOp2(ins), x, Exec(env, EmitOp2(ins).setup, x), EvalOp2(Abs(x.m.cpu), ins))
  {
    hide Exec, Eval, Unpack, ImmediateShiftCode, DoShift, ReadReg, ReadExpr;
    var sr := ins.op2.reg;
    ReadAgrees(env, sr.rm, ins, x);
    SeqRules(env); RunSetVar(env);
    var x1 := x.(vars := x.vars[VRm := ReadReg(Abs(x.m.cpu), sr.rm, ins)]);
    ImmediateShiftAgrees(env, sr.kind, sr.count.n, x1);
  }

  /** The shifter operand and its carry-out, for every encoding the decoders produce. */
  lemma Op2Agrees(env: Env, ins: Instr, x: State)
    requires x.status.Running? && Op2Ok(ins.op2)
    ensures OperandReady(EmitOp2(ins), x, Exec(env, EmitOp2(ins).setup, x), EvalOp2(Abs(x.m.cpu), ins))
  {
    match ins.op2
    case Imm(_, _) =>
      hide Exec, Unpack;
      CarryField(x.m.cpu.cpsr);
      ChoiceRules(env);
    case Shifted(sr) =>
      hide Exec, OperandReady, EmitOp2, EvalOp2, Unpack;
      if sr.count.ByReg? { ByRegisterAgrees(env, ins, x); } else { ByImmediateAgrees(env, ins, x); }
  }

  // ----- First operand and result ---------------------------------------------------------

  /** THUMB never reads R15 with an immediate except to ADD, where both sides align it. */
  predicate RnOk(ins: Instr) {
    ins.thumb && ins.rn == 15 && ins.op2.Imm? ==> IsArith(ins.op)
  }

  lemma RnAgrees(env: Env, ins: Instr, x: State)
    requires IsDataProcessing(ins.op) && RnOk(ins) && !ins.op.MOV? && !ins.op.MVN?
    ensures Eval(env, RnExpr(ins), x) == DpRn(Abs(x.m.cpu), ins)
  {
    hide Eval, Add, And, Unpack, ReadExpr, ReadReg;
    PcPlus12(ins.pc);
    ReadAgrees(env, ins.rn, ins, x);
    ReadDef(ins, x);
    BitRules(env); LeafRules(env);
  }

  lemma ReadDef(ins: Instr, x: State)
    ensures ReadReg(Abs(x.m.cpu), 15, ins) == Add(ins.pc, if ins.thumb then 4 else 8)
  {
    hide Add, Unpack;
  }

  function DpResult(op: IrOp, rn: Word, o: Word, c: Word): Word
    requires IsDataProcessing(op)
  {
    if IsLogical(op) then LogicalResult(op, rn, o) else ArithResult(op, rn, o, c).result
  }

  /** In y the locals hold the first operand and operand 2. */
  ghost predicate Loaded(env: Env, op: IrOp, o: Op2Code, y: State, rn: Word, v: Word) {
    && Eval(env, o.value, y) == v
    && (op.MOV? || op.MVN? || Eval(env, Var(VRn), y) == rn)
  }

  lemma LogicalResultAgrees(env: Env, op: IrOp, o: Op2Code, y: State, rn: Word, v: Word)
    requires IsLogical(op) && Loaded(env, op, o, y, rn, v)
    ensures Eval(env, ResultExpr(op, o.value), y) == LogicalResult(op, rn, v)
  {
    hide Eval, And, Or, Xor, Not;
    BitRules(env);
  }

  lemma SumResultAgrees(env: Env, op: IrOp, o: Op2Code, y: State, rn: Word, v: Word)
    requires (op.ADD? || op.CMN? || op.ADC?) && Loaded(env, op, o, y, rn, v)
    ensures Eval(env, ResultExpr(op, o.value), y) == ArithResult(op, rn, v, C01(Unpack(y.m.cpu.cpsr).c)).result
  {
    hide Eval, Add, AddWithCarry, Unpack, C01, CpsrC, FlagsAdd, FlagsAdc;
    var cpsr := y.m.cpu.cpsr;
    var c := Unpack(cpsr).c;
    CarryField(cpsr);
    SumRules(env); LeafRules(env);
    if op.ADC? { AdcAgrees(cpsr, rn, v, c); } else { AddAgrees(cpsr, rn, v); }
  }

  lemma DifferenceResultAgrees(env: Env, op: IrOp, o: Op2Code, y: State, rn: Word, v: Word)
    requires (op.SUB? || op.CMP? || op.RSB?) && Loaded(env, op, o, y, rn, v)
    ensures Eval(env, ResultExpr(op, o.value), y) == ArithResult(op, rn, v, C01(Unpack(y.m.cpu.cpsr).c)).result
  {
    hide Eval, Sub, SubWithCarry, Unpack, C01, FlagsSub;
    SumRules(env); LeafRules(env);
    if op.RSB? { SubAgrees(y.m.cpu.cpsr, v, rn); } else { SubAgrees(y.m.cpu.cpsr, rn, v); }
  }

  lemma BorrowResultAgrees(env: Env, op: IrOp, o: Op2Code, y: State, rn: Word, v: Word)
    requires (op.SBC? || op.RSC?) && Loaded(env, op, o, y, rn, v)
    ensures Eval(env, ResultExpr(op, o.value), y) == ArithResult(op, rn, v, C01(Unpack(y.m.cpu.cpsr).c)).result
  {
    hide Eval, Sub, SubWithCarry, Unpack, C01, CpsrC, FlagsSbc;
    var cpsr := y.m.cpu.cpsr;
    var c := Unpack(cpsr).c;
    CarryField(cpsr);
    SumRules(env); LeafRules(env);
    if op.RSC? { SbcAgrees(cpsr, v, rn, c); } else { SbcAgrees(cpsr, rn, v, c); }
  }

  lemma ArithResultAgrees(env: Env, op: IrOp, o: Op2Code, y: State, rn: Word, v: Word)
    requires IsArith(op) && Loaded(env, op, o, y, rn, v)
    ensures Eval(env, ResultExpr(op, o.value), y) ==
            ArithResult(op, rn, v, C01(Unpack(y.m.cpu.cpsr).c)).result
  {
    hide Eval, Unpack, C01, Loaded, ArithResult, ResultExpr;
    if op.ADD? || op.CMN? || op.ADC? { SumResultAgrees(env, op, o, y, rn, v); }
    else if op.SBC? || op.RSC? { BorrowResultAgrees(env, op, o, y, rn, v); }
    else { DifferenceResultAgrees(env, op, o, y, rn, v); }
  }

  /** The flags an S-suffixed instruction sets, from the state in which its result is known. */
  lemma FlagCodeAgrees(env: Env, ins: Instr, o: Op2Code, y: State, rn: Word, v: ShiftResult)
    requires y.status.Running? && IsDataProcessing(ins.op) && Loaded(env, ins.op, o, y, rn, v.value)
    requires Eval(env, o.carry, y) == v.carry
    requires Eval(env, Var(VR), y) == DpResult(ins.op, rn, v.value, C01(Unpack(y.m.cpu.cpsr).c))
    ensures var z := Exec(env, FlagCode(ins.op, o), y);
            var cpu := Abs(y.m.cpu);
            z == PutCpu(y, z.m.cpu)
            && Abs(z.m.cpu) == (if IsLogical(ins.op) then SetLogicalFlags(cpu, LogicalResult(ins.op, rn, v.value), v.carry)
                                else SetArithFlags(cpu, ArithResult(ins.op, rn, v.value, C01(cpu.cpsr.c))))
  {
    hide Exec, Eval, LogicalResult, Unpack;
    if IsLogical(ins.op) {
      hide ArithResult;
      RunFlagLogic(env);
      UnpackLogic(y.m.cpu.cpsr, LogicalResult(ins.op, rn, v.value), v.carry);
    } else {
      ArithFlagCodeAgrees(env, ins.op, o, y, rn, v.value);
    }
  }

  lemma FlaggedState(y: State, cpsr: Word, f: ArithFlags)
    requires Unpack(cpsr) == WithFlags(Unpack(y.m.cpu.cpsr), f)
    ensures Abs(PutCpsr(y, cpsr).m.cpu) == SetArithFlags(Abs(y.m.cpu), f)
  {
    hide Unpack;
  }

  lemma SumFlagCode(env: Env, op: IrOp, o: Op2Code, y: State, rn: Word, v: Word)
    requires y.status.Running? && (op.ADD? || op.CMN? || op.ADC?) && Loaded(env, op, o, y, rn, v)
    requires Eval(env, Var(VR), y) == ArithResult(op, rn, v, C01(Unpack(y.m.cpu.cpsr).c)).result
    ensures var z := Exec(env, FlagCode(op, o), y);
            z == PutCpu(y, z.m.cpu)
            && Abs(z.m.cpu) == SetArithFlags(Abs(y.m.cpu), ArithResult(op, rn, v, C01(Unpack(y.m.cpu.cpsr).c)))
  {
    hide Exec, Eval, Add, AddWithCarry, Unpack, C01, CpsrC, FlagsAdd, FlagsAdc, SetArithFlags, Abs, WithFlags;
    var cpsr := y.m.cpu.cpsr;
    var c := Unpack(cpsr).c;
    if op.ADC? {
      CarryField(cpsr);
      LeafRules(env);
      RunFlagAdc(env);
      AdcAgrees(cpsr, rn, v, c);
      FlaggedState(y, FlagsAdc(cpsr, rn, v, C01(c), Add(Add(rn, v), C01(c))), AddWithCarry(rn, v, C01(c)));
    } else {
      RunFlagAdd(env);
      AddAgrees(cpsr, rn, v);
      FlaggedState(y, FlagsAdd(cpsr, rn, v, Add(rn, v)), AddWithCarry(rn, v, 0));
    }
  }

  lemma DifferenceFlagCode(env: Env, op: IrOp, o: Op2Code, y: State, rn: Word, v: Word)
    requires y.status.Running? && (op.SUB? || op.CMP? || op.RSB?) && Loaded(env, op, o, y, rn, v)
    requires Eval(env, Var(VR), y) == ArithResult(op, rn, v, C01(Unpack(y.m.cpu.cpsr).c)).result
    ensures var z := Exec(env, FlagCode(op, o), y);
            z == PutCpu(y, z.m.cpu)
            && Abs(z.m.cpu) == SetArithFlags(Abs(y.m.cpu), ArithResult(op, rn, v, C01(Unpack(y.m.cpu.cpsr).c)))
  {
    hide Exec, Eval, Sub, SubWithCarry, Unpack, C01, FlagsSub, SetArithFlags, Abs, WithFlags;
    var cpsr := y.m.cpu.cpsr;
    RunFlagSub(env);
    var a := if op.RSB? then v else rn;
    var b := if op.RSB? then rn else v;
    SubAgrees(cpsr, a, b);
    FlaggedState(y, FlagsSub(cpsr, a, b, Sub(a, b)), SubWithCarry(a, b, 1));
  }

  lemma BorrowFlagCode(env: Env, op: IrOp, o: Op2Code, y: State, rn: Word, v: Word)
    requires y.status.Running? && (op.SBC? || op.RSC?) && Loaded(env, op, o, y, rn, v)
    requires Eval(env, Var(VR), y) == ArithResult(op, rn, v, C01(Unpack(y.m.cpu.cpsr).c)).result
    ensures var z := Exec(env, FlagCode(op, o), y);
            z == PutCpu(y, z.m.cpu)
            && Abs(z.m.cpu) == SetArithFlags(Abs(y.m.cpu), ArithResult(op, rn, v, C01(Unpack(y.m.cpu.cpsr).c)))
  {
    hide Exec, Eval, Sub, SubWithCarry, Unpack, C01, CpsrC, FlagsSbc, SetArithFlags, Abs, WithFlags;
    var cpsr := y.m.cpu.cpsr;
    var c := Unpack(cpsr).c;
    CarryField(cpsr);
    LeafRules(env);
    RunFlagSbc(env);
    var a := if op.RSC? then v else rn;
    var b := if op.RSC? then rn else v;
    SbcAgrees(cpsr, a, b, c);
    FlaggedState(y, FlagsSbc(cpsr, a, b, C01(c), Sub(Sub(a, b), Sub(1, C01(c)))), SubWithCarry(a, b, C01(c)));
  }

  lemma ArithFlagCodeAgrees(env: Env, op: IrOp, o: Op2Code, y: State, rn: Word, v: Word)
    requires y.status.Running? && IsArith(op) && Loaded(env, op, o, y, rn, v)
    requires Eval(env, Var(VR), y) == ArithResult(op, rn, v, C01(Unpack(y.m.cpu.cpsr).c)).result
    ensures var z := Exec(env, FlagCode(op, o), y);
            z == PutCpu(y, z.m.cpu)
            && Abs(z.m.cpu) == SetArithFlags(Abs(y.m.cpu), ArithResult(op, rn, v, C01(Unpack(y.m.cpu.cpsr).c)))
  {
    hide Exec, Eval, Unpack, C01, SetArithFlags, Abs, Loaded, ArithResult, FlagCode;
    if op.ADD? || op.CMN? || op.ADC? { SumFlagCode(env, op, o, y, rn, v); }
    else if op.SBC? || op.RSC? { BorrowFlagCode(env, op, o, y, rn, v); }
    else { DifferenceFlagCode(env, op, o, y, rn, v); }
  }

  // ----- The whole instruction ---------------------------------------------------------------

  /** The state in which both operands and the result are in their locals. */
  ghost function Prepared(env: Env, ins: Instr, x: State): State
    requires IsDataProcessing(ins.op)
  {
    var o := EmitOp2(ins);
    var x1 := Exec(env, o.setup, x);
    var x2 := if ins.op.MOV? || ins.op.MVN? then x1 else Exec(env, SetVar(VRn, RnExpr(ins)), x1);
    Exec(env, SetVar(VR, ResultExpr(ins.op, o.value)), x2)
  }

  lemma Unfolded(env: Env, ins: Instr, x: State)
    requires IsDataProcessing(ins.op) && x.status.Running? && Op2Ok(ins.op2)
    ensures Exec(env, EmitDataProcessing(ins), x) ==
            Exec(env, DpWriteback(ins), Exec(env, DpFlags(ins, EmitOp2(ins)), Prepared(env, ins, x)))
  {
    hide Exec, Eval, EmitOp2, RnExpr, ResultExpr, DpFlags, DpWriteback, EvalOp2;
    Op2Agrees(env, ins, x);
    SeqRules(env); ChoiceRules(env); RunSetVar(env);
  }

  lemma OperandEval(env: Env, o: Op2Code, x: State, y: State, v: ShiftResult)
    requires OperandReady(o, x, y, v)
    ensures Eval(env, o.value, y) == v.value && Eval(env, o.carry, y) == v.carry
  {
    hide Eval, CpsrC;
    LeafRules(env);
  }

  lemma OperandKept(env: Env, o: Op2Code, x: State, y: State, v: ShiftResult, l: Local, w: Word)
    requires OperandReady(o, x, y, v) && l != VOp2 && l != VCo
    ensures OperandReady(o, x, y.(vars := y.vars[l := w]), v)
  {
    hide CpsrC;
  }

  /** First operand, operand 2 and result are the interpreter's. */
  lemma PreparedAgrees(env: Env, ins: Instr, x: State)
    requires IsDataProcessing(ins.op) && x.status.Running? && Op2Ok(ins.op2) && RnOk(ins)
    ensures var o := EmitOp2(ins);
            var y := Prepared(env, ins, x);
            var cpu := Abs(x.m.cpu);
            var v := EvalOp2(cpu, ins);
            var rn := DpRn(cpu, ins);
            y == x.(vars := y.vars) && Loaded(env, ins.op, o, y, rn, v.value) && Eval(env, o.carry, y) == v.carry
            && Eval(env, Var(VR), y) == DpResult(ins.op, rn, v.value, C01(cpu.cpsr.c))
  {
    hide Exec, Eval, EmitOp2, RnExpr, ResultExpr, EvalOp2, DpRn, Unpack, LogicalResult, ArithResult, OperandReady, C01;
    var o := EmitOp2(ins);
    var cpu := Abs(x.m.cpu);
    var v := EvalOp2(cpu, ins);
    var rn := DpRn(cpu, ins);
    Op2Agrees(env, ins, x);
    var x1 := Exec(env, o.setup, x);
    ReadyFrame(o, x, x1, v);
    RunSetVar(env); LeafRules(env);
    var x2 := if ins.op.MOV? || ins.op.MVN? then x1 else x1.(vars := x1.vars[VRn := rn]);
    if !ins.op.MOV? && !ins.op.MVN? {
      RnAgrees(env, ins, x1);
      OperandKept(env, o, x, x1, v, VRn, rn);
    }
    OperandEval(env, o, x, x2, v);
    if IsLogical(ins.op) { LogicalResultAgrees(env, ins.op, o, x2, rn, v.value); }
    else { ArithResultAgrees(env, ins.op, o, x2, rn, v.value); }
    var r := DpResult(ins.op, rn, v.value, C01(cpu.cpsr.c));
    OperandKept(env, o, x, x2, v, VR, r);
    OperandEval(env, o, x, x2.(vars := x2.vars[VR := r]), v);
  }

  lemma ReadyFrame(o: Op2Code, x: State, y: State, v: ShiftResult)
    requires OperandReady(o, x, y, v)
    ensures y == x.(vars := y.vars)
  {}

  function DpFlagged(cpu: CpuState, ins: Instr): CpuState
    requires IsDataProcessing(ins.op)
  {
    var o := EvalOp2(cpu, ins);
    if IsLogical(ins.op) then SetLogicalFlags(cpu, LogicalResult(ins.op, DpRn(cpu, ins), o.value), o.carry)
    else SetArithFlags(cpu, ArithResult(ins.op, DpRn(cpu, ins), o.value, C01(cpu.cpsr.c)))
  }

  function DpValue(cpu: CpuState, ins: Instr): Word
    requires IsDataProcessing(ins.op)
  {
    DpResult(ins.op, DpRn(cpu, ins), EvalOp2(cpu, ins).value, C01(cpu.cpsr.c))
  }

  lemma DpIsFinish(cpu: CpuState, mem: Mem, ins: Instr)
    requires IsDataProcessing(ins.op)
    ensures ExecDataProcessing(cpu, mem, ins) == FinishDp(cpu, mem, DpFlagged(cpu, ins), DpValue(cpu, ins), ins)
  {
    hide EvalOp2, DpRn, LogicalResult, ArithResult, FinishDp, SetLogicalFlags, SetArithFlags, C01;
  }

  /** What the code after the result has to work with. */
  ghost predicate Computed(env: Env, ins: Instr, y: State)
    requires IsDataProcessing(ins.op)
  {
    && y.status.Running? && y.handed.Kept? && y.cyc == ExecCost(ins)
    && VR in y.vars && y.vars[VR] == DpValue(Abs(y.m.cpu), ins)
    && var z := Exec(env, FlagCode(ins.op, EmitOp2(ins)), y);
       z == PutCpu(y, z.m.cpu) && Abs(z.m.cpu) == DpFlagged(Abs(y.m.cpu), ins)
  }

  lemma PreparedComputed(env: Env, ins: Instr, x: State)
    requires AtBody(ins, x) && IsDataProcessing(ins.op) && Op2Ok(ins.op2) && RnOk(ins)
    ensures var y := Prepared(env, ins, x);
            y.m == x.m && y.ticks == x.ticks && Computed(env, ins, y)
  {
    hide Exec, Eval, EmitOp2, EvalOp2, DpRn, Unpack, LogicalResult, ArithResult, FlagCode, C01, Loaded, DpResult,
      Prepared, SetLogicalFlags, SetArithFlags, ExecCost;
    var y := Prepared(env, ins, x);
    var cpu := Abs(x.m.cpu);
    PreparedAgrees(env, ins, x);
    FlagCodeAgrees(env, ins, EmitOp2(ins), y, DpRn(cpu, ins), EvalOp2(cpu, ins));
    HasResult(env, ins, x);
    LeafRules(env);
  }

  lemma HasResult(env: Env, ins: Instr, x: State)
    requires IsDataProcessing(ins.op) && x.status.Running? && Op2Ok(ins.op2)
    ensures VR in Prepared(env, ins, x).vars
  {
    hide Exec, Eval, EmitOp2, RnExpr, ResultExpr, EvalOp2, OperandReady;
    Op2Agrees(env, ins, x);
    ReadyFrame(EmitOp2(ins), x, Exec(env, EmitOp2(ins).setup, x), EvalOp2(Abs(x.m.cpu), ins));
    RunSetVar(env);
  }

  ghost function Tail(env: Env, ins: Instr, y: State): State
    requires IsDataProcessing(ins.op)
  {
    Exec(env, DpWriteback(ins), Exec(env, DpFlags(ins, EmitOp2(ins)), y))
  }

  ghost function DpEffect(ins: Instr, y: State): Effect
    requires IsDataProcessing(ins.op)
  {
    var cpu := Abs(y.m.cpu);
    FinishDp(cpu, y.m.mem, DpFlagged(cpu, ins), DpValue(cpu, ins), ins)
  }

  /** A compare or test naming R15 with S, in a mode that has an SPSR. */
  predicate TestRestores(ins: Instr, cpu: CpuState) {
    IsTest(ins.op) && ins.rd == 15 && ins.setFlags && PrivNonSystem(cpu.cpsr.mode)
  }

  lemma TestTail(env: Env, ins: Instr, y: State)
    requires IsDataProcessing(ins.op) && IsTest(ins.op) && Computed(env, ins, y)
    requires !TestRestores(ins, Abs(y.m.cpu))
    ensures Falls(ins, y, Tail(env, ins, y), DpEffect(ins, y))
  {
    hide Exec, Eval, FlagCode, EmitOp2, Unpack, DpFlagged, DpValue, PrivNonSystem, ModeOf;
    ModeField(y.m.cpu.cpsr);
    ModeKept(ins, Abs(y.m.cpu));
    ModeField(Exec(env, FlagCode(ins.op, EmitOp2(ins)), y).m.cpu.cpsr);
    SeqRules(env); ChoiceRules(env); TestRules(env);
  }

  lemma ModeKept(ins: Instr, cpu: CpuState)
    requires IsDataProcessing(ins.op)
    ensures DpFlagged(cpu, ins).cpsr.mode == cpu.cpsr.mode && DpFlagged(cpu, ins).R == cpu.R
  {
    hide LogicalResult, ArithResult, EvalOp2, DpRn;
  }

  lemma PlainTail(env: Env, ins: Instr, y: State)
    requires IsDataProcessing(ins.op) && !IsTest(ins.op) && ins.rd != 15 && Computed(env, ins, y)
    ensures Falls(ins, y, Tail(env, ins, y), DpEffect(ins, y))
  {
    hide Exec, Eval, FlagCode, EmitOp2, Unpack, DpFlagged, DpValue, PrivNonSystem, ModeOf;
    SeqRules(env); ChoiceRules(env); RunSetG(env); LeafRules(env);
  }

  lemma PcTail(env: Env, ins: Instr, y: State)
    requires IsDataProcessing(ins.op) && !IsTest(ins.op) && ins.rd == 15 && Computed(env, ins, y)
    requires !(ins.setFlags && PrivNonSystem(y.m.cpu.cpsr & 0x1F))
    ensures Leaves(ins, y, Tail(env, ins, y), DpEffect(ins, y))
  {
    hide Exec, Eval, FlagCode, EmitOp2, Unpack, DpFlagged, DpValue, PrivNonSystem, ModeOf, And, DpWriteback, ToItsPc;
    ModeField(y.m.cpu.cpsr);
    ModeDef(y.m.cpu.cpsr);
    SeqRules(env); ChoiceRules(env); TestRules(env);
    PcWriteback(env, ins, Exec(env, DpFlags(ins, EmitOp2(ins)), y));
  }

  lemma PcWriteback(env: Env, ins: Instr, z: State)
    requires !IsTest(ins.op) && ins.rd == 15 && z.status.Running? && z.handed.Kept? && VR in z.vars
    ensures TickedOut(PutReg(z, 15, And(z.vars[VR], if ins.thumb then 0xFFFF_FFFE else 0xFFFF_FFFC)),
                      Exec(env, DpWriteback(ins), z))
  {
    hide Exec, Eval, And, JumpThrough, IsLrReturn, ToItsPc;
    SeqRules(env); RunSetVar(env); RunSetG(env); LeafRules(env); BitRules(env);
    var pc := And(z.vars[VR], if ins.thumb then 0xFFFF_FFFE else 0xFFFF_FFFC);
    JumpLeaves(env, Var(VPc), IsLrReturn(ins), PutReg(z.(vars := z.vars[VPc := pc]), 15, pc));
  }

  lemma ModeDef(psr: Word)
    ensures ModeOf(psr) == psr & 0x1F
  {}

  lemma ExceptionTail(env: Env, ins: Instr, y: State)
    requires IsDataProcessing(ins.op) && !IsTest(ins.op) && ins.rd == 15 && Computed(env, ins, y)
    requires ins.setFlags && PrivNonSystem(y.m.cpu.cpsr & 0x1F)
    ensures Leaves(ins, y, Tail(env, ins, y), DpEffect(ins, y))
  {
    hide Exec, Eval, FlagCode, EmitOp2, Unpack, DpFlagged, DpValue, PrivNonSystem, ModeOf, And, JumpThrough,
      ExceptionReturnCode, ReturnFromException, ExceptionReturn;
    ModeField(y.m.cpu.cpsr);
    ModeDef(y.m.cpu.cpsr);
    SeqRules(env); ChoiceRules(env); TestRules(env); LeafRules(env);
    ExceptionLeaves(env, Var(VR), y);
    ReturnAgrees(y.m.cpu, y.vars[VR]);
  }

  /** Setting flags first makes no difference to an SPSR restore, which replaces them. */
  lemma FlagsOverwritten(ins: Instr, cpu: CpuState)
    requires IsDataProcessing(ins.op) && PrivNonSystem(cpu.cpsr.mode)
    ensures RestoreCpsr(DpFlagged(cpu, ins)) == RestoreCpsr(cpu)
  {
    hide LogicalResult, ArithResult, EvalOp2, DpRn, Unpack, SwitchBanks, ModeToBank;
    OnlyCpsr(ins, cpu);
  }

  lemma OnlyCpsr(ins: Instr, cpu: CpuState)
    requires IsDataProcessing(ins.op)
    ensures var f := DpFlagged(cpu, ins); f == cpu.(cpsr := f.cpsr) && f.cpsr.mode == cpu.cpsr.mode
  {
    hide LogicalResult, ArithResult, EvalOp2, DpRn;
  }

  lemma TestRestoreTail(env: Env, ins: Instr, y: State)
    requires IsDataProcessing(ins.op) && Computed(env, ins, y) && TestRestores(ins, Abs(y.m.cpu))
    ensures Falls(ins, y, Tail(env, ins, y), Plain(RestoreCpsr(Abs(y.m.cpu)), y.m.mem))
  {
    hide Exec, Eval, FlagCode, EmitOp2, Unpack, DpFlagged, DpValue, PrivNonSystem, ModeOf, RestoreCpsr, RestoreFromSpsr;
    var z := Exec(env, FlagCode(ins.op, EmitOp2(ins)), y);
    ModeField(y.m.cpu.cpsr);
    ModeKept(ins, Abs(y.m.cpu));
    ModeField(z.m.cpu.cpsr);
    SeqRules(env); ChoiceRules(env); TestRules(env); RunRestore(env);
    RestoreAgrees(z.m.cpu);
    FlagsOverwritten(ins, Abs(y.m.cpu));
  }

  /** Data processing in the emitted code: a test that names R15 with S restores the SPSR, which the
      interpreter, taking it for an exception return without a destination, does not. */
  function EmittedDp(cpu: CpuState, mem: Mem, ins: Instr): Effect
    requires IsDataProcessing(ins.op)
  {
    if TestRestores(ins, cpu) then Plain(RestoreCpsr(cpu), mem) else ExecDataProcessing(cpu, mem, ins)
  }

  /** Data processing, flags and PC writes included: a PC write leaves, everything else falls through. */
  lemma DataProcessingAgrees(env: Env, ins: Instr, x: State)
    requires AtBody(ins, x) && IsDataProcessing(ins.op) && Op2Ok(ins.op2) && RnOk(ins)
    ensures var e := EmittedDp(Abs(x.m.cpu), x.m.mem, ins);
            var y := Exec(env, EmitDataProcessing(ins), x);
            if e.wrotePc then Leaves(ins, x, y, e) else Falls(ins, x, y, e)
  {
    hide Exec, Computed, DpFlagged, DpValue, Prepared, PrivNonSystem, Abs, FlagCode, EmitOp2, RestoreCpsr;
    var y := Prepared(env, ins, x);
    Unfolded(env, ins, x);
    PreparedComputed(env, ins, x);
    DpIsFinish(Abs(x.m.cpu), x.m.mem, ins);
    if TestRestores(ins, Abs(y.m.cpu)) { TestRestoreTail(env, ins, y); }
    else if IsTest(ins.op) { TestTail(env, ins, y); }
    else if ins.rd != 15 { PlainTail(env, ins, y); }
    else if ins.setFlags && PrivNonSystem(y.m.cpu.cpsr & 0x1F) { ExceptionTail(env, ins, y); }
    else { PcTail(env, ins, y); }
  }
}
