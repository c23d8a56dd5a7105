// Multiplies, swaps and PSR transfers: emitted code against the interpreter's cases.
module Arithmetic {
  import opened Words
  import opened Ir
  import opened Cpu
  import opened Reference
  import opened RuntimeOps
  import opened Host
  import opened Codegen
  import opened Flags
  import opened Shifter
  import opened BankAgreement
  import opened Lowering
  import opened Transfers

  // ----- Multiply ------------------------------------------------------------------------

  lemma SetNZAgrees(p: Packed, r: Word)
    ensures Abs(p.(cpsr := FlagsNZ(p.cpsr, r))) == SetNZ(Abs(p), SignBit(r), IsZero(r))
  {
    hide Unpack, FlagsNZ, SignBit, IsZero;
    UnpackNZ(p.cpsr, r);
  }

  function Product(cpu: Regs, ins: Instr): Word {
    var p := Mul(cpu[ins.rm], cpu[ins.rs]);
    if ins.op.MUL? then p else Add(p, cpu[ins.rn])
  }

  function WaitRegister(ins: Instr): Reg {
    if ins.op.MUL? && ins.thumb then ins.rm else ins.rs
  }

  lemma MultiplyRuns(env: Env, ins: Instr, x: State)
    requires x.status.Running? && (ins.op.MUL? || ins.op.MLA?)
    ensures var y := Exec(env, EmitMultiply(ins), x);
            var r := Product(x.m.cpu.R, ins);
            var cpu := PutReg(x, ins.rd, r).m.cpu;
            y.m == x.m.(cpu := if ins.setFlags then cpu.(cpsr := FlagsNZ(cpu.cpsr, r)) else cpu)
            && y == x.(m := y.m, vars := y.vars,
                       cyc := x.cyc + MulWait(x.m.cpu.R[WaitRegister(ins)], true, if ins.op.MUL? then 0 else 1))
  {
    hide Exec, Eval, Unpack, Mul, Add, MulWait, FlagsNZ;
    SeqRules(env); ChoiceRules(env); RunCycMul(env); RunSetVar(env); RunSetG(env); RunFlagNZ(env);
    LeafRules(env); SumRules(env);
  }

  lemma MultiplyAgrees(env: Env, ins: Instr, x: State)
    requires AtBody(ins, x) && (ins.op.MUL? || ins.op.MLA?)
    ensures Falls(ins, x, Exec(env, EmitMultiply(ins), x), ExecMultiply(Abs(x.m.cpu), x.m.mem, ins))
  {
    hide Exec, EmitMultiply, Unpack, Mul, Add, MulWait, FlagsNZ, SignBit, IsZero, SetNZ;
    MultiplyRuns(env, ins, x);
    var r := Product(x.m.cpu.R, ins);
    SetNZAgrees(PutReg(x, ins.rd, r).m.cpu, r);
  }

  /** The 64-bit expression means the interpreter's product. */
  lemma WideAgrees(env: Env, ins: Instr, x: State)
    requires IsMultiplyLong(ins.op)
    ensures EvalWide(env, LongExpr(ins), x) == LongProduct(Abs(x.m.cpu), ins)
  {
    hide Unpack, Mul64, Add64, ZExt64, SExt64, Pair64;
    var rm := x.m.cpu.R[ins.rm];
    var rs := x.m.cpu.R[ins.rs];
    assert EvalWide(env, U64(G(ins.rm)), x) == ZExt64(rm) && EvalWide(env, U64(G(ins.rs)), x) == ZExt64(rs);
    assert EvalWide(env, S64(G(ins.rm)), x) == SExt64(rm) && EvalWide(env, S64(G(ins.rs)), x) == SExt64(rs);
  }

  lemma SetNZ64Agrees(p: Packed, u: bv64)
    ensures Abs(p.(cpsr := FlagsNZ64(p.cpsr, u))) == SetNZ(Abs(p), Bit63(u), IsZero64(u))
  {
    hide Unpack, FlagsNZ64, Bit63, IsZero64;
    UnpackNZ64(p.cpsr, u);
  }

  lemma MultiplyLongAgrees(env: Env, ins: Instr, x: State)
    requires AtBody(ins, x) && IsMultiplyLong(ins.op)
    ensures Falls(ins, x, Exec(env, EmitMultiplyLong(ins), x), ExecMultiplyLong(Abs(x.m.cpu), x.m.mem, ins))
  {
    hide Exec, Eval, EvalWide, LongExpr, LongProduct, Unpack, MulWait, FlagsNZ64, Bit63, IsZero64, SetNZ, Lo32, Hi32;
    WideAgrees(env, ins, x);
    var u := LongProduct(Abs(x.m.cpu), ins);
    SeqRules(env); ChoiceRules(env); RunCycMul(env); RunSetWide(env); RunSetG(env); RunFlagNZ64(env);
    LeafRules(env); SystemRules(env);
    WideIgnoresCycles(env, ins, x);
    SetNZ64Agrees(x.m.cpu.(R := x.m.cpu.R[ins.rn := Lo32(u)][ins.rd := Hi32(u)]), u);
  }

  lemma WideIgnoresCycles(env: Env, ins: Instr, x: State)
    requires IsMultiplyLong(ins.op)
    ensures forall n: nat {:trigger EvalWide(env, LongExpr(ins), x.(cyc := n))} ::
      EvalWide(env, LongExpr(ins), x.(cyc := n)) == EvalWide(env, LongExpr(ins), x)
  {
    forall n: nat ensures EvalWide(env, LongExpr(ins), x.(cyc := n)) == EvalWide(env, LongExpr(ins), x) {
      WideAgrees(env, ins, x);
      WideAgrees(env, ins, x.(cyc := n));
    }
  }

  // ----- Swap ------------------------------------------------------------------------------

  /** The unaligned word is rotated in place. */
  lemma SwapRotates(env: Env, s: State)
    requires s.status.Running? && VAddr in s.vars && VOld in s.vars
    ensures var rot := EMul(EAnd(Var(VAddr), Lit(3)), Lit(8));
            Exec(env, IfElse(TNonZero(rot), SetVar(VOld, RotateExpr(Var(VOld), rot)), Skip), s) ==
            s.(vars := s.vars[VOld := Rotr32(s.vars[VOld], Mul(And(s.vars[VAddr], 3), 8))])
  {
    hide Exec, Eval, EvalTest, And, Mul, Rotate, RotateExpr;
    ChoiceRules(env); TestRules(env); RunSetVar(env); LeafRules(env); SumRules(env); BitRules(env);
    RotationCount(s.vars[VAddr]);
    var rot := EMul(EAnd(Var(VAddr), Lit(3)), Lit(8));
    if Eval(env, rot, s) != 0 { RotateValue(env, Var(VOld), rot, s); }
    assert s.vars == s.vars[VOld := s.vars[VOld]];
  }

  lemma SwapWordRuns(env: Env, ins: Instr, x: State)
    requires x.status.Running? && ins.op.SWP?
    ensures var y := Exec(env, EmitSwap(ins), x);
            var addr := x.m.cpu.R[ins.rn];
            var was := Rotr32(Read32(x.m.mem, Align4(addr)), Mul(And(addr, 3), 8));
            y.m == x.m.(cpu := PutReg(x, ins.rd, was).m.cpu, mem := Write32(x.m.mem, Align4(addr), x.m.cpu.R[ins.rm]))
            && y == x.(m := y.m, vars := y.vars)
  {
    hide Exec, Eval, And, Mul, Rotr32, RotateExpr, Read32, Write32;
    SeqRules(env); RunSetVar(env); RunSetG(env); RunWrite32(env); LeafRules(env); BitRules(env); Read32Rule(env);
    var addr := x.m.cpu.R[ins.rn];
    var x1 := x.(vars := x.vars[VAddr := addr]);
    var x2 := x1.(vars := x1.vars[VOld := Read32(x.m.mem, Align4(addr))]);
    SwapRotates(env, x2);
  }

  lemma SwapWordAgrees(env: Env, ins: Instr, x: State)
    requires AtBody(ins, x) && ins.op.SWP?
    ensures Falls(ins, x, Exec(env, EmitSwap(ins), x), ExecSwap(Abs(x.m.cpu), x.m.mem, ins))
  {
    hide Exec, EmitSwap, Unpack, And, Mul, Rotr32, Read32, Write32;
    SwapWordRuns(env, ins, x);
  }

  lemma SwapByteAgrees(env: Env, ins: Instr, x: State)
    requires AtBody(ins, x) && ins.op.SWPB?
    ensures Falls(ins, x, Exec(env, EmitSwap(ins), x), ExecSwap(Abs(x.m.cpu), x.m.mem, ins))
  {
    hide Exec, Eval, Unpack, And, Read8, Write8, FromByte, Low8;
    SeqRules(env); RunSetVar(env); RunSetG(env); RunWrite8(env); LeafRules(env); BitRules(env); Read8Rule(env);
    LowBytes(x.m.cpu.R[ins.rm]);
  }

  // ----- PSR transfer ------------------------------------------------------------------------

  /** A PSR transfer in the emitted code: MRS reads the whole CPSR word, MSR to an SPSR is dropped where
      there is none. */
  function EmittedPsr(p: Packed, mem: Mem, ins: Instr): Effect
    requires ins.op.MRS? || ins.op.MSR?
  {
    var cpu := Abs(p);
    if ins.op.MRS? && !ins.psr.spsr then Plain(SetReg(cpu, ins.rd, p.cpsr), mem)
    else if ins.op.MSR? && ins.psr.spsr && ModeToBank(cpu.cpsr.mode) == BANK_USER then Plain(cpu, mem)
    else ExecPsr(cpu, mem, ins)
  }

  lemma MrsAgrees(env: Env, ins: Instr, x: State)
    requires AtBody(ins, x) && ins.op.MRS?
    ensures Falls(ins, x, Exec(env, EmitPsr(ins), x), EmittedPsr(x.m.cpu, x.m.mem, ins))
  {
    hide Exec, Eval, Unpack, Pack, ModeToBank;
    ModeField(x.m.cpu.cpsr);
    RunSetG(env); SystemRules(env);
  }

  function MsrExpr(ins: Instr): Expr {
    if ins.op2.Imm? then Lit(ins.op2.value) else G(ins.op2.reg.rm)
  }

  lemma MsrValue(env: Env, ins: Instr, x: State)
    ensures Eval(env, MsrExpr(ins), x) == MsrSource(Abs(x.m.cpu), ins)
  {
    hide Eval, Unpack;
    LeafRules(env);
  }

  lemma PsrCost(ins: Instr, e: Effect)
    requires (ins.op.MRS? || ins.op.MSR?) && e.memCycles == 0 && e.extraCycles == 0 && !e.wrotePc
    ensures Cycles(ins, e) == ExecCost(ins)
  {}

  lemma MsrAgrees(env: Env, ins: Instr, x: State)
    requires AtBody(ins, x) && ins.op.MSR?
    ensures Falls(ins, x, Exec(env, EmitPsr(ins), x), EmittedPsr(x.m.cpu, x.m.mem, ins))
  {
    hide Exec, Eval, Unpack, Merge, ByteMask, ModeToBank, MsrCpsr, WriteCpsr, MsrSource, Cycles, ExecCost;
    PsrCost(ins, EmittedPsr(x.m.cpu, x.m.mem, ins));
    ModeField(x.m.cpu.cpsr);
    MsrValue(env, ins, x);
    var v := MsrSource(Abs(x.m.cpu), ins);
    SeqRules(env); RunSetVar(env); RunMsrCpsr(env); RunMsrSpsr(env); LeafRules(env);
    MsrCpsrAgrees(x.m.cpu, v, ins.psr.mask);
  }
}
