// The emitted shifter code against do_shift.
module Shifter {
  import opened Words
  import opened Ir
  import opened Cpu
  import opened Reference
  import opened RuntimeOps
  import opened Host
  import opened Codegen
  import opened Flags

  /** What the decoders produce: an immediate count below 32, never ROR #0, and RRX only as an immediate. */
  predicate ShiftOk(sr: ShiftedRegister) {
    match sr.count
    case ByImm(n) => n < 32 && (sr.kind.ROR? ==> n != 0)
    case ByReg(_) => !sr.kind.RRX?
  }

  predicate Op2Ok(o: Op2) {
    o.Shifted? ==> ShiftOk(o.reg)
  }

  lemma CountBounds(n: Word)
    requires 0 < n < 32
    ensures Sub(32, n) < 32 && Sub(n, 1) < 32
  {}

  lemma SignByMask(w: Word)
    ensures And(w, 0x8000_0000) != 0 <==> SignBit(w)
  {}

  lemma LowCount(w: Word)
    ensures And(w, 31) < 32
  {}

  /** The state in which the setup of operand 2 has run: only the two locals are new. */
  ghost predicate HoldsOperand(env: Env, s: State, t: State, value: Word, carry: Word) {
    && t == s.(vars := t.vars)
    && VOp2 in t.vars && t.vars[VOp2] == value
    && VCo in t.vars && t.vars[VCo] == carry
  }

  lemma OperandRuns(env: Env, s: State, value: Expr, carry: Expr, v: Word, c: Word)
    requires s.status.Running?
    requires Eval(env, value, s) == v
    requires Eval(env, carry, s.(vars := s.vars[VOp2 := v])) == c
    ensures HoldsOperand(env, s, Exec(env, Operand(value, carry), s), v, c)
  {
    hide Exec, Eval;
    SeqRules(env);
    RunSetVar(env);
  }

  /** What the register shifts start from. */
  ghost predicate Ready(s: State) {
    s.status.Running? && VRm in s.vars && VCnt in s.vars
  }

  function ByRegister(s: State, kind: ShiftType): ShiftResult
    requires Ready(s)
  {
    DoShift(s.vars[VRm], kind, s.vars[VCnt], false, Unpack(s.m.cpu.cpsr).c)
  }

  lemma LslByRegister(env: Env, s: State)
    requires Ready(s)
    ensures HoldsOperand(env, s, Exec(env, RegisterLsl(), s), ByRegister(s, LSL).value, ByRegister(s, LSL).carry)
  {
    hide Exec, Eval, EvalTest, And, Or, Shl, Shr, Asr, Sub, SignBit, CpsrC, C01, Unpack;
    var cnt := s.vars[VCnt];
    var sh := ByRegister(s, LSL);
    CarryField(s.m.cpu.cpsr);
    ChoiceRules(env); TestRules(env); LeafRules(env); BitRules(env); SumRules(env); ShiftRules(env);
    if cnt == 0 {
      OperandRuns(env, s, Var(VRm), CarryBit, sh.value, sh.carry);
    } else if cnt < 32 {
      CountBounds(cnt);
      OperandRuns(env, s, EShl(Var(VRm), Var(VCnt)), BitAt(Var(VRm), ESub(Lit(32), Var(VCnt))), sh.value, sh.carry);
    } else if cnt == 32 {
      OperandRuns(env, s, Lit(0), EAnd(Var(VRm), Lit(1)), sh.value, sh.carry);
    } else {
      OperandRuns(env, s, Lit(0), Lit(0), sh.value, sh.carry);
    }
  }

  lemma LsrByRegister(env: Env, s: State)
    requires Ready(s)
    ensures HoldsOperand(env, s, Exec(env, RegisterLsr(), s), ByRegister(s, LSR).value, ByRegister(s, LSR).carry)
  {
    hide Exec, Eval, EvalTest, And, Or, Shl, Shr, Asr, Sub, SignBit, CpsrC, C01, Unpack;
    var cnt := s.vars[VCnt];
    var sh := ByRegister(s, LSR);
    CarryField(s.m.cpu.cpsr);
    ChoiceRules(env); TestRules(env); LeafRules(env); BitRules(env); SumRules(env); ShiftRules(env);
    if cnt == 0 {
      OperandRuns(env, s, Var(VRm), CarryBit, sh.value, sh.carry);
    } else if cnt < 32 {
      CountBounds(cnt);
      OperandRuns(env, s, EShr(Var(VRm), Var(VCnt)), BitAt(Var(VRm), ESub(Var(VCnt), Lit(1))), sh.value, sh.carry);
    } else if cnt == 32 {
      OperandRuns(env, s, Lit(0), BitAt(Var(VRm), Lit(31)), sh.value, sh.carry);
    } else {
      OperandRuns(env, s, Lit(0), Lit(0), sh.value, sh.carry);
    }
  }

  lemma SignFillValue(env: Env, e: Expr, s: State)
    ensures Eval(env, SignFill(e), s) == if SignBit(Eval(env, e, s)) then 0xFFFF_FFFF else 0
  {
    hide Eval, EvalTest, SignBit, And;
    SignByMask(Eval(env, e, s));
    IfRule(env); TestRules(env); BitRules(env); LeafRules(env);
  }

  lemma AsrByRegister(env: Env, s: State)
    requires Ready(s)
    ensures HoldsOperand(env, s, Exec(env, RegisterAsr(), s), ByRegister(s, ASR).value, ByRegister(s, ASR).carry)
  {
    hide Exec, Eval, EvalTest, And, Or, Shl, Shr, Asr, Sub, SignBit, SignFill, CpsrC, C01, Unpack;
    var cnt := s.vars[VCnt];
    var sh := ByRegister(s, ASR);
    CarryField(s.m.cpu.cpsr);
    ChoiceRules(env); TestRules(env); LeafRules(env); BitRules(env); SumRules(env); ShiftRules(env); AsrRule(env);
    if cnt == 0 {
      OperandRuns(env, s, Var(VRm), CarryBit, sh.value, sh.carry);
    } else if cnt < 32 {
      CountBounds(cnt);
      OperandRuns(env, s, EAsr(Var(VRm), Var(VCnt)), BitAt(Var(VRm), ESub(Var(VCnt), Lit(1))), sh.value, sh.carry);
    } else {
      SignFillValue(env, Var(VRm), s);
      OperandRuns(env, s, SignFill(Var(VRm)), BitAt(Var(VRm), Lit(31)), sh.value, sh.carry);
    }
  }

  lemma RotateValue(env: Env, e: Expr, n: Expr, s: State)
    requires 0 < Eval(env, n, s) < 32
    ensures Eval(env, RotateExpr(e, n), s) == Rotate(Eval(env, e, s), Eval(env, n, s))
  {
    hide Eval, Or, Shl, Shr, Sub;
    CountBounds(Eval(env, n, s));
    BitRules(env); SumRules(env); ShiftRules(env); LeafRules(env);
  }

  lemma RorByRegister(env: Env, s: State)
    requires Ready(s)
    ensures HoldsOperand(env, s, Exec(env, RegisterRor(), s), ByRegister(s, ROR).value, ByRegister(s, ROR).carry)
  {
    hide Exec, Eval, EvalTest, And, Or, Shl, Shr, Sub, Rotate, RotateExpr, CpsrC, C01, Unpack;
    var cnt := s.vars[VCnt];
    var sh := ByRegister(s, ROR);
    var n := EAnd(Var(VCnt), Lit(31));
    CarryField(s.m.cpu.cpsr);
    LowCount(cnt);
    ChoiceRules(env); TestRules(env); LeafRules(env); BitRules(env); ShiftRules(env);
    if cnt == 0 {
      OperandRuns(env, s, Var(VRm), CarryBit, sh.value, sh.carry);
    } else if And(cnt, 31) == 0 {
      OperandRuns(env, s, Var(VRm), BitAt(Var(VRm), Lit(31)), sh.value, sh.carry);
    } else {
      RotateValue(env, Var(VRm), n, s);
      OperandRuns(env, s, RotateExpr(Var(VRm), n), BitAt(Var(VOp2), Lit(31)), sh.value, sh.carry);
    }
  }

  /** Register-specified shifts: whatever the count, the branch taken computes do_shift. */
  lemma RegisterShiftAgrees(env: Env, kind: ShiftType, s: State)
    requires Ready(s) && !kind.RRX?
    ensures HoldsOperand(env, s, Exec(env, RegisterShiftCode(kind), s), ByRegister(s, kind).value, ByRegister(s, kind).carry)
  {
    hide Exec, HoldsOperand, ByRegister, RegisterLsl, RegisterLsr, RegisterAsr, RegisterRor;
    match kind
    case LSL => LslByRegister(env, s);
    case LSR => LsrByRegister(env, s);
    case ASR => AsrByRegister(env, s);
    case ROR => RorByRegister(env, s);
  }

  /** `(rm >> 1) | (cpsr_c() << 31)`. */
  lemma RrxValue(env: Env, e: Expr, s: State)
    ensures Eval(env, RrxExpr(e), s) == Or(Shr(Eval(env, e, s), 1), Shl(CpsrC(s.m.cpu.cpsr), 31))
  {
    hide Eval, Or, Shl, Shr, CpsrC;
    BitRules(env); ShiftRules(env); LeafRules(env);
  }

  function ByImmediate(s: State, kind: ShiftType, n: Word): ShiftResult
    requires VRm in s.vars
  {
    DoShift(s.vars[VRm], kind, n, n == 0, Unpack(s.m.cpu.cpsr).c)
  }

  lemma ImmediateLeft(env: Env, n: Word, s: State)
    requires s.status.Running? && VRm in s.vars && n < 32
    ensures HoldsOperand(env, s, Exec(env, ImmediateShiftCode(LSL, n), s),
                         ByImmediate(s, LSL, n).value, ByImmediate(s, LSL, n).carry)
  {
    hide Exec, Eval, EvalTest, And, Or, Shl, Shr, Asr, Sub, SignBit, SignFill, Rotate, RotateExpr, RrxExpr, CpsrC, C01,
      Unpack;
    var sh := ByImmediate(s, LSL, n);
    var rm := Var(VRm);
    CarryField(s.m.cpu.cpsr);
    LeafRules(env); BitRules(env); ShiftRules(env);
    if n == 0 {
      OperandRuns(env, s, rm, CarryBit, sh.value, sh.carry);
    } else {
      CountBounds(n);
      OperandRuns(env, s, EShl(rm, Lit(n)), BitAt(rm, Lit(Sub(32, n))), sh.value, sh.carry);
    }
  }

  lemma ImmediateRight(env: Env, n: Word, s: State)
    requires s.status.Running? && VRm in s.vars && n < 32
    ensures HoldsOperand(env, s, Exec(env, ImmediateShiftCode(LSR, n), s),
                         ByImmediate(s, LSR, n).value, ByImmediate(s, LSR, n).carry)
  {
    hide Exec, Eval, EvalTest, And, Or, Shl, Shr, Asr, Sub, SignBit, SignFill, Rotate, RotateExpr, RrxExpr, CpsrC, C01,
      Unpack;
    var sh := ByImmediate(s, LSR, n);
    var rm := Var(VRm);
    CarryField(s.m.cpu.cpsr);
    LeafRules(env); BitRules(env); ShiftRules(env);
    if n == 0 {
      OperandRuns(env, s, Lit(0), BitAt(rm, Lit(31)), sh.value, sh.carry);
    } else {
      CountBounds(n);
      OperandRuns(env, s, EShr(rm, Lit(n)), BitAt(rm, Lit(Sub(n, 1))), sh.value, sh.carry);
    }
  }

  lemma ImmediateArith(env: Env, n: Word, s: State)
    requires s.status.Running? && VRm in s.vars && n < 32
    ensures HoldsOperand(env, s, Exec(env, ImmediateShiftCode(ASR, n), s),
                         ByImmediate(s, ASR, n).value, ByImmediate(s, ASR, n).carry)
  {
    hide Exec, Eval, EvalTest, And, Or, Shl, Shr, Asr, Sub, SignBit, SignFill, Rotate, RotateExpr, RrxExpr, CpsrC, C01,
      Unpack;
    var sh := ByImmediate(s, ASR, n);
    var rm := Var(VRm);
    CarryField(s.m.cpu.cpsr);
    LeafRules(env); BitRules(env); ShiftRules(env);
    AsrRule(env);
    if n == 0 {
      SignFillValue(env, rm, s);
      OperandRuns(env, s, SignFill(rm), BitAt(rm, Lit(31)), sh.value, sh.carry);
    } else {
      CountBounds(n);
      OperandRuns(env, s, EAsr(rm, Lit(n)), BitAt(rm, Lit(Sub(n, 1))), sh.value, sh.carry);
    }
  }

  lemma ImmediateRotate(env: Env, n: Word, s: State)
    requires s.status.Running? && VRm in s.vars && n < 32 && n != 0
    ensures HoldsOperand(env, s, Exec(env, ImmediateShiftCode(ROR, n), s),
                         ByImmediate(s, ROR, n).value, ByImmediate(s, ROR, n).carry)
  {
    hide Exec, Eval, EvalTest, And, Or, Shl, Shr, Asr, Sub, SignBit, SignFill, Rotate, RotateExpr, RrxExpr, CpsrC, C01,
      Unpack;
    var sh := ByImmediate(s, ROR, n);
    var rm := Var(VRm);
    CarryField(s.m.cpu.cpsr);
    LeafRules(env); BitRules(env); ShiftRules(env);
    SmallCount(n);
    RotateValue(env, rm, Lit(n), s);
    OperandRuns(env, s, RotateExpr(rm, Lit(n)), BitAt(Var(VOp2), Lit(31)), sh.value, sh.carry);
  }

  lemma ImmediateRrx(env: Env, n: Word, s: State)
    requires s.status.Running? && VRm in s.vars && n < 32
    ensures HoldsOperand(env, s, Exec(env, ImmediateShiftCode(RRX, n), s),
                         ByImmediate(s, RRX, n).value, ByImmediate(s, RRX, n).carry)
  {
    hide Exec, Eval, EvalTest, And, Or, Shl, Shr, Asr, Sub, SignBit, SignFill, Rotate, RotateExpr, RrxExpr, CpsrC, C01,
      Unpack;
    var sh := ByImmediate(s, RRX, n);
    var rm := Var(VRm);
    CarryField(s.m.cpu.cpsr);
    LeafRules(env); BitRules(env); ShiftRules(env);
    RrxValue(env, rm, s);
    OperandRuns(env, s, RrxExpr(rm), EAnd(rm, Lit(1)), sh.value, sh.carry);
  }

  lemma SmallCount(n: Word)
    requires n < 32
    ensures And(n, 31) == n
  {}

  /** Immediate shifts, with LSR #0, ASR #0 and RRX. A ROR #0 only ever reaches the generator as RRX. */
  lemma ImmediateShiftAgrees(env: Env, kind: ShiftType, n: Word, s: State)
    requires s.status.Running? && VRm in s.vars && n < 32 && (kind.ROR? ==> n != 0)
    ensures HoldsOperand(env, s, Exec(env, ImmediateShiftCode(kind, n), s),
                         ByImmediate(s, kind, n).value, ByImmediate(s, kind, n).carry)
  {
    hide Exec, HoldsOperand, ByImmediate, ImmediateShiftCode;
    match kind
    case LSL => ImmediateLeft(env, n, s);
    case LSR => ImmediateRight(env, n, s);
    case ASR => ImmediateArith(env, n, s);
    case ROR => ImmediateRotate(env, n, s);
    case RRX => ImmediateRrx(env, n, s);
  }
}
