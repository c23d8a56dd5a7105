// The C statements the code generator emits, as a syntax tree, and what running
// them does to the packed CPU, guest memory and the generated-call stack.
module Host {
  import opened Words
  import opened Ir
  import opened Cpu
  import opened Reference
  import opened RuntimeOps

  // ----- Syntax -------------------------------------------------------------------

  /** The per-instruction C locals; the PC suffix that keeps them apart in one function is dropped. */
  datatype Local = VRm | VCnt | VOp2 | VCo | VRn | VR | VPc | VBxt | VBlt | VBase | VOff | VEa | VPost
                 | VVal | VMoRm | VRaw | VAddr | VFb | VOld | VMsr

  /** 64-bit expressions of the long multiplies. */
  datatype Wide = U64(e: Expr) | S64(e: Expr) | WMul(u: Wide, v: Wide) | WAdd(u: Wide, v: Wide)
                | WPair(hi: Expr, lo: Expr)

  datatype Expr =
    | Lit(w: Word) | G(r: Reg) | Var(x: Local) | CarryBit
    | EAnd(a: Expr, b: Expr) | EOr(a: Expr, b: Expr) | EXor(a: Expr, b: Expr) | ENot(a: Expr)
    | EAdd(a: Expr, b: Expr) | ESub(a: Expr, b: Expr) | EMul(a: Expr, b: Expr)
    | EShl(a: Expr, b: Expr) | EShr(a: Expr, b: Expr) | EAsr(a: Expr, b: Expr)
    | EIf(t: Test, a: Expr, b: Expr)
    | ERead8(a: Expr) | ERead16(a: Expr) | ERead32(a: Expr) | ECast8(a: Expr) | ECast16(a: Expr)
    | EUserReg(r: Reg) | EMrsCpsr | EMrsSpsr
    | ELo | EHi

  datatype Test = TEq(a: Expr, b: Expr) | TLt(a: Expr, b: Expr) | TNonZero(a: Expr)
                | TPrivNonSystem | TCond(c: Cond)

  datatype Stmt =
    | Skip
    | Seq(s1: Stmt, s2: Stmt)
    | IfElse(t: Test, s1: Stmt, s2: Stmt)
    | SetVar(x: Local, e: Expr)
    | SetWide(u: Wide)
    | SetG(r: Reg, e: Expr)
    | FlagNZ(e: Expr) | FlagNZ64
    | FlagLogic(e: Expr, carry: Expr)
    | FlagAdd(a: Expr, b: Expr, e: Expr) | FlagAdc(a: Expr, b: Expr, carry: Expr, e: Expr)
    | FlagSub(a: Expr, b: Expr, e: Expr) | FlagSbc(a: Expr, b: Expr, carry: Expr, e: Expr)
    | SetTFrom(e: Expr)
    | BusWrite8(a: Expr, e: Expr) | BusWrite16(a: Expr, e: Expr) | BusWrite32(a: Expr, e: Expr)
    | WriteUser(r: Reg, e: Expr)
    | WriteMsrCpsr(e: Expr, mask: bv4) | WriteMsrSpsr(e: Expr, mask: bv4)
    | RestoreCpsrFromSpsr
    | CycSet(n: nat) | CycMem(a: Expr, width: nat, sequential: bool)
    | CycMul(e: Expr, signed: bool, n: nat)
    | Tick
    | ReturnException(e: Expr)
    | CallFunction(target: Word, thumb: bool)
    | Dispatch(e: Expr) | DispatchExchange(e: Expr)
    | PushCall(target: Word) | CancelCall(target: Word)
    | ReturnIfCallReturns(e: Expr)
    | SwiCall(imm: Word)
    | UnimplementedOp
    | Goto(target: Word, thumb: bool)
    | Return

  // ----- State --------------------------------------------------------------------

  /** Everything other generated code can see. */
  datatype Machine = Machine(cpu: Packed, mem: Mem, calls: CallStack)

  datatype Status = Running | Left | Aborted

  /** Where control goes: into generated code, a function, dispatch entry or label, for this address and instruction
      set; back into the function that made the call whose return frame holds this address; or out, to a
      dispatch loop that looks R15 up. */
  datatype Dest = Code(pc: Word, thumb: bool) | Frame(pc: Word) | Unwound

  /** The machine, the cycles ticked and the destination at the moment control first leaves the code. */
  datatype Handover = Kept | Handed(cpu: Packed, mem: Mem, ticks: nat, to: Dest)

  datatype State = State(
    m: Machine,
    vars: map<Local, Word>,
    wide: bv64,
    cyc: nat,
    ticks: nat,
    status: Status,
    handed: Handover)

  /** What surrounds the code: the bus timing, whatever the generated code at a destination does when
      called, and the value a shift by 32 or more happens to give, which C leaves undefined. */
  datatype Env = Env(costs: CostModel, callee: (Machine, Dest) -> Machine, ub: Word)

  function Start(m: Machine): State {
    State(m, map[], 0, 0, 0, Running, Kept)
  }

  // ----- Expressions ----------------------------------------------------------------

  function EvalTest(env: Env, t: Test, s: State): bool {
    match t
    case TEq(a, b) => Eval(env, a, s) == Eval(env, b, s)
    case TLt(a, b) => Below(Eval(env, a, s), Eval(env, b, s))
    case TNonZero(a) => Eval(env, a, s) != 0
    case TPrivNonSystem => PrivNonSystem(ModeOf(s.m.cpu.cpsr))
    case TCond(c) => CondPassesPacked(c, s.m.cpu.cpsr)
  }

  function ShlOr(ub: Word, a: Word, n: Word): Word {
    if n < 32 then Shl(a, n) else ub
  }

  function ShrOr(ub: Word, a: Word, n: Word): Word {
    if n < 32 then Shr(a, n) else ub
  }

  function AsrOr(ub: Word, a: Word, n: Word): Word {
    if n < 32 then Asr(a, n) else ub
  }

  function Eval(env: Env, e: Expr, s: State): Word {
    match e
    case Lit(w) => w
    case G(r) => s.m.cpu.R[r]
    case Var(x) => if x in s.vars then s.vars[x] else env.ub
    case CarryBit => CpsrC(s.m.cpu.cpsr)
    case EAnd(a, b) => And(Eval(env, a, s), Eval(env, b, s))
    case EOr(a, b) => Or(Eval(env, a, s), Eval(env, b, s))
    case EXor(a, b) => Xor(Eval(env, a, s), Eval(env, b, s))
    case ENot(a) => Not(Eval(env, a, s))
    case EAdd(a, b) => Add(Eval(env, a, s), Eval(env, b, s))
    case ESub(a, b) => Sub(Eval(env, a, s), Eval(env, b, s))
    case EMul(a, b) => Mul(Eval(env, a, s), Eval(env, b, s))
    case EShl(a, b) => ShlOr(env.ub, Eval(env, a, s), Eval(env, b, s))
    case EShr(a, b) => ShrOr(env.ub, Eval(env, a, s), Eval(env, b, s))
    case EAsr(a, b) => AsrOr(env.ub, Eval(env, a, s), Eval(env, b, s))
    case EIf(t, a, b) => if EvalTest(env, t, s) then Eval(env, a, s) else Eval(env, b, s)
    case ERead8(a) => FromByte(Read8(s.m.mem, Eval(env, a, s)))
    case ERead16(a) => FromHalf(Read16(s.m.mem, Eval(env, a, s)))
    case ERead32(a) => Read32(s.m.mem, Eval(env, a, s))
    case ECast8(a) => SExt8(Low8(Eval(env, a, s)))
    case ECast16(a) => SExt16(Low16(Eval(env, a, s)))
    case EUserReg(r) => UserReg(s.m.cpu, r)
    case EMrsCpsr => s.m.cpu.cpsr
    case EMrsSpsr => s.m.cpu.spsr[ModeToBank(s.m.cpu.cpsr)]
    case ELo => Lo32(s.wide)
    case EHi => Hi32(s.wide)
  }

  function EvalWide(env: Env, u: Wide, s: State): bv64 {
    match u
    case U64(e) => ZExt64(Eval(env, e, s))
    case S64(e) => SExt64(Eval(env, e, s))
    case WMul(a, b) => Mul64(EvalWide(env, a, s), EvalWide(env, b, s))
    case WAdd(a, b) => Add64(EvalWide(env, a, s), EvalWide(env, b, s))
    case WPair(hi, lo) => Pair64(Eval(env, hi, s), Eval(env, lo, s))
  }

  // ----- Statements -----------------------------------------------------------------

  function PutCpu(s: State, cpu: Packed): State {
    s.(m := s.m.(cpu := cpu))
  }

  function PutReg(s: State, r: Reg, v: Word): State {
    PutCpu(s, s.m.cpu.(R := s.m.cpu.R[r := v]))
  }

  function PutCpsr(s: State, cpsr: Word): State {
    PutCpu(s, s.m.cpu.(cpsr := cpsr))
  }

  function PutMem(s: State, mem: Mem): State {
    s.(m := s.m.(mem := mem))
  }

  /** Control leaves the code here, unless it already left earlier. */
  function HandOver(s: State, to: Dest): State {
    if s.handed.Kept? then s.(handed := Handed(s.m.cpu, s.m.mem, s.ticks, to)) else s
  }

  /** Other generated code runs and comes back. */
  function Call(env: Env, s: State, to: Dest): State {
    var h := HandOver(s, to);
    h.(m := env.callee(h.m, to))
  }

  /** What runtime_dispatch looks up: its argument without bit 0, in the instruction set of CPSR.T. */
  function Dispatched(cpu: Packed, target: Word): Dest {
    Code(EvenPc(target), Unpack(cpu.cpsr).t)
  }

  /** runtime_dispatch_with_exchange: bit 0 into CPSR.T, then dispatch. */
  function CallExchange(env: Env, s: State, target: Word): State {
    var t := PutCpsr(s, ExchangeT(s.m.cpu.cpsr, target));
    Call(env, t, Dispatched(t.m.cpu, target))
  }

  /** runtime_swi: the supervisor's entry, three cycles, and dispatch of the vector. */
  function CallSwi(env: Env, s: State): State {
    var t := PutCpu(s, SwiEntry(s.m.cpu)).(ticks := s.ticks + 3);
    Call(env, t, Dispatched(t.m.cpu, 0x08))
  }

  /** `if (runtime_call_should_return(target)) return;` */
  function AfterReturnTest(s: State, target: Word): State {
    var p := s.(m := s.m.(calls := PopTo(s.m.calls, target)));
    if ShouldReturn(s.m.calls, target)
    then HandOver(p, Frame(ReturnFrame(s.m.calls, target))).(status := Left) else p
  }

  /** runtime_call_push_return: the process aborts when the stack is full. */
  function PushOrAbort(s: State, target: Word): State {
    if |s.m.calls.frames| >= CALL_STACK_SIZE then s.(status := Aborted)
    else s.(m := s.m.(calls := RuntimeOps.PushReturn(s.m.calls, target)))
  }

  // The statements that are not compositions, by what they touch.

  function DoAssign(env: Env, st: Stmt, s: State): State {
    match st
    case SetVar(x, e) => s.(vars := s.vars[x := Eval(env, e, s)])
    case SetWide(u) => s.(wide := EvalWide(env, u, s))
    case SetG(r, e) => PutReg(s, r, Eval(env, e, s))
    case _ => s
  }

  function DoFlags(env: Env, st: Stmt, s: State): State {
    var cpsr := s.m.cpu.cpsr;
    match st
    case FlagNZ(e) => PutCpsr(s, FlagsNZ(cpsr, Eval(env, e, s)))
    case FlagNZ64 => PutCpsr(s, FlagsNZ64(cpsr, s.wide))
    case FlagLogic(e, c) => PutCpsr(s, FlagsLogic(cpsr, Eval(env, e, s), Eval(env, c, s)))
    case SetTFrom(e) => PutCpsr(s, ExchangeT(cpsr, Eval(env, e, s)))
    case _ => s
  }

  function DoArithFlags(env: Env, st: Stmt, s: State): State {
    var cpsr := s.m.cpu.cpsr;
    match st
    case FlagAdd(a, b, e) => PutCpsr(s, FlagsAdd(cpsr, Eval(env, a, s), Eval(env, b, s), Eval(env, e, s)))
    case FlagAdc(a, b, c, e) =>
      PutCpsr(s, FlagsAdc(cpsr, Eval(env, a, s), Eval(env, b, s), Eval(env, c, s), Eval(env, e, s)))
    case FlagSub(a, b, e) => PutCpsr(s, FlagsSub(cpsr, Eval(env, a, s), Eval(env, b, s), Eval(env, e, s)))
    case FlagSbc(a, b, c, e) =>
      PutCpsr(s, FlagsSbc(cpsr, Eval(env, a, s), Eval(env, b, s), Eval(env, c, s), Eval(env, e, s)))
    case _ => s
  }

  function DoBus(env: Env, st: Stmt, s: State): State {
    var mem := s.m.mem;
    match st
    case BusWrite8(a, e) => PutMem(s, Write8(mem, Eval(env, a, s), Low8(Eval(env, e, s))))
    case BusWrite16(a, e) => PutMem(s, Write16(mem, Eval(env, a, s), Low16(Eval(env, e, s))))
    case BusWrite32(a, e) => PutMem(s, Write32(mem, Eval(env, a, s), Eval(env, e, s)))
    case _ => s
  }

  function DoPsr(env: Env, st: Stmt, s: State): State {
    var cpu := s.m.cpu;
    match st
    case WriteUser(r, e) => PutCpu(s, SetUserReg(cpu, r, Eval(env, e, s)))
    case WriteMsrCpsr(e, mask) => PutCpu(s, MsrCpsr(cpu, Eval(env, e, s), mask))
    case WriteMsrSpsr(e, mask) => PutCpu(s, MsrSpsr(cpu, Eval(env, e, s), mask))
    case RestoreCpsrFromSpsr => PutCpu(s, RestoreFromSpsr(cpu))
    case ReturnException(e) => PutCpu(s, ReturnFromException(cpu, Eval(env, e, s)))
    case _ => s
  }

  function DoCycles(env: Env, st: Stmt, s: State): State {
    match st
    case CycSet(n) => s.(cyc := n)
    case CycMem(a, width, sequential) => s.(cyc := s.cyc + env.costs(Eval(env, a, s), width, sequential))
    case CycMul(e, signed, n) => s.(cyc := s.cyc + MulWait(Eval(env, e, s), signed, n))
    case Tick => s.(ticks := s.ticks + s.cyc)
    case _ => s
  }

  function DoLeave(env: Env, st: Stmt, s: State): State {
    match st
    case CallFunction(target, thumb) => Call(env, s, Code(target, thumb))
    case Dispatch(e) => Call(env, s, Dispatched(s.m.cpu, Eval(env, e, s)))
    case DispatchExchange(e) => CallExchange(env, s, Eval(env, e, s))
    case SwiCall(imm) => CallSwi(env, s)
    case Goto(target, thumb) => HandOver(s, Code(target, thumb)).(status := Left)
    case Return => HandOver(s, Unwound).(status := Left)
    case UnimplementedOp => s.(status := Aborted)
    case _ => s
  }

  function DoCalls(env: Env, st: Stmt, s: State): State {
    match st
    case PushCall(target) => PushOrAbort(s, target)
    case CancelCall(target) => s.(m := s.m.(calls := RuntimeOps.CancelReturn(s.m.calls, target)))
    case ReturnIfCallReturns(e) => AfterReturnTest(s, Eval(env, e, s))
    case _ => s
  }

  /** One statement that is not a composition. */
  function Do(env: Env, st: Stmt, s: State): State {
    match st
    case SetVar(_, _) | SetWide(_) | SetG(_, _) => DoAssign(env, st, s)
    case FlagNZ(_) | FlagNZ64 | FlagLogic(_, _) | SetTFrom(_) => DoFlags(env, st, s)
    case FlagAdd(_, _, _) | FlagAdc(_, _, _, _) | FlagSub(_, _, _) | FlagSbc(_, _, _, _) => DoArithFlags(env, st, s)
    case BusWrite8(_, _) | BusWrite16(_, _) | BusWrite32(_, _) => DoBus(env, st, s)
    case WriteUser(_, _) | WriteMsrCpsr(_, _) | WriteMsrSpsr(_, _) | RestoreCpsrFromSpsr | ReturnException(_) =>
      DoPsr(env, st, s)
    case CycSet(_) | CycMem(_, _, _) | CycMul(_, _, _) | Tick => DoCycles(env, st, s)
    case PushCall(_) | CancelCall(_) | ReturnIfCallReturns(_) => DoCalls(env, st, s)
    case Skip | Seq(_, _) | IfElse(_, _, _) => s
    case _ => DoLeave(env, st, s)
  }

  /** Running a statement; nothing more happens once control has left. */
  function Exec(env: Env, st: Stmt, s: State): State {
    if s.status != Running then s else
    match st
    case Seq(a, b) => Exec(env, b, Exec(env, a, s))
    case IfElse(t, a, b) => if EvalTest(env, t, s) then Exec(env, a, s) else Exec(env, b, s)
    case _ => Do(env, st, s)
  }

  // ----- Rewriting rules ---------------------------------------------------------------
  //
  // Every definition above once more, as facts about all states, so that a proof
  // can hide the interpreters and rewrite the emitted code step by step.

  lemma BitRules(env: Env)
    ensures forall a: Expr, b: Expr, s: State {:trigger Eval(env, EAnd(a, b), s)} ::
      Eval(env, EAnd(a, b), s) == And(Eval(env, a, s), Eval(env, b, s))
    ensures forall a: Expr, b: Expr, s: State {:trigger Eval(env, EOr(a, b), s)} ::
      Eval(env, EOr(a, b), s) == Or(Eval(env, a, s), Eval(env, b, s))
    ensures forall a: Expr, b: Expr, s: State {:trigger Eval(env, EXor(a, b), s)} ::
      Eval(env, EXor(a, b), s) == Xor(Eval(env, a, s), Eval(env, b, s))
    ensures forall a: Expr, s: State {:trigger Eval(env, ENot(a), s)} ::
      Eval(env, ENot(a), s) == Not(Eval(env, a, s))
  {
    hide And, Or, Xor, Not, Add, Sub, Mul, Shl, Shr, Asr, Read8, Read16, Read32, SExt8, SExt16, Low8, Low16, FromByte, FromHalf, CpsrC;
  }

  lemma SumRules(env: Env)
    ensures forall a: Expr, b: Expr, s: State {:trigger Eval(env, EAdd(a, b), s)} ::
      Eval(env, EAdd(a, b), s) == Add(Eval(env, a, s), Eval(env, b, s))
    ensures forall a: Expr, b: Expr, s: State {:trigger Eval(env, ESub(a, b), s)} ::
      Eval(env, ESub(a, b), s) == Sub(Eval(env, a, s), Eval(env, b, s))
    ensures forall a: Expr, b: Expr, s: State {:trigger Eval(env, EMul(a, b), s)} ::
      Eval(env, EMul(a, b), s) == Mul(Eval(env, a, s), Eval(env, b, s))
  {
    hide And, Or, Xor, Not, Add, Sub, Mul, Shl, Shr, Asr, Read8, Read16, Read32, SExt8, SExt16, Low8, Low16, FromByte, FromHalf, CpsrC;
  }

  lemma ShiftRules(env: Env)
    ensures forall a: Expr, b: Expr, s: State {:trigger Eval(env, EShl(a, b), s)} ::
      Eval(env, EShl(a, b), s) == ShlOr(env.ub, Eval(env, a, s), Eval(env, b, s))
    ensures forall a: Expr, b: Expr, s: State {:trigger Eval(env, EShr(a, b), s)} ::
      Eval(env, EShr(a, b), s) == ShrOr(env.ub, Eval(env, a, s), Eval(env, b, s))
  {
    hide And, Or, Xor, Not, Add, Sub, Mul, Shl, Shr, Asr, Read8, Read16, Read32, SExt8, SExt16, Low8, Low16, FromByte, FromHalf, CpsrC;
  }

  lemma AsrRule(env: Env)
    ensures forall a: Expr, b: Expr, s: State {:trigger Eval(env, EAsr(a, b), s)} ::
      Eval(env, EAsr(a, b), s) == AsrOr(env.ub, Eval(env, a, s), Eval(env, b, s))
  {
    hide And, Or, Xor, Not, Add, Sub, Mul, Shl, Shr, Asr, Read8, Read16, Read32, SExt8, SExt16, Low8, Low16, FromByte, FromHalf, CpsrC;
  }

  lemma IfRule(env: Env)
    ensures forall t: Test, a: Expr, b: Expr, s: State {:trigger Eval(env, EIf(t, a, b), s)} ::
      Eval(env, EIf(t, a, b), s) ==
      if EvalTest(env, t, s) then Eval(env, a, s) else Eval(env, b, s)
  {
    hide And, Or, Xor, Not, Add, Sub, Mul, Shl, Shr, Asr, Read8, Read16, Read32, SExt8, SExt16, Low8, Low16, FromByte, FromHalf, CpsrC;
  }

  lemma Read8Rule(env: Env)
    ensures forall a: Expr, s: State {:trigger Eval(env, ERead8(a), s)} ::
      Eval(env, ERead8(a), s) == FromByte(Read8(s.m.mem, Eval(env, a, s)))
  {
    hide And, Or, Xor, Not, Add, Sub, Mul, Shl, Shr, Asr, Read8, Read16, Read32, SExt8, SExt16, Low8, Low16, FromByte, FromHalf, CpsrC;
  }

  lemma Read16Rule(env: Env)
    ensures forall a: Expr, s: State {:trigger Eval(env, ERead16(a), s)} ::
      Eval(env, ERead16(a), s) == FromHalf(Read16(s.m.mem, Eval(env, a, s)))
  {
    hide And, Or, Xor, Not, Add, Sub, Mul, Shl, Shr, Asr, Read8, Read16, Read32, SExt8, SExt16, Low8, Low16, FromByte, FromHalf, CpsrC;
  }

  lemma Read32Rule(env: Env)
    ensures forall a: Expr, s: State {:trigger Eval(env, ERead32(a), s)} ::
      Eval(env, ERead32(a), s) == Read32(s.m.mem, Eval(env, a, s))
  {
    hide And, Or, Xor, Not, Add, Sub, Mul, Shl, Shr, Asr, Read8, Read16, Read32, SExt8, SExt16, Low8, Low16, FromByte, FromHalf, CpsrC;
  }

  lemma Cast8Rule(env: Env)
    ensures forall a: Expr, s: State {:trigger Eval(env, ECast8(a), s)} ::
      Eval(env, ECast8(a), s) == SExt8(Low8(Eval(env, a, s)))
  {
    hide And, Or, Xor, Not, Add, Sub, Mul, Shl, Shr, Asr, Read8, Read16, Read32, SExt8, SExt16, Low8, Low16, FromByte, FromHalf, CpsrC;
  }

  lemma Cast16Rule(env: Env)
    ensures forall a: Expr, s: State {:trigger Eval(env, ECast16(a), s)} ::
      Eval(env, ECast16(a), s) == SExt16(Low16(Eval(env, a, s)))
  {
    hide And, Or, Xor, Not, Add, Sub, Mul, Shl, Shr, Asr, Read8, Read16, Read32, SExt8, SExt16, Low8, Low16, FromByte, FromHalf, CpsrC;
  }

  lemma LeafRules(env: Env)
    ensures forall x: Local, s: State {:trigger Eval(env, Var(x), s)} ::
      Eval(env, Var(x), s) == if x in s.vars then s.vars[x] else env.ub
    ensures forall w: Word, s: State {:trigger Eval(env, Lit(w), s)} ::
      Eval(env, Lit(w), s) == w
    ensures forall r: Reg, s: State {:trigger Eval(env, G(r), s)} ::
      Eval(env, G(r), s) == s.m.cpu.R[r]
    ensures forall s: State {:trigger Eval(env, CarryBit, s)} ::
      Eval(env, CarryBit, s) == CpsrC(s.m.cpu.cpsr)
  {
    hide And, Or, Xor, Not, Add, Sub, Mul, Shl, Shr, Asr, Read8, Read16, Read32, SExt8, SExt16, Low8, Low16, FromByte, FromHalf, CpsrC;
  }

  lemma SystemRule1(env: Env)
    ensures forall r: Reg, s: State {:trigger Eval(env, EUserReg(r), s)} ::
      Eval(env, EUserReg(r), s) == UserReg(s.m.cpu, r)
    ensures forall s: State {:trigger Eval(env, EMrsCpsr, s)} ::
      Eval(env, EMrsCpsr, s) == s.m.cpu.cpsr
  {
    hide And, Or, Xor, Not, Add, Sub, Mul, Shl, Shr, Asr, Read8, Read16, Read32, SExt8, SExt16, Low8, Low16, FromByte, FromHalf, CpsrC;
  }

  lemma SystemRule2(env: Env)
    ensures forall s: State {:trigger Eval(env, EMrsSpsr, s)} ::
      Eval(env, EMrsSpsr, s) == s.m.cpu.spsr[ModeToBank(s.m.cpu.cpsr)]
    ensures forall s: State {:trigger Eval(env, ELo, s)} ::
      Eval(env, ELo, s) == Lo32(s.wide)
    ensures forall s: State {:trigger Eval(env, EHi, s)} ::
      Eval(env, EHi, s) == Hi32(s.wide)
  {
    hide And, Or, Xor, Not, Add, Sub, Mul, Shl, Shr, Asr, Read8, Read16, Read32, SExt8, SExt16, Low8, Low16, FromByte, FromHalf, CpsrC;
  }

  lemma SystemRules(env: Env)
    ensures forall r: Reg, s: State {:trigger Eval(env, EUserReg(r), s)} ::
      Eval(env, EUserReg(r), s) == UserReg(s.m.cpu, r)
    ensures forall s: State {:trigger Eval(env, EMrsCpsr, s)} ::
      Eval(env, EMrsCpsr, s) == s.m.cpu.cpsr
    ensures forall s: State {:trigger Eval(env, EMrsSpsr, s)} ::
      Eval(env, EMrsSpsr, s) == s.m.cpu.spsr[ModeToBank(s.m.cpu.cpsr)]
    ensures forall s: State {:trigger Eval(env, ELo, s)} ::
      Eval(env, ELo, s) == Lo32(s.wide)
    ensures forall s: State {:trigger Eval(env, EHi, s)} ::
      Eval(env, EHi, s) == Hi32(s.wide)
  {
    hide *;
    SystemRule1(env);
    SystemRule2(env);
  }

  lemma TestRules(env: Env)
    ensures forall a: Expr, b: Expr, s: State {:trigger EvalTest(env, TEq(a, b), s)} ::
      EvalTest(env, TEq(a, b), s) <==> Eval(env, a, s) == Eval(env, b, s)
    ensures forall a: Expr, b: Expr, s: State {:trigger EvalTest(env, TLt(a, b), s)} ::
      EvalTest(env, TLt(a, b), s) <==> Below(Eval(env, a, s), Eval(env, b, s))
    ensures forall a: Expr, s: State {:trigger EvalTest(env, TNonZero(a), s)} ::
      EvalTest(env, TNonZero(a), s) <==> Eval(env, a, s) != 0
    ensures forall s: State {:trigger EvalTest(env, TPrivNonSystem, s)} ::
      EvalTest(env, TPrivNonSystem, s) <==> PrivNonSystem(ModeOf(s.m.cpu.cpsr))
    ensures forall c: Cond, s: State {:trigger EvalTest(env, TCond(c), s)} ::
      EvalTest(env, TCond(c), s) <==> CondPassesPacked(c, s.m.cpu.cpsr)
  {
    hide And, Or, Xor, Not, Add, Sub, Mul, Shl, Shr, Asr, Read8, Read16, Read32, SExt8, SExt16, Low8, Low16, FromByte, FromHalf, CpsrC;
  }

  /** Sequencing, and once control has left the rest of the code does nothing. */
  lemma SeqRules(env: Env)
    ensures forall a: Stmt, b: Stmt, s: State {:trigger Exec(env, Seq(a, b), s)} ::
      Exec(env, Seq(a, b), s) == Exec(env, b, Exec(env, a, s))
    ensures forall st: Stmt, s: State {:trigger Exec(env, st, s)} :: !s.status.Running? ==> Exec(env, st, s) == s
  {
    forall a: Stmt, b: Stmt, s: State ensures Exec(env, Seq(a, b), s) == Exec(env, b, Exec(env, a, s)) {
      if !s.status.Running? {
        assert Exec(env, a, s) == s && Exec(env, b, s) == s;
      }
    }
  }

  lemma ChoiceRules(env: Env)
    ensures forall t: Test, a: Stmt, b: Stmt, s: State {:trigger Exec(env, IfElse(t, a, b), s)} ::
      s.status.Running? ==>
      Exec(env, IfElse(t, a, b), s) == if EvalTest(env, t, s) then Exec(env, a, s) else Exec(env, b, s)
    ensures forall s: State {:trigger Exec(env, Skip, s)} ::
      s.status.Running? ==>
      Exec(env, Skip, s) == s
  {
    hide Eval, EvalTest, EvalWide, Call, HandOver;
  }

  lemma RunSetVar(env: Env)
    ensures forall x: Local, e: Expr, s: State {:trigger Exec(env, SetVar(x, e), s)} :: s.status.Running? ==>
      Exec(env, SetVar(x, e), s) == s.(vars := s.vars[x := Eval(env, e, s)])
  {}

  lemma RunSetWide(env: Env)
    ensures forall u: Wide, s: State {:trigger Exec(env, SetWide(u), s)} :: s.status.Running? ==>
      Exec(env, SetWide(u), s) == s.(wide := EvalWide(env, u, s))
  {}

  lemma RunSetG(env: Env)
    ensures forall r: Reg, e: Expr, s: State {:trigger Exec(env, SetG(r, e), s)} :: s.status.Running? ==>
      Exec(env, SetG(r, e), s) == PutReg(s, r, Eval(env, e, s))
  {}

  lemma RunFlagNZ(env: Env)
    ensures forall e: Expr, s: State {:trigger Exec(env, FlagNZ(e), s)} :: s.status.Running? ==>
      Exec(env, FlagNZ(e), s) == PutCpsr(s, FlagsNZ(s.m.cpu.cpsr, Eval(env, e, s)))
  {}

  lemma RunFlagNZ64(env: Env)
    ensures forall s: State {:trigger Exec(env, FlagNZ64, s)} :: s.status.Running? ==>
      Exec(env, FlagNZ64, s) == PutCpsr(s, FlagsNZ64(s.m.cpu.cpsr, s.wide))
  {}

  lemma RunFlagLogic(env: Env)
    ensures forall e: Expr, c: Expr, s: State {:trigger Exec(env, FlagLogic(e, c), s)} :: s.status.Running? ==>
      Exec(env, FlagLogic(e, c), s) == PutCpsr(s, FlagsLogic(s.m.cpu.cpsr, Eval(env, e, s), Eval(env, c, s)))
  {}

  lemma RunSetTFrom(env: Env)
    ensures forall e: Expr, s: State {:trigger Exec(env, SetTFrom(e), s)} :: s.status.Running? ==>
      Exec(env, SetTFrom(e), s) == PutCpsr(s, ExchangeT(s.m.cpu.cpsr, Eval(env, e, s)))
  {}

  lemma RunFlagAdd(env: Env)
    ensures forall a: Expr, b: Expr, e: Expr, s: State {:trigger Exec(env, FlagAdd(a, b, e), s)} :: s.status.Running? ==>
      Exec(env, FlagAdd(a, b, e), s) == PutCpsr(s, FlagsAdd(s.m.cpu.cpsr, Eval(env, a, s), Eval(env, b, s), Eval(env, e, s)))
  {}

  lemma RunFlagSub(env: Env)
    ensures forall a: Expr, b: Expr, e: Expr, s: State {:trigger Exec(env, FlagSub(a, b, e), s)} :: s.status.Running? ==>
      Exec(env, FlagSub(a, b, e), s) == PutCpsr(s, FlagsSub(s.m.cpu.cpsr, Eval(env, a, s), Eval(env, b, s), Eval(env, e, s)))
  {}

  lemma RunFlagAdc(env: Env)
    ensures forall a: Expr, b: Expr, c: Expr, e: Expr, s: State {:trigger Exec(env, FlagAdc(a, b, c, e), s)} :: s.status.Running? ==>
      Exec(env, FlagAdc(a, b, c, e), s) == PutCpsr(s, FlagsAdc(s.m.cpu.cpsr, Eval(env, a, s), Eval(env, b, s), Eval(env, c, s), Eval(env, e, s)))
  {}

  lemma RunFlagSbc(env: Env)
    ensures forall a: Expr, b: Expr, c: Expr, e: Expr, s: State {:trigger Exec(env, FlagSbc(a, b, c, e), s)} :: s.status.Running? ==>
      Exec(env, FlagSbc(a, b, c, e), s) == PutCpsr(s, FlagsSbc(s.m.cpu.cpsr, Eval(env, a, s), Eval(env, b, s), Eval(env, c, s), Eval(env, e, s)))
  {}

  lemma RunWrite8(env: Env)
    ensures forall a: Expr, e: Expr, s: State {:trigger Exec(env, BusWrite8(a, e), s)} :: s.status.Running? ==>
      Exec(env, BusWrite8(a, e), s) == PutMem(s, Write8(s.m.mem, Eval(env, a, s), Low8(Eval(env, e, s))))
  {}

  lemma RunWrite16(env: Env)
    ensures forall a: Expr, e: Expr, s: State {:trigger Exec(env, BusWrite16(a, e), s)} :: s.status.Running? ==>
      Exec(env, BusWrite16(a, e), s) == PutMem(s, Write16(s.m.mem, Eval(env, a, s), Low16(Eval(env, e, s))))
  {}

  lemma RunWrite32(env: Env)
    ensures forall a: Expr, e: Expr, s: State {:trigger Exec(env, BusWrite32(a, e), s)} :: s.status.Running? ==>
      Exec(env, BusWrite32(a, e), s) == PutMem(s, Write32(s.m.mem, Eval(env, a, s), Eval(env, e, s)))
  {}

  lemma RunWriteUser(env: Env)
    ensures forall r: Reg, e: Expr, s: State {:trigger Exec(env, WriteUser(r, e), s)} :: s.status.Running? ==>
      Exec(env, WriteUser(r, e), s) == PutCpu(s, SetUserReg(s.m.cpu, r, Eval(env, e, s)))
  {}

  lemma RunMsrCpsr(env: Env)
    ensures forall e: Expr, mask: bv4, s: State {:trigger Exec(env, WriteMsrCpsr(e, mask), s)} :: s.status.Running? ==>
      Exec(env, WriteMsrCpsr(e, mask), s) == PutCpu(s, MsrCpsr(s.m.cpu, Eval(env, e, s), mask))
  {}

  lemma RunMsrSpsr(env: Env)
    ensures forall e: Expr, mask: bv4, s: State {:trigger Exec(env, WriteMsrSpsr(e, mask), s)} :: s.status.Running? ==>
      Exec(env, WriteMsrSpsr(e, mask), s) == PutCpu(s, MsrSpsr(s.m.cpu, Eval(env, e, s), mask))
  {}

  lemma RunRestore(env: Env)
    ensures forall s: State {:trigger Exec(env, RestoreCpsrFromSpsr, s)} :: s.status.Running? ==>
      Exec(env, RestoreCpsrFromSpsr, s) == PutCpu(s, RestoreFromSpsr(s.m.cpu))
  {}

  lemma RunReturnException(env: Env)
    ensures forall e: Expr, s: State {:trigger Exec(env, ReturnException(e), s)} :: s.status.Running? ==>
      Exec(env, ReturnException(e), s) == PutCpu(s, ReturnFromException(s.m.cpu, Eval(env, e, s)))
  {}

  lemma RunCycSet(env: Env)
    ensures forall n: nat, s: State {:trigger Exec(env, CycSet(n), s)} :: s.status.Running? ==>
      Exec(env, CycSet(n), s) == s.(cyc := n)
  {}

  lemma RunCycMem(env: Env)
    ensures forall a: Expr, w: nat, q: bool, s: State {:trigger Exec(env, CycMem(a, w, q), s)} :: s.status.Running? ==>
      Exec(env, CycMem(a, w, q), s) == s.(cyc := s.cyc + env.costs(Eval(env, a, s), w, q))
  {}

  lemma RunCycMul(env: Env)
    ensures forall e: Expr, signed: bool, n: nat, s: State {:trigger Exec(env, CycMul(e, signed, n), s)} :: s.status.Running? ==>
      Exec(env, CycMul(e, signed, n), s) == s.(cyc := s.cyc + MulWait(Eval(env, e, s), signed, n))
  {}

  lemma RunTick(env: Env)
    ensures forall s: State {:trigger Exec(env, Tick, s)} :: s.status.Running? ==>
      Exec(env, Tick, s) == s.(ticks := s.ticks + s.cyc)
  {}

  lemma RunCallFunction(env: Env)
    ensures forall target: Word, thumb: bool, s: State {:trigger Exec(env, CallFunction(target, thumb), s)} ::
      s.status.Running? ==> Exec(env, CallFunction(target, thumb), s) == Call(env, s, Code(target, thumb))
  {}

  lemma RunDispatch(env: Env)
    ensures forall e: Expr, s: State {:trigger Exec(env, Dispatch(e), s)} :: s.status.Running? ==>
      Exec(env, Dispatch(e), s) == Call(env, s, Dispatched(s.m.cpu, Eval(env, e, s)))
  {}

  lemma RunDispatchExchange(env: Env)
    ensures forall e: Expr, s: State {:trigger Exec(env, DispatchExchange(e), s)} :: s.status.Running? ==>
      Exec(env, DispatchExchange(e), s) == CallExchange(env, s, Eval(env, e, s))
  {}

  lemma RunSwiCall(env: Env)
    ensures forall imm: Word, s: State {:trigger Exec(env, SwiCall(imm), s)} :: s.status.Running? ==>
      Exec(env, SwiCall(imm), s) == CallSwi(env, s)
  {
    hide Eval, SwiEntry;
  }

  lemma RunGoto(env: Env)
    ensures forall target: Word, thumb: bool, s: State {:trigger Exec(env, Goto(target, thumb), s)} ::
      s.status.Running? ==> Exec(env, Goto(target, thumb), s) == HandOver(s, Code(target, thumb)).(status := Left)
  {}

  lemma RunReturn(env: Env)
    ensures forall s: State {:trigger Exec(env, Return, s)} :: s.status.Running? ==>
      Exec(env, Return, s) == HandOver(s, Unwound).(status := Left)
  {}

  lemma RunUnimplemented(env: Env)
    ensures forall s: State {:trigger Exec(env, UnimplementedOp, s)} :: s.status.Running? ==>
      Exec(env, UnimplementedOp, s) == s.(status := Aborted)
  {}

  lemma RunPushCall(env: Env)
    ensures forall target: Word, s: State {:trigger Exec(env, PushCall(target), s)} :: s.status.Running? ==>
      Exec(env, PushCall(target), s) == PushOrAbort(s, target)
  {}

  lemma RunCancelCall(env: Env)
    ensures forall target: Word, s: State {:trigger Exec(env, CancelCall(target), s)} :: s.status.Running? ==>
      Exec(env, CancelCall(target), s) == s.(m := s.m.(calls := RuntimeOps.CancelReturn(s.m.calls, target)))
  {}

  lemma RunReturnTest(env: Env)
    ensures forall e: Expr, s: State {:trigger Exec(env, ReturnIfCallReturns(e), s)} :: s.status.Running? ==>
      Exec(env, ReturnIfCallReturns(e), s) == AfterReturnTest(s, Eval(env, e, s))
  {}
}
