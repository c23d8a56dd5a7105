// Branches: emit_branch and emit_direct_branch against the interpreter's cases.
module Branches {
  import opened Words
  import opened Ir
  import opened Cpu
  import opened Reference
  import opened RuntimeOps
  import opened Host
  import opened Codegen
  import opened Flags
  import opened Lowering
  import opened Alu

  /** The machine a link call hands to its callee. */
  function Linked(m: Machine, even: Word): Machine {
    m.(calls := PushReturn(m.calls, even))
  }

  /** What a link call looks like: handed over to the code at R15 with the charge ticked, and control kept
      exactly if that came back to the link address. */
  ghost predicate LinkedOut(env: Env, x: State, y: State, even: Word) {
    && ToItsPc(y.handed) && y.handed.to.Code?
    && y.handed == Handed(x.m.cpu, x.m.mem, x.ticks + x.cyc, y.handed.to) && y.ticks == x.ticks + x.cyc
    && if env.callee(Linked(x.m, even), y.handed.to).cpu.R[15] == even
       then y.status.Running? && y.cyc == 0
       else y.status.Left?
  }

  /** A call statement whose target is the address just stored in R15. */
  predicate CallsPc(call: Stmt, x: State) {
    var pc := x.m.cpu.R[15];
    || call == CallFunction(pc, Unpack(x.m.cpu.cpsr).t) || call == Dispatch(Lit(pc))
    || (call == Dispatch(Var(VBlt)) && VBlt in x.vars && x.vars[VBlt] == pc)
  }

  lemma CallRuns(env: Env, call: Stmt, x: State)
    requires x.status.Running? && CallsPc(call, x)
    ensures exists to :: Exec(env, call, x) == Call(env, x, to) && to.Code?
                         && ToItsPc(Handed(x.m.cpu, x.m.mem, x.ticks, to))
  {
    hide Exec, Eval, Call, EvenPc, Unpack;
    RunCallFunction(env); RunDispatch(env); LeafRules(env);
    var pc := x.m.cpu.R[15];
    var to := if call.CallFunction? then Code(pc, Unpack(x.m.cpu.cpsr).t) else Dispatched(x.m.cpu, pc);
    assert Exec(env, call, x) == Call(env, x, to);
  }

  lemma AfterCallRuns(env: Env, even: Word, s: State)
    requires s.status.Running? && s.handed.Handed?
    ensures var y := Exec(env, AfterCall(even), s);
            y.handed == s.handed && y.ticks == s.ticks && y.cyc == s.cyc
            && y.status == if s.m.cpu.R[15] == even then Running else Status.Left
  {
    hide Exec, Eval, EvalTest, CancelReturn;
    SeqRules(env); ChoiceRules(env); TestRules(env); LeafRules(env); RunCancelCall(env); RunReturn(env);
  }

  /** A link call hands over to the code for R15, and goes on exactly if that came back to the link address. */
  lemma LinkCall(env: Env, call: Stmt, even: Word, x: State)
    requires x.status.Running? && x.handed.Kept? && CallsPc(call, x) && |x.m.calls.frames| < CALL_STACK_SIZE
    ensures LinkedOut(env, x,
                      Exec(env, Seq(PushCall(even), Seq(Tick, Seq(CycSet(0), Seq(call, AfterCall(even))))), x), even)
  {
    hide Exec, Eval, AfterCall, PushReturn, ToItsPc, Unpack;
    SeqRules(env); RunPushCall(env); RunTick(env); RunCycSet(env);
    var x1 := x.(m := Linked(x.m, even), ticks := x.ticks + x.cyc, cyc := 0);
    CallRuns(env, call, x1);
    var to :| Exec(env, call, x1) == Call(env, x1, to) && to.Code? && ToItsPc(Handed(x1.m.cpu, x1.m.mem, x1.ticks, to));
    AfterCallRuns(env, even, Call(env, x1, to));
  }

  // ----- B and BL -------------------------------------------------------------------------

  function DirectCall(target: Word, ctx: Ctx): Stmt {
    if (target, ctx.fnThumb) in ctx.known then CallFunction(target, ctx.fnThumb) else Dispatch(Lit(target))
  }

  lemma LinkBranch(env: Env, target: Word, pc: Word, link: Word, ctx: Ctx, x: State)
    requires x.status.Running? && x.handed.Kept? && |x.m.calls.frames| < CALL_STACK_SIZE
    requires ctx.fnThumb == Unpack(x.m.cpu.cpsr).t
    ensures var even := And(link, 0xFFFF_FFFE);
            var y := Exec(env, EmitDirectBranch(target, pc, true, link, false, ctx), x);
            var cpu := x.m.cpu.(R := x.m.cpu.R[14 := link][15 := target]);
            var linked := PutCpu(x, cpu);
            if target == link then y == linked else LinkedOut(env, linked, y, even)
  {
    hide Exec, Eval, And, AfterCall, LinkedOut, Unpack;
    SeqRules(env); ChoiceRules(env); RunSetG(env); LeafRules(env);
    var x1 := PutReg(PutReg(x, 14, link), 15, target);
    if target != link { LinkCall(env, DirectCall(target, ctx), And(link, 0xFFFF_FFFE), x1); }
  }

  lemma PlainBranch(env: Env, target: Word, pc: Word, thumb: bool, ctx: Ctx, x: State)
    requires x.status.Running? && x.handed.Kept? && ctx.fnThumb == Unpack(x.m.cpu.cpsr).t
    ensures TickedOut(PutReg(x, 15, target), Exec(env, EmitDirectBranch(target, pc, false, 0, thumb, ctx), x))
  {
    hide Exec, Eval, And, AfterCall, Below, AtLeast, Unpack, EvenPc;
    SeqRules(env); ChoiceRules(env); RunSetG(env); LeafRules(env);
    RunTick(env); RunGoto(env); RunCallFunction(env); RunDispatch(env); RunReturn(env);
  }

  // ----- BX ---------------------------------------------------------------------------------

  lemma ExchangeTwice(p: Packed, t: Word)
    ensures var q := p.(cpsr := ExchangeT(p.cpsr, t));
            Abs(q) == Abs(p).(cpsr := Abs(p).cpsr.(t := And(t, 1) != 0), thumb := And(t, 1) != 0)
            && Abs(q.(cpsr := ExchangeT(q.cpsr, t))) == Abs(q)
  {
    hide Unpack, ExchangeT, And;
    UnpackExchange(p.cpsr, t);
    UnpackExchange(ExchangeT(p.cpsr, t), t);
  }

  /** After the target is in R15 and the charge ticked. */
  lemma ExchangeOut(env: Env, x: State, t: Word)
    requires x.status.Running? && x.handed.Kept? && Eval(env, Var(VBxt), x) == t && x.m.cpu.R[15] == EvenPc(t)
    ensures var y := Exec(env, Seq(DispatchExchange(Var(VBxt)), Return), x);
            y.status.Left? && y.ticks == x.ticks && ToItsPc(y.handed)
            && y.handed == Handed(x.m.cpu.(cpsr := ExchangeT(x.m.cpu.cpsr, t)), x.m.mem, x.ticks, y.handed.to)
  {
    hide Exec, Eval, ExchangeT, EvenPc, Unpack;
    SeqRules(env); RunDispatchExchange(env); RunReturn(env);
  }

  lemma ExchangeReturnOut(env: Env, x: State, t: Word)
    requires x.status.Running? && x.handed.Kept? && VBxt in x.vars && x.vars[VBxt] == t && x.m.cpu.R[15] == EvenPc(t)
    ensures var y := Exec(env, Seq(Seq(SetTFrom(Var(VBxt)), ReturnIfCallReturns(G(15))),
                                   Seq(DispatchExchange(Var(VBxt)), Return)), x);
            y.status.Left? && y.ticks == x.ticks
            && ToItsPc(y.handed) && y.handed.mem == x.m.mem && y.handed.ticks == x.ticks
            && Abs(y.handed.cpu) == Abs(x.m.cpu.(cpsr := ExchangeT(x.m.cpu.cpsr, t)))
  {
    hide Exec, Eval, ExchangeT, Unpack, AfterReturnTest, EvenPc;
    SeqRules(env); RunSetTFrom(env); RunReturnTest(env); LeafRules(env);
    var x1 := PutCpsr(x, ExchangeT(x.m.cpu.cpsr, t));
    var pc := x1.m.cpu.R[15];
    var x2 := AfterReturnTest(x1, pc);
    ReturnTest(x1, pc);
    ExchangeTwice(x.m.cpu, t);
    if x2.status.Running? { ExchangeOut(env, x2, t); }
  }

  lemma ExchangeRuns(env: Env, ins: Instr, ctx: Ctx, x: State)
    requires x.status.Running? && x.handed.Kept?
    ensures var t := ReadReg(Abs(x.m.cpu), ins.rm, ins);
            var jumped := PutReg(x, 15, And(t, 0xFFFF_FFFE)).m.cpu;
            var y := Exec(env, EmitExchange(ins, ctx), x);
            y.status.Left? && y.ticks == x.ticks + x.cyc
            && ToItsPc(y.handed) && y.handed.mem == x.m.mem && y.handed.ticks == y.ticks
            && Abs(y.handed.cpu) == Abs(jumped.(cpsr := ExchangeT(jumped.cpsr, t)))
  {
    hide Exec, Eval, ExchangeT, Unpack, And, ReadReg, ReadExpr, AfterReturnTest, ToItsPc;
    ReadAgrees(env, ins.rm, ins, x);
    var t := ReadReg(Abs(x.m.cpu), ins.rm, ins);
    SeqRules(env); ChoiceRules(env); RunSetVar(env); RunSetG(env); RunTick(env); LeafRules(env); BitRules(env);
    var x1 := PutReg(x.(vars := x.vars[VBxt := t]), 15, And(t, 0xFFFF_FFFE));
    var x2 := x1.(ticks := x1.ticks + x1.cyc);
    if ins.rm == 14 || ctx.forceBxReturn { ExchangeReturnOut(env, x2, t); } else { ExchangeOut(env, x2, t); }
  }

  lemma ExchangeAgrees(env: Env, ins: Instr, ctx: Ctx, x: State)
    requires AtBody(ins, x) && ins.op.BX?
    ensures Leaves(ins, x, Exec(env, EmitExchange(ins, ctx), x), ExecBranch(Abs(x.m.cpu), x.m.mem, ins))
  {
    hide Exec, EmitExchange, ExchangeT, Unpack, And, ReadReg, ToItsPc;
    var t := ReadReg(Abs(x.m.cpu), ins.rm, ins);
    ExchangeRuns(env, ins, ctx, x);
    ExchangeTwice(PutReg(x, 15, And(t, 0xFFFF_FFFE)).m.cpu, t);
  }

  // ----- The THUMB BL suffix --------------------------------------------------------------------

  /** The target and the link of a THUMB BL suffix are in R15 and LR when control is handed over. */
  lemma SuffixRuns(env: Env, ins: Instr, x: State)
    requires x.status.Running? && x.handed.Kept? && |x.m.calls.frames| < CALL_STACK_SIZE
    ensures var target := And(Add(x.m.cpu.R[14], ins.swiImm), 0xFFFF_FFFE);
            var newLr := Or(Add(ins.pc, 2), 1);
            var cpu := x.m.cpu.(R := x.m.cpu.R[14 := newLr][15 := target]);
            LinkedOut(env, PutCpu(x, cpu), Exec(env, EmitLongSuffix(ins), x), And(newLr, 0xFFFF_FFFE))
  {
    hide Exec, Eval, And, Or, Add, AfterCall, LinkedOut, Unpack;
    var target := And(Add(x.m.cpu.R[14], ins.swiImm), 0xFFFF_FFFE);
    var newLr := Or(Add(ins.pc, 2), 1);
    SeqRules(env); RunSetVar(env); RunSetG(env); LeafRules(env); BitRules(env); SumRules(env);
    var x1 := PutReg(PutReg(x.(vars := x.vars[VBlt := target]), 14, newLr), 15, target);
    LinkCall(env, Dispatch(Var(VBlt)), And(newLr, 0xFFFF_FFFE), x1);
    LocalsAside(env, x1, x.vars, Exec(env, EmitLongSuffix(ins), x), And(newLr, 0xFFFF_FFFE));
  }

  lemma LocalsAside(env: Env, x: State, vars: map<Local, Word>, y: State, even: Word)
    requires LinkedOut(env, x, y, even)
    ensures LinkedOut(env, x.(vars := vars), y, even)
  {
    hide ToItsPc;
  }

  // ----- All branches ---------------------------------------------------------------------------

  /** Control is gone in the interpreter's state, or was and is back with nothing left to charge. */
  ghost predicate HandsOver(ins: Instr, x: State, y: State, e: Effect) {
    Leaves(ins, x, y, e) || Returns(ins, x, y, e)
  }

  lemma LinkedHandsOver(env: Env, ins: Instr, x: State, cpu: Packed, y: State, even: Word, e: Effect)
    requires LinkedOut(env, PutCpu(x, cpu), y, even)
    requires Abs(cpu) == e.cpu && x.m.mem == e.mem && x.cyc == Cycles(ins, e)
    ensures HandsOver(ins, x, y, e)
  {
    hide Unpack, Cycles, ToItsPc;
  }

  lemma BranchCost(ins: Instr, e: Effect)
    requires IsBranch(ins.op) && e.memCycles == 0 && e.extraCycles == 0
    ensures ExecCost(ins) == Cycles(ins, e)
  {}

  lemma TickedHandsOver(ins: Instr, x: State, cpu: Packed, y: State, e: Effect)
    requires TickedOut(PutCpu(x, cpu), y)
    requires Abs(cpu) == e.cpu && x.m.mem == e.mem && x.cyc == Cycles(ins, e)
    ensures HandsOver(ins, x, y, e)
  {
    hide Unpack, Cycles, ToItsPc;
  }

  lemma PlainAgrees(env: Env, ins: Instr, ctx: Ctx, x: State)
    requires AtBody(ins, x) && InSet(ins, ctx, x.m.cpu) && ins.op.B?
    ensures HandsOver(ins, x, Exec(env, EmitBranch(ins, ctx), x), ExecBranch(Abs(x.m.cpu), x.m.mem, ins))
  {
    hide Exec, EmitDirectBranch, Unpack, ExecCost, Cycles, TickedOut, HandsOver;
    var e := ExecBranch(Abs(x.m.cpu), x.m.mem, ins);
    BranchCost(ins, e);
    PlainBranch(env, ins.branchTarget, ins.pc, ins.thumb, ctx, x);
    TickedHandsOver(ins, x, x.m.cpu.(R := x.m.cpu.R[15 := ins.branchTarget]), Exec(env, EmitBranch(ins, ctx), x), e);
  }

  /** BL to the next instruction keeps control. */
  predicate FallsThrough(ins: Instr) {
    ins.op.BL? && ins.branchTarget == Next(ins)
  }

  lemma LinkAgrees(env: Env, ins: Instr, ctx: Ctx, x: State)
    requires AtBody(ins, x) && InSet(ins, ctx, x.m.cpu) && ins.op.BL? && !ins.thumb
    ensures var e := ExecBranch(Abs(x.m.cpu), x.m.mem, ins);
            var y := Exec(env, EmitBranch(ins, ctx), x);
            if FallsThrough(ins) then Falls(ins, x, y, e) else HandsOver(ins, x, y, e)
  {
    hide Exec, EmitDirectBranch, Unpack, And, Add, LinkedOut, ToItsPc, ExecCost, Cycles, HandsOver;
    var e := ExecBranch(Abs(x.m.cpu), x.m.mem, ins);
    BranchCost(ins, e);
    LinkBranch(env, ins.branchTarget, ins.pc, Next(ins), ctx, x);
    if !FallsThrough(ins) {
      LinkedHandsOver(env, ins, x, x.m.cpu.(R := x.m.cpu.R[14 := Next(ins)][15 := ins.branchTarget]),
                      Exec(env, EmitBranch(ins, ctx), x), And(Next(ins), 0xFFFF_FFFE), e);
    }
  }

  lemma PrefixAgrees(env: Env, ins: Instr, ctx: Ctx, x: State)
    requires AtBody(ins, x) && ins.op.BL_prefix?
    ensures Falls(ins, x, Exec(env, EmitBranch(ins, ctx), x), ExecBranch(Abs(x.m.cpu), x.m.mem, ins))
  {
    hide Exec, Eval, Unpack, ToItsPc, ExecCost, Cycles;
    BranchCost(ins, ExecBranch(Abs(x.m.cpu), x.m.mem, ins));
    RunSetG(env); LeafRules(env);
  }

  lemma SuffixAgrees(env: Env, ins: Instr, ctx: Ctx, x: State)
    requires AtBody(ins, x) && ins.op.BL_suffix?
    ensures HandsOver(ins, x, Exec(env, EmitBranch(ins, ctx), x), ExecBranch(Abs(x.m.cpu), x.m.mem, ins))
  {
    hide Exec, EmitLongSuffix, Unpack, And, Or, Add, LinkedOut, ToItsPc, ExecCost, Cycles, HandsOver;
    var e := ExecBranch(Abs(x.m.cpu), x.m.mem, ins);
    var newLr := Or(Add(ins.pc, 2), 1);
    BranchCost(ins, e);
    SuffixRuns(env, ins, x);
    LinkedHandsOver(env, ins, x, x.m.cpu.(R := x.m.cpu.R[14 := newLr][15 := e.cpu.R[15]]),
                    Exec(env, EmitBranch(ins, ctx), x), And(newLr, 0xFFFF_FFFE), e);
  }

  /** Every branch: BL to the next instruction and the BL prefix keep control, all others hand it over. */
  lemma BranchAgrees(env: Env, ins: Instr, ctx: Ctx, x: State)
    requires AtBody(ins, x) && InSet(ins, ctx, x.m.cpu) && IsBranch(ins.op) && (ins.op.BL? ==> !ins.thumb)
    ensures var e := ExecBranch(Abs(x.m.cpu), x.m.mem, ins);
            var y := Exec(env, EmitBranch(ins, ctx), x);
            if ins.op.BL_prefix? || FallsThrough(ins) then Falls(ins, x, y, e) else HandsOver(ins, x, y, e)
  {
    hide Exec, EmitDirectBranch, EmitLongSuffix, ExecBranch, Abs, Leaves, Falls;
    match ins.op
    case B => PlainAgrees(env, ins, ctx, x);
    case BL => LinkAgrees(env, ins, ctx, x);
    case BL_prefix => PrefixAgrees(env, ins, ctx, x);
    case BL_suffix => SuffixAgrees(env, ins, ctx, x);
    case BX => ExchangeAgrees(env, ins, ctx, x);
  }
}
