// LDM and STM: emit_block_transfer against the interpreter's register loop.
module BlockTransfers {
  import opened Words
  import opened Ir
  import opened Cpu
  import opened Reference
  import opened RuntimeOps
  import opened Host
  import opened Codegen
  import opened Flags
  import opened BankAgreement
  import opened Lowering

  lemma AlignedValue(env: Env, s: State)
    requires VAddr in s.vars
    ensures Eval(env, AlignedAddr(), s) == Align4(s.vars[VAddr])
  {
    hide Eval, And;
    BitRules(env); LeafRules(env);
  }

  // ----- One register ---------------------------------------------------------------------

  /** The host state s stands where the interpreter's register loop stands in e. */
  ghost predicate Aligned(s: State, e: Effect, cursor: Word, finalBase: Word) {
    && s.status.Running? && s.handed.Kept?
    && Abs(s.m.cpu) == e.cpu && s.m.mem == e.mem
    && VAddr in s.vars && s.vars[VAddr] == cursor
    && VFb in s.vars && s.vars[VFb] == finalBase
  }

  /** Only machine contents change, and they change as the loop body changes them. */
  ghost predicate Moved(s: State, z: State, e: Effect) {
    z == s.(m := s.m.(cpu := z.m.cpu, mem := z.m.mem)) && Abs(z.m.cpu) == e.cpu && z.m.mem == e.mem
  }

  lemma LoadOne(env: Env, ins: Instr, r: Reg, s: State, e: Effect, cursor: Word, fb: Word)
    requires r < 15 && ins.block.load && Aligned(s, e, cursor, fb)
    ensures Moved(s, Exec(env, TransferCode(ins, r), s), TransferOne(e, ins, fb, cursor, r, env.costs))
  {
    hide Exec, Eval, And, Unpack, Read32, AlignedAddr, SetUserReg, WriteUserReg;
    AlignedValue(env, s);
    RunWriteUser(env); RunSetG(env); Read32Rule(env);
    SetUserRegAgrees(s.m.cpu, r, Read32(s.m.mem, Align4(cursor)));
    AbsSetReg(s.m.cpu, r, Read32(s.m.mem, Align4(cursor)));
  }

  lemma PcLiteral(ins: Instr)
    ensures StmPcLiteral(ins) == StmPcValue(ins)
  {
    hide Add, And;
    PcPlus12(ins.pc);
  }

  lemma StoreOne(env: Env, ins: Instr, r: Reg, s: State, e: Effect, cursor: Word, fb: Word)
    requires !ins.block.load && Aligned(s, e, cursor, fb)
    ensures Moved(s, Exec(env, TransferCode(ins, r), s), TransferOne(e, ins, fb, cursor, r, env.costs))
  {
    hide Exec, Eval, And, Unpack, Write32, AlignedAddr, UserReg, ReadUserReg, StmPcLiteral, StmPcValue, AnyBelow;
    AlignedValue(env, s);
    RunWrite32(env); LeafRules(env); SystemRules(env);
    UserRegAgrees(s.m.cpu, r);
    PcLiteral(ins);
  }

  /** One turn of the loop, for every register but a loaded PC. */
  lemma TurnAgrees(env: Env, ins: Instr, r: Reg, s: State, e: Effect, cursor: Word, fb: Word)
    requires (r < 15 || !ins.block.load) && Aligned(s, e, cursor, fb)
    ensures var z := Exec(env, Turn(ins, r), s);
            var e' := TransferOne(e, ins, fb, cursor, r, env.costs);
            Aligned(z, e', Add(cursor, 4), fb) && z.ticks == s.ticks && z.m.calls == s.m.calls
            && z.cyc == s.cyc + env.costs(Align4(cursor), 4, AnyBelow(ins.block.list, r))
            && e'.memCycles == e.memCycles + env.costs(Align4(cursor), 4, AnyBelow(ins.block.list, r))
            && e' == e.(cpu := e'.cpu, mem := e'.mem, memCycles := e'.memCycles)
  {
    hide Exec, Eval, And, Add, Unpack, TransferCode, TransferOne, AnyBelow, AlignedAddr;
    TurnFrame(env, ins, r, e, cursor, fb);
    AlignedValue(env, s);
    SeqRules(env); RunCycMem(env); RunSetVar(env); SumRules(env); LeafRules(env);
    var s1 := s.(cyc := s.cyc + env.costs(Align4(cursor), 4, AnyBelow(ins.block.list, r)));
    if ins.block.load { LoadOne(env, ins, r, s1, e, cursor, fb); } else { StoreOne(env, ins, r, s1, e, cursor, fb); }
  }

  lemma TurnFrame(env: Env, ins: Instr, r: Reg, e: Effect, cursor: Word, fb: Word)
    requires r < 15 || !ins.block.load
    ensures var e' := TransferOne(e, ins, fb, cursor, r, env.costs);
            e'.memCycles == e.memCycles + env.costs(Align4(cursor), 4, AnyBelow(ins.block.list, r))
            && e' == e.(cpu := e'.cpu, mem := e'.mem, memCycles := e'.memCycles)
  {
    hide And, Read32, Write32, WriteUserReg, ReadUserReg, AnyBelow, StmPcValue;
  }

  // ----- The loop -------------------------------------------------------------------------

  /** The loop's effect before the register loop reaches r, and where the host state must stand then. */
  ghost predicate Reached(env: Env, ins: Instr, x: State, s: State, k: nat)
    requires k <= 16
  {
    var e := TransferBelow(Abs(x.m.cpu), x.m.mem, ins, env.costs, k);
    var base := x.m.cpu.R[ins.block.rn];
    && Aligned(s, e, Cursor(base, ins.block, k), BlockFinalBase(base, ins.block))
    && s.cyc == x.cyc + e.memCycles && s.ticks == x.ticks && s.m.calls == x.m.calls
    && e.extraCycles == 0 && !e.wrotePc && !e.returned
  }

  lemma {:induction false} LoopAgrees(env: Env, ins: Instr, x: State, s: State, k: nat)
    requires k <= 16 && (k == 16 ==> !(ins.block.load && ins.block.list[15]))
    requires Reached(env, ins, x, s, 0)
    ensures Reached(env, ins, x, Exec(env, TransfersBelow(ins, k), s), k)
  {
    if k == 0 {
      ChoiceRules(env);
      NoTransfers(ins);
      hide Exec, Reached, TransfersBelow;
    } else {
      LoopAgrees(env, ins, x, s, k - 1);
      LoopTurn(env, ins, x, s, k);
    }
  }

  lemma NoTransfers(ins: Instr)
    ensures TransfersBelow(ins, 0) == Skip
  {}

  lemma LoopTurn(env: Env, ins: Instr, x: State, s: State, k: nat)
    requires 0 < k <= 16 && (k == 16 ==> !(ins.block.load && ins.block.list[15]))
    requires Reached(env, ins, x, Exec(env, TransfersBelow(ins, k - 1), s), k - 1)
    ensures Reached(env, ins, x, Exec(env, TransfersBelow(ins, k), s), k)
  {
    hide Exec, Unpack, Turn, TransferOne, Aligned, AnyBelow, Add, And, BlockFinalBase, BlockStart;
    SeqRules(env);
    if ins.block.list[k - 1] {
      var e := TransferBelow(Abs(x.m.cpu), x.m.mem, ins, env.costs, k - 1);
      var base := x.m.cpu.R[ins.block.rn];
      TurnAgrees(env, ins, k - 1, Exec(env, TransfersBelow(ins, k - 1), s), e, Cursor(base, ins.block, k - 1),
                 BlockFinalBase(base, ins.block));
    }
  }

  // ----- A loaded PC ------------------------------------------------------------------------

  /** Loading R15 is an exception return. */
  predicate ReturnsFromException(ins: Instr, mode: Word) {
    ins.block.sBit && PrivNonSystem(mode)
  }

  /** The word read for R15, masked, when control leaves by an exception return. */
  ghost predicate ReturnedOut(env: Env, s: State, z: State, ins: Instr, cursor: Word, sequential: bool) {
    var cost := env.costs(Align4(cursor), 4, sequential);
    && z.status.Left? && z.ticks == s.ticks + s.cyc + cost
    && ToItsPc(z.handed) && z.handed.mem == s.m.mem && z.handed.ticks == z.ticks
    && Abs(z.handed.cpu) == ExceptionReturn(Abs(s.m.cpu), And(Read32(s.m.mem, Align4(cursor)), 0xFFFF_FFFE))
  }

  lemma ReturnCode(env: Env, t: Expr, v: Word, s: State)
    requires s.status.Running? && s.handed.Kept?
    requires Eval(env, t, s.(ticks := s.ticks + s.cyc)) == v
    ensures var z := Exec(env, ExceptionReturnCode(t), s);
            z.status.Left? && z.ticks == s.ticks + s.cyc
            && ToItsPc(z.handed) && z.handed.mem == s.m.mem && z.handed.ticks == z.ticks
            && Abs(z.handed.cpu) == ExceptionReturn(Abs(s.m.cpu), v)
  {
    hide Exec, Eval, ReturnFromException, ExceptionReturn, Unpack;
    SeqRules(env);
    RunTick(env); RunReturnException(env); RunReturn(env);
    ReturnAgrees(s.m.cpu, v);
  }

  lemma PcCodeRuns(env: Env, ins: Instr, s: State, v: Word)
    requires s.status.Running? && s.handed.Kept? && VPc in s.vars && s.vars[VPc] == v
    ensures var z := Exec(env, PcCode(ins), s);
            if ReturnsFromException(ins, Abs(s.m.cpu).cpsr.mode)
            then z.status.Left? && z.ticks == s.ticks + s.cyc
                 && ToItsPc(z.handed) && z.handed.mem == s.m.mem && z.handed.ticks == z.ticks
                 && Abs(z.handed.cpu) == ExceptionReturn(Abs(s.m.cpu), And(v, 0xFFFF_FFFE))
            else z == s
  {
    hide Exec, Eval, EvalTest, Unpack, PrivNonSystem, ModeOf, ExceptionReturn, ExceptionReturnCode, And;
    ModeField(s.m.cpu.cpsr);
    ChoiceRules(env); TestRules(env); BitRules(env); LeafRules(env);
    if ReturnsFromException(ins, Abs(s.m.cpu).cpsr.mode) {
      ReturnCode(env, EAnd(Var(VPc), Lit(0xFFFF_FFFE)), And(v, 0xFFFF_FFFE), s);
    }
  }

  /** The load of R15: control leaves, or R15 holds the masked word. */
  lemma PcTransfer(env: Env, ins: Instr, s: State, e: Effect, cursor: Word, fb: Word)
    requires ins.block.load && Aligned(s, e, cursor, fb)
    ensures var z := Exec(env, TransferCode(ins, 15), s);
            var v := Read32(s.m.mem, Align4(cursor));
            if ReturnsFromException(ins, e.cpu.cpsr.mode)
            then z.status.Left? && z.ticks == s.ticks + s.cyc
                 && ToItsPc(z.handed) && z.handed.mem == s.m.mem && z.handed.ticks == z.ticks
                 && Abs(z.handed.cpu) == ExceptionReturn(e.cpu, And(v, 0xFFFF_FFFE))
            else z == PutReg(s.(vars := s.vars[VPc := v]), 15, And(v, 0xFFFF_FFFE))
  {
    hide Exec, Eval, And, Unpack, PcCode, AlignedAddr, Read32, ExceptionReturn, ReturnsFromException;
    PcTransferShape(ins);
    AlignedValue(env, s);
    SeqRules(env); RunSetVar(env); RunSetG(env); Read32Rule(env); BitRules(env); LeafRules(env);
    var v := Read32(s.m.mem, Align4(cursor));
    PcCodeRuns(env, ins, s.(vars := s.vars[VPc := v]), v);
  }

  lemma PcTransferShape(ins: Instr)
    requires ins.block.load
    ensures TransferCode(ins, 15) ==
            Seq(SetVar(VPc, ERead32(AlignedAddr())), Seq(PcCode(ins), SetG(15, EAnd(Var(VPc), Lit(0xFFFF_FFFE)))))
  {}

  lemma PcTurnReturns(env: Env, ins: Instr, s: State, e: Effect, cursor: Word, fb: Word)
    requires ins.block.load && Aligned(s, e, cursor, fb) && ReturnsFromException(ins, e.cpu.cpsr.mode)
    ensures ReturnedOut(env, s, Exec(env, Turn(ins, 15), s), ins, cursor, AnyBelow(ins.block.list, 15))
  {
    hide Exec, Eval, And, Unpack, TransferCode, AnyBelow, AlignedAddr, Read32, ExceptionReturn, ReturnsFromException;
    AlignedValue(env, s);
    SeqRules(env); RunCycMem(env);
    var s1 := s.(cyc := s.cyc + env.costs(Align4(cursor), 4, AnyBelow(ins.block.list, 15)));
    PcTransfer(env, ins, s1, e, cursor, fb);
  }

  lemma PcTurnLoads(env: Env, ins: Instr, s: State, e: Effect, cursor: Word, fb: Word)
    requires ins.block.load && Aligned(s, e, cursor, fb) && !ReturnsFromException(ins, e.cpu.cpsr.mode)
    ensures var z := Exec(env, Turn(ins, 15), s);
            var v := And(Read32(s.m.mem, Align4(cursor)), 0xFFFF_FFFE);
            Aligned(z, e.(cpu := SetReg(e.cpu, 15, v)), Add(cursor, 4), fb)
            && z.cyc == s.cyc + env.costs(Align4(cursor), 4, AnyBelow(ins.block.list, 15)) && z.ticks == s.ticks
  {
    hide Exec, Eval, And, Add, Unpack, TransferCode, AnyBelow, AlignedAddr, Read32, ReturnsFromException;
    AlignedValue(env, s);
    SeqRules(env); RunCycMem(env); RunSetVar(env); SumRules(env); LeafRules(env);
    var s1 := s.(cyc := s.cyc + env.costs(Align4(cursor), 4, AnyBelow(ins.block.list, 15)));
    PcTransfer(env, ins, s1, e, cursor, fb);
  }

  // ----- Setup and tail -----------------------------------------------------------------------

  lemma SetupAgrees(env: Env, ins: Instr, x: State)
    requires x.status.Running? && x.handed.Kept? && !EmptyList(ins.block.list)
    ensures var s := Exec(env, BlockSetup(ins), x);
            Reached(env, ins, x, s, 0) && s == x.(vars := s.vars)
  {
    hide Exec, Eval, Add, Sub, Unpack, BytesBelow, EmptyList;
    SeqRules(env); RunSetVar(env); SumRules(env); LeafRules(env);
  }

  /** The block transfer of the emitted code: an exception return leaves before the base is written back. */
  function EmittedBlock(cpu: CpuState, mem: Mem, ins: Instr, costs: CostModel): Effect {
    var e := ExecBlock(cpu, mem, ins, costs);
    if !EmptyList(ins.block.list) && e.returned then TransferBelow(cpu, mem, ins, costs, 16) else e
  }

  predicate LoadsPc(ins: Instr) {
    ins.block.load && (EmptyList(ins.block.list) || ins.block.list[15])
  }

  predicate WritesBase(ins: Instr) {
    ins.block.writeback && !(ins.block.load && ins.block.list[ins.block.rn])
  }

  /** The base writeback and the jump, from the state the loop leaves. */
  lemma TailAgrees(env: Env, ins: Instr, s: State, e: Effect, cursor: Word, fb: Word)
    requires Aligned(s, e, cursor, fb) && !EmptyList(ins.block.list)
    ensures var z := Exec(env, BlockTail(ins), s);
            var cpu := if WritesBase(ins) then SetReg(e.cpu, ins.block.rn, fb) else e.cpu;
            if LoadsPc(ins) then
              z.status != Running && z.status != Aborted && z.ticks == s.ticks + s.cyc
              && ToItsPc(z.handed) && Abs(z.handed.cpu) == cpu && z.handed.mem == s.m.mem && z.handed.ticks == z.ticks
            else
              z.status.Running? && z.handed.Kept? && Abs(z.m.cpu) == cpu && z.m.mem == s.m.mem && z.m.calls == s.m.calls
              && z.ticks == s.ticks && z.cyc == s.cyc
  {
    hide Exec, Eval, Unpack, JumpThrough, EmptyList;
    SeqRules(env); ChoiceRules(env); RunSetG(env); LeafRules(env);
    var s1 := if WritesBase(ins) then PutReg(s, ins.block.rn, fb) else s;
    JumpLeaves(env, G(15), ins.block.rn == 13, s1);
  }

  // ----- The whole instruction -------------------------------------------------------------------

  lemma BlockCost(ins: Instr, e: Effect)
    requires (ins.op.LDM? || ins.op.STM?) && (ins.block.load <==> ins.op.LDM?)
    requires e.extraCycles == 0 && (e.wrotePc <==> LoadsPc(ins))
    ensures Cycles(ins, e) == ExecCost(ins) + e.memCycles
  {
    hide EmptyList;
  }

  /** The interpreter's loop when it does not load R15, or loads it as its last register. */
  lemma LastTurn(cpu: CpuState, mem: Mem, ins: Instr, costs: CostModel)
    requires ins.block.load && ins.block.list[15]
    ensures var e := TransferBelow(cpu, mem, ins, costs, 15);
            var f := TransferBelow(cpu, mem, ins, costs, 16);
            var base := cpu.R[ins.block.rn];
            var a := Align4(Cursor(base, ins.block, 15));
            var v := And(Read32(e.mem, a), 0xFFFF_FFFE);
            var returned := ReturnsFromException(ins, e.cpu.cpsr.mode);
            f == e.(cpu := if returned then ExceptionReturn(e.cpu, v) else SetReg(e.cpu, 15, v), wrotePc := true,
                    returned := e.returned || returned,
                    memCycles := e.memCycles + costs(a, 4, AnyBelow(ins.block.list, 15)))
  {
    hide And, Read32, ExceptionReturn, AnyBelow, BlockFinalBase, PrivNonSystem;
  }

  lemma BlockShape(ins: Instr)
    requires !EmptyList(ins.block.list)
    ensures EmitBlockTransfer(ins) == Seq(BlockSetup(ins), Seq(TransfersBelow(ins, 16), BlockTail(ins)))
    ensures ins.block.list[15] ==> TransfersBelow(ins, 16) == Seq(TransfersBelow(ins, 15), Turn(ins, 15))
  {
    hide EmptyList;
  }

  lemma NotEmpty(ins: Instr)
    requires ins.block.list[15]
    ensures !EmptyList(ins.block.list)
  {}

  /** A loop that does not load R15, then the tail. */
  lemma PlainBlockAgrees(env: Env, ins: Instr, x: State)
    requires AtBody(ins, x) && (ins.op.LDM? || ins.op.STM?) && (ins.block.load <==> ins.op.LDM?)
    requires !EmptyList(ins.block.list) && !LoadsPc(ins)
    ensures Falls(ins, x, Exec(env, EmitBlockTransfer(ins), x), EmittedBlock(Abs(x.m.cpu), x.m.mem, ins, env.costs))
  {
    hide Exec, Abs, EmitBlockTransfer, BlockSetup, BlockTail, TransfersBelow, TransferBelow, Cursor, BlockFinalBase,
      EmptyList, ExecCost, Cycles;
    BlockShape(ins);
    SeqRules(env);
    SetupAgrees(env, ins, x);
    var s := Exec(env, BlockSetup(ins), x);
    LoopAgrees(env, ins, x, s, 16);
    var e := TransferBelow(Abs(x.m.cpu), x.m.mem, ins, env.costs, 16);
    var base := x.m.cpu.R[ins.block.rn];
    TailAgrees(env, ins, Exec(env, TransfersBelow(ins, 16), s), e, Cursor(base, ins.block, 16),
               BlockFinalBase(base, ins.block));
    BlockCost(ins, EmittedBlock(Abs(x.m.cpu), x.m.mem, ins, env.costs));
    AbsRegs(x.m.cpu);
  }

  lemma AbsRegs(p: Packed)
    ensures Abs(p).R == p.R
  {}

  lemma SameMode(cpu: CpuState, mem: Mem, ins: Instr, costs: CostModel, k: nat)
    requires k <= 15
    ensures var e := TransferBelow(cpu, mem, ins, costs, k);
            e.cpu.cpsr == cpu.cpsr && !e.returned && !e.wrotePc && e.extraCycles == 0
  {
    hide And, Read32, Write32, AnyBelow, BlockFinalBase, Cursor, ExceptionReturn;
  }

  /** The loop up to R15, whichever way R15 is then loaded. */
  lemma LoopToPc(env: Env, ins: Instr, x: State) returns (s: State)
    requires AtBody(ins, x) && ins.block.list[15]
    ensures Reached(env, ins, x, s, 15)
    ensures Exec(env, EmitBlockTransfer(ins), x) == Exec(env, BlockTail(ins), Exec(env, Turn(ins, 15), s))
  {
    hide Exec, Abs, EmitBlockTransfer, BlockSetup, BlockTail, TransfersBelow, Reached, EmptyList, Turn, ExecCost;
    NotEmpty(ins);
    BlockShape(ins);
    SeqRules(env);
    SetupAgrees(env, ins, x);
    s := Exec(env, TransfersBelow(ins, 15), Exec(env, BlockSetup(ins), x));
    LoopAgrees(env, ins, x, Exec(env, BlockSetup(ins), x), 15);
  }

  /** R15 loaded by an exception return: control leaves inside the loop. */
  lemma ReturningBlockAgrees(env: Env, ins: Instr, x: State)
    requires AtBody(ins, x) && ins.op.LDM? && ins.block.load && ins.block.list[15]
    requires ReturnsFromException(ins, Abs(x.m.cpu).cpsr.mode)
    ensures Leaves(ins, x, Exec(env, EmitBlockTransfer(ins), x), EmittedBlock(Abs(x.m.cpu), x.m.mem, ins, env.costs))
  {
    hide Exec, Abs, EmitBlockTransfer, BlockTail, TransferBelow, Cursor, BlockFinalBase,
      EmptyList, ExecCost, Cycles, Turn, And, Read32, ExceptionReturn, AnyBelow;
    var s := LoopToPc(env, ins, x);
    var cpu := Abs(x.m.cpu);
    var e := TransferBelow(cpu, x.m.mem, ins, env.costs, 15);
    var base := x.m.cpu.R[ins.block.rn];
    SameMode(cpu, x.m.mem, ins, env.costs, 15);
    PcTurnReturns(env, ins, s, e, Cursor(base, ins.block, 15), BlockFinalBase(base, ins.block));
    LeftStays(env, BlockTail(ins), Exec(env, Turn(ins, 15), s));
    LastTurn(cpu, x.m.mem, ins, env.costs);
    AbsRegs(x.m.cpu);
    NotEmpty(ins);
    BlockCost(ins, TransferBelow(cpu, x.m.mem, ins, env.costs, 16));
  }

  lemma LeftStays(env: Env, st: Stmt, s: State)
    requires !s.status.Running?
    ensures Exec(env, st, s) == s
  {}

  /** R15 loaded in place: the jump follows the base writeback. */
  lemma JumpingBlockAgrees(env: Env, ins: Instr, x: State)
    requires AtBody(ins, x) && ins.op.LDM? && ins.block.load && ins.block.list[15]
    requires !ReturnsFromException(ins, Abs(x.m.cpu).cpsr.mode)
    ensures Leaves(ins, x, Exec(env, EmitBlockTransfer(ins), x), EmittedBlock(Abs(x.m.cpu), x.m.mem, ins, env.costs))
  {
    hide Exec, Abs, EmitBlockTransfer, BlockTail, TransferBelow, Cursor, BlockFinalBase,
      EmptyList, ExecCost, Cycles, Turn, And, Read32, ExceptionReturn, AnyBelow;
    var s := LoopToPc(env, ins, x);
    var cpu := Abs(x.m.cpu);
    var e := TransferBelow(cpu, x.m.mem, ins, env.costs, 15);
    var base := x.m.cpu.R[ins.block.rn];
    var fb := BlockFinalBase(base, ins.block);
    var cursor := Cursor(base, ins.block, 15);
    SameMode(cpu, x.m.mem, ins, env.costs, 15);
    PcTurnLoads(env, ins, s, e, cursor, fb);
    LastTurn(cpu, x.m.mem, ins, env.costs);
    AbsRegs(x.m.cpu);
    var v := And(Read32(e.mem, Align4(cursor)), 0xFFFF_FFFE);
    NotEmpty(ins);
    TailAgrees(env, ins, Exec(env, Turn(ins, 15), s), e.(cpu := SetReg(e.cpu, 15, v)), Add(cursor, 4), fb);
    BlockCost(ins, EmittedBlock(cpu, x.m.mem, ins, env.costs));
  }

  // ----- The empty list ---------------------------------------------------------------------------

  lemma EmptySetupRuns(env: Env, ins: Instr, x: State)
    requires x.status.Running? && EmptyList(ins.block.list)
    ensures var base := x.m.cpu.R[ins.block.rn];
            Exec(env, EmptySetup(ins), x) ==
            x.(vars := x.vars[VBase := base][VAddr := BlockStart(base, ins.block)][VFb := BlockFinalBase(base, ins.block)],
               cyc := x.cyc + env.costs(Align4(BlockStart(base, ins.block)), 4, false))
  {
    hide Exec, Eval, Add, Sub, EmptyList, AlignedAddr, And;
    SeqRules(env); RunSetVar(env); RunCycMem(env); SumRules(env); LeafRules(env);
    EmptyAddress(env, ins, x);
  }

  lemma EmptySetupAgrees(env: Env, ins: Instr, x: State)
    requires x.status.Running? && x.handed.Kept? && EmptyList(ins.block.list)
    ensures var s := Exec(env, EmptySetup(ins), x);
            var base := x.m.cpu.R[ins.block.rn];
            var a := Align4(BlockStart(base, ins.block));
            Aligned(s, Plain(Abs(x.m.cpu), x.m.mem), BlockStart(base, ins.block), BlockFinalBase(base, ins.block))
            && s == x.(vars := s.vars, cyc := x.cyc + env.costs(a, 4, false))
  {
    hide Exec, EmptySetup, Unpack, EmptyList, BlockStart, BlockFinalBase, And;
    EmptySetupRuns(env, ins, x);
  }

  lemma EmptyAddress(env: Env, ins: Instr, x: State)
    ensures forall s: State {:trigger Eval(env, AlignedAddr(), s)} :: VAddr in s.vars ==>
              Eval(env, AlignedAddr(), s) == Align4(s.vars[VAddr])
  {
    hide Eval, And;
    BitRules(env); LeafRules(env);
  }

  lemma PcJump(env: Env, ins: Instr, s: State, v: Word)
    requires s.status.Running? && s.handed.Kept? && VPc in s.vars && s.vars[VPc] == v
    ensures var code := Seq(PcCode(ins), Seq(SetG(15, EAnd(Var(VPc), Lit(0xFFFF_FFFE))), JumpThrough(G(15), false)));
            var z := Exec(env, code, s);
            var cpu := Abs(s.m.cpu);
            var pc := And(v, 0xFFFF_FFFE);
            z.status != Running && z.status != Aborted && z.ticks == s.ticks + s.cyc
            && ToItsPc(z.handed) && z.handed.mem == s.m.mem && z.handed.ticks == z.ticks
            && Abs(z.handed.cpu) ==
               if ReturnsFromException(ins, cpu.cpsr.mode) then ExceptionReturn(cpu, pc) else SetReg(cpu, 15, pc)
  {
    hide Exec, Eval, And, Unpack, PcCode, ExceptionReturn, ReturnsFromException, JumpThrough;
    SeqRules(env); RunSetG(env); BitRules(env); LeafRules(env);
    PcCodeRuns(env, ins, s, v);
    if !ReturnsFromException(ins, Abs(s.m.cpu).cpsr.mode) {
      JumpLeaves(env, G(15), false, PutReg(s, 15, And(v, 0xFFFF_FFFE)));
    }
  }

  lemma EmptyLoadAgrees(env: Env, ins: Instr, s: State, e: Effect, cursor: Word, fb: Word)
    requires Aligned(s, e, cursor, fb)
    ensures var z := Exec(env, EmptyLoad(ins), s);
            var v := And(Read32(s.m.mem, Align4(cursor)), 0xFFFF_FFFE);
            var c1 := if ins.block.writeback then SetReg(e.cpu, ins.block.rn, fb) else e.cpu;
            var c2 := if ReturnsFromException(ins, c1.cpsr.mode) then ExceptionReturn(c1, v) else SetReg(c1, 15, v);
            z.status != Running && z.status != Aborted && z.ticks == s.ticks + s.cyc
            && ToItsPc(z.handed) && Abs(z.handed.cpu) == c2 && z.handed.mem == s.m.mem && z.handed.ticks == z.ticks
  {
    hide Exec, Eval, And, Unpack, PcCode, AlignedAddr, Read32, ExceptionReturn, ReturnsFromException, JumpThrough;
    AlignedValue(env, s);
    SeqRules(env); ChoiceRules(env); RunSetVar(env); RunSetG(env); Read32Rule(env); LeafRules(env);
    var v := Read32(s.m.mem, Align4(cursor));
    var s1 := s.(vars := s.vars[VPc := v]);
    PcJump(env, ins, if ins.block.writeback then PutReg(s1, ins.block.rn, fb) else s1, v);
  }

  lemma EmptyStoreAgrees(env: Env, ins: Instr, s: State, e: Effect, cursor: Word, fb: Word)
    requires Aligned(s, e, cursor, fb)
    ensures var z := Exec(env, EmptyStore(ins), s);
            z == s.(m := s.m.(cpu := z.m.cpu, mem := z.m.mem)) && z.m.mem == Write32(s.m.mem, Align4(cursor), StmPcValue(ins))
            && Abs(z.m.cpu) == if ins.block.writeback then SetReg(e.cpu, ins.block.rn, fb) else e.cpu
  {
    hide Exec, Eval, Unpack, And, Write32, AlignedAddr, StmPcLiteral, StmPcValue;
    AlignedValue(env, s);
    PcLiteral(ins);
    SeqRules(env); ChoiceRules(env); RunSetG(env); RunWrite32(env); LeafRules(env);
  }

  lemma EmptyShape(ins: Instr)
    requires EmptyList(ins.block.list)
    ensures EmitBlockTransfer(ins) == Seq(EmptySetup(ins), if ins.block.load then EmptyLoad(ins) else EmptyStore(ins))
  {
    hide EmptyList;
  }

  /** An empty list moves one word at a 0x40 stride; a load puts it in R15. */
  lemma EmptyBlockAgrees(env: Env, ins: Instr, x: State)
    requires AtBody(ins, x) && (ins.op.LDM? || ins.op.STM?) && (ins.block.load <==> ins.op.LDM?)
    requires EmptyList(ins.block.list)
    ensures var e := EmittedBlock(Abs(x.m.cpu), x.m.mem, ins, env.costs);
            var y := Exec(env, EmitBlockTransfer(ins), x);
            if LoadsPc(ins) then Leaves(ins, x, y, e) else Falls(ins, x, y, e)
  {
    hide Exec, Abs, EmitBlockTransfer, EmptySetup, EmptyLoad, EmptyStore, BlockStart, BlockFinalBase, EmptyList,
      ExecCost, Cycles, And, Read32, Write32, ExceptionReturn, StmPcValue;
    EmptyShape(ins);
    SeqRules(env);
    EmptySetupAgrees(env, ins, x);
    var s := Exec(env, EmptySetup(ins), x);
    var cpu := Abs(x.m.cpu);
    var base := x.m.cpu.R[ins.block.rn];
    AbsRegs(x.m.cpu);
    BlockCost(ins, EmittedBlock(cpu, x.m.mem, ins, env.costs));
    if ins.block.load {
      EmptyLoadAgrees(env, ins, s, Plain(cpu, x.m.mem), BlockStart(base, ins.block), BlockFinalBase(base, ins.block));
    } else {
      EmptyStoreAgrees(env, ins, s, Plain(cpu, x.m.mem), BlockStart(base, ins.block), BlockFinalBase(base, ins.block));
    }
  }

  /** Every LDM and STM: any list, the empty one included, user-bank forms and exception returns. */
  lemma BlockAgrees(env: Env, ins: Instr, x: State)
    requires AtBody(ins, x) && (ins.op.LDM? || ins.op.STM?) && (ins.block.load <==> ins.op.LDM?)
    ensures var e := EmittedBlock(Abs(x.m.cpu), x.m.mem, ins, env.costs);
            var y := Exec(env, EmitBlockTransfer(ins), x);
            if LoadsPc(ins) then Leaves(ins, x, y, e) else Falls(ins, x, y, e)
  {
    hide Exec, EmitBlockTransfer, EmittedBlock, Leaves, Falls, EmptyList, ReturnsFromException, Abs;
    if EmptyList(ins.block.list) { EmptyBlockAgrees(env, ins, x); }
    else if !LoadsPc(ins) { PlainBlockAgrees(env, ins, x); }
    else if ReturnsFromException(ins, Abs(x.m.cpu).cpsr.mode) { ReturningBlockAgrees(env, ins, x); }
    else { JumpingBlockAgrees(env, ins, x); }
  }
}
