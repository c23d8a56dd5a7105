// Single loads and stores: emit_memory against the interpreter's cases.
module Transfers {
  import opened Words
  import opened Ir
  import opened Cpu
  import opened Reference
  import opened RuntimeOps
  import opened Host
  import opened Codegen
  import opened Flags
  import opened Shifter
  import opened Lowering
  import opened Alu

  // ----- Address --------------------------------------------------------------------------

  /** An immediate shift count below 32, ROR #0 already turned into RRX, and a post-indexed form writes back. */
  predicate MemOk(ins: Instr) {
    && (ins.mem.offset.RegOffset? ==> ins.mem.offset.n < 32 && (ins.mem.offset.kind.ROR? ==> ins.mem.offset.n != 0))
    && (!ins.mem.preIndexed ==> ins.mem.writeback)
  }

  /** The registers an address is taken from in the emitted code: an R15 offset is the PC operand there,
      the bare PC in the interpreter. */
  function AddressView(cpu: CpuState, ins: Instr): CpuState {
    if ins.mem.offset.RegOffset? && ins.mem.offset.rm == 15 then SetReg(cpu, 15, PcOperand(ins)) else cpu
  }

  lemma OffsetValue(env: Env, kind: ShiftType, n: Word, s: State, rm: Word)
    requires n < 32 && (kind.ROR? ==> n != 0) && VMoRm in s.vars && s.vars[VMoRm] == rm
    ensures Eval(env, OffsetExpr(kind, n), s) == DoShift(rm, kind, n, n == 0, Unpack(s.m.cpu.cpsr).c).value
  {
    hide Eval, And, Or, Shl, Shr, Asr, Sub, SignBit, SignFill, Rotate, RotateExpr, RrxExpr, CpsrC, C01, Unpack;
    CarryField(s.m.cpu.cpsr);
    LeafRules(env); ShiftRules(env); AsrRule(env);
    SmallCount(n);
    SignFillValue(env, Var(VMoRm), s);
    RrxValue(env, Var(VMoRm), s);
    if kind.ROR? { RotateValue(env, Var(VMoRm), Lit(n), s); }
  }

  lemma OffsetAgrees(env: Env, ins: Instr, x: State)
    requires x.status.Running? && MemOk(ins)
    ensures var y := Exec(env, EmitMemOffset(ins), x);
            y == x.(vars := y.vars) && VOff in y.vars && y.vars[VOff] == MemOffsetOf(AddressView(Abs(x.m.cpu), ins), ins)
            && (VBase in x.vars ==> VBase in y.vars && y.vars[VBase] == x.vars[VBase])
  {
    hide Exec, Eval, Unpack, OffsetExpr, DoShift, ReadExpr, Add;
    SeqRules(env); RunSetVar(env); LeafRules(env);
    if ins.mem.offset.RegOffset? {
      var rm := ReadReg(Abs(x.m.cpu), ins.mem.offset.rm, ins);
      ReadAgrees(env, ins.mem.offset.rm, ins, x);
      OffsetValue(env, ins.mem.offset.kind, ins.mem.offset.n, x.(vars := x.vars[VMoRm := rm]), rm);
    }
  }

  lemma ReadsView(cpu: CpuState, r: Reg, ins: Instr)
    ensures ReadReg(AddressView(cpu, ins), r, ins) == ReadReg(cpu, r, ins)
  {
    hide Add;
  }

  lemma BaseAgrees(env: Env, ins: Instr, x: State)
    ensures Eval(env, BaseExpr(ins), x) == MemBase(AddressView(Abs(x.m.cpu), ins), ins)
  {
    hide Eval, Unpack, And, Add, ReadReg, ReadExpr;
    ReadAgrees(env, ins.mem.rn, ins, x);
    ReadsView(Abs(x.m.cpu), ins.mem.rn, ins);
    BitRules(env); LeafRules(env);
  }

  /** The locals hold the interpreter's addresses and the access is charged. */
  ghost predicate Addressed(env: Env, ins: Instr, x: State, y: State) {
    var cpu := AddressView(Abs(x.m.cpu), ins);
    && y == x.(vars := y.vars, cyc := x.cyc + env.costs(EffectiveAddress(cpu, ins), AccessBytes(ins.op), false))
    && VEa in y.vars && y.vars[VEa] == EffectiveAddress(cpu, ins)
    && VPost in y.vars && y.vars[VPost] == WritebackAddress(cpu, ins)
  }

  lemma AddressAgrees(env: Env, ins: Instr, x: State)
    requires x.status.Running? && MemOk(ins)
    ensures Addressed(env, ins, x, Exec(env, MemAddressCode(ins), x))
  {
    hide Exec, Eval, Abs, AddressView, EmitMemOffset, BaseExpr, MemBase, MemOffsetOf, Add, Sub, AccessBytes;
    SeqRules(env); RunSetVar(env); RunCycMem(env); LeafRules(env); SumRules(env);
    BaseAgrees(env, ins, x);
    var x1 := x.(vars := x.vars[VBase := MemBase(AddressView(Abs(x.m.cpu), ins), ins)]);
    OffsetAgrees(env, ins, x1);
  }

  // ----- Loads ----------------------------------------------------------------------------

  /** Only locals changed; the loaded value is in its local and the addresses still are. */
  ghost predicate HasValue(s: State, t: State, v: Word) {
    && t == s.(vars := t.vars) && VVal in t.vars && t.vars[VVal] == v
    && (VEa in s.vars ==> VEa in t.vars && t.vars[VEa] == s.vars[VEa])
    && (VPost in s.vars ==> VPost in t.vars && t.vars[VPost] == s.vars[VPost])
  }

  lemma RotationCount(ea: Word)
    ensures And(Mul(And(ea, 3), 8), 31) == Mul(And(ea, 3), 8) && Mul(And(ea, 3), 8) < 32
  {}

  lemma LoadWord(env: Env, s: State)
    requires s.status.Running? && VEa in s.vars
    ensures HasValue(s, Exec(env, LoadCode(LDR), s), LoadValue(s.m.mem, LDR, s.vars[VEa]))
  {
    hide Exec, Eval, EvalTest, And, Mul, Rotate, RotateExpr, Read32;
    RotationCount(s.vars[VEa]);
    SeqRules(env); RunSetVar(env); LeafRules(env); BitRules(env); SumRules(env); IfRule(env); TestRules(env);
    Read32Rule(env);
    var rot := EMul(EAnd(Var(VEa), Lit(3)), Lit(8));
    var s1 := s.(vars := s.vars[VRaw := Read32(s.m.mem, Align4(s.vars[VEa]))]);
    if Eval(env, rot, s1) != 0 { RotateValue(env, Var(VRaw), rot, s1); }
  }

  lemma EvenAddress(ea: Word)
    requires And(ea, 1) == 0
    ensures And(ea, 0xFFFF_FFFE) == ea
  {}

  lemma LoadHalf(env: Env, s: State)
    requires s.status.Running? && VEa in s.vars
    ensures HasValue(s, Exec(env, LoadCode(LDRH), s), LoadValue(s.m.mem, LDRH, s.vars[VEa]))
  {
    hide Exec, Eval, And, Read16, FromHalf, LoadValue, Swapped;
    SeqRules(env); RunSetVar(env); LeafRules(env); BitRules(env); Read16Rule(env);
    HalfValue(env, s.(vars := s.vars[VRaw := FromHalf(Read16(s.m.mem, And(s.vars[VEa], 0xFFFF_FFFE)))]));
  }

  /** The emitted choice between the halfword and its rotation. */
  function Swapped(): Expr {
    EIf(TNonZero(EAnd(Var(VEa), Lit(1))), EOr(EShr(Var(VRaw), Lit(8)), EShl(Var(VRaw), Lit(24))), Var(VRaw))
  }

  lemma HalfValue(env: Env, s: State)
    requires VEa in s.vars && VRaw in s.vars && s.vars[VRaw] == FromHalf(Read16(s.m.mem, And(s.vars[VEa], 0xFFFF_FFFE)))
    ensures Eval(env, Swapped(), s) == LoadValue(s.m.mem, LDRH, s.vars[VEa])
    ensures LoadCode(LDRH) == Seq(SetVar(VRaw, ERead16(EAnd(Var(VEa), Lit(0xFFFF_FFFE)))), SetVar(VVal, Swapped()))
  {
    hide Eval, EvalTest, And, Or, Shl, Shr, Read16, FromHalf;
    LeafRules(env); BitRules(env); ShiftRules(env); IfRule(env); TestRules(env);
    if And(s.vars[VEa], 1) == 0 { EvenAddress(s.vars[VEa]); }
  }

  lemma CastBack(b: bv8, h: bv16)
    ensures Low8(FromByte(b)) == b && Low16(FromHalf(h)) == h
  {}

  lemma LoadByte(env: Env, s: State)
    requires s.status.Running? && VEa in s.vars
    ensures HasValue(s, Exec(env, LoadCode(LDRB), s), LoadValue(s.m.mem, LDRB, s.vars[VEa]))
  {
    hide Exec, Eval, Read8;
    RunSetVar(env); LeafRules(env); Read8Rule(env);
  }

  lemma SignedHalfValue(env: Env, s: State)
    requires VEa in s.vars && And(s.vars[VEa], 1) == 0
    ensures Eval(env, ECast16(ERead16(Var(VEa))), s) == LoadValue(s.m.mem, LDRSH, s.vars[VEa])
  {
    hide Eval, Read16, Sext, SExt16, Low16, And, FromHalf;
    var h := Read16(s.m.mem, s.vars[VEa]);
    CastBack(0, h);
    SextIsCast16(h);
    LeafRules(env); Read16Rule(env); Cast16Rule(env);
  }

  lemma SignedByteValue(env: Env, s: State)
    requires VEa in s.vars
    ensures Eval(env, ECast8(ERead8(Var(VEa))), s) == Sext(FromByte(Read8(s.m.mem, s.vars[VEa])), 8)
  {
    hide Eval, Read8, Sext, SExt8, Low8, FromByte;
    var b := Read8(s.m.mem, s.vars[VEa]);
    CastBack(b, 0);
    SextIsCast8(b);
    LeafRules(env); Read8Rule(env); Cast8Rule(env);
  }

  lemma LoadSignedByte(env: Env, s: State)
    requires s.status.Running? && VEa in s.vars
    ensures HasValue(s, Exec(env, LoadCode(LDRSB), s), LoadValue(s.m.mem, LDRSB, s.vars[VEa]))
  {
    hide Exec, Eval, Read8, Sext, FromByte;
    SignedByteValue(env, s);
    RunSetVar(env);
  }

  lemma LoadSignedHalf(env: Env, s: State)
    requires s.status.Running? && VEa in s.vars
    ensures HasValue(s, Exec(env, LoadCode(LDRSH), s), LoadValue(s.m.mem, LDRSH, s.vars[VEa]))
  {
    hide Exec, Eval, EvalTest, Read8, Read16, Sext, And, FromByte, FromHalf;
    SignedByteValue(env, s);
    if And(s.vars[VEa], 1) == 0 { SignedHalfValue(env, s); }
    RunSetVar(env); LeafRules(env); IfRule(env); TestRules(env); BitRules(env);
  }

  /** Rotation of unaligned words and halfwords, sign extension and the LDRSH byte case included. */
  lemma LoadAgrees(env: Env, op: IrOp, s: State)
    requires IsLoad(op) && s.status.Running? && VEa in s.vars
    ensures HasValue(s, Exec(env, LoadCode(op), s), LoadValue(s.m.mem, op, s.vars[VEa]))
  {
    hide Exec, HasValue, LoadCode, LoadValue, Read8;
    if op.LDR? { LoadWord(env, s); }
    else if op.LDRB? { LoadByte(env, s); }
    else if op.LDRH? { LoadHalf(env, s); }
    else if op.LDRSB? { LoadSignedByte(env, s); }
    else { LoadSignedHalf(env, s); }
  }

  // ----- Stores -----------------------------------------------------------------------------

  lemma LowBytes(v: Word)
    ensures Low8(And(v, 0xFF)) == Low8(v) && Low16(And(v, 0xFFFF)) == Low16(v)
  {}

  lemma StoreAgrees(env: Env, op: IrOp, e: Expr, s: State)
    requires IsStore(op) && s.status.Running? && VEa in s.vars
    ensures Exec(env, StoreCode(op, e), s) == PutMem(s, StoreMem(s.m.mem, op, s.vars[VEa], Eval(env, e, s)))
  {
    hide Exec, Eval, And, Low8, Low16, Write8, Write16, Write32;
    LowBytes(Eval(env, e, s));
    RunWrite8(env); RunWrite16(env); RunWrite32(env); LeafRules(env); BitRules(env);
  }

  // ----- The whole instruction -------------------------------------------------------------------

  lemma SameWidth(op: IrOp)
    requires IsLoad(op) || IsStore(op)
    ensures AccessBytes(op) == AccessWidth(op)
  {}

  lemma WritebackRuns(env: Env, ins: Instr, ea: Word, wb: Word, y: State)
    requires y.status.Running? && VEa in y.vars && VPost in y.vars && MemOk(ins)
    requires (ins.mem.preIndexed ==> y.vars[VEa] == wb) && y.vars[VPost] == wb
    ensures Exec(env, MemWriteback(ins), y) == if ins.mem.writeback then PutReg(y, ins.mem.rn, wb) else y
  {
    hide Exec, Eval;
    ChoiceRules(env); RunSetG(env); LeafRules(env);
  }

  /** The state a load leaves before it writes its destination. */
  function BeforeDest(ins: Instr, y: State, wb: Word): State {
    if ins.mem.rn != ins.rd && ins.mem.writeback then PutReg(y, ins.mem.rn, wb) else y
  }

  lemma PreIndexed(cpu: CpuState, ins: Instr)
    ensures ins.mem.preIndexed ==> EffectiveAddress(cpu, ins) == WritebackAddress(cpu, ins)
  {
    hide MemBase, MemOffsetOf, Indexed;
  }

  lemma LoadRuns(env: Env, ins: Instr, x: State)
    requires AtBody(ins, x) && IsLoad(ins.op) && MemOk(ins)
    ensures var cpu := Abs(x.m.cpu);
            var ea := EffectiveAddress(AddressView(cpu, ins), ins);
            var v := LoadValue(x.m.mem, ins.op, ea);
            var cost := env.costs(ea, AccessBytes(ins.op), false);
            exists vars :: VVal in vars && vars[VVal] == v
                && var z := BeforeDest(ins, x.(vars := vars, cyc := x.cyc + cost), WritebackAddress(AddressView(cpu, ins), ins));
                   Exec(env, EmitMemory(ins), x) == Exec(env, LoadDest(ins), z)
  {
    hide Exec, Eval, MemAddressCode, LoadCode, Abs, AddressView, LoadValue, EffectiveAddress, WritebackAddress, EmitMemory,
      AccessBytes, MemWriteback, LoadDest, ExecCost;
    SeqRules(env); ChoiceRules(env);
    LoadShape(ins);
    AddressAgrees(env, ins, x);
    var cpu := AddressView(Abs(x.m.cpu), ins);
    PreIndexed(cpu, ins);
    var x1 := Exec(env, MemAddressCode(ins), x);
    LoadAgrees(env, ins.op, x1);
    var x2 := Exec(env, LoadCode(ins.op), x1);
    WritebackRuns(env, ins, x2.vars[VEa], WritebackAddress(cpu, ins), x2);
    assert x2 == x.(vars := x2.vars, cyc := x.cyc + env.costs(EffectiveAddress(cpu, ins), AccessBytes(ins.op), false));
  }

  lemma LoadShape(ins: Instr)
    requires IsLoad(ins.op)
    ensures EmitMemory(ins) ==
            Seq(MemAddressCode(ins),
                Seq(LoadCode(ins.op), Seq(if ins.mem.rn != ins.rd then MemWriteback(ins) else Skip, LoadDest(ins))))
  {}

  lemma EvenTwice(v: Word)
    ensures EvenPc(And(v, 0xFFFF_FFFE)) == And(v, 0xFFFF_FFFE)
  {}

  lemma DestRuns(env: Env, ins: Instr, z: State)
    requires z.status.Running? && z.handed.Kept? && VVal in z.vars
    ensures var y := Exec(env, LoadDest(ins), z);
            var v := z.vars[VVal];
            if ins.rd == 15 then TickedOut(PutReg(z, 15, And(v, 0xFFFF_FFFE)), y) else y == PutReg(z, ins.rd, v)
  {
    hide Exec, Eval, And, Unpack;
    SeqRules(env); RunSetG(env); RunTick(env); RunDispatch(env); RunReturn(env); LeafRules(env); BitRules(env);
    EvenTwice(z.vars[VVal]);
  }

  /** A load or store in the emitted code: addresses from its own view of the registers, and a loaded PC
      halfword-aligned whatever the instruction set. */
  function EmittedMemory(cpu: CpuState, mem: Mem, ins: Instr, costs: CostModel): Effect
    requires IsLoad(ins.op) || IsStore(ins.op)
  {
    var view := AddressView(cpu, ins);
    var ea := EffectiveAddress(view, ins);
    var e := Access(cpu, mem, ins, ea, WritebackAddress(view, ins), costs);
    if IsLoad(ins.op) && ins.rd == 15
    then e.(cpu := SetReg(e.cpu, 15, And(LoadValue(mem, ins.op, ea), 0xFFFF_FFFE)))
    else e
  }

  /** Where a load of v at this cost ends up: gone if it loaded the PC, else fallen through. */
  ghost predicate LoadDone(ins: Instr, x: State, cost: nat, v: Word, wb: Word, y: State) {
    var c1 := SetReg(Abs(x.m.cpu), ins.rd, if ins.rd == 15 then And(v, 0xFFFF_FFFE) else v);
    var c2 := if ins.mem.writeback && ins.mem.rn != ins.rd then SetReg(c1, ins.mem.rn, wb) else c1;
    if ins.rd == 15 then
      y.status != Running && y.status != Aborted && y.ticks == x.ticks + x.cyc + cost
      && ToItsPc(y.handed) && Abs(y.handed.cpu) == c2 && y.handed.mem == x.m.mem && y.handed.ticks == y.ticks
    else
      y.status.Running? && y.handed.Kept? && Abs(y.m.cpu) == c2 && y.m.mem == x.m.mem && y.m.calls == x.m.calls
      && y.ticks == x.ticks && y.cyc == x.cyc + cost
  }

  lemma LoadOutcome(ins: Instr, x: State, vars: map<Local, Word>, cost: nat, v: Word, wb: Word, y: State)
    requires x.status.Running? && x.handed.Kept?
    requires var z := BeforeDest(ins, x.(vars := vars, cyc := x.cyc + cost), wb);
             if ins.rd == 15 then TickedOut(PutReg(z, 15, And(v, 0xFFFF_FFFE)), y) else y == PutReg(z, ins.rd, v)
    ensures LoadDone(ins, x, cost, v, wb, y)
  {
    hide And, Unpack, ToItsPc;
  }

  lemma LoadConcludes(ins: Instr, x: State, costs: CostModel, y: State)
    requires AtBody(ins, x) && IsLoad(ins.op)
    requires var view := AddressView(Abs(x.m.cpu), ins);
             var ea := EffectiveAddress(view, ins);
             LoadDone(ins, x, costs(ea, AccessWidth(ins.op), false), LoadValue(x.m.mem, ins.op, ea), WritebackAddress(view, ins), y)
    ensures var e := EmittedMemory(Abs(x.m.cpu), x.m.mem, ins, costs);
            if ins.rd == 15 then Leaves(ins, x, y, e) else Falls(ins, x, y, e)
  {
    hide Abs, LoadValue, EffectiveAddress, WritebackAddress, And, AddressView, AccessWidth, ToItsPc;
    LoadCost(ins);
  }

  /** A load leaves if it loads the PC, and otherwise falls through. */
  lemma LoadInstrAgrees(env: Env, ins: Instr, x: State)
    requires AtBody(ins, x) && IsLoad(ins.op) && MemOk(ins)
    ensures var e := EmittedMemory(Abs(x.m.cpu), x.m.mem, ins, env.costs);
            var y := Exec(env, EmitMemory(ins), x);
            if ins.rd == 15 then Leaves(ins, x, y, e) else Falls(ins, x, y, e)
  {
    hide Exec, EmitMemory, Abs, LoadValue, EffectiveAddress, WritebackAddress, And, AccessBytes, MemOk,
      LoadDest, BeforeDest, AccessWidth, TickedOut, LoadDone, EmittedMemory, Leaves, Falls, AddressView, ExecCost;
    SameWidth(ins.op);
    LoadRuns(env, ins, x);
    var cpu := AddressView(Abs(x.m.cpu), ins);
    var ea := EffectiveAddress(cpu, ins);
    var v := LoadValue(x.m.mem, ins.op, ea);
    var cost := env.costs(ea, AccessBytes(ins.op), false);
    var wb := WritebackAddress(cpu, ins);
    var y := Exec(env, EmitMemory(ins), x);
    var vars :| VVal in vars && vars[VVal] == v
      && y == Exec(env, LoadDest(ins), BeforeDest(ins, x.(vars := vars, cyc := x.cyc + cost), wb));
    BeforeDestKeeps(ins, x.(vars := vars, cyc := x.cyc + cost), wb);
    DestRuns(env, ins, BeforeDest(ins, x.(vars := vars, cyc := x.cyc + cost), wb));
    LoadOutcome(ins, x, vars, cost, v, wb, y);
    LoadConcludes(ins, x, env.costs, y);
  }

  lemma BeforeDestKeeps(ins: Instr, y: State, wb: Word)
    ensures var z := BeforeDest(ins, y, wb); z.vars == y.vars && z.status == y.status && z.handed == y.handed
  {}

  lemma LoadCost(ins: Instr)
    requires IsLoad(ins.op)
    ensures ExecCost(ins) == CycleBase(ins.op) + (if ShiftedByRegister(ins.op2) then 1 else 0) + (if ins.rd == 15 then 2 else 0)
    ensures !IsBranch(ins.op)
  {}

  lemma StoreInstrAgrees(env: Env, ins: Instr, x: State)
    requires AtBody(ins, x) && IsStore(ins.op) && MemOk(ins)
    ensures Falls(ins, x, Exec(env, EmitMemory(ins), x), EmittedMemory(Abs(x.m.cpu), x.m.mem, ins, env.costs))
  {
    hide Exec, Eval, MemAddressCode, StoreCode, Unpack, MemBase, MemOffsetOf, Indexed, And, Add,
      AccessBytes, AccessWidth, MemOk, MemWriteback, StoreMem;
    SeqRules(env); LeafRules(env);
    SameWidth(ins.op);
    AddressAgrees(env, ins, x);
    var cpu := AddressView(Abs(x.m.cpu), ins);
    var x1 := Exec(env, MemAddressCode(ins), x);
    var e := if ins.rd == 15 then Lit(Add(ins.pc, 12)) else G(ins.rd);
    StoreAgrees(env, ins.op, e, x1);
    var x2 := Exec(env, StoreCode(ins.op, e), x1);
    WritebackRuns(env, ins, x2.vars[VEa], WritebackAddress(cpu, ins), x2);
  }
}
