// Interpreter (interpreter.cpp): the reference step as it updates a CPU object and the bus,
// proved against the step on values of module Reference.
module Interpreter {
  import opened Words
  import opened Ir
  import opened Cpu
  import opened Reference

  // ----- Bus -------------------------------------------------------------------------------

  /** The guest bus over flat memory. */
  class Bus {
    var mem: Mem
    const costs: CostModel

    constructor (m: Mem, c: CostModel)
      ensures mem == m && costs == c
    {
      mem := m;
      costs := c;
    }

    method Store8(a: Word, v: bv8)
      modifies this
      ensures mem == Write8(old(mem), a, v)
    {
      mem := Write8(mem, a, v);
    }

    method Store16(a: Word, v: bv16)
      modifies this
      ensures mem == Write16(old(mem), a, v)
    {
      mem := Write16(mem, a, v);
    }

    method Store32(a: Word, v: Word)
      modifies this
      ensures mem == Write32(old(mem), a, v)
    {
      mem := Write32(mem, a, v);
    }
  }

  // ----- CPU -------------------------------------------------------------------------------

  /** CPUState (cpu_state.h). */
  class CpuObject {
    const R: array<Word>
    var cpsr: Psr
    const sp: array<Word>
    const lr: array<Word>
    const spsr: array<Word>
    const user8: array<Word>
    const fiq8: array<Word>
    var thumb: bool

    ghost const Repr: set<object> := {this, R, sp, lr, spsr, user8, fiq8}

    ghost predicate Valid() {
      && R.Length == 16 && sp.Length == 6 && lr.Length == 6 && spsr.Length == 6
      && user8.Length == 5 && fiq8.Length == 5
      && R != sp && R != lr && R != spsr && R != user8 && R != fiq8
      && sp != lr && sp != spsr && sp != user8 && sp != fiq8
      && lr != spsr && lr != user8 && lr != fiq8
      && spsr != user8 && spsr != fiq8 && user8 != fiq8
    }

    ghost function Value(): CpuState
      requires Valid()
      reads Repr
    {
      CpuState(R[..], cpsr, sp[..], lr[..], spsr[..], user8[..], fiq8[..], thumb)
    }

    constructor ()
      ensures Valid() && fresh(Repr)
    {
      R := new Word[16](i => 0);
      sp := new Word[6](i => 0);
      lr := new Word[6](i => 0);
      spsr := new Word[6](i => 0);
      user8 := new Word[5](i => 0);
      fiq8 := new Word[5](i => 0);
      cpsr := Unpack(SYSTEM);
      thumb := false;
    }

    method Set(r: Reg, v: Word)
      requires Valid()
      modifies R
      ensures Value() == SetReg(old(Value()), r, v)
    {
      R[r] := v;
      assert R[..] == old(R[..])[r := v];
    }

    /** swap_r8_12_banks. */
    method SwapHighBanks(oldMode: Word, newMode: Word)
      requires Valid()
      modifies R, user8, fiq8
      ensures Value() == SwapHigh(old(Value()), oldMode, newMode)
    {
      var out := if oldMode == FIQ then fiq8 else user8;
      for i := 0 to 5
        invariant out[..i] == R[8..8 + i]
        invariant out == fiq8 ==> user8[..] == old(user8[..])
        invariant out == user8 ==> fiq8[..] == old(fiq8[..])
        invariant R[..] == old(R[..])
      {
        out[i] := R[8 + i];
        assert out[..i + 1] == out[..i] + [out[i]];
        assert R[8..8 + i + 1] == R[8..8 + i] + [R[8 + i]];
      }
      ghost var mid := Value();
      assert out[..] == old(R[..])[8..13];
      var incoming := if newMode == FIQ then fiq8 else user8;
      for i := 0 to 5
        invariant R[8..8 + i] == incoming[..i]
        invariant R[..8] == mid.R[..8] && R[13..] == mid.R[13..]
        invariant user8[..] == mid.user8 && fiq8[..] == mid.fiq8
      {
        R[8 + i] := incoming[i];
        assert R[8..8 + i + 1] == R[8..8 + i] + [R[8 + i]];
        assert incoming[..i + 1] == incoming[..i] + [incoming[i]];
      }
      assert incoming[..5] == incoming[..];
      assert R[..] == R[..8] + R[8..13] + R[13..];
    }

    /** The banked halves of a mode change: R13 and R14, then R8 to R12. */
    method SwitchTo(oldMode: Word, newMode: Word)
      requires Valid()
      modifies R, sp, lr, user8, fiq8
      ensures Value() == SwitchBanks(old(Value()), oldMode, newMode)
    {
      var ob := ModeToBank(oldMode);
      var nb := ModeToBank(newMode);
      sp[ob] := R[13];
      lr[ob] := R[14];
      assert sp[..] == old(sp[..])[ob := old(R[13])] && lr[..] == old(lr[..])[ob := old(R[14])];
      R[13] := sp[nb];
      R[14] := lr[nb];
      assert R[..] == old(R[..])[13 := sp[nb]][14 := lr[nb]];
      SwapHighBanks(oldMode, newMode);
    }

    /** restore_cpsr_from_spsr. */
    method RestoreFromSpsr()
      requires Valid()
      modifies Repr
      ensures Value() == RestoreCpsr(old(Value()))
    {
      var oldMode := cpsr.mode;
      if oldMode == USER || oldMode == SYSTEM { return; }
      var saved := spsr[ModeToBank(oldMode)];
      cpsr := Unpack(saved);
      thumb := cpsr.t;
      SwitchTo(oldMode, cpsr.mode);
    }

    /** exception_return. */
    method ReturnFromException(newPc: Word)
      requires Valid()
      modifies Repr
      ensures Value() == ExceptionReturn(old(Value()), newPc)
    {
      RestoreFromSpsr();
      Set(15, newPc);
    }

    method StoreUserReg(r: Reg, v: Word)
      requires Valid()
      modifies Repr
      ensures Value() == WriteUserReg(old(Value()), r, v)
    {
      if r < 8 || r == 15 {
        Set(r, v);
      } else if r < 13 {
        if cpsr.mode == FIQ {
          user8[r - 8] := v;
          assert user8[..] == old(user8[..])[r - 8 := v];
        } else {
          Set(r, v);
        }
      } else if cpsr.mode == USER || cpsr.mode == SYSTEM {
        Set(r, v);
      } else if r == 13 {
        sp[BANK_USER] := v;
        assert sp[..] == old(sp[..])[BANK_USER := v];
      } else {
        lr[BANK_USER] := v;
        assert lr[..] == old(lr[..])[BANK_USER := v];
      }
    }

    method LoadUserReg(r: Reg) returns (v: Word)
      requires Valid()
      ensures v == ReadUserReg(Value(), r)
    {
      if r < 8 || r == 15 { return R[r]; }
      if r < 13 { return if cpsr.mode == FIQ then user8[r - 8] else R[r]; }
      if cpsr.mode == USER || cpsr.mode == SYSTEM { return R[r]; }
      return if r == 13 then sp[BANK_USER] else lr[BANK_USER];
    }
  }

  // ----- The cases of step -------------------------------------------------------------------

  /** What a case of the switch reports to the epilogue. */
  datatype Report = Report(wrotePc: bool, returned: bool, memCycles: nat, extraCycles: nat)

  const SILENT: Report := Report(false, false, 0, 0)

  /** The effect the value semantics describes, seen on the two objects. */
  ghost predicate Did(cpu: CpuObject, mem: Mem, r: Report, e: Effect)
    requires cpu.Valid()
    reads cpu.Repr
  {
    Effect(cpu.Value(), mem, r.wrotePc, r.returned, r.memCycles, r.extraCycles) == e
  }

  /** write_dest, after set_logical_flags or set_arith_flags and the SPSR cases. */
  method FinishDataProcessing(cpu: CpuObject, bus: Bus, ins: Instr, flagged: Psr, r: Word) returns (report: Report)
    requires cpu.Valid() && IsDataProcessing(ins.op)
    modifies cpu.Repr
    ensures Did(cpu, bus.mem, report,
                FinishDp(old(cpu.Value()), bus.mem, old(cpu.Value()).(cpsr := flagged), r, ins))
  {
    report := SILENT;
    var exceptionReturn := ins.setFlags && ins.rd == 15 && PrivNonSystem(cpu.cpsr.mode);
    // The source's SPSR restore for tests sits under this condition, which rules it out.
    if ins.setFlags && !exceptionReturn { cpu.cpsr := flagged; }
    if IsTest(ins.op) { return; }
    if exceptionReturn {
      cpu.ReturnFromException(r);
      report := Report(true, true, 0, 0);
    } else {
      cpu.Set(ins.rd, if ins.rd != 15 then r else And(r, if ins.thumb then 0xFFFF_FFFE else 0xFFFF_FFFC));
      report := SILENT.(wrotePc := ins.rd == 15);
    }
  }

  method StepDataProcessing(cpu: CpuObject, bus: Bus, ins: Instr) returns (report: Report)
    requires cpu.Valid() && IsDataProcessing(ins.op)
    modifies cpu.Repr
    ensures Did(cpu, bus.mem, report, ExecDataProcessing(old(cpu.Value()), bus.mem, ins))
  {
    hide EvalOp2, ReadReg, FinishDp, LogicalResult, ArithResult;
    var o2 := Operand2(cpu, ins);
    var rn := FirstOperand(cpu, ins);
    if IsLogical(ins.op) {
      var r := LogicalResult(ins.op, rn, o2.value);
      var flagged := cpu.cpsr.(n := SignBit(r), z := IsZero(r), c := !IsZero(o2.carry));
      report := FinishDataProcessing(cpu, bus, ins, flagged, r);
    } else {
      var f := ArithResult(ins.op, rn, o2.value, C01(cpu.cpsr.c));
      var flagged := cpu.cpsr.(n := f.n, z := f.z, c := f.c, v := f.v);
      report := FinishDataProcessing(cpu, bus, ins, flagged, f.result);
    }
  }

  method ReadRegister(cpu: CpuObject, r: Reg, ins: Instr) returns (v: Word)
    requires cpu.Valid()
    ensures v == ReadReg(cpu.Value(), r, ins)
  {
    return if r != 15 then cpu.R[r] else PcOperand(ins);
  }

  method FirstOperand(cpu: CpuObject, ins: Instr) returns (rn: Word)
    requires cpu.Valid() && IsDataProcessing(ins.op)
    ensures rn == DpRn(cpu.Value(), ins)
  {
    hide ReadReg, Add, And;
    rn := 0;
    if !ins.op.MOV? && !ins.op.MVN? { rn := ReadRegister(cpu, ins.rn, ins); }
    if !ins.thumb && ins.rn == 15 && ShiftedByRegister(ins.op2) { rn := Add(rn, 4); }
    if IsArith(ins.op) && ins.thumb && ins.rn == 15 && ins.op2.Imm? { rn := And(rn, 0xFFFF_FFFC); }
  }

  method Operand2(cpu: CpuObject, ins: Instr) returns (v: ShiftResult)
    requires cpu.Valid()
    ensures v == EvalOp2(cpu.Value(), ins)
  {
    hide DoShift, Add, And, ReadReg;
    match ins.op2
    case Imm(value, carry) => v := ShiftResult(value, CarryOf(carry, cpu.cpsr.c));
    case Shifted(sr) =>
      var rm := ReadRegister(cpu, sr.rm, ins);
      match sr.count {
        case ByReg(rs) =>
          if !ins.thumb && sr.rm == 15 { rm := Add(rm, 4); }
          var count := if rs == 15 then Add(PcOperand(ins), 4) else cpu.R[rs];
          v := DoShift(rm, sr.kind, And(count, 0xFF), false, cpu.cpsr.c);
        case ByImm(n) =>
          v := DoShift(rm, sr.kind, n, n == 0, cpu.cpsr.c);
      }
  }

  method StepBranch(cpu: CpuObject, bus: Bus, ins: Instr) returns (report: Report)
    requires cpu.Valid() && IsBranch(ins.op)
    modifies cpu.Repr
    ensures Did(cpu, bus.mem, report, ExecBranch(old(cpu.Value()), bus.mem, ins))
  {
    hide Add, And, Or, ReadReg;
    report := SILENT.(wrotePc := !ins.op.BL_prefix?);
    if ins.op.B? {
      cpu.Set(15, ins.branchTarget);
    } else if ins.op.BL? {
      cpu.Set(14, Next(ins));
      cpu.Set(15, ins.branchTarget);
    } else if ins.op.BL_prefix? {
      cpu.Set(14, ins.branchTarget);
    } else if ins.op.BL_suffix? {
      var target := And(Add(cpu.R[14], ins.swiImm), 0xFFFF_FFFE);
      cpu.Set(14, Or(Add(ins.pc, 2), 1));
      cpu.Set(15, target);
    } else {
      var target := ReadRegister(cpu, ins.rm, ins);
      cpu.cpsr := cpu.cpsr.(t := And(target, 1) != 0);
      cpu.thumb := cpu.cpsr.t;
      cpu.Set(15, And(target, 0xFFFF_FFFE));
    }
  }

  method Addresses(cpu: CpuObject, ins: Instr) returns (ea: Word, post: Word)
    requires cpu.Valid()
    ensures ea == EffectiveAddress(cpu.Value(), ins) && post == WritebackAddress(cpu.Value(), ins)
  {
    hide DoShift, Add, Sub, And, ReadReg;
    var base := ReadRegister(cpu, ins.mem.rn, ins);
    if ins.thumb && ins.mem.rn == 15 { base := And(base, 0xFFFF_FFFC); }
    var offset := match ins.mem.offset
      case ImmOffset(imm) => imm
      case RegOffset(rm, kind, n) => DoShift(cpu.R[rm], kind, n, n == 0, cpu.cpsr.c).value;
    post := if ins.mem.add then Add(base, offset) else Sub(base, offset);
    ea := if ins.mem.preIndexed then post else base;
  }

  method Store(bus: Bus, op: IrOp, ea: Word, v: Word)
    requires IsStore(op)
    modifies bus
    ensures bus.mem == StoreMem(old(bus.mem), op, ea, v)
  {
    if op.STR? { bus.Store32(Align4(ea), v); }
    else if op.STRB? { bus.Store8(ea, Low8(v)); }
    else { bus.Store16(And(ea, 0xFFFF_FFFE), Low16(v)); }
  }

  method StepMemory(cpu: CpuObject, bus: Bus, ins: Instr) returns (report: Report)
    requires cpu.Valid() && (IsLoad(ins.op) || IsStore(ins.op)) && bus !in cpu.Repr
    modifies cpu.Repr, bus
    ensures Did(cpu, bus.mem, report, ExecMemory(old(cpu.Value()), old(bus.mem), ins, bus.costs))
  {
    hide EffectiveAddress, WritebackAddress, LoadValue, StoreMem, And, Add;
    var ea, post := Addresses(cpu, ins);
    report := SILENT.(memCycles := bus.costs(ea, AccessWidth(ins.op), false));
    if IsLoad(ins.op) {
      var v := LoadValue(bus.mem, ins.op, ea);
      cpu.Set(ins.rd, if ins.rd != 15 then v else And(v, if ins.thumb then 0xFFFF_FFFE else 0xFFFF_FFFC));
      report := report.(wrotePc := ins.rd == 15);
    } else {
      Store(bus, ins.op, ea, if ins.rd == 15 then Add(ins.pc, 12) else cpu.R[ins.rd]);
    }
    if ins.mem.writeback && !(ins.mem.rn == ins.rd && IsLoad(ins.op)) { cpu.Set(ins.mem.rn, post); }
  }

  // ----- Block transfer ------------------------------------------------------------------------

  method StepEmptyBlock(cpu: CpuObject, bus: Bus, ins: Instr) returns (report: Report)
    requires cpu.Valid() && bus !in cpu.Repr && EmptyList(ins.block.list)
    modifies cpu.Repr, bus
    ensures Did(cpu, bus.mem, report, ExecEmptyBlock(old(cpu.Value()), old(bus.mem), ins, bus.costs))
  {
    hide EmptyList, And, Add, Sub, Read32, Write32, StmPcValue, ExceptionReturn;
    var blk := ins.block;
    var base := cpu.R[blk.rn];
    var addr := if blk.add then (if blk.preIndexed then Add(base, 4) else base)
                else Sub(base, if blk.preIndexed then 0x40 else 0x3C);
    var finalBase := if blk.add then Add(base, 0x40) else Sub(base, 0x40);
    report := SILENT.(memCycles := bus.costs(Align4(addr), 4, false));
    if blk.load {
      var v := Read32(bus.mem, Align4(addr));
      if blk.writeback { cpu.Set(blk.rn, finalBase); }
      if blk.sBit && PrivNonSystem(cpu.cpsr.mode) {
        cpu.ReturnFromException(And(v, 0xFFFF_FFFE));
        report := report.(returned := true);
      } else {
        cpu.Set(15, And(v, 0xFFFF_FFFE));
      }
      report := report.(wrotePc := true);
    } else {
      bus.Store32(Align4(addr), StmPcValue(ins));
      if blk.writeback { cpu.Set(blk.rn, finalBase); }
    }
  }

  /** A loaded PC: an exception return, or a halfword-aligned jump. */
  method LoadPc(cpu: CpuObject, bus: Bus, ins: Instr, v: Word) returns (returned: bool)
    requires cpu.Valid() && bus !in cpu.Repr
    modifies cpu.Repr
    ensures returned == (ins.block.sBit && PrivNonSystem(old(cpu.Value()).cpsr.mode))
    ensures cpu.Value() == if returned then ExceptionReturn(old(cpu.Value()), And(v, 0xFFFF_FFFE))
                           else SetReg(old(cpu.Value()), 15, And(v, 0xFFFF_FFFE))
  {
    hide And, ExceptionReturn;
    returned := ins.block.sBit && PrivNonSystem(cpu.cpsr.mode);
    if returned { cpu.ReturnFromException(And(v, 0xFFFF_FFFE)); } else { cpu.Set(15, And(v, 0xFFFF_FFFE)); }
  }

  /** What STM stores for register r. */
  function StoredValue(cpu: CpuState, ins: Instr, fb: Word, r: Reg): Word {
    var blk := ins.block;
    if r == 15 then StmPcValue(ins)
    else if blk.writeback && r == blk.rn && AnyBelow(blk.list, r) then fb
    else if blk.sBit then ReadUserReg(cpu, r)
    else cpu.R[r]
  }

  /** One turn of the value-level loop, for a load and for a store. */
  lemma LoadTurnIs(e: Effect, ins: Instr, fb: Word, cursor: Word, r: Reg, costs: CostModel)
    requires ins.block.load
    ensures var blk := ins.block;
            var v := Read32(e.mem, Align4(cursor));
            var pc := And(v, 0xFFFF_FFFE);
            var cost := e.memCycles + costs(Align4(cursor), 4, AnyBelow(blk.list, r));
            var returned := blk.sBit && PrivNonSystem(e.cpu.cpsr.mode);
            TransferOne(e, ins, fb, cursor, r, costs) ==
            if r == 15 then
              e.(cpu := if returned then ExceptionReturn(e.cpu, pc) else SetReg(e.cpu, 15, pc), wrotePc := true,
                 returned := e.returned || returned, memCycles := cost)
            else
              e.(cpu := if blk.sBit && !blk.list[15] then WriteUserReg(e.cpu, r, v) else SetReg(e.cpu, r, v),
                 memCycles := cost)
  {
    hide Align4, And, Read32, AnyBelow, ExceptionReturn, WriteUserReg, PrivNonSystem;
  }

  lemma StoreTurnIs(e: Effect, ins: Instr, fb: Word, cursor: Word, r: Reg, costs: CostModel)
    requires !ins.block.load
    ensures TransferOne(e, ins, fb, cursor, r, costs) ==
            e.(mem := Write32(e.mem, Align4(cursor), StoredValue(e.cpu, ins, fb, r)),
               memCycles := e.memCycles + costs(Align4(cursor), 4, AnyBelow(ins.block.list, r)))
  {
    hide Align4, Write32, AnyBelow, StmPcValue, ReadUserReg;
  }

  method LoadListed(cpu: CpuObject, bus: Bus, ins: Instr, reg: Reg, cursor: Word, sequential: bool, report: Report,
                    ghost fb: Word, ghost e: Effect)
    returns (next: Report)
    requires cpu.Valid() && bus !in cpu.Repr && ins.block.load && sequential == AnyBelow(ins.block.list, reg)
    requires Did(cpu, bus.mem, report, e)
    modifies cpu.Repr
    ensures Did(cpu, bus.mem, next, TransferOne(e, ins, fb, cursor, reg, bus.costs))
  {
    hide TransferOne, Align4, And, Read32, AnyBelow, ExceptionReturn, WriteUserReg;
    LoadTurnIs(e, ins, fb, cursor, reg, bus.costs);
    var a := Align4(cursor);
    var v := Read32(bus.mem, a);
    next := report.(memCycles := report.memCycles + bus.costs(a, 4, sequential));
    if reg == 15 {
      var returned := LoadPc(cpu, bus, ins, v);
      next := next.(wrotePc := true, returned := next.returned || returned);
    } else if ins.block.sBit && !ins.block.list[15] {
      cpu.StoreUserReg(reg, v);
    } else {
      cpu.Set(reg, v);
    }
  }

  method StoreListed(cpu: CpuObject, bus: Bus, ins: Instr, reg: Reg, cursor: Word, sequential: bool, finalBase: Word,
                     report: Report, ghost e: Effect)
    returns (next: Report)
    requires cpu.Valid() && bus !in cpu.Repr && !ins.block.load && sequential == AnyBelow(ins.block.list, reg)
    requires Did(cpu, bus.mem, report, e)
    modifies bus
    ensures Did(cpu, bus.mem, next, TransferOne(e, ins, finalBase, cursor, reg, bus.costs))
  {
    hide TransferOne, Align4, And, Write32, AnyBelow, ReadUserReg, StmPcValue;
    StoreTurnIs(e, ins, finalBase, cursor, reg, bus.costs);
    var a := Align4(cursor);
    next := report.(memCycles := report.memCycles + bus.costs(a, 4, sequential));
    var v: Word;
    if reg == 15 { v := StmPcValue(ins); }
    else if ins.block.writeback && reg == ins.block.rn && sequential { v := finalBase; }
    else if ins.block.sBit { v := cpu.LoadUserReg(reg); }
    else { v := cpu.R[reg]; }
    bus.Store32(a, v);
  }

  method StepBlock(cpu: CpuObject, bus: Bus, ins: Instr) returns (report: Report)
    requires cpu.Valid() && bus !in cpu.Repr
    modifies cpu.Repr, bus
    ensures Did(cpu, bus.mem, report, ExecBlock(old(cpu.Value()), old(bus.mem), ins, bus.costs))
  {
    hide EmptyList, TransferOne, ExecEmptyBlock, Add, Sub, BytesBelow;
    var blk := ins.block;
    if EmptyList(blk.list) {
      report := StepEmptyBlock(cpu, bus, ins);
      return;
    }
    var base := cpu.R[blk.rn];
    var finalBase := BlockFinalBase(base, blk);
    var cursor := BlockStart(base, blk);
    var firstAccess := true;
    report := SILENT;
    for reg := 0 to 16
      invariant cursor == Cursor(base, blk, reg) && firstAccess == !AnyBelow(blk.list, reg)
      invariant Did(cpu, bus.mem, report, TransferBelow(old(cpu.Value()), old(bus.mem), ins, bus.costs, reg))
    {
      if blk.list[reg] {
        ghost var e := TransferBelow(old(cpu.Value()), old(bus.mem), ins, bus.costs, reg);
        if blk.load { report := LoadListed(cpu, bus, ins, reg, cursor, !firstAccess, report, finalBase, e); }
        else { report := StoreListed(cpu, bus, ins, reg, cursor, !firstAccess, finalBase, report, e); }
        firstAccess := false;
        cursor := Add(cursor, 4);
      }
    }
    if blk.writeback && !(blk.load && blk.list[blk.rn]) { cpu.Set(blk.rn, finalBase); }
  }

  // ----- Multiply, swap, PSR transfer ------------------------------------------------------------

  method StepMultiply(cpu: CpuObject, bus: Bus, ins: Instr) returns (report: Report)
    requires cpu.Valid() && (ins.op.MUL? || ins.op.MLA?)
    modifies cpu.Repr
    ensures Did(cpu, bus.mem, report, ExecMultiply(old(cpu.Value()), bus.mem, ins))
  {
    hide Mul, Add, MulWait, SignBit, IsZero;
    var waitOperand := if ins.op.MUL? && ins.thumb then cpu.R[ins.rm] else cpu.R[ins.rs];
    report := SILENT.(extraCycles := MulWait(waitOperand, true, if ins.op.MUL? then 0 else 1));
    var r := Mul(cpu.R[ins.rm], cpu.R[ins.rs]);
    if ins.op.MLA? { r := Add(r, cpu.R[ins.rn]); }
    cpu.Set(ins.rd, r);
    if ins.setFlags { cpu.cpsr := cpu.cpsr.(n := SignBit(r), z := IsZero(r)); }
  }

  method StepMultiplyLong(cpu: CpuObject, bus: Bus, ins: Instr) returns (report: Report)
    requires cpu.Valid() && IsMultiplyLong(ins.op)
    modifies cpu.Repr
    ensures Did(cpu, bus.mem, report, ExecMultiplyLong(old(cpu.Value()), bus.mem, ins))
  {
    hide Mul64, Add64, SExt64, ZExt64, Pair64, MulWait, Bit63, IsZero64, Lo32, Hi32;
    var signed := ins.op.SMULL? || ins.op.SMLAL?;
    var accumulate := ins.op.UMLAL? || ins.op.SMLAL?;
    report := SILENT.(extraCycles := MulWait(cpu.R[ins.rs], signed, if accumulate then 2 else 1));
    var rm := cpu.R[ins.rm];
    var rs := cpu.R[ins.rs];
    var u := if signed then Mul64(SExt64(rm), SExt64(rs)) else Mul64(ZExt64(rm), ZExt64(rs));
    if accumulate { u := Add64(Pair64(cpu.R[ins.rd], cpu.R[ins.rn]), u); }
    cpu.Set(ins.rn, Lo32(u));
    cpu.Set(ins.rd, Hi32(u));
    if ins.setFlags { cpu.cpsr := cpu.cpsr.(n := Bit63(u), z := IsZero64(u)); }
  }

  method StepSwap(cpu: CpuObject, bus: Bus, ins: Instr) returns (report: Report)
    requires cpu.Valid() && bus !in cpu.Repr && (ins.op.SWP? || ins.op.SWPB?)
    modifies cpu.Repr, bus
    ensures Did(cpu, bus.mem, report, ExecSwap(old(cpu.Value()), old(bus.mem), ins))
  {
    hide And, Mul, Rotr32, Read32, Write32, Read8, Write8, Low8, FromByte;
    report := SILENT;
    var addr := cpu.R[ins.rn];
    if ins.op.SWP? {
      var was := Rotr32(Read32(bus.mem, Align4(addr)), Mul(And(addr, 3), 8));
      bus.Store32(Align4(addr), cpu.R[ins.rm]);
      cpu.Set(ins.rd, was);
    } else {
      var was := Read8(bus.mem, addr);
      bus.Store8(addr, Low8(cpu.R[ins.rm]));
      cpu.Set(ins.rd, FromByte(was));
    }
  }

  method StepMsrCpsr(cpu: CpuObject, v: Word, mask: bv4)
    requires cpu.Valid()
    modifies cpu.Repr
    ensures cpu.Value() == WriteCpsr(old(cpu.Value()), v, mask)
  {
    hide Unpack, Pack, Merge, ByteMask, ModeToBank, SwitchBanks;
    var m := ByteMask(mask);
    if cpu.cpsr.mode == USER { m := UserMask(mask); }
    var newv := Merge(Pack(cpu.cpsr), v, m);
    var oldMode := cpu.cpsr.mode;
    cpu.cpsr := Unpack(newv);
    cpu.thumb := cpu.cpsr.t;
    if oldMode != cpu.cpsr.mode && ModeToBank(oldMode) != ModeToBank(cpu.cpsr.mode) {
      cpu.SwitchTo(oldMode, cpu.cpsr.mode);
    }
  }

  method StepPsr(cpu: CpuObject, bus: Bus, ins: Instr) returns (report: Report)
    requires cpu.Valid() && (ins.op.MRS? || ins.op.MSR?)
    modifies cpu.Repr
    ensures Did(cpu, bus.mem, report, ExecPsr(old(cpu.Value()), bus.mem, ins))
  {
    hide Pack, Merge, ByteMask, ModeToBank, WriteCpsr;
    report := SILENT;
    var bank := ModeToBank(cpu.cpsr.mode);
    if ins.op.MRS? {
      cpu.Set(ins.rd, if ins.psr.spsr then cpu.spsr[bank] else Pack(cpu.cpsr));
      return;
    }
    var v := match ins.op2
      case Imm(value, _) => value
      case Shifted(sr) => cpu.R[sr.rm];
    if ins.psr.spsr {
      cpu.spsr[bank] := Merge(cpu.spsr[bank], v, ByteMask(ins.psr.mask));
      assert cpu.spsr[..] == old(cpu.spsr[..])[bank := cpu.spsr[bank]];
    } else {
      StepMsrCpsr(cpu, v, ins.psr.mask);
    }
  }

  // ----- step ----------------------------------------------------------------------------------------

  method Dispatch(cpu: CpuObject, bus: Bus, ins: Instr) returns (report: Report)
    requires cpu.Valid() && bus !in cpu.Repr && Executes(ins.op)
    modifies cpu.Repr, bus
    ensures Did(cpu, bus.mem, report, Execute(old(cpu.Value()), old(bus.mem), ins, bus.costs))
  {
    hide ExecDataProcessing, ExecBranch, ExecMemory, ExecBlock, ExecMultiply, ExecMultiplyLong, ExecSwap, ExecPsr;
    if IsDataProcessing(ins.op) { report := StepDataProcessing(cpu, bus, ins); }
    else if IsBranch(ins.op) { report := StepBranch(cpu, bus, ins); }
    else if IsLoad(ins.op) || IsStore(ins.op) { report := StepMemory(cpu, bus, ins); }
    else if ins.op.LDM? || ins.op.STM? { report := StepBlock(cpu, bus, ins); }
    else if ins.op.MUL? || ins.op.MLA? { report := StepMultiply(cpu, bus, ins); }
    else if IsMultiplyLong(ins.op) { report := StepMultiplyLong(cpu, bus, ins); }
    else if ins.op.SWP? || ins.op.SWPB? { report := StepSwap(cpu, bus, ins); }
    else { report := StepPsr(cpu, bus, ins); }
  }

  /** Interpreter::step. */
  method StepInstr(cpu: CpuObject, bus: Bus, ins: Instr) returns (outcome: Outcome, cycles: nat)
    requires cpu.Valid() && bus !in cpu.Repr
    modifies cpu.Repr, bus
    ensures StepResult(outcome, cpu.Value(), bus.mem, cycles) == Step(old(cpu.Value()), old(bus.mem), ins, bus.costs)
  {
    hide Execute, CondPasses, Add, CycleBase;
    if !CondPasses(ins.cond, cpu.cpsr) {
      cpu.Set(15, Add(cpu.R[15], Size(ins.thumb)));
      return Normal, 1;
    }
    if ins.isUndefined { return Trapped, 1; }
    if ins.op.SWI? { return Swi, CycleBase(ins.op); }
    if !Executes(ins.op) { return NotImplemented, 1; }
    var report := Dispatch(cpu, bus, ins);
    cycles := CycleBase(ins.op) + report.memCycles + report.extraCycles;
    if ShiftedByRegister(ins.op2) { cycles := cycles + 1; }
    if report.wrotePc && !IsBranch(ins.op) { cycles := cycles + 2; }
    if report.returned { return ExceptionReturned, cycles; }
    if !report.wrotePc {
      cpu.Set(15, Add(cpu.R[15], Size(ins.thumb)));
      return Normal, cycles;
    }
    return Branched, cycles;
  }
}
