// What step leaves alone: registers an instruction does not name, and where the next one is.
module StepLaws {
  import opened Words
  import opened Ir
  import opened Cpu
  import opened Reference
  import opened Correctness

  /** The registers with R15 at the next instruction: two bytes on in THUMB state, four in ARM state. */
  function Advanced(r: Regs, thumb: bool): Regs {
    r[15 := Add(r[15], if thumb then 2 else 4)]
  }

  /** An instruction whose condition fails is stepped over. */
  lemma SkippedOver(cpu: CpuState, mem: Mem, ins: Instr, costs: CostModel)
    requires !CondPasses(ins.cond, cpu.cpsr)
    ensures Step(cpu, mem, ins, costs) == StepResult(Normal, cpu.(R := Advanced(cpu.R, ins.thumb)), mem, 1)
  {
    hide CondPasses, Add;
  }

  /** Whatever transfers no control is stepped past. */
  lemma SteppedPast(cpu: CpuState, mem: Mem, ins: Instr, costs: CostModel)
    requires CondPasses(ins.cond, cpu.cpsr) && !ins.isUndefined && !ins.op.SWI? && Executes(ins.op)
    requires var e := Execute(cpu, mem, ins, costs); !e.wrotePc && !e.returned
    ensures var e := Execute(cpu, mem, ins, costs);
            var r := Step(cpu, mem, ins, costs);
            r.outcome == Normal && r.mem == e.mem && r.cpu == e.cpu.(R := Advanced(e.cpu.R, ins.thumb))
  {
    hide CondPasses, Execute, Add, CycleBase;
  }

  lemma TestEffect(cpu: CpuState, mem: Mem, ins: Instr)
    requires ins.op.TST? || ins.op.TEQ? || ins.op.CMP? || ins.op.CMN?
    ensures var e := ExecDataProcessing(cpu, mem, ins);
            e.cpu == cpu.(cpsr := e.cpu.cpsr) && e.mem == mem && !e.wrotePc && !e.returned
            && e.cpu.cpsr.mode == cpu.cpsr.mode && e.cpu.cpsr.t == cpu.cpsr.t
            && e.cpu.cpsr.i == cpu.cpsr.i && e.cpu.cpsr.f == cpu.cpsr.f
  {
    hide EvalOp2, DpRn, LogicalResult, ArithResult, RestoreCpsr, ExceptionReturn;
  }

  /** A compare or test writes no register and no memory, and of the CPSR at most the flags. */
  lemma TestsOnlySetFlags(cpu: CpuState, mem: Mem, ins: Instr, costs: CostModel)
    requires CondPasses(ins.cond, cpu.cpsr) && !ins.isUndefined
    requires ins.op.TST? || ins.op.TEQ? || ins.op.CMP? || ins.op.CMN?
    ensures var r := Step(cpu, mem, ins, costs);
            && r.outcome == Normal && r.mem == mem
            && r.cpu == cpu.(R := Advanced(cpu.R, ins.thumb), cpsr := r.cpu.cpsr)
            && r.cpu.cpsr.mode == cpu.cpsr.mode && r.cpu.cpsr.t == cpu.cpsr.t
            && r.cpu.cpsr.i == cpu.cpsr.i && r.cpu.cpsr.f == cpu.cpsr.f
  {
    hide CondPasses, Add, ExecDataProcessing, Step;
    TestEffect(cpu, mem, ins);
    SteppedPast(cpu, mem, ins, costs);
  }

  lemma DpEffect(cpu: CpuState, mem: Mem, ins: Instr)
    requires IsDataProcessing(ins.op) && !IsTest(ins.op) && ins.rd != 15
    ensures var e := ExecDataProcessing(cpu, mem, ins);
            e.cpu == cpu.(R := cpu.R[ins.rd := e.cpu.R[ins.rd]], cpsr := e.cpu.cpsr)
            && e.mem == mem && !e.wrotePc && !e.returned && (!ins.setFlags ==> e.cpu.cpsr == cpu.cpsr)
  {
    hide EvalOp2, DpRn, LogicalResult, ArithResult, RestoreCpsr, ExceptionReturn;
  }

  /** Any other data processing writes its destination alone, and without S no flag. */
  lemma DpWritesDestination(cpu: CpuState, mem: Mem, ins: Instr, costs: CostModel)
    requires CondPasses(ins.cond, cpu.cpsr) && !ins.isUndefined && ins.rd != 15
    requires IsDataProcessing(ins.op) && !(ins.op.TST? || ins.op.TEQ? || ins.op.CMP? || ins.op.CMN?)
    ensures var r := Step(cpu, mem, ins, costs);
            && r.outcome == Normal && r.mem == mem && (!ins.setFlags ==> r.cpu.cpsr == cpu.cpsr)
            && r.cpu == cpu.(R := Advanced(cpu.R, ins.thumb)[ins.rd := r.cpu.R[ins.rd]], cpsr := r.cpu.cpsr)
  {
    hide CondPasses, Add, ExecDataProcessing, Step;
    DpEffect(cpu, mem, ins);
    SteppedPast(cpu, mem, ins, costs);
    var e := ExecDataProcessing(cpu, mem, ins);
    assert cpu.R[ins.rd := e.cpu.R[ins.rd]][15 := Add(cpu.R[15], if ins.thumb then 2 else 4)]
        == Advanced(cpu.R, ins.thumb)[ins.rd := e.cpu.R[ins.rd]];
  }

  /** BL leaves the address four bytes on in LR. */
  lemma BlLinks(cpu: CpuState, mem: Mem, ins: Instr, costs: CostModel)
    requires CondPasses(ins.cond, cpu.cpsr) && !ins.isUndefined && ins.op.BL? && !ins.thumb
    ensures Step(cpu, mem, ins, costs) ==
            StepResult(Branched, cpu.(R := cpu.R[14 := Add(ins.pc, 4)][15 := ins.branchTarget]), mem,
                       Step(cpu, mem, ins, costs).cycles)
  {
    hide CondPasses, Add, CycleBase;
  }

  /** R15 as an ARM operand: two instructions ahead, three when a register gives the shift count. */
  lemma PcAsOperand(cpu: CpuState, ins: Instr)
    requires !ins.thumb && ins.rn == 15 && IsDataProcessing(ins.op) && !ins.op.MOV? && !ins.op.MVN?
    ensures DpRn(cpu, ins) == Add(ins.pc, if ins.op2.Shifted? && ins.op2.reg.count.ByReg? then 12 else 8)
  {
    TwelveOn(ins.pc);
    hide Add;
  }

  lemma TwelveOn(pc: Word)
    ensures Add(Add(pc, 8), 4) == Add(pc, 12)
  {
    assert Add(8, 4) == 12;
    hide Add;
    AddAssoc(pc, 8, 4);
  }

  lemma AdvancedUpdate(r: Regs, thumb: bool, i: Reg, v: Word)
    ensures i != 15 ==> Advanced(r[i := v], thumb) == Advanced(r, thumb)[i := v]
  {
    hide Add;
  }

  lemma Overwritten(r: Regs, i: Reg, u: Word, v: Word)
    ensures r[i := u][i := v] == r[i := v]
  {}

  lemma LoadEffect(cpu: CpuState, mem: Mem, ins: Instr, costs: CostModel)
    requires (IsLoad(ins.op) || IsStore(ins.op)) && !(IsLoad(ins.op) && ins.rd == 15)
    ensures var e := ExecMemory(cpu, mem, ins, costs);
            var ea := EffectiveAddress(cpu, ins);
            var kept := if ins.mem.writeback && !(IsLoad(ins.op) && ins.mem.rn == ins.rd)
                        then cpu.R[ins.mem.rn := WritebackAddress(cpu, ins)] else cpu.R;
            && !e.wrotePc && !e.returned
            && e.cpu == cpu.(R := if IsLoad(ins.op) then kept[ins.rd := LoadValue(mem, ins.op, ea)] else kept)
            && e.mem == if IsLoad(ins.op) then mem
                        else StoreMem(mem, ins.op, ea, if ins.rd == 15 then Add(ins.pc, 12) else cpu.R[ins.rd])
  {
    hide LoadValue, StoreMem, EffectiveAddress, WritebackAddress, And, Add, AccessWidth;
    var wb := WritebackAddress(cpu, ins);
    if IsLoad(ins.op) {
      var v := LoadValue(mem, ins.op, EffectiveAddress(cpu, ins));
      if ins.mem.rn != ins.rd { assert cpu.R[ins.rd := v][ins.mem.rn := wb] == cpu.R[ins.mem.rn := wb][ins.rd := v]; }
    }
  }

  /** A load changes its destination and, with writeback, its base, and no memory; a store its base and memory. The
      loaded value wins over the written-back base. */
  lemma TransfersChange(cpu: CpuState, mem: Mem, ins: Instr, costs: CostModel)
    requires CondPasses(ins.cond, cpu.cpsr) && !ins.isUndefined && (IsLoad(ins.op) || IsStore(ins.op))
    requires !(IsLoad(ins.op) && ins.rd == 15) && !(ins.mem.writeback && ins.mem.rn == 15)
    ensures var r := Step(cpu, mem, ins, costs);
            var ea := EffectiveAddress(cpu, ins);
            var next := Advanced(cpu.R, ins.thumb);
            var based := if ins.mem.writeback then next[ins.mem.rn := WritebackAddress(cpu, ins)] else next;
            && r.outcome == Normal && r.cpu == cpu.(R := r.cpu.R)
            && r.cpu.R == (if IsLoad(ins.op) then based[ins.rd := LoadValue(mem, ins.op, ea)] else based)
            && r.mem == if IsLoad(ins.op) then mem
                        else StoreMem(mem, ins.op, ea, if ins.rd == 15 then Add(ins.pc, 12) else cpu.R[ins.rd])
  {
    hide CondPasses, Add, ExecMemory, LoadValue, StoreMem, EffectiveAddress, WritebackAddress, Step, Advanced;
    LoadEffect(cpu, mem, ins, costs);
    SteppedPast(cpu, mem, ins, costs);
    var wb := WritebackAddress(cpu, ins);
    if IsLoad(ins.op) {
      var v := LoadValue(mem, ins.op, EffectiveAddress(cpu, ins));
      AdvancedUpdate(cpu.R, ins.thumb, ins.mem.rn, wb);
      AdvancedUpdate(cpu.R, ins.thumb, ins.rd, v);
      AdvancedUpdate(cpu.R[ins.mem.rn := wb], ins.thumb, ins.rd, v);
      Overwritten(Advanced(cpu.R, ins.thumb), ins.rd, wb, v);
    } else {
      AdvancedUpdate(cpu.R, ins.thumb, ins.mem.rn, wb);
    }
  }
}
