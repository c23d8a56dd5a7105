// From machine words to agreeing runs: the decoders composed with the compiler theorem.
module Decoded {
  import opened Words
  import opened Ir
  import opened Cpu
  import opened Reference
  import opened RuntimeOps
  import opened Host
  import opened Codegen
  import opened Lowering
  import opened Alu
  import opened Branches
  import opened Transfers
  import opened BlockTransfers
  import opened Compiler
  import opened Correctness
  import opened Blocks
  import opened ArmDecode
  import opened ThumbDecode

  // ----- Nothing decodable is unimplemented ------------------------------------------------------

  /** No decoded instruction reaches step's NotImplemented, nor the abort the generator emits for it. */
  lemma Handled(env: Env, ins: Instr, ctx: Ctx, x: State)
    requires AtInstr(ins, ctx, x) && Closed(ins) && !ins.isUndefined
    ensures Step(Abs(x.m.cpu), x.m.mem, ins, env.costs).outcome != NotImplemented
    ensures !Exec(env, EmitInstr(ins, ctx), x).status.Aborted?
  {
    hide Exec, EmitInstr, Execute, EmittedEffect, WellFormed, CondPasses, Abs, SwiEntry;
    if ins.op.SWI? {
      SwiRuns(env, ins, ctx, x);
      hide EntersSwi;
      EntersMeans(x, Exec(env, EmitInstr(ins, ctx), x), x.m.cpu.(R := x.m.cpu.R[15 := Next(ins)]));
    } else {
      WellFormedRuns(ins);
      InstrRuns(env, ins, ctx, x);
      SameOutcome(ins, x.m.cpu, x.m.mem, env.costs);
    }
  }

  lemma EntersMeans(x: State, y: State, cpu: Packed)
    ensures EntersSwi(x, y, cpu) ==> y.status.Left?
  {
    hide SwiEntry;
  }

  // ----- ARM ----------------------------------------------------------------------------------------

  /** Every ARM word that is neither Undefined nor a SWI: the emitted code does what step does exactly
      outside the listed differences. */
  lemma ArmCorrect(env: Env, w: Word, ctx: Ctx, x: State)
    requires var ins := Decode(w, x.m.cpu.R[15]);
             AtInstr(ins, ctx, x) && !ins.isUndefined && !ins.op.SWI? && SameOffset(ins, Abs(x.m.cpu))
    ensures var ins := Decode(w, x.m.cpu.R[15]);
            Executes(ins.op)
            && (Performs(ins, x, Exec(env, EmitInstr(ins, ctx), x), Step(Abs(x.m.cpu), x.m.mem, ins, env.costs)) <==>
                !Differs(x.m.cpu, x.m.mem, ins))
  {
    hide Exec, EmitInstr, Performs, WellFormed, SameOffset, Differs, Step, Abs, Decode;
    var ins := Decode(w, x.m.cpu.R[15]);
    DecodeClosed(w, x.m.cpu.R[15]);
    WellFormedRuns(ins);
    CompilerCorrect(env, ins, ctx, x);
  }

  // ----- THUMB --------------------------------------------------------------------------------------

  /** The only THUMB form on which the engines can differ is CMP naming R15 as its first operand. */
  lemma ThumbDifference(p: Packed, mem: Mem, ins: Instr)
    requires Narrow(ins, ins.pc)
    ensures SameOffset(ins, Abs(p)) && (DiffersIfRun(p, mem, ins) <==> TestDiffers(ins, Abs(p)))
    ensures TestDiffers(ins, Abs(p)) ==> ins.op.CMP? && ins.rd == 15 && CondPasses(ins.cond, Abs(p).cpsr)
  {
    hide Unpack, RestoreKeeps, LoadValue, EffectiveAddress, WritebackAddress, BlockFinalBase, SeenIn, Merge, Canonical,
      Product, SwappedIn, LongProduct, StatusWord, And, DoShift, LoadsPc, ModeToBank;
  }

  /** Every THUMB halfword that is neither Undefined nor a SWI: the emitted code does what step does, unless
      it is a CMP naming R15 in a mode whose SPSR holds something else than the CPSR. */
  lemma ThumbCorrect(env: Env, h: bv16, ctx: Ctx, x: State)
    requires var ins := DecodeThumb(h, x.m.cpu.R[15]);
             AtInstr(ins, ctx, x) && !ins.isUndefined && !ins.op.SWI?
    ensures var ins := DecodeThumb(h, x.m.cpu.R[15]);
            var cpu := Abs(x.m.cpu);
            Performs(ins, x, Exec(env, EmitInstr(ins, ctx), x), Step(cpu, x.m.mem, ins, env.costs)) <==>
            !(ins.op.CMP? && TestDiffers(ins, cpu))
  {
    hide Exec, EmitInstr, Performs, WellFormed, SameOffset, Step, Abs, DecodeThumb, CondPasses;
    var ins := DecodeThumb(h, x.m.cpu.R[15]);
    ThumbClosed(h, x.m.cpu.R[15]);
    WellFormedRuns(ins);
    hide DiffersIfRun, TestDiffers;
    ThumbDifference(x.m.cpu, x.m.mem, ins);
    CompilerCorrect(env, ins, ctx, x);
  }

  lemma PcOfAbs(p: Packed)
    ensures Abs(p).R == p.R
  {}

  // ----- The THUMB long branch ------------------------------------------------------------------------

  /** The 22 bits of the two halves, sign-extended. */
  function SExt22(hi: Word, lo: Word): Word {
    var off := (hi << 11) | lo;
    if off & 0x20_0000 != 0 then off | 0xFFC0_0000 else off
  }

  /** Where a BL at pc with these two fields must land. */
  function LongTarget(pc: Word, hi: Word, lo: Word): Word {
    Add(Add(pc, 4), Mul(SExt22(hi, lo), 2))
  }

  predicate IsPrefix(h: bv16) {
    h & 0xF800 == 0xF000
  }

  predicate IsSuffix(h: bv16) {
    h & 0xF800 == 0xF800
  }

  lemma PrefixDecodes(h: bv16, pc: Word)
    requires IsPrefix(h)
    ensures DecodeThumb(h, pc) == FreshThumb(pc).(op := BL_prefix, branchTarget := Add(Add(pc, 4), Shl(SExt11(Imm11(h)), 12)))
  {
    hide Add, SExt11, Imm11;
    PrefixTop(h);
  }

  lemma PrefixTop(h: bv16)
    requires IsPrefix(h)
    ensures h >> 13 == 7 && (h >> 11) & 3 == 2 && !HalfBit(h, 11)
  {}

  lemma SuffixTop(h: bv16)
    requires IsSuffix(h)
    ensures h >> 13 == 7 && (h >> 11) & 3 == 3 && HalfBit(h, 11)
  {}

  lemma SuffixDecodes(h: bv16, pc: Word)
    requires IsSuffix(h)
    ensures DecodeThumb(h, pc) == FreshThumb(pc).(op := BL_suffix, swiImm := Shl(Imm11(h), 1))
  {
    hide Imm11;
    SuffixTop(h);
  }

  predicate Even(w: Word) {
    w & 1 == 0
  }

  lemma HalvesJoin(hi: Word, lo: Word)
    requires hi < 0x800 && lo < 0x800
    ensures Add(Shl(SExt11(hi), 12), Shl(lo, 1)) == Mul(SExt22(hi, lo), 2)
  {
    HalvesRaw(hi, lo);
    hide SExt11, SExt22;
  }

  lemma HalvesRaw(hi: Word, lo: Word)
    requires hi < 0x800 && lo < 0x800
    ensures (Shl(SExt11(hi), 12)) + (Shl(lo, 1)) == SExt22(hi, lo) * 2
  {}

  lemma Fields(h: bv16)
    ensures Imm11(h) < 0x800
  {}

  lemma EvenSum(p: Word, a: Word)
    requires Even(p)
    ensures And(Add(p, Mul(a, 2)), 0xFFFF_FFFE) == Add(p, Mul(a, 2))
  {
    hide Add, And, Even, Mul;
    SumOfEven(p, Mul(a, 2));
    DoubleEven(a);
    EvenMask(Add(p, Mul(a, 2)));
  }

  lemma SumOfEven(a: Word, b: Word)
    ensures Even(a) && Even(b) ==> Even(Add(a, b))
  {}

  lemma DoubleEven(a: Word)
    ensures Even(Mul(a, 2))
  {}

  lemma EvenMask(a: Word)
    requires Even(a)
    ensures And(a, 0xFFFF_FFFE) == a
  {}

  /** The two partial offsets add up to twice the 22-bit field. */
  lemma TargetSum(pc: Word, hi: Word, lo: Word)
    requires Even(pc) && hi < 0x800 && lo < 0x800
    ensures And(Add(Add(Add(pc, 4), Shl(SExt11(hi), 12)), Shl(lo, 1)), 0xFFFF_FFFE) == LongTarget(pc, hi, lo)
  {
    AddAssoc(Add(pc, 4), Shl(SExt11(hi), 12), Shl(lo, 1));
    HalvesJoin(hi, lo);
    SumOfEven(pc, 4);
    EvenSum(Add(pc, 4), SExt22(hi, lo));
    hide Add, And, SExt11, SExt22, Mul;
  }

  /** The state after a BL at pc. */
  function LongBranched(cpu: CpuState, pc: Word, hi: bv16, lo: bv16): CpuState {
    SetReg(SetReg(cpu, 14, Or(Add(pc, 4), 1)), 15, LongTarget(pc, Imm11(hi), Imm11(lo)))
  }

  lemma PrefixSteps(cpu: CpuState, mem: Mem, hi: bv16, pc: Word, costs: CostModel)
    requires IsPrefix(hi) && cpu.R[15] == pc
    ensures Step(cpu, mem, DecodeThumb(hi, pc), costs) ==
            StepResult(Normal, SetReg(SetReg(cpu, 14, Add(Add(pc, 4), Shl(SExt11(Imm11(hi)), 12))), 15, Add(pc, 2)), mem, 1)
  {
    PrefixDecodes(hi, pc);
    hide DecodeThumb, Add, SExt11, Imm11;
  }

  lemma SuffixSteps(cpu: CpuState, mem: Mem, lo: bv16, pc: Word, costs: CostModel)
    requires IsSuffix(lo)
    ensures Step(cpu, mem, DecodeThumb(lo, pc), costs) ==
            StepResult(Branched, SetReg(SetReg(cpu, 14, Or(Add(pc, 2), 1)), 15, And(Add(cpu.R[14], Shl(Imm11(lo), 1)), 0xFFFF_FFFE)),
                       mem, 3)
  {
    SuffixDecodes(lo, pc);
    hide DecodeThumb, Add, And, Or, Imm11;
  }

  lemma TwoPlusTwo(pc: Word)
    ensures Add(Add(pc, 2), 2) == Add(pc, 4)
  {
    AddAssoc(pc, 2, 2);
    Four();
    hide Add;
  }

  lemma Four()
    ensures Add(2, 2) == 4
  {}

  /** Interpreting a BL pair: pc + 4 + 2 * sext22(hi:lo), with LR = (pc + 4) | 1, in 1 + 3 cycles. */
  lemma LongBranchSteps(cpu: CpuState, mem: Mem, hi: bv16, lo: bv16, pc: Word, costs: CostModel)
    requires Even(pc) && IsPrefix(hi) && IsSuffix(lo) && cpu.R[15] == pc
    ensures var a := Step(cpu, mem, DecodeThumb(hi, pc), costs);
            var b := Step(a.cpu, a.mem, DecodeThumb(lo, Add(pc, 2)), costs);
            a.outcome == Normal && b.outcome == Branched && a.cycles + b.cycles == 4
            && b.cpu == LongBranched(cpu, pc, hi, lo) && b.mem == mem
  {
    hide DecodeThumb, Step, Add, And, Or, SExt11, Imm11, Even, IsPrefix, IsSuffix, LongTarget;
    PrefixSteps(cpu, mem, hi, pc, costs);
    var a := Step(cpu, mem, DecodeThumb(hi, pc), costs);
    SuffixSteps(a.cpu, a.mem, lo, Add(pc, 2), costs);
    TwoPlusTwo(pc);
    Fields(hi);
    Fields(lo);
    TargetSum(pc, Imm11(hi), Imm11(lo));
    assert SetReg(SetReg(a.cpu, 14, Or(Add(pc, 4), 1)), 15, LongTarget(pc, Imm11(hi), Imm11(lo))).R
        == LongBranched(cpu, pc, hi, lo).R;
  }

  /** A THUMB instruction that is no test never differs. */
  lemma NoDifference(p: Packed, mem: Mem, h: bv16)
    requires IsPrefix(h) || IsSuffix(h)
    ensures var ins := DecodeThumb(h, p.R[15]);
            WellFormed(ins) && Executes(ins.op) && (ins.op.BL_prefix? || ins.op.BL_suffix?) && !FallsThrough(ins)
            && ins.pc == p.R[15] && Next(ins) == Add(ins.pc, 2)
            && SameOffset(ins, Abs(p)) && !Differs(p, mem, ins)
  {
    if IsPrefix(h) { PrefixDecodes(h, p.R[15]); } else { SuffixDecodes(h, p.R[15]); }
    var ins := DecodeThumb(h, p.R[15]);
    ThumbClosed(h, p.R[15]);
    hide DecodeThumb, Imm11, SExt11, Add, Unpack, CondPasses, DiffersIfRun, WellFormed, SameOffset, TestDiffers, Abs,
      Narrow;
    WellFormedRuns(ins);
    ThumbDifference(p, mem, ins);
  }

  /** The emitted code of a BL pair hands control over there too, having ticked the same four cycles. */
  lemma LongBranchEmitted(env: Env, hi: bv16, lo: bv16, ctx: Ctx, x: State)
    requires x.status.Running? && x.handed.Kept? && Even(x.m.cpu.R[15]) && IsPrefix(hi) && IsSuffix(lo)
    requires |x.m.calls.frames| < CALL_STACK_SIZE
    ensures var pc := x.m.cpu.R[15];
            var y := Exec(env, EmitFirst([DecodeThumb(hi, pc), DecodeThumb(lo, Add(pc, 2))], ctx, 2), x);
            ToItsPc(y.handed) && y.handed.ticks == x.ticks + 4 && y.handed.mem == x.m.mem
            && Abs(y.handed.cpu) == LongBranched(Abs(x.m.cpu), pc, hi, lo)
  {
    hide Exec, Abs, Step, DecodeThumb, Add, Even, IsPrefix, IsSuffix, SameOffset, Differs, LongBranched, WellFormed,
      FallsThrough, Next;
    var pc := x.m.cpu.R[15];
    var a := DecodeThumb(hi, pc);
    var b := DecodeThumb(lo, Add(pc, 2));
    var block := [a, b];
    PcOfAbs(x.m.cpu);
    NoDifference(x.m.cpu, x.m.mem, hi);
    NoDifference(PutReg(x, 15, Add(pc, 2)).m.cpu, x.m.mem, lo);
    FirstUnaffected(env, block, ctx, x);
    BlockCorrect(env, block, ctx, x, 1);
    var y := Exec(env, EmitFirst(block, ctx, 1), x);
    NoDifference(y.m.cpu, y.m.mem, lo);
    BlockCorrect(env, block, ctx, x, 2);
    LongBranchSteps(Abs(x.m.cpu), x.m.mem, hi, lo, pc, env.costs);
    TwoSteps(Abs(x.m.cpu), x.m.mem, block, env.costs);
  }

  lemma FirstUnaffected(env: Env, block: seq<Instr>, ctx: Ctx, x: State)
    requires |block| > 0 && Consecutive(block) && x.status.Running? && HasRoom(block[0], x.m.calls) && InSet(block[0], ctx, x.m.cpu)
    requires SameOffset(block[0], Abs(x.m.cpu)) && !Differs(x.m.cpu, x.m.mem, block[0])
    ensures Unaffected(env, block, ctx, x, 0)
  {
    ChoiceRules(env);
    hide Exec, SameOffset, Differs, Abs, WellFormed;
  }

  lemma TwoSteps(cpu: CpuState, mem: Mem, block: seq<Instr>, costs: CostModel)
    requires |block| == 2
    ensures var a := Step(cpu, mem, block[0], costs);
            var b := Step(a.cpu, a.mem, block[1], costs);
            a.outcome == Normal ==>
              StepThrough(cpu, mem, block, costs, 1) == Progress(a.cpu, a.mem, a.cycles, false)
              && StepThrough(cpu, mem, block, costs, 2) ==
                 Progress(b.cpu, b.mem, a.cycles + b.cycles, b.outcome != Normal && !FallsThrough(block[1]))
  {
    hide Step, FallsThrough;
  }

  // ----- Blocks of decoded code -----------------------------------------------------------------------

  /** Halfwords decoded at consecutive addresses, none Undefined, a SWI, or a CMP naming R15. */
  predicate ThumbBlock(hs: seq<bv16>, block: seq<Instr>) {
    && |block| == |hs| > 0
    && (forall i | 0 <= i < |block| ::
          block[i] == DecodeThumb(hs[i], block[i].pc) && !block[i].isUndefined && !block[i].op.SWI?
          && !(block[i].op.CMP? && block[i].rd == 15))
    && (forall i | 0 < i < |block| :: block[i].pc == Next(block[i - 1]))
  }

  lemma NarrowSteady(ins: Instr)
    requires Narrow(ins, ins.pc) && !(ins.op.CMP? && ins.rd == 15)
    ensures Steady(ins) && ins.thumb
  {}

  lemma ThumbSteady(hs: seq<bv16>, block: seq<Instr>, ctx: Ctx)
    requires ThumbBlock(hs, block) && ctx.fnThumb
    ensures SteadyBlock(block, ctx)
  {
    hide DecodeThumb, WellFormed, Next, Narrow, Steady;
    forall i | 0 <= i < |block| ensures WellFormed(block[i]) && Steady(block[i]) && block[i].thumb {
      ThumbClosed(hs[i], block[i].pc);
      NarrowSteady(block[i]);
    }
  }

  /** Any straight run of THUMB code, from any machine in THUMB state with room for a call: the emitted block is
      iterating step until the first transfer of control, and then goes to the PC step reached. */
  lemma ThumbBlockCorrect(env: Env, hs: seq<bv16>, block: seq<Instr>, ctx: Ctx, x: State, k: nat)
    requires ThumbBlock(hs, block) && k <= |block| && ctx.fnThumb && EntersBlock(block, ctx, x)
    ensures Tracks(x, Exec(env, EmitFirst(block, ctx, k), x),
                   StepThrough(Abs(x.m.cpu), x.m.mem, block, env.costs, k), PcAfter(block, k))
  {
    hide Exec, EmitFirst, Abs, StepThrough, Tracks, DecodeThumb, Next;
    ThumbSteady(hs, block, ctx);
    SteadyBlockCorrect(env, block, ctx, x, k);
  }

  /** Words decoded at consecutive addresses, none Undefined or a SWI, and none of a form the engines can differ on. */
  predicate ArmBlock(ws: seq<Word>, block: seq<Instr>) {
    && |block| == |ws| > 0
    && (forall i | 0 <= i < |block| ::
          block[i] == Decode(ws[i], block[i].pc) && !block[i].isUndefined && !block[i].op.SWI? && Steady(block[i]))
    && (forall i | 0 < i < |block| :: block[i].pc == Next(block[i - 1]))
  }

  lemma ArmSteady(ws: seq<Word>, block: seq<Instr>, ctx: Ctx)
    requires ArmBlock(ws, block) && !ctx.fnThumb
    ensures SteadyBlock(block, ctx)
  {
    hide Decode, WellFormed, Next, Steady;
    forall i | 0 <= i < |block| ensures WellFormed(block[i]) && !block[i].thumb {
      DecodeClosed(ws[i], block[i].pc);
    }
  }

  /** The same for ARM code, from any machine in ARM state. */
  lemma ArmBlockCorrect(env: Env, ws: seq<Word>, block: seq<Instr>, ctx: Ctx, x: State, k: nat)
    requires ArmBlock(ws, block) && k <= |block| && !ctx.fnThumb && EntersBlock(block, ctx, x)
    ensures Tracks(x, Exec(env, EmitFirst(block, ctx, k), x),
                   StepThrough(Abs(x.m.cpu), x.m.mem, block, env.costs, k), PcAfter(block, k))
  {
    hide Exec, EmitFirst, Abs, StepThrough, Tracks, Decode, Next;
    ArmSteady(ws, block, ctx);
    SteadyBlockCorrect(env, block, ctx, x, k);
  }
}
