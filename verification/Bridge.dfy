// The interpreter bridge (runtime_arm_default_aborts.cpp): fetch, decode, step, over and over, on the CPU object and the
// bus; and the emitted code of a block against that loop.
module Bridge {
  import opened Words
  import opened Ir
  import opened Cpu
  import opened Reference
  import opened RuntimeOps
  import opened Host
  import opened Codegen
  import opened Lowering
  import opened Branches
  import opened Compiler
  import opened Correctness
  import opened Blocks
  import opened ArmDecode
  import opened ThumbDecode
  import opened Decoded
  import opened Interpreter

  /** The instruction at R15, in the instruction set the CPU is in. */
  function Fetched(cpu: CpuState, mem: Mem): Instr {
    var pc := cpu.R[15];
    if cpu.thumb then DecodeThumb(Read16(mem, pc), pc) else Decode(Read32(mem, pc), pc)
  }

  /** Where the loop stands; `stopped` once step reported a SWI, which goes to the runtime, or a gap, which aborts. */
  datatype Run = Run(cpu: CpuState, mem: Mem, cycles: nat, stopped: bool)

  predicate Stops(outcome: Outcome) {
    outcome.Swi? || outcome.Trapped? || outcome.NotImplemented?
  }

  function Bridged(cpu: CpuState, mem: Mem, costs: CostModel, n: nat): Run {
    if n == 0 then Run(cpu, mem, 0, false) else
    var b := Bridged(cpu, mem, costs, n - 1);
    if b.stopped then b else
    var r := Step(b.cpu, b.mem, Fetched(b.cpu, b.mem), costs);
    Run(r.cpu, r.mem, b.cycles + r.cycles, Stops(r.outcome))
  }

  lemma {:induction false} StoppedStays(cpu: CpuState, mem: Mem, costs: CostModel, k: nat, n: nat)
    requires k <= n && Bridged(cpu, mem, costs, k).stopped
    ensures Bridged(cpu, mem, costs, n) == Bridged(cpu, mem, costs, k)
  {
    hide Step, Fetched;
    if k < n { StoppedStays(cpu, mem, costs, k, n - 1); }
  }

  /** At most n turns of the bridge's loop on the CPU object and the bus. */
  method Interpret(cpu: CpuObject, bus: Bus, n: nat) returns (cycles: nat, stopped: bool)
    requires cpu.Valid() && bus !in cpu.Repr
    modifies cpu.Repr, bus
    ensures Run(cpu.Value(), bus.mem, cycles, stopped) == Bridged(old(cpu.Value()), old(bus.mem), bus.costs, n)
  {
    hide Step, Decode, DecodeThumb, Read16, Read32;
    cycles, stopped := 0, false;
    var k := 0;
    while k < n && !stopped
      invariant k <= n
      invariant Run(cpu.Value(), bus.mem, cycles, stopped) == Bridged(old(cpu.Value()), old(bus.mem), bus.costs, k)
    {
      var pc := cpu.R[15];
      var ins := if cpu.thumb then DecodeThumb(Read16(bus.mem, pc), pc) else Decode(Read32(bus.mem, pc), pc);
      var outcome, cost := StepInstr(cpu, bus, ins);
      cycles, stopped, k := cycles + cost, Stops(outcome), k + 1;
    }
    if stopped { StoppedStays(old(cpu.Value()), old(bus.mem), bus.costs, k, n); }
  }

  // ----- A block of code in memory ---------------------------------------------------------------------

  /** The turns after which the first transfer of control, if there is one, has been made. */
  function Turns(cpu: CpuState, mem: Mem, block: seq<Instr>, costs: CostModel, k: nat): nat
    requires k <= |block|
  {
    if k == 0 then 0
    else if StepThrough(cpu, mem, block, costs, k - 1).left then Turns(cpu, mem, block, costs, k - 1)
    else k
  }

  /** Wherever the block gets to before its first transfer, its next instruction is what the bridge fetches. */
  ghost predicate InMemory(cpu: CpuState, mem: Mem, block: seq<Instr>, costs: CostModel, k: nat)
    requires k <= |block|
  {
    forall i | 0 <= i < k ::
      var p := StepThrough(cpu, mem, block, costs, i);
      !p.left ==> Fetched(p.cpu, p.mem) == block[i]
  }

  lemma NeverStops(ins: Instr, cpu: CpuState, mem: Mem, costs: CostModel)
    requires WellFormed(ins)
    ensures !Stops(Step(cpu, mem, ins, costs).outcome)
  {
    hide Execute, WellFormed, CondPasses, CycleBase, Add;
    WellFormedRuns(ins);
  }

  /** Then the bridge's loop is iterating step over the block. */
  lemma {:induction false} BlockBridged(cpu: CpuState, mem: Mem, block: seq<Instr>, costs: CostModel, k: nat)
    requires k <= |block| && Consecutive(block) && InMemory(cpu, mem, block, costs, k)
    ensures var p := StepThrough(cpu, mem, block, costs, k);
            Bridged(cpu, mem, costs, Turns(cpu, mem, block, costs, k)) == Run(p.cpu, p.mem, p.cycles, false)
    ensures !StepThrough(cpu, mem, block, costs, k).left ==> Turns(cpu, mem, block, costs, k) == k
  {
    hide Step, Fetched, WellFormed, Next, FallsThrough;
    if k > 0 {
      BlockBridged(cpu, mem, block, costs, k - 1);
      var p := StepThrough(cpu, mem, block, costs, k - 1);
      NeverStops(block[k - 1], p.cpu, p.mem, costs);
    }
  }

  /** The code bytes of instruction i are still there when the run reaches it. */
  predicate ArmCodeKept(ws: seq<Word>, block: seq<Instr>, p: Progress, i: nat)
    requires i < |block| == |ws|
  {
    !p.left ==> Read32(p.mem, block[i].pc) == ws[i]
  }

  predicate ThumbCodeKept(hs: seq<bv16>, block: seq<Instr>, p: Progress, i: nat)
    requires i < |block| == |hs|
  {
    !p.left ==> Read16(p.mem, block[i].pc) == hs[i]
  }

  /** A steady run stands at its next instruction, in its instruction set. */
  lemma StandsAt(env: Env, block: seq<Instr>, ctx: Ctx, x: State, i: nat)
    requires SteadyBlock(block, ctx) && i < |block| && EntersBlock(block, ctx, x)
    ensures var p := StepThrough(Abs(x.m.cpu), x.m.mem, block, env.costs, i);
            !p.left ==> p.cpu.R[15] == block[i].pc && p.cpu.thumb == ctx.fnThumb
  {
    hide Exec, EmitFirst, StepThrough, Unpack, Steady, WellFormed, Next, ToItsPc;
    SteadyBlockCorrect(env, block, ctx, x, i);
  }

  /** The code of the first k instructions leaves what the bridge's loop leaves after the turns up to the first
      transfer, at the handover if there was one, else now and after all k turns. */
  ghost predicate BridgeTracks(env: Env, block: seq<Instr>, ctx: Ctx, x: State, k: nat)
    requires 0 < |block| && k <= |block|
  {
    var n := Turns(Abs(x.m.cpu), x.m.mem, block, env.costs, k);
    var b := Bridged(Abs(x.m.cpu), x.m.mem, env.costs, n);
    var y := Exec(env, EmitFirst(block, ctx, k), x);
    && !b.stopped && (y.handed.Kept? ==> n == k)
    && Tracks(x, y, Progress(b.cpu, b.mem, b.cycles, y.handed.Handed?), PcAfter(block, k))
  }

  lemma BridgeConcludes(env: Env, block: seq<Instr>, ctx: Ctx, x: State, k: nat)
    requires 0 < |block| && k <= |block| && Consecutive(block)
    requires InMemory(Abs(x.m.cpu), x.m.mem, block, env.costs, k)
    requires Tracks(x, Exec(env, EmitFirst(block, ctx, k), x),
                    StepThrough(Abs(x.m.cpu), x.m.mem, block, env.costs, k), PcAfter(block, k))
    ensures BridgeTracks(env, block, ctx, x, k)
  {
    hide Exec, EmitFirst, Abs, StepThrough, Bridged, Turns, InMemory, Consecutive, PcAfter, ToItsPc;
    BlockBridged(Abs(x.m.cpu), x.m.mem, block, env.costs, k);
  }

  /** Two engines, one program: from any machine in ARM state at code whose words are in memory and stay there, the
      emitted code of a steady block gets where fetching, decoding and stepping gets, in the same cycles, and hands
      control on to the PC the loop would fetch from next. */
  lemma ArmBridgeAgrees(env: Env, ws: seq<Word>, block: seq<Instr>, ctx: Ctx, x: State, k: nat)
    requires ArmBlock(ws, block) && k <= |block| && !ctx.fnThumb && EntersBlock(block, ctx, x)
    requires forall i | 0 <= i < k :: ArmCodeKept(ws, block, StepThrough(Abs(x.m.cpu), x.m.mem, block, env.costs, i), i)
    ensures BridgeTracks(env, block, ctx, x, k)
  {
    hide Exec, EmitFirst, Abs, StepThrough, Tracks, BridgeTracks, Decode, DecodeThumb, Next, Read16, Read32, Steady,
      EntersBlock;
    var cpu := Abs(x.m.cpu);
    ArmSteady(ws, block, ctx);
    forall i | 0 <= i < k
      ensures var p := StepThrough(cpu, x.m.mem, block, env.costs, i);
              !p.left ==> Fetched(p.cpu, p.mem) == block[i]
    {
      StandsAt(env, block, ctx, x, i);
    }
    ArmBlockCorrect(env, ws, block, ctx, x, k);
    BridgeConcludes(env, block, ctx, x, k);
  }

  /** The same from THUMB state. */
  lemma ThumbBridgeAgrees(env: Env, hs: seq<bv16>, block: seq<Instr>, ctx: Ctx, x: State, k: nat)
    requires ThumbBlock(hs, block) && k <= |block| && ctx.fnThumb && EntersBlock(block, ctx, x)
    requires forall i | 0 <= i < k :: ThumbCodeKept(hs, block, StepThrough(Abs(x.m.cpu), x.m.mem, block, env.costs, i), i)
    ensures BridgeTracks(env, block, ctx, x, k)
  {
    hide Exec, EmitFirst, Abs, StepThrough, Tracks, BridgeTracks, Decode, DecodeThumb, Next, Read16, Read32, Steady,
      EntersBlock;
    var cpu := Abs(x.m.cpu);
    ThumbSteady(hs, block, ctx);
    forall i | 0 <= i < k
      ensures var p := StepThrough(cpu, x.m.mem, block, env.costs, i);
              !p.left ==> Fetched(p.cpu, p.mem) == block[i]
    {
      StandsAt(env, block, ctx, x, i);
    }
    ThumbBlockCorrect(env, hs, block, ctx, x, k);
    BridgeConcludes(env, block, ctx, x, k);
  }
}
