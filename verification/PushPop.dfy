// STMDB with writeback, then LDMIA with writeback over the same list (interpreter.cpp:800-869; ARM ARM section A5.4).
module PushPop {
  import opened Words
  import opened Ir
  import opened Cpu
  import opened Reference

  // ----- Slots -----------------------------------------------------------------------------------

  /** How many registers below k are in the list. */
  function Count(l: RegList, k: nat): (n: nat)
    requires k <= 16
    ensures n <= k
  {
    if k == 0 then 0 else Count(l, k - 1) + if l[k - 1] then 1 else 0
  }

  /** 4 * n, for the n a register list can reach. */
  function Four(n: nat): Word
    requires n <= 16
  {
    if n == 0 then 0 else if n == 1 then 4 else if n == 2 then 8 else if n == 3 then 12
    else if n == 4 then 16 else if n == 5 then 20 else if n == 6 then 24 else if n == 7 then 28
    else if n == 8 then 32 else if n == 9 then 36 else if n == 10 then 40 else if n == 11 then 44
    else if n == 12 then 48 else if n == 13 then 52 else if n == 14 then 56 else if n == 15 then 60 else 64
  }

  lemma FourNext(n: nat)
    requires n < 16
    ensures Four(n + 1) == Add(Four(n), 4)
  {}

  lemma FourApart(a: nat, b: nat)
    requires a < b <= 16
    ensures Four(a) != Four(b)
  {}

  lemma FourAligned(n: nat)
    requires n <= 16
    ensures Align4(Four(n)) == Four(n)
  {}

  lemma {:induction false} BytesAreFours(l: RegList, k: nat)
    requires k <= 16
    ensures BytesBelow(l, k) == Four(Count(l, k))
  {
    hide Four, Add;
    FourZero();
    if k > 0 {
      BytesAreFours(l, k - 1);
      if l[k - 1] { FourNext(Count(l, k - 1)); }
    }
  }

  lemma FourZero()
    ensures Four(0) == 0
  {}

  /** The i-th word of the transfer. */
  function Slot(start: Word, i: nat): Word
    requires i <= 16
  {
    Align4(Add(start, Four(i)))
  }

  lemma LowBits(s: Word)
    ensures s == Add(Align4(s), And(s, 3)) && And(And(s, 3), 3) == And(s, 3)
  {}

  lemma AlignedSum(a: Word, x: Word)
    requires Align4(a) == a && Align4(x) == x
    ensures Align4(Add(a, x)) == Add(a, x)
  {
    LowZero(a);
    LowZero(x);
    LowZero(Add(a, x));
    hide Align4, Add;
    LowSum(a, x);
  }

  predicate LowClear(a: Word) {
    a & 3 == 0
  }

  lemma LowZero(a: Word)
    ensures Align4(a) == a <==> LowClear(a)
  {}

  lemma LowSum(a: Word, x: Word)
    ensures LowClear(a) && LowClear(x) ==> LowClear(Add(a, x))
  {}

  lemma DropLow(t: Word, l: Word)
    requires Align4(t) == t && And(l, 3) == l
    ensures Align4(Add(t, l)) == t
  {}

  lemma Exchange(a: Word, l: Word, x: Word)
    ensures Add(Add(a, l), x) == Add(Add(a, x), l)
  {
    hide Add;
    AddAssoc(a, l, x);
    AddComm(l, x);
    AddAssoc(a, x, l);
  }

  lemma SlotSplit(s: Word, x: Word)
    requires Align4(x) == x
    ensures Align4(Add(s, x)) == Add(Align4(s), x)
  {
    hide Add, Align4, And;
    LowBits(s);
    Realign(s);
    Exchange(Align4(s), And(s, 3), x);
    AlignedSum(Align4(s), x);
    DropLow(Add(Align4(s), x), And(s, 3));
  }

  lemma Realign(s: Word)
    ensures Align4(Align4(s)) == Align4(s)
  {}

  /** The words of a transfer are consecutive, wrapping at the top of memory, and all different. */
  lemma SlotsConsecutive(start: Word, i: nat)
    requires i <= 16
    ensures Slot(start, i) == Add(Align4(start), Four(i)) && Align4(Slot(start, i)) == Slot(start, i)
  {
    hide Align4, Add, Four;
    FourAligned(i);
    SlotSplit(start, Four(i));
    Realign(Add(start, Four(i)));
  }

  lemma SlotsApart(start: Word, i: nat, j: nat)
    requires i < j <= 16
    ensures Slot(start, i) != Slot(start, j)
  {
    hide Align4, Add, Four, Sub, Slot;
    SlotsConsecutive(start, i);
    SlotsConsecutive(start, j);
    FourApart(i, j);
    AddComm(Align4(start), Four(i));
    AddComm(Align4(start), Four(j));
    AddCancels(Four(i), Four(j), Align4(start));
  }

  /** Where the register loop stands before register k. */
  lemma {:induction false} CursorIs(base: Word, blk: BlockAddr, k: nat)
    requires k <= 16
    ensures Cursor(base, blk, k) == Add(BlockStart(base, blk), Four(Count(blk.list, k)))
  {
    hide Add, Four, BlockStart;
    FourZero();
    AddZero(BlockStart(base, blk));
    if k > 0 {
      CursorIs(base, blk, k - 1);
      if blk.list[k - 1] {
        FourNext(Count(blk.list, k - 1));
        AddAssoc(BlockStart(base, blk), Four(Count(blk.list, k - 1)), 4);
      }
    }
  }

  // ----- The two instructions ------------------------------------------------------------------------

  /** STMDB Rn!, list without S, the base and R15 not listed. */
  predicate IsPush(ins: Instr) {
    var blk := ins.block;
    ins.op.STM? && !blk.load && blk.preIndexed && !blk.add && blk.writeback && !blk.sBit
    && !blk.list[blk.rn] && !blk.list[15] && !EmptyList(blk.list)
  }

  /** LDMIA Rn!, list likewise. */
  predicate IsPop(ins: Instr) {
    var blk := ins.block;
    ins.op.LDM? && blk.load && !blk.preIndexed && blk.add && blk.writeback && !blk.sBit
    && !blk.list[blk.rn] && !blk.list[15] && !EmptyList(blk.list)
  }

  /** Memory once the registers below k are stored. */
  function Stored(m: Mem, l: RegList, regs: Regs, start: Word, k: nat): Mem
    requires k <= 16
  {
    if k == 0 then m
    else if l[k - 1] then Write32(Stored(m, l, regs, start, k - 1), Slot(start, Count(l, k - 1)), regs[k - 1])
    else Stored(m, l, regs, start, k - 1)
  }

  /** The registers once those below k are loaded. */
  function Filled(regs: Regs, m: Mem, l: RegList, start: Word, k: nat): Regs
    requires k <= 16
  {
    if k == 0 then regs
    else if l[k - 1] then Filled(regs, m, l, start, k - 1)[k - 1 := Read32(m, Slot(start, Count(l, k - 1)))]
    else Filled(regs, m, l, start, k - 1)
  }

  lemma {:induction false} PushLoop(cpu: CpuState, mem: Mem, ins: Instr, costs: CostModel, k: nat)
    requires k <= 16 && IsPush(ins)
    ensures var e := TransferBelow(cpu, mem, ins, costs, k);
            e.cpu == cpu && e.mem == Stored(mem, ins.block.list, cpu.R, BlockStart(cpu.R[ins.block.rn], ins.block), k)
  {
    hide Align4, Write32, Add, Four, EmptyList, BlockStart, BlockFinalBase, AnyBelow, StmPcValue;
    if k > 0 {
      PushLoop(cpu, mem, ins, costs, k - 1);
      CursorIs(cpu.R[ins.block.rn], ins.block, k - 1);
    }
  }

  lemma {:induction false} PopLoop(cpu: CpuState, mem: Mem, ins: Instr, costs: CostModel, k: nat)
    requires k <= 16 && IsPop(ins)
    ensures var e := TransferBelow(cpu, mem, ins, costs, k);
            e.mem == mem
            && e.cpu == cpu.(R := Filled(cpu.R, mem, ins.block.list, BlockStart(cpu.R[ins.block.rn], ins.block), k))
  {
    hide Align4, Read32, Add, Four, EmptyList, BlockStart, BlockFinalBase, AnyBelow, And;
    if k > 0 {
      PopLoop(cpu, mem, ins, costs, k - 1);
      CursorIs(cpu.R[ins.block.rn], ins.block, k - 1);
    }
  }

  lemma {:induction false} CountGrows(l: RegList, r: nat, k: nat)
    requires r < k <= 16 && l[r]
    ensures Count(l, r) < Count(l, k)
  {
    if r < k - 1 { CountGrows(l, r, k - 1); }
  }

  /** Each listed register is in its own word. */
  lemma {:induction false} StoredReads(m: Mem, l: RegList, regs: Regs, start: Word, k: nat, r: nat)
    requires r < k <= 16 && l[r]
    ensures Read32(Stored(m, l, regs, start, k), Slot(start, Count(l, r))) == regs[r]
  {
    hide Read32, Write32, Slot, Align4;
    var before := Stored(m, l, regs, start, k - 1);
    SlotsConsecutive(start, Count(l, r));
    SlotsConsecutive(start, Count(l, k - 1));
    if r == k - 1 {
      Words.ReadBack32(before, Slot(start, Count(l, r)), regs[r]);
    } else {
      StoredReads(m, l, regs, start, k - 1, r);
      if l[k - 1] {
        CountGrows(l, r, k - 1);
        SlotsApart(start, Count(l, r), Count(l, k - 1));
        ReadOther32(before, Slot(start, Count(l, k - 1)), Slot(start, Count(l, r)), regs[k - 1]);
      }
    }
  }

  /** b is in none of the first n words of the transfer. */
  predicate OutsideSlots(start: Word, n: nat, b: Word)
    requires n <= 16
  {
    forall i | 0 <= i < n :: Outside(Slot(start, i), b)
  }

  lemma {:induction false} StoredSpares(m: Mem, l: RegList, regs: Regs, start: Word, k: nat, b: Word)
    requires k <= 16 && OutsideSlots(start, Count(l, k), b)
    ensures Read8(Stored(m, l, regs, start, k), b) == Read8(m, b)
  {
    hide Read8, Write32, Slot, Outside;
    if k > 0 {
      StoredSpares(m, l, regs, start, k - 1, b);
      if l[k - 1] { ReadOutside(Stored(m, l, regs, start, k - 1), Slot(start, Count(l, k - 1)), regs[k - 1], b); }
    }
  }

  lemma {:induction false} FilledAt(regs: Regs, m: Mem, l: RegList, start: Word, k: nat, r: nat)
    requires k <= 16 && r < 16
    ensures Filled(regs, m, l, start, k)[r] == if r < k && l[r] then Read32(m, Slot(start, Count(l, r))) else regs[r]
  {
    hide Read32, Slot;
    if k > 0 { FilledAt(regs, m, l, start, k - 1, r); }
  }

  /** A push stores exactly the listed registers, in popcount(list) consecutive words below the base, and nothing
      else, whatever the base: the words wrap around the top of memory. */
  lemma PushStores(cpu: CpuState, mem: Mem, ins: Instr, costs: CostModel, b: Word)
    requires IsPush(ins)
    ensures var e := ExecBlock(cpu, mem, ins, costs);
            var n := Count(ins.block.list, 16);
            var start := Sub(cpu.R[ins.block.rn], Four(n));
            && e.cpu == SetReg(cpu, ins.block.rn, start) && !e.wrotePc
            && (forall r: nat | r < 16 && ins.block.list[r] ::
                  Read32(e.mem, Slot(start, Count(ins.block.list, r))) == cpu.R[r])
            && (OutsideSlots(start, n, b) ==> Read8(e.mem, b) == Read8(mem, b))
  {
    hide Read32, Read8, Slot, EmptyList, Four, Sub, Stored, Outside, OutsideSlots, BytesBelow;
    var l := ins.block.list;
    var start := BlockStart(cpu.R[ins.block.rn], ins.block);
    BytesAreFours(l, 16);
    PushLoop(cpu, mem, ins, costs, 16);
    forall r: nat | r < 16 && l[r] ensures Read32(Stored(mem, l, cpu.R, start, 16), Slot(start, Count(l, r))) == cpu.R[r] {
      StoredReads(mem, l, cpu.R, start, 16, r);
    }
    if OutsideSlots(start, Count(l, 16), b) { StoredSpares(mem, l, cpu.R, start, 16, b); }
    PushPlain(cpu, mem, ins, costs);
  }

  lemma PushPlain(cpu: CpuState, mem: Mem, ins: Instr, costs: CostModel)
    requires IsPush(ins)
    ensures !TransferBelow(cpu, mem, ins, costs, 16).wrotePc
  {
    StoresNeverJump(cpu, mem, ins, costs, 16);
  }

  lemma {:induction false} StoresNeverJump(cpu: CpuState, mem: Mem, ins: Instr, costs: CostModel, k: nat)
    requires k <= 16 && !ins.block.load
    ensures !TransferBelow(cpu, mem, ins, costs, k).wrotePc
  {
    hide Align4, Write32, Cursor, BlockFinalBase, AnyBelow, StmPcValue, ReadUserReg;
    if k > 0 { StoresNeverJump(cpu, mem, ins, costs, k - 1); }
  }

  /** Push, then code that may change anything but the base and the words pushed, then a pop of the same list:
      the listed registers and the base are what they were before the push. */
  lemma PushThenPop(cpu: CpuState, mem: Mem, push: Instr, later: CpuState, mem': Mem, pop: Instr, costs: CostModel)
    requires IsPush(push) && IsPop(pop) && push.block.rn == pop.block.rn && push.block.list == pop.block.list
    requires var e := ExecBlock(cpu, mem, push, costs);
             var start := e.cpu.R[push.block.rn];
             later.R[push.block.rn] == start
             && forall i | 0 <= i < Count(push.block.list, 16) :: Read32(mem', Slot(start, i)) == Read32(e.mem, Slot(start, i))
    ensures var f := ExecBlock(later, mem', pop, costs);
            && f.mem == mem' && f.cpu.R[push.block.rn] == cpu.R[push.block.rn]
            && (forall r: nat | r < 16 && push.block.list[r] :: f.cpu.R[r] == cpu.R[r])
            && (forall r: nat | r < 16 && !push.block.list[r] && r != push.block.rn :: f.cpu.R[r] == later.R[r])
            && f.cpu == later.(R := f.cpu.R)
  {
    hide Read32, Slot, EmptyList, Four, Sub, Add, Filled, BytesBelow, ExecEmptyBlock, TransferBelow;
    var l := push.block.list;
    var base := cpu.R[push.block.rn];
    var start := Sub(base, Four(Count(l, 16)));
    PushStores(cpu, mem, push, costs, 0);
    PopLoop(later, mem', pop, costs, 16);
    BytesAreFours(l, 16);
    SubThenAdd(base, Four(Count(l, 16)));
    forall r: nat | r < 16
      ensures Filled(later.R, mem', l, start, 16)[r] == if l[r] then cpu.R[r] else later.R[r]
    {
      FilledAt(later.R, mem', l, start, 16, r);
      if l[r] { CountGrows(l, r, 16); }
    }
  }
}
