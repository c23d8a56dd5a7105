// The translated byte-copy routine (ewram.c): its two blocks over the register array and flat memory.
module Ewram {
  import opened Words
  import opened Cpu
  import opened Reference
  import opened RuntimeOps
  import opened Flags
  import opened ByteNumbers
  import opened ByteStreams
  import opened Numbers

  // ----- Flags -----------------------------------------------------------------------------

  /** The status word op_adds leaves, for a 33-bit sum. */
  function AddsFlags(cpsr: Word, a: Word, b: Word, cin: Word): Word {
    FlagsAdc(cpsr, a, b, cin, Lo32(Sum64(a, b, cin)))
  }

  /** op_adds computes the interpreter's adder, result and flags, for either carry-in. */
  lemma AddsIsAdder(cpsr: Word, a: Word, b: Word, cin: bool)
    ensures Lo32(Sum64(a, b, C01(cin))) == AddWithCarry(a, b, C01(cin)).result
    ensures Unpack(AddsFlags(cpsr, a, b, C01(cin))) == WithFlags(Unpack(cpsr), AddWithCarry(a, b, C01(cin)))
  {
    hide Unpack, FlagsAdc, Sum64, Lo32, Add, C01, AddOverflows, SignBit, IsZero, Bit32;
    LowSumWithCarry(a, b, cin);
    AdcAgrees(cpsr, a, b, cin);
  }

  /** `(c[16] >> 30) & 1`. */
  predicate ZBit(cpsr: Word) {
    (cpsr >> 30) & 1 == 1
  }

  lemma ZeroFlag(cpsr: Word, a: Word, b: Word, cin: Word)
    ensures ZBit(AddsFlags(cpsr, a, b, cin)) <==> IsZero(Lo32(Sum64(a, b, cin)))
  {
    hide Sum64, Lo32, AddOverflows, AboveBit31, SignBit, IsZero;
    ZeroBit(cpsr, Lo32(Sum64(a, b, cin)), AboveBit31(Sum64(a, b, cin)), AddOverflows(a, b, Lo32(Sum64(a, b, cin))));
    hide ZBit, FlagsArith;
  }

  lemma ZeroBit(cpsr: Word, r: Word, c: bool, v: bool)
    ensures ZBit(FlagsArith(cpsr, r, c, v)) <==> IsZero(r)
  {}

  lemma SubSame(a: Word) ensures Sub(a, a) == 0 {}

  lemma DifferenceZero(a: Word, b: Word)
    ensures IsZero(Sub(a, b)) <==> a == b
  {
    hide Sub, Add;
    SubSame(b);
    SubThenAdd(a, b);
    AddComm(0, b);
    AddZero(b);
  }

  /** CMP by op_adds: Z says the operands are equal. */
  lemma CompareSets(cpsr: Word, a: Word, b: Word)
    ensures ZBit(AddsFlags(cpsr, a, Not(b), 1)) <==> a == b
  {
    hide ZBit, AddsFlags, Sum64, Lo32, Not, IsZero, Sub;
    ZeroFlag(cpsr, a, Not(b), 1);
    LowBorrow(a, b);
    DifferenceZero(a, b);
  }

  // ----- Counting -------------------------------------------------------------------------------

  /** a + k, wrapping. */
  function Advance(a: Word, k: nat): Word {
    if k == 0 then a else Add(Advance(a, k - 1), 1)
  }

  // ----- What the routine does to memory -------------------------------------------------------------

  /** The forward byte copy, one byte after the other. */
  function ForwardCopy(m: Mem, src: Word, dst: Word, k: nat): Mem {
    if k == 0 then m
    else
      var before := ForwardCopy(m, src, dst, k - 1);
      Write8(before, Advance(dst, k - 1), Read8(before, Advance(src, k - 1)))
  }

  /** The pushed frame: R4, R5, LR below the stack pointer. */
  function Pushed(m: Mem, sp: Word, r4: Word, r5: Word, lr: Word): Mem {
    var a := Sub(sp, 12);
    Write32(Write32(Write32(m, Align4(a), r4), Align4(Add(a, 4)), r5), Align4(Add(Add(a, 4), 4)), lr)
  }

  const POOL_ADDRESS: Word := 0x0203_8d80
  const POOL_MASK: Word := 0x0203_8d84

  /** Where the control halfword is, and what the routine makes of it. */
  function ControlAddress(m: Mem): Word {
    Read32(m, POOL_ADDRESS)
  }

  function ControlValue(m: Mem): Word {
    Or(And(FromHalf(Read16(m, And(ControlAddress(m), 0xFFFF_FFFE))), Read32(m, POOL_MASK)), 3)
  }

  function Controlled(m: Mem): Mem {
    Write16(m, ControlAddress(m), Low16(ControlValue(m)))
  }

  // ----- The two blocks -----------------------------------------------------------------------------------

  const LOOP_BLOCK: Word := 0x0203_8d6a

  /** What the epilogue finds in memory: the saved R4, R5 and return address, from the stack pointer up. */
  function Saved(m: Mem, sp: Word): (Word, Word, Word) {
    (Read32(m, Align4(sp)), Read32(m, Align4(Add(sp, 4))), Read32(m, Align4(Add(sp, 8))))
  }

  lemma PoolAligned()
    ensures Align4(POOL_ADDRESS) == POOL_ADDRESS && Align4(POOL_MASK) == POOL_MASK
  {}

  lemma PlusZero(a: Word)
    ensures Lo32(Sum64(a, 0, 0)) == a
  {
    hide Sum64, Lo32, Add;
    LowSum0(a, 0);
    AddZero(a);
  }

  lemma SameMinusOne(n: Word)
    ensures Sub(n, 1) == 0xFFFF_FFFF <==> n == 0
  {}

  /** The interpreter state the blocks work on: c[0..15], the status word in c[16], memory, and the cycle count. */
  class Guest {
    const c: array<Word>
    var mem: Mem
    var ticks: nat

    ghost predicate Valid() {
      c.Length == 17
    }

    constructor (m: Mem)
      ensures Valid() && fresh(c) && mem == m && ticks == 0
    {
      c := new Word[17](i => 0);
      mem := m;
      ticks := 0;
    }

    method OpAdds(a: Word, b: Word, cin: Word) returns (r: Word)
      requires Valid()
      modifies c
      ensures r == Lo32(Sum64(a, b, cin)) && c[16] == AddsFlags(old(c[16]), a, b, cin)
      ensures forall i | 0 <= i < 16 :: c[i] == old(c[i])
    {
      r := Lo32(Sum64(a, b, cin));
      c[16] := AddsFlags(c[16], a, b, cin);
    }

    method FNz(r: Word)
      requires Valid()
      modifies c
      ensures c[16] == FlagsNZ(old(c[16]), r)
      ensures forall i | 0 <= i < 16 :: c[i] == old(c[i])
    {
      c[16] := FlagsNZ(c[16], r);
    }

    /** ldmia sp!, {r4, r5}; ldmia sp!, {r0}; bx r0. */
    method Epilogue() returns (next: Word)
      requires Valid()
      modifies this`ticks, c
      ensures var saved := Saved(mem, old(c[13]));
              next == EvenPc(saved.2) && c[15] == next && c[0] == saved.2 && c[4] == saved.0 && c[5] == saved.1
              && c[13] == Add(Add(old(c[13]), 8), 4) && ticks == old(ticks) + 8
      ensures forall i | 0 <= i < 17 && i !in {0, 4, 5, 13, 15} :: c[i] == old(c[i])
    {
      hide Add, Align4, Read32, EvenPc;
      var base := c[13];
      var addr := base;
      c[4] := Read32(mem, Align4(addr));
      addr := Add(addr, 4);
      c[5] := Read32(mem, Align4(addr));
      c[13] := Add(base, 8);
      ticks := ticks + 5;
      c[0] := Read32(mem, Align4(c[13]));
      c[13] := Add(c[13], 4);
      ticks := ticks + 3;
      next := EvenPc(c[0]);
      c[15] := next;
    }

    /** stmdb sp!, {r4, r5, lr}. */
    method Push()
      requires Valid()
      modifies this`mem, this`ticks, c
      ensures mem == Pushed(old(mem), old(c[13]), old(c[4]), old(c[5]), old(c[14]))
      ensures c[13] == Sub(old(c[13]), 12) && ticks == old(ticks) + 7
      ensures forall i | 0 <= i < 17 && i != 13 :: c[i] == old(c[i])
    {
      hide Add, Sub, Align4, Write32;
      var base := c[13];
      var addr := Sub(base, 12);
      mem := Write32(mem, Align4(addr), c[4]);
      addr := Add(addr, 4);
      mem := Write32(mem, Align4(addr), c[5]);
      addr := Add(addr, 4);
      mem := Write32(mem, Align4(addr), c[14]);
      c[13] := Sub(base, 12);
      ticks := ticks + 7;
    }

    /** adds rd, rs, #0. */
    method Move(rd: nat, rs: nat)
      requires Valid() && rd < 16 && rs < 16
      modifies this`ticks, c
      ensures c[rd] == old(c[rs]) && ticks == old(ticks) + 1
      ensures forall i | 0 <= i < 16 && i != rd :: c[i] == old(c[i])
    {
      hide Sum64, Lo32, AddsFlags;
      PlusZero(c[rs]);
      var r := OpAdds(c[rs], 0, 0);
      c[rd] := r;
      ticks := ticks + 1;
    }

    /** adds rd, rd, #1. */
    method Increment(rd: nat)
      requires Valid() && rd < 16
      modifies this`ticks, c
      ensures c[rd] == Add(old(c[rd]), 1) && ticks == old(ticks) + 1
      ensures forall i | 0 <= i < 16 && i != rd :: c[i] == old(c[i])
    {
      hide Sum64, Lo32, AddsFlags, Add;
      LowSum0(c[rd], 1);
      var r := OpAdds(c[rd], 1, 0);
      c[rd] := r;
      ticks := ticks + 1;
    }

    /** subs rd, rs, rt, by adding the complement. */
    method Subtract(rd: nat, a: Word, b: Word)
      requires Valid() && rd < 16
      modifies this`ticks, c
      ensures c[rd] == Sub(a, b) && ticks == old(ticks) + 1
      ensures forall i | 0 <= i < 16 && i != rd :: c[i] == old(c[i])
    {
      hide Sum64, Lo32, AddsFlags, Not, Sub;
      LowBorrow(a, b);
      var r := OpAdds(a, Not(b), 1);
      c[rd] := r;
      ticks := ticks + 1;
    }

    /** cmp a, b, and the Z flag the branch after it tests. */
    method Compare(a: Word, b: Word) returns (equal: bool)
      requires Valid()
      modifies this`ticks, c
      ensures ticks == old(ticks) + 1 && equal == (a == b)
      ensures forall i | 0 <= i < 16 :: c[i] == old(c[i])
    {
      hide Sum64, Lo32, AddsFlags, Not, ZBit;
      CompareSets(c[16], a, b);
      var _ := OpAdds(a, Not(b), 1);
      ticks := ticks + 1;
      equal := ZBit(c[16]);
    }

    /** A logical result into rd, N and Z from it. */
    method Logical(rd: nat, r: Word)
      requires Valid() && rd < 16
      modifies this`ticks, c
      ensures c[rd] == r && ticks == old(ticks) + 1
      ensures forall i | 0 <= i < 16 && i != rd :: c[i] == old(c[i])
    {
      hide FlagsNZ;
      c[rd] := r;
      FNz(r);
      ticks := ticks + 1;
    }

    /** The control halfword: read, mask, set its low bits, write back. */
    method Control()
      requires Valid()
      modifies this`mem, this`ticks, c
      ensures mem == Controlled(old(mem)) && ticks == old(ticks) + 19
      ensures forall i | 3 <= i < 16 :: c[i] == old(c[i])
    {
      hide Align4, Read32, Read16, Write16, And, Or, FromHalf, Low16;
      PoolAligned();
      c[2] := Read32(mem, Align4(0x0203_8d80));
      ticks := ticks + 4;
      c[0] := FromHalf(Read16(mem, And(c[2], 0xFFFF_FFFE)));
      ticks := ticks + 4;
      c[1] := Read32(mem, Align4(0x0203_8d84));
      ticks := ticks + 4;
      Logical(0, And(c[0], c[1]));
      Logical(1, 3);
      Logical(0, Or(c[0], c[1]));
      mem := Write16(mem, c[2], Low16(c[0]));
      ticks := ticks + 4;
    }

    /** The first block up to the control halfword: arguments out of the way, R4, R5 and LR pushed. */
    method Prepare()
      requires Valid()
      modifies this, c
      ensures mem == Controlled(Pushed(old(mem), old(c[13]), old(c[4]), old(c[5]), old(c[14])))
      ensures c[5] == old(c[0]) && c[4] == old(c[1]) && c[3] == old(c[2]) && c[13] == Sub(old(c[13]), 12)
      ensures ticks == old(ticks) + 29
      ensures forall i | 6 <= i < 16 && i != 13 :: c[i] == old(c[i])
    {
      hide Sub, Controlled, Pushed;
      Push();
      Move(5, 0);
      Move(4, 1);
      Move(3, 2);
      Control();
    }

    /** b_02038d48: push, prepare the counters, touch the control halfword; return at once if there is nothing to
        copy, else go on to the loop block. */
    method Setup() returns (next: Word)
      requires Valid()
      modifies this, c
      ensures var sp := Sub(old(c[13]), 12);
              var saved := Saved(mem, sp);
              && mem == Controlled(Pushed(old(mem), old(c[13]), old(c[4]), old(c[5]), old(c[14])))
              && if old(c[2]) == 0 then
                   && next == EvenPc(saved.2) && c[15] == next && c[4] == saved.0 && c[5] == saved.1
                   && c[13] == Add(Add(sp, 8), 4) && ticks == old(ticks) + 41
                 else
                   && next == LOOP_BLOCK && c[15] == next && c[5] == old(c[0]) && c[4] == old(c[1])
                   && c[3] == Sub(old(c[2]), 1)
                   && c[1] == 0xFFFF_FFFF && c[13] == sp && ticks == old(ticks) + 34
      ensures forall i | 6 <= i < 15 && i != 13 :: c[i] == old(c[i])
    {
      hide Add, Sub, Saved, Controlled, Pushed, EvenPc;
      NegativeOne();
      SameMinusOne(c[2]);
      Prepare();
      Subtract(3, c[3], 1);
      Logical(0, 1);
      Subtract(0, 0, c[0]);
      var equal := Compare(c[3], c[0]);
      if equal {
        next := Epilogue();
      } else {
        Move(1, 0);
        c[15] := 0x0203_8d6a;
        next := 0x0203_8d6a;
      }
    }

    /** One turn of the loop: a byte across, both pointers up, the counter down. */
    method CopyByte() returns (again: bool)
      requires Valid()
      modifies this, c
      ensures mem == Write8(old(mem), old(c[4]), Read8(old(mem), old(c[5])))
      ensures c[5] == Add(old(c[5]), 1) && c[4] == Add(old(c[4]), 1) && c[3] == Sub(old(c[3]), 1)
      ensures ticks == old(ticks) + 12 && again == (c[3] != c[1])
      ensures forall i | 0 <= i < 16 && i !in {0, 3, 4, 5} :: c[i] == old(c[i])
    {
      hide Add, Sub, Read8, Write8, Low8, FromByte;
      ByteThrough(Read8(mem, c[5]));
      c[0] := FromByte(Read8(mem, c[5]));
      ticks := ticks + 4;
      mem := Write8(mem, c[4], Low8(c[0]));
      ticks := ticks + 4;
      Increment(5);
      Increment(4);
      Subtract(3, c[3], 1);
      var equal := Compare(c[3], c[1]);
      again := !equal;
    }

    /** b_02038d6a: copy until the counter has passed zero, then return. */
    method CopyLoop() returns (next: Word)
      requires Valid() && c[1] == 0xFFFF_FFFF
      modifies this, c
      ensures var n := Nat32(old(c[3])) + 1;
              var saved := Saved(mem, old(c[13]));
              && mem == ForwardCopy(old(mem), old(c[5]), old(c[4]), n)
              && ticks == old(ticks) + 12 * n + 8
              && next == EvenPc(saved.2) && c[15] == next && c[4] == saved.0 && c[5] == saved.1
              && c[13] == Add(Add(old(c[13]), 8), 4)
      ensures forall i | 6 <= i < 15 && i != 13 :: c[i] == old(c[i])
    {
      hide Add, Sub, Read8, Write8, Saved, EvenPc, Nat32;
      ghost var n := Nat32(c[3]) + 1;
      ghost var k := 0;
      var again := true;
      while again
        invariant k <= n && c[1] == 0xFFFF_FFFF && c[13] == old(c[13])
        invariant again ==> k + Nat32(c[3]) + 1 == n
        invariant !again ==> k == n
        invariant c[5] == Advance(old(c[5]), k) && c[4] == Advance(old(c[4]), k)
        invariant mem == ForwardCopy(old(mem), old(c[5]), old(c[4]), k) && ticks == old(ticks) + 12 * k
        invariant forall i | 6 <= i < 15 :: c[i] == old(c[i])
        decreases n - k + if again then 1 else 0
      {
        ghost var counter := c[3];
        CounterStep(counter);
        again := CopyByte();
        k := k + 1;
      }
      next := Epilogue();
    }

    /** The whole routine: memcpy(R1, R0, R2) as the guest calls it. Its exact effect, whatever the arguments; and, for a
        caller whose stack is aligned and whose buffers keep clear of the frame and of the control halfword, R4, R5 and
        SP back, a return to LR, and the bytes copied. */
    method Memcpy() returns (next: Word)
      requires Valid()
      modifies this, c
      ensures var sp := Sub(old(c[13]), 12);
              var n := Nat32(old(c[2]));
              var saved := Saved(mem, sp);
              && mem == ForwardCopy(Controlled(Pushed(old(mem), old(c[13]), old(c[4]), old(c[5]), old(c[14]))),
                                    old(c[0]), old(c[1]), n)
              && ticks == old(ticks) + (if n == 0 then 41 else 42 + 12 * n)
              && next == EvenPc(saved.2) && c[15] == next && c[4] == saved.0 && c[5] == saved.1
              && c[13] == old(c[13])
      ensures forall i | 6 <= i < 15 :: c[i] == old(c[i])
      ensures CallerSafe(old(mem), old(c[..]), Nat32(old(c[2]))) ==>
                c[4] == old(c[4]) && c[5] == old(c[5]) && next == EvenPc(old(c[14]))
                && CallerSees(old(mem), mem, old(c[..]), Nat32(old(c[2])))
    {
      hide Add, Sub, Saved, EvenPc, Nat32, Pushed, Controlled, ForwardCopy, CallerSafe, CallerSees;
      NoCopy(c[2], mem, c[0], c[1]);
      StackBack(c[13]);
      var copying := c[2] != 0;
      ghost var n := c[2];
      next := Setup();
      NoCopy(n, mem, old(c[0]), old(c[1]));
      if copying {
        CountDown(n);
        next := CopyLoop();
      }
      NatBound(n);
      if CallerSafe(old(mem), old(c[..]), Nat32(n)) { CallerServed(old(mem), old(c[..]), Nat32(n)); }
    }
  }

  lemma ByteThrough(b: bv8)
    ensures Low8(FromByte(b)) == b
  {}

  lemma CounterStep(w: Word)
    ensures Sub(w, 1) == 0xFFFF_FFFF <==> w == 0
    ensures w != 0 ==> Nat32(Sub(w, 1)) == Nat32(w) - 1
    ensures Nat32(0) == 0
  {
    hide Sub, Nat32;
    SameMinusOne(w);
    CountZero();
    if w != 0 { CountDown(w); }
  }

  lemma NoCopy(n: Word, m: Mem, src: Word, dst: Word)
    ensures Nat32(n) == 0 <==> n == 0
    ensures ForwardCopy(m, src, dst, 0) == m
  {
    hide Nat32;
    CountZero();
    CountNonZero(n);
  }

  /** Twelve down, eight and four up. */
  lemma StackBack(sp: Word)
    ensures Add(Add(Sub(sp, 12), 8), 4) == sp
  {
    assert Add(8, 4) == 12;
    hide Add, Sub;
    AddAssoc(Sub(sp, 12), 8, 4);
    SubThenAdd(sp, 12);
  }

  // ----- What that means for the caller -----------------------------------------------------------------

  /** The copy never writes at b. */
  predicate Spared(dst: Word, n: nat, b: Word) {
    forall i | 0 <= i < n :: Advance(dst, i) != b
  }

  lemma {:induction false} CopySpares(m: Mem, src: Word, dst: Word, n: nat, b: Word)
    requires Spared(dst, n, b)
    ensures Read8(ForwardCopy(m, src, dst, n), b) == Read8(m, b)
  {
    if n > 0 { CopySpares(m, src, dst, n - 1, b); }
  }

  /** The bytes of the frame, and of the control halfword. */
  predicate InFrame(sp: Word, b: Word) {
    var a := Sub(sp, 12);
    !Outside(a, b) || !Outside(Add(a, 4), b) || !Outside(Add(a, 8), b)
  }

  /** All four bytes of the word at w. */
  predicate WordInFrame(sp: Word, w: Word) {
    InFrame(sp, w) && InFrame(sp, w + 1) && InFrame(sp, w + 2) && InFrame(sp, w + 3)
  }

  predicate InControl(ctl: Word, b: Word) {
    b == ctl || b == ctl + 1
  }

  /** Neither the control halfword nor the copy touches the saved frame. */
  ghost predicate FrameSafe(sp: Word, ctl: Word, dst: Word, n: nat) {
    forall b: Word | InFrame(sp, b) :: !InControl(ctl, b) && Spared(dst, n, b)
  }

  lemma ControlSpares(m: Mem, b: Word)
    requires !InControl(ControlAddress(m), b)
    ensures Read8(Controlled(m), b) == Read8(m, b)
  {
    hide ControlAddress, ControlValue, Low16;
  }

  /** The words of an aligned frame. */
  lemma FrameWords(sp: Word)
    requires Align4(sp) == sp
    ensures var a := Sub(sp, 12);
            Align4(a) == a && Align4(Add(a, 4)) == Add(a, 4) && Align4(Add(a, 8)) == Add(a, 8)
            && Add(Add(a, 4), 4) == Add(a, 8) && a != Add(a, 4) && a != Add(a, 8) && Add(a, 4) != Add(a, 8)
  {
    AlignedDown(sp);
    AlignedUp(Sub(sp, 12));
    hide Sub, Align4;
    WordsApart(Sub(sp, 12));
  }

  lemma AlignedDown(sp: Word)
    requires Align4(sp) == sp
    ensures Align4(Sub(sp, 12)) == Sub(sp, 12)
  {}

  lemma AlignedUp(a: Word)
    requires Align4(a) == a
    ensures Align4(Add(a, 4)) == Add(a, 4) && Align4(Add(a, 8)) == Add(a, 8)
  {}

  lemma WordsApart(a: Word)
    ensures Add(Add(a, 4), 4) == Add(a, 8) && a != Add(a, 4) && a != Add(a, 8) && Add(a, 4) != Add(a, 8)
  {}

  lemma FrameHolds(m: Mem, sp: Word, r4: Word, r5: Word, lr: Word)
    requires Align4(sp) == sp
    ensures Saved(Pushed(m, sp, r4, r5, lr), Sub(sp, 12)) == (r4, r5, lr)
  {
    hide Read32, Write32, Align4, Add, Sub;
    FrameWords(sp);
    var a, b, c := Sub(sp, 12), Add(Sub(sp, 12), 4), Add(Sub(sp, 12), 8);
    var m1 := Write32(m, a, r4);
    var m2 := Write32(m1, b, r5);
    Words.ReadBack32(m, a, r4);
    ReadOther32(m1, b, a, r5);
    Words.ReadBack32(m1, b, r5);
    ReadOther32(m2, c, a, lr);
    ReadOther32(m2, c, b, lr);
    Words.ReadBack32(m2, c, lr);
  }

  lemma WordSpared(m: Mem, sp: Word, src: Word, dst: Word, n: nat, w: Word)
    requires FrameSafe(sp, ControlAddress(m), dst, n)
    requires WordInFrame(sp, w)
    ensures Read32(ForwardCopy(Controlled(m), src, dst, n), w) == Read32(m, w)
  {
    hide Read32, Read8, InFrame, ForwardCopy, Controlled, ControlAddress;
    var m1 := Controlled(m);
    var m2 := ForwardCopy(m1, src, dst, n);
    forall b: Word | InFrame(sp, b) ensures Read8(m2, b) == Read8(m, b) {
      ControlSpares(m, b);
      CopySpares(m1, src, dst, n, b);
    }
    Read32Ext(m2, m, w);
  }

  lemma WordsInFrame(sp: Word)
    ensures var a := Sub(sp, 12);
            WordInFrame(sp, a) && WordInFrame(sp, Add(a, 4)) && WordInFrame(sp, Add(a, 8))
  {
    hide Add, Sub;
  }

  /** With an aligned stack and nothing written over the frame, R4, R5 and the return address come back, whatever
      the count: memcpy returns to its caller with its callee-saved registers intact. */
  lemma CallerRestored(m: Mem, sp: Word, r4: Word, r5: Word, lr: Word, src: Word, dst: Word, n: nat)
    requires Align4(sp) == sp
    requires FrameSafe(sp, ControlAddress(Pushed(m, sp, r4, r5, lr)), dst, n)
    ensures Saved(ForwardCopy(Controlled(Pushed(m, sp, r4, r5, lr)), src, dst, n), Sub(sp, 12)) == (r4, r5, lr)
  {
    hide Read32, Write32, Align4, WordInFrame, FrameSafe, ForwardCopy, Controlled, ControlAddress, Pushed, Add, Sub;
    var p := Pushed(m, sp, r4, r5, lr);
    var a := Sub(sp, 12);
    FrameWords(sp);
    WordsInFrame(sp);
    FrameHolds(m, sp, r4, r5, lr);
    WordSpared(p, sp, src, dst, n, a);
    WordSpared(p, sp, src, dst, n, Add(a, 4));
    WordSpared(p, sp, src, dst, n, Add(a, 8));
  }

  // ----- The copy itself -------------------------------------------------------------------------------------

  lemma ModUp(n: nat)
    ensures (n + 1) % 0x1_0000_0000 == if n % 0x1_0000_0000 == 0xFFFF_FFFF then 0 else n % 0x1_0000_0000 + 1
  {}

  lemma {:induction false} AdvanceCounts(a: Word, k: nat)
    ensures Nat32(Advance(a, k)) == (Nat32(a) + k) % 0x1_0000_0000
  {
    hide Add, Nat32;
    NatBound(a);
    if k > 0 {
      AdvanceCounts(a, k - 1);
      CountUp(Advance(a, k - 1));
      ModUp(Nat32(a) + k - 1);
    }
  }

  /** Addresses fewer than 2^32 apart differ. */
  lemma AdvanceApart(a: Word, i: nat, j: nat)
    requires i < j < 0x1_0000_0000
    ensures Advance(a, i) != Advance(a, j)
  {
    hide Nat32, Advance;
    AdvanceCounts(a, i);
    AdvanceCounts(a, j);
    ModApart(Nat32(a), i, j);
  }

  lemma ModApart(x: nat, i: nat, j: nat)
    requires i < j < 0x1_0000_0000
    ensures (x + i) % 0x1_0000_0000 != (x + j) % 0x1_0000_0000
  {}

  /** The source is read before the copy reaches it. */
  predicate SourceAhead(src: Word, dst: Word, n: nat) {
    forall i, j | 0 <= i < j < n :: Advance(dst, i) != Advance(src, j)
  }

  lemma {:induction false} SourceKept(m: Mem, src: Word, dst: Word, k: nat, j: nat)
    requires k <= j && forall i | 0 <= i < k :: Advance(dst, i) != Advance(src, j)
    ensures Read8(ForwardCopy(m, src, dst, k), Advance(src, j)) == Read8(m, Advance(src, j))
  {
    CopySpares(m, src, dst, k, Advance(src, j));
  }

  /** For any count below 2^32, unless a destination byte lies ahead in the source, each byte of the source arrives,
      and no other byte of memory changes. */
  lemma {:induction false} CopyMoves(m: Mem, src: Word, dst: Word, n: nat, b: Word)
    requires n <= 0x1_0000_0000 && SourceAhead(src, dst, n)
    ensures var t := ForwardCopy(m, src, dst, n);
            (forall i | 0 <= i < n :: Read8(t, Advance(dst, i)) == Read8(m, Advance(src, i)))
            && (Spared(dst, n, b) ==> Read8(t, b) == Read8(m, b))
  {
    hide Advance;
    var t := ForwardCopy(m, src, dst, n);
    if n > 0 {
      var before := ForwardCopy(m, src, dst, n - 1);
      CopyMoves(m, src, dst, n - 1, b);
      SourceKept(m, src, dst, n - 1, n - 1);
      forall i | 0 <= i < n ensures Read8(t, Advance(dst, i)) == Read8(m, Advance(src, i)) {
        if i < n - 1 { AdvanceApart(dst, i, n - 1); }
      }
    }
    if Spared(dst, n, b) { CopySpares(m, src, dst, n, b); }
  }

  /** Outside the frame and the control halfword the routine is exactly the forward copy of the caller's memory, if
      the source lies outside them too. */
  lemma {:induction false} CopyAgrees(m: Mem, m': Mem, src: Word, dst: Word, k: nat, hidden: Word -> bool, b: Word)
    requires forall a: Word | !hidden(a) :: Read8(m, a) == Read8(m', a)
    requires (forall i | 0 <= i < k :: !hidden(Advance(src, i))) && !hidden(b)
    ensures Read8(ForwardCopy(m, src, dst, k), b) == Read8(ForwardCopy(m', src, dst, k), b)
  {
    hide Advance;
    if k > 0 {
      CopyAgrees(m, m', src, dst, k - 1, hidden, b);
      CopyAgrees(m, m', src, dst, k - 1, hidden, Advance(src, k - 1));
    }
  }

  lemma ExactCopy(m: Mem, sp: Word, r4: Word, r5: Word, lr: Word, src: Word, dst: Word, n: nat, b: Word)
    requires Align4(sp) == sp
    requires var ctl := ControlAddress(Pushed(m, sp, r4, r5, lr));
             (forall i | 0 <= i < n :: !InFrame(sp, Advance(src, i)) && !InControl(ctl, Advance(src, i)))
             && !InFrame(sp, b) && !InControl(ctl, b)
    ensures Read8(ForwardCopy(Controlled(Pushed(m, sp, r4, r5, lr)), src, dst, n), b) == Read8(ForwardCopy(m, src, dst, n), b)
  {
    hide Read8, InFrame, InControl, ForwardCopy, Controlled, ControlAddress, Pushed, Align4, Advance;
    var p := Pushed(m, sp, r4, r5, lr);
    var ctl := ControlAddress(p);
    forall a: Word | !(InFrame(sp, a) || InControl(ctl, a)) ensures Read8(Controlled(p), a) == Read8(m, a) {
      ControlSpares(p, a);
      PushSpares(m, sp, r4, r5, lr, a);
    }
    CopyAgrees(Controlled(p), m, src, dst, n, a => InFrame(sp, a) || InControl(ctl, a), b);
  }

  // ----- The contract with the caller ------------------------------------------------------------------------

  /** Memory once the frame is pushed, from the registers at the call. */
  function Called(m: Mem, c: seq<Word>): Mem
    requires |c| == 17
  {
    Pushed(m, c[13], c[4], c[5], c[14])
  }

  /** The routine's own bytes: its frame and the control halfword. */
  predicate Private(m: Mem, c: seq<Word>, b: Word)
    requires |c| == 17
  {
    InFrame(c[13], b) || InControl(ControlAddress(Called(m, c)), b)
  }

  /** An aligned stack, a control halfword outside the frame, and both buffers clear of the two. */
  ghost predicate CallerSafe(m: Mem, c: seq<Word>, n: nat)
    requires |c| == 17
  {
    && Align4(c[13]) == c[13]
    && (forall b: Word | InFrame(c[13], b) :: !InControl(ControlAddress(Called(m, c)), b))
    && (forall i | 0 <= i < n :: !Private(m, c, Advance(c[0], i)) && !Private(m, c, Advance(c[1], i)))
  }

  /** Outside the routine's own bytes memory is the forward copy of what it was; and unless the destination runs
      ahead into the source, each source byte has arrived and everything else is unchanged. */
  ghost predicate CallerSees(m: Mem, t: Mem, c: seq<Word>, n: nat)
    requires |c| == 17
  {
    && (forall b: Word | !Private(m, c, b) :: Read8(t, b) == Read8(ForwardCopy(m, c[0], c[1], n), b))
    && (SourceAhead(c[0], c[1], n) ==>
          && (forall i | 0 <= i < n :: Read8(t, Advance(c[1], i)) == Read8(m, Advance(c[0], i)))
          && (forall b: Word | !Private(m, c, b) && Spared(c[1], n, b) :: Read8(t, b) == Read8(m, b)))
  }

  lemma CallerFrame(m: Mem, c: seq<Word>, n: nat)
    requires |c| == 17 && CallerSafe(m, c, n)
    ensures FrameSafe(c[13], ControlAddress(Called(m, c)), c[1], n)
  {
    hide InFrame, InControl, ControlAddress, Called, Advance, Align4;
  }

  /** What a caller within those limits gets, for every count below 2^32. */
  lemma CallerServed(m: Mem, c: seq<Word>, n: nat)
    requires |c| == 17 && n <= 0x1_0000_0000 && CallerSafe(m, c, n)
    ensures var t := ForwardCopy(Controlled(Called(m, c)), c[0], c[1], n);
            CallerSees(m, t, c, n) && Saved(t, Sub(c[13], 12)) == (c[4], c[5], c[14])
  {
    hide Read8, InFrame, InControl, ForwardCopy, Controlled, ControlAddress, Pushed, Align4, Advance, Saved, Sub;
    var t := ForwardCopy(Controlled(Called(m, c)), c[0], c[1], n);
    CallerFrame(m, c, n);
    CallerRestored(m, c[13], c[4], c[5], c[14], c[0], c[1], n);
    forall b: Word | !Private(m, c, b) ensures Read8(t, b) == Read8(ForwardCopy(m, c[0], c[1], n), b) {
      ExactCopy(m, c[13], c[4], c[5], c[14], c[0], c[1], n, b);
    }
    if SourceAhead(c[0], c[1], n) {
      CopyMoves(m, c[0], c[1], n, 0);
      forall b: Word | !Private(m, c, b) && Spared(c[1], n, b) ensures Read8(t, b) == Read8(m, b) {
        CopyMoves(m, c[0], c[1], n, b);
      }
    }
  }

  lemma PushSpares(m: Mem, sp: Word, r4: Word, r5: Word, lr: Word, b: Word)
    requires Align4(sp) == sp && !InFrame(sp, b)
    ensures Read8(Pushed(m, sp, r4, r5, lr), b) == Read8(m, b)
  {
    hide Read8, Write32, Align4, Add, Sub;
    FrameWords(sp);
    var a, b1, c := Sub(sp, 12), Add(Sub(sp, 12), 4), Add(Sub(sp, 12), 8);
    var m1 := Write32(m, a, r4);
    var m2 := Write32(m1, b1, r5);
    ReadOutside(m, a, r4, b);
    ReadOutside(m1, b1, r5, b);
    ReadOutside(m2, c, lr, b);
  }
}
