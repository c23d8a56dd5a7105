// What the named word operators mean as whole numbers: wrapping and signed arithmetic, comparison, and the
// 64-bit products of the long multiplies.
module Numbers {
  import opened Words
  import opened Ir
  import opened Cpu
  import opened Reference
  import opened Flags
  import opened ByteNumbers
  import opened ByteStreams

  const M32: nat := 0x1_0000_0000
  const M64: nat := 0x1_0000_0000_0000_0000

  /** The number a 64-bit value stands for, and the two's-complement reading of a word. */
  function Nat64(u: bv64): nat {
    Nat32(LowHalf(u)) + M32 * Nat32(HighHalf(u))
  }

  function Signed(w: Word): int {
    if Nat32(w) < 0x8000_0000 then Nat32(w) else Nat32(w) - M32
  }

  // ----- Counting a word up and down --------------------------------------------------------------

  lemma Borrow0(w: Word)
    requires Byte(w, 0) != 0
    ensures var v := Sub(w, 1);
            Byte(v, 0) == Byte(w, 0) - 1 && Byte(v, 1) == Byte(w, 1) && Byte(v, 2) == Byte(w, 2) && Byte(v, 3) == Byte(w, 3)
  {
    LowValueDown(w);
    UpperSame1(w);
    UpperSame2(w);
    UpperSame3(w);
    hide Byte, Sub;
  }

  lemma LowValueDown(w: Word)
    requires Byte(w, 0) != 0
    ensures Byte(Sub(w, 1), 0) == Byte(w, 0) - 1
  {}

  lemma UpperSame1(w: Word)
    requires Byte(w, 0) != 0
    ensures Byte(Sub(w, 1), 1) == Byte(w, 1)
  {}

  lemma UpperSame2(w: Word)
    requires Byte(w, 0) != 0
    ensures Byte(Sub(w, 1), 2) == Byte(w, 2)
  {}

  lemma UpperSame3(w: Word)
    requires Byte(w, 0) != 0
    ensures Byte(Sub(w, 1), 3) == Byte(w, 3)
  {}

  lemma Borrow1(w: Word)
    requires Byte(w, 0) == 0 && Byte(w, 1) != 0
    ensures var v := Sub(w, 1);
            Byte(v, 0) == 0xFF && Byte(v, 1) == Byte(w, 1) - 1 && Byte(v, 2) == Byte(w, 2) && Byte(v, 3) == Byte(w, 3)
  {}

  lemma Borrow2(w: Word)
    requires Byte(w, 0) == 0 && Byte(w, 1) == 0 && Byte(w, 2) != 0
    ensures var v := Sub(w, 1);
            Byte(v, 0) == 0xFF && Byte(v, 1) == 0xFF && Byte(v, 2) == Byte(w, 2) - 1 && Byte(v, 3) == Byte(w, 3)
  {}

  lemma Borrow3(w: Word)
    requires Byte(w, 0) == 0 && Byte(w, 1) == 0 && Byte(w, 2) == 0 && w != 0
    ensures var v := Sub(w, 1);
            Byte(v, 0) == 0xFF && Byte(v, 1) == 0xFF && Byte(v, 2) == 0xFF && Byte(v, 3) == Byte(w, 3) - 1 && Byte(w, 3) != 0
  {}

  /** Counting down by one. */
  lemma CountDown(w: Word)
    requires w != 0
    ensures Nat32(Sub(w, 1)) == Nat32(w) - 1
  {
    hide Byte, Sub, Value;
    Extremes();
    if Byte(w, 0) != 0 {
      Borrow0(w);
      ValueDown(Byte(w, 0));
    } else if Byte(w, 1) != 0 {
      Borrow1(w);
      ValueDown(Byte(w, 1));
    } else if Byte(w, 2) != 0 {
      Borrow2(w);
      ValueDown(Byte(w, 2));
    } else {
      Borrow3(w);
      ValueDown(Byte(w, 3));
    }
  }

  lemma CountZero()
    ensures Nat32(0) == 0
  {
    hide Byte, Value;
    TopBytes();
    Extremes();
  }

  lemma {:induction false} CountNonZero(w: Word)
    ensures Nat32(w) == 0 ==> w == 0
  {
    hide Sub;
    if w != 0 { CountDown(w); }
  }

  lemma NegativeOne()
    ensures Sub(0, 1) == 0xFFFF_FFFF
  {}

  lemma CountUp(w: Word)
    ensures Nat32(Add(w, 1)) == if Nat32(w) == 0xFFFF_FFFF then 0 else Nat32(w) + 1
  {
    hide Add, Sub, Nat32;
    CountZero();
    TopCount();
    AddThenSub(w, 1);
    NegativeOne();
    NatBound(w);
    NatBound(Add(w, 1));
    if Add(w, 1) == 0 { assert w == 0xFFFF_FFFF; } else { CountDown(Add(w, 1)); }
  }

  lemma TopCount()
    ensures Nat32(0xFFFF_FFFF) == 0xFFFF_FFFF
  {
    hide Byte, Value;
    TopBytes();
    Extremes();
  }

  lemma TopBytes()
    ensures forall i: nat {:trigger Byte(0xFFFF_FFFF, i)} | i < 4 :: Byte(0xFFFF_FFFF, i) == 0xFF
    ensures forall i: nat {:trigger Byte(0, i)} | i < 4 :: Byte(0, i) == 0
  {}

  // ----- Modular arithmetic -------------------------------------------------------------------------

  lemma ModAdd(x: int, y: int, m: nat)
    requires m > 0
    ensures (x % m + y) % m == (x + y) % m
  {
    var q := x / m;
    assert x == q * m + x % m;
    ModShift(x % m + y, q, m);
  }

  lemma ModShift(x: int, k: int, m: nat)
    requires m > 0
    ensures (x + k * m) % m == x % m
  {
    var q, r := x / m, x % m;
    assert x == q * m + r;
    assert x + k * m == (q + k) * m + r by { Spread(q, k, m); }
    Remainder(x + k * m, q + k, r, m);
  }

  lemma Spread(q: int, k: int, m: int)
    ensures (q + k) * m == q * m + k * m
  {}

  lemma Remainder(n: int, q: int, r: int, m: nat)
    requires n == q * m + r && 0 <= r < m
    ensures n % m == r
  {
    var d := n / m - q;
    assert n == (n / m) * m + n % m;
    Spread(q, d, m);
    assert d * m + n % m == r;
    if d > 0 {
      AtLeastOne(d, m);
    } else if d < 0 {
      AtLeastOne(-d, m);
      Opposite(d, m);
    }
  }

  lemma Opposite(d: int, m: int)
    ensures -d * m == -(d * m)
  {}

  lemma AtLeastOne(d: int, m: nat)
    requires d > 0
    ensures d * m >= m
  {}

  // ----- 32-bit operators ---------------------------------------------------------------------------

  lemma {:induction false} AddIs(a: Word, b: Word)
    ensures Nat32(Add(a, b)) == (Nat32(a) + Nat32(b)) % M32
    decreases Nat32(b)
  {
    hide Add, Sub, Nat32;
    NatBound(a);
    CountZero();
    if b == 0 {
      AddZero(a);
    } else {
      CountDown(b);
      AddIs(a, Sub(b, 1));
      SubThenAdd(b, 1);
      AddAssoc(a, Sub(b, 1), 1);
      CountUp(Add(a, Sub(b, 1)));
      Wraps(Nat32(a) + Nat32(b) - 1);
    }
  }

  lemma Wraps(n: nat)
    ensures (n + 1) % M32 == if n % M32 == 0xFFFF_FFFF then 0 else n % M32 + 1
  {}

  lemma SubIs(a: Word, b: Word)
    ensures Nat32(Sub(a, b)) == (Nat32(a) - Nat32(b)) % M32
  {
    hide Add, Sub, Nat32;
    SubThenAdd(a, b);
    AddIs(Sub(a, b), b);
    NatBound(a);
    NatBound(b);
    NatBound(Sub(a, b));
  }

  lemma NotIs(b: Word)
    ensures Nat32(Not(b)) == 0xFFFF_FFFF - Nat32(b) && Signed(Not(b)) == -1 - Signed(b)
  {
    hide Add, Not, Nat32;
    AllOnesSum(b);
    AddIs(b, Not(b));
    TopCount();
    NatBound(b);
    NatBound(Not(b));
  }

  lemma MulRaw(a: Word, b: Word) ensures a * b == a * (b - 1) + a {}

  lemma MulDef(a: Word, b: Word)
    ensures Mul(a, b) == a * b && Mul(a, b - 1) == a * (b - 1) && Add(a * (b - 1), a) == a * (b - 1) + a
  {}

  lemma MulStep(a: Word, b: Word)
    ensures Mul(a, b) == Add(Mul(a, Sub(b, 1)), a)
  {
    hide Mul, Add, Sub;
    SubDef(b, 1);
    MulDef(a, b);
    MulRaw(a, b);
  }

  lemma MulZero(a: Word) ensures Mul(a, 0) == 0 {}

  lemma ProductStep(a: nat, b: nat, p: nat, q: nat, m: nat)
    requires b > 0 && m > 0 && p == a * (b - 1) % m && q == (p + a) % m
    ensures q == a * b % m
  {
    assert a * (b - 1) + a == a * b;
    ModAdd(a * (b - 1), a, m);
  }

  lemma {:induction false} MulIs(a: Word, b: Word)
    ensures Nat32(Mul(a, b)) == Nat32(a) * Nat32(b) % M32
    decreases Nat32(b)
  {
    hide Mul, Add, Sub, Nat32;
    CountZero();
    if b == 0 {
      MulZero(a);
    } else {
      CountDown(b);
      MulIs(a, Sub(b, 1));
      MulStep(a, b);
      AddIs(Mul(a, Sub(b, 1)), a);
      ProductStep(Nat32(a), Nat32(b), Nat32(Mul(a, Sub(b, 1))), Nat32(Mul(a, b)), M32);
    }
  }

  // ----- Comparison and sign ------------------------------------------------------------------------

  lemma TopBit(w: Word) ensures SignBit(w) <==> Has(Byte(w, 3), 128) {}

  lemma HighByte(b: bv8)
    ensures Has(b, 128) <==> Value(b) >= 128
  {
    hide Has;
  }

  lemma SignIs(w: Word)
    ensures SignBit(w) <==> Nat32(w) >= 0x8000_0000
    ensures SignBit(w) <==> Signed(w) < 0
  {
    hide Byte, Value, Has, SignBit;
    TopBit(w);
    HighByte(Byte(w, 3));
    ValueBound(Byte(w, 0));
    ValueBound(Byte(w, 1));
    ValueBound(Byte(w, 2));
    ValueBound(Byte(w, 3));
  }

  // ----- 64-bit operators ---------------------------------------------------------------------------

  function Prev64(u: bv64): bv64 { u - 1 }
  function Next64(u: bv64): bv64 { u + 1 }

  lemma HalvesDown(u: bv64)
    ensures LowHalf(Prev64(u)) == Sub(LowHalf(u), 1)
    ensures HighHalf(Prev64(u)) == if LowHalf(u) == 0 then Sub(HighHalf(u), 1) else HighHalf(u)
  {}

  lemma BothZero(u: bv64)
    ensures u == 0 <==> LowHalf(u) == 0 && HighHalf(u) == 0
  {}

  lemma CountDown64(u: bv64)
    requires u != 0
    ensures Nat64(Prev64(u)) == Nat64(u) - 1
  {
    hide Sub, Nat32, LowHalf, HighHalf, Prev64;
    HalvesDown(u);
    BothZero(u);
    CountZero();
    if LowHalf(u) == 0 {
      NegativeOne();
      TopCount();
      CountDown(HighHalf(u));
    } else {
      CountDown(LowHalf(u));
    }
  }

  lemma Bound64(u: bv64)
    ensures Nat64(u) < M64
  {
    hide Nat32, LowHalf, HighHalf;
    NatBound(LowHalf(u));
    NatBound(HighHalf(u));
  }

  lemma Zero64()
    ensures Nat64(0) == 0
  {
    hide Nat32;
    CountZero();
  }

  lemma Top64()
    ensures Nat64(0xFFFF_FFFF_FFFF_FFFF) == M64 - 1
  {
    hide Nat32;
    TopCount();
  }

  lemma NextPrev(u: bv64)
    ensures Prev64(Next64(u)) == u && Next64(Prev64(u)) == u
    ensures Next64(u) == 0 <==> u == 0xFFFF_FFFF_FFFF_FFFF
  {}

  lemma CountUp64(u: bv64)
    ensures Nat64(Next64(u)) == (Nat64(u) + 1) % M64
  {
    hide Nat64, Prev64, Next64;
    NextPrev(u);
    Zero64();
    Top64();
    Bound64(Next64(u));
    if Next64(u) != 0 { CountDown64(Next64(u)); }
  }

  lemma AddRaw64(u: bv64, v: bv64) ensures u + v == (u + (v - 1)) + 1 {}

  lemma AddDef64(u: bv64, v: bv64)
    ensures Add64(u, v) == u + v && Add64(u, v - 1) == u + (v - 1) && Next64(u + (v - 1)) == (u + (v - 1)) + 1
    ensures Prev64(v) == v - 1 && Add64(u, 0) == u
  {}

  lemma AddStep64(u: bv64, v: bv64)
    ensures Add64(u, v) == Next64(Add64(u, Prev64(v))) && Add64(u, 0) == u
  {
    hide Add64, Next64, Prev64;
    AddDef64(u, v);
    AddRaw64(u, v);
  }

  lemma {:induction false} Add64Is(u: bv64, v: bv64)
    ensures Nat64(Add64(u, v)) == (Nat64(u) + Nat64(v)) % M64
    decreases Nat64(v)
  {
    hide Add64, Nat64, Prev64, Next64;
    AddStep64(u, v);
    Zero64();
    Bound64(u);
    if v != 0 {
      CountDown64(v);
      Add64Is(u, Prev64(v));
      CountUp64(Add64(u, Prev64(v)));
      ModAdd(Nat64(u) + Nat64(v) - 1, 1, M64);
    }
  }

  lemma MulRaw64(u: bv64, v: bv64) ensures u * v == u * (v - 1) + u {}

  lemma MulDef64(u: bv64, v: bv64)
    ensures Mul64(u, v) == u * v && Mul64(u, v - 1) == u * (v - 1) && Add64(u * (v - 1), u) == u * (v - 1) + u
    ensures Prev64(v) == v - 1
  {}

  lemma MulStep64(u: bv64, v: bv64)
    ensures Mul64(u, v) == Add64(Mul64(u, Prev64(v)), u)
  {
    hide Mul64, Add64, Prev64;
    MulDef64(u, v);
    MulRaw64(u, v);
  }

  lemma MulZero64(u: bv64) ensures Mul64(u, 0) == 0 {}

  lemma {:induction false} Mul64Is(u: bv64, v: bv64)
    ensures Nat64(Mul64(u, v)) == Nat64(u) * Nat64(v) % M64
    decreases Nat64(v)
  {
    hide Mul64, Add64, Nat64, Prev64;
    Zero64();
    if v == 0 {
      MulZero64(u);
    } else {
      CountDown64(v);
      Mul64Is(u, Prev64(v));
      MulStep64(u, v);
      Add64Is(Mul64(u, Prev64(v)), u);
      ProductStep(Nat64(u), Nat64(v), Nat64(Mul64(u, Prev64(v))), Nat64(Mul64(u, v)), M64);
    }
  }

  lemma Extended(w: Word)
    ensures LowHalf(ZExt64(w)) == w && HighHalf(ZExt64(w)) == 0
    ensures LowHalf(SExt64(w)) == w && HighHalf(SExt64(w)) == if SignBit(w) then 0xFFFF_FFFF else 0
  {}

  lemma Paired(hi: Word, lo: Word)
    ensures LowHalf(Pair64(hi, lo)) == lo && HighHalf(Pair64(hi, lo)) == hi
  {}

  lemma HalvesAre(u: bv64)
    ensures Lo32(u) == LowHalf(u) && Hi32(u) == HighHalf(u)
  {}

  /** Zero and sign extension keep the value: the number, and the two's-complement number modulo 2^64. */
  lemma ExtendIs(w: Word)
    ensures Nat64(ZExt64(w)) == Nat32(w)
    ensures Nat64(SExt64(w)) == if Signed(w) < 0 then Signed(w) + M64 else Signed(w)
  {
    hide Nat32, ZExt64, SExt64, LowHalf, HighHalf, SignBit;
    Extended(w);
    CountZero();
    TopCount();
    NatBound(w);
    SignIs(w);
  }

  lemma PairIs(hi: Word, lo: Word)
    ensures Nat64(Pair64(hi, lo)) == Nat32(lo) + M32 * Nat32(hi)
  {
    hide Nat32, Pair64, LowHalf, HighHalf;
    Paired(hi, lo);
  }

  /** The two halves of a value, its sign and whether it is zero. */
  lemma SplitIs(u: bv64)
    ensures Nat32(Lo32(u)) + M32 * Nat32(Hi32(u)) == Nat64(u)
    ensures (Bit63(u) <==> Nat64(u) >= M64 / 2) && (IsZero64(u) <==> Nat64(u) == 0)
  {
    hide Nat32, Lo32, Hi32, LowHalf, HighHalf, Bit63, SignBit;
    HalvesAre(u);
    TopBit64(u);
    SignIs(HighHalf(u));
    NatBound(LowHalf(u));
    BothZero(u);
    CountZero();
    CountNonZero(LowHalf(u));
    CountNonZero(HighHalf(u));
  }

  lemma TopBit64(u: bv64) ensures Bit63(u) <==> SignBit(HighHalf(u)) {}

  // ----- The adder ----------------------------------------------------------------------------------

  function Carry(c: bool): nat {
    if c then 1 else 0
  }

  lemma WideDef(a: Word, b: Word)
    ensures WideSum(a, b) == (a as bv64) + (b as bv64)
    ensures Add64(a as bv64, b as bv64) == (a as bv64) + (b as bv64)
    ensures ZExt64(a) == a as bv64 && ZExt64(b) == b as bv64
  {}

  lemma SumDef(a: Word, b: Word, c: Word)
    ensures Sum64(a, b, c) == WideSum(a, b) + (c as bv64)
    ensures Add64(WideSum(a, b), c as bv64) == WideSum(a, b) + (c as bv64)
    ensures ZExt64(c) == c as bv64
  {
    hide WideSum;
  }

  lemma SumShape(a: Word, b: Word, c: Word)
    ensures Sum64(a, b, c) == Add64(Add64(ZExt64(a), ZExt64(b)), ZExt64(c))
  {
    hide Sum64, WideSum, Add64, ZExt64;
    WideDef(a, b);
    SumDef(a, b, c);
  }

  lemma CarryIs(c: bool)
    ensures Nat32(C01(c)) == Carry(c)
  {
    hide Nat32, Byte, Value;
    CountZero();
    CountUp(0);
    assert Add(0, 1) == 1;
  }

  /** The 33-bit sum. */
  lemma SumIs(a: Word, b: Word, c: bool)
    ensures Nat64(Sum64(a, b, C01(c))) == Nat32(a) + Nat32(b) + Carry(c)
  {
    hide Nat32, Nat64, Sum64, Add64, ZExt64, C01;
    SumShape(a, b, C01(c));
    ExtendIs(a);
    ExtendIs(b);
    ExtendIs(C01(c));
    CarryIs(c);
    NatBound(a);
    NatBound(b);
    Add64Is(ZExt64(a), ZExt64(b));
    Add64Is(Add64(ZExt64(a), ZExt64(b)), ZExt64(C01(c)));
  }

  lemma LowestBit(u: bv64)
    requires HighHalf(u) == 0 || HighHalf(u) == 1
    ensures Bit32(u) <==> HighHalf(u) == 1
  {}

  lemma OneIs(h: Word)
    ensures Nat32(h) == 1 <==> h == 1
  {
    assert Sub(1, 1) == 0;
    hide Nat32, Sub;
    CountZero();
    if h != 0 {
      CountDown(h);
      CountNonZero(Sub(h, 1));
      SubThenAdd(h, 1);
      SubThenAdd(1, 1);
    }
    CountDown(1);
  }

  lemma Bit32Is(u: bv64)
    requires Nat64(u) < 2 * M32
    ensures Bit32(u) <==> Nat64(u) >= M32
  {
    hide Nat32, LowHalf, HighHalf, Bit32;
    NatBound(LowHalf(u));
    CountNonZero(HighHalf(u));
    CountZero();
    OneIs(HighHalf(u));
    LowestBit(u);
  }

  lemma SignedSum(a: Word, b: Word, r: Word)
    ensures AddOverflows(a, b, r) <==> SignBit(a) == SignBit(b) && SignBit(r) != SignBit(a)
  {}

  /** The adder both engines take their arithmetic from: the sum modulo 2^32, C its carry out, V exactly when the
      sum of the signed operands is out of range. */
  lemma AdderIs(a: Word, b: Word, c: bool)
    ensures var f := AddWithCarry(a, b, C01(c));
            && Nat32(f.result) == (Nat32(a) + Nat32(b) + Carry(c)) % M32
            && (f.c <==> Nat32(a) + Nat32(b) + Carry(c) >= M32)
            && (f.v <==> !(-0x8000_0000 <= Signed(a) + Signed(b) + Carry(c) < 0x8000_0000))
            && (f.n <==> Signed(f.result) < 0) && (f.z <==> Nat32(f.result) == 0)
  {
    hide Nat32, Nat64, Sum64, C01, Bit32, SignBit, AddOverflows, Lo32, Hi32;
    var u := Sum64(a, b, C01(c));
    SumIs(a, b, c);
    NatBound(a);
    NatBound(b);
    NatBound(Lo32(u));
    Bit32Is(u);
    SplitIs(u);
    NatBound(Hi32(u));
    SignIs(a);
    SignIs(b);
    SignIs(Lo32(u));
    SignedSum(a, b, Lo32(u));
    CountZero();
    CountNonZero(Lo32(u));
  }

  /** Subtraction is adding the complement: C is no borrow. */
  lemma SubtracterIs(a: Word, b: Word, c: bool)
    ensures var f := SubWithCarry(a, b, C01(c));
            var d := Nat32(a) - Nat32(b) - (1 - Carry(c));
            && Nat32(f.result) == d % M32 && (f.c <==> d >= 0)
            && (f.v <==> !(-0x8000_0000 <= Signed(a) - Signed(b) - (1 - Carry(c)) < 0x8000_0000))
            && (f.n <==> Signed(f.result) < 0) && (f.z <==> Nat32(f.result) == 0)
  {
    hide Nat32, AddWithCarry, Not, C01;
    AdderIs(a, Not(b), c);
    NotIs(b);
    NatBound(a);
    NatBound(b);
  }

  /** Unsigned comparison. */
  lemma AtLeastIs(a: Word, b: Word)
    ensures AtLeast(a, b) <==> Nat32(a) >= Nat32(b)
    ensures Below(a, b) <==> Nat32(a) < Nat32(b)
  {
    AtLeastBelow(a, b);
    hide Nat32, Nat64, Sum64, Not, AtLeast, Below, Bit32;
    SubTopBit(a, b);
    SumIs(a, Not(b), true);
    NotIs(b);
    NatBound(a);
    NatBound(b);
    Bit32Is(Sum64(a, Not(b), 1));
  }

  lemma AtLeastBelow(a: Word, b: Word) ensures AtLeast(a, b) <==> !Below(a, b) {}

  // ----- Multiplication -------------------------------------------------------------------------------

  /** MUL and MLA: product and accumulator modulo 2^32. */
  lemma MultiplyIs(cpu: CpuState, mem: Mem, ins: Instr)
    requires ins.op.MUL? || ins.op.MLA?
    ensures var acc := if ins.op.MLA? then Nat32(cpu.R[ins.rn]) else 0;
            Nat32(ExecMultiply(cpu, mem, ins).cpu.R[ins.rd]) ==
            (Nat32(cpu.R[ins.rm]) * Nat32(cpu.R[ins.rs]) + acc) % M32
  {
    hide Nat32, Mul, Add, MulWait, SignBit, IsZero;
    var rm, rs := cpu.R[ins.rm], cpu.R[ins.rs];
    MulIs(rm, rs);
    if ins.op.MLA? {
      AddIs(Mul(rm, rs), cpu.R[ins.rn]);
      ModAdd(Nat32(rm) * Nat32(rs), Nat32(cpu.R[ins.rn]), M32);
    }
  }

  /** A product of residues. */
  lemma ModProduct(x: int, y: int, k: int, l: int, m: nat)
    requires m > 0
    ensures (x + k * m) * (y + l * m) % m == x * y % m
  {
    assert (x + k * m) * (y + l * m) == x * y + (x * l + k * y + k * l * m) * m by { Expanded(x, y, k, l, m); }
    ModShift(x * y, x * l + k * y + k * l * m, m);
  }

  lemma Expanded(x: int, y: int, k: int, l: int, m: int)
    ensures (x + k * m) * (y + l * m) == x * y + (x * l + k * y + k * l * m) * m
  {}

  /** The operand a long multiply takes from a register. */
  function Factor(signed: bool, w: Word): int {
    if signed then Signed(w) else Nat32(w)
  }

  function Borrow(signed: bool, w: Word): int {
    if signed && Signed(w) < 0 then 1 else 0
  }

  function Wide(signed: bool, w: Word): bv64 {
    if signed then SExt64(w) else ZExt64(w)
  }

  lemma WideIs(signed: bool, w: Word)
    ensures Nat64(Wide(signed, w)) == Factor(signed, w) + Borrow(signed, w) * M64
  {
    hide Nat32, Nat64, SExt64, ZExt64;
    ExtendIs(w);
  }

  lemma WideProduct(signed: bool, a: Word, b: Word)
    ensures Nat64(Mul64(Wide(signed, a), Wide(signed, b))) == Factor(signed, a) * Factor(signed, b) % M64
  {
    hide Nat32, Nat64, Wide, Factor, Borrow, Mul64;
    WideIs(signed, a);
    WideIs(signed, b);
    Mul64Is(Wide(signed, a), Wide(signed, b));
    ModProduct(Factor(signed, a), Factor(signed, b), Borrow(signed, a), Borrow(signed, b), M64);
  }

  lemma LongShape(cpu: CpuState, ins: Instr)
    requires IsMultiplyLong(ins.op)
    ensures var signed := ins.op.SMULL? || ins.op.SMLAL?;
            var p := Mul64(Wide(signed, cpu.R[ins.rm]), Wide(signed, cpu.R[ins.rs]));
            LongProduct(cpu, ins) ==
            if ins.op.UMLAL? || ins.op.SMLAL? then Add64(Pair64(cpu.R[ins.rd], cpu.R[ins.rn]), p) else p
  {
    hide Mul64, SExt64, ZExt64, Pair64, Add64;
  }

  /** The long multiplies: the signed or unsigned product of the operands, plus the accumulator, modulo 2^64, in
      RdHi and RdLo; N is its sign and Z whether it is zero. */
  lemma MultiplyLongIs(cpu: CpuState, mem: Mem, ins: Instr)
    requires IsMultiplyLong(ins.op) && ins.rd != ins.rn
    ensures var signed := ins.op.SMULL? || ins.op.SMLAL?;
            var acc := if ins.op.UMLAL? || ins.op.SMLAL? then Nat32(cpu.R[ins.rn]) + M32 * Nat32(cpu.R[ins.rd]) else 0;
            var n := (Factor(signed, cpu.R[ins.rm]) * Factor(signed, cpu.R[ins.rs]) + acc) % M64;
            var c := ExecMultiplyLong(cpu, mem, ins).cpu;
            && Nat32(c.R[ins.rn]) + M32 * Nat32(c.R[ins.rd]) == n
            && (ins.setFlags ==> (c.cpsr.n <==> n >= M64 / 2) && (c.cpsr.z <==> n == 0))
  {
    hide Nat32, Nat64, Factor, Mul64, Add64, Pair64, Wide, LongProduct, MulWait, Lo32, Hi32, Bit63, IsZero64;
    var signed := ins.op.SMULL? || ins.op.SMLAL?;
    var rm, rs := cpu.R[ins.rm], cpu.R[ins.rs];
    LongShape(cpu, ins);
    WideProduct(signed, rm, rs);
    SplitIs(LongProduct(cpu, ins));
    if ins.op.UMLAL? || ins.op.SMLAL? {
      PairIs(cpu.R[ins.rd], cpu.R[ins.rn]);
      Add64Is(Pair64(cpu.R[ins.rd], cpu.R[ins.rn]), Mul64(Wide(signed, rm), Wide(signed, rs)));
      ModAdd(Factor(signed, rm) * Factor(signed, rs), Nat32(cpu.R[ins.rn]) + M32 * Nat32(cpu.R[ins.rd]), M64);
    }
  }
}
