// The packed flag helpers of the runtime against the interpreter's flag fields.
module Flags {
  import opened Words
  import opened Ir
  import opened Cpu
  import opened Reference
  import opened RuntimeOps

  // ----- Carry out of a 32-bit sum -----------------------------------------------
  //
  // Bit 32 of the wide sum is followed through four byte-wide sums, and the
  // unsigned comparison of a with the complement of b through the same bytes.

  function One(c: bool): Word {
    if c then 1 else 0
  }

  predicate Carry0(a: Word, b: Word) { ((a & 0xFF) + (b & 0xFF)) >> 8 != 0 }
  predicate Carry1(a: Word, b: Word) { (((a >> 8) & 0xFF) + ((b >> 8) & 0xFF) + One(Carry0(a, b))) >> 8 != 0 }
  predicate Carry2(a: Word, b: Word) { (((a >> 16) & 0xFF) + ((b >> 16) & 0xFF) + One(Carry1(a, b))) >> 8 != 0 }
  predicate Carry3(a: Word, b: Word) { ((a >> 24) + (b >> 24) + One(Carry2(a, b))) >> 8 != 0 }

  // Byte k of a exceeds, or equals, byte k of x; and the bytes below compare.
  predicate Gt0(a: Word, x: Word) { a & 0xFF > x & 0xFF }
  predicate Gt1(a: Word, x: Word) { (a >> 8) & 0xFF > (x >> 8) & 0xFF }
  predicate Gt2(a: Word, x: Word) { (a >> 16) & 0xFF > (x >> 16) & 0xFF }
  predicate Gt3(a: Word, x: Word) { a >> 24 > x >> 24 }
  predicate Eq1(a: Word, x: Word) { (a >> 8) & 0xFF == (x >> 8) & 0xFF }
  predicate Eq2(a: Word, x: Word) { (a >> 16) & 0xFF == (x >> 16) & 0xFF }
  predicate Eq3(a: Word, x: Word) { a >> 24 == x >> 24 }
  predicate GtLow16(a: Word, x: Word) { a & 0xFFFF > x & 0xFFFF }
  predicate GtLow24(a: Word, x: Word) { a & 0xFF_FFFF > x & 0xFF_FFFF }

  lemma WideCarry(a: Word, b: Word)
    ensures WideSum(a, b) >> 32 == 1 <==> Carry3(a, b)
  {}

  lemma CarryOut0(a: Word, b: Word) ensures Carry0(a, b) <==> Gt0(a, !b) {}

  lemma CarryOut1(a: Word, b: Word)
    ensures Carry1(a, b) <==> Gt1(a, !b) || (Eq1(a, !b) && Carry0(a, b))
  {
    hide Carry0;
  }

  lemma CarryOut2(a: Word, b: Word)
    ensures Carry2(a, b) <==> Gt2(a, !b) || (Eq2(a, !b) && Carry1(a, b))
  {
    hide Carry0, Carry1;
  }

  lemma CarryOut3(a: Word, b: Word)
    ensures Carry3(a, b) <==> Gt3(a, !b) || (Eq3(a, !b) && Carry2(a, b))
  {
    hide Carry0, Carry1, Carry2;
  }

  predicate Above(a: Word, x: Word) { a > x }

  lemma Compare32(a: Word, x: Word) ensures Above(a, x) <==> Gt3(a, x) || (Eq3(a, x) && GtLow24(a, x)) {}
  lemma Compare24(a: Word, x: Word) ensures GtLow24(a, x) <==> Gt2(a, x) || (Eq2(a, x) && GtLow16(a, x)) {}
  lemma Compare16(a: Word, x: Word) ensures GtLow16(a, x) <==> Gt1(a, x) || (Eq1(a, x) && Gt0(a, x)) {}

  lemma WideBit32(a: Word, b: Word)
    ensures Bit32(WideSum(a, b)) <==> Carry3(a, b)
  {
    WideCarry(a, b);
    WideBound(a, b);
    hide WideSum, Carry3;
  }

  lemma WideBound(a: Word, b: Word)
    ensures (WideSum(a, b) >> 32) & 1 == WideSum(a, b) >> 32
  {}

  /** The sum carries out exactly when one operand exceeds the complement of the other. */
  lemma CarryIsCompare(a: Word, b: Word)
    ensures Bit32(WideSum(a, b)) <==> Above(a, !b)
  {
    WideBit32(a, b);
    CarryOut0(a, b);
    CarryOut1(a, b);
    CarryOut2(a, b);
    CarryOut3(a, b);
    Compare32(a, !b);
    Compare24(a, !b);
    Compare16(a, !b);
    hide *;
  }

  lemma WrapIsCompare(a: Word, b: Word)
    ensures Below(a + b, a) <==> Above(a, !b)
  {}

  /** The helper's `r < a` is bit 32 of the wide sum. */
  lemma AddCarry(a: Word, b: Word)
    ensures Bit32(WideSum(a, b)) <==> Below(a + b, a)
  {
    CarryIsCompare(a, b);
    WrapIsCompare(a, b);
    hide *;
  }

  // ----- Borrow -------------------------------------------------------------------

  predicate Same(a: Word, b: Word) { a == b }
  predicate AllOnes(u: bv64) { u == 0xFFFF_FFFF }

  lemma Increment(a: Word, b: Word)
    ensures Bit32(WideSum(a, b) + 1) <==> Bit32(WideSum(a, b)) || AllOnes(WideSum(a, b))
  {}

  lemma OnesXor(a: Word, b: Word)
    ensures AllOnes(WideSum(a, !b)) <==> a ^ !b == 0xFFFF_FFFF
  {}

  lemma XorComplement(a: Word, b: Word)
    ensures a ^ !b == 0xFFFF_FFFF <==> a == b
  {}

  lemma OnesSame(a: Word, b: Word)
    ensures AllOnes(WideSum(a, !b)) <==> Same(a, b)
  {
    OnesXor(a, b);
    XorComplement(a, b);
    hide WideSum, AllOnes;
  }

  predicate Eq0(a: Word, x: Word) { a & 0xFF == x & 0xFF }

  lemma Bytes(a: Word, b: Word)
    ensures Same(a, b) <==> Eq3(a, b) && Eq2(a, b) && Eq1(a, b) && Eq0(a, b)
  {}

  lemma Trichotomy0(a: Word, b: Word)
    ensures Gt0(a, b) <==> !Gt0(b, a) && !Eq0(a, b)
    ensures Gt0(b, a) ==> !Eq0(a, b)
  {}

  lemma Trichotomy1(a: Word, b: Word)
    ensures Gt1(a, b) <==> !Gt1(b, a) && !Eq1(a, b)
    ensures Gt1(b, a) ==> !Eq1(a, b)
  {}

  lemma Trichotomy2(a: Word, b: Word)
    ensures Gt2(a, b) <==> !Gt2(b, a) && !Eq2(a, b)
    ensures Gt2(b, a) ==> !Eq2(a, b)
  {}

  lemma Trichotomy3(a: Word, b: Word)
    ensures Gt3(a, b) <==> !Gt3(b, a) && !Eq3(a, b)
    ensures Gt3(b, a) ==> !Eq3(a, b)
  {}

  lemma Symmetric(a: Word, b: Word)
    ensures (Eq3(a, b) <==> Eq3(b, a)) && (Eq2(a, b) <==> Eq2(b, a)) && (Eq1(a, b) <==> Eq1(b, a))
    ensures Eq0(a, b) <==> Eq0(b, a)
  {}

  lemma Flip(a: Word, b: Word) ensures AtLeast(a, b) <==> !Above(b, a) {}

  lemma AboveOrSame(a: Word, b: Word)
    ensures AtLeast(a, b) <==> Above(a, b) || Same(a, b)
  {
    Flip(a, b);
    Compare32(a, b);
    Compare24(a, b);
    Compare16(a, b);
    Compare32(b, a);
    Compare24(b, a);
    Compare16(b, a);
    Bytes(a, b);
    Trichotomy0(a, b);
    Trichotomy1(a, b);
    Trichotomy2(a, b);
    Trichotomy3(a, b);
    Symmetric(a, b);
    hide *;
  }

  lemma DoubleComplement(b: Word) ensures !!b == b {}

  /** The helper's `a >= b` is bit 32 of a + ~b + 1. */
  lemma SubCarry(a: Word, b: Word)
    ensures Bit32(WideSum(a, !b) + 1) <==> AtLeast(a, b)
  {
    Increment(a, !b);
    CarryIsCompare(a, !b);
    OnesSame(a, b);
    AboveOrSame(a, b);
    DoubleComplement(b);
    hide *;
  }

  // ----- Packed flags, field by field -------------------------------------------------

  lemma UnpackArith(cpsr: Word, r: Word, c: bool, v: bool)
    ensures Unpack(FlagsArith(cpsr, r, c, v)) == Unpack(cpsr).(n := SignBit(r), z := IsZero(r), c := c, v := v)
  {}

  lemma UnpackLogic(cpsr: Word, r: Word, carry: Word)
    ensures Unpack(FlagsLogic(cpsr, r, carry)) == Unpack(cpsr).(n := SignBit(r), z := IsZero(r), c := !IsZero(carry))
  {}

  lemma UnpackNZ(cpsr: Word, r: Word)
    ensures Unpack(FlagsNZ(cpsr, r)) == Unpack(cpsr).(n := SignBit(r), z := IsZero(r))
  {}

  lemma UnpackNZ64(cpsr: Word, u: bv64)
    ensures Unpack(FlagsNZ64(cpsr, u)) == Unpack(cpsr).(n := Bit63(u), z := IsZero64(u))
  {}

  lemma UnpackExchange(cpsr: Word, target: Word)
    ensures Unpack(ExchangeT(cpsr, target)) == Unpack(cpsr).(t := And(target, 1) != 0)
  {}

  lemma CarryField(cpsr: Word)
    ensures CpsrC(cpsr) == C01(Unpack(cpsr).c)
  {}

  lemma ModeField(cpsr: Word)
    ensures ModeOf(cpsr) == Unpack(cpsr).mode && ModeToBank(cpsr) == ModeToBank(Unpack(cpsr).mode)
  {}

  /** arm_cond_passes agrees with the interpreter's condition check. */
  lemma ConditionsAgree(c: Cond, cpsr: Word)
    ensures CondPassesPacked(c, cpsr) <==> CondPasses(c, Unpack(cpsr))
  {}

  // ----- Arithmetic flags ---------------------------------------------------------------

  function WithFlags(p: Psr, f: ArithFlags): Psr {
    p.(n := f.n, z := f.z, c := f.c, v := f.v)
  }

  /** The interpreter's record, once its low word and bit 32 are known. */
  lemma FlagsOfSum(a: Word, b: Word, carryIn: Word, r: Word, c: bool)
    requires Lo32(Sum64(a, b, carryIn)) == r
    requires Bit32(Sum64(a, b, carryIn)) <==> c
    ensures AddWithCarry(a, b, carryIn) == ArithFlags(r, SignBit(r), IsZero(r), c, AddOverflows(a, b, r))
  {
    hide IsZero, SignBit, AddOverflows, Sum64, Lo32, Bit32;
  }

  lemma NotDef(b: Word) ensures Not(b) == !b {}

  lemma PlainSum(a: Word, b: Word) ensures Sum64(a, b, 0) == WideSum(a, b) {}
  lemma IncrementedSum(a: Word, b: Word) ensures Sum64(a, b, 1) == WideSum(a, b) + 1 {}
  lemma LowRaw(a: Word, b: Word) ensures Lo32(WideSum(a, b)) == a + b {}
  lemma LowNext(u: bv64) ensures Lo32(u + 1) == Add(Lo32(u), 1) {}

  /** The low word of the wide sum is the wrapped 32-bit sum. */
  lemma LowSum0(a: Word, b: Word)
    ensures Lo32(Sum64(a, b, 0)) == Add(a, b)
  {
    hide Lo32, Sum64, WideSum, Add;
    PlainSum(a, b);
    LowRaw(a, b);
    AddDef(a, b);
  }

  lemma LowSum1(a: Word, b: Word)
    ensures Lo32(Sum64(a, b, 1)) == Add(Add(a, b), 1)
  {
    hide Lo32, Sum64, WideSum, Add;
    IncrementedSum(a, b);
    LowNext(WideSum(a, b));
    LowRaw(a, b);
    AddDef(a, b);
  }

  lemma AddTopBit(a: Word, b: Word)
    ensures Bit32(Sum64(a, b, 0)) <==> Below(Add(a, b), a)
  {
    hide Sum64, WideSum, Bit32, Below, Add;
    PlainSum(a, b);
    AddCarry(a, b);
    AddDef(a, b);
  }

  /** arm_set_nzcv_add: for ADD and CMN. */
  lemma AddAgrees(cpsr: Word, a: Word, b: Word)
    ensures AddWithCarry(a, b, 0).result == Add(a, b)
    ensures Unpack(FlagsAdd(cpsr, a, b, Add(a, b))) == WithFlags(Unpack(cpsr), AddWithCarry(a, b, 0))
  {
    hide IsZero, SignBit, AddOverflows, Add, WideSum, Sum64, Lo32, Bit32, Below, Unpack, FlagsArith, AddWithCarry;
    var r := Add(a, b);
    LowSum0(a, b);
    AddTopBit(a, b);
    FlagsOfSum(a, b, 0, r, Below(r, a));
    UnpackArith(cpsr, r, Below(r, a), AddOverflows(a, b, r));
  }

  lemma LowSumWithCarry(a: Word, b: Word, c: bool)
    ensures Lo32(Sum64(a, b, C01(c))) == Add(Add(a, b), C01(c))
  {
    hide Sum64, Lo32, Add;
    if c {
      LowSum1(a, b);
    } else {
      LowSum0(a, b);
      AddZero(Add(a, b));
    }
  }

  /** With a carry-in of 0 or 1 the sum has no bit above 32. */
  lemma TopBitOnly(a: Word, b: Word, c: bool)
    ensures AboveBit31(Sum64(a, b, C01(c))) <==> Bit32(Sum64(a, b, C01(c)))
  {}

  /** arm_set_nzcv_adc: for ADC. */
  lemma AdcAgrees(cpsr: Word, a: Word, b: Word, c: bool)
    ensures AddWithCarry(a, b, C01(c)).result == Add(Add(a, b), C01(c))
    ensures Unpack(FlagsAdc(cpsr, a, b, C01(c), Add(Add(a, b), C01(c)))) ==
            WithFlags(Unpack(cpsr), AddWithCarry(a, b, C01(c)))
  {
    hide IsZero, SignBit, AddOverflows, Add, Sum64, Lo32, Bit32, AboveBit31, Unpack, FlagsArith, AddWithCarry, C01;
    var top := AboveBit31(Sum64(a, b, C01(c)));
    var r := Add(Add(a, b), C01(c));
    LowSumWithCarry(a, b, c);
    TopBitOnly(a, b, c);
    FlagsOfSum(a, b, C01(c), r, top);
    UnpackArith(cpsr, r, top, AddOverflows(a, b, r));
  }

  lemma AllOnesSum(b: Word) ensures Add(b, Not(b)) == 0xFFFF_FFFF {}
  lemma MinusOne(a: Word) ensures Add(a, 0xFFFF_FFFF) == Sub(a, 1) {}

  /** Adding the complement subtracts, less one. */
  lemma AddNot(a: Word, b: Word)
    ensures Add(a, Not(b)) == Sub(Sub(a, b), 1)
  {
    hide Add, Sub, Not;
    SubThenAdd(a, b);
    AddAssoc(Sub(a, b), b, Not(b));
    AllOnesSum(b);
    MinusOne(Sub(a, b));
  }

  lemma AddNotOne(a: Word, b: Word)
    ensures Add(Add(a, Not(b)), 1) == Sub(a, b)
  {
    hide Add, Sub, Not;
    AddNot(a, b);
    SubThenAdd(Sub(a, b), 1);
  }

  lemma BorrowSum(a: Word, b: Word)
    ensures Sum64(a, Not(b), 1) == WideSum(a, !b) + 1
  {
    hide Sum64, WideSum, Not;
    IncrementedSum(a, Not(b));
    NotDef(b);
  }

  lemma LowBorrow(a: Word, b: Word)
    ensures Lo32(Sum64(a, Not(b), 1)) == Sub(a, b)
  {
    hide Sum64, Not, Lo32, Sub, Add;
    LowSum1(a, Not(b));
    AddNotOne(a, b);
  }

  lemma SubOverflow(a: Word, b: Word, r: Word)
    ensures AddOverflows(a, Not(b), r) <==> SubOverflows(a, b, r)
  {}

  lemma SubTopBit(a: Word, b: Word)
    ensures Bit32(Sum64(a, Not(b), 1)) <==> AtLeast(a, b)
  {
    hide Sum64, WideSum, Bit32, AtLeast, Not;
    BorrowSum(a, b);
    SubCarry(a, b);
  }

  /** arm_set_nzcv_sub: for SUB, CMP and RSB. */
  lemma SubAgrees(cpsr: Word, a: Word, b: Word)
    ensures SubWithCarry(a, b, 1).result == Sub(a, b)
    ensures Unpack(FlagsSub(cpsr, a, b, Sub(a, b))) == WithFlags(Unpack(cpsr), SubWithCarry(a, b, 1))
  {
    hide IsZero, SignBit, AddOverflows, SubOverflows, Sub, Not, WideSum, Sum64, Lo32, Bit32, AtLeast, Unpack, FlagsArith,
      AddWithCarry;
    var r := Sub(a, b);
    LowBorrow(a, b);
    SubTopBit(a, b);
    SubOverflow(a, b, r);
    FlagsOfSum(a, Not(b), 1, r, AtLeast(a, b));
    UnpackArith(cpsr, r, AtLeast(a, b), SubOverflows(a, b, r));
  }

  lemma OneMinus() ensures Sub(1, 0) == 1 && Sub(1, 1) == 0 {}

  lemma LowBorrowWithCarry(a: Word, b: Word, c: bool)
    ensures Lo32(Sum64(a, Not(b), C01(c))) == Sub(Sub(a, b), Sub(1, C01(c)))
  {
    hide Lo32, Sum64, Not, Sub, Add;
    OneMinus();
    if c {
      LowBorrow(a, b);
      SubZero(Sub(a, b));
    } else {
      LowSum0(a, Not(b));
      AddNot(a, b);
    }
  }

  /** arm_set_nzcv_sbc: for SBC and RSC. */
  lemma SbcAgrees(cpsr: Word, a: Word, b: Word, c: bool)
    ensures SubWithCarry(a, b, C01(c)).result == Sub(Sub(a, b), Sub(1, C01(c)))
    ensures Unpack(FlagsSbc(cpsr, a, b, C01(c), Sub(Sub(a, b), Sub(1, C01(c))))) ==
            WithFlags(Unpack(cpsr), SubWithCarry(a, b, C01(c)))
  {
    hide IsZero, SignBit, AddOverflows, SubOverflows, Sub, Not, Sum64, Lo32, Bit32, AboveBit31, Unpack, FlagsArith,
      AddWithCarry, C01;
    var top := AboveBit31(Sum64(a, Not(b), C01(c)));
    var r := Sub(Sub(a, b), Sub(1, C01(c)));
    LowBorrowWithCarry(a, b, c);
    TopBitOnly(a, Not(b), c);
    SubOverflow(a, b, r);
    FlagsOfSum(a, Not(b), C01(c), r, top);
    UnpackArith(cpsr, r, top, SubOverflows(a, b, r));
  }
}
