// What the named word operators do bit by bit, and from that which bits of a status register MSR and an
// exception entry change.
module Bits {
  import opened Words
  import opened Ir
  import opened Cpu
  import opened Reference
  import opened RuntimeOps

  predicate HasBit(w: Word, i: Word)
    requires i < 32
  {
    (w >> i) & 1 == 1
  }

  // ----- Logic ------------------------------------------------------------------------------------------

  lemma AndBits(a: Word, b: Word, i: Word) requires i < 32 ensures HasBit(And(a, b), i) <==> HasBit(a, i) && HasBit(b, i) {}
  lemma OrBits(a: Word, b: Word, i: Word) requires i < 32 ensures HasBit(Or(a, b), i) <==> HasBit(a, i) || HasBit(b, i) {}
  lemma NotBits(a: Word, i: Word) requires i < 32 ensures HasBit(Not(a), i) <==> !HasBit(a, i) {}

  lemma XorRaw(a: Word, b: Word) ensures a ^ b == (a & !b) | (!a & b) {}
  lemma XorDef(a: Word, b: Word) ensures Xor(a, b) == a ^ b {}
  lemma XorShape(a: Word, b: Word) ensures Or(And(a, Not(b)), And(Not(a), b)) == (a & !b) | (!a & b) {}

  lemma XorBits(a: Word, b: Word, i: Word)
    requires i < 32
    ensures HasBit(Xor(a, b), i) <==> HasBit(a, i) != HasBit(b, i)
  {
    hide HasBit, And, Or, Xor, Not;
    XorRaw(a, b);
    XorDef(a, b);
    XorShape(a, b);
    OrBits(And(a, Not(b)), And(Not(a), b), i);
    AndBits(a, Not(b), i);
    AndBits(Not(a), b, i);
    NotBits(a, i);
    NotBits(b, i);
  }

  // ----- Shifts and rotation ----------------------------------------------------------------------------

  lemma ShlDef(a: Word, n: Word) requires n < 32 ensures Shl(a, n) == a << n {}
  lemma ShrDef(a: Word, n: Word) requires n < 32 ensures Shr(a, n) == a >> n {}

  lemma ShlBit(a: Word, n: Word, i: Word)
    requires n < 32 && i < 32
    ensures HasBit(a << n, i) <==> ((a << n) >> i) & 1 == 1
  {}

  lemma ShrBit(a: Word, n: Word, i: Word)
    requires n < 32 && i < 32
    ensures HasBit(a >> n, i) <==> ((a >> n) >> i) & 1 == 1
  {}

  lemma BitBelow(a: Word, n: Word, i: Word) requires n <= i < 32 ensures HasBit(a, i - n) <==> (a >> (i - n)) & 1 == 1 {}

  lemma BitAbove(a: Word, n: Word, i: Word)
    requires n < 32 && i < 32 && i + n < 32
    ensures HasBit(a, i + n) <==> (a >> (i + n)) & 1 == 1
  {}

  lemma ShlRaw(a: Word, n: Word, i: Word)
    requires n <= i < 32
    ensures ((a << n) >> i) & 1 == 1 <==> (a >> (i - n)) & 1 == 1
  {}

  lemma ShrRaw(a: Word, n: Word, i: Word)
    requires n < 32 && i < 32 && i + n < 32
    ensures ((a >> n) >> i) & 1 == 1 <==> (a >> (i + n)) & 1 == 1
  {}

  /** A left shift moves bits up and fills with zeros. */
  lemma ShlBits(a: Word, n: Word, i: Word)
    requires n <= i < 32
    ensures HasBit(Shl(a, n), i) <==> HasBit(a, i - n)
  {
    hide HasBit, Shl;
    ShlDef(a, n);
    ShlBit(a, n, i);
    BitBelow(a, n, i);
    ShlRaw(a, n, i);
  }

  lemma ShlZeros(a: Word, n: Word, i: Word) requires i < n < 32 ensures !HasBit(Shl(a, n), i) {}

  /** A logical right shift moves bits down and fills with zeros. */
  lemma ShrBits(a: Word, n: Word, i: Word)
    requires n < 32 && i < 32 && i + n < 32
    ensures HasBit(Shr(a, n), i) <==> HasBit(a, i + n)
  {
    hide HasBit, Shr;
    ShrDef(a, n);
    ShrBit(a, n, i);
    BitAbove(a, n, i);
    ShrRaw(a, n, i);
  }

  lemma ShrZeros(a: Word, n: Word, i: Word) requires n < 32 && i < 32 && i + n >= 32 ensures !HasBit(Shr(a, n), i) {}

  lemma SignIsTop(w: Word) ensures SignBit(w) <==> HasBit(w, 31) {}

  lemma AsrDef(a: Word, n: Word)
    requires n < 32
    ensures Asr(a, n) == if SignBit(a) then !((!a) >> n) else a >> n
  {
    hide SignBit;
  }

  lemma ComplementDef(a: Word, n: Word)
    requires n < 32
    ensures Shr(!a, n) == (!a) >> n
  {}

  lemma OuterDef(a: Word, n: Word)
    requires n < 32
    ensures Not((!a) >> n) == !((!a) >> n)
  {}

  lemma NotDef(a: Word) ensures Not(a) == !a {}

  lemma AsrIs(a: Word, n: Word)
    requires n < 32
    ensures Asr(a, n) == if SignBit(a) then Not(Shr(Not(a), n)) else Shr(a, n)
  {
    hide Asr, SignBit, Shr, Not;
    AsrDef(a, n);
    ShrDef(a, n);
    NotDef(a);
    ComplementDef(a, n);
    OuterDef(a, n);
  }

  /** An arithmetic right shift fills with the sign. */
  lemma AsrBits(a: Word, n: Word, i: Word)
    requires n < 32 && i < 32
    ensures HasBit(Asr(a, n), i) <==> if i + n < 32 then HasBit(a, i + n) else HasBit(a, 31)
  {
    hide Asr, HasBit, SignBit, Shr, Not;
    AsrIs(a, n);
    SignIsTop(a);
    NotBits(Shr(Not(a), n), i);
    if i + n < 32 {
      ShrBits(a, n, i);
      ShrBits(Not(a), n, i);
      NotBits(a, i + n);
    } else {
      ShrZeros(a, n, i);
      ShrZeros(Not(a), n, i);
    }
  }

  lemma RotateRaw(a: Word, n: Word, i: Word)
    requires 0 < n < 32 && i < 32
    ensures HasBit((a >> n) | (a << (32 - n)), i) <==> HasBit(a, (i + n) & 31)
  {}

  lemma RotateDef(a: Word, n: Word)
    requires 0 < n < 32
    ensures Shr(a, n) == a >> n && Sub(32, n) == 32 - n && Shl(a, 32 - n) == a << (32 - n)
    ensures Or(a >> n, a << (32 - n)) == (a >> n) | (a << (32 - n))
  {}

  lemma RotateBits(a: Word, n: Word, i: Word)
    requires 0 < n < 32 && i < 32
    ensures HasBit(Rotate(a, n), i) <==> HasBit(a, (i + n) & 31)
  {
    hide HasBit, Or, Shr, Shl, Sub;
    RotateDef(a, n);
    RotateRaw(a, n, i);
  }

  /** Rotation takes bit i from i + r, counted modulo 32. */
  lemma Rotr32Bits(a: Word, r: Word, i: Word)
    requires i < 32
    ensures HasBit(Rotr32(a, r), i) <==> HasBit(a, (i + r) & 31)
  {
    CountBits(i, r);
    hide HasBit, Rotate, And;
    if And(r, 31) != 0 { RotateBits(a, And(r, 31), i); }
  }

  lemma CountBits(i: Word, r: Word)
    requires i < 32
    ensures And(r, 31) < 32 && (i + And(r, 31)) & 31 == (i + r) & 31 && (And(r, 31) == 0 ==> (i + r) & 31 == i)
  {}

  lemma AlignRaw(a: Word, i: Word)
    requires i < 32
    ensures HasBit(a & 0xFFFF_FFFC, i) <==> HasBit(a, i) && i >= 2
    ensures HasBit(a & 0xFFFF_FFFE, i) <==> HasBit(a, i) && i >= 1
  {}

  lemma AlignDef(a: Word)
    ensures Align4(a) == a & 0xFFFF_FFFC && EvenPc(a) == a & 0xFFFF_FFFE
  {}

  /** Word alignment clears bits 1 and 0, a code address loses bit 0. */
  lemma AlignBits(a: Word, i: Word)
    requires i < 32
    ensures HasBit(Align4(a), i) <==> HasBit(a, i) && i >= 2
    ensures HasBit(EvenPc(a), i) <==> HasBit(a, i) && i >= 1
  {
    hide HasBit, Align4, EvenPc;
    AlignRaw(a, i);
    AlignDef(a);
  }

  /** The signed casts copy the top bit of the field upwards. */
  lemma CastBits(b: bv8, h: bv16, i: Word)
    requires i < 32
    ensures HasBit(SExt8(b), i) <==> HasBit(FromByte(b), if i < 8 then i else 7)
    ensures HasBit(SExt16(h), i) <==> HasBit(FromHalf(h), if i < 16 then i else 15)
  {}

  // ----- MSR --------------------------------------------------------------------------------------------

  /** The field bit of an MSR that covers bit i: c, x, s, f from the low byte up. */
  predicate Selected(mask: bv4, i: Word) {
    if i < 8 then mask & 1 != 0 else if i < 16 then mask & 2 != 0 else if i < 24 then mask & 4 != 0 else mask & 8 != 0
  }

  lemma MaskBits(mask: bv4, i: Word)
    requires i < 32
    ensures HasBit(ByteMask(mask), i) <==> Selected(mask, i)
    ensures HasBit(UserMask(mask), i) <==> i >= 24 && Selected(mask, i)
  {
    if i < 8 {} else if i < 16 {} else if i < 24 {} else {}
  }

  lemma MergeRaw(was: Word, v: Word, mask: Word, i: Word)
    requires i < 32
    ensures HasBit((was & !mask) | (v & mask), i) <==> if HasBit(mask, i) then HasBit(v, i) else HasBit(was, i)
  {}

  lemma MergeDef(was: Word, v: Word, mask: Word)
    ensures Merge(was, v, mask) == (was & !mask) | (v & mask)
  {}

  lemma MergeBits(was: Word, v: Word, mask: Word, i: Word)
    requires i < 32
    ensures HasBit(Merge(was, v, mask), i) <==> if HasBit(mask, i) then HasBit(v, i) else HasBit(was, i)
  {
    hide HasBit, Merge;
    MergeDef(was, v, mask);
    MergeRaw(was, v, mask, i);
  }

  /** MSR CPSR, bit by bit: a selected byte becomes the operand's, except that User mode reaches the top byte only;
      every other bit stays. */
  lemma MsrCpsrBits(p: Packed, v: Word, mask: bv4, i: Word)
    requires i < 32
    ensures HasBit(MsrCpsr(p, v, mask).cpsr, i) <==>
            if Selected(mask, i) && (ModeOf(p.cpsr) == 0x10 ==> i >= 24) then HasBit(v, i) else HasBit(p.cpsr, i)
  {
    var m := if ModeOf(p.cpsr) == USER then UserMask(mask) else ByteMask(mask);
    MergeBits(p.cpsr, v, m, i);
    MaskBits(mask, i);
    hide Merge, ByteMask, UserMask, ModeOf, ModeToBank, BankIn, BankOut, HasBit, Selected;
  }

  /** MSR SPSR likewise, where there is one; otherwise nothing happens. */
  lemma MsrSpsrBits(p: Packed, v: Word, mask: bv4, i: Word)
    requires i < 32
    ensures var bank := ModeToBank(p.cpsr);
            var q := MsrSpsr(p, v, mask);
            if bank == BANK_USER then q == p
            else HasBit(q.spsr[bank], i) <==> if Selected(mask, i) then HasBit(v, i) else HasBit(p.spsr[bank], i)
    ensures var q := MsrSpsr(p, v, mask); q == p.(spsr := p.spsr[ModeToBank(p.cpsr) := q.spsr[ModeToBank(p.cpsr)]])
  {
    var bank := ModeToBank(p.cpsr);
    MergeBits(p.spsr[bank], v, ByteMask(mask), i);
    MaskBits(mask, i);
    hide Merge, ByteMask, ModeToBank, HasBit, Selected;
    assert p.spsr[bank := p.spsr[bank]] == p.spsr;
  }

  lemma UserMaskHigh(mask: bv4) ensures UserMask(mask) & 0x00FF_FFFF == 0 {}

  /** The control fields lie in the low 24 bits. */
  lemma ControlFields(w: Word, was: Word)
    requires w & 0x00FF_FFFF == was & 0x00FF_FFFF
    ensures ModeOf(w) == ModeOf(was) && Unpack(w).mode == Unpack(was).mode
    ensures Unpack(w).i == Unpack(was).i && Unpack(w).f == Unpack(was).f && Unpack(w).t == Unpack(was).t
  {}

  lemma LowBitsKept(was: Word, v: Word, mask: bv4)
    ensures var w := Merge(was, v, UserMask(mask));
            w & 0x00FF_FFFF == was & 0x00FF_FFFF && ModeOf(w) == ModeOf(was)
            && Unpack(w).i == Unpack(was).i && Unpack(w).f == Unpack(was).f && Unpack(w).t == Unpack(was).t
            && Unpack(w).mode == Unpack(was).mode
  {
    hide Merge, UserMask, ModeOf, Unpack;
    UserMaskHigh(mask);
    KeptMerge(was, v, UserMask(mask));
    ControlFields(Merge(was, v, UserMask(mask)), was);
  }

  lemma KeptMerge(was: Word, v: Word, m: Word)
    requires m & 0x00FF_FFFF == 0
    ensures Merge(was, v, m) & 0x00FF_FFFF == was & 0x00FF_FFFF
  {}

  /** In User mode MSR CPSR keeps bits 23 to 0, so mode, I, F and T, and every register of every bank. */
  lemma UserMsrKeeps(p: Packed, v: Word, mask: bv4)
    requires ModeOf(p.cpsr) == USER
    ensures var q := MsrCpsr(p, v, mask);
            && q == p.(cpsr := q.cpsr) && q.cpsr & 0x00FF_FFFF == p.cpsr & 0x00FF_FFFF
            && var f, g := Unpack(q.cpsr), Unpack(p.cpsr); f.mode == g.mode && f.i == g.i && f.f == g.f && f.t == g.t
  {
    hide Merge, UserMask, ModeOf, ModeToBank, Unpack;
    LowBitsKept(p.cpsr, v, mask);
    SameModeBank(p.cpsr, Merge(p.cpsr, v, UserMask(mask)));
  }

  lemma SameModeBank(a: Word, b: Word)
    requires ModeOf(a) == ModeOf(b)
    ensures ModeToBank(a) == ModeToBank(b)
  {
    hide ModeOf;
  }

  /** The interpreter's MSR CPSR in User mode likewise. */
  lemma UserWriteKeeps(cpu: CpuState, v: Word, mask: bv4)
    requires cpu.cpsr.mode == USER && cpu.thumb == cpu.cpsr.t
    ensures var c := WriteCpsr(cpu, v, mask);
            && c == cpu.(cpsr := c.cpsr)
            && c.cpsr.mode == USER && c.cpsr.i == cpu.cpsr.i && c.cpsr.f == cpu.cpsr.f && c.cpsr.t == cpu.cpsr.t
  {
    LowBitsKept(Pack(cpu.cpsr), v, mask);
    UserFits();
    UnpackPack(cpu.cpsr);
    hide Merge, UserMask, ModeOf, ModeToBank, Unpack, Pack;
  }

  lemma UserFits() ensures USER & 0x1F == USER {}

  // ----- Exception entry ------------------------------------------------------------------------------------

  /** The handler's CPSR: the entered mode, ARM state, IRQs masked, and everything else as it was. */
  lemma HandlerFields(cpsr: Word, mode: Word)
    requires mode & 0x1F == mode
    ensures Unpack(HandlerCpsr(cpsr, mode)) == Unpack(cpsr).(mode := mode, i := true, t := false)
    ensures HandlerCpsr(cpsr, mode) & 0xFFFF_FF00 == cpsr & 0xFFFF_FF00
  {}
}
