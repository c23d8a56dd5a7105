// Which byte of memory a load or store touches, and what a store followed by a load of the same width gives.
module MemoryLaws {
  import opened Words
  import opened Ir
  import opened Cpu
  import opened Reference
  import opened ByteNumbers
  import opened ByteStreams
  import opened Numbers

  // ----- Bytes in memory ----------------------------------------------------------------------------

  lemma JoinedRead(m: Mem, a: Word)
    ensures Read32(m, a) == Join32(Read8(m, a), Read8(m, a + 1), Read8(m, a + 2), Read8(m, a + 3))
  {}

  /** A word is read low byte first. */
  lemma WordRead(m: Mem, a: Word)
    ensures Nat32(Read32(m, a)) ==
            Value(Read8(m, a)) + 0x100 * Value(Read8(m, a + 1)) + 0x1_0000 * Value(Read8(m, a + 2))
              + 0x100_0000 * Value(Read8(m, a + 3))
  {
    hide Read32, Join32, Byte, Value;
    JoinedRead(m, a);
    JoinBytes(Read8(m, a), Read8(m, a + 1), Read8(m, a + 2), Read8(m, a + 3));
  }

  lemma HalfJoined(lo: bv8, hi: bv8)
    ensures var w := FromHalf((lo as bv16) | ((hi as bv16) << 8));
            Byte(w, 0) == lo && Byte(w, 1) == hi && Byte(w, 2) == 0 && Byte(w, 3) == 0
  {}

  lemma HalfRead(m: Mem, a: Word)
    ensures Nat32(FromHalf(Read16(m, a))) == Value(Read8(m, a)) + 0x100 * Value(Read8(m, a + 1))
  {
    hide Byte, Value, FromHalf;
    Extremes();
    HalfJoined(Read8(m, a), Read8(m, a + 1));
  }

  lemma Neighbours(a: Word)
    ensures a != a + 1 && a != a + 2 && a != a + 3 && a + 1 != a + 2 && a + 1 != a + 3 && a + 2 != a + 3
  {}

  lemma WordBytes(v: Word)
    ensures Low8(v) == Byte(v, 0) && Low8(v >> 8) == Byte(v, 1) && Low8(v >> 16) == Byte(v, 2) && Low8(v >> 24) == Byte(v, 3)
  {}

  /** A word is stored low byte first, and nothing else changes. */
  lemma WordWritten(m: Mem, a: Word, v: Word, b: Word)
    ensures var t := Write32(m, a, v);
            && Read8(t, a) == Byte(v, 0) && Read8(t, a + 1) == Byte(v, 1)
            && Read8(t, a + 2) == Byte(v, 2) && Read8(t, a + 3) == Byte(v, 3)
            && (b != a && b != a + 1 && b != a + 2 && b != a + 3 ==> Read8(t, b) == Read8(m, b))
  {
    hide Byte, Low8;
    Neighbours(a);
    WordBytes(v);
  }

  lemma HalfBytes(h: bv16)
    ensures (h & 0xFF) as bv8 == Byte(FromHalf(h), 0) && (h >> 8) as bv8 == Byte(FromHalf(h), 1)
    ensures Byte(FromHalf(h), 2) == 0 && Byte(FromHalf(h), 3) == 0
  {}

  /** A halfword likewise. */
  lemma HalfWritten(m: Mem, a: Word, h: bv16, b: Word)
    ensures var t := Write16(m, a, h);
            && Read8(t, a) == Byte(FromHalf(h), 0) && Read8(t, a + 1) == Byte(FromHalf(h), 1)
            && (b != a && b != a + 1 ==> Read8(t, b) == Read8(m, b))
  {
    hide Byte, FromHalf;
    Neighbours(a);
    HalfBytes(h);
  }

  /** `b` is neither byte of the halfword at `a`. */
  predicate OutsideHalf(a: Word, b: Word) {
    b != a && b != a + 1
  }

  lemma HalfSpares(m: Mem, a: Word, h: bv16, b: Word)
    requires OutsideHalf(a, b)
    ensures Read8(Write16(m, a, h), b) == Read8(m, b)
  {}

  // ----- Store, then load ---------------------------------------------------------------------------

  lemma HalfAgain(h: bv16)
    ensures (((h & 0xFF) as bv8) as bv16) | ((((h >> 8) as bv8) as bv16) << 8) == h
  {}

  lemma HalfBack(m: Mem, a: Word, h: bv16)
    ensures Read16(Write16(m, a, h), a) == h
  {
    Neighbours(a);
    HalfAgain(h);
  }

  lemma Truncated(v: Word)
    ensures FromByte(Low8(v)) == And(v, 0xFF) && FromHalf(Low16(v)) == And(v, 0xFFFF)
  {}

  lemma EvenAddress(ea: Word)
    requires And(ea, 1) == 0
    ensures And(ea, 0xFFFF_FFFE) == ea
  {}

  lemma OddAddress(ea: Word, a: Word)
    requires And(ea, 1) != 0 && a == And(ea, 0xFFFF_FFFE)
    ensures ea == a + 1
  {}

  /** STRB, then LDRB or LDRSB. */
  lemma ByteRoundTrip(m: Mem, ea: Word, v: Word)
    ensures var t := StoreMem(m, STRB, ea, v);
            LoadValue(t, LDRB, ea) == And(v, 0xFF) && LoadValue(t, LDRSB, ea) == SExt8(Low8(v))
  {
    hide FromByte, FromHalf, Low8, And, Or, Shl, Shr, Mul, Rotr32, Sext, SExt8, Read16, Read32, Write16, Write32;
    Truncated(v);
    SextIsCast8(Low8(v));
  }

  /** STRH, then LDRH: the halfword, rotated by a byte if the address is odd. */
  lemma HalfRoundTrip(m: Mem, ea: Word, v: Word)
    ensures var t := StoreMem(m, STRH, ea, v);
            LoadValue(t, LDRH, ea) == Rotr32(And(v, 0xFFFF), if And(ea, 1) == 0 then 0 else 8)
  {
    EightTurns(And(v, 0xFFFF));
    hide FromHalf, Low16, And, Read16, Write16, Rotr32, Or, Shr, Shl;
    HalfBack(m, And(ea, 0xFFFF_FFFE), Low16(v));
    if And(ea, 1) == 0 { EvenAddress(ea); }
    Truncated(v);
  }

  lemma EightTurns(v: Word)
    ensures Rotr32(v, 0) == v && Rotr32(v, 8) == Or(Shr(v, 8), Shl(v, 24))
  {
    assert And(0, 31) == 0 && And(8, 31) == 8 && Sub(32, 8) == 24;
    hide And, Or, Shr, Shl, Sub;
  }

  lemma HighByteStored(m: Mem, a: Word, b: Word, h: bv16)
    requires b == a + 1
    ensures Read8(Write16(m, a, h), b) == Byte(FromHalf(h), 1)
  {
    hide Byte, FromHalf;
    HalfBytes(h);
  }

  /** STRH, then LDRSH: the signed halfword, or at an odd address its signed high byte. */
  lemma SignedHalfRoundTrip(m: Mem, ea: Word, v: Word)
    ensures var t := StoreMem(m, STRH, ea, v);
            LoadValue(t, LDRSH, ea) ==
            if And(ea, 1) == 0 then SExt16(Low16(v)) else SExt8(Byte(FromHalf(Low16(v)), 1))
  {
    hide FromHalf, FromByte, Low16, And, Read16, Write16, Byte, Sext, SExt8, SExt16, Read8;
    if And(ea, 1) == 0 {
      HalfBack(m, ea, Low16(v));
      EvenAddress(ea);
    } else {
      OddAddress(ea, And(ea, 0xFFFF_FFFE));
      HighByteStored(m, And(ea, 0xFFFF_FFFE), ea, Low16(v));
    }
    SextIsCast16(Low16(v));
    SextIsCast8(Byte(FromHalf(Low16(v)), 1));
  }

  /** STR, then LDR: the word, rotated so that the addressed byte comes lowest. */
  lemma WordRoundTrip(m: Mem, ea: Word, v: Word)
    ensures LoadValue(StoreMem(m, STR, ea, v), LDR, ea) == Rotr32(v, Mul(And(ea, 3), 8))
  {
    hide Read32, Write32, Align4, Rotr32, Mul, And;
    Words.ReadBack32(m, Align4(ea), v);
  }

  /** A store touches only the bytes of its aligned access. */
  lemma StoreTouches(m: Mem, op: IrOp, ea: Word, v: Word, b: Word)
    requires IsStore(op)
    requires if op.STRB? then b != ea
             else if op.STRH? then OutsideHalf(And(ea, 0xFFFF_FFFE), b)
             else Outside(Align4(ea), b)
    ensures Read8(StoreMem(m, op, ea, v), b) == Read8(m, b)
  {
    hide Low8, Low16, And, Align4, Write16, Write32, Outside, OutsideHalf;
    if op.STRH? { HalfSpares(m, And(ea, 0xFFFF_FFFE), Low16(v), b); }
    else if op.STR? { ReadOutside(m, Align4(ea), v, b); }
  }
}
