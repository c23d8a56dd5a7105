// 32-bit machine words, the C operators the sources use on them, and the flat
// little-endian memory behind the bus.
module Words {
  type Word = bv32

  /** A register number as the decoders produce it. */
  type Reg = r: nat | r < 16

  /** Flat guest memory: a byte at each of the 2^32 addresses. */
  type Mem = bv32 -> bv8

  // ----- C operators ------------------------------------------------------

  //
  // Each operator has a name, so that a proof can put the bit arithmetic aside
  // and argue that two programs compute the same expression.

  function And(a: Word, b: Word): Word { a & b }
  function Or(a: Word, b: Word): Word { a | b }
  function Xor(a: Word, b: Word): Word { a ^ b }
  function Not(a: Word): Word { !a }
  function Add(a: Word, b: Word): Word { a + b }
  function Sub(a: Word, b: Word): Word { a - b }
  function Mul(a: Word, b: Word): Word { a * b }

  function Shl(a: Word, n: Word): Word
    requires n < 32
  {
    a << n
  }

  function Shr(a: Word, n: Word): Word
    requires n < 32
  {
    a >> n
  }

  predicate IsZero(w: Word) {
    w == 0
  }

  predicate SignBit(w: Word) {
    w & 0x8000_0000 != 0
  }

  /** Unsigned comparison. */
  predicate Below(a: Word, b: Word) {
    a < b
  }

  predicate AtLeast(a: Word, b: Word) {
    a >= b
  }

  /** `(~(a ^ b) & (a ^ r)) >> 31`: a sum whose sign differs from that of both operands. */
  predicate AddOverflows(a: Word, b: Word, r: Word) {
    SignBit((!(a ^ b)) & (a ^ r))
  }

  /** `((a ^ b) & (a ^ r)) >> 31`: the same for a difference. */
  predicate SubOverflows(a: Word, b: Word, r: Word) {
    SignBit((a ^ b) & (a ^ r))
  }

  /** `(uint64_t)a + b`, and `(uint64_t)a + b + c`. */
  function WideSum(a: Word, b: Word): bv64 {
    (a as bv64) + (b as bv64)
  }

  function Sum64(a: Word, b: Word, c: Word): bv64 {
    WideSum(a, b) + (c as bv64)
  }

  /** `(uint32_t)u` and `(uint32_t)(u >> 32)`. */
  function Lo32(u: bv64): Word {
    (u & 0xFFFF_FFFF) as bv32
  }

  function Hi32(u: bv64): Word {
    (u >> 32) as bv32
  }

  /** `((uint64_t)hi << 32) | lo`. */
  function Pair64(hi: Word, lo: Word): bv64 {
    ((hi as bv64) << 32) | (lo as bv64)
  }

  /** `(uint64_t)w` and `(int64_t)(int32_t)w`. */
  function ZExt64(w: Word): bv64 {
    w as bv64
  }

  function SExt64(w: Word): bv64 {
    if SignBit(w) then (w as bv64) | 0xFFFF_FFFF_0000_0000 else w as bv64
  }

  function Add64(a: bv64, b: bv64): bv64 { a + b }
  function Mul64(a: bv64, b: bv64): bv64 { a * b }

  predicate IsZero64(u: bv64) {
    u == 0
  }

  /** `(u >> 32) & 1`. */
  predicate Bit32(u: bv64) {
    (u >> 32) & 1 == 1
  }

  /** `u >> 32` as a truth value. */
  predicate AboveBit31(u: bv64) {
    u >> 32 != 0
  }

  /** `(u >> 63) & 1`, and `u >> 63` as a truth value. */
  predicate Bit63(u: bv64) {
    (u >> 63) & 1 == 1
  }

  predicate AboveBit62(u: bv64) {
    u >> 63 != 0
  }

  /** `(uint32_t)((int32_t)w >> n)`. */
  function Asr(w: Word, n: Word): Word
    requires n < 32
  {
    if SignBit(w) then !((!w) >> n) else w >> n
  }

  /** `(v >> n) | (v << (32 - n))`, for counts C defines. */
  function Rotate(v: Word, n: Word): Word
    requires 0 < n < 32
  {
    Or(Shr(v, n), Shl(v, Sub(32, n)))
  }

  /** interpreter.cpp's rotr32. */
  function Rotr32(v: Word, r: Word): Word {
    var n := And(r, 31);
    if n == 0 then v else Rotate(v, n)
  }

  /** `(uint32_t)b` and `(uint32_t)h`. */
  function FromByte(b: bv8): Word { b as bv32 }
  function FromHalf(h: bv16): Word { h as bv32 }

  /** `(uint32_t)(int32_t)(int8_t)b`. */
  function SExt8(b: bv8): Word {
    if b & 0x80 != 0 then (b as bv32) | 0xFFFF_FF00 else b as bv32
  }

  /** `(uint32_t)(int32_t)(int16_t)h`. */
  function SExt16(h: bv16): Word {
    if h & 0x8000 != 0 then (h as bv32) | 0xFFFF_0000 else h as bv32
  }

  /** `(1u << bits) - 1u`. */
  function FieldMask(bits: Word): Word
    requires bits < 32
  {
    ((1 as bv32) << bits) - 1
  }

  /** interpreter.cpp's sext: mask to the field, shift it to the top, shift back arithmetically. */
  function Sext(v: Word, bits: Word): Word
    requires 0 < bits < 32
  {
    Asr(Shl(And(v, FieldMask(bits)), 32 - bits), 32 - bits)
  }

  lemma FieldMasks()
    ensures FieldMask(8) == 0xFF && FieldMask(16) == 0xFFFF
  {}

  /** Masking to the field and shifting up and back is C's cast through int8_t. */
  lemma SextIsCast8(b: bv8)
    ensures Sext(FromByte(b), 8) == SExt8(b)
  {
    hide FieldMask, Asr, Shl, And, SExt8;
    FieldMasks();
    ShiftedCast8(b);
  }

  /** Masking to the field and shifting up and back is C's cast through int16_t. */
  lemma SextIsCast16(h: bv16)
    ensures Sext(FromHalf(h), 16) == SExt16(h)
  {
    hide FieldMask, Asr, Shl, And, SExt16;
    FieldMasks();
    ShiftedCast16(h);
  }

  lemma ShiftedCast8(b: bv8)
    ensures Asr(Shl(And(b as bv32, 0xFF), 24), 24) == SExt8(b)
  {
    hide And, Asr, Shl, SExt8;
    FieldFits(b, 0);
    CastBack8(b);
  }

  lemma ShiftedCast16(h: bv16)
    ensures Asr(Shl(And(h as bv32, 0xFFFF), 16), 16) == SExt16(h)
  {
    hide And, Asr, Shl, SExt16;
    FieldFits(0, h);
    CastBack16(h);
  }

  lemma FieldFits(b: bv8, h: bv16)
    ensures And(b as bv32, 0xFF) == b as bv32 && And(h as bv32, 0xFFFF) == h as bv32
  {}

  lemma CastBack8(b: bv8)
    ensures Asr(Shl(b as bv32, 24), 24) == SExt8(b)
  {}

  lemma CastBack16(h: bv16)
    ensures Asr(Shl(h as bv32, 16), 16) == SExt16(h)
  {
    hide Shl;
    ShlDef(h as bv32, 16);
    CastBackRaw16(h);
  }

  lemma ShlDef(a: Word, n: Word)
    requires n < 32
    ensures Shl(a, n) == a << n
  {}

  lemma CastBackRaw16(h: bv16)
    ensures Asr((h as bv32) << 16, 16) == SExt16(h)
  {}

  // ----- Algebra of the named operators -------------------------------------
  //
  // Proofs that hide the operators compute with these.

  lemma AddDef(a: Word, b: Word) ensures Add(a, b) == a + b {}
  lemma SubDef(a: Word, b: Word) ensures Sub(a, b) == a - b {}
  lemma AddComm(a: Word, b: Word) ensures Add(a, b) == Add(b, a) {}
  lemma AddZero(a: Word) ensures Add(a, 0) == a {}
  lemma SubZero(a: Word) ensures Sub(a, 0) == a {}

  lemma AssocRaw(a: Word, b: Word, c: Word, s: Word, t: Word)
    requires s == a + b && t == b + c
    ensures Add(s, c) == Add(a, t)
  {}

  lemma AddAssoc(a: Word, b: Word, c: Word)
    ensures Add(Add(a, b), c) == Add(a, Add(b, c))
  {
    hide Add;
    AddDef(a, b);
    AddDef(b, c);
    AssocRaw(a, b, c, Add(a, b), Add(b, c));
  }

  lemma SumMinus(a: Word, n: Word, r: Word) requires r == a + n ensures Sub(r, n) == a {}
  lemma DifferencePlus(a: Word, n: Word, r: Word) requires r == a - n ensures Add(r, n) == a {}

  lemma AddThenSub(a: Word, n: Word)
    ensures Sub(Add(a, n), n) == a
  {
    hide Add, Sub;
    AddDef(a, n);
    SumMinus(a, n, Add(a, n));
  }

  lemma SubThenAdd(a: Word, n: Word)
    ensures Add(Sub(a, n), n) == a
  {
    hide Add, Sub;
    SubDef(a, n);
    DifferencePlus(a, n, Sub(a, n));
  }

  lemma AddCancels(a: Word, b: Word, n: Word)
    ensures Add(a, n) == Add(b, n) <==> a == b
  {
    hide Add, Sub;
    AddThenSub(a, n);
    AddThenSub(b, n);
  }

  // ----- Memory -----------------------------------------------------------

  function Read8(m: Mem, a: Word): bv8 {
    m(a)
  }

  function Read16(m: Mem, a: Word): bv16 {
    (Read8(m, a) as bv16) | ((Read8(m, a + 1) as bv16) << 8)
  }

  function Read32(m: Mem, a: Word): Word {
    (Read8(m, a) as bv32) | ((Read8(m, a + 1) as bv32) << 8)
      | ((Read8(m, a + 2) as bv32) << 16) | ((Read8(m, a + 3) as bv32) << 24)
  }

  function Low8(w: Word): bv8 {
    (w & 0xFF) as bv8
  }

  function Low16(w: Word): bv16 {
    (w & 0xFFFF) as bv16
  }

  function Write8(m: Mem, a: Word, v: bv8): Mem {
    x => if x == a then v else m(x)
  }

  function Write16(m: Mem, a: Word, v: bv16): Mem {
    Write8(Write8(m, a, (v & 0xFF) as bv8), a + 1, (v >> 8) as bv8)
  }

  function Write32(m: Mem, a: Word, v: Word): Mem {
    Write8(Write8(Write8(Write8(m, a, Low8(v)), a + 1, Low8(v >> 8)), a + 2, Low8(v >> 16)), a + 3, Low8(v >> 24))
  }

  /** The word address both sides force before a word access. */
  function Align4(a: Word): Word {
    And(a, 0xFFFF_FFFC)
  }

  /** Storing a word at an aligned address and loading it back. */
  lemma ReadBack32(m: Mem, a: Word, v: Word)
    ensures Read32(Write32(m, a, v), a) == v
  {
    var w := Write32(m, a, v);
    assert a != a + 1 && a != a + 2 && a != a + 3 && a + 1 != a + 2 && a + 1 != a + 3 && a + 2 != a + 3;
    assert Read8(w, a) == Low8(v) && Read8(w, a + 1) == Low8(v >> 8);
    assert Read8(w, a + 2) == Low8(v >> 16) && Read8(w, a + 3) == Low8(v >> 24);
    Reassemble(v);
  }

  lemma Reassemble(v: Word)
    ensures (Low8(v) as bv32) | ((Low8(v >> 8) as bv32) << 8)
              | ((Low8(v >> 16) as bv32) << 16) | ((Low8(v >> 24) as bv32) << 24) == v
  {}

  /** `b` is none of the four bytes of the word at `a`. */
  predicate Outside(a: Word, b: Word) {
    b != a && b != a + 1 && b != a + 2 && b != a + 3
  }

  lemma AlignedApart(a: Word, b: Word)
    requires Align4(a) == a && Align4(b) == b && a != b
    ensures Outside(a, b) && Outside(a, b + 1) && Outside(a, b + 2) && Outside(a, b + 3)
  {}

  lemma ReadOutside(m: Mem, a: Word, v: Word, b: Word)
    requires Outside(a, b)
    ensures Read8(Write32(m, a, v), b) == Read8(m, b)
  {}

  /** A word store leaves every other aligned word alone. */
  lemma ReadOther32(m: Mem, a: Word, b: Word, v: Word)
    requires Align4(a) == a && Align4(b) == b && a != b
    ensures Read32(Write32(m, a, v), b) == Read32(m, b)
  {
    AlignedApart(a, b);
    ReadOutside(m, a, v, b);
    ReadOutside(m, a, v, b + 1);
    ReadOutside(m, a, v, b + 2);
    ReadOutside(m, a, v, b + 3);
    Read32Ext(Write32(m, a, v), m, b);
  }

  lemma Read32Ext(m: Mem, m': Mem, b: Word)
    requires Read8(m, b) == Read8(m', b) && Read8(m, b + 1) == Read8(m', b + 1)
    requires Read8(m, b + 2) == Read8(m', b + 2) && Read8(m, b + 3) == Read8(m', b + 3)
    ensures Read32(m, b) == Read32(m', b)
  {}
}
