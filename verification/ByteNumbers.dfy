// Bytes and the numbers they stand for, bit by bit.
module ByteNumbers {
  function Mark(c: bool, b: bv8): bv8 {
    if c then b else 0
  }

  function Weight(c: bool, n: nat): nat {
    if c then n else 0
  }

  function FromBits(b0: bool, b1: bool, b2: bool, b3: bool, b4: bool, b5: bool, b6: bool, b7: bool): bv8 {
    Mark(b0, 1) | Mark(b1, 2) | Mark(b2, 4) | Mark(b3, 8) | Mark(b4, 16) | Mark(b5, 32) | Mark(b6, 64) | Mark(b7, 128)
  }

  function SumBits(b0: bool, b1: bool, b2: bool, b3: bool, b4: bool, b5: bool, b6: bool, b7: bool): nat {
    Weight(b0, 1) + Weight(b1, 2) + Weight(b2, 4) + Weight(b3, 8)
      + Weight(b4, 16) + Weight(b5, 32) + Weight(b6, 64) + Weight(b7, 128)
  }

  predicate Has(b: bv8, m: bv8) {
    b & m != 0
  }

  predicate Odd(n: nat) {
    n % 2 == 1
  }

  /** The number a byte stands for. */
  function Value(b: bv8): nat {
    SumBits(Has(b, 1), Has(b, 2), Has(b, 4), Has(b, 8), Has(b, 16), Has(b, 32), Has(b, 64), Has(b, 128))
  }

  function Half(n: nat): nat {
    n / 2
  }

  /** `static_cast<uint8_t>(n)`. */
  function LowByte(n: nat): bv8 {
    var n1 := Half(n);
    var n2 := Half(n1);
    var n3 := Half(n2);
    var n4 := Half(n3);
    var n5 := Half(n4);
    var n6 := Half(n5);
    var n7 := Half(n6);
    FromBits(Odd(n), Odd(n1), Odd(n2), Odd(n3), Odd(n4), Odd(n5), Odd(n6), Odd(n7))
  }

  lemma BitsOf(b0: bool, b1: bool, b2: bool, b3: bool, b4: bool, b5: bool, b6: bool, b7: bool)
    ensures var b := FromBits(b0, b1, b2, b3, b4, b5, b6, b7);
            Has(b, 1) == b0 && Has(b, 2) == b1 && Has(b, 4) == b2 && Has(b, 8) == b3
            && Has(b, 16) == b4 && Has(b, 32) == b5 && Has(b, 64) == b6 && Has(b, 128) == b7
  {}

  lemma ByteOfBits(b: bv8)
    ensures FromBits(Has(b, 1), Has(b, 2), Has(b, 4), Has(b, 8), Has(b, 16), Has(b, 32), Has(b, 64), Has(b, 128)) == b
  {}

  lemma Halve(n: nat)
    ensures n == 2 * Half(n) + Weight(Odd(n), 1)
  {}

  lemma HalfOf(b: bool, m: nat)
    ensures Half(2 * m + Weight(b, 1)) == m && Odd(2 * m + Weight(b, 1)) == b
  {}

  lemma Residue(n: nat, q: nat, r: nat)
    requires n == 256 * q + r && r < 256
    ensures n % 256 == r
  {}

  lemma SumBound(b0: bool, b1: bool, b2: bool, b3: bool, b4: bool, b5: bool, b6: bool, b7: bool)
    ensures SumBits(b0, b1, b2, b3, b4, b5, b6, b7) < 256
  {}

  lemma ValueBound(b: bv8)
    ensures Value(b) < 256
  {
    hide Has;
    SumBound(Has(b, 1), Has(b, 2), Has(b, 4), Has(b, 8), Has(b, 16), Has(b, 32), Has(b, 64), Has(b, 128));
  }

  /** A byte keeps a number modulo 256. */
  lemma LowByteValue(n: nat)
    ensures Value(LowByte(n)) == n % 256
  {
    hide Has, Odd, Half, FromBits;
    var n1 := Half(n);
    var n2 := Half(n1);
    var n3 := Half(n2);
    var n4 := Half(n3);
    var n5 := Half(n4);
    var n6 := Half(n5);
    var n7 := Half(n6);
    Halve(n);
    Halve(n1);
    Halve(n2);
    Halve(n3);
    Halve(n4);
    Halve(n5);
    Halve(n6);
    Halve(n7);
    BitsOf(Odd(n), Odd(n1), Odd(n2), Odd(n3), Odd(n4), Odd(n5), Odd(n6), Odd(n7));
    SumBound(Odd(n), Odd(n1), Odd(n2), Odd(n3), Odd(n4), Odd(n5), Odd(n6), Odd(n7));
    Residue(n, Half(n7), SumBits(Odd(n), Odd(n1), Odd(n2), Odd(n3), Odd(n4), Odd(n5), Odd(n6), Odd(n7)));
  }

  lemma Horner(b0: bool, b1: bool, b2: bool, b3: bool, b4: bool, b5: bool, b6: bool, b7: bool)
    ensures var m7 := Weight(b7, 1);
            var m6 := 2 * m7 + Weight(b6, 1);
            var m5 := 2 * m6 + Weight(b5, 1);
            var m4 := 2 * m5 + Weight(b4, 1);
            var m3 := 2 * m4 + Weight(b3, 1);
            var m2 := 2 * m3 + Weight(b2, 1);
            var m1 := 2 * m2 + Weight(b1, 1);
            SumBits(b0, b1, b2, b3, b4, b5, b6, b7) == 2 * m1 + Weight(b0, 1)
  {}

  /** Different bytes stand for different numbers. */
  lemma ValueLow(b: bv8)
    ensures LowByte(Value(b)) == b
  {
    hide Has, FromBits, SumBits, Weight, Odd, Half;
    ByteOfBits(b);
    Horner(Has(b, 1), Has(b, 2), Has(b, 4), Has(b, 8), Has(b, 16), Has(b, 32), Has(b, 64), Has(b, 128));
    var m7 := Weight(Has(b, 128), 1);
    var m6 := 2 * m7 + Weight(Has(b, 64), 1);
    var m5 := 2 * m6 + Weight(Has(b, 32), 1);
    var m4 := 2 * m5 + Weight(Has(b, 16), 1);
    var m3 := 2 * m4 + Weight(Has(b, 8), 1);
    var m2 := 2 * m3 + Weight(Has(b, 4), 1);
    var m1 := 2 * m2 + Weight(Has(b, 2), 1);
    HalfOf(Has(b, 1), m1);
    HalfOf(Has(b, 2), m2);
    HalfOf(Has(b, 4), m3);
    HalfOf(Has(b, 8), m4);
    HalfOf(Has(b, 16), m5);
    HalfOf(Has(b, 32), m6);
    HalfOf(Has(b, 64), m7);
    HalfOf(Has(b, 128), 0);
  }

  /** Counting a byte down by one. */
  lemma ValueDown(b: bv8)
    requires b != 0
    ensures Value(b - 1) == Value(b) - 1
  {}

  lemma Extremes()
    ensures Value(0xFF) == 255 && Value(0) == 0
  {}
}
