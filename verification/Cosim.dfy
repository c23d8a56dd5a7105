// The co-simulation checkpoints (cosim.cpp): the chained hash, the reporting ring, and the two-thread
// lockstep protocol.
module Cosim {
  import opened ByteNumbers

  // ----- The chained hash --------------------------------------------------------------------

  /** A uint64_t, as the number it stands for. */
  type U64 = n: nat | n < 0x1_0000_0000_0000_0000

  const M64: nat := 0x1_0000_0000_0000_0000
  const FNV_OFFSET: U64 := 1469598103934665603
  const FNV_PRIME: U64 := 1099511628211
  /** The inverse of the prime modulo 2^64. */
  const FNV_INVERSE: U64 := 0xCE96_5057_AFF6_957B

  /** The wrapping product. */
  function Times(a: U64, b: U64): U64 {
    a * b % M64
  }

  /** `h ^= b`: only the low byte changes. */
  function XorByte(h: U64, b: bv8): U64 {
    XorBound(h, b);
    h / 0x100 * 0x100 + Value(LowByte(h) ^ b)
  }

  lemma XorBound(h: U64, b: bv8)
    ensures h / 0x100 * 0x100 + Value(LowByte(h) ^ b) < M64
  {
    ValueBound(LowByte(h) ^ b);
    hide Value;
  }

  function Mix(h: U64, b: bv8): U64 {
    Times(XorByte(h, b), FNV_PRIME)
  }

  /** `v >> (i * 8)`. */
  function ShiftedDown(v: nat, i: nat): nat {
    if i == 0 then v else ShiftedDown(v / 0x100, i - 1)
  }

  /** `static_cast<uint8_t>(v >> (i * 8))`. */
  function ByteAt(v: U64, i: nat): bv8
    requires i < 8
  {
    LowByte(ShiftedDown(v, i))
  }

  /** The first n turns of fold's loop. */
  function FoldBytes(h: U64, v: U64, n: nat): U64
    requires n <= 8
  {
    if n == 0 then h else Mix(FoldBytes(h, v, n - 1), ByteAt(v, n - 1))
  }

  function Fold(h: U64, v: U64): U64 {
    FoldBytes(h, v, 8)
  }

  method FoldLoop(h: U64, v: U64) returns (r: U64)
    ensures r == Fold(h, v)
  {
    hide Times, XorByte, ByteAt;
    r := h;
    for i := 0 to 8
      invariant r == FoldBytes(h, v, i)
    {
      r := XorByte(r, ByteAt(v, i));
      r := Times(r, FNV_PRIME);
    }
  }

  // Multiplication by the prime is undone by its inverse: their product is one more than a multiple of 2^64.

  lemma InverseIs(k: nat)
    requires k == (FNV_PRIME * FNV_INVERSE - 1) / M64
    ensures FNV_PRIME * FNV_INVERSE == 1 + k * M64
  {}

  lemma Quotient(n: nat)
    ensures n == n / M64 * M64 + n % M64
  {}

  lemma Distribute(a: int, b: int, c: int)
    ensures (a - b) * c == a * c - b * c
  {}

  lemma Residue(n: nat, x: nat, t: int)
    requires x < M64 && n == x + t * M64
    ensures n % M64 == x
  {}

  lemma PrimeUndone(x: U64)
    ensures Times(Times(x, FNV_PRIME), FNV_INVERSE) == x
  {
    var y, q := x * FNV_PRIME % M64, x * FNV_PRIME / M64;
    var k := (FNV_PRIME * FNV_INVERSE - 1) / M64;
    InverseIs(k);
    Quotient(x * FNV_PRIME);
    calc {
      y * FNV_INVERSE;
      (x * FNV_PRIME - q * M64) * FNV_INVERSE;
      { Distribute(x * FNV_PRIME, q * M64, FNV_INVERSE); }
      x * FNV_PRIME * FNV_INVERSE - q * M64 * FNV_INVERSE;
      { assert x * FNV_PRIME * FNV_INVERSE == x * (FNV_PRIME * FNV_INVERSE); }
      x * (1 + k * M64) - q * M64 * FNV_INVERSE;
      { assert x * (1 + k * M64) == x + x * k * M64; assert q * M64 * FNV_INVERSE == q * FNV_INVERSE * M64; }
      x + x * k * M64 - q * FNV_INVERSE * M64;
      { Distribute(x * k, q * FNV_INVERSE, M64); }
      x + (x * k - q * FNV_INVERSE) * M64;
    }
    Residue(y * FNV_INVERSE, x, x * k - q * FNV_INVERSE);
  }

  // An exclusive or with the same byte is undone by itself.

  lemma XorTwice(a: bv8, b: bv8)
    ensures (a ^ b) ^ b == a
  {}

  lemma LowOfSum(q: nat, r: nat)
    requires r < 0x100
    ensures (q * 0x100 + r) / 0x100 == q && (q * 0x100 + r) % 0x100 == r
  {}

  lemma LowByteOf(q: nat, b: bv8)
    ensures LowByte(q * 0x100 + Value(b)) == b && (q * 0x100 + Value(b)) / 0x100 == q
  {
    hide LowByte, Value;
    var n := q * 0x100 + Value(b);
    ValueBound(b);
    LowOfSum(q, Value(b));
    LowByteValue(n);
    ValueLow(b);
    ValueLow(LowByte(n));
  }

  lemma XorUndone(h: U64, b: bv8)
    ensures XorByte(XorByte(h, b), b) == h
  {
    hide LowByte, Value;
    LowByteOf(h / 0x100, LowByte(h) ^ b);
    XorTwice(LowByte(h), b);
    LowByteValue(h);
  }

  /** Multiplication by an odd constant, and exclusive or, can be undone. */
  lemma MixUndone(h: U64, b: bv8)
    ensures XorByte(Times(Mix(h, b), FNV_INVERSE), b) == h
  {
    hide Times, XorByte;
    PrimeUndone(XorByte(h, b));
    XorUndone(h, b);
  }

  lemma MixInjective(h: U64, k: U64, b: bv8)
    requires Mix(h, b) == Mix(k, b)
    ensures h == k
  {
    hide Mix, Times, XorByte;
    MixUndone(h, b);
    MixUndone(k, b);
  }

  /** Folding the same value keeps different chains apart. */
  lemma {:induction false} FoldInjective(h: U64, k: U64, v: U64, n: nat)
    requires n <= 8 && FoldBytes(h, v, n) == FoldBytes(k, v, n)
    ensures h == k
  {
    hide Mix, ByteAt;
    if n > 0 {
      MixInjective(FoldBytes(h, v, n - 1), FoldBytes(k, v, n - 1), ByteAt(v, n - 1));
      FoldInjective(h, k, v, n - 1);
    }
  }

  // ----- What the fold sees of the value ----------------------------------------------------------

  /** 256^i. */
  function Power(i: nat): nat {
    if i == 0 then 1 else 0x100 * Power(i - 1)
  }

  function Times256(digit: nat, i: nat): nat {
    digit * Power(i)
  }

  /** The number the low n bytes stand for. */
  function LowBytes(v: U64, n: nat): nat
    requires n <= 8
  {
    if n == 0 then 0 else LowBytes(v, n - 1) + Times256(Value(ByteAt(v, n - 1)), n - 1)
  }

  lemma {:induction false} ShiftTwice(v: nat, i: nat)
    ensures ShiftedDown(v, i + 1) == ShiftedDown(v, i) / 0x100
  {
    if i > 0 { ShiftTwice(v / 0x100, i - 1); }
  }

  lemma Split(s: nat, p: nat)
    ensures s * p == s % 0x100 * p + s / 0x100 * (0x100 * p)
  {
    assert s == s % 0x100 + s / 0x100 * 0x100;
    assert (s % 0x100 + s / 0x100 * 0x100) * p == s % 0x100 * p + s / 0x100 * 0x100 * p;
  }

  lemma {:induction false} BytesAndRest(v: U64, n: nat)
    requires n <= 8
    ensures v == LowBytes(v, n) + ShiftedDown(v, n) * Power(n)
  {
    hide LowByte, Value;
    if n > 0 {
      BytesAndRest(v, n - 1);
      ShiftTwice(v, n - 1);
      LowByteValue(ShiftedDown(v, n - 1));
      Split(ShiftedDown(v, n - 1), Power(n - 1));
    }
  }

  lemma {:induction false} ShiftedBound(v: nat, n: nat)
    requires v < Power(n)
    ensures ShiftedDown(v, n) == 0
  {
    if n > 0 {
      assert v / 0x100 < Power(n - 1);
      ShiftedBound(v / 0x100, n - 1);
    }
  }

  lemma EightBytes()
    ensures Power(8) == M64
  {
    assert Power(1) == 0x100 && Power(2) == 0x1_0000 && Power(3) == 0x100_0000 && Power(4) == 0x1_0000_0000;
    assert Power(5) == 0x100_0000_0000 && Power(6) == 0x1_0000_0000_0000 && Power(7) == 0x100_0000_0000_0000;
  }

  /** The eight bytes folded are the value's own, the sum of byte i times 256^i, so no two values share them. */
  lemma FoldedBytes(v: U64)
    ensures LowBytes(v, 8) == v
  {
    hide LowBytes, ShiftedDown;
    EightBytes();
    BytesAndRest(v, 8);
    ShiftedBound(v, 8);
  }

  lemma {:induction false} SameBytes(u: U64, v: U64, n: nat)
    requires n <= 8 && forall i: nat | i < n :: ByteAt(u, i) == ByteAt(v, i)
    ensures LowBytes(u, n) == LowBytes(v, n)
  {
    hide ByteAt, Value;
    if n > 0 { SameBytes(u, v, n - 1); }
  }

  /** Different values differ in some folded byte. */
  lemma SomeByteDiffers(u: U64, v: U64)
    requires u != v
    ensures exists i: nat :: i < 8 && ByteAt(u, i) != ByteAt(v, i)
  {
    hide ByteAt, LowBytes;
    FoldedBytes(u);
    FoldedBytes(v);
    if forall i: nat | i < 8 :: ByteAt(u, i) == ByteAt(v, i) { SameBytes(u, v, 8); }
  }

  lemma XorApart(a: bv8, b: bv8, c: bv8)
    ensures a ^ b == a ^ c <==> b == c
  {}

  /** Mixing different bytes into one chain gives different chains. */
  lemma MixSees(h: U64, b: bv8, c: bv8)
    requires b != c
    ensures Mix(h, b) != Mix(h, c)
  {
    hide Times, LowByte, Value;
    if Mix(h, b) == Mix(h, c) {
      PrimeUndone(XorByte(h, b));
      PrimeUndone(XorByte(h, c));
      LowByteOf(h / 0x100, LowByte(h) ^ b);
      LowByteOf(h / 0x100, LowByte(h) ^ c);
      XorApart(LowByte(h), b, c);
    }
  }

  /** The two values have the same bytes but for byte i. */
  ghost predicate DifferAt(u: U64, v: U64, i: nat) {
    i < 8 && ByteAt(u, i) != ByteAt(v, i) && forall j: nat | j < 8 && j != i :: ByteAt(u, j) == ByteAt(v, j)
  }

  lemma {:induction false} FoldSees(h: U64, u: U64, v: U64, i: nat, n: nat)
    requires DifferAt(u, v, i) && n <= 8
    ensures FoldBytes(h, u, n) == FoldBytes(h, v, n) <==> n <= i
  {
    hide Mix, ByteAt;
    if n > 0 {
      FoldSees(h, u, v, i, n - 1);
      if n - 1 == i {
        MixSees(FoldBytes(h, u, i), ByteAt(u, i), ByteAt(v, i));
      } else if n - 1 > i && FoldBytes(h, u, n) == FoldBytes(h, v, n) {
        MixInjective(FoldBytes(h, u, n - 1), FoldBytes(h, v, n - 1), ByteAt(u, n - 1));
      }
    }
  }

  datatype Entry = Entry(cp: nat, pc: bv32, hash: U64, cycle: U64)

  /** The chain after a sequence of checkpoints. */
  function Chain(h: U64, es: seq<Entry>): U64 {
    if es == [] then h
    else
      var e := es[|es| - 1];
      Fold(Fold(Chain(h, es[..|es| - 1]), e.cycle), e.hash)
  }

  lemma ChainGrows(es: seq<Entry>, e: Entry)
    ensures Chain(FNV_OFFSET, es + [e]) == Fold(Fold(Chain(FNV_OFFSET, es), e.cycle), e.hash)
  {
    hide FoldBytes;
    assert (es + [e])[..|es|] == es;
  }

  /** A divergence is never forgotten: chains that differ still differ after any identical checkpoints. */
  lemma {:induction false} DivergenceStays(h: U64, k: U64, es: seq<Entry>)
    requires h != k
    ensures Chain(h, es) != Chain(k, es)
  {
    hide FoldBytes;
    if es != [] {
      var before := es[..|es| - 1];
      var e := es[|es| - 1];
      DivergenceStays(h, k, before);
      if Chain(h, es) == Chain(k, es) {
        FoldInjective(Fold(Chain(h, before), e.cycle), Fold(Chain(k, before), e.cycle), e.hash, 8);
        FoldInjective(Chain(h, before), Chain(k, before), e.cycle, 8);
      }
    }
  }

  /** A checkpoint whose cycle or hash differs in one byte makes the chains differ, and whatever identical checkpoints
      follow, they stay different. */
  lemma CheckpointSeen(h: U64, e: Entry, f: Entry, i: nat, later: seq<Entry>)
    requires (DifferAt(e.cycle, f.cycle, i) && e.hash == f.hash) || (e.cycle == f.cycle && DifferAt(e.hash, f.hash, i))
    ensures Chain(Chain(h, [e]), later) != Chain(Chain(h, [f]), later)
  {
    hide FoldBytes, Chain, DifferAt;
    OneEntry(h, e);
    OneEntry(h, f);
    if DifferAt(e.cycle, f.cycle, i) && e.hash == f.hash {
      FoldSees(h, e.cycle, f.cycle, i, 8);
      DifferBound(e.cycle, f.cycle, i);
      if Chain(h, [e]) == Chain(h, [f]) { FoldInjective(Fold(h, e.cycle), Fold(h, f.cycle), e.hash, 8); }
    } else {
      FoldSees(Fold(h, e.cycle), e.hash, f.hash, i, 8);
      DifferBound(e.hash, f.hash, i);
    }
    DivergenceStays(Chain(h, [e]), Chain(h, [f]), later);
  }

  lemma DifferBound(u: U64, v: U64, i: nat)
    requires DifferAt(u, v, i)
    ensures i < 8
  {}

  lemma OneEntry(h: U64, e: Entry)
    ensures Chain(h, [e]) == Fold(Fold(h, e.cycle), e.hash)
  {
    hide FoldBytes;
    assert [e][..0] == [];
    assert Chain(h, []) == h;
  }

  lemma {:induction false} ChainJoins(h: U64, es: seq<Entry>, fs: seq<Entry>)
    ensures Chain(h, es + fs) == Chain(Chain(h, es), fs)
  {
    hide FoldBytes;
    if fs == [] {
      assert es + fs == es;
    } else {
      var n := |fs| - 1;
      ChainJoins(h, es, fs[..n]);
      assert (es + fs)[..|es| + n] == es + fs[..n];
      assert |es + fs| == |es| + n + 1 && (es + fs)[|es| + n] == fs[n];
    }
  }

  /** Two runs with the same checkpoints but for one, differing in a byte of its cycle or its hash, end with different
      chains. */
  lemma RunsTellApart(before: seq<Entry>, e: Entry, f: Entry, i: nat, later: seq<Entry>)
    requires (DifferAt(e.cycle, f.cycle, i) && e.hash == f.hash) || (e.cycle == f.cycle && DifferAt(e.hash, f.hash, i))
    ensures Chain(FNV_OFFSET, before + [e] + later) != Chain(FNV_OFFSET, before + [f] + later)
  {
    hide FoldBytes, Chain, DifferAt;
    ChainJoins(FNV_OFFSET, before + [e], later);
    ChainJoins(FNV_OFFSET, before + [f], later);
    ChainJoins(FNV_OFFSET, before, [e]);
    ChainJoins(FNV_OFFSET, before, [f]);
    CheckpointSeen(Chain(FNV_OFFSET, before), e, f, i, later);
  }

  // ----- The reporting ring -----------------------------------------------------------------------

  const RING: nat := 8192

  /** The guest side of the checkpoint state. */
  class Recorder {
    const ring: array<Entry>
    var cp: nat
    var chain: U64
    /** Every checkpoint so far. */
    ghost var history: seq<Entry>

    ghost const Repr: set<object> := {this, ring}

    ghost predicate Valid()
      reads Repr
    {
      && ring.Length == RING && cp == |history|
      && chain == Chain(FNV_OFFSET, history)
      && (forall k | 0 <= k < |history| :: history[k].cp == k + 1)
      && (forall k {:trigger history[k]} | 0 <= k < |history| && |history| - k <= RING :: ring[(k + 1) % RING] == history[k])
    }

    constructor ()
      ensures Valid() && fresh(Repr) && history == []
    {
      ring := new Entry[RING](i => Entry(0, 0, 0, 0));
      cp, chain, history := 0, FNV_OFFSET, [];
    }

    /** record_checkpoint, up to the budget test. */
    method Record(cycle: U64, pc: bv32, hash: U64)
      requires Valid()
      modifies Repr
      ensures Valid()
      ensures history == old(history) + [Entry(old(cp) + 1, pc, hash, cycle)]
    {
      hide FoldBytes, Chain;
      cp := cp + 1;
      var h := FoldLoop(chain, cycle);
      chain := FoldLoop(h, hash);
      var e := Entry(cp, pc, hash, cycle);
      forall k {:trigger history[k]} | 0 <= k < |history| && cp - (k + 1) < RING ensures (k + 1) % RING != cp % RING {
        SlotsApart(cp, k + 1);
      }
      ring[cp % RING] := e;
      ghost var was := history;
      history := was + [e];
      ChainGrows(was, e);
    }

    /** The "window" command: the last n checkpoints, oldest first, clipped to what the ring and the run hold. */
    method Window(n: nat) returns (rows: seq<Entry>)
      requires Valid()
      ensures var count := if n > RING then (if RING > cp then cp else RING) else if n > cp then cp else n;
              rows == history[|history| - count..]
    {
      hide Chain;
      var count := if n > RING then RING else n;
      if count > cp { count := cp; }
      rows := [];
      for i := 0 to count
        invariant rows == history[|history| - count..|history| - count + i]
      {
        var k := cp - (count - 1 - i);
        rows := rows + [ring[k % RING]];
        ghost var j := k - 1;
        assert history[j] == ring[(j + 1) % RING];
        assert history[|history| - count..|history| - count + i] + [history[j]] == history[|history| - count..|history| - count + i + 1];
      }
      assert history[|history| - count..|history| - count + count] == history[|history| - count..];
    }
  }

  /** Two checkpoints less than a ring apart live in different slots. */
  lemma SlotsApart(cp: nat, k: nat)
    requires k < cp && cp - k < RING
    ensures k % RING != cp % RING
  {
    assert k % 8192 != cp % 8192;
  }
}
