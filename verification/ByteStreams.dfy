// SnapshotWriter and SnapshotReader (snapshot.h): the little-endian sink and the bounds-checked cursor.
module ByteStreams {
  import Words
  import opened ByteNumbers

  type Bytes = seq<bv8>

  // ----- Encodings ---------------------------------------------------------------------------

  function Byte(v: bv32, n: nat): bv8
    requires n < 4
  {
    if n == 0 then Words.Low8(v) else if n == 1 then Words.Low8(v >> 8) else if n == 2 then Words.Low8(v >> 16) else Words.Low8(v >> 24)
  }

  function Le32(v: bv32): (b: Bytes)
    ensures |b| == 4
  {
    [Byte(v, 0), Byte(v, 1), Byte(v, 2), Byte(v, 3)]
  }

  function LowHalf(v: bv64): bv32 {
    (v & 0xFFFF_FFFF) as bv32
  }

  function HighHalf(v: bv64): bv32 {
    (v >> 32) as bv32
  }

  function Le64(v: bv64): (b: Bytes)
    ensures |b| == 8
  {
    Le32(LowHalf(v)) + Le32(HighHalf(v))
  }

  function Join32(a: bv8, b: bv8, c: bv8, d: bv8): bv32 {
    (a as bv32) | ((b as bv32) << 8) | ((c as bv32) << 16) | ((d as bv32) << 24)
  }

  function Join64(lo: bv32, hi: bv32): bv64 {
    (lo as bv64) | ((hi as bv64) << 32)
  }

  lemma Joined32(v: bv32)
    ensures Join32(Byte(v, 0), Byte(v, 1), Byte(v, 2), Byte(v, 3)) == v
  {}

  lemma Joined64(v: bv64)
    ensures Join64(LowHalf(v), HighHalf(v)) == v
  {}

  // Sizes, taken to and from 32 bits byte by byte.

  /** `static_cast<uint32_t>(n)`. */
  function Size32(n: nat): bv32 {
    Join32(LowByte(n), LowByte(n / 0x100), LowByte(n / 0x1_0000), LowByte(n / 0x100_0000))
  }

  /** The number a 32-bit word stands for. */
  function Nat32(v: bv32): nat {
    Value(Byte(v, 0)) + 0x100 * Value(Byte(v, 1)) + 0x1_0000 * Value(Byte(v, 2)) + 0x100_0000 * Value(Byte(v, 3))
  }

  lemma JoinBytes(a: bv8, b: bv8, c: bv8, d: bv8)
    ensures var v := Join32(a, b, c, d); Byte(v, 0) == a && Byte(v, 1) == b && Byte(v, 2) == c && Byte(v, 3) == d
  {}

  lemma NatBound(v: bv32)
    ensures Nat32(v) < 0x1_0000_0000
  {
    hide Byte, Value;
    ValueBound(Byte(v, 0));
    ValueBound(Byte(v, 1));
    ValueBound(Byte(v, 2));
    ValueBound(Byte(v, 3));
  }

  lemma Digits32(n: nat)
    requires n < 0x1_0000_0000
    ensures n == n % 0x100 + 0x100 * (n / 0x100 % 0x100) + 0x1_0000 * (n / 0x1_0000 % 0x100) + 0x100_0000 * (n / 0x100_0000 % 0x100)
  {}

  /** A size below 2^32 survives its 32-bit field. */
  lemma SizeBack(n: nat)
    requires n < 0x1_0000_0000
    ensures Nat32(Size32(n)) == n
  {
    hide LowByte, Value, Byte, Join32;
    JoinBytes(LowByte(n), LowByte(n / 0x100), LowByte(n / 0x1_0000), LowByte(n / 0x100_0000));
    LowByteValue(n);
    LowByteValue(n / 0x100);
    LowByteValue(n / 0x1_0000);
    LowByteValue(n / 0x100_0000);
    Digits32(n);
  }

  function LeWords(ws: seq<bv32>): (b: Bytes)
    ensures |b| == 4 * |ws|
  {
    if ws == [] then [] else LeWords(ws[..|ws| - 1]) + Le32(ws[|ws| - 1])
  }

  // ----- Cursor ---------------------------------------------------------------------------------

  /** Where a reader stands; `ok` stays false once a read has run past the end. */
  datatype Cursor = Cursor(data: Bytes, at: nat, ok: bool)

  predicate Fits(c: Cursor, n: nat) {
    c.at + n <= |c.data|
  }

  function Take8(c: Cursor): (bv8, Cursor) {
    if Fits(c, 1) then (c.data[c.at], c.(at := c.at + 1)) else (0, c.(ok := false))
  }

  function Take32(c: Cursor): (bv32, Cursor) {
    var (b0, c0) := Take8(c);
    var (b1, c1) := Take8(c0);
    var (b2, c2) := Take8(c1);
    var (b3, c3) := Take8(c2);
    (Join32(b0, b1, b2, b3), c3)
  }

  function Take64(c: Cursor): (bv64, Cursor) {
    var (lo, c0) := Take32(c);
    var (hi, c1) := Take32(c0);
    (Join64(lo, hi), c1)
  }

  function Zeros(n: nat): (b: Bytes)
    ensures |b| == n
  {
    seq(n, i => 0)
  }

  function TakeBytes(c: Cursor, n: nat): (r: (Bytes, Cursor))
    ensures |r.0| == n
  {
    if Fits(c, n) then (c.data[c.at..c.at + n], c.(at := c.at + n)) else (Zeros(n), c.(ok := false))
  }

  function TakeWords(c: Cursor, n: nat): (r: (seq<bv32>, Cursor))
    ensures |r.0| == n
  {
    if n == 0 then ([], c) else
    var (ws, c0) := TakeWords(c, n - 1);
    var (w, c1) := Take32(c0);
    (ws + [w], c1)
  }

  // ----- Reading back what was written -----------------------------------------------------------

  /** The next bytes under the cursor. */
  predicate Next(c: Cursor, b: Bytes) {
    Fits(c, |b|) && c.data[c.at..c.at + |b|] == b
  }

  lemma NextSplit(c: Cursor, a: Bytes, b: Bytes)
    requires Next(c, a + b)
    ensures Next(c, a) && Next(c.(at := c.at + |a|), b)
  {
    var all := c.data[c.at..c.at + |a + b|];
    assert all[..|a|] == a && all[|a|..] == b;
  }

  lemma NextByte(c: Cursor, b: Bytes, i: nat)
    requires Next(c, b) && i < |b|
    ensures c.data[c.at + i] == b[i]
  {
    assert c.data[c.at..c.at + |b|][i] == b[i];
  }

  lemma ReadBack32(c: Cursor, v: bv32)
    requires Next(c, Le32(v))
    ensures Take32(c) == (v, c.(at := c.at + 4))
  {
    hide Byte, Join32;
    Joined32(v);
    NextByte(c, Le32(v), 0);
    NextByte(c, Le32(v), 1);
    NextByte(c, Le32(v), 2);
    NextByte(c, Le32(v), 3);
  }

  lemma ReadBack64(c: Cursor, v: bv64)
    requires Next(c, Le64(v))
    ensures Take64(c) == (v, c.(at := c.at + 8))
  {
    hide Le32, Take32, Join64, LowHalf, HighHalf;
    NextSplit(c, Le32(LowHalf(v)), Le32(HighHalf(v)));
    ReadBack32(c, LowHalf(v));
    ReadBack32(c.(at := c.at + 4), HighHalf(v));
    Joined64(v);
  }

  lemma ReadBackBytes(c: Cursor, b: Bytes)
    requires Next(c, b)
    ensures TakeBytes(c, |b|) == (b, c.(at := c.at + |b|))
  {}

  lemma {:induction false} ReadBackWords(c: Cursor, ws: seq<bv32>)
    requires Next(c, LeWords(ws))
    ensures TakeWords(c, |ws|) == (ws, c.(at := c.at + 4 * |ws|))
  {
    hide Le32, Take32;
    if ws != [] {
      var before := ws[..|ws| - 1];
      NextSplit(c, LeWords(before), Le32(ws[|ws| - 1]));
      ReadBackWords(c, before);
      ReadBack32(c.(at := c.at + 4 * |before|), ws[|ws| - 1]);
      assert before + [ws[|ws| - 1]] == ws;
    }
  }

  /** The sticky flag: a reader is ok exactly if nothing it read ran past the end. */
  lemma Ok32(c: Cursor)
    ensures Take32(c).1.ok <==> c.ok && Fits(c, 4)
    ensures Take32(c).1.data == c.data
    ensures Fits(c, 4) ==> Take32(c).1.at == c.at + 4
  {
    hide Join32;
  }

  // ----- Classes ---------------------------------------------------------------------------------

  class Writer {
    var buf: Bytes

    constructor ()
      ensures buf == []
    {
      buf := [];
    }

    method U8(v: bv8)
      modifies this
      ensures buf == old(buf) + [v]
    {
      buf := buf + [v];
    }

    method U32(v: bv32)
      modifies this
      ensures buf == old(buf) + Le32(v)
    {
      U8(Words.Low8(v));
      U8(Words.Low8(v >> 8));
      U8(Words.Low8(v >> 16));
      U8(Words.Low8(v >> 24));
    }

    method U64(v: bv64)
      modifies this
      ensures buf == old(buf) + Le64(v)
    {
      hide Le32, LowHalf, HighHalf;
      U32(LowHalf(v));
      U32(HighHalf(v));
    }

    method PutBytes(b: Bytes)
      modifies this
      ensures buf == old(buf) + b
    {
      buf := buf + b;
    }
  }

  class Reader {
    const data: Bytes
    var cur: nat
    var ok: bool

    function Value(): Cursor
      reads this
    {
      Cursor(data, cur, ok)
    }

    constructor (d: Bytes)
      ensures Value() == Cursor(d, 0, true)
    {
      data, cur, ok := d, 0, true;
    }

    method U8() returns (v: bv8)
      modifies this
      ensures (v, Value()) == Take8(old(Value()))
    {
      if cur + 1 > |data| {
        ok := false;
        return 0;
      }
      v := data[cur];
      cur := cur + 1;
    }

    method U32() returns (v: bv32)
      modifies this
      ensures (v, Value()) == Take32(old(Value()))
    {
      hide Join32;
      var b0 := U8();
      var b1 := U8();
      var b2 := U8();
      var b3 := U8();
      v := Join32(b0, b1, b2, b3);
    }

    method U64() returns (v: bv64)
      modifies this
      ensures (v, Value()) == Take64(old(Value()))
    {
      hide Join64, Take32;
      var lo := U32();
      var hi := U32();
      v := Join64(lo, hi);
    }

    method GetBytes(n: nat) returns (b: Bytes)
      modifies this
      ensures (b, Value()) == TakeBytes(old(Value()), n)
    {
      if cur + n > |data| {
        ok := false;
        return Zeros(n);
      }
      b := data[cur..cur + n];
      cur := cur + n;
    }

    method Words(n: nat) returns (ws: seq<bv32>)
      modifies this
      ensures (ws, Value()) == TakeWords(old(Value()), n)
    {
      ws := [];
      for i := 0 to n
        invariant (ws, Value()) == TakeWords(old(Value()), i)
      {
        var w := U32();
        ws := ws + [w];
      }
    }
  }
}
