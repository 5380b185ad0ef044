/** The frame check octet: crc.py's bit-serial loop, and what it can detect.
    The register is eight bits wide, so the source's `& 0xFF` is the width of `bv8`. */
module Crc {
  import opened Bytes

  const INITIAL: bv8 := 0xFF

  /** One turn of the inner loop: multiply the register by x modulo x^8 + x^7 + x^2 + 1. */
  function ShiftBit(c: bv8): bv8 {
    if c & 0x80 != 0 then (c << 1) ^ 0x85 else c << 1
  }

  function ShiftBits(c: bv8, n: nat): bv8 {
    if n == 0 then c else ShiftBit(ShiftBits(c, n - 1))
  }

  function ShiftByte(c: bv8): bv8 {
    ShiftBit(ShiftBit(ShiftBit(ShiftBit(ShiftBit(ShiftBit(ShiftBit(ShiftBit(c))))))))
  }

  function Xor(a: bv8, b: bv8): bv8 { a ^ b }

  function Feed(c: bv8, b: byte): bv8 { ShiftByte(Xor(c, Bits(b))) }

  /** The register after feeding `data` to a register that holds `c`. */
  function Register(c: bv8, data: seq<byte>): bv8
    decreases |data|
  {
    if data == [] then c else Register(Feed(c, data[0]), data[1..])
  }

  function Checksum(data: seq<byte>): byte { Octet(Register(INITIAL, data)) }

  method Crc8(data: seq<byte>) returns (crc: byte)
    ensures crc == Checksum(data)
  {
    var register := INITIAL;
    for i := 0 to |data|
      invariant Register(register, data[i..]) == Register(INITIAL, data)
    {
      var fed := Xor(register, Bits(data[i]));
      register := fed;
      for k := 0 to 8
        invariant register == ShiftBits(fed, k)
      {
        if register & 0x80 != 0 {
          register := (register << 1) ^ 0x85;
        } else {
          register := register << 1;
        }
      }
      EightShifts(fed);
      assert data[i..][1..] == data[i + 1..];
    }
    assert data[|data|..] == [];
    crc := Octet(register);
  }

  lemma EightShifts(c: bv8)
    ensures ShiftBits(c, 8) == ShiftByte(c)
  {
    var c2 := ShiftBits(c, 2);
    assert c2 == ShiftBit(ShiftBit(c)) by { assert ShiftBits(c, 1) == ShiftBit(c); }
    var c4 := ShiftBits(c, 4);
    assert c4 == ShiftBit(ShiftBit(c2)) by { assert ShiftBits(c, 3) == ShiftBit(c2); }
    var c6 := ShiftBits(c, 6);
    assert c6 == ShiftBit(ShiftBit(c4)) by { assert ShiftBits(c, 5) == ShiftBit(c4); }
    assert ShiftBits(c, 7) == ShiftBit(c6);
  }

  // ----- A known value -----

  lemma RegisterOneMore(c: bv8, first: byte, rest: seq<byte>)
    ensures Register(c, [first] + rest) == Register(Feed(c, first), rest)
  {
    assert ([first] + rest)[1..] == rest;
  }

  /** The register before the first octet, and the check octet of a login frame. */
  lemma KnownChecksum()
    ensures Checksum([]) == 0xFF
    ensures Checksum([0x74, 0x43, 10, 0, 1, 0x31, 0x32, 0x33, 0x34]) == 0x34
  {
    assert Feed(0xFF, 0x74) == 0x30;
    assert Feed(0x30, 0x43) == 0x2C;
    assert Feed(0x2C, 0xa) == 0x57;
    assert Feed(0x57, 0x0) == 0xF4;
    assert Feed(0xF4, 0x1) == 0xB1;
    assert Feed(0xB1, 0x31) == 0x89;
    assert Feed(0x89, 0x32) == 0x90;
    assert Feed(0x90, 0x33) == 0xC0;
    assert Feed(0xC0, 0x34) == 0x34;
    hide Feed;
    RegisterOneMore(0xFF, 0x74, [0x43, 10, 0, 1, 0x31, 0x32, 0x33, 0x34]);
    RegisterOneMore(0x30, 0x43, [10, 0, 1, 0x31, 0x32, 0x33, 0x34]);
    RegisterOneMore(0x2C, 0xa, [0, 1, 0x31, 0x32, 0x33, 0x34]);
    RegisterOneMore(0x57, 0x0, [1, 0x31, 0x32, 0x33, 0x34]);
    RegisterOneMore(0xF4, 0x1, [0x31, 0x32, 0x33, 0x34]);
    RegisterOneMore(0xB1, 0x31, [0x32, 0x33, 0x34]);
    RegisterOneMore(0x89, 0x32, [0x33, 0x34]);
    RegisterOneMore(0x90, 0x33, [0x34]);
    RegisterOneMore(0xC0, 0x34, []);
    assert [0x74] + [0x43, 10, 0, 1, 0x31, 0x32, 0x33, 0x34] == [0x74, 0x43, 10, 0, 1, 0x31, 0x32, 0x33, 0x34];
    assert [0x43] + [10, 0, 1, 0x31, 0x32, 0x33, 0x34] == [0x43, 10, 0, 1, 0x31, 0x32, 0x33, 0x34];
    assert [0xa] + [0, 1, 0x31, 0x32, 0x33, 0x34] == [10, 0, 1, 0x31, 0x32, 0x33, 0x34];
    assert [0x0] + [1, 0x31, 0x32, 0x33, 0x34] == [0, 1, 0x31, 0x32, 0x33, 0x34];
    assert [0x1] + [0x31, 0x32, 0x33, 0x34] == [1, 0x31, 0x32, 0x33, 0x34];
    assert [0x31] + [0x32, 0x33, 0x34] == [0x31, 0x32, 0x33, 0x34];
    assert [0x32] + [0x33, 0x34] == [0x32, 0x33, 0x34];
    assert [0x33] + [0x34] == [0x33, 0x34];
    assert [0x34] + [] == [0x34];
  }

  // ----- The register is affine in what is fed to it -----

  lemma XorShuffle(a: bv8, b: bv8, x: bv8, y: bv8)
    ensures Xor(Xor(a, b), Xor(x, y)) == Xor(Xor(a, x), Xor(b, y))
  {
    XorReorders(a, b, Xor(x, y));
    XorReorders(b, x, y);
    XorReorders(x, b, y);
    XorReorders(a, x, Xor(b, y));
    hide Xor;
  }

  lemma XorReorders(a: bv8, b: bv8, c: bv8)
    ensures Xor(Xor(a, b), c) == Xor(a, Xor(b, c))
    ensures Xor(a, b) == Xor(b, a)
  {
  }

  lemma DoublingIsLinear(a: bv8, b: bv8)
    ensures (a ^ b) << 1 == (a << 1) ^ (b << 1)
    ensures (a ^ b) & 0x80 == (a & 0x80) ^ (b & 0x80)
  {
  }

  lemma TopBit(a: bv8)
    ensures a & 0x80 == 0 || a & 0x80 == 0x80
  {
  }

  lemma Regroup(a: bv8, b: bv8, g: bv8)
    ensures (a ^ b) ^ g == (a ^ g) ^ b
    ensures (a ^ b) ^ g == a ^ (b ^ g)
    ensures (a ^ g) ^ (b ^ g) == a ^ b
  {
  }

  lemma ShiftBitIsLinear(a: bv8, b: bv8)
    ensures ShiftBit(Xor(a, b)) == Xor(ShiftBit(a), ShiftBit(b))
  {
    DoublingIsLinear(a, b);
    TopBit(a);
    TopBit(b);
    Regroup(a << 1, b << 1, 0x85);
  }

  lemma {:induction false} ShiftBitsIsLinear(a: bv8, b: bv8, n: nat)
    ensures ShiftBits(Xor(a, b), n) == Xor(ShiftBits(a, n), ShiftBits(b, n))
  {
    hide ShiftBit, Xor;
    if n > 0 {
      ShiftBitsIsLinear(a, b, n - 1);
      ShiftBitIsLinear(ShiftBits(a, n - 1), ShiftBits(b, n - 1));
    }
  }

  lemma ShiftByteIsLinear(a: bv8, b: bv8)
    ensures ShiftByte(Xor(a, b)) == Xor(ShiftByte(a), ShiftByte(b))
  {
    hide ShiftBits, ShiftByte, Xor;
    ShiftBitsIsLinear(a, b, 8);
    EightShifts(a);
    EightShifts(b);
    EightShifts(Xor(a, b));
  }

  /** The octets of `data` with the bits of `error` inverted. */
  function Flip(data: seq<byte>, error: seq<byte>): (r: seq<byte>)
    requires |data| == |error|
    ensures |r| == |data|
  {
    seq(|data|, i requires 0 <= i < |data| => Octet(Xor(Bits(data[i]), Bits(error[i]))))
  }

  lemma FlipKeepsIffZero(data: seq<byte>, error: seq<byte>, i: nat)
    requires |data| == |error| && i < |data|
    ensures Flip(data, error)[i] == data[i] <==> error[i] == 0
  {
    hide Bits, Octet;
    var (x, y) := (data[i], error[i]);
    BitsOfOctet(Xor(Bits(x), Bits(y)));
    OctetOfBits(x);
    OctetOfBits(y);
    ZeroOctet();
    assert Xor(Bits(x), Bits(y)) == Bits(x) <==> Bits(y) == 0;
  }

  lemma FeedIsLinear(a: bv8, b: bv8, x: byte, y: byte)
    ensures Feed(Xor(a, b), Octet(Xor(Bits(x), Bits(y)))) == Xor(Feed(a, x), Feed(b, y))
  {
    hide ShiftByte, Bits, Octet, Xor;
    BitsOfOctet(Xor(Bits(x), Bits(y)));
    XorShuffle(a, b, Bits(x), Bits(y));
    ShiftByteIsLinear(Xor(a, Bits(x)), Xor(b, Bits(y)));
  }

  lemma {:induction false} RegisterIsLinear(a: bv8, b: bv8, data: seq<byte>, error: seq<byte>)
    requires |data| == |error|
    ensures Register(Xor(a, b), Flip(data, error)) == Xor(Register(a, data), Register(b, error))
    decreases |data|
  {
    hide Feed, Octet, Bits, Xor;
    if data != [] {
      assert Flip(data, error)[1..] == Flip(data[1..], error[1..]);
      FeedIsLinear(a, b, data[0], error[0]);
      RegisterIsLinear(Feed(a, data[0]), Feed(b, error[0]), data[1..], error[1..]);
    }
  }

  lemma {:induction false} RegisterAppend(c: bv8, s: seq<byte>, t: seq<byte>)
    ensures Register(c, s + t) == Register(Register(c, s), t)
    decreases |s|
  {
    hide Feed;
    if s == [] {
      assert s + t == t;
    } else {
      assert (s + t)[1..] == s[1..] + t;
      RegisterAppend(Feed(c, s[0]), s[1..], t);
    }
  }

  lemma RegisterOfOne(c: bv8, b: byte)
    ensures Register(c, [b]) == Feed(c, b)
  {
    hide Feed;
    assert [b][1..] == [];
  }

  // ----- Codewords: octets that end in their own checksum -----

  predicate Sealed(s: seq<byte>) {
    s != [] && s[|s| - 1] == Checksum(s[..|s| - 1])
  }

  lemma ShiftByteKernel(c: bv8)
    ensures ShiftByte(c) == 0 <==> c == 0
  {
  }

  lemma FeedClears(c: bv8, b: byte)
    ensures Feed(c, b) == 0 <==> b == Octet(c)
  {
    hide ShiftByte, Bits, Octet;
    ShiftByteKernel(Xor(c, Bits(b)));
    OctetOfBits(b);
    BitsOfOctet(c);
    assert Xor(c, Bits(b)) == 0 <==> c == Bits(b);
  }

  lemma SealedIffRegisterClears(s: seq<byte>)
    requires s != []
    ensures Sealed(s) <==> Register(INITIAL, s) == 0
  {
    hide Feed, Octet;
    var front, last := s[..|s| - 1], s[|s| - 1];
    assert s == front + [last];
    RegisterAppend(INITIAL, front, [last]);
    RegisterOfOne(Register(INITIAL, front), last);
    FeedClears(Register(INITIAL, front), last);
  }

  /** Corruption goes unnoticed exactly when the flipped bits alone clear a zeroed register:
      neither the message nor its length matters. */
  lemma UndetectedIffErrorClears(s: seq<byte>, error: seq<byte>)
    requires |s| == |error| && Sealed(s)
    ensures Sealed(Flip(s, error)) <==> Register(0, error) == 0
  {
    hide Flip, Register;
    SealedIffRegisterClears(s);
    SealedIffRegisterClears(Flip(s, error));
    RegisterIsLinear(INITIAL, 0, s, error);
  }

  // ----- Odd numbers of flipped bits -----

  /** Bit `i` of an octet, counted from the most significant. */
  predicate BitOn(v: bv8, i: nat)
    requires i < 8
  {
    v & (0x80 >> (i as bv8)) != 0
  }

  function BitValue(v: bv8, mask: bv8): nat { if v & mask != 0 then 1 else 0 }

  function Weight(v: bv8): nat {
    BitValue(v, 0x80) + BitValue(v, 0x40) + BitValue(v, 0x20) + BitValue(v, 0x10)
    + BitValue(v, 0x08) + BitValue(v, 0x04) + BitValue(v, 0x02) + BitValue(v, 0x01)
  }

  /** How many bits of `s` are set. */
  function TotalWeight(s: seq<byte>): nat {
    if s == [] then 0 else Weight(Bits(s[0])) + TotalWeight(s[1..])
  }

  lemma BitValueOfXor(a: bv8, b: bv8, mask: bv8)
    requires mask & (mask - 1) == 0
    ensures BitValue(a ^ b, mask) == BitValue(a, mask) + BitValue(b, mask) - 2 * BitValue(a & b, mask)
  {
  }

  lemma DropEven(m: int, n: int, k: int)
    requires m == n - 2 * k
    ensures m % 2 == n % 2
  {
  }

  lemma WeightOfXor(a: bv8, b: bv8)
    ensures Weight(Xor(a, b)) % 2 == (Weight(a) + Weight(b)) % 2
  {
    hide BitValue;
    BitValueOfXor(a, b, 0x80); BitValueOfXor(a, b, 0x40);
    BitValueOfXor(a, b, 0x20); BitValueOfXor(a, b, 0x10);
    BitValueOfXor(a, b, 0x08); BitValueOfXor(a, b, 0x04);
    BitValueOfXor(a, b, 0x02); BitValueOfXor(a, b, 0x01);
    DropEven(Weight(Xor(a, b)), Weight(a) + Weight(b), Weight(a & b));
  }

  lemma ShiftBitKeepsParity(c: bv8)
    ensures Weight(ShiftBit(c)) % 2 == Weight(c) % 2
  {
  }

  lemma ShiftByteKeepsParity(c: bv8)
    ensures Weight(ShiftByte(c)) % 2 == Weight(c) % 2
  {
    var c1 := ShiftBit(c);  ShiftBitKeepsParity(c);
    var c2 := ShiftBit(c1); ShiftBitKeepsParity(c1);
    var c3 := ShiftBit(c2); ShiftBitKeepsParity(c2);
    var c4 := ShiftBit(c3); ShiftBitKeepsParity(c3);
    var c5 := ShiftBit(c4); ShiftBitKeepsParity(c4);
    var c6 := ShiftBit(c5); ShiftBitKeepsParity(c5);
    var c7 := ShiftBit(c6); ShiftBitKeepsParity(c6);
    ShiftBitKeepsParity(c7);
  }

  lemma FeedParity(c: bv8, b: byte)
    ensures Weight(Feed(c, b)) % 2 == (Weight(c) + Weight(Bits(b))) % 2
  {
    hide Weight, ShiftByte, Bits, Xor;
    WeightOfXor(c, Bits(b));
    ShiftByteKeepsParity(Xor(c, Bits(b)));
  }

  lemma AddParity(a: nat, b: nat, k: nat)
    requires a % 2 == b % 2
    ensures (a + k) % 2 == (b + k) % 2
  {
  }

  lemma {:induction false} RegisterKeepsParity(c: bv8, s: seq<byte>)
    ensures Weight(Register(c, s)) % 2 == (Weight(c) + TotalWeight(s)) % 2
    decreases |s|
  {
    hide Weight, Feed, Bits;
    if s != [] {
      FeedParity(c, s[0]);
      RegisterKeepsParity(Feed(c, s[0]), s[1..]);
      AddParity(Weight(Feed(c, s[0])), Weight(c) + Weight(Bits(s[0])), TotalWeight(s[1..]));
    }
  }

  lemma OddErrorNeverClears(error: seq<byte>)
    requires TotalWeight(error) % 2 == 1
    ensures Register(0, error) != 0
  {
    hide Register, TotalWeight;
    RegisterKeepsParity(0, error);
  }

  // ----- Bursts -----

  /** Bit `k` of a string of octets, in transmission order. */
  predicate BitSet(s: seq<byte>, k: nat)
    requires k < 8 * |s|
  {
    BitOn(Bits(s[k / 8]), k % 8)
  }

  /** Some bit is set, and all that are set lie among the eight that start at bit `p`. */
  ghost predicate Burst(s: seq<byte>, p: nat) {
    && (exists k: nat :: k < 8 * |s| && BitSet(s, k))
    && (forall k: nat :: k < 8 * |s| && BitSet(s, k) ==> p <= k < p + 8)
  }

  lemma FeedZero(c: bv8)
    ensures Feed(c, 0) == ShiftByte(c)
    ensures Feed(c, 0) == 0 <==> c == 0
  {
    hide ShiftByte;
    assert Bits(0) == 0;
    assert c ^ 0 == c;
    ShiftByteKernel(c);
  }

  /** Zero octets move the register without ever clearing or filling it. */
  lemma {:induction false} ZerosPreserveClear(c: bv8, s: seq<byte>)
    requires forall i :: 0 <= i < |s| ==> s[i] == 0
    ensures Register(c, s) == 0 <==> c == 0
    decreases |s|
  {
    hide Feed, ShiftByte;
    if s != [] {
      FeedZero(c);
      ZerosPreserveClear(Feed(c, s[0]), s[1..]);
    }
  }

  lemma AnOctetWithoutBitsIsZero(b: byte)
    requires forall i: nat :: i < 8 ==> !BitOn(Bits(b), i)
    ensures b == 0
  {
    assert !BitOn(Bits(b), 0) && !BitOn(Bits(b), 1) && !BitOn(Bits(b), 2) && !BitOn(Bits(b), 3);
    assert !BitOn(Bits(b), 4) && !BitOn(Bits(b), 5) && !BitOn(Bits(b), 6) && !BitOn(Bits(b), 7);
    assert Bits(b) == 0;
    OctetOfBits(b);
  }

  /** Bits from position `r` on in one octet, then bits before position `r` in the next. */
  lemma NeighboursNeverCancel(a: bv8, b: bv8, r: nat)
    requires r < 8
    requires forall i: nat :: i < r ==> !BitOn(a, i)
    requires forall i: nat :: r <= i < 8 ==> !BitOn(b, i)
    requires a != 0 || b != 0
    ensures ShiftByte(a) ^ b != 0
  {
    assert r > 0 ==> !BitOn(a, 0); assert r > 1 ==> !BitOn(a, 1);
    assert r > 2 ==> !BitOn(a, 2); assert r > 3 ==> !BitOn(a, 3);
    assert r > 4 ==> !BitOn(a, 4); assert r > 5 ==> !BitOn(a, 5);
    assert r > 6 ==> !BitOn(a, 6);
    assert r <= 0 ==> !BitOn(b, 0); assert r <= 1 ==> !BitOn(b, 1);
    assert r <= 2 ==> !BitOn(b, 2); assert r <= 3 ==> !BitOn(b, 3);
    assert r <= 4 ==> !BitOn(b, 4); assert r <= 5 ==> !BitOn(b, 5);
    assert r <= 6 ==> !BitOn(b, 6); assert !BitOn(b, 7);
  }

  lemma OctetOutsideBurstIsZero(s: seq<byte>, p: nat, i: nat)
    requires Burst(s, p) && i < |s| && i != p / 8 && i != p / 8 + 1
    ensures s[i] == 0
  {
    forall j: nat | j < 8 ensures !BitOn(Bits(s[i]), j) {
      var k := 8 * i + j;
      assert k / 8 == i && k % 8 == j;
      assert !BitSet(s, k);
    }
    AnOctetWithoutBitsIsZero(s[i]);
  }

  /** What the two octets a burst can touch look like; the second may lie past the end. */
  lemma BurstShape(s: seq<byte>, p: nat) returns (q: nat, a: bv8, b: bv8)
    requires Burst(s, p)
    ensures q < |s| && a == Bits(s[q]) && b == (if q + 1 < |s| then Bits(s[q + 1]) else 0)
    ensures forall i :: 0 <= i < |s| && i != q && i != q + 1 ==> s[i] == 0
    ensures ShiftByte(a) ^ b != 0
  {
    q := p / 8;
    var k: nat :| k < 8 * |s| && BitSet(s, k);
    assert q <= k / 8 <= q + 1;
    a, b := Bits(s[q]), if q + 1 < |s| then Bits(s[q + 1]) else 0;
    forall i | 0 <= i < |s| && i != q && i != q + 1 ensures s[i] == 0 {
      OctetOutsideBurstIsZero(s, p, i);
    }
    var r := p % 8;
    forall j: nat | j < r ensures !BitOn(a, j) {
      var at := 8 * q + j;
      assert at / 8 == q && at % 8 == j;
      assert !BitSet(s, at);
    }
    forall j: nat | r <= j < 8 ensures !BitOn(b, j) {
      if q + 1 < |s| {
        var at := 8 * (q + 1) + j;
        assert at / 8 == q + 1 && at % 8 == j;
        assert !BitSet(s, at);
      }
    }
    assert BitOn(if k / 8 == q then a else b, k % 8);
    assert a != 0 || b != 0;
    NeighboursNeverCancel(a, b, r);
  }

  lemma {:induction false} RegisterOfTwo(c: bv8, s: seq<byte>)
    requires |s| >= 2
    ensures Register(c, s) == Register(Feed(Feed(c, s[0]), s[1]), s[2..])
  {
    hide Feed;
    assert s[1..][1..] == s[2..];
  }

  lemma FeedFromClear(a: byte, b: byte)
    ensures Feed(0, a) == ShiftByte(Bits(a))
    ensures Feed(Feed(0, a), b) == 0 <==> ShiftByte(Bits(a)) ^ Bits(b) == 0
  {
    hide ShiftByte, Bits;
    assert 0 ^ Bits(a) == Bits(a);
    ShiftByteKernel(ShiftByte(Bits(a)) ^ Bits(b));
  }

  lemma XorZero(a: bv8)
    ensures a ^ 0 == a
  {
  }

  lemma BurstNeverClears(error: seq<byte>, p: nat)
    requires Burst(error, p)
    ensures Register(0, error) != 0
  {
    hide Burst, ShiftByte, Bits, Feed;
    var q, a, b := BurstShape(error, p);
    var before, rest := error[..q], error[q..];
    assert error == before + rest;
    RegisterAppend(0, before, rest);
    ZerosPreserveClear(0, before);
    if |rest| == 1 {
      assert rest == [error[q]];
      RegisterOfOne(0, error[q]);
      FeedFromClear(error[q], 0);
      XorZero(ShiftByte(a));
    } else {
      RegisterOfTwo(0, rest);
      FeedFromClear(rest[0], rest[1]);
      ZerosPreserveClear(Feed(Feed(0, rest[0]), rest[1]), rest[2..]);
    }
  }

  /** Nine bits is where the guarantee ends: the generator itself is a nine-bit burst of even weight. */
  lemma NineBitBurstCanClear()
    ensures var error := [0x01 as byte, 0x85]; Register(0, error) == 0 && TotalWeight(error) == 4
  {
    var error := [0x01 as byte, 0x85];
    RegisterOfTwo(0, error);
    assert error[2..] == [];
    BitsOfOctet(0x01);
    BitsOfOctet(0x85);
    assert ShiftByte(0 ^ 0x01) == 0x85;
    assert ShiftByte(0x85 ^ 0x85) == 0;
    assert error[1..] == [0x85 as byte] && error[1..][1..] == [];
  }

  // ----- Two flipped bits -----

  /** The octet with only bit `r` set, counted from the most significant. */
  function OneBit(r: nat): byte
    requires r < 8
  {
    Octet(0x80 >> (r as bv8))
  }

  /** `n` octets with only bit `k` set. */
  function Single(n: nat, k: nat): (r: seq<byte>)
    requires k < 8 * n
    ensures |r| == n
  {
    seq(n, i requires 0 <= i < n => if i == k / 8 then OneBit(k % 8) else 0)
  }

  /** `n` octets with only bits `j` and `k` set. */
  function Double(n: nat, j: nat, k: nat): (r: seq<byte>)
    requires j < k < 8 * n
    ensures |r| == n
  {
    Flip(Single(n, j), Single(n, k))
  }

  lemma {:induction false} ShiftBitsAdd(c: bv8, m: nat, n: nat)
    ensures ShiftBits(ShiftBits(c, m), n) == ShiftBits(c, m + n)
  {
    hide ShiftBit;
    if n > 0 {
      ShiftBitsAdd(c, m, n - 1);
    }
  }

  lemma ShiftBitInjective(a: bv8, b: bv8)
    ensures ShiftBit(a) == ShiftBit(b) <==> a == b
  {
  }

  lemma {:induction false} ShiftBitsInjective(a: bv8, b: bv8, n: nat)
    ensures ShiftBits(a, n) == ShiftBits(b, n) <==> a == b
  {
    hide ShiftBit;
    if n > 0 {
      ShiftBitsInjective(a, b, n - 1);
      ShiftBitInjective(ShiftBits(a, n - 1), ShiftBits(b, n - 1));
    }
  }

  lemma {:induction false} ZerosShift(c: bv8, s: seq<byte>)
    requires forall i :: 0 <= i < |s| ==> s[i] == 0
    ensures Register(c, s) == ShiftBits(c, 8 * |s|)
    decreases |s|
  {
    hide ShiftByte, Feed, ShiftBits;
    NoShift(c);
    if s != [] {
      FeedZero(c);
      EightShifts(c);
      ZerosShift(ShiftByte(c), s[1..]);
      ShiftBitsAdd(c, 8, 8 * |s[1..]|);
    }
  }

  lemma NoShift(c: bv8)
    ensures ShiftBits(c, 0) == c
  {
  }

  lemma SingleBitIsShiftedOne(r: nat)
    requires r < 8
    ensures (0x80 as bv8) >> (r as bv8) == ShiftBits(1, 7 - r)
  {
    assert ShiftBits(1, 1) == 2;
    assert ShiftBits(1, 2) == 4;
    assert ShiftBits(1, 3) == 8;
    assert ShiftBits(1, 4) == 16;
    assert ShiftBits(1, 5) == 32;
    assert ShiftBits(1, 6) == 64;
    assert ShiftBits(1, 7) == 128;
  }

  lemma SingleRegister(n: nat, k: nat)
    requires k < 8 * n
    ensures Register(0, Single(n, k)) == ShiftBits(1, 8 * n + 7 - k)
  {
    hide ShiftByte, ShiftBits, Feed, Bits, Octet;
    var s, q, r := Single(n, k), k / 8, k % 8;
    var before, after := s[..q], s[q + 1..];
    var bit := 0x80 >> (r as bv8);
    assert s == before + ([s[q]] + after);
    RegisterAppend(0, before, [s[q]] + after);
    ZerosPreserveClear(0, before);
    RegisterAppend(0, [s[q]], after);
    RegisterOfOne(0, s[q]);
    FeedFromClear(s[q], 0);
    BitsOfOctet(bit);
    EightShifts(bit);
    SingleBitIsShiftedOne(r);
    ZerosShift(ShiftByte(bit), after);
    ShiftBitsAdd(1, 7 - r, 8);
    ShiftBitsAdd(1, 15 - r, 8 * |after|);
    assert 15 - r + 8 * |after| == 8 * n + 7 - k;
  }

  const PERIOD: nat := 127

  lemma EightMoreShifts(c: bv8, m: nat) returns (d: bv8)
    requires c == ShiftBits(1, m)
    ensures d == ShiftByte(c) && d == ShiftBits(1, m + 8)
  {
    hide ShiftBits, ShiftByte;
    d := ShiftByte(c);
    EightShifts(c);
    ShiftBitsAdd(1, m, 8);
  }

  /** The register's cycle through 1 is 127 shifts long. */
  lemma OneReturns()
    ensures ShiftBits(1, PERIOD) == 1
  {
    hide ShiftBits;
    NoShift(1);
    var c := EightMoreShifts(1, 0);   assert c == 0x85;
    c := EightMoreShifts(c, 8);       assert c == 0x97;
    c := EightMoreShifts(c, 16);      assert c == 0xFB;
    c := EightMoreShifts(c, 24);      assert c == 0x16;
    c := EightMoreShifts(c, 32);      assert c == 0xF7;
    c := EightMoreShifts(c, 40);      assert c == 0x3E;
    c := EightMoreShifts(c, 48);      assert c == 0x07;
    c := EightMoreShifts(c, 56);      assert c == 0x91;
    c := EightMoreShifts(c, 64);      assert c == 0xEF;
    c := EightMoreShifts(c, 72);      assert c == 0x6E;
    c := EightMoreShifts(c, 80);      assert c == 0x62;
    c := EightMoreShifts(c, 88);      assert c == 0x4A;
    c := EightMoreShifts(c, 96);      assert c == 0xBA;
    c := EightMoreShifts(c, 104);     assert c == 0x15;
    c := EightMoreShifts(c, 112);     assert c == 0xFD;
    c := EightMoreShifts(c, 120);     assert c == 0x02;
    OneShift(ShiftBits(1, PERIOD));
    ShiftBitsAdd(1, PERIOD, 1);
    OneShift(1);
    ShiftBitInjective(ShiftBits(1, PERIOD), 1);
  }

  lemma OneShift(c: bv8)
    ensures ShiftBits(c, 1) == ShiftBit(c)
  {
    NoShift(c);
  }

  /** Shifting by the distance of two bits brings 1 back exactly when 127 divides the distance. */
  lemma ReturnsIffMultiple(d: nat)
    ensures ShiftBits(1, d) == 1 <==> d % PERIOD == 0
  {
    hide ShiftBits, ShiftBit;
    if d < PERIOD {
      NoShift(1);
      if d > 0 && ShiftBits(1, d) == 1 {
        var p := LeastReturn(d);
        OneReturns();
        var q := PeriodDivides(p, PERIOD);
        PrimePeriod(p, q);
        OneMovesAtOnce();
      }
    } else {
      OneReturns();
      ShiftBitsAdd(1, PERIOD, d - PERIOD);
      ReturnsIffMultiple(d - PERIOD);
    }
  }

  lemma OneMovesAtOnce()
    ensures ShiftBits(1, 1) == 2
  {
    NoShift(1);
  }

  lemma {:induction false} LeastReturn(d: nat) returns (p: nat)
    requires d > 0 && ShiftBits(1, d) == 1
    ensures 0 < p <= d && ShiftBits(1, p) == 1
    ensures forall m :: 0 < m < p ==> ShiftBits(1, m) != 1
  {
    hide ShiftBits;
    if m :| 0 < m < d && ShiftBits(1, m) == 1 {
      p := LeastReturn(m);
    } else {
      p := d;
    }
  }

  lemma {:induction false} PeriodDivides(p: nat, n: nat) returns (q: nat)
    requires p > 0 && ShiftBits(1, p) == 1 && ShiftBits(1, n) == 1
    requires forall m :: 0 < m < p ==> ShiftBits(1, m) != 1
    ensures n == q * p
    decreases n
  {
    hide ShiftBits;
    if n >= p {
      ShiftBitsAdd(1, p, n - p);
      var less := PeriodDivides(p, n - p);
      q := less + 1;
    } else {
      q := 0;
    }
  }

  lemma PrimePeriod(p: nat, q: nat)
    requires 0 < p < PERIOD && q * p == PERIOD
    ensures p == 1
  {
    if p <= 11 {
      SmallFactor(p, q);
    } else if q <= 11 {
      SmallFactor(q, p);
    } else {
      Product(p, q);
    }
  }

  lemma Product(p: nat, q: nat)
    requires p >= 12 && q >= 12
    ensures q * p >= 144
  {
    assert q * p >= 12 * p;
  }

  lemma SmallFactor(a: nat, b: nat)
    requires a * b == PERIOD && a <= 11
    ensures a == 1
  {
    assert a != 0 && a != 2 && a != 3 && a != 4 && a != 5;
    assert a != 6 && a != 7 && a != 8 && a != 9 && a != 10 && a != 11;
  }

  /** Two flipped bits go unnoticed exactly when their distance is a multiple of 127. */
  lemma DoubleErrorClearsIff(n: nat, j: nat, k: nat)
    requires j < k < 8 * n
    ensures Register(0, Double(n, j, k)) == 0 <==> (k - j) % PERIOD == 0
  {
    hide ShiftBits, Flip, Single;
    RegisterIsLinear(0, 0, Single(n, j), Single(n, k));
    SingleRegister(n, j);
    SingleRegister(n, k);
    XorClears(ShiftBits(1, 8 * n + 7 - j), ShiftBits(1, 8 * n + 7 - k));
    ShiftBitsAdd(1, k - j, 8 * n + 7 - k);
    ShiftBitsInjective(ShiftBits(1, k - j), 1, 8 * n + 7 - k);
    ReturnsIffMultiple(k - j);
  }

  lemma XorClears(a: bv8, b: bv8)
    ensures Xor(a, b) == 0 <==> a == b
    ensures Xor(0, 0) == 0
  {
  }
}
