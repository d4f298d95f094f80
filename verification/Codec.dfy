/** Variable-length integers (the Protocol Buffers varint and sint64 rules) and the other
    primitives of the binary files. */
module Codec {
  import opened Wrappers

  type Byte = b: int | 0 <= b < 256

  /** The last two are where the original panics: a slice beyond its end or a list too long for
      the address space, and an unsigned sum that a build with overflow checks refuses. */
  datatype CodecError = UnexpectedEof | Malformed | BadMagic | CrcMismatch | UnsupportedVersion | OutOfRange | Overflow

  /** A value read, and the position after it. */
  type Read<T> = Result<(T, nat), CodecError>

  const SCHEMA_VERSION: nat := 2

  /** A checksum of a byte string, as a 32-bit word. */
  type Checksum = seq<Byte> -> nat

  ghost predicate ChecksumOk(crc: Checksum) {
    forall bs: seq<Byte> :: crc(bs) <= U32_MAX
  }

  const U64: int := 0x1_0000_0000_0000_0000
  const I64_MAX: int := 0x7FFF_FFFF_FFFF_FFFF
  const I64_MIN: int := -0x8000_0000_0000_0000
  const U32_MAX: int := 0xFFFF_FFFF

  function Pow2(n: nat): nat {
    if n == 0 then 1 else 2 * Pow2(n - 1)
  }

  lemma {:induction false} Pow2Grows(m: nat, n: nat)
    requires m <= n
    ensures 0 < Pow2(m) <= Pow2(n)
    decreases n
  {
    if m < n {
      Pow2Grows(m, n - 1);
    } else if n > 0 {
      Pow2Grows(m - 1, n - 1);
    }
  }

  lemma Pow2Seven(n: nat)
    ensures Pow2(n + 7) == 128 * Pow2(n)
  {
    assert Pow2(n + 7) == 2 * Pow2(n + 6) == 4 * Pow2(n + 5) == 8 * Pow2(n + 4);
    assert Pow2(n + 4) == 2 * Pow2(n + 3) == 4 * Pow2(n + 2) == 8 * Pow2(n + 1);
  }

  lemma Pow2SixtyFour()
    ensures Pow2(64) == U64
  {
    Pow2Seven(0);
    Pow2Seven(7);
    Pow2Seven(14);
    Pow2Seven(21);
    Pow2Seven(28);
    Pow2Seven(35);
    Pow2Seven(42);
    Pow2Seven(49);
    Pow2Seven(56);
    assert Pow2(1) == 2 && Pow2(0) == 1;
    assert Pow2(63) == 2 * Pow2(62) && Pow2(64) == 2 * Pow2(63);
  }

  // ----- positions -----

  /** `part` stands at position `at`. */
  predicate StandsAt(bs: seq<Byte>, at: nat, part: seq<Byte>) {
    at + |part| <= |bs| && bs[at..at + |part|] == part
  }

  lemma Middle(x: seq<Byte>, y: seq<Byte>, z: seq<Byte>)
    ensures (x + y + z)[|x|..|x| + |y|] == y
  {
  }

  lemma StandsSplit(bs: seq<Byte>, at: nat, x: seq<Byte>, y: seq<Byte>)
    requires StandsAt(bs, at, x + y)
    ensures StandsAt(bs, at, x) && StandsAt(bs, at + |x|, y)
  {
    var part := bs[at..at + |x + y|];
    assert part[..|x|] == x && part[|x|..] == y;
    assert bs[at..at + |x|] == part[..|x|];
    assert bs[at + |x|..at + |x| + |y|] == part[|x|..];
  }

  // ----- varints -----

  function Varint(v: nat): (bs: seq<Byte>)
    ensures bs != []
  {
    if v < 128 then [v] else [v % 128 + 128] + Varint(v / 128)
  }

  /** The reader's loop: `value` holds the bits below `shift`, which the next seven bits are
      disjoint from; bits shifted beyond the 64th are dropped. */
  function ReadVarint(bs: seq<Byte>, at: nat, value: nat, shift: nat): Read<nat>
    decreases |bs| - at
  {
    if at >= |bs| then Err(UnexpectedEof)
    else
      var b := bs[at];
      var value' := value + (b % 128 * Pow2(shift)) % U64;
      if b < 128 then Ok((value', at + 1))
      else if shift + 7 >= 64 then Err(Malformed)
      else ReadVarint(bs, at + 1, value', shift + 7)
  }

  lemma SevenBits(v: nat, shift: nat)
    ensures v * Pow2(shift) == v % 128 * Pow2(shift) + v / 128 * Pow2(shift + 7)
    ensures v % 128 * Pow2(shift) <= v * Pow2(shift)
  {
    Pow2Seven(shift);
    var p := Pow2(shift);
    assert v == v % 128 + 128 * (v / 128);
    assert v * p == (v % 128 + 128 * (v / 128)) * p;
    Distribute(v % 128, 128 * (v / 128), p);
    Reorder(128, v / 128, p);
  }

  lemma Distribute(x: nat, y: nat, p: nat)
    ensures (x + y) * p == x * p + y * p && x * p <= (x + y) * p
  {
  }

  lemma Reorder(x: nat, y: nat, p: nat)
    ensures x * y * p == y * (x * p)
  {
  }

  lemma FitsAhead(q: nat, shift: nat)
    requires q >= 1 && q * Pow2(shift) < U64
    ensures shift < 64
  {
    if shift >= 64 {
      Pow2SixtyFour();
      Pow2Grows(64, shift);
      Distribute(1, q - 1, Pow2(shift));
    }
  }

  lemma FirstByte(bs: seq<Byte>, at: nat, b: Byte, rest: seq<Byte>)
    requires StandsAt(bs, at, [b] + rest)
    ensures at < |bs| && bs[at] == b && StandsAt(bs, at + 1, rest)
  {
    StandsSplit(bs, at, [b], rest);
    assert bs[at..at + 1] == [b];
  }

  lemma SmallRemainder(x: nat)
    requires x < U64
    ensures x % U64 == x
  {
  }

  lemma ReadContinues(bs: seq<Byte>, at: nat, low: nat, value: nat, shift: nat)
    requires at < |bs| && low < 128 && bs[at] == low + 128 && low * Pow2(shift) < U64 && shift + 7 < 64
    ensures ReadVarint(bs, at, value, shift) == ReadVarint(bs, at + 1, value + low * Pow2(shift), shift + 7)
  {
    assert bs[at] % 128 == low;
    hide Pow2;
    SmallRemainder(low * Pow2(shift));
  }

  lemma ReadStops(bs: seq<Byte>, at: nat, low: nat, value: nat, shift: nat)
    requires at < |bs| && low < 128 && bs[at] == low && low * Pow2(shift) < U64
    ensures ReadVarint(bs, at, value, shift) == Ok((value + low * Pow2(shift), at + 1))
  {
    assert bs[at] % 128 == low;
    hide Pow2;
    SmallRemainder(low * Pow2(shift));
  }

  /** A varint is self-delimiting: whatever follows it, reading stops exactly after it. */
  lemma {:induction false} VarintReads(bs: seq<Byte>, at: nat, v: nat, value: nat, shift: nat)
    requires StandsAt(bs, at, Varint(v)) && v * Pow2(shift) < U64
    ensures ReadVarint(bs, at, value, shift) == Ok((value + v * Pow2(shift), at + |Varint(v)|))
    decreases v
  {
    hide Pow2, ReadVarint, StandsAt;
    if v < 128 {
      assert Varint(v) == [v] + [];
      FirstByte(bs, at, v, []);
      ReadStops(bs, at, v, value, shift);
    } else {
      SevenBits(v, shift);
      FirstByte(bs, at, v % 128 + 128, Varint(v / 128));
      FitsAhead(v / 128, shift + 7);
      ReadContinues(bs, at, v % 128, value, shift);
      VarintReads(bs, at + 1, v / 128, value + v % 128 * Pow2(shift), shift + 7);
    }
  }

  lemma VarintRoundTrip(bs: seq<Byte>, at: nat, v: nat)
    requires StandsAt(bs, at, Varint(v)) && v < U64
    ensures ReadVarint(bs, at, 0, 0) == Ok((v, at + |Varint(v)|))
  {
    assert Pow2(0) == 1;
    VarintReads(bs, at, v, 0, 0);
  }

  lemma BitsAdd(value: nat, low: nat, shift: nat)
    requires low < 128 && value < Pow2(shift) && shift <= 63
    ensures value + (low * Pow2(shift)) % U64 < (if shift + 7 < 64 then Pow2(shift + 7) else U64)
  {
    hide Pow2;
    if shift + 7 < 64 {
      Pow2Seven(shift);
      BelowNextBits(low, Pow2(shift));
    } else {
      WithinWord(value, low, shift);
    }
  }

  lemma BelowNextBits(low: nat, p: nat)
    requires low < 128
    ensures (low * p) % U64 <= 127 * p
  {
    Distribute(low, 127 - low, p);
    RemainderBelow(low * p);
  }

  lemma RemainderBelow(x: nat)
    ensures x % U64 <= x
  {
  }

  lemma WholeWords(q: nat, r: nat)
    requires r < U64
    ensures (q * U64 + r) % U64 == r
  {
  }

  lemma WithinWord(value: nat, low: nat, shift: nat)
    requires value < Pow2(shift) && 57 <= shift <= 63
    ensures value + (low * Pow2(shift)) % U64 < U64
  {
    hide Pow2;
    Pow2SixtyFour();
    Pow2Grows(0, shift);
    Pow2Grows(0, 64 - shift);
    var p, q := Pow2(shift), Pow2(64 - shift);
    PowSum(shift, 64 - shift);
    assert p * q == U64;
    Multiple(low, p, q);
  }

  lemma {:induction false} PowSum(m: nat, n: nat)
    ensures Pow2(m) * Pow2(n) == Pow2(m + n)
    decreases n
  {
    if n > 0 {
      PowSum(m, n - 1);
      Reorder(2, Pow2(n - 1), Pow2(m));
    }
  }

  lemma Multiple(x: nat, p: nat, q: nat)
    requires p > 0 && q > 0 && p * q == U64
    ensures (x * p) % U64 + p <= U64
  {
    var r := x % q;
    assert x == q * (x / q) + r;
    Distribute(q * (x / q), r, p);
    Reorder(q, x / q, p);
    assert x * p == x / q * U64 + r * p;
    Distribute(r, q - 1 - r, p);
    Distribute(q - 1, 1, p);
    WholeWords(x / q, r * p);
  }

  /** Whatever the bytes, a varint that is read is a 64-bit word. */
  lemma {:induction false} ReadBounded(bs: seq<Byte>, at: nat, value: nat, shift: nat)
    requires value < Pow2(shift) && shift <= 63
    ensures var r := ReadVarint(bs, at, value, shift); r.Ok? ==> r.value.0 < U64
    decreases |bs| - at
  {
    if at < |bs| {
      BitsAdd(value, bs[at] % 128, shift);
      if shift + 7 < 64 {
        Pow2SixtyFour();
        Pow2Grows(shift + 7, 64);
        ReadBounded(bs, at + 1, value + (bs[at] % 128 * Pow2(shift)) % U64, shift + 7);
      }
    }
  }

  lemma ReadIsWord(bs: seq<Byte>, at: nat)
    ensures var r := ReadVarint(bs, at, 0, 0); r.Ok? ==> r.value.0 < U64
  {
    assert Pow2(0) == 1;
    ReadBounded(bs, at, 0, 0);
  }

  /** No varint is a proper prefix of another. */
  lemma VarintPrefixFree(x: nat, y: nat)
    requires x < U64 && y < U64 && Varint(x) <= Varint(y)
    ensures x == y
  {
    VarintRoundTrip(Varint(y), 0, x);
    VarintRoundTrip(Varint(y), 0, y);
  }

  method WriteVarintU64(value: nat) returns (bs: seq<Byte>)
    ensures bs == Varint(value)
  {
    var v := value;
    bs := [];
    while v / 128 != 0
      invariant bs + Varint(v) == Varint(value)
    {
      bs := bs + [v % 128 + 128];
      v := v / 128;
    }
    bs := bs + [v % 128];
  }

  method ReadVarintU64(bs: seq<Byte>, at: nat) returns (r: Read<nat>)
    ensures r == ReadVarint(bs, at, 0, 0)
  {
    var value: nat, shift: nat, pos := 0, 0, at;
    while true
      invariant ReadVarint(bs, pos, value, shift) == ReadVarint(bs, at, 0, 0)
      decreases |bs| - pos
    {
      if pos >= |bs| {
        return Err(UnexpectedEof);
      }
      var b := bs[pos];
      pos := pos + 1;
      value := value + (b % 128 * Pow2(shift)) % U64;
      if b < 128 {
        return Ok((value, pos));
      }
      shift := shift + 7;
      if shift >= 64 {
        return Err(Malformed);
      }
    }
  }

  // ----- items read one after the other -----

  /** Room for `n` items of `size` bytes can be asked for at all; whether memory has it is
      another matter. */
  predicate Allocatable(n: nat, size: nat) {
    n * size <= I64_MAX
  }

  /** What reading gives when `out` has been read before. */
  function Prefixed<T>(out: seq<T>, r: Read<seq<T>>): Read<seq<T>> {
    match r
    case Err(e) => Err(e)
    case Ok((vs, end)) => Ok((out + vs, end))
  }

  lemma PrefixedOne<T>(out: seq<T>, v: T, r: Read<seq<T>>)
    ensures Prefixed(out + [v], r) == Prefixed(out, Prefixed([v], r))
  {
    if r.Ok? { assert out + [v] + r.value.0 == out + ([v] + r.value.0); }
  }

  lemma PrefixedNothing<T>(r: Read<seq<T>>)
    ensures Prefixed([], r) == r
  {
    if r.Ok? { assert [] + r.value.0 == r.value.0; }
  }

  // ----- zigzag -----

  predicate IsI64(v: int) {
    I64_MIN <= v <= I64_MAX
  }

  /** The 64-bit word of a left shift by one. */
  function ShiftLeftOne(v: int): int {
    2 * v % U64
  }

  /** The word of an arithmetic right shift by 63: all ones or all zeros. */
  function SignWord(v: int): int {
    if v < 0 then U64 - 1 else 0
  }

  /** Exclusive or with a word of all ones or all zeros. */
  function XorSign(word: int, sign: int): int {
    if sign == 0 then word else U64 - 1 - word
  }

  function ZigzagEncode(v: int): int
    requires IsI64(v)
  {
    XorSign(ShiftLeftOne(v), SignWord(v))
  }

  /** The halved word, complemented when the lowest bit is set. */
  function ZigzagDecode(u: int): int
    requires 0 <= u < U64
  {
    if u % 2 == 0 then u / 2 else -(u / 2) - 1
  }

  /** Zigzag is a bijection between the signed and the unsigned words. */
  lemma ZigzagBijection(v: int, u: int)
    requires IsI64(v) && 0 <= u < U64
    ensures 0 <= ZigzagEncode(v) < U64 && ZigzagDecode(ZigzagEncode(v)) == v
    ensures IsI64(ZigzagDecode(u)) && ZigzagEncode(ZigzagDecode(u)) == u
  {
  }

  function Signed(v: int): seq<Byte>
    requires IsI64(v)
  {
    ZigzagBijection(v, 0);
    Varint(ZigzagEncode(v))
  }

  function ReadSigned(bs: seq<Byte>, at: nat): Read<int> {
    ReadIsWord(bs, at);
    match ReadVarint(bs, at, 0, 0)
    case Err(e) => Err(e)
    case Ok((u, next)) => Ok((ZigzagDecode(u), next))
  }

  lemma SignedRoundTrip(bs: seq<Byte>, at: nat, v: int)
    requires IsI64(v) && StandsAt(bs, at, Signed(v))
    ensures ReadSigned(bs, at) == Ok((v, at + |Signed(v)|))
  {
    ZigzagBijection(v, 0);
    VarintRoundTrip(bs, at, ZigzagEncode(v));
  }

  // ----- fixed-width big-endian fields -----

  function BigEndian(v: nat, width: nat): (bs: seq<Byte>)
    ensures |bs| == width
  {
    if width == 0 then [] else BigEndian(v / 256, width - 1) + [v % 256]
  }

  function FromBigEndian(bs: seq<Byte>): nat {
    if bs == [] then 0 else 256 * FromBigEndian(bs[..|bs| - 1]) + bs[|bs| - 1]
  }

  function Pow256(n: nat): (p: nat)
    ensures p > 0
  {
    if n == 0 then 1 else 256 * Pow256(n - 1)
  }

  lemma {:induction false} BigEndianRoundTrip(v: nat, width: nat)
    requires v < Pow256(width)
    ensures FromBigEndian(BigEndian(v, width)) == v
    decreases width
  {
    if width > 0 {
      BigEndianRoundTrip(v / 256, width - 1);
      var bs := BigEndian(v, width);
      assert bs[..|bs| - 1] == BigEndian(v / 256, width - 1);
    }
  }
}
