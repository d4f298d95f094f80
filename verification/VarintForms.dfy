/** Which byte strings other than the one it would write the varint reader accepts. */
module VarintForms {
  import opened Wrappers
  import opened Codec

  /** The number that the groups of seven bits stand for, none lost. */
  function Groups(part: seq<Byte>): nat {
    if part == [] then 0 else part[0] % 128 + 128 * Groups(part[1..])
  }

  /** Every byte but the last says that another one follows. */
  predicate Framed(part: seq<Byte>) {
    part != [] && part[|part| - 1] < 128 && forall i :: 0 <= i < |part| - 1 ==> part[i] >= 128
  }

  lemma FramedTail(part: seq<Byte>)
    requires Framed(part)
    ensures part != [] && (|part| == 1 <==> part[0] < 128)
    ensures |part| > 1 ==> Framed(part[1..]) && part[1..][|part| - 2] == part[|part| - 1]
  {
  }

  lemma FramedCons(b: Byte, rest: seq<Byte>)
    requires b >= 128 && Framed(rest)
    ensures Framed([b] + rest) && ([b] + rest)[|rest|] == rest[|rest| - 1]
  {
  }

  // ----- reading -----

  /** No bit is shifted out of the word. */
  lemma NoneLost(low: nat, shift: nat)
    requires (low < 128 && shift <= 56) || (low <= 1 && shift <= 63)
    ensures (low * Pow2(shift)) % U64 == low * Pow2(shift)
  {
    hide Pow2;
    Pow2SixtyFour();
    Pow2Grows(0, shift);
    if shift <= 56 {
      Pow2Seven(shift);
      Pow2Grows(shift + 7, 63);
      Pow2Grows(63, 64);
      LessTimes(low, 128, Pow2(shift));
      Halved();
    } else {
      Pow2Grows(shift, 63);
      Halved();
      LessTimes(low, 2, Pow2(shift));
    }
  }

  lemma Halved()
    ensures 2 * Pow2(63) == Pow2(64)
  {
  }

  lemma LessTimes(x: nat, y: nat, p: nat)
    requires x < y && p > 0
    ensures x * p < y * p
  {
  }

  lemma GroupsScaled(b: nat, rest: nat, shift: nat)
    ensures (b + 128 * rest) * Pow2(shift) == b * Pow2(shift) + rest * Pow2(shift + 7)
  {
    Pow2Seven(shift);
    hide Pow2;
    Distribute(b, 128 * rest, Pow2(shift));
    Reorder(128, rest, Pow2(shift));
  }

  /** The bytes read make a frame of at most ten, and stand for what was added to `value`,
      unless a tenth byte above 1 loses bits. */
  ghost predicate Shape(bs: seq<Byte>, at: nat, value: nat, shift: nat, v: nat, next: nat) {
    && at < next <= |bs| && Framed(bs[at..next]) && shift + 7 * (next - at - 1) <= 63
    && (shift + 7 * (next - at - 1) < 63 || bs[next - 1] <= 1 ==> v == value + Groups(bs[at..next]) * Pow2(shift))
  }

  lemma ShapeOne(bs: seq<Byte>, at: nat, value: nat, shift: nat)
    requires shift % 7 == 0 && shift <= 63 && at < |bs| && bs[at] < 128
    ensures Shape(bs, at, value, shift, value + (bs[at] % 128 * Pow2(shift)) % U64, at + 1)
  {
    hide Pow2, Framed, Groups;
    assert bs[at..at + 1] == [bs[at]];
    OneGroup(bs[at]);
    if shift < 63 || bs[at] <= 1 { NoneLost(bs[at], shift); }
  }

  lemma ShapeMore(bs: seq<Byte>, at: nat, value: nat, shift: nat, v: nat, next: nat)
    requires shift % 7 == 0 && shift + 7 <= 63 && at < |bs| && bs[at] >= 128
    requires Shape(bs, at + 1, value + (bs[at] % 128 * Pow2(shift)) % U64, shift + 7, v, next)
    ensures Shape(bs, at, value, shift, v, next)
  {
    hide Pow2, Framed;
    var b, part, rest := bs[at], bs[at..next], bs[at + 1..next];
    NoneLost(b % 128, shift);
    assert part == [b] + rest && part[1..] == rest && part[0] == b;
    FramedCons(b, rest);
    GroupsScaled(b % 128, Groups(rest), shift);
  }

  lemma {:induction false} ReadShape(bs: seq<Byte>, at: nat, value: nat, shift: nat)
    requires shift % 7 == 0 && shift <= 63 && ReadVarint(bs, at, value, shift).Ok?
    ensures var (v, next) := ReadVarint(bs, at, value, shift).value; Shape(bs, at, value, shift, v, next)
    decreases |bs| - at
  {
    hide Pow2, Shape;
    var (v, next) := ReadVarint(bs, at, value, shift).value;
    if bs[at] < 128 {
      ShapeOne(bs, at, value, shift);
    } else {
      ReadShape(bs, at + 1, value + (bs[at] % 128 * Pow2(shift)) % U64, shift + 7);
      ShapeMore(bs, at, value, shift, v, next);
    }
  }

  lemma OneGroup(b: Byte)
    requires b < 128
    ensures Groups([b]) == b && Framed([b])
  {
    assert [b][1..] == [];
  }

  // ----- the form that is written -----

  lemma {:induction false} GroupsOfVarint(v: nat)
    ensures Groups(Varint(v)) == v && Framed(Varint(v))
    ensures |Varint(v)| > 1 ==> Varint(v)[|Varint(v)| - 1] != 0
    decreases v
  {
    hide Framed;
    if v < 128 {
      OneGroup(v);
    } else {
      GroupsOfVarint(v / 128);
      var b, rest := v % 128 + 128, Varint(v / 128);
      FramedCons(b, rest);
      assert Varint(v) == [b] + rest && ([b] + rest)[1..] == rest;
      LastOfLarge(v / 128);
    }
  }

  lemma LastOfLarge(v: nat)
    requires v > 0
    ensures |Varint(v)| == 1 ==> Varint(v)[0] != 0
  {
  }

  lemma {:induction false} VarintOfGroups(part: seq<Byte>)
    requires Framed(part) && part[|part| - 1] != 0
    ensures Groups(part) > 0 && Varint(Groups(part)) == part
  {
    hide Framed;
    FramedTail(part);
    if |part| == 1 {
      assert part[1..] == [];
      assert part == [part[0]];
    } else {
      VarintOfGroups(part[1..]);
      var g := Groups(part);
      assert g % 128 == part[0] % 128 && g / 128 == Groups(part[1..]);
      assert part == [part[0]] + part[1..];
    }
  }

  lemma {:induction false} GroupsAtLeast(part: seq<Byte>)
    requires Framed(part)
    ensures Groups(part) >= part[|part| - 1] * Pow2(7 * (|part| - 1))
  {
    hide Framed;
    FramedTail(part);
    if |part| == 1 {
      assert Pow2(0) == 1;
    } else {
      GroupsAtLeast(part[1..]);
      var last, shift := part[|part| - 1], 7 * (|part| - 2);
      assert 7 * (|part| - 1) == shift + 7;
      Pow2Seven(shift);
      hide Pow2;
      Scaled(last, Pow2(shift));
    }
  }

  lemma Scaled(x: nat, p: nat)
    ensures x * (128 * p) == 128 * (x * p)
  {
  }

  lemma TenthByte(last: nat)
    requires last > 1
    ensures last * Pow2(63) >= U64
  {
    Pow2SixtyFour();
    Halved();
    hide Pow2;
    if last > 2 { LessTimes(2, last, Pow2(63)); }
  }

  /** Of the strings the reader accepts, exactly these are not what the writer writes for the
      value read: those of several bytes that end in 0, and those of ten bytes that end in more
      than 1. The first carry an empty group, the second lose bits. */
  lemma OtherFormsExactly(bs: seq<Byte>, at: nat)
    requires ReadVarint(bs, at, 0, 0).Ok?
    ensures var (v, next) := ReadVarint(bs, at, 0, 0).value;
      && at < next <= |bs| && next - at <= 10
      && (bs[at..next] != Varint(v)
          <==> (next - at > 1 && bs[next - 1] == 0) || (next - at == 10 && bs[next - 1] > 1))
  {
    hide ReadVarint, Framed, Varint;
    var (v, next) := ReadVarint(bs, at, 0, 0).value;
    ReadShape(bs, at, 0, 0);
    ReadIsWord(bs, at);
    assert Pow2(0) == 1;
    hide Pow2;
    var part := bs[at..next];
    assert part[|part| - 1] == bs[next - 1];
    GroupsOfVarint(v);
    if next - at == 10 && bs[next - 1] > 1 {
      GroupsAtLeast(part);
      TenthByte(bs[next - 1]);
      assert Groups(part) >= U64;
    } else if bs[next - 1] == 0 {
      if next - at == 1 {
        assert part == [0];
        ZeroByte();
      }
    } else {
      VarintOfGroups(part);
    }
  }

  lemma ZeroByte()
    ensures Varint(0) == [0] && Groups([0]) == 0
  {
    assert Groups([0]) == 0 + 128 * Groups([0][1..]);
  }

  /** The reader takes two zero groups for one, as in these bytes. */
  lemma PaddedZero()
    ensures ReadVarint([0x80, 0x00], 0, 0, 0) == Ok((0, 2)) && Varint(0) != [0x80, 0x00]
  {
  }
}
