/** UTF-8: encoding, strict and lossy decoding, and when decoding a stream chunk by chunk is
    decoding the stream. */
module Utf8 {
  import opened Wrappers
  import opened Seqs
  import opened Codec

  /** What lossy decoding puts in place of bytes that are no character. */
  const REPLACEMENT: char := '\U{FFFD}'

  /** A byte that continues a character. */
  predicate Follows(b: Byte) {
    0x80 <= b < 0xC0
  }

  /** How many bytes a character that starts with `b` has; 0 if none does. */
  function Width(b: Byte): nat {
    if b < 0x80 then 1
    else if 0xC2 <= b < 0xE0 then 2
    else if 0xE0 <= b < 0xF0 then 3
    else if 0xF0 <= b < 0xF5 then 4
    else 0
  }

  /** Which second bytes are allowed: no overlong forms, no surrogates, nothing too large. */
  predicate SecondOk(b: Byte, c: Byte) {
    if b == 0xE0 then 0xA0 <= c < 0xC0
    else if b == 0xED then 0x80 <= c < 0xA0
    else if b == 0xF0 then 0x90 <= c < 0xC0
    else if b == 0xF4 then 0x80 <= c < 0x90
    else Follows(c)
  }

  /** The bytes decoded together: a character, or the longest start of one, or one byte. */
  function UnitLen(bs: seq<Byte>): (n: nat)
    requires bs != []
    ensures 1 <= n <= 4 && n <= |bs|
    ensures n <= Width(bs[0]) || n == 1
    ensures forall i :: 0 < i < n ==> Follows(bs[i])
  {
    var w := Width(bs[0]);
    if w <= 1 || |bs| < 2 || !SecondOk(bs[0], bs[1]) then 1
    else if w == 2 || |bs| < 3 || !Follows(bs[2]) then 2
    else if w == 3 || |bs| < 4 || !Follows(bs[3]) then 3
    else 4
  }

  predicate Whole(bs: seq<Byte>)
    requires bs != []
  {
    UnitLen(bs) == Width(bs[0])
  }

  predicate IsScalar(x: int) {
    0 <= x < 0xD800 || 0xE000 <= x < 0x11_0000
  }

  /** The bits a byte adds to its marker. */
  function Bits(b: Byte, marker: int): int {
    b as int - marker
  }

  function Scalar(bs: seq<Byte>): (x: int)
    requires bs != [] && Whole(bs)
    ensures IsScalar(x)
  {
    match Width(bs[0])
    case 1 => bs[0]
    case 2 => Bits(bs[0], 0xC0) * 64 + Bits(bs[1], 0x80)
    case 3 => Bits(bs[0], 0xE0) * 4096 + Bits(bs[1], 0x80) * 64 + Bits(bs[2], 0x80)
    case _ => Bits(bs[0], 0xF0) * 262144 + Bits(bs[1], 0x80) * 4096 + Bits(bs[2], 0x80) * 64 + Bits(bs[3], 0x80)
  }

  function CharOf(bs: seq<Byte>): char
    requires bs != []
  {
    if Whole(bs) then Scalar(bs) as char else REPLACEMENT
  }

  /** Every unit that is no character becomes one replacement character. */
  function Lossy(bs: seq<Byte>): string
    decreases |bs|
  {
    if bs == [] then "" else [CharOf(bs)] + Lossy(bs[UnitLen(bs)..])
  }

  predicate Valid(bs: seq<Byte>)
    decreases |bs|
  {
    bs == [] || (Whole(bs) && Valid(bs[UnitLen(bs)..]))
  }

  /** Strict decoding refuses what is not valid. */
  function Strict(bs: seq<Byte>): Option<string> {
    if Valid(bs) then Some(Lossy(bs)) else None
  }

  method DecodeLossy(bs: seq<Byte>) returns (s: string)
    ensures s == Lossy(bs)
  {
    s := "";
    var rest := bs;
    while rest != []
      invariant s + Lossy(rest) == Lossy(bs)
      decreases |rest|
    {
      s := s + [CharOf(rest)];
      rest := rest[UnitLen(rest)..];
    }
  }

  // ----- encoding -----

  function EncodeChar(c: char): (bs: seq<Byte>)
    ensures bs != []
  {
    var x := c as int;
    if x < 0x80 then [x]
    else if x < 0x800 then [0xC0 + x / 64, 0x80 + x % 64]
    else if x < 0x1_0000 then [0xE0 + x / 4096, 0x80 + x / 64 % 64, 0x80 + x % 64]
    else [0xF0 + x / 262144, 0x80 + x / 4096 % 64, 0x80 + x / 64 % 64, 0x80 + x % 64]
  }

  function Encode(s: string): seq<Byte> {
    if s == "" then [] else EncodeChar(s[0]) + Encode(s[1..])
  }

  /** A character's bytes are one unit, whatever follows, and stand for the character. */
  lemma CharUnit(c: char, rest: seq<Byte>)
    ensures var bs := EncodeChar(c) + rest;
      UnitLen(bs) == |EncodeChar(c)| && Whole(bs) && CharOf(bs) == c && bs[UnitLen(bs)..] == rest
  {
    var x, bs := c as int, EncodeChar(c) + rest;
    Digits(x);
    if x < 0x80 {
      assert bs[0] == x;
    } else if x < 0x800 {
      assert bs[0] == 0xC0 + x / 64 && bs[1] == 0x80 + x % 64;
    } else if x < 0x1_0000 {
      assert bs[0] == 0xE0 + x / 4096 && bs[1] == 0x80 + x / 64 % 64 && bs[2] == 0x80 + x % 64;
    } else {
      assert bs[0] == 0xF0 + x / 262144 && bs[1] == 0x80 + x / 4096 % 64 && bs[2] == 0x80 + x / 64 % 64
          && bs[3] == 0x80 + x % 64;
    }
  }

  lemma Digits(x: nat)
    ensures x / 64 == x / 4096 * 64 + x / 64 % 64 && x / 4096 == x / 262144 * 64 + x / 4096 % 64
  {
    ByteDigits(x);
    var y, z := x / 64, x / 64 / 64;
    assert y == y / 64 * 64 + y % 64 && z == z / 64 * 64 + z % 64;
  }

  lemma {:induction false} EncodeRoundTrip(s: string)
    ensures Lossy(Encode(s)) == s && Valid(Encode(s))
  {
    if s != "" {
      hide EncodeChar, UnitLen, Whole, CharOf;
      CharUnit(s[0], Encode(s[1..]));
      EncodeRoundTrip(s[1..]);
    }
  }

  /** Strict decoding undoes encoding. */
  lemma StrictRoundTrip(s: string)
    ensures Strict(Encode(s)) == Some(s)
  {
    EncodeRoundTrip(s);
  }

  lemma SixBits(h: nat, l: int)
    requires 0 <= l < 64
    ensures (h * 64 + l) / 64 == h && (h * 64 + l) % 64 == l
  {
  }

  lemma ByteDigits(x: nat)
    ensures x / 4096 == x / 64 / 64 && x / 262144 == x / 64 / 64 / 64
  {
  }

  /** What the bytes of a character are, by its width. */
  lemma UnitBytes(bs: seq<Byte>)
    requires bs != [] && Whole(bs)
    ensures var w := Width(bs[0]);
      && 1 <= w <= 4 && w <= |bs| && (forall i :: 0 < i < w ==> Follows(bs[i])) && (w > 1 ==> SecondOk(bs[0], bs[1]))
  {
  }

  lemma TwoBytes(b0: Byte, b1: Byte)
    requires Width(b0) == 2 && SecondOk(b0, b1)
    ensures EncodeChar((Bits(b0, 0xC0) * 64 + Bits(b1, 0x80)) as char) == [b0, b1]
  {
    SixBits(Bits(b0, 0xC0), Bits(b1, 0x80));
  }

  lemma ThreeBytes(b0: Byte, b1: Byte, b2: Byte)
    requires Width(b0) == 3 && SecondOk(b0, b1) && Follows(b2)
    ensures var x := Bits(b0, 0xE0) * 4096 + Bits(b1, 0x80) * 64 + Bits(b2, 0x80);
      IsScalar(x) && EncodeChar(x as char) == [b0, b1, b2]
  {
    var h := Bits(b0, 0xE0) * 64 + Bits(b1, 0x80);
    ByteDigits(h * 64 + Bits(b2, 0x80));
    SixBits(h, Bits(b2, 0x80));
    SixBits(Bits(b0, 0xE0), Bits(b1, 0x80));
  }

  lemma FourBytes(b0: Byte, b1: Byte, b2: Byte, b3: Byte)
    requires Width(b0) == 4 && SecondOk(b0, b1) && Follows(b2) && Follows(b3)
    ensures var x := Bits(b0, 0xF0) * 262144 + Bits(b1, 0x80) * 4096 + Bits(b2, 0x80) * 64 + Bits(b3, 0x80);
      IsScalar(x) && EncodeChar(x as char) == [b0, b1, b2, b3]
  {
    var g := Bits(b0, 0xF0) * 64 + Bits(b1, 0x80);
    var h := g * 64 + Bits(b2, 0x80);
    ByteDigits(h * 64 + Bits(b3, 0x80));
    SixBits(h, Bits(b3, 0x80));
    SixBits(g, Bits(b2, 0x80));
    SixBits(Bits(b0, 0xF0), Bits(b1, 0x80));
  }

  /** A character has one encoding. */
  lemma UnitIsEncoding(bs: seq<Byte>)
    requires bs != [] && Whole(bs)
    ensures EncodeChar(CharOf(bs)) == bs[..UnitLen(bs)]
  {
    UnitBytes(bs);
    assert UnitLen(bs) == Width(bs[0]);
    hide UnitLen, EncodeChar;
    match Width(bs[0]) {
      case 1 =>
        OneByte(bs[0]);
        assert bs[..1] == [bs[0]];
      case 2 =>
        TwoBytes(bs[0], bs[1]);
        assert bs[..2] == [bs[0], bs[1]];
      case 3 =>
        ThreeBytes(bs[0], bs[1], bs[2]);
        assert bs[..3] == [bs[0], bs[1], bs[2]];
      case _ =>
        FourBytes(bs[0], bs[1], bs[2], bs[3]);
        assert bs[..4] == [bs[0], bs[1], bs[2], bs[3]];
    }
  }

  lemma OneByte(b: Byte)
    requires b < 0x80
    ensures EncodeChar(b as char) == [b]
  {
  }

  lemma LossyHead(bs: seq<Byte>)
    requires bs != []
    ensures Lossy(bs) == [CharOf(bs)] + Lossy(bs[UnitLen(bs)..])
  {
  }

  lemma EncodeCons(c: char, s: string)
    ensures Encode([c] + s) == EncodeChar(c) + Encode(s)
  {
    assert ([c] + s)[1..] == s;
    hide EncodeChar;
  }

  /** Valid bytes are exactly the encodings. */
  lemma {:induction false} ValidIsEncoding(bs: seq<Byte>)
    requires Valid(bs)
    ensures Encode(Lossy(bs)) == bs
    decreases |bs|
  {
    if bs != [] {
      hide EncodeChar, UnitLen, Whole, CharOf, Lossy, Encode;
      LossyHead(bs);
      EncodeCons(CharOf(bs), Lossy(bs[UnitLen(bs)..]));
      UnitIsEncoding(bs);
      ValidIsEncoding(bs[UnitLen(bs)..]);
    }
  }

  // ----- cutting a stream -----

  /** A unit starts at `p`, or the stream ends there. */
  predicate UnitStart(bs: seq<Byte>, p: nat)
    requires p <= |bs|
    decreases |bs|
  {
    p == 0 || (UnitLen(bs) <= p && UnitStart(bs[UnitLen(bs)..], p - UnitLen(bs)))
  }

  /** The start of a unit is one unit; cut short, it is no character. */
  lemma UnitPrefix(bs: seq<Byte>, n: nat)
    requires 1 <= n <= |bs|
    ensures UnitLen(bs) <= n ==> UnitLen(bs[..n]) == UnitLen(bs) && CharOf(bs[..n]) == CharOf(bs)
    ensures n < UnitLen(bs) ==> UnitLen(bs[..n]) == n
  {
    var x := bs[..n];
    assert forall i :: 0 <= i < n ==> x[i] == bs[i];
  }

  lemma {:induction false} FollowersLossy(bs: seq<Byte>, k: nat)
    requires k <= |bs| && forall i :: 0 <= i < k ==> Follows(bs[i])
    ensures |Lossy(bs)| == k + |Lossy(bs[k..])|
    decreases k
  {
    if k == 0 {
      assert bs[0..] == bs;
    } else {
      assert Width(bs[0]) == 0 && UnitLen(bs) == 1;
      FollowersLossy(bs[1..], k - 1);
      assert bs[1..][k - 1..] == bs[k..];
    }
  }

  lemma StartHead(bs: seq<Byte>, p: nat)
    requires 0 < p <= |bs|
    ensures UnitStart(bs, p) <==> UnitLen(bs) <= p && UnitStart(bs[UnitLen(bs)..], p - UnitLen(bs))
  {
  }

  /** A cut inside the first unit: what was one character becomes several. */
  lemma CutInside(x: seq<Byte>, y: seq<Byte>)
    requires x != [] && |x| < UnitLen(x + y)
    ensures |Lossy(x)| + |Lossy(y)| > |Lossy(x + y)|
  {
    hide CharOf, Width, Whole, Lossy, UnitLen;
    var bs := x + y;
    var n := UnitLen(bs);
    var k := n - |x|;
    assert bs[..|x|] == x;
    UnitPrefix(bs, |x|);
    LossyHead(bs);
    LossyHead(x);
    LossyNothing();
    assert forall i :: 0 <= i < k ==> y[i] == bs[|x| + i];
    FollowersLossy(y, k);
    assert bs[n..] == y[k..] && x[|x|..] == [];
  }

  /** Decoding two pieces gives at least as many characters as decoding the whole: the same
      ones if the cut is at the start of a unit, and more if it is inside one. */
  lemma {:induction false} LossySplit(x: seq<Byte>, y: seq<Byte>)
    ensures UnitStart(x + y, |x|) ==> Lossy(x) + Lossy(y) == Lossy(x + y)
    ensures !UnitStart(x + y, |x|) ==> |Lossy(x)| + |Lossy(y)| > |Lossy(x + y)|
    decreases |x|
  {
    hide CharOf, Width, Whole, Lossy, UnitLen, UnitStart;
    var bs := x + y;
    LossyNothing();
    if x == [] {
      assert bs == y;
      StartsAtZero(bs);
    } else {
      var n := UnitLen(bs);
      StartHead(bs, |x|);
      if n <= |x| {
        assert bs[..|x|] == x;
        UnitPrefix(bs, |x|);
        LossyHead(bs);
        LossyHead(x);
        assert bs[n..] == x[n..] + y;
        LossySplit(x[n..], y);
        assert [CharOf(x)] + Lossy(x[n..]) + Lossy(y) == [CharOf(x)] + (Lossy(x[n..]) + Lossy(y));
      } else {
        CutInside(x, y);
      }
    }
  }

  lemma LossyNothing()
    ensures Lossy([]) == ""
  {
  }

  /** Decoding each chunk on its own. */
  function LossyAll(chunks: seq<seq<Byte>>): string {
    if chunks == [] then "" else Lossy(chunks[0]) + LossyAll(chunks[1..])
  }

  ghost predicate CleanCuts(chunks: seq<seq<Byte>>) {
    chunks == [] || (UnitStart(Concat(chunks), |chunks[0]|) && CleanCuts(chunks[1..]))
  }

  /** Decoding chunk by chunk is decoding the stream exactly if no cut is inside a unit. This
      holds of any bytes, valid or not. */
  lemma {:induction false} ChunksLossy(chunks: seq<seq<Byte>>)
    ensures |LossyAll(chunks)| >= |Lossy(Concat(chunks))|
    ensures LossyAll(chunks) == Lossy(Concat(chunks)) <==> CleanCuts(chunks)
  {
    if chunks != [] {
      hide Lossy, UnitStart;
      var x, rest := chunks[0], chunks[1..];
      ChunksLossy(rest);
      LossySplit(x, Concat(rest));
      if LossyAll(chunks) == Lossy(Concat(chunks)) && UnitStart(Concat(chunks), |x|) {
        SameTail(Lossy(x), LossyAll(rest), Lossy(Concat(rest)));
      }
    }
  }

  lemma SameTail(x: string, y: string, z: string)
    requires x + y == x + z
    ensures y == z
  {
    assert (x + y)[|x|..] == y && (x + z)[|x|..] == z;
  }

  // ----- cuts of a valid stream -----

  /** The next byte does not continue a character. */
  predicate OnBoundary(bs: seq<Byte>, p: nat)
    requires p <= |bs|
  {
    p == |bs| || !Follows(bs[p])
  }

  lemma {:induction false} StartIsBoundary(bs: seq<Byte>, p: nat)
    requires Valid(bs) && p <= |bs|
    ensures UnitStart(bs, p) <==> OnBoundary(bs, p)
    ensures UnitStart(bs, p) ==> Valid(bs[p..])
    decreases |bs|
  {
    hide UnitStart, UnitLen, Width, Whole;
    if p == 0 {
      StartsAtZero(bs);
      assert bs[0..] == bs;
      if bs != [] { LeadByte(bs); }
    } else {
      var n := UnitLen(bs);
      StartHead(bs, p);
      if n <= p {
        StartIsBoundary(bs[n..], p - n);
        assert bs[n..][p - n..] == bs[p..];
      }
    }
  }

  lemma LeadByte(bs: seq<Byte>)
    requires bs != [] && Whole(bs)
    ensures !Follows(bs[0])
  {
  }

  /** Where chunk `k` starts. */
  function CutAt(chunks: seq<seq<Byte>>, k: nat): (p: nat)
    requires k <= |chunks|
    ensures p <= |Concat(chunks)|
  {
    ConcatAppend(chunks[..k], chunks[k..]);
    assert chunks[..k] + chunks[k..] == chunks;
    |Concat(chunks[..k])|
  }

  ghost predicate CutsOnCharacters(chunks: seq<seq<Byte>>) {
    forall k :: 0 <= k <= |chunks| ==> OnBoundary(Concat(chunks), CutAt(chunks, k))
  }

  lemma CutAfterFirst(chunks: seq<seq<Byte>>, k: nat)
    requires chunks != [] && k < |chunks|
    ensures CutAt(chunks, k + 1) == |chunks[0]| + CutAt(chunks[1..], k)
    ensures OnBoundary(Concat(chunks), CutAt(chunks, k + 1)) <==> OnBoundary(Concat(chunks[1..]), CutAt(chunks[1..], k))
  {
    assert chunks[..k + 1][0] == chunks[0] && chunks[..k + 1][1..] == chunks[1..][..k];
    assert Concat(chunks) == chunks[0] + Concat(chunks[1..]);
  }

  lemma CutsTail(chunks: seq<seq<Byte>>)
    requires chunks != [] && OnBoundary(Concat(chunks), 0)
    ensures CutsOnCharacters(chunks) <==> CutsOnCharacters(chunks[1..])
  {
    hide OnBoundary, CutAt, Concat;
    var rest := chunks[1..];
    FirstCut(chunks);
    forall k | 0 <= k < |chunks|
      ensures OnBoundary(Concat(chunks), CutAt(chunks, k + 1)) <==> OnBoundary(Concat(rest), CutAt(rest, k))
    {
      CutAfterFirst(chunks, k);
    }
    if CutsOnCharacters(rest) {
      forall k | 0 <= k <= |chunks| ensures OnBoundary(Concat(chunks), CutAt(chunks, k)) {
        if k > 0 { assert OnBoundary(Concat(rest), CutAt(rest, k - 1)); }
      }
    }
    if CutsOnCharacters(chunks) {
      forall k | 0 <= k <= |rest| ensures OnBoundary(Concat(rest), CutAt(rest, k)) {
        assert OnBoundary(Concat(chunks), CutAt(chunks, k + 1));
      }
    }
  }

  lemma {:induction false} CleanByPosition(chunks: seq<seq<Byte>>)
    requires Valid(Concat(chunks))
    ensures CleanCuts(chunks) <==> CutsOnCharacters(chunks)
  {
    if chunks == [] {
      assert CutAt(chunks, 0) == 0;
    } else {
      var bs, p := Concat(chunks), |chunks[0]|;
      assert bs[p..] == Concat(chunks[1..]);
      hide Valid, OnBoundary, UnitStart, CutAt, CutsOnCharacters;
      StartsAtZero(bs);
      StartIsBoundary(bs, 0);
      StartIsBoundary(bs, p);
      CutsTail(chunks);
      if UnitStart(bs, p) {
        CleanByPosition(chunks[1..]);
      } else if CutsOnCharacters(chunks) {
        SecondCut(chunks);
      }
    }
  }

  lemma SecondCut(chunks: seq<seq<Byte>>)
    requires chunks != [] && CutsOnCharacters(chunks)
    ensures |chunks[0]| <= |Concat(chunks)| && OnBoundary(Concat(chunks), |chunks[0]|)
  {
    hide OnBoundary, CutAt;
    CutAfterFirst(chunks, 0);
    FirstCut(chunks[1..]);
    assert OnBoundary(Concat(chunks), CutAt(chunks, 1));
  }

  lemma FirstCut(chunks: seq<seq<Byte>>)
    ensures CutAt(chunks, 0) == 0
  {
    assert chunks[..0] == [];
  }

  lemma StartsAtZero(bs: seq<Byte>)
    ensures UnitStart(bs, 0)
  {
  }

  /** Of a valid stream, decoding the chunks one by one is decoding the stream exactly if
      every cut is between two characters. */
  lemma DecodedByChunks(chunks: seq<seq<Byte>>)
    requires Valid(Concat(chunks))
    ensures LossyAll(chunks) == Lossy(Concat(chunks)) <==> CutsOnCharacters(chunks)
  {
    ChunksLossy(chunks);
    CleanByPosition(chunks);
  }

  /** A cut inside a character of two bytes turns it into two replacement characters. */
  lemma SpoiledCharacter()
    ensures var chunks: seq<seq<Byte>> := [[0xC3], [0xA9]];
      && Valid(Concat(chunks)) && Lossy(Concat(chunks)) == ['\U{E9}']
      && LossyAll(chunks) == [REPLACEMENT, REPLACEMENT] && !CutsOnCharacters(chunks)
  {
    var chunks: seq<seq<Byte>> := [[0xC3], [0xA9]];
    assert chunks[1..][1..] == [] && chunks[..1] == [[0xC3]] && [[0xC3]][1..] == [];
    assert Concat(chunks[1..]) == [0xA9] + Concat([]);
    assert Concat(chunks) == [0xC3, 0xA9];
    assert UnitLen([0xC3, 0xA9]) == 2 && [0xC3, 0xA9][2..] == [];
    assert Lossy([0xC3]) == [REPLACEMENT] && Lossy([0xA9]) == [REPLACEMENT];
    assert LossyAll(chunks[1..]) == Lossy([0xA9]) + LossyAll([]);
    assert CutAt(chunks, 1) == 1;
  }
}
