/** How the binary files lie byte by byte: fixed-width fields, zigzag, and a small file of each
    kind spelled out. */
module Layouts {
  import opened Wrappers
  import opened Codec
  import opened Stored
  import TF = TokensFile
  import RF = RevisionsFile
  import SI = SortedIndexes
  import Utf8

  // ----- fields -----

  /** The most significant byte comes first. */
  lemma {:induction false} BigEndianDigits(v: nat, width: nat, i: nat)
    requires i < width
    ensures BigEndian(v, width)[i] == v / Pow256(width - 1 - i) % 256
    decreases width
  {
    if i == width - 1 {
      assert Pow256(0) == 1 && v / 1 == v;
    } else {
      BigEndianDigits(v / 256, width - 1, i);
      var p := Pow256(width - 2 - i);
      assert Pow256(width - 1 - i) == 256 * p;
      DivideTwice(v, p);
    }
  }

  lemma DivideTwice(v: nat, p: nat)
    requires p > 0
    ensures v / 256 / p == v / (256 * p)
  {
    var q, r := v / (256 * p), v % (256 * p);
    assert v == 256 * p * q + r;
    assert 256 * p * q == 256 * (p * q);
    assert v / 256 == p * q + r / 256;
    assert r / 256 < p;
    QuotientIs(v / 256, p, q, r / 256);
  }

  lemma QuotientIs(x: nat, p: nat, q: nat, r: nat)
    requires 0 <= r < p && x == p * q + r
    ensures x / p == q
  {
    var d, s := x / p, x % p;
    assert x == p * d + s;
    if d > q {
      Apart(p, q, d);
      assert false;
    }
    if d < q {
      Apart(p, d, q);
      assert false;
    }
  }

  lemma {:induction false} Apart(p: nat, x: nat, y: nat)
    requires x < y
    ensures p * y >= p * x + p
  {
    assert p * y == p * (y - 1) + p;
    if x < y - 1 { Apart(p, x, y - 1); }
  }

  /** Zigzag numbers the integers 0, -1, 1, -2, 2 and so on. */
  lemma ZigzagValues(v: int)
    requires IsI64(v)
    ensures ZigzagEncode(v) == if v >= 0 then 2 * v else -2 * v - 1
  {
  }

  lemma ShortSigned(v: int)
    requires -64 <= v < 64
    ensures Signed(v) == [if v >= 0 then 2 * v else -2 * v - 1]
  {
  }

  lemma LongSigned(v: int)
    requires 64 <= v < 8192
    ensures Signed(v) == [2 * v % 128 + 128, 2 * v / 128]
  {
    assert Varint(2 * v / 128) == [2 * v / 128];
  }

  lemma FourBytes(v: nat)
    requires v < 256
    ensures BigEndian(v, 4) == [0, 0, 0, v]
  {
    ShortField(v, 3);
    FewZeros();
  }

  lemma EightBytes(v: nat)
    requires v < 256
    ensures BigEndian(v, 8) == [0, 0, 0, 0, 0, 0, 0, v]
  {
    ShortField(v, 7);
    FewZeros();
  }

  lemma TwoBytes(v: nat)
    requires v < 256
    ensures BigEndian(v, 2) == [0, v]
  {
    ShortField(v, 1);
    FewZeros();
  }

  function Zeros(n: nat): seq<Byte> {
    seq(n, _ => 0)
  }

  lemma ShortField(v: nat, zeros: nat)
    requires v < 256
    ensures BigEndian(v, zeros + 1) == Zeros(zeros) + [v]
  {
    ZeroField(zeros);
    assert v / 256 == 0;
  }

  lemma {:induction false} ZeroField(width: nat)
    ensures BigEndian(0, width) == Zeros(width)
  {
    if width > 0 { ZeroField(width - 1); }
  }

  lemma FewZeros()
    ensures Zeros(1) == [0] && Zeros(3) == [0, 0, 0] && Zeros(7) == [0, 0, 0, 0, 0, 0, 0]
  {
  }

  // ----- a tokens file -----

  const TOKEN1 := StoredToken(0, 7, 9, [8], [9])
  const TOKEN2 := StoredToken(2, 5, 300, [], [6, 305])

  lemma FirstRecord()
    ensures TF.TokenFits(TOKEN1) && TF.TokenTyped(TOKEN1) && TF.Record(0, 0, TOKEN1) == [0, 14, 4, 1, 2, 1, 4]
  {
    ShortSigned(0);
    ShortSigned(7);
    ShortSigned(2);
    ShortSigned(1);
    hide Signed;
    assert [8][1..] == [] && [9][1..] == [];
    assert TF.Chain(7, [8]) == [2] && TF.Chain(7, [9]) == [4];
  }

  lemma SecondRecord()
    ensures TF.TokenFits(TOKEN2) && TF.TokenTyped(TOKEN2)
    ensures TF.Record(0, 7, TOKEN2) == [4, 3, 206, 4, 0, 2, 2, 214, 4]
  {
    ShortSigned(2);
    ShortSigned(-2);
    LongSigned(295);
    ShortSigned(1);
    LongSigned(299);
    hide Signed;
    assert [6, 305][1..] == [305] && [305][1..] == [];
    assert TF.Chain(6, [305]) == [214, 4];
    assert TF.Chain(5, [6, 305]) == [2, 214, 4];
  }

  lemma TwoRecords()
    ensures forall t :: t in [TOKEN1, TOKEN2] ==> TF.TokenFits(t) && TF.TokenTyped(t)
    ensures TF.Records(0, 0, [TOKEN1, TOKEN2]) == [0, 14, 4, 1, 2, 1, 4] + [4, 3, 206, 4, 0, 2, 2, 214, 4]
  {
    FirstRecord();
    SecondRecord();
    hide TF.Record, TF.TokenFits, TF.TokenTyped;
    var ts := [TOKEN1, TOKEN2];
    assert ts[1..] == [TOKEN2] && [TOKEN2][1..] == [];
    assert TF.Records(2, 5, []) == [];
    assert TF.Records(0, 7, [TOKEN2]) == [4, 3, 206, 4, 0, 2, 2, 214, 4] + [];
  }

  lemma TwoTokensHeader()
    ensures TF.Header(2) == [0x57, 0x57, 0x54, 0x4B, 0, 2, 0, 0, 0, 0, 0, 2, 0, 0, 0, 0]
  {
    TwoBytes(SCHEMA_VERSION);
    TwoBytes(0);
    FourBytes(0);
    FourBytes(2);
    hide BigEndian;
  }

  /** The file of two tokens: the header, two records whose string and origin are relative to
      the record before, and the trailer. */
  lemma TokensFileBytes(crc: Checksum)
    ensures forall t :: t in [TOKEN1, TOKEN2] ==> TF.TokenFits(t) && TF.TokenTyped(t)
    ensures var payload: seq<Byte> := [0x57, 0x57, 0x54, 0x4B, 0, 2, 0, 0, 0, 0, 0, 2, 0, 0, 0, 0]
        + ([0, 14, 4, 1, 2, 1, 4] + [4, 3, 206, 4, 0, 2, 2, 214, 4]);
      TF.File(crc, [TOKEN1, TOKEN2]) == payload + [0x4B, 0x54, 0x57, 0x57] + BigEndian(crc(payload), 4)
  {
    hide BigEndian, TF.Record, TF.Records, TF.Header, TF.TokenFits, TF.TokenTyped;
    TwoTokensHeader();
    TwoRecords();
  }

  // ----- a revisions file -----

  const REVISION1 := StoredRevision(9, "t", "ed", 3, 1, [4, 2], [Entry("h", 0)])
  const REVISION2 := StoredRevision(5, "", "", 0, 0, [], [])

  lemma SmallTexts()
    ensures Utf8.Encode("") == [] && Utf8.Encode("t") == [116] && Utf8.Encode("h") == [104]
    ensures Utf8.Encode("ed") == [101, 100]
  {
    assert "t"[1..] == "" && "h"[1..] == "" && "ed"[1..] == "d" && "d"[1..] == "";
    assert Utf8.Encode("d") == [100];
  }

  lemma SmallTyped()
    ensures RF.RevisionTyped(RF.UTF8, REVISION1) && RF.RevisionTyped(RF.UTF8, REVISION2)
  {
    SmallTexts();
    hide Utf8.Encode;
  }

  lemma SmallBodies()
    ensures RF.RevisionTyped(RF.UTF8, REVISION1) && RF.RevisionTyped(RF.UTF8, REVISION2)
    ensures RF.Body(RF.UTF8, REVISION1) == [9, 1, 116, 2, 101, 100, 3, 1, 2, 8, 3, 1, 1, 104, 0]
    ensures RF.Body(RF.UTF8, REVISION2) == [5, 0, 0, 0, 0, 0, 0]
  {
    SmallTyped();
    SmallTexts();
    SmallLists();
    hide RF.Lists, RF.RevisionTyped, Utf8.Encode;
    assert RF.Text(RF.UTF8, "t") == [1, 116] && RF.Text(RF.UTF8, "ed") == [2, 101, 100];
    assert RF.Text(RF.UTF8, "") == [0];
  }

  lemma SmallLists()
    requires RF.RevisionTyped(RF.UTF8, REVISION1) && RF.RevisionTyped(RF.UTF8, REVISION2)
    ensures RF.Lists(RF.UTF8, REVISION1) == [2, 8, 3, 1, 1, 104, 0] && RF.Lists(RF.UTF8, REVISION2) == [0, 0]
  {
    SmallTexts();
    ShortSigned(4);
    ShortSigned(-2);
    ShortSigned(0);
    hide Signed, RF.RevisionTyped, Utf8.Encode;
    assert [4, 2][1..] == [2] && [2][1..] == [] && [Entry("h", 0)][1..] == [];
    assert TF.Chain(4, [2]) == [3] && TF.Chain(0, [4, 2]) == [8, 3];
    assert RF.Text(RF.UTF8, "h") == [1, 104];
    assert RF.Entries(RF.UTF8, 0, [Entry("h", 0)]) == [1, 104, 0];
  }

  const SMALL := [REVISION1, REVISION2]

  lemma SmallData()
    ensures RF.AllTyped(RF.UTF8, SMALL)
    ensures RF.Bodies(RF.UTF8, SMALL)
         == [9, 1, 116, 2, 101, 100, 3, 1, 2, 8, 3, 1, 1, 104, 0] + [5, 0, 0, 0, 0, 0, 0]
    ensures RF.Slots(RF.UTF8, SMALL) == [(9, 0), (5, 15)]
  {
    SmallBodies();
    hide RF.Body, RF.RevisionTyped;
    assert SMALL[1..] == [REVISION2] && [REVISION2][1..] == [];
    assert RF.Bodies(RF.UTF8, [REVISION2]) == RF.Body(RF.UTF8, REVISION2) + [];
    assert SMALL[..0] == [] && SMALL[..1] == [REVISION1] && [REVISION1][1..] == [];
    assert RF.Bodies(RF.UTF8, [REVISION1]) == RF.Body(RF.UTF8, REVISION1) + [];
    assert RF.Offset(RF.UTF8, SMALL, 0) == 0 && RF.Offset(RF.UTF8, SMALL, 1) == 15;
  }

  lemma SmallTable(table: seq<SI.Pair>)
    requires RF.AllTyped(RF.UTF8, SMALL) && RF.TableOf(RF.UTF8, SMALL, table)
    ensures table == [(5, 15), (9, 0)]
  {
    SmallData();
    hide RF.Slots;
    assert |table| == |multiset(table)| == |multiset([(9, 0), (5, 15)])| == 2;
    assert multiset(table)[(9, 0)] == 1 && multiset(table)[(5, 15)] == 1;
    assert (9, 0) in table && (5, 15) in table;
  }

  lemma SmallRows()
    ensures RF.Rows([(5, 15), (9, 0)])
         == [0, 0, 0, 0, 0, 0, 0, 5, 0, 0, 0, 15] + [0, 0, 0, 0, 0, 0, 0, 9, 0, 0, 0, 0]
  {
    EightBytes(5);
    EightBytes(9);
    FourBytes(15);
    FourBytes(0);
    hide BigEndian;
    assert [(5, 15), (9, 0)][1..] == [(9, 0)] && [(9, 0)][1..] == [];
    assert RF.Rows([(9, 0)]) == [0, 0, 0, 0, 0, 0, 0, 9] + ([0, 0, 0, 0] + []);
  }

  lemma SmallHeader()
    ensures RF.Header(2, 22)
         == [0x57, 0x57, 0x52, 0x56, 0, 2, 0, 0, 0, 0, 0, 2, 0, 0, 0, 46, 0, 0, 0, 22, 0, 0, 0, 0]
  {
    TwoBytes(SCHEMA_VERSION);
    TwoBytes(0);
    FourBytes(0);
    FourBytes(2);
    FourBytes(46);
    FourBytes(22);
    hide BigEndian;
  }

  /** The file of two revisions: the header with the place and the size of what follows, the
      bodies in processing order, and the rows in order of the ids. */
  lemma RevisionsFileBytes(crc: Checksum, table: seq<SI.Pair>)
    requires RF.AllTyped(RF.UTF8, SMALL) && RF.TableOf(RF.UTF8, SMALL, table)
    ensures var payload: seq<Byte> :=
          [0x57, 0x57, 0x52, 0x56, 0, 2, 0, 0, 0, 0, 0, 2, 0, 0, 0, 46, 0, 0, 0, 22, 0, 0, 0, 0]
        + (([9, 1, 116, 2, 101, 100, 3, 1, 2, 8, 3, 1, 1, 104, 0] + [5, 0, 0, 0, 0, 0, 0])
        + ([0, 0, 0, 0, 0, 0, 0, 5, 0, 0, 0, 15] + [0, 0, 0, 0, 0, 0, 0, 9, 0, 0, 0, 0]));
      RF.File(RF.UTF8, crc, SMALL, table) == payload + [0x56, 0x52, 0x57, 0x57] + BigEndian(crc(payload), 4)
  {
    hide BigEndian, RF.Bodies, RF.Rows, RF.Header, RF.TableOf, RF.AllTyped, RF.Slots;
    SmallTable(table);
    SmallData();
    SmallRows();
    SmallHeader();
  }
}
