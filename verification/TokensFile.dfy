/** The token file: delta-encoded records between a header and a checksummed trailer. */
module TokensFile {
  import opened Wrappers
  import opened Codec
  import opened Stored

  const MAGIC_HEAD: seq<Byte> := [0x57, 0x57, 0x54, 0x4B]
  const MAGIC_TAIL: seq<Byte> := [0x4B, 0x54, 0x57, 0x57]

  // ----- what can be stored -----

  predicate RevIdFits(r: nat) {
    r <= I64_MAX
  }

  ghost predicate TokenFits(t: StoredToken) {
    && RevIdFits(t.originRevId) && RevIdFits(t.lastRevId)
    && (forall r :: r in t.inbound ==> RevIdFits(r)) && forall r :: r in t.outbound ==> RevIdFits(r)
  }

  /** The field widths of a record: what the types of the original allow. */
  ghost predicate TokenTyped(t: StoredToken) {
    t.stringId <= U32_MAX && Allocatable(|t.inbound|, 8) && Allocatable(|t.outbound|, 8)
  }

  // ----- records -----

  lemma FirstFits(revs: seq<nat>)
    requires revs != [] && forall r :: r in revs ==> RevIdFits(r)
    ensures RevIdFits(revs[0]) && forall r :: r in revs[1..] ==> RevIdFits(r)
  {
    assert revs[0] in revs && forall r :: r in revs[1..] ==> r in revs;
  }

  function Chain(prev: nat, revs: seq<nat>): seq<Byte>
    requires RevIdFits(prev) && forall r :: r in revs ==> RevIdFits(r)
    decreases |revs|
  {
    if revs == [] then []
    else
      FirstFits(revs);
      Signed(revs[0] - prev) + Chain(revs[0], revs[1..])
  }

  function Record(prevString: nat, prevOrigin: nat, t: StoredToken): seq<Byte>
    requires TokenFits(t) && TokenTyped(t) && prevString <= U32_MAX && RevIdFits(prevOrigin)
  {
    Signed(t.stringId - prevString) + (Signed(t.originRevId - prevOrigin) + (Signed(t.lastRevId - t.originRevId)
    + (Varint(|t.inbound|) + (Chain(t.originRevId, t.inbound)
    + (Varint(|t.outbound|) + Chain(t.originRevId, t.outbound))))))
  }

  function Records(prevString: nat, prevOrigin: nat, ts: seq<StoredToken>): seq<Byte>
    requires prevString <= U32_MAX && RevIdFits(prevOrigin)
    requires forall t :: t in ts ==> TokenFits(t) && TokenTyped(t)
    decreases |ts|
  {
    if ts == [] then []
    else
      assert ts[0] in ts;
      Record(prevString, prevOrigin, ts[0]) + Records(ts[0].stringId, ts[0].originRevId, ts[1..])
  }

  // ----- reading -----

  function AddRevId(prev: int, delta: int): Result<nat, CodecError> {
    if prev + delta > I64_MAX || prev + delta < 0 then Err(Malformed) else Ok(prev + delta)
  }

  function ReadRevId(bs: seq<Byte>, at: nat, prev: int): Read<nat> {
    match ReadSigned(bs, at)
    case Err(e) => Err(e)
    case Ok((d, next)) =>
      match AddRevId(prev, d)
      case Err(e) => Err(e)
      case Ok(v) => Ok((v, next))
  }

  function ReadChain(bs: seq<Byte>, at: nat, prev: int, n: nat): Read<seq<nat>>
    decreases n
  {
    if n == 0 then Ok(([], at))
    else
      match ReadRevId(bs, at, prev)
      case Err(e) => Err(e)
      case Ok((v, next)) =>
        match ReadChain(bs, next, v, n - 1)
        case Err(e) => Err(e)
        case Ok((vs, end)) => Ok(([v] + vs, end))
  }

  function ReadList(bs: seq<Byte>, at: nat, prev: int): Read<seq<nat>> {
    match ReadVarint(bs, at, 0, 0)
    case Err(e) => Err(e)
    case Ok((n, next)) => if Allocatable(n, 8) then ReadChain(bs, next, prev, n) else Err(OutOfRange)
  }

  function ReadNat32(bs: seq<Byte>, at: nat, prev: nat): Read<nat> {
    match ReadSigned(bs, at)
    case Err(e) => Err(e)
    case Ok((d, next)) =>
      if prev + d < 0 || prev + d > U32_MAX then Err(Malformed) else Ok((prev + d, next))
  }

  function ReadRecord(bs: seq<Byte>, at: nat, prevString: nat, prevOrigin: int): Read<StoredToken> {
    match ReadNat32(bs, at, prevString)
    case Err(e) => Err(e)
    case Ok((stringId, p1)) =>
      match ReadRevId(bs, p1, prevOrigin)
      case Err(e) => Err(e)
      case Ok((origin, p2)) =>
        match ReadRevId(bs, p2, origin)
        case Err(e) => Err(e)
        case Ok((last, p3)) =>
          match ReadList(bs, p3, origin)
          case Err(e) => Err(e)
          case Ok((inbound, p4)) =>
            match ReadList(bs, p4, origin)
            case Err(e) => Err(e)
            case Ok((outbound, p5)) => Ok((StoredToken(stringId, origin, last, inbound, outbound), p5))
  }

  function ReadRecords(bs: seq<Byte>, at: nat, prevString: nat, prevOrigin: int,
      n: nat): Result<seq<StoredToken>, CodecError>
    decreases n
  {
    if n == 0 then Ok([])
    else
      match ReadRecord(bs, at, prevString, prevOrigin)
      case Err(e) => Err(e)
      case Ok((t, next)) =>
        match ReadRecords(bs, next, t.stringId, t.originRevId, n - 1)
        case Err(e) => Err(e)
        case Ok(ts) => Ok([t] + ts)
  }

  // ----- records read back -----

  lemma RevIdReads(bs: seq<Byte>, at: nat, prev: nat, v: nat)
    requires RevIdFits(prev) && RevIdFits(v) && StandsAt(bs, at, Signed(v - prev))
    ensures ReadRevId(bs, at, prev) == Ok((v, at + |Signed(v - prev)|))
  {
    SignedRoundTrip(bs, at, v - prev);
    hide ReadSigned, Signed;
  }

  /** Chains need not be monotone: every delta is signed. */
  lemma {:induction false} ChainReads(bs: seq<Byte>, at: nat, prev: nat, revs: seq<nat>)
    requires RevIdFits(prev) && forall r :: r in revs ==> RevIdFits(r)
    requires StandsAt(bs, at, Chain(prev, revs))
    ensures ReadChain(bs, at, prev, |revs|) == Ok((revs, at + |Chain(prev, revs)|))
    decreases |revs|
  {
    hide StandsAt, Signed, ReadRevId;
    if revs != [] {
      FirstFits(revs);
      var delta := Signed(revs[0] - prev);
      StandsSplit(bs, at, delta, Chain(revs[0], revs[1..]));
      RevIdReads(bs, at, prev, revs[0]);
      ChainReads(bs, at + |delta|, revs[0], revs[1..]);
      assert revs == [revs[0]] + revs[1..];
    }
  }

  lemma ListReads(bs: seq<Byte>, at: nat, prev: nat, revs: seq<nat>)
    requires RevIdFits(prev) && Allocatable(|revs|, 8) && forall r :: r in revs ==> RevIdFits(r)
    requires StandsAt(bs, at, Varint(|revs|) + Chain(prev, revs))
    ensures ReadList(bs, at, prev) == Ok((revs, at + |Varint(|revs|)| + |Chain(prev, revs)|))
  {
    hide StandsAt, Chain, Varint, ReadVarint, ReadChain;
    StandsSplit(bs, at, Varint(|revs|), Chain(prev, revs));
    VarintRoundTrip(bs, at, |revs|);
    ChainReads(bs, at + |Varint(|revs|)|, prev, revs);
  }

  lemma Nat32Reads(bs: seq<Byte>, at: nat, prev: nat, v: nat)
    requires prev <= U32_MAX && v <= U32_MAX && StandsAt(bs, at, Signed(v - prev))
    ensures ReadNat32(bs, at, prev) == Ok((v, at + |Signed(v - prev)|))
  {
    SignedRoundTrip(bs, at, v - prev);
    hide ReadSigned, Signed;
  }

  /** A list followed by more. */
  lemma ListThen(bs: seq<Byte>, at: nat, prev: nat, revs: seq<nat>, rest: seq<Byte>)
    requires RevIdFits(prev) && Allocatable(|revs|, 8) && forall r :: r in revs ==> RevIdFits(r)
    requires StandsAt(bs, at, Varint(|revs|) + (Chain(prev, revs) + rest))
    ensures var end := at + |Varint(|revs|)| + |Chain(prev, revs)|;
      ReadList(bs, at, prev) == Ok((revs, end)) && StandsAt(bs, end, rest)
  {
    hide StandsAt, Chain, Varint, ReadList;
    assert Varint(|revs|) + (Chain(prev, revs) + rest) == (Varint(|revs|) + Chain(prev, revs)) + rest;
    StandsSplit(bs, at, Varint(|revs|) + Chain(prev, revs), rest);
    ListReads(bs, at, prev, revs);
  }

  lemma RecordReads(bs: seq<Byte>, at: nat, prevString: nat, prevOrigin: nat, t: StoredToken)
    requires TokenFits(t) && TokenTyped(t) && prevString <= U32_MAX && RevIdFits(prevOrigin)
    requires StandsAt(bs, at, Record(prevString, prevOrigin, t))
    ensures ReadRecord(bs, at, prevString, prevOrigin) == Ok((t, at + |Record(prevString, prevOrigin, t)|))
  {
    hide StandsAt, Signed, Varint, Chain, ReadList, ReadRevId, ReadNat32;
    var s1, s2, s3 := Signed(t.stringId - prevString), Signed(t.originRevId - prevOrigin),
        Signed(t.lastRevId - t.originRevId);
    var outs := Varint(|t.outbound|) + Chain(t.originRevId, t.outbound);
    var ins := Varint(|t.inbound|) + (Chain(t.originRevId, t.inbound) + outs);
    StandsSplit(bs, at, s1, s2 + (s3 + ins));
    Nat32Reads(bs, at, prevString, t.stringId);
    StandsSplit(bs, at + |s1|, s2, s3 + ins);
    RevIdReads(bs, at + |s1|, prevOrigin, t.originRevId);
    StandsSplit(bs, at + |s1| + |s2|, s3, ins);
    RevIdReads(bs, at + |s1| + |s2|, t.originRevId, t.lastRevId);
    ListThen(bs, at + |s1| + |s2| + |s3|, t.originRevId, t.inbound, outs);
    ListReads(bs, at + |s1| + |s2| + |s3| + |Varint(|t.inbound|)| + |Chain(t.originRevId, t.inbound)|, t.originRevId,
        t.outbound);
  }

  lemma {:induction false} RecordsRead(bs: seq<Byte>, at: nat, prevString: nat, prevOrigin: nat, ts: seq<StoredToken>)
    requires prevString <= U32_MAX && RevIdFits(prevOrigin)
    requires forall t :: t in ts ==> TokenFits(t) && TokenTyped(t)
    requires StandsAt(bs, at, Records(prevString, prevOrigin, ts))
    ensures ReadRecords(bs, at, prevString, prevOrigin, |ts|) == Ok(ts)
    decreases |ts|
  {
    hide StandsAt, Record, ReadRecord, Records, ReadRecords, TokenFits, TokenTyped;
    NoneRead(bs, at, prevString, prevOrigin);
    if ts != [] {
      RecordsHead(prevString, prevOrigin, ts);
      var t, r := ts[0], Record(prevString, prevOrigin, ts[0]);
      StandsSplit(bs, at, r, Records(t.stringId, t.originRevId, ts[1..]));
      RecordReads(bs, at, prevString, prevOrigin, t);
      FitsOrigin(t);
      RecordsRead(bs, at + |r|, t.stringId, t.originRevId, ts[1..]);
      OneMore(bs, at, prevString, prevOrigin, |ts|, t, at + |r|);
      assert ts == [t] + ts[1..];
    }
  }

  lemma RecordsHead(prevString: nat, prevOrigin: nat, ts: seq<StoredToken>)
    requires ts != [] && prevString <= U32_MAX && RevIdFits(prevOrigin)
    requires forall t :: t in ts ==> TokenFits(t) && TokenTyped(t)
    ensures TokenFits(ts[0]) && TokenTyped(ts[0]) && forall t :: t in ts[1..] ==> TokenFits(t) && TokenTyped(t)
    ensures ts[0].stringId <= U32_MAX && RevIdFits(ts[0].originRevId)
    ensures Records(prevString, prevOrigin, ts)
         == Record(prevString, prevOrigin, ts[0]) + Records(ts[0].stringId, ts[0].originRevId, ts[1..])
  {
    assert ts[0] in ts && forall t :: t in ts[1..] ==> t in ts;
    hide Record;
  }

  lemma NoneRead(bs: seq<Byte>, at: nat, prevString: nat, prevOrigin: int)
    ensures ReadRecords(bs, at, prevString, prevOrigin, 0) == Ok([])
  {
  }

  lemma OneMore(bs: seq<Byte>, at: nat, prevString: nat, prevOrigin: int, n: nat, t: StoredToken, next: nat)
    requires n > 0 && ReadRecord(bs, at, prevString, prevOrigin) == Ok((t, next))
    ensures var rest := ReadRecords(bs, next, t.stringId, t.originRevId, n - 1);
      rest.Ok? ==> ReadRecords(bs, at, prevString, prevOrigin, n) == Ok([t] + rest.value)
  {
    hide ReadRecord;
  }

  // ----- the file -----

  function Header(n: nat): (bs: seq<Byte>)
    ensures |bs| == 16
  {
    MAGIC_HEAD + BigEndian(SCHEMA_VERSION, 2) + BigEndian(0, 2) + BigEndian(n, 4) + BigEndian(0, 4)
  }

  function File(crc: Checksum, ts: seq<StoredToken>): seq<Byte>
    requires forall t :: t in ts ==> TokenFits(t) && TokenTyped(t)
  {
    var payload := Header(|ts|) + Records(0, 0, ts);
    payload + MAGIC_TAIL + BigEndian(crc(payload), 4)
  }

  /** Trailer, checksum, header and version are checked before any record is read. */
  function Parse(crc: Checksum, all: seq<Byte>): Result<seq<StoredToken>, CodecError> {
    if |all| < 24 then Err(UnexpectedEof)
    else
      var payload, trailer := all[..|all| - 8], all[|all| - 8..];
      if trailer[..4] != MAGIC_TAIL then Err(BadMagic)
      else if FromBigEndian(trailer[4..]) != crc(payload) then Err(CrcMismatch)
      else if payload[..4] != MAGIC_HEAD then Err(BadMagic)
      else if FromBigEndian(payload[4..6]) > SCHEMA_VERSION then Err(UnsupportedVersion)
      else ReadRecords(payload[16..], 0, 0, 0, FromBigEndian(payload[8..12]))
  }

  lemma HeaderReads(n: nat)
    requires n <= U32_MAX
    ensures var h := Header(n);
      && h[..4] == MAGIC_HEAD && FromBigEndian(h[4..6]) == SCHEMA_VERSION
      && FromBigEndian(h[8..12]) == n
  {
    Widths();
    BigEndianRoundTrip(SCHEMA_VERSION, 2);
    BigEndianRoundTrip(n, 4);
    hide BigEndian, FromBigEndian, Pow256;
    var version, zero, count, last := BigEndian(SCHEMA_VERSION, 2), BigEndian(0, 2), BigEndian(n, 4), BigEndian(0, 4);
    assert Header(n) == MAGIC_HEAD + version + (zero + count + last);
    Middle(MAGIC_HEAD, version, zero + count + last);
    assert Header(n) == (MAGIC_HEAD + version + zero) + count + last;
    Middle(MAGIC_HEAD + version + zero, count, last);
  }

  lemma Widths()
    ensures Pow256(2) == 65536 && Pow256(4) == U32_MAX + 1
  {
    assert Pow256(1) == 256 && Pow256(0) == 1;
    assert Pow256(3) == 256 * Pow256(2) && Pow256(4) == 256 * Pow256(3);
  }

  lemma TrailerReads(crc: Checksum, payload: seq<Byte>)
    requires ChecksumOk(crc)
    ensures var all := payload + MAGIC_TAIL + BigEndian(crc(payload), 4);
      && all[..|all| - 8] == payload && all[|all| - 8..][..4] == MAGIC_TAIL
      && FromBigEndian(all[|all| - 8..][4..]) == crc(payload)
  {
    Widths();
    BigEndianRoundTrip(crc(payload), 4);
    hide BigEndian, FromBigEndian;
    var tail := BigEndian(crc(payload), 4);
    var all := payload + MAGIC_TAIL + tail;
    assert all[|all| - 8..] == MAGIC_TAIL + tail;
  }

  /** Reading a written token file gives back every record. */
  lemma TokensRoundTrip(crc: Checksum, ts: seq<StoredToken>)
    requires ChecksumOk(crc) && |ts| <= U32_MAX && forall t :: t in ts ==> TokenFits(t) && TokenTyped(t)
    ensures Parse(crc, File(crc, ts)) == Ok(ts)
  {
    hide Records, ReadRecords, ChecksumOk, Header, BigEndian, FromBigEndian;
    var payload := Header(|ts|) + Records(0, 0, ts);
    TrailerReads(crc, payload);
    HeaderReads(|ts|);
    assert payload[..4] == Header(|ts|)[..4] && payload[4..6] == Header(|ts|)[4..6]
        && payload[8..12] == Header(|ts|)[8..12];
    assert payload[16..] == Records(0, 0, ts);
    RecordsRead(payload[16..], 0, 0, 0, ts);
  }

  // ----- the loops -----

  function LastOf(prev: nat, revs: seq<nat>): nat {
    if revs == [] then prev else revs[|revs| - 1]
  }

  lemma {:induction false} ChainMore(prev: nat, revs: seq<nat>, r: nat)
    requires RevIdFits(prev) && RevIdFits(r) && forall x :: x in revs ==> RevIdFits(x)
    ensures forall x :: x in revs + [r] ==> RevIdFits(x)
    ensures RevIdFits(LastOf(prev, revs))
    ensures Chain(prev, revs + [r]) == Chain(prev, revs) + Signed(r - LastOf(prev, revs))
    decreases |revs|
  {
    hide Signed, Chain;
    ChainHead(prev, revs + [r]);
    if revs == [] {
      assert (revs + [r])[1..] == [] && (revs + [r])[0] == r;
      NoChain(r);
      NoChain(prev);
    } else {
      assert revs[0] in revs;
      assert (revs + [r])[0] == revs[0] && (revs + [r])[1..] == revs[1..] + [r];
      ChainHead(prev, revs);
      ChainMore(revs[0], revs[1..], r);
      ghost var d, mid, x := Signed(revs[0] - prev), Chain(revs[0], revs[1..]), Signed(r - LastOf(prev, revs));
      assert (d + mid) + x == d + (mid + x);
    }
  }

  lemma ChainHead(prev: nat, revs: seq<nat>)
    requires revs != [] && RevIdFits(prev) && forall x :: x in revs ==> RevIdFits(x)
    ensures RevIdFits(revs[0]) && forall x :: x in revs[1..] ==> RevIdFits(x)
    ensures Chain(prev, revs) == Signed(revs[0] - prev) + Chain(revs[0], revs[1..])
  {
    FirstFits(revs);
  }

  method WriteChain(prev0: nat, revs: seq<nat>) returns (r: Result<seq<Byte>, CodecError>)
    requires RevIdFits(prev0)
    ensures r.Ok? <==> forall v :: v in revs ==> RevIdFits(v)
    ensures r.Ok? ==> r.value == Chain(prev0, revs)
    ensures r.Err? ==> r.error == Malformed
  {
    hide Signed, Chain;
    var body: seq<Byte>, prev: nat := [], prev0;
    NoChain(prev0);
    for i := 0 to |revs|
      invariant forall v :: v in revs[..i] ==> RevIdFits(v)
      invariant body == Chain(prev0, revs[..i]) && prev == LastOf(prev0, revs[..i])
    {
      if !RevIdFits(revs[i]) {
        assert revs[i] in revs;
        return Err(Malformed);
      }
      ChainMore(prev0, revs[..i], revs[i]);
      assert revs[..i + 1] == revs[..i] + [revs[i]];
      var d: int := revs[i] as int - prev as int;
      var delta := WriteVarintI64(d);
      body := body + delta;
      prev := revs[i];
    }
    assert revs[..|revs|] == revs;
    r := Ok(body);
  }

  lemma NoChain(prev: nat)
    requires RevIdFits(prev)
    ensures Chain(prev, []) == []
  {
  }

  method WriteVarintI64(v: int) returns (bs: seq<Byte>)
    requires IsI64(v)
    ensures bs == Signed(v)
  {
    ZigzagBijection(v, 0);
    bs := WriteVarintU64(ZigzagEncode(v));
  }

  method WriteRecord(prevString: nat, prevOrigin: nat, t: StoredToken) returns (r: Result<seq<Byte>, CodecError>)
    requires TokenTyped(t) && prevString <= U32_MAX && RevIdFits(prevOrigin)
    ensures r.Ok? <==> TokenFits(t)
    ensures r.Ok? ==> r.value == Record(prevString, prevOrigin, t)
    ensures r.Err? ==> r.error == Malformed
  {
    hide Signed, Chain, Varint;
    var body := WriteVarintI64(t.stringId - prevString);
    if !RevIdFits(t.originRevId) || !RevIdFits(t.lastRevId) {
      return Err(Malformed);
    }
    var origin := WriteVarintI64(t.originRevId - prevOrigin);
    var last := WriteVarintI64(t.lastRevId - t.originRevId);
    var nIn := WriteVarintU64(|t.inbound|);
    var inbound := WriteChain(t.originRevId, t.inbound);
    if inbound.Err? {
      return inbound;
    }
    var nOut := WriteVarintU64(|t.outbound|);
    var outbound := WriteChain(t.originRevId, t.outbound);
    if outbound.Err? {
      return outbound;
    }
    r := Ok(body + origin + last + nIn + inbound.value + nOut + outbound.value);
    Reassociated(body, origin, last, nIn, inbound.value, nOut, outbound.value);
  }

  lemma Reassociated(a: seq<Byte>, b: seq<Byte>, c: seq<Byte>, d: seq<Byte>, e: seq<Byte>, f: seq<Byte>, g: seq<Byte>)
    ensures a + b + c + d + e + f + g == a + (b + (c + (d + (e + (f + g)))))
  {
  }

  function LastString(prev: nat, ts: seq<StoredToken>): nat {
    if ts == [] then prev else ts[|ts| - 1].stringId
  }

  function LastOrigin(prev: nat, ts: seq<StoredToken>): nat {
    if ts == [] then prev else ts[|ts| - 1].originRevId
  }

  lemma {:induction false} RecordsMore(prevString: nat, prevOrigin: nat, ts: seq<StoredToken>, t: StoredToken)
    requires prevString <= U32_MAX && RevIdFits(prevOrigin) && TokenFits(t) && TokenTyped(t)
    requires forall x :: x in ts ==> TokenFits(x) && TokenTyped(x)
    ensures forall x :: x in ts + [t] ==> TokenFits(x) && TokenTyped(x)
    ensures LastString(prevString, ts) <= U32_MAX && RevIdFits(LastOrigin(prevOrigin, ts))
    ensures Records(prevString, prevOrigin, ts + [t])
         == Records(prevString, prevOrigin, ts) + Record(LastString(prevString, ts), LastOrigin(prevOrigin, ts), t)
    decreases |ts|
  {
    hide Record;
    if ts == [] {
      assert [t][1..] == [];
      assert Records(prevString, prevOrigin, [t]) == Record(prevString, prevOrigin, t)
          + Records(t.stringId, t.originRevId, []);
    } else {
      assert ts[0] in ts;
      assert (ts + [t])[0] == ts[0] && (ts + [t])[1..] == ts[1..] + [t];
      RecordsMore(ts[0].stringId, ts[0].originRevId, ts[1..], t);
    }
  }

  /** Writing fails exactly when there are too many tokens or some revision id does not fit a
      signed word. */
  method WriteTokens(crc: Checksum, ts: seq<StoredToken>) returns (r: Result<seq<Byte>, CodecError>)
    requires ChecksumOk(crc) && forall t :: t in ts ==> TokenTyped(t)
    ensures r.Ok? <==> |ts| <= U32_MAX && forall t :: t in ts ==> TokenFits(t)
    ensures r.Ok? ==> r.value == File(crc, ts) && Parse(crc, r.value) == Ok(ts)
    ensures r.Err? ==> r.error == Malformed
  {
    hide Record, Records, Header, TokenFits, BigEndian, Parse, ChecksumOk;
    if |ts| > U32_MAX {
      return Err(Malformed);
    }
    var body := [];
    var prevString, prevOrigin := 0, 0;
    NoRecords();
    for i := 0 to |ts|
      invariant forall t :: t in ts[..i] ==> TokenFits(t) && TokenTyped(t)
      invariant prevString == LastString(0, ts[..i]) && prevOrigin == LastOrigin(0, ts[..i])
      invariant prevString <= U32_MAX && RevIdFits(prevOrigin)
      invariant body == Records(0, 0, ts[..i])
    {
      assert ts[i] in ts;
      var rec := WriteRecord(prevString, prevOrigin, ts[i]);
      if rec.Err? {
        return Err(rec.error);
      }
      RecordsMore(0, 0, ts[..i], ts[i]);
      FitsOrigin(ts[i]);
      assert ts[..i + 1] == ts[..i] + [ts[i]];
      body := body + rec.value;
      prevString, prevOrigin := ts[i].stringId, ts[i].originRevId;
    }
    assert ts[..|ts|] == ts;
    var payload := Header(|ts|) + body;
    r := Ok(payload + MAGIC_TAIL + BigEndian(crc(payload), 4));
    TokensRoundTrip(crc, ts);
  }

  lemma NoRecords()
    ensures Records(0, 0, []) == []
  {
  }

  lemma FitsOrigin(t: StoredToken)
    requires TokenFits(t)
    ensures RevIdFits(t.originRevId)
  {
  }

  /** Reads the records one after the other, stopping at the first malformed one. */
  method ParseTokens(crc: Checksum, all: seq<Byte>) returns (r: Result<seq<StoredToken>, CodecError>)
    ensures r == Parse(crc, all)
  {
    hide ReadRecord, FromBigEndian;
    if |all| < 24 {
      return Err(UnexpectedEof);
    }
    var payload, trailer := all[..|all| - 8], all[|all| - 8..];
    if trailer[..4] != MAGIC_TAIL {
      return Err(BadMagic);
    }
    if FromBigEndian(trailer[4..]) != crc(payload) {
      return Err(CrcMismatch);
    }
    if payload[..4] != MAGIC_HEAD {
      return Err(BadMagic);
    }
    if FromBigEndian(payload[4..6]) > SCHEMA_VERSION {
      return Err(UnsupportedVersion);
    }
    r := ReadAll(payload[16..], FromBigEndian(payload[8..12]));
  }

  method ReadAll(bs: seq<Byte>, n: nat) returns (r: Result<seq<StoredToken>, CodecError>)
    ensures r == ReadRecords(bs, 0, 0, 0, n)
  {
    hide ReadRecord;
    var out: seq<StoredToken> := [];
    var at: nat, prevString: nat, prevOrigin: nat := 0, 0, 0;
    AfterNothing(ReadRecords(bs, 0, 0, 0, n));
    for i := 0 to n
      invariant ReadRecords(bs, 0, 0, 0, n) == After(out, ReadRecords(bs, at, prevString, prevOrigin, n - i))
    {
      var rec := ParseRecord(bs, at, prevString, prevOrigin);
      match rec {
        case Err(e) => return Err(e);
        case Ok((t, next)) =>
          AfterOne(out, t, ReadRecords(bs, next, t.stringId, t.originRevId, n - i - 1));
          out := out + [t];
          at, prevString, prevOrigin := next, t.stringId, t.originRevId;
      }
    }
    assert out + [] == out;
    r := Ok(out);
  }

  method ParseRecord(bs: seq<Byte>, at: nat, prevString: nat, prevOrigin: int) returns (r: Read<StoredToken>)
    ensures r == ReadRecord(bs, at, prevString, prevOrigin)
  {
    hide ReadNat32, ReadRevId, ReadChain, ReadVarint;
    var stringId := ReadNat32(bs, at, prevString);
    if stringId.Err? {
      return Err(stringId.error);
    }
    var origin := ReadRevId(bs, stringId.value.1, prevOrigin);
    if origin.Err? {
      return Err(origin.error);
    }
    var last := ReadRevId(bs, origin.value.1, origin.value.0);
    if last.Err? {
      return Err(last.error);
    }
    var inbound := ParseList(bs, last.value.1, origin.value.0);
    if inbound.Err? {
      return Err(inbound.error);
    }
    var outbound := ParseList(bs, inbound.value.1, origin.value.0);
    if outbound.Err? {
      return Err(outbound.error);
    }
    r := Ok((StoredToken(stringId.value.0, origin.value.0, last.value.0, inbound.value.0, outbound.value.0),
        outbound.value.1));
  }

  /** A counted chain. */
  method ParseList(bs: seq<Byte>, at: nat, prev0: int) returns (r: Read<seq<nat>>)
    ensures r == ReadList(bs, at, prev0)
  {
    hide ReadRevId;
    var count := ReadVarintU64(bs, at);
    if count.Err? {
      return Err(count.error);
    }
    if !Allocatable(count.value.0, 8) {
      return Err(OutOfRange);
    }
    var out: seq<nat> := [];
    var pos, prev: int := count.value.1, prev0;
    PrefixedNothing(ReadChain(bs, pos, prev, count.value.0));
    for i := 0 to count.value.0
      invariant ReadList(bs, at, prev0) == Prefixed(out, ReadChain(bs, pos, prev, count.value.0 - i))
    {
      var next := ReadRevId(bs, pos, prev);
      match next {
        case Err(e) => return Err(e);
        case Ok((v, end)) =>
          PrefixedOne(out, v, ReadChain(bs, end, v, count.value.0 - i - 1));
          out := out + [v];
          pos, prev := end, v;
      }
    }
    assert out + [] == out;
    r := Ok((out, pos));
  }

  function After(out: seq<StoredToken>, r: Result<seq<StoredToken>, CodecError>): Result<seq<StoredToken>, CodecError> {
    match r
    case Err(e) => Err(e)
    case Ok(ts) => Ok(out + ts)
  }

  lemma AfterOne(out: seq<StoredToken>, t: StoredToken, r: Result<seq<StoredToken>, CodecError>)
    ensures After(out + [t], r) == After(out, match r case Err(e) => Err(e) case Ok(ts) => Ok([t] + ts))
  {
    if r.Ok? { assert out + [t] + r.value == out + ([t] + r.value); }
  }

  lemma AfterNothing(r: Result<seq<StoredToken>, CodecError>)
    ensures After([], r) == r
  {
    if r.Ok? { assert [] + r.value == r.value; }
  }
}
