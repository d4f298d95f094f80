/** The revisions file: bodies in processing order, then a table of their offsets sorted by
    revision id, so that one revision can be read without the others. */
module RevisionsFile {
  import opened Wrappers
  import opened Seqs
  import opened Codec
  import opened Stored
  import SI = SortedIndexes
  import TF = TokensFile
  import Utf8

  const MAGIC_HEAD: seq<Byte> := [0x57, 0x57, 0x52, 0x56]
  const MAGIC_TAIL: seq<Byte> := [0x56, 0x52, 0x57, 0x57]
  const U32: int := 0x1_0000_0000

  /** The text encoding, as given functions; decoding refuses malformed bytes. */
  datatype Coding = Coding(encode: string -> seq<Byte>, decode: seq<Byte> -> Option<string>)

  ghost predicate CodingOk(u: Coding) {
    forall s :: u.decode(u.encode(s)) == Some(s)
  }

  /** The coding the files use. */
  const UTF8 := Coding(Utf8.Encode, Utf8.Strict)

  lemma Utf8IsCoding()
    ensures CodingOk(UTF8)
  {
    forall s ensures UTF8.decode(UTF8.encode(s)) == Some(s) { Utf8.StrictRoundTrip(s); }
  }

  // ----- what can be stored: the field widths of the original -----

  ghost predicate TextTyped(u: Coding, s: string) {
    |u.encode(s)| < U64
  }

  ghost predicate EntryTyped(u: Coding, e: Entry) {
    TextTyped(u, e.hash) && e.id <= U32_MAX
  }

  ghost predicate RevisionTyped(u: Coding, r: StoredRevision) {
    && r.revId < U64 && r.length < U64 && r.originalAdds <= U32_MAX
    && TextTyped(u, r.timestamp) && TextTyped(u, r.editor)
    && Allocatable(|r.tokenSequence|, 4) && (forall t :: t in r.tokenSequence ==> t <= U32_MAX)
    && Allocatable(|r.orderedParagraphs|, 32) && forall e :: e in r.orderedParagraphs ==> EntryTyped(u, e)
  }

  ghost predicate AllTyped(u: Coding, rs: seq<StoredRevision>) {
    forall r :: r in rs ==> RevisionTyped(u, r)
  }

  // ----- bodies -----

  function Text(u: Coding, s: string): seq<Byte> {
    Varint(|u.encode(s)|) + u.encode(s)
  }

  /** Paragraph hashes with the deltas of their ids. */
  function Entries(u: Coding, prev: nat, es: seq<Entry>): seq<Byte>
    requires prev <= U32_MAX && forall e :: e in es ==> EntryTyped(u, e)
    decreases |es|
  {
    if es == [] then []
    else
      assert es[0] in es && EntryTyped(u, es[0]);
      Text(u, es[0].hash) + (Signed(es[0].id - prev) + Entries(u, es[0].id, es[1..]))
  }

  function Lists(u: Coding, r: StoredRevision): seq<Byte>
    requires RevisionTyped(u, r)
  {
    Varint(|r.tokenSequence|) + (TF.Chain(0, r.tokenSequence)
    + (Varint(|r.orderedParagraphs|) + Entries(u, 0, r.orderedParagraphs)))
  }

  function Body(u: Coding, r: StoredRevision): seq<Byte>
    requires RevisionTyped(u, r)
  {
    Varint(r.revId) + (Text(u, r.timestamp) + (Text(u, r.editor)
        + (Varint(r.length) + (Varint(r.originalAdds) + Lists(u, r)))))
  }

  function Bodies(u: Coding, rs: seq<StoredRevision>): seq<Byte>
    requires AllTyped(u, rs)
    decreases |rs|
  {
    if rs == [] then []
    else
      assert rs[0] in rs;
      Body(u, rs[0]) + Bodies(u, rs[1..])
  }

  // ----- reading -----

  function ReadText(u: Coding, bs: seq<Byte>, at: nat): Read<string> {
    match ReadVarint(bs, at, 0, 0)
    case Err(e) => Err(e)
    case Ok((n, next)) =>
      if next + n <= |bs| then
        match u.decode(bs[next..next + n])
        case None => Err(Malformed)
        case Some(s) => Ok((s, next + n))
      else Err(if next + n < U64 then UnexpectedEof else OutOfRange)
  }

  function ReadIds(bs: seq<Byte>, at: nat, prev: nat, n: nat): Read<seq<nat>>
    decreases n
  {
    if n == 0 then Ok(([], at))
    else
      match TF.ReadNat32(bs, at, prev)
      case Err(e) => Err(e)
      case Ok((v, next)) => Prefixed([v], ReadIds(bs, next, v, n - 1))
  }

  function ReadEntry(u: Coding, bs: seq<Byte>, at: nat, prev: nat): Read<Entry> {
    match ReadText(u, bs, at)
    case Err(e) => Err(e)
    case Ok((hash, next)) =>
      match TF.ReadNat32(bs, next, prev)
      case Err(e) => Err(e)
      case Ok((id, end)) => Ok((Entry(hash, id), end))
  }

  function ReadEntries(u: Coding, bs: seq<Byte>, at: nat, prev: nat, n: nat): Read<seq<Entry>>
    decreases n
  {
    if n == 0 then Ok(([], at))
    else
      match ReadEntry(u, bs, at, prev)
      case Err(e) => Err(e)
      case Ok((e, next)) => Prefixed([e], ReadEntries(u, bs, next, e.id, n - 1))
  }

  function ReadTokenList(bs: seq<Byte>, at: nat): Read<seq<nat>> {
    match ReadVarint(bs, at, 0, 0)
    case Err(e) => Err(e)
    case Ok((n, next)) => if Allocatable(n, 4) then ReadIds(bs, next, 0, n) else Err(OutOfRange)
  }

  function ReadEntryList(u: Coding, bs: seq<Byte>, at: nat): Read<seq<Entry>> {
    match ReadVarint(bs, at, 0, 0)
    case Err(e) => Err(e)
    case Ok((n, next)) => if Allocatable(n, 32) then ReadEntries(u, bs, next, 0, n) else Err(OutOfRange)
  }

  function ReadBody(u: Coding, bs: seq<Byte>, at: nat): Read<StoredRevision> {
    match ReadVarint(bs, at, 0, 0)
    case Err(e) => Err(e)
    case Ok((revId, p1)) =>
      match ReadText(u, bs, p1)
      case Err(e) => Err(e)
      case Ok((timestamp, p2)) =>
        match ReadText(u, bs, p2)
        case Err(e) => Err(e)
        case Ok((editor, p3)) => ReadRest(u, bs, p3, revId, timestamp, editor)
  }

  function ReadRest(u: Coding, bs: seq<Byte>, at: nat, revId: nat, timestamp: string,
      editor: string): Read<StoredRevision> {
    match ReadVarint(bs, at, 0, 0)
    case Err(e) => Err(e)
    case Ok((length, p1)) =>
      match ReadVarint(bs, p1, 0, 0)
      case Err(e) => Err(e)
      case Ok((adds, p2)) =>
        if adds > U32_MAX then Err(Malformed)
        else
          match ReadTokenList(bs, p2)
          case Err(e) => Err(e)
          case Ok((tokens, p3)) =>
            match ReadEntryList(u, bs, p3)
            case Err(e) => Err(e)
            case Ok((paragraphs, p4)) => Ok((StoredRevision(revId, timestamp, editor, length, adds, tokens,
                paragraphs), p4))
  }

  function ReadBodies(u: Coding, bs: seq<Byte>, at: nat, n: nat): Read<seq<StoredRevision>>
    decreases n
  {
    if n == 0 then Ok(([], at))
    else
      match ReadBody(u, bs, at)
      case Err(e) => Err(e)
      case Ok((r, next)) => Prefixed([r], ReadBodies(u, bs, next, n - 1))
  }

  // ----- bodies read back -----

  lemma VarintThen(bs: seq<Byte>, at: nat, v: nat, rest: seq<Byte>)
    requires StandsAt(bs, at, Varint(v) + rest) && v < U64
    ensures ReadVarint(bs, at, 0, 0) == Ok((v, at + |Varint(v)|)) && StandsAt(bs, at + |Varint(v)|, rest)
  {
    StandsSplit(bs, at, Varint(v), rest);
    VarintRoundTrip(bs, at, v);
  }

  lemma TextThen(u: Coding, bs: seq<Byte>, at: nat, s: string, rest: seq<Byte>)
    requires CodingOk(u) && TextTyped(u, s) && StandsAt(bs, at, Text(u, s) + rest)
    ensures ReadText(u, bs, at) == Ok((s, at + |Text(u, s)|)) && StandsAt(bs, at + |Text(u, s)|, rest)
  {
    hide Varint, ReadVarint;
    var bytes := u.encode(s);
    assert Text(u, s) + rest == Varint(|bytes|) + (bytes + rest);
    VarintThen(bs, at, |bytes|, bytes + rest);
    StandsSplit(bs, at + |Varint(|bytes|)|, bytes, rest);
  }

  lemma Nat32Then(bs: seq<Byte>, at: nat, prev: nat, v: nat, rest: seq<Byte>)
    requires prev <= U32_MAX && v <= U32_MAX && StandsAt(bs, at, Signed(v - prev) + rest)
    ensures TF.ReadNat32(bs, at, prev) == Ok((v, at + |Signed(v - prev)|))
        && StandsAt(bs, at + |Signed(v - prev)|, rest)
  {
    hide Signed;
    StandsSplit(bs, at, Signed(v - prev), rest);
    TF.Nat32Reads(bs, at, prev, v);
  }

  lemma {:induction false} IdsThen(bs: seq<Byte>, at: nat, prev: nat, ids: seq<nat>, rest: seq<Byte>)
    requires prev <= U32_MAX && forall id :: id in ids ==> id <= U32_MAX
    requires StandsAt(bs, at, TF.Chain(prev, ids) + rest)
    ensures var end := at + |TF.Chain(prev, ids)|;
      ReadIds(bs, at, prev, |ids|) == Ok((ids, end)) && StandsAt(bs, end, rest)
    decreases |ids|
  {
    hide StandsAt, Signed, TF.ReadNat32;
    if ids == [] {
      assert TF.Chain(prev, ids) + rest == rest;
    } else {
      assert ids[0] in ids && forall id :: id in ids[1..] ==> id in ids;
      var delta, more := Signed(ids[0] - prev), TF.Chain(ids[0], ids[1..]);
      assert TF.Chain(prev, ids) + rest == delta + (more + rest);
      Nat32Then(bs, at, prev, ids[0], more + rest);
      IdsThen(bs, at + |delta|, ids[0], ids[1..], rest);
      assert ids == [ids[0]] + ids[1..];
    }
  }

  lemma EntryThen(u: Coding, bs: seq<Byte>, at: nat, prev: nat, e: Entry, rest: seq<Byte>)
    requires CodingOk(u) && prev <= U32_MAX && EntryTyped(u, e)
    requires StandsAt(bs, at, Text(u, e.hash) + (Signed(e.id - prev) + rest))
    ensures var end := at + |Text(u, e.hash)| + |Signed(e.id - prev)|;
      ReadEntry(u, bs, at, prev) == Ok((e, end)) && StandsAt(bs, end, rest)
  {
    hide StandsAt, Signed, Text, ReadText, TF.ReadNat32, CodingOk, TextTyped;
    TextThen(u, bs, at, e.hash, Signed(e.id - prev) + rest);
    Nat32Then(bs, at + |Text(u, e.hash)|, prev, e.id, rest);
  }

  /** The entries that follow the first one, in what is written and in what is read. */
  lemma EntriesParts(u: Coding, prev: nat, es: seq<Entry>, rest: seq<Byte>)
    requires es != [] && prev <= U32_MAX && forall e :: e in es ==> EntryTyped(u, e)
    ensures EntryTyped(u, es[0]) && es[0].id <= U32_MAX && forall e :: e in es[1..] ==> EntryTyped(u, e)
    ensures var text, delta, more := Text(u, es[0].hash), Signed(es[0].id - prev), Entries(u, es[0].id, es[1..]);
      && Entries(u, prev, es) + rest == text + (delta + (more + rest))
      && |Entries(u, prev, es)| == |text| + |delta| + |more|
  {
    hide Signed, Text, TextTyped, Entries;
    assert es[0] in es;
    EntriesHead(u, prev, es);
  }

  lemma EntriesFollow(u: Coding, bs: seq<Byte>, at: nat, prev: nat, n: nat, e: Entry, next: nat, more: seq<Entry>,
      end: nat)
    requires n > 0 && ReadEntry(u, bs, at, prev) == Ok((e, next))
    requires ReadEntries(u, bs, next, e.id, n - 1) == Ok((more, end))
    ensures ReadEntries(u, bs, at, prev, n) == Ok(([e] + more, end))
  {
    hide ReadEntry;
  }

  lemma {:induction false} EntriesThen(u: Coding, bs: seq<Byte>, at: nat, prev: nat, es: seq<Entry>, rest: seq<Byte>)
    requires CodingOk(u) && prev <= U32_MAX && forall e :: e in es ==> EntryTyped(u, e)
    requires StandsAt(bs, at, Entries(u, prev, es) + rest)
    ensures var end := at + |Entries(u, prev, es)|;
      ReadEntries(u, bs, at, prev, |es|) == Ok((es, end)) && StandsAt(bs, end, rest)
    decreases |es|
  {
    hide StandsAt, Signed, Text, ReadEntry, CodingOk, TextTyped, EntryTyped, Entries, ReadEntries;
    if es == [] {
      NoEntries(u, prev);
      NothingRead(u, bs, at, prev);
      assert [] + rest == rest;
    } else {
      var e, more := es[0], es[1..];
      EntriesParts(u, prev, es, rest);
      var next := at + |Text(u, e.hash)| + |Signed(e.id - prev)|;
      EntryThen(u, bs, at, prev, e, Entries(u, e.id, more) + rest);
      EntriesThen(u, bs, next, e.id, more, rest);
      EntriesFollow(u, bs, at, prev, |es|, e, next, more, at + |Entries(u, prev, es)|);
      assert es == [e] + more;
    }
  }

  lemma NothingRead(u: Coding, bs: seq<Byte>, at: nat, prev: nat)
    ensures ReadEntries(u, bs, at, prev, 0) == Ok(([], at))
  {
  }

  lemma ListsRead(u: Coding, bs: seq<Byte>, at: nat, r: StoredRevision)
    requires CodingOk(u) && RevisionTyped(u, r) && StandsAt(bs, at, Lists(u, r))
    ensures var mid := at + |Varint(|r.tokenSequence|)| + |TF.Chain(0, r.tokenSequence)|;
      && ReadTokenList(bs, at) == Ok((r.tokenSequence, mid))
      && ReadEntryList(u, bs, mid) == Ok((r.orderedParagraphs, at + |Lists(u, r)|))
  {
    hide StandsAt, Varint, ReadVarint, TF.Chain, Entries, ReadIds, ReadEntries, CodingOk, EntryTyped;
    var ids, es := r.tokenSequence, r.orderedParagraphs;
    var n, chain, m, entries := Varint(|ids|), TF.Chain(0, ids), Varint(|es|), Entries(u, 0, es);
    VarintThen(bs, at, |ids|, chain + (m + entries));
    IdsThen(bs, at + |n|, 0, ids, m + entries);
    VarintThen(bs, at + |n| + |chain|, |es|, entries);
    assert entries + [] == entries;
    EntriesThen(u, bs, at + |n| + |chain| + |m|, 0, es, []);
  }

  /** A body read from where it stands, whatever follows it. */
  lemma BodyReads(u: Coding, bs: seq<Byte>, at: nat, r: StoredRevision)
    requires CodingOk(u) && RevisionTyped(u, r) && StandsAt(bs, at, Body(u, r))
    ensures ReadBody(u, bs, at) == Ok((r, at + |Body(u, r)|))
  {
    hide StandsAt, Varint, ReadVarint, Text, ReadText, Lists, ReadTokenList, ReadEntryList, CodingOk, EntryTyped,
      TextTyped;
    var id, ts, ed, len, adds := Varint(r.revId), Text(u, r.timestamp), Text(u, r.editor), Varint(r.length),
        Varint(r.originalAdds);
    var lists := Lists(u, r);
    VarintThen(bs, at, r.revId, ts + (ed + (len + (adds + lists))));
    TextThen(u, bs, at + |id|, r.timestamp, ed + (len + (adds + lists)));
    TextThen(u, bs, at + |id| + |ts|, r.editor, len + (adds + lists));
    VarintThen(bs, at + |id| + |ts| + |ed|, r.length, adds + lists);
    VarintThen(bs, at + |id| + |ts| + |ed| + |len|, r.originalAdds, lists);
    ListsRead(u, bs, at + |id| + |ts| + |ed| + |len| + |adds|, r);
  }

  lemma {:induction false} BodiesRead(u: Coding, bs: seq<Byte>, at: nat, rs: seq<StoredRevision>)
    requires CodingOk(u) && AllTyped(u, rs) && StandsAt(bs, at, Bodies(u, rs))
    ensures ReadBodies(u, bs, at, |rs|) == Ok((rs, at + |Bodies(u, rs)|))
    decreases |rs|
  {
    hide StandsAt, Body, ReadBody, CodingOk, RevisionTyped;
    if rs != [] {
      assert rs[0] in rs && forall r :: r in rs[1..] ==> r in rs;
      StandsSplit(bs, at, Body(u, rs[0]), Bodies(u, rs[1..]));
      BodyReads(u, bs, at, rs[0]);
      BodiesRead(u, bs, at + |Body(u, rs[0])|, rs[1..]);
      assert rs == [rs[0]] + rs[1..];
    }
  }

  // ----- offsets -----

  /** Where the body of record `i` starts in the data section. */
  function Offset(u: Coding, rs: seq<StoredRevision>, i: nat): nat
    requires AllTyped(u, rs) && i <= |rs|
  {
    assert forall r :: r in rs[..i] ==> r in rs;
    |Bodies(u, rs[..i])|
  }

  lemma {:induction false} BodyStands(u: Coding, bs: seq<Byte>, at: nat, rs: seq<StoredRevision>, i: nat)
    requires AllTyped(u, rs) && i < |rs| && StandsAt(bs, at, Bodies(u, rs))
    ensures rs[i] in rs && StandsAt(bs, at + Offset(u, rs, i), Body(u, rs[i]))
    ensures Offset(u, rs, i) <= |Bodies(u, rs)|
    decreases |rs|
  {
    hide StandsAt, Body, RevisionTyped;
    assert rs[0] in rs && forall r :: r in rs[1..] ==> r in rs;
    StandsSplit(bs, at, Body(u, rs[0]), Bodies(u, rs[1..]));
    if i == 0 {
      assert rs[..0] == [];
    } else {
      assert forall r :: r in rs[..i] ==> r in rs;
      assert rs[..i][0] == rs[0] && rs[..i][1..] == rs[1..][..i - 1];
      BodyStands(u, bs, at + |Body(u, rs[0])|, rs[1..], i - 1);
    }
  }

  lemma {:induction false} BodiesAppend(u: Coding, rs: seq<StoredRevision>, r: StoredRevision)
    requires AllTyped(u, rs) && RevisionTyped(u, r)
    ensures AllTyped(u, rs + [r]) && Bodies(u, rs + [r]) == Bodies(u, rs) + Body(u, r)
    decreases |rs|
  {
    hide Body, RevisionTyped;
    if rs == [] {
      assert [r][1..] == [] && [] + [r] == [r];
      assert Bodies(u, [r]) == Body(u, r) + Bodies(u, []);
    } else {
      assert rs[0] in rs && forall x :: x in rs[1..] ==> x in rs;
      assert (rs + [r])[0] == rs[0] && (rs + [r])[1..] == rs[1..] + [r];
      BodiesAppend(u, rs[1..], r);
    }
  }

  function Slot(u: Coding, rs: seq<StoredRevision>, i: nat): SI.Pair
    requires AllTyped(u, rs) && i < |rs|
  {
    (rs[i].revId, Offset(u, rs, i))
  }

  function Slots(u: Coding, rs: seq<StoredRevision>): seq<SI.Pair>
    requires AllTyped(u, rs)
  {
    seq(|rs|, i requires 0 <= i < |rs| => Slot(u, rs, i))
  }

  /** One entry for each record, sorted by revision id; equal ids may come in any order. */
  ghost predicate TableOf(u: Coding, rs: seq<StoredRevision>, table: seq<SI.Pair>)
    requires AllTyped(u, rs)
  {
    SI.Sorted(table) && multiset(table) == multiset(Slots(u, rs))
  }

  // ----- the file -----

  /** The rows of the table, twelve bytes each. */
  function Rows(table: seq<SI.Pair>): (bs: seq<Byte>)
    ensures |bs| == 12 * |table|
  {
    if table == [] then [] else BigEndian(table[0].0, 8) + (BigEndian(table[0].1, 4) + Rows(table[1..]))
  }

  /** The table's offset is a 32-bit sum, which wraps. */
  function Header(n: nat, size: nat): (bs: seq<Byte>)
    ensures |bs| == 24
  {
    MAGIC_HEAD + BigEndian(SCHEMA_VERSION, 2) + BigEndian(0, 2) + BigEndian(n, 4)
    + BigEndian((24 + size) % U32, 4) + BigEndian(size, 4) + BigEndian(0, 4)
  }

  function Payload(u: Coding, rs: seq<StoredRevision>, table: seq<SI.Pair>): seq<Byte>
    requires AllTyped(u, rs)
  {
    Header(|rs|, |Bodies(u, rs)|) + (Bodies(u, rs) + Rows(table))
  }

  function File(u: Coding, crc: Checksum, rs: seq<StoredRevision>, table: seq<SI.Pair>): seq<Byte>
    requires AllTyped(u, rs)
  {
    Payload(u, rs, table) + MAGIC_TAIL + BigEndian(crc(Payload(u, rs, table)), 4)
  }

  /** Where the table starts does not fit its 32-bit word, and the build checks for that. */
  predicate Stops(checked: bool, size: nat) {
    checked && 24 + size >= U32
  }

  /** The number of records and the size of the data section. */
  function ReadHeader(checked: bool, crc: Checksum, all: seq<Byte>): (r: Result<(nat, nat), CodecError>)
    ensures r.Ok? ==> |all| >= 32
  {
    if |all| < 32 then Err(UnexpectedEof)
    else
      var payload, trailer := all[..|all| - 8], all[|all| - 8..];
      if trailer[..4] != MAGIC_TAIL then Err(BadMagic)
      else if FromBigEndian(trailer[4..]) != crc(payload) then Err(CrcMismatch)
      else if payload[..4] != MAGIC_HEAD then Err(BadMagic)
      else if FromBigEndian(payload[4..6]) > SCHEMA_VERSION then Err(UnsupportedVersion)
      else
        var n, index, size := FromBigEndian(payload[8..12]), FromBigEndian(payload[12..16]),
            FromBigEndian(payload[16..20]);
        if Stops(checked, size) then Err(Overflow)
        else if index != (24 + size) % U32 then Err(Malformed) else Ok((n, size))
  }

  /** The sequential read, in processing order. */
  function Parse(u: Coding, checked: bool, crc: Checksum, all: seq<Byte>): Result<seq<StoredRevision>, CodecError> {
    match ReadHeader(checked, crc, all)
    case Err(e) => Err(e)
    case Ok((n, size)) =>
      if 24 + size > |all| then Err(OutOfRange)
      else
        match ReadBodies(u, all[24..24 + size], 0, n)
        case Err(e) => Err(e)
        case Ok((rs, _)) => Ok(rs)
  }

  lemma FieldsRead(n: nat, size: nat)
    requires n <= U32_MAX && size <= U32_MAX
    ensures var h := Header(n, size);
      && h[..4] == MAGIC_HEAD && FromBigEndian(h[4..6]) == SCHEMA_VERSION
      && FromBigEndian(h[8..12]) == n && FromBigEndian(h[12..16]) == (24 + size) % U32
          && FromBigEndian(h[16..20]) == size
  {
    TF.Widths();
    BigEndianRoundTrip(SCHEMA_VERSION, 2);
    BigEndianRoundTrip(n, 4);
    BigEndianRoundTrip((24 + size) % U32, 4);
    BigEndianRoundTrip(size, 4);
    hide BigEndian, FromBigEndian, Pow256;
    HeaderFields(MAGIC_HEAD, BigEndian(SCHEMA_VERSION, 2), BigEndian(0, 2), BigEndian(n, 4),
                 BigEndian((24 + size) % U32, 4), BigEndian(size, 4), BigEndian(0, 4));
  }

  lemma HeaderFields(magic: seq<Byte>, version: seq<Byte>, zero: seq<Byte>, n: seq<Byte>, index: seq<Byte>,
      size: seq<Byte>, last: seq<Byte>)
    requires |magic| == 4 && |version| == |zero| == 2 && |n| == |index| == |size| == |last| == 4
    ensures var h := magic + version + zero + n + index + size + last;
      && |h| == 24 && h[..4] == magic && h[4..6] == version
      && h[8..12] == n && h[12..16] == index && h[16..20] == size
  {
    var h := magic + version + zero + n + index + size + last;
    var upToIndex := magic + version + zero + n;
    assert h == upToIndex + (index + size + last);
    assert h[..12] == upToIndex;
    assert h[4..6] == upToIndex[4..6] && h[8..12] == upToIndex[8..12];
  }

  lemma TrailerReads(crc: Checksum, payload: seq<Byte>)
    requires ChecksumOk(crc)
    ensures var all := payload + MAGIC_TAIL + BigEndian(crc(payload), 4);
      && all[..|all| - 8] == payload && all[|all| - 8..][..4] == MAGIC_TAIL
      && FromBigEndian(all[|all| - 8..][4..]) == crc(payload)
  {
    TF.Widths();
    BigEndianRoundTrip(crc(payload), 4);
    hide BigEndian, FromBigEndian;
    var tail := BigEndian(crc(payload), 4);
    var all := payload + MAGIC_TAIL + tail;
    assert all[|all| - 8..] == MAGIC_TAIL + tail;
  }

  ghost predicate Fits(u: Coding, rs: seq<StoredRevision>) {
    AllTyped(u, rs) && |rs| <= U32_MAX && |Bodies(u, rs)| <= U32_MAX
  }

  lemma HeaderReads(u: Coding, checked: bool, crc: Checksum, rs: seq<StoredRevision>, table: seq<SI.Pair>)
    requires ChecksumOk(crc) && Fits(u, rs) && !Stops(checked, |Bodies(u, rs)|)
    ensures ReadHeader(checked, crc, File(u, crc, rs, table)) == Ok((|rs|, |Bodies(u, rs)|))
  {
    hide Bodies, ChecksumOk, Header, BigEndian, FromBigEndian, AllTyped, Rows;
    var payload := Payload(u, rs, table);
    TrailerReads(crc, payload);
    FieldsRead(|rs|, |Bodies(u, rs)|);
    var h := Header(|rs|, |Bodies(u, rs)|);
    assert payload[..4] == h[..4] && payload[4..6] == h[4..6] && payload[8..12] == h[8..12];
    assert payload[12..16] == h[12..16] && payload[16..20] == h[16..20];
  }

  /** Reading a written file in sequence gives back every revision, in processing order. */
  lemma RevisionsRoundTrip(u: Coding, checked: bool, crc: Checksum, rs: seq<StoredRevision>, table: seq<SI.Pair>)
    requires CodingOk(u) && ChecksumOk(crc) && Fits(u, rs) && !Stops(checked, |Bodies(u, rs)|)
    ensures Parse(u, checked, crc, File(u, crc, rs, table)) == Ok(rs)
  {
    hide Bodies, ReadBodies, ChecksumOk, Header, BigEndian, ReadHeader, AllTyped, Rows, CodingOk;
    var all, data := File(u, crc, rs, table), Bodies(u, rs);
    HeaderReads(u, checked, crc, rs, table);
    assert all[24..24 + |data|] == data;
    BodiesRead(u, data, 0, rs);
  }

  // ----- the writing loops -----

  method WriteText(u: Coding, s: string) returns (bs: seq<Byte>)
    ensures bs == Text(u, s)
  {
    bs := WriteVarintU64(|u.encode(s)|);
    bs := bs + u.encode(s);
  }

  method WriteIds(ids: seq<nat>) returns (bs: seq<Byte>)
    requires forall id :: id in ids ==> id <= U32_MAX
    ensures bs == TF.Chain(0, ids)
  {
    hide Signed;
    bs := [];
    var prev: nat := 0;
    assert ids[0..] == ids;
    for i := 0 to |ids|
      invariant prev <= U32_MAX && forall id :: id in ids[i..] ==> id <= U32_MAX
      invariant bs + TF.Chain(prev, ids[i..]) == TF.Chain(0, ids)
    {
      ghost var left := ids[i..];
      assert left[0] in left && left[1..] == ids[i + 1..] && forall id :: id in left[1..] ==> id in left;
      ghost var more := TF.Chain(ids[i], ids[i + 1..]);
      var delta := TF.WriteVarintI64(ids[i] - prev);
      assert bs + (delta + more) == (bs + delta) + more;
      bs := bs + delta;
      prev := ids[i];
    }
  }

  lemma EntriesHead(u: Coding, prev: nat, es: seq<Entry>)
    requires es != [] && prev <= U32_MAX && forall e :: e in es ==> EntryTyped(u, e)
    ensures es[0].id <= U32_MAX && TextTyped(u, es[0].hash) && forall e :: e in es[1..] ==> EntryTyped(u, e)
    ensures Entries(u, prev, es) == Text(u, es[0].hash) + Signed(es[0].id - prev) + Entries(u, es[0].id, es[1..])
  {
    hide Signed, Text, TextTyped;
    assert es[0] in es && EntryTyped(u, es[0]) && forall e :: e in es[1..] ==> e in es;
  }

  lemma NoEntries(u: Coding, prev: nat)
    requires prev <= U32_MAX
    ensures Entries(u, prev, []) == []
  {
  }

  method WriteEntries(u: Coding, es: seq<Entry>) returns (bs: seq<Byte>)
    requires forall e :: e in es ==> EntryTyped(u, e)
    ensures bs == Entries(u, 0, es)
  {
    hide Signed, Text, TextTyped, Entries, EntryTyped;
    bs := [];
    var prev: nat := 0;
    assert es[0..] == es;
    for i := 0 to |es|
      invariant prev <= U32_MAX && forall e :: e in es[i..] ==> EntryTyped(u, e)
      invariant bs + Entries(u, prev, es[i..]) == Entries(u, 0, es)
    {
      var e := es[i];
      assert es[i..][0] == e && es[i..][1..] == es[i + 1..];
      EntriesHead(u, prev, es[i..]);
      var hash := WriteText(u, e.hash);
      var delta := TF.WriteVarintI64(e.id - prev);
      ghost var more := Entries(u, e.id, es[i + 1..]);
      assert bs + (hash + delta + more) == (bs + hash + delta) + more;
      bs := bs + hash + delta;
      prev := e.id;
    }
    NoEntries(u, prev);
  }

  method WriteBody(u: Coding, r: StoredRevision) returns (bs: seq<Byte>)
    requires RevisionTyped(u, r)
    ensures bs == Body(u, r)
  {
    hide Varint, Text, TF.Chain, Entries, EntryTyped;
    bs := WriteVarintU64(r.revId);
    var timestamp := WriteText(u, r.timestamp);
    var editor := WriteText(u, r.editor);
    var length := WriteVarintU64(r.length);
    var adds := WriteVarintU64(r.originalAdds);
    var nTokens := WriteVarintU64(|r.tokenSequence|);
    var tokens := WriteIds(r.tokenSequence);
    var nParagraphs := WriteVarintU64(|r.orderedParagraphs|);
    var paragraphs := WriteEntries(u, r.orderedParagraphs);
    TF.Reassociated(bs, timestamp, editor, length, adds, nTokens, tokens + (nParagraphs + paragraphs));
    bs := bs + timestamp + editor + length + adds + nTokens + (tokens + (nParagraphs + paragraphs));
  }

  lemma RowsHead(table: seq<SI.Pair>)
    requires table != []
    ensures Rows(table) == BigEndian(table[0].0, 8) + BigEndian(table[0].1, 4) + Rows(table[1..])
  {
    hide BigEndian;
  }

  method WriteRows(table: seq<SI.Pair>) returns (bs: seq<Byte>)
    ensures bs == Rows(table)
  {
    hide BigEndian, Rows;
    bs := [];
    assert table[0..] == table;
    for i := 0 to |table|
      invariant bs + Rows(table[i..]) == Rows(table)
    {
      assert table[i..][0] == table[i] && table[i..][1..] == table[i + 1..];
      RowsHead(table[i..]);
      var id, offset := BigEndian(table[i].0, 8), BigEndian(table[i].1, 4);
      assert bs + (id + offset + Rows(table[i + 1..])) == (bs + id + offset) + Rows(table[i + 1..]);
      bs := bs + id + offset;
    }
    assert |Rows(table[|table|..])| == 0;
  }

  /** Writing fails exactly when the count or the data section outgrows its 32-bit field, or,
      with overflow checks, the sum of header and data does. */
  method WriteRevisions(u: Coding, checked: bool, crc: Checksum, rs: seq<StoredRevision>)
      returns (r: Result<seq<Byte>, CodecError>, ghost table: seq<SI.Pair>)
    requires AllTyped(u, rs)
    ensures r.Ok? <==> Fits(u, rs) && !Stops(checked, |Bodies(u, rs)|)
    ensures r.Ok? ==> TableOf(u, rs, table) && r.value == File(u, crc, rs, table)
    ensures r.Err? ==> r.error == if Fits(u, rs) then Overflow else Malformed
  {
    hide Bodies, Body, RevisionTyped, Rows, Header, BigEndian, Slots, TableOf;
    table := [];
    if |rs| > U32_MAX {
      return Err(Malformed), table;
    }
    var data: seq<Byte>, offsets: seq<SI.Pair> := [], [];
    NoBodies(u, rs);
    for i := 0 to |rs|
      invariant AllTyped(u, rs[..i]) && data == Bodies(u, rs[..i]) && |offsets| == i
      invariant forall k :: 0 <= k < i ==> offsets[k] == Slot(u, rs, k)
    {
      if |data| > U32_MAX {
        OffsetWithin(u, rs, i);
        return Err(Malformed), table;
      }
      offsets := offsets + [(rs[i].revId, |data|)];
      assert rs[i] in rs && rs[..i + 1] == rs[..i] + [rs[i]];
      BodiesAppend(u, rs[..i], rs[i]);
      var body := WriteBody(u, rs[i]);
      data := data + body;
    }
    assert rs[..|rs|] == rs;
    if |data| > U32_MAX {
      return Err(Malformed), table;
    }
    if Stops(checked, |data|) {
      return Err(Overflow), table;
    }
    SlotsAre(u, rs, offsets);
    var sorted := SI.SortByKey(offsets);
    table := sorted;
    var rows := WriteRows(sorted);
    var payload := Header(|rs|, |data|) + (data + rows);
    r := Ok(payload + MAGIC_TAIL + BigEndian(crc(payload), 4));
    IsTable(u, rs, table);
  }

  lemma NoBodies(u: Coding, rs: seq<StoredRevision>)
    requires AllTyped(u, rs)
    ensures AllTyped(u, rs[..0]) && Bodies(u, rs[..0]) == []
  {
  }

  lemma OffsetWithin(u: Coding, rs: seq<StoredRevision>, i: nat)
    requires AllTyped(u, rs) && i < |rs|
    ensures AllTyped(u, rs[..i]) && |Bodies(u, rs[..i])| <= |Bodies(u, rs)|
  {
    BodyStands(u, Bodies(u, rs), 0, rs, i);
  }

  lemma SlotsAre(u: Coding, rs: seq<StoredRevision>, offsets: seq<SI.Pair>)
    requires AllTyped(u, rs) && |offsets| == |rs|
    requires forall k :: 0 <= k < |rs| ==> offsets[k] == Slot(u, rs, k)
    ensures offsets == Slots(u, rs)
  {
  }

  lemma IsTable(u: Coding, rs: seq<StoredRevision>, table: seq<SI.Pair>)
    requires AllTyped(u, rs) && SI.Sorted(table) && multiset(table) == multiset(Slots(u, rs))
    ensures TableOf(u, rs, table)
  {
  }

  // ----- the reading loops -----

  /** A counted list of delta-encoded ids. */
  method ParseIds(bs: seq<Byte>, at: nat) returns (r: Read<seq<nat>>)
    ensures r == ReadTokenList(bs, at)
  {
    hide TF.ReadNat32;
    var count := ReadVarintU64(bs, at);
    if count.Err? {
      return Err(count.error);
    }
    if !Allocatable(count.value.0, 4) {
      return Err(OutOfRange);
    }
    var out: seq<nat> := [];
    var pos, prev: nat := count.value.1, 0;
    PrefixedNothing(ReadIds(bs, pos, prev, count.value.0));
    for i := 0 to count.value.0
      invariant ReadTokenList(bs, at) == Prefixed(out, ReadIds(bs, pos, prev, count.value.0 - i))
    {
      var next := TF.ReadNat32(bs, pos, prev);
      match next {
        case Err(e) => return Err(e);
        case Ok((v, end)) =>
          PrefixedOne(out, v, ReadIds(bs, end, v, count.value.0 - i - 1));
          out := out + [v];
          pos, prev := end, v;
      }
    }
    assert out + [] == out;
    r := Ok((out, pos));
  }

  /** A counted list of paragraph hashes with delta-encoded ids. */
  method ParseEntries(u: Coding, bs: seq<Byte>, at: nat) returns (r: Read<seq<Entry>>)
    ensures r == ReadEntryList(u, bs, at)
  {
    hide ReadEntry;
    var count := ReadVarintU64(bs, at);
    if count.Err? {
      return Err(count.error);
    }
    if !Allocatable(count.value.0, 32) {
      return Err(OutOfRange);
    }
    var out: seq<Entry> := [];
    var pos, prev: nat := count.value.1, 0;
    PrefixedNothing(ReadEntries(u, bs, pos, prev, count.value.0));
    for i := 0 to count.value.0
      invariant ReadEntryList(u, bs, at) == Prefixed(out, ReadEntries(u, bs, pos, prev, count.value.0 - i))
    {
      var next := ReadEntry(u, bs, pos, prev);
      match next {
        case Err(e) => return Err(e);
        case Ok((e, end)) =>
          PrefixedOne(out, e, ReadEntries(u, bs, end, e.id, count.value.0 - i - 1));
          out := out + [e];
          pos, prev := end, e.id;
      }
    }
    assert out + [] == out;
    r := Ok((out, pos));
  }

  method ParseBody(u: Coding, bs: seq<Byte>, at: nat) returns (r: Read<StoredRevision>)
    ensures r == ReadBody(u, bs, at)
  {
    hide ReadVarint, ReadText, ReadTokenList, ReadEntryList;
    var revId := ReadVarintU64(bs, at);
    if revId.Err? {
      return Err(revId.error);
    }
    var timestamp := ReadText(u, bs, revId.value.1);
    if timestamp.Err? {
      return Err(timestamp.error);
    }
    var editor := ReadText(u, bs, timestamp.value.1);
    if editor.Err? {
      return Err(editor.error);
    }
    var length := ReadVarintU64(bs, editor.value.1);
    if length.Err? {
      return Err(length.error);
    }
    var adds := ReadVarintU64(bs, length.value.1);
    if adds.Err? {
      return Err(adds.error);
    }
    if adds.value.0 > U32_MAX {
      return Err(Malformed);
    }
    var tokens := ParseIds(bs, adds.value.1);
    if tokens.Err? {
      return Err(tokens.error);
    }
    var paragraphs := ParseEntries(u, bs, tokens.value.1);
    if paragraphs.Err? {
      return Err(paragraphs.error);
    }
    r := Ok((StoredRevision(revId.value.0, timestamp.value.0, editor.value.0, length.value.0, adds.value.0,
                            tokens.value.0, paragraphs.value.0), paragraphs.value.1));
  }

  method ParseRevisions(u: Coding, checked: bool, crc: Checksum, all: seq<Byte>)
      returns (r: Result<seq<StoredRevision>, CodecError>)
    ensures r == Parse(u, checked, crc, all)
  {
    hide ReadBody, ReadHeader;
    var header := ReadHeader(checked, crc, all);
    if header.Err? {
      return Err(header.error);
    }
    var (n, size) := header.value;
    if 24 + size > |all| {
      return Err(OutOfRange);
    }
    var data := all[24..24 + size];
    var out: seq<StoredRevision>, pos := [], 0;
    PrefixedNothing(ReadBodies(u, data, 0, n));
    for i := 0 to n
      invariant ReadBodies(u, data, 0, n) == Prefixed(out, ReadBodies(u, data, pos, n - i))
    {
      var body := ParseBody(u, data, pos);
      match body {
        case Err(e) => return Err(e);
        case Ok((rev, next)) =>
          PrefixedOne(out, rev, ReadBodies(u, data, next, n - i - 1));
          out := out + [rev];
          pos := next;
      }
    }
    assert out + [] == out;
    r := Ok(out);
  }

  // ----- random access -----

  datatype RevisionsIndex = RevisionsIndex(payload: seq<Byte>, indexStart: nat, nRevisions: nat)

  predicate InRange(idx: RevisionsIndex) {
    24 <= idx.indexStart && idx.indexStart + 12 * idx.nRevisions <= |idx.payload|
  }

  function Open(checked: bool, crc: Checksum, all: seq<Byte>): Result<RevisionsIndex, CodecError> {
    match ReadHeader(checked, crc, all)
    case Err(e) => Err(e)
    case Ok((n, size)) => Ok(RevisionsIndex(all[..|all| - 8], 24 + size, n))
  }

  /** Where row `k` starts. */
  function RowAt(idx: RevisionsIndex, k: nat): nat {
    idx.indexStart + 12 * k
  }

  function RowId(idx: RevisionsIndex, k: nat): nat
    requires RowAt(idx, k) + 8 <= |idx.payload|
  {
    FromBigEndian(idx.payload[RowAt(idx, k)..RowAt(idx, k) + 8])
  }

  function RowOffset(idx: RevisionsIndex, k: nat): nat
    requires RowAt(idx, k) + 12 <= |idx.payload|
  {
    FromBigEndian(idx.payload[RowAt(idx, k) + 8..RowAt(idx, k) + 12])
  }

  /** The record a row points to; a row or a body beyond the payload is out of range. */
  function ReadAt(u: Coding, idx: RevisionsIndex, k: nat): Result<StoredRevision, CodecError> {
    if RowAt(idx, k) + 12 > |idx.payload| || 24 + RowOffset(idx, k) > |idx.payload| then Err(OutOfRange)
    else
      match ReadBody(u, idx.payload[24 + RowOffset(idx, k)..], 0)
      case Err(e) => Err(e)
      case Ok((r, _)) => Ok(r)
  }

  /** What halving finds: nothing, a row with the id, or a row that is not there. */
  datatype Probed = Missing | Row(k: nat) | Beyond(k: nat)

  function Probe(idx: RevisionsIndex, id: nat, lo: nat, hi: nat): Probed
    decreases hi - lo
  {
    if lo >= hi then Missing
    else
      var mid := (lo + hi) / 2;
      if RowAt(idx, mid) + 8 > |idx.payload| then Beyond(mid)
      else if RowId(idx, mid) == id then Row(mid)
      else if RowId(idx, mid) < id then Probe(idx, id, mid + 1, hi)
      else Probe(idx, id, lo, mid)
  }

  function Answer(u: Coding, idx: RevisionsIndex, found: Probed): Result<Option<StoredRevision>, CodecError> {
    match found
    case Missing => Ok(None)
    case Beyond(_) => Err(OutOfRange)
    case Row(k) => match ReadAt(u, idx, k) case Err(e) => Err(e) case Ok(r) => Ok(Some(r))
  }

  ghost predicate RowsSorted(idx: RevisionsIndex)
    requires InRange(idx)
  {
    forall i, j :: 0 <= i < j < idx.nRevisions ==> RowId(idx, i) <= RowId(idx, j)
  }

  /** Of any file, a row that is found has the id, and one that is not there is not. */
  lemma {:induction false} ProbeSound(idx: RevisionsIndex, id: nat, lo: nat, hi: nat)
    ensures match Probe(idx, id, lo, hi)
      case Missing => true
      case Row(k) => lo <= k < hi && RowAt(idx, k) + 8 <= |idx.payload| && RowId(idx, k) == id
      case Beyond(k) => lo <= k < hi && RowAt(idx, k) + 8 > |idx.payload|
    decreases hi - lo
  {
    hide RowId;
    if lo < hi {
      var mid := (lo + hi) / 2;
      if RowAt(idx, mid) + 8 <= |idx.payload| {
        ProbeSound(idx, id, mid + 1, hi);
        ProbeSound(idx, id, lo, mid);
      }
    }
  }

  /** Where the rows are in range and in order, nothing is missed. */
  lemma {:induction false} ProbeComplete(idx: RevisionsIndex, id: nat, lo: nat, hi: nat)
    requires InRange(idx) && RowsSorted(idx) && lo <= hi <= idx.nRevisions
    ensures !Probe(idx, id, lo, hi).Beyond?
    ensures Probe(idx, id, lo, hi).Missing? ==> forall k :: lo <= k < hi ==> RowId(idx, k) != id
    decreases hi - lo
  {
    hide RowId;
    if lo < hi {
      var mid := (lo + hi) / 2;
      if RowId(idx, mid) < id {
        ProbeComplete(idx, id, mid + 1, hi);
      } else if RowId(idx, mid) > id {
        ProbeComplete(idx, id, lo, mid);
      }
    }
  }

  /** What a lookup may answer: nothing if no row has the id, else what some such row's record
      reads as. */
  ghost predicate Answers(u: Coding, idx: RevisionsIndex, id: nat, r: Result<Option<StoredRevision>, CodecError>)
    requires InRange(idx)
  {
    match r
    case Ok(None) => forall k :: 0 <= k < idx.nRevisions ==> RowId(idx, k) != id
    case Ok(Some(rev)) => exists k :: 0 <= k < idx.nRevisions && RowId(idx, k) == id && ReadAt(u, idx, k) == Ok(rev)
    case Err(e) => exists k :: 0 <= k < idx.nRevisions && RowId(idx, k) == id && ReadAt(u, idx, k) == Err(e)
  }

  lemma AnswerIsRight(u: Coding, idx: RevisionsIndex, id: nat)
    requires InRange(idx) && RowsSorted(idx)
    ensures Answers(u, idx, id, Answer(u, idx, Probe(idx, id, 0, idx.nRevisions)))
  {
    hide ReadAt, Probe, RowsSorted, RowId;
    ProbeComplete(idx, id, 0, idx.nRevisions);
    ProbeSound(idx, id, 0, idx.nRevisions);
  }

  /** Binary search over the rows, then one body. A row or body out of range, on which the
      original panics, is met exactly where the search probes one. */
  method Get(u: Coding, idx: RevisionsIndex, id: nat) returns (r: Result<Option<StoredRevision>, CodecError>)
    ensures r == Answer(u, idx, Probe(idx, id, 0, idx.nRevisions))
    ensures InRange(idx) && RowsSorted(idx) ==> Answers(u, idx, id, r)
  {
    hide ReadAt, Answers, FromBigEndian;
    if InRange(idx) && RowsSorted(idx) {
      AnswerIsRight(u, idx, id);
    }
    var lo, hi := 0, idx.nRevisions;
    while lo < hi
      invariant 0 <= lo <= hi <= idx.nRevisions
      invariant Probe(idx, id, lo, hi) == Probe(idx, id, 0, idx.nRevisions)
    {
      var mid := (lo + hi) / 2;
      var entry := RowAt(idx, mid);
      if entry + 8 > |idx.payload| {
        return Err(OutOfRange);
      }
      var midId := FromBigEndian(idx.payload[entry..entry + 8]);
      if midId == id {
        var rev := ParseAt(u, idx, mid);
        match rev {
          case Err(e) => return Err(e);
          case Ok(x) => return Ok(Some(x));
        }
      } else if midId < id {
        lo := mid + 1;
      } else {
        hi := mid;
      }
    }
    r := Ok(None);
  }

  method ParseAt(u: Coding, idx: RevisionsIndex, k: nat) returns (r: Result<StoredRevision, CodecError>)
    ensures r == ReadAt(u, idx, k)
  {
    hide ReadBody, FromBigEndian;
    var entry := RowAt(idx, k);
    if entry + 12 > |idx.payload| {
      return Err(OutOfRange);
    }
    var offset := FromBigEndian(idx.payload[entry + 8..entry + 12]);
    if 24 + offset > |idx.payload| {
      return Err(OutOfRange);
    }
    var body := ParseBody(u, idx.payload[24 + offset..], 0);
    match body {
      case Err(e) => r := Err(e);
      case Ok((rev, _)) => r := Ok(rev);
    }
  }

  /** Reads the rows in turn. */
  class RevisionsIndexIter {
    const u: Coding
    const idx: RevisionsIndex
    var i: nat

    constructor (u: Coding, idx: RevisionsIndex)
      ensures this.u == u && this.idx == idx && i == 0
    {
      this.u, this.idx, i := u, idx, 0;
    }

    method Next() returns (r: Option<Result<StoredRevision, CodecError>>)
      modifies this
      ensures r == (if old(i) < idx.nRevisions then Some(ReadAt(u, idx, old(i))) else None)
      ensures i == if old(i) < idx.nRevisions then old(i) + 1 else old(i)
    {
      hide ReadAt;
      if i >= idx.nRevisions {
        return None;
      }
      var rev := ParseAt(u, idx, i);
      i := i + 1;
      r := Some(rev);
    }
  }

  // ----- random access to a written file -----

  lemma {:induction false} RowStands(bs: seq<Byte>, at: nat, table: seq<SI.Pair>, k: nat)
    requires StandsAt(bs, at, Rows(table)) && k < |table|
    ensures StandsAt(bs, at + 12 * k, BigEndian(table[k].0, 8))
        && StandsAt(bs, at + 12 * k + 8, BigEndian(table[k].1, 4))
    decreases |table|
  {
    hide StandsAt, BigEndian;
    var id, offset, rest := BigEndian(table[0].0, 8), BigEndian(table[0].1, 4), Rows(table[1..]);
    StandsSplit(bs, at, id, offset + rest);
    StandsSplit(bs, at + 8, offset, rest);
    if k > 0 {
      RowStands(bs, at + 12, table[1..], k - 1);
    }
  }

  /** The index over a written file. */
  function WrittenIndex(u: Coding, rs: seq<StoredRevision>, table: seq<SI.Pair>): RevisionsIndex
    requires AllTyped(u, rs)
  {
    RevisionsIndex(Payload(u, rs, table), 24 + |Bodies(u, rs)|, |rs|)
  }

  lemma OpenWritten(u: Coding, checked: bool, crc: Checksum, rs: seq<StoredRevision>, table: seq<SI.Pair>)
    requires ChecksumOk(crc) && Fits(u, rs) && !Stops(checked, |Bodies(u, rs)|) && |table| == |rs|
    ensures Open(checked, crc, File(u, crc, rs, table)) == Ok(WrittenIndex(u, rs, table))
        && InRange(WrittenIndex(u, rs, table))
  {
    hide Bodies, ChecksumOk, Header, BigEndian, FromBigEndian, AllTyped, Rows, ReadHeader;
    HeaderReads(u, checked, crc, rs, table);
    var payload := Payload(u, rs, table);
    assert File(u, crc, rs, table)[..|File(u, crc, rs, table)| - 8] == payload;
  }

  lemma PayloadParts(u: Coding, rs: seq<StoredRevision>, table: seq<SI.Pair>)
    requires AllTyped(u, rs)
    ensures var p := Payload(u, rs, table);
      StandsAt(p, 24, Bodies(u, rs)) && StandsAt(p, 24 + |Bodies(u, rs)|, Rows(table))
  {
    hide Bodies, Rows, Header;
    var h, data, rows := Header(|rs|, |Bodies(u, rs)|), Bodies(u, rs), Rows(table);
    var p := Payload(u, rs, table);
    assert p[24..24 + |data|] == data;
    assert p[24 + |data|..24 + |data| + |rows|] == rows;
  }

  lemma {:induction false} Wide()
    ensures Pow256(8) == U64
  {
    TF.Widths();
    assert Pow256(5) == 256 * Pow256(4) && Pow256(6) == 256 * Pow256(5) && Pow256(7) == 256 * Pow256(6);
  }

  /** Row `k` of a written file is entry `k` of the table. */
  lemma RowReads(u: Coding, rs: seq<StoredRevision>, table: seq<SI.Pair>, k: nat)
    requires AllTyped(u, rs) && |table| == |rs| && k < |rs|
    requires table[k].0 < U64 && table[k].1 <= U32_MAX
    ensures var idx := WrittenIndex(u, rs, table);
      InRange(idx) && RowId(idx, k) == table[k].0 && RowOffset(idx, k) == table[k].1
  {
    hide Bodies, Rows, Header, BigEndian, FromBigEndian, AllTyped, Pow256;
    PayloadParts(u, rs, table);
    var p, at := Payload(u, rs, table), 24 + |Bodies(u, rs)|;
    RowStands(p, at, table, k);
    Wide();
    TF.Widths();
    BigEndianRoundTrip(table[k].0, 8);
    BigEndianRoundTrip(table[k].1, 4);
    assert |Rows(table)| == 12 * |table|;
    var entry := at + 12 * k;
    assert p[entry..entry + 8] == BigEndian(table[k].0, 8);
    assert p[entry + 8..entry + 12] == BigEndian(table[k].1, 4);
  }

  lemma SlotFits(u: Coding, rs: seq<StoredRevision>, i: nat)
    requires Fits(u, rs) && i < |rs|
    ensures Slot(u, rs, i).0 < U64 && Slot(u, rs, i).1 <= U32_MAX
  {
    hide Bodies;
    assert rs[i] in rs;
    assert StandsAt(Bodies(u, rs), 0, Bodies(u, rs));
    BodyStands(u, Bodies(u, rs), 0, rs, i);
  }

  lemma TableEntry(u: Coding, rs: seq<StoredRevision>, table: seq<SI.Pair>, k: nat) returns (i: nat)
    requires AllTyped(u, rs) && TableOf(u, rs, table) && k < |table|
    ensures i < |rs| && table[k] == Slot(u, rs, i)
  {
    hide Slot, AllTyped;
    var all := Slots(u, rs);
    ElemsMultiset(table, table[k]);
    ElemsMultiset(all, table[k]);
    i :| 0 <= i < |all| && all[i] == table[k];
  }

  lemma EntryOf(u: Coding, rs: seq<StoredRevision>, table: seq<SI.Pair>, i: nat) returns (k: nat)
    requires AllTyped(u, rs) && TableOf(u, rs, table) && i < |rs|
    ensures k < |table| && table[k] == Slot(u, rs, i)
  {
    hide Slot, AllTyped;
    var all := Slots(u, rs);
    assert all[i] == Slot(u, rs, i);
    ElemsMultiset(table, all[i]);
    ElemsMultiset(all, all[i]);
    k :| 0 <= k < |table| && table[k] == all[i];
  }

  lemma TableLength(u: Coding, rs: seq<StoredRevision>, table: seq<SI.Pair>)
    requires AllTyped(u, rs) && TableOf(u, rs, table)
    ensures |table| == |rs|
  {
    hide Slot, AllTyped;
    assert |multiset(table)| == |table| && |multiset(Slots(u, rs))| == |rs|;
  }

  /** A row that carries a record's slot reads as that record. */
  lemma RowIsRecord(u: Coding, rs: seq<StoredRevision>, table: seq<SI.Pair>, k: nat, i: nat)
    requires CodingOk(u) && Fits(u, rs) && |table| == |rs| && k < |rs| && i < |rs| && table[k] == Slot(u, rs, i)
    ensures var idx := WrittenIndex(u, rs, table);
      InRange(idx) && RowId(idx, k) == rs[i].revId && ReadAt(u, idx, k) == Ok(rs[i])
  {
    hide Bodies, Rows, ReadBody, Body, AllTyped, FromBigEndian, CodingOk, Header;
    SlotFits(u, rs, i);
    RowReads(u, rs, table, k);
    PayloadParts(u, rs, table);
    var p, at := Payload(u, rs, table), 24 + Offset(u, rs, i);
    BodyStands(u, p, 24, rs, i);
    TypedAt(u, rs, i);
    var tail, body := p[at..], Body(u, rs[i]);
    assert tail[..|body|] == p[at..at + |body|];
    BodyReads(u, tail, 0, rs[i]);
  }

  lemma TypedAt(u: Coding, rs: seq<StoredRevision>, i: nat)
    requires AllTyped(u, rs) && i < |rs|
    ensures RevisionTyped(u, rs[i])
  {
    assert rs[i] in rs;
  }

  lemma WrittenSorted(u: Coding, rs: seq<StoredRevision>, table: seq<SI.Pair>)
    requires CodingOk(u) && Fits(u, rs) && TableOf(u, rs, table)
    ensures InRange(WrittenIndex(u, rs, table)) && RowsSorted(WrittenIndex(u, rs, table))
  {
    hide Bodies, Rows, AllTyped, RowId, Slot, Slots, Payload, CodingOk, ReadAt;
    var idx := WrittenIndex(u, rs, table);
    TableLength(u, rs, table);
    if rs == [] {
      EmptyInRange(u, table);
    } else {
      var i := TableEntry(u, rs, table, 0);
      RowIsRecord(u, rs, table, 0, i);
      forall x, y | 0 <= x < y < |rs| ensures RowId(idx, x) <= RowId(idx, y) {
        var ix := TableEntry(u, rs, table, x);
        var iy := TableEntry(u, rs, table, y);
        SortedAt(table, x, y);
        RowIsRecord(u, rs, table, x, ix);
        RowIsRecord(u, rs, table, y, iy);
        SlotId(u, rs, ix);
        SlotId(u, rs, iy);
      }
    }
  }

  lemma SlotId(u: Coding, rs: seq<StoredRevision>, i: nat)
    requires AllTyped(u, rs) && i < |rs|
    ensures Slot(u, rs, i).0 == rs[i].revId
  {
  }

  lemma EmptyInRange(u: Coding, table: seq<SI.Pair>)
    ensures InRange(WrittenIndex(u, [], table))
  {
  }

  /** What scanning the revisions in processing order finds first. */
  function FirstWith(rs: seq<StoredRevision>, id: nat): Option<StoredRevision> {
    if rs == [] then None
    else if rs[0].revId == id then Some(rs[0])
    else FirstWith(rs[1..], id)
  }

  lemma {:induction false} FirstWithFacts(rs: seq<StoredRevision>, id: nat)
    ensures match FirstWith(rs, id)
      case None => forall i :: 0 <= i < |rs| ==> rs[i].revId != id
      case Some(r) => exists i :: 0 <= i < |rs| && rs[i] == r && r.revId == id
  {
    if rs != [] {
      FirstWithFacts(rs[1..], id);
      if rs[0].revId == id {
        assert rs[0] == FirstWith(rs, id).value;
      } else {
        match FirstWith(rs[1..], id)
        case None =>
          forall i | 0 <= i < |rs| ensures rs[i].revId != id { if i > 0 { assert rs[i] == rs[1..][i - 1]; } }
        case Some(r) =>
          var i :| 0 <= i < |rs| - 1 && rs[1..][i] == r;
          assert rs[i + 1] == r;
      }
    }
  }

  ghost predicate DistinctIds(rs: seq<StoredRevision>) {
    forall i, j :: 0 <= i < j < |rs| ==> rs[i].revId != rs[j].revId
  }

  /** On a written file a lookup never fails; it answers nothing exactly when no revision has
      the id, and otherwise one that has. With distinct ids it is the one that searching the
      sequential read finds. */
  lemma GetIsLinearSearch(u: Coding, rs: seq<StoredRevision>, table: seq<SI.Pair>, id: nat,
      r: Result<Option<StoredRevision>, CodecError>)
    requires CodingOk(u) && Fits(u, rs) && TableOf(u, rs, table)
    requires InRange(WrittenIndex(u, rs, table)) && Answers(u, WrittenIndex(u, rs, table), id, r)
    ensures r.Ok?
    ensures r.value.None? <==> forall x :: x in rs ==> x.revId != id
    ensures r.value.Some? ==> r.value.value in rs && r.value.value.revId == id
    ensures DistinctIds(rs) ==> r.value == FirstWith(rs, id)
  {
    hide Bodies, Rows, AllTyped, RowId, ReadAt, Slot, Slots, Payload, CodingOk, TableOf;
    var idx := WrittenIndex(u, rs, table);
    TableLength(u, rs, table);
    FirstWithFacts(rs, id);
    match r
    case Ok(None) =>
      forall x | x in rs ensures x.revId != id {
        var i :| 0 <= i < |rs| && rs[i] == x;
        var k := EntryOf(u, rs, table, i);
        RowIsRecord(u, rs, table, k, i);
      }
    case Ok(Some(rev)) =>
      var k :| 0 <= k < idx.nRevisions && RowId(idx, k) == id && ReadAt(u, idx, k) == Ok(rev);
      var i := TableEntry(u, rs, table, k);
      RowIsRecord(u, rs, table, k, i);
    case Err(e) =>
      var k :| 0 <= k < idx.nRevisions && RowId(idx, k) == id && ReadAt(u, idx, k) == Err(e);
      var i := TableEntry(u, rs, table, k);
      RowIsRecord(u, rs, table, k, i);
  }

  /** Reading the rows in turn lists the revisions of a written file in ascending order of id,
      each as often as it was written. */
  lemma IterationSorts(u: Coding, rs: seq<StoredRevision>, table: seq<SI.Pair>, read: seq<StoredRevision>)
    requires CodingOk(u) && Fits(u, rs) && TableOf(u, rs, table) && DistinctIds(rs)
    requires InRange(WrittenIndex(u, rs, table)) && |read| == |rs|
    requires forall k :: 0 <= k < |rs| ==> ReadAt(u, WrittenIndex(u, rs, table), k) == Ok(read[k])
    ensures forall i, j :: 0 <= i < j < |read| ==> read[i].revId < read[j].revId
    ensures multiset(read) == multiset(rs)
  {
    hide Bodies, Rows, AllTyped, RowId, ReadAt, Slot, Slots, Payload, CodingOk, TableOf;
    var idx := WrittenIndex(u, rs, table);
    TableLength(u, rs, table);
    WrittenSorted(u, rs, table);
    forall k | 0 <= k < |rs| ensures read[k] in rs && RowId(idx, k) == read[k].revId {
      var i := TableEntry(u, rs, table, k);
      RowIsRecord(u, rs, table, k, i);
    }
    forall x, y | 0 <= x < y < |rs| ensures read[x].revId < read[y].revId {
      RowsApart(u, rs, table, x, y);
      assert ReadAt(u, idx, x) == Ok(read[x]) && ReadAt(u, idx, y) == Ok(read[y]);
    }
    forall x | x in rs ensures x in read {
      var i :| 0 <= i < |rs| && rs[i] == x;
      var k := EntryOf(u, rs, table, i);
      RowIsRecord(u, rs, table, k, i);
      assert read[k] == x;
    }
    SameMembers(read, rs);
  }

  lemma RowsApart(u: Coding, rs: seq<StoredRevision>, table: seq<SI.Pair>, x: nat, y: nat)
    requires CodingOk(u) && Fits(u, rs) && TableOf(u, rs, table) && DistinctIds(rs) && x < y < |rs|
    ensures |table| == |rs| && InRange(WrittenIndex(u, rs, table))
    ensures RowId(WrittenIndex(u, rs, table), x) < RowId(WrittenIndex(u, rs, table), y)
  {
    hide Bodies, Rows, AllTyped, RowId, ReadAt, Slot, Slots, Payload, CodingOk, TableOf, DistinctIds;
    TableLength(u, rs, table);
    WrittenSorted(u, rs, table);
    TableNoDup(u, rs, table);
    var ix := TableEntry(u, rs, table, x);
    var iy := TableEntry(u, rs, table, y);
    RowIsRecord(u, rs, table, x, ix);
    RowIsRecord(u, rs, table, y, iy);
    SameRecord(rs, ix, iy);
    assert table[x] != table[y];
  }

  lemma SameRecord(rs: seq<StoredRevision>, i: nat, j: nat)
    requires DistinctIds(rs) && i < |rs| && j < |rs|
    ensures rs[i].revId == rs[j].revId ==> i == j
  {
  }

  lemma TableNoDup(u: Coding, rs: seq<StoredRevision>, table: seq<SI.Pair>)
    requires AllTyped(u, rs) && TableOf(u, rs, table) && DistinctIds(rs)
    ensures NoDup(table)
  {
    hide AllTyped, Bodies;
    var all := Slots(u, rs);
    assert NoDup(all);
    NoDupCounts(all);
    NoDupCounts(table);
  }

  lemma SortedAt(table: seq<SI.Pair>, x: nat, y: nat)
    requires SI.Sorted(table) && x < y < |table|
    ensures table[x].0 <= table[y].0
  {
  }

  lemma SameMembers(xs: seq<StoredRevision>, ys: seq<StoredRevision>)
    requires DistinctIds(xs) && DistinctIds(ys)
    requires forall x :: x in xs <==> x in ys
    ensures multiset(xs) == multiset(ys)
  {
    NoDupCounts(xs);
    NoDupCounts(ys);
    forall x ensures multiset(xs)[x] == multiset(ys)[x] {
      ElemsMultiset(xs, x);
      ElemsMultiset(ys, x);
    }
  }
}
