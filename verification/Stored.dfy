/** The records an article is projected to on disk, and the two projections as functions. */
module Stored {
  import opened Wrappers
  import opened Seqs
  import opened Buckets
  import opened Interning
  import opened Structures

  datatype StoredToken = StoredToken(
    stringId: nat, originRevId: RevId, lastRevId: RevId, inbound: seq<RevId>, outbound: seq<RevId>)

  /** A hash in document order with the arena id it stands for. */
  datatype Entry = Entry(hash: Hash, id: nat)

  datatype StoredRevision = StoredRevision(
    revId: RevId, timestamp: string, editor: string, length: nat, originalAdds: nat,
    tokenSequence: seq<TokenId>, orderedParagraphs: seq<Entry>)

  datatype StoredParagraph = StoredParagraph(hashValue: Hash, value: string, orderedSentences: seq<Entry>)

  datatype StoredSentence = StoredSentence(hashValue: Hash, value: string, words: seq<TokenId>)

  datatype HashBucket = HashBucket(hash: Hash, arenaIds: seq<nat>)

  datatype Meta = Meta(
    pageId: nat, title: string, lastProcessedRevid: RevId, lastProcessedTimestamp: string,
    nRevisions: nat, nLifetimeTokens: nat, nSpamRevisions: nat,
    nextTokenId: TokenId, spamRevisions: seq<RevId>, spamHashes: seq<Hash>)

  datatype StoredArticle = StoredArticle(
    strings: seq<string>, tokens: seq<StoredToken>, revisions: seq<StoredRevision>,
    paragraphs: seq<StoredParagraph>, sentences: seq<StoredSentence>,
    paragraphBuckets: seq<HashBucket>, sentenceBuckets: seq<HashBucket>, meta: Meta)

  datatype StorageError = NoPageId | UnknownString(token: nat)

  // ----- ordered hash lists against bucket maps -----

  /** Each position of the order with its id; a position beyond its bucket's end gets id 0. */
  function Pairs(m: map<Hash, seq<nat>>, order: seq<Hash>): (es: seq<Entry>)
    ensures |es| == |order|
  {
    if order == [] then []
    else
      var n := |order| - 1;
      var h, k := order[n], multiset(order[..n])[order[n]];
      Pairs(m, order[..n]) + [Entry(h, if h in m && k < |m[h]| then m[h][k] else 0)]
  }

  function Hashes(es: seq<Entry>): (hs: seq<Hash>)
    ensures |hs| == |es|
  {
    if es == [] then [] else Hashes(es[..|es| - 1]) + [es[|es| - 1].hash]
  }

  function Group(es: seq<Entry>): map<Hash, seq<nat>> {
    if es == [] then map[] else Push(Group(es[..|es| - 1]), es[|es| - 1].hash, es[|es| - 1].id)
  }

  /** `g` holds, of each bucket of `m`, as many entries as its hash occurs in the order. */
  ghost predicate UsedPart(g: map<Hash, seq<nat>>, m: map<Hash, seq<nat>>, order: seq<Hash>) {
    && (forall h :: h in g <==> h in order)
    && (forall h :: h in g ==> h in m && multiset(order)[h] <= |m[h]| && g[h] == m[h][..multiset(order)[h]])
  }

  lemma UsedPartMore(g: map<Hash, seq<nat>>, m: map<Hash, seq<nat>>, order: seq<Hash>, h: Hash)
    requires UsedPart(g, m, order) && h in m && multiset(order)[h] < |m[h]|
    ensures UsedPart(Push(g, h, m[h][multiset(order)[h]]), m, order + [h])
  {
    var k := multiset(order)[h];
    assert multiset(order + [h]) == multiset(order) + multiset{h};
    assert m[h][..k + 1] == m[h][..k] + [m[h][k]];
    ElemsMultiset(order, h);
  }

  lemma NothingUsed(m: map<Hash, seq<nat>>)
    ensures UsedPart(map[], m, [])
  {
  }

  lemma NothingGrouped()
    ensures Group([]) == map[] && Hashes([]) == []
  {
  }

  lemma GroupLast(es: seq<Entry>, h: Hash, id: nat)
    ensures Group(es + [Entry(h, id)]) == Push(Group(es), h, id) && Hashes(es + [Entry(h, id)]) == Hashes(es) + [h]
  {
    assert (es + [Entry(h, id)])[..|es|] == es;
  }

  lemma CoveredLast(m: map<Hash, seq<nat>>, order: seq<Hash>)
    requires Covered(m, order) && order != []
    ensures var h, front := order[|order| - 1], order[..|order| - 1]; h in m && multiset(front)[h] < |m[h]|
  {
    LastIsBeyondPrefix(order);
    assert order[|order| - 1] in order;
  }

  lemma PairsLast(m: map<Hash, seq<nat>>, order: seq<Hash>)
    requires order != []
    ensures var n := |order| - 1; var h, k := order[n], multiset(order[..n])[order[n]];
      h in m && k < |m[h]| ==> Pairs(m, order) == Pairs(m, order[..n]) + [Entry(h, m[h][k])]
  {
  }

  /** Grouping a covered order's pairs gives back the part of each bucket it uses. */
  lemma {:induction false} GroupOfPairs(m: map<Hash, seq<nat>>, order: seq<Hash>)
    requires Covered(m, order)
    ensures Hashes(Pairs(m, order)) == order && UsedPart(Group(Pairs(m, order)), m, order)
  {
    hide UsedPart, Push, Pairs, Group, Hashes, Covered;
    if order == [] {
      NothingUsed(m);
      NoPairs();
      NothingGrouped();
    } else {
      var n := |order| - 1;
      var front, h := order[..n], order[n];
      CoveredPrefix(m, order, n);
      CoveredLast(m, order);
      GroupOfPairs(m, front);
      PairsLast(m, order);
      GroupLast(Pairs(m, front), h, m[h][multiset(front)[h]]);
      assert order == front + [h];
      UsedPartMore(Group(Pairs(m, front)), m, front, h);
    }
  }

  /** Saving the order with its ids and grouping on load gives back map and order. */
  lemma OrderedRoundTrip(m: map<Hash, seq<nat>>, order: seq<Hash>)
    requires Aligned(m, order)
    ensures Group(Pairs(m, order)) == m && Hashes(Pairs(m, order)) == order
  {
    assert Covered(m, order);
    GroupOfPairs(m, order);
    assert UsedPart(Group(Pairs(m, order)), m, order);
    forall h | h in m ensures Group(Pairs(m, order))[h] == m[h] {
      assert m[h][..multiset(order)[h]] == m[h];
    }
  }

  lemma {:induction false} PairsUnaffected(m: map<Hash, seq<nat>>, order: seq<Hash>, h: Hash, id: nat)
    requires Covered(m, order)
    ensures Pairs(Push(m, h, id), order) == Pairs(m, order)
  {
    if order != [] {
      CoveredPrefix(m, order, |order| - 1);
      LastIsBeyondPrefix(order);
      PairsUnaffected(m, order[..|order| - 1], h, id);
    }
  }

  lemma PairsMore(m: map<Hash, seq<nat>>, order: seq<Hash>, h: Hash, id: nat)
    requires Aligned(m, order)
    ensures Pairs(Push(m, h, id), order + [h]) == Pairs(m, order) + [Entry(h, id)]
    ensures Aligned(Push(m, h, id), order + [h])
  {
    PushExtends(m, order, h, id);
    PairsUnaffected(m, order, h, id);
    assert (order + [h])[..|order|] == order;
    assert |Bucket(m, h)| == multiset(order)[h];
  }

  /** The other way round: any stored list survives grouping and projecting again. */
  lemma {:induction false} PairsOfGroup(es: seq<Entry>)
    ensures Aligned(Group(es), Hashes(es)) && Pairs(Group(es), Hashes(es)) == es
  {
    hide Push, Pairs;
    if es == [] {
      NoPairs();
    } else {
      var n := |es| - 1;
      var front, e := es[..n], es[n];
      PairsOfGroup(front);
      PairsMore(Group(front), Hashes(front), e.hash, e.id);
      assert es == front + [Entry(e.hash, e.id)];
    }
  }

  lemma NoPairs()
    ensures Aligned(map[], []) && Pairs(map[], []) == []
  {
  }

  lemma PairsNext(m: map<Hash, seq<nat>>, order: seq<Hash>, i: nat)
    requires i < |order|
    ensures var h, k := order[i], multiset(order[..i])[order[i]];
      Pairs(m, order[..i + 1]) == Pairs(m, order[..i]) + [Entry(h, if h in m && k < |m[h]| then m[h][k] else 0)]
  {
    assert order[..i + 1][..i] == order[..i];
  }

  /** Pairs up an ordered hash list with a per-hash counter. */
  method ProjectOrdered(m: map<Hash, seq<nat>>, order: seq<Hash>) returns (es: seq<Entry>)
    ensures es == Pairs(m, order)
  {
    hide Pairs;
    es := [];
    var seen: map<Hash, nat> := map[];
    NoPairs();
    for i := 0 to |order|
      invariant es == Pairs(m, order[..i])
      invariant forall h :: (if h in seen then seen[h] else 0) == multiset(order[..i])[h]
    {
      var h := order[i];
      PairsNext(m, order, i);
      CountNext(order, i);
      var n := if h in seen then seen[h] else 0;
      es := es + [Entry(h, if h in m && n < |m[h]| then m[h][n] else 0)];
      seen := seen[h := n + 1];
    }
    assert order[..|order|] == order;
  }

  /** Regroups repeated hashes into buckets, keeping the order beside them. */
  method GroupEntries(es: seq<Entry>) returns (m: map<Hash, seq<nat>>, order: seq<Hash>)
    ensures m == Group(es) && order == Hashes(es)
  {
    m, order := map[], [];
    for i := 0 to |es|
      invariant m == Group(es[..i]) && order == Hashes(es[..i])
    {
      assert es[..i + 1][..i] == es[..i];
      m := Push(m, es[i].hash, es[i].id);
      order := order + [es[i].hash];
    }
    assert es[..|es|] == es;
  }

  // ----- string interning -----

  function ValuesOf(tokens: seq<Word>): (vs: seq<string>)
    ensures |vs| == |tokens| && forall i :: 0 <= i < |tokens| ==> vs[i] == tokens[i].value
  {
    seq(|tokens|, i requires 0 <= i < |tokens| => tokens[i].value)
  }

  /** The stored tokens refer to their values through the string table. */
  ghost predicate Interns(tokens: seq<Word>, strings: seq<string>, stored: seq<StoredToken>) {
    && strings == Distinct(ValuesOf(tokens))
    && |stored| == |tokens|
    && forall i :: 0 <= i < |tokens| ==> InternsOne(tokens[i], strings, stored[i])
  }

  ghost predicate InternsOne(w: Word, strings: seq<string>, st: StoredToken) {
    && st.stringId < |strings| && strings[st.stringId] == w.value
    && st == StoredToken(st.stringId, w.originRevId, w.lastRevId, w.inbound, w.outbound)
  }

  /** The string table is determined by the tokens, so saving is deterministic. */
  lemma InternsUnique(tokens: seq<Word>, s: seq<string>, x: seq<StoredToken>, t: seq<string>, y: seq<StoredToken>)
    requires Interns(tokens, s, x) && Interns(tokens, t, y)
    ensures s == t && x == y
  {
    DistinctFacts(ValuesOf(tokens));
    forall i | 0 <= i < |x| ensures x[i] == y[i] {
      assert InternsOne(tokens[i], s, x[i]) && InternsOne(tokens[i], t, y[i]);
    }
  }

  method ProjectTokens(tokens: seq<Word>) returns (strings: seq<string>, stored: seq<StoredToken>)
    ensures Interns(tokens, strings, stored)
  {
    hide Distinct;
    strings, stored := [], [];
    var interner: map<string, nat> := map[];
    ghost var vs := ValuesOf(tokens);
    NothingInterned();
    for i := 0 to |tokens|
      invariant strings == Distinct(vs[..i]) && |stored| == i
      invariant forall v :: v in interner <==> v in strings
      invariant forall v :: v in interner ==> interner[v] < |strings| && strings[interner[v]] == v
      invariant forall k :: 0 <= k < i ==> InternsOne(tokens[k], strings, stored[k])
    {
      var v := tokens[i].value;
      DistinctNext(vs, i);
      if v !in interner {
        interner := interner[v := |strings|];
        strings := strings + [v];
      }
      var w := tokens[i];
      stored := stored + [StoredToken(interner[v], w.originRevId, w.lastRevId, w.inbound, w.outbound)];
    }
    assert vs[..|tokens|] == vs;
  }

  // ----- deterministic order of tables and hash sets -----

  /** Lexicographic order of strings by code point. */
  predicate Less(x: Hash, y: Hash) {
    if y == "" then false
    else if x == "" then true
    else if x[0] != y[0] then x[0] < y[0]
    else Less(x[1..], y[1..])
  }

  lemma {:induction false} LessTrans(x: Hash, y: Hash, z: Hash)
    requires Less(x, y) && Less(y, z)
    ensures Less(x, z)
  {
    if x != "" && x[0] == y[0] == z[0] {
      LessTrans(x[1..], y[1..], z[1..]);
    }
  }

  lemma {:induction false} LessTotal(x: Hash, y: Hash)
    ensures x == y || Less(x, y) || Less(y, x)
    ensures !(Less(x, y) && Less(y, x)) && (x == y ==> !Less(x, y))
  {
    if x != "" && y != "" && x[0] == y[0] {
      LessTotal(x[1..], y[1..]);
      assert x == [x[0]] + x[1..] && y == [y[0]] + y[1..];
    }
  }

  ghost predicate Ascending(hs: seq<Hash>) {
    forall i, j :: 0 <= i < j < |hs| ==> Less(hs[i], hs[j])
  }

  function Insert(h: Hash, hs: seq<Hash>): (r: seq<Hash>) {
    if hs == [] then [h]
    else if Less(h, hs[0]) then [h] + hs
    else [hs[0]] + Insert(h, hs[1..])
  }

  lemma {:induction false} InsertFacts(h: Hash, hs: seq<Hash>)
    requires Ascending(hs) && h !in hs
    ensures Elems(Insert(h, hs)) == Elems(hs) + {h} && Ascending(Insert(h, hs))
  {
    if hs == [] {
    } else if Less(h, hs[0]) {
      forall i | 1 <= i < |hs| ensures Less(h, hs[i]) { LessTrans(h, hs[0], hs[i]); }
    } else {
      var rest := Insert(h, hs[1..]);
      InsertFacts(h, hs[1..]);
      LessTotal(h, hs[0]);
      ElemsAppend([hs[0]], rest);
      ElemsAppend([hs[0]], hs[1..]);
      assert hs == [hs[0]] + hs[1..];
      forall i | 0 <= i < |rest| ensures Less(hs[0], rest[i]) {
        assert rest[i] in Elems(rest);
        if rest[i] != h { assert rest[i] in hs[1..]; }
      }
    }
  }

  lemma {:induction false} AscendingUnique(x: seq<Hash>, y: seq<Hash>)
    requires Ascending(x) && Ascending(y) && Elems(x) == Elems(y)
    ensures x == y
  {
    NoElems(x);
    NoElems(y);
    if x != [] {
      assert x[0] in Elems(y) && y[0] in Elems(x);
      var i :| 0 <= i < |y| && y[i] == x[0];
      var j :| 0 <= j < |x| && x[j] == y[0];
      LessTotal(x[0], y[0]);
      assert x[0] == y[0];
      forall h ensures h in Elems(x[1..]) <==> h in Elems(y[1..]) {
        AscendingTail(x, h);
        AscendingTail(y, h);
      }
      AscendingUnique(x[1..], y[1..]);
    }
  }

  lemma NoElems(hs: seq<Hash>)
    ensures Elems(hs) == {} <==> hs == []
  {
    if hs != [] { assert hs[0] in Elems(hs); }
  }

  lemma AscendingTail(x: seq<Hash>, h: Hash)
    requires Ascending(x) && x != []
    ensures h in Elems(x[1..]) <==> h in Elems(x) && h != x[0]
  {
    LessTotal(x[0], x[0]);
    assert x == [x[0]] + x[1..];
  }

  /** The elements of a set in ascending order. */
  ghost function Sorted(s: set<Hash>): (hs: seq<Hash>)
    ensures Ascending(hs) && Elems(hs) == s
  {
    if s == {} then []
    else
      var h :| h in s;
      InsertFacts(h, Sorted(s - {h}));
      Insert(h, Sorted(s - {h}))
  }

  method SortHashes(s: set<Hash>) returns (hs: seq<Hash>)
    ensures hs == Sorted(s)
  {
    hs := [];
    var left := s;
    while left != {}
      invariant left <= s && Ascending(hs) && Elems(hs) == s - left
      decreases left
    {
      var h :| h in left;
      assert h !in Elems(hs);
      InsertFacts(h, hs);
      hs := Insert(h, hs);
      left := left - {h};
    }
    AscendingUnique(hs, Sorted(s));
  }

  function TableRows(m: map<Hash, seq<nat>>, keys: seq<Hash>): (rows: seq<HashBucket>)
    requires forall h :: h in keys ==> h in m
    ensures |rows| == |keys| && forall i :: 0 <= i < |rows| ==> rows[i] == HashBucket(keys[i], m[keys[i]])
  {
    seq(|keys|, i requires 0 <= i < |keys| => assert keys[i] in keys; HashBucket(keys[i], m[keys[i]]))
  }

  /** A hash table's buckets sorted by hash. */
  ghost function Table(m: map<Hash, seq<nat>>): seq<HashBucket> {
    TableRows(m, Sorted(m.Keys))
  }

  method ProjectTable(m: map<Hash, seq<nat>>) returns (rows: seq<HashBucket>)
    ensures rows == Table(m)
  {
    var keys := SortHashes(m.Keys);
    rows := TableRows(m, keys);
  }

  function Untable(rows: seq<HashBucket>): map<Hash, seq<nat>> {
    if rows == [] then map[]
    else Untable(rows[..|rows| - 1])[rows[|rows| - 1].hash := rows[|rows| - 1].arenaIds]
  }

  method LoadTable(rows: seq<HashBucket>) returns (m: map<Hash, seq<nat>>)
    ensures m == Untable(rows)
  {
    m := map[];
    for i := 0 to |rows|
      invariant m == Untable(rows[..i])
    {
      assert rows[..i + 1][..i] == rows[..i];
      m := m[rows[i].hash := rows[i].arenaIds];
    }
    assert rows[..|rows|] == rows;
  }

  lemma {:induction false} UntableRows(m: map<Hash, seq<nat>>, keys: seq<Hash>)
    requires forall h :: h in keys ==> h in m
    ensures Untable(TableRows(m, keys)) == map h | h in keys :: m[h]
  {
    if keys != [] {
      var n := |keys| - 1;
      assert TableRows(m, keys)[..n] == TableRows(m, keys[..n]);
      assert keys == keys[..n] + [keys[n]];
      UntableRows(m, keys[..n]);
    }
  }

  lemma TableRoundTrip(m: map<Hash, seq<nat>>)
    ensures Untable(Table(m)) == m
  {
    UntableRows(m, Sorted(m.Keys));
    assert forall h :: h in Sorted(m.Keys) <==> h in Elems(Sorted(m.Keys));
  }
}
