/** What a stored revision adds. In general that is what its transcript does not keep. Where no
    paragraph occurs more often than in the previous revision, however they are reordered,
    every one is that revision's own and nothing is added; where the paragraphs are the same,
    so is the token sequence. */
module Growth {
  import opened Wrappers
  import opened Seqs
  import opened Buckets
  import opened TextOps
  import opened Structures
  import opened EditScript
  import opened CascadeSpec
  import opened CascadeShape
  import opened SentenceLevel
  import opened Accounting
  import opened History
  import opened Fidelity
  import opened Runs
  import opened Reuse
  import opened Verdicts

  // ----- distinct paragraphs of one revision -----

  lemma BucketNoDup(m: map<Hash, seq<nat>>, order: seq<Hash>, h: Hash)
    requires Aligned(m, order) && NoDup(Walk(m, order)) && h in m
    ensures NoDup(m[h])
  {
    hide Walk, WalkIn;
    var keys := m.Keys - {h};
    BucketIsWalk(m, order, keys, h);
    assert keys + {h} == m.Keys;
    WalkInAll(m, order, m.Keys);
    NoDupCounts(Walk(m, order));
    NoDupCounts(m[h]);
    forall x ensures multiset(m[h])[x] <= 1 {
      assert multiset(Walk(m, order))[x] <= 1;
    }
  }

  lemma SharedTwice<T>(x: seq<T>, y: seq<T>, t: T)
    requires NoDup(x + y) && t in x
    ensures t !in y
  {
    var i :| 0 <= i < |x| && x[i] == t;
    forall j | 0 <= j < |y| ensures y[j] != t {
      assert (x + y)[i] == t && (x + y)[|x| + j] == y[j];
    }
  }

  lemma WordsApart(a: Arenas, w: seq<ParagraphId>, x: ParagraphId, y: ParagraphId)
    requires NoDup(WordsIn(a, w)) && x in w && y in w && x != y
    ensures Elems(ParaWords(a, x)) !! Elems(ParaWords(a, y))
  {
    hide FlatSids, FlatWords, NoDup, ParaWords, WordsIn;
    var before, after := SplitAround(w, x);
    WordsInAppend(a, before + [x], after);
    WordsInAppend(a, before, [x]);
    WordsInSingle(a, x);
    var wb, wx, wa := WordsIn(a, before), ParaWords(a, x), WordsIn(a, after);
    assert WordsIn(a, w) == wb + wx + wa == wb + (wx + wa);
    forall t | t in wx ensures t !in ParaWords(a, y) {
      if t in ParaWords(a, y) {
        if y in before {
          WordsInHas(a, before, y);
          SharedTwice(wb, wx + wa, t);
        } else {
          WordsInHas(a, after, y);
          SharedTwice(wb + wx, wa, t);
        }
      }
    }
  }

  // ----- the paragraph level -----

  /** Candidates that are matched already are passed over. */
  lemma {:induction false} ScanSkips(a: Arenas, cs: seq<ParagraphId>, k: nat, m: MatchedSets, log: seq<ParagraphId>)
    requires k < |cs| && (forall i :: 0 <= i < k ==> cs[i] in m.paragraphs)
    requires cs[k] !in m.paragraphs && Elems(ParaWords(a, cs[k])) !! m.tokens
    ensures ScanParagraphs(a, cs, m, log) == Scan(Some(cs[k]), ClaimParagraph(a, cs[k], m), log + [cs[k]])
    decreases k
  {
    hide ParaWords, ClaimParagraph;
    if k > 0 {
      assert cs[1..][k - 1] == cs[k] && forall i :: 0 <= i < k - 1 ==> cs[1..][i] == cs[i + 1];
      ScanSkips(a, cs[1..], k - 1, m, log);
    }
  }

  /** Under this hash `m` has the first entries of `prev`, as many as the order has. */
  ghost predicate FirstOf(prev: map<Hash, seq<ParagraphId>>, order: seq<Hash>, m: map<Hash, seq<ParagraphId>>,
      h: Hash) {
    multiset(order)[h] <= |Bucket(prev, h)| && Bucket(m, h) == Bucket(prev, h)[..multiset(order)[h]]
  }

  ghost predicate FirstOnes(prev: map<Hash, seq<ParagraphId>>, order: seq<Hash>, m: map<Hash, seq<ParagraphId>>) {
    forall h :: FirstOf(prev, order, m, h)
  }

  /** So far every paragraph has been the next of its hash in the previous revision. */
  ghost predicate AllKnown(a0: Arenas, prev: map<Hash, seq<ParagraphId>>, order: seq<Hash>, s: ParaState) {
    && s.arenas == a0 && s.unmatchedCurr == [] && s.curr.orderedParagraphs == order
    && FirstOnes(prev, order, s.curr.paragraphs)
    && forall pid :: pid in s.matched.paragraphs ==> pid in Pids(s.curr)
  }

  ghost predicate PrevOk(a0: Arenas, prev: map<Hash, seq<ParagraphId>>, prevOrder: seq<Hash>) {
    GoodArenas(a0) && GoodIndex(a0, prev, prevOrder)
  }

  lemma Counted(m: map<Hash, seq<nat>>, order: seq<Hash>, h: Hash)
    requires Aligned(m, order)
    ensures |Bucket(m, h)| == multiset(order)[h]
  {
  }

  /** A paragraph placed so far lies in the bucket of its own hash. */
  lemma PlacedUnder(a: Arenas, curr0: Revision, curr: Revision, pid: ParagraphId)
    requires CurrIndexed(a, curr0, curr) && pid in Pids(curr)
    ensures pid < |a.paragraphs| && pid in Bucket(curr.paragraphs, a.paragraphs[pid].hashValue)
  {
    hide Walk;
    var w, order := Pids(curr), curr.orderedParagraphs;
    assert Covered(curr.paragraphs, order);
    var i :| 0 <= i < |w| && w[i] == pid;
    InOwnBucket(curr.paragraphs, order, i);
  }

  lemma {:induction false} InOwnBucket(m: map<Hash, seq<nat>>, order: seq<Hash>, i: nat)
    requires Covered(m, order) && i < |order|
    ensures |Walk(m, order)| == |order| && order[i] in m && Walk(m, order)[i] in m[order[i]]
  {
    WalkLength(m, order);
    var n := |order| - 1;
    CoveredPrefix(m, order, n);
    WalkLength(m, order[..n]);
    LastIsBeyondPrefix(order);
    if i < n {
      InOwnBucket(m, order[..n], i);
    }
  }

  lemma EntryWalked(m: map<Hash, seq<nat>>, order: seq<Hash>, h: Hash, id: nat)
    requires Aligned(m, order) && id in Bucket(m, h)
    ensures id in Walk(m, order)
  {
    EntryPosition(m, order, h, id);
    var i :| 0 <= i < |order| && Walk(m, order)[i] == id && order[i] == h;
  }

  lemma PlacedInWalk(a0: Arenas, curr0: Revision, prev: map<Hash, seq<ParagraphId>>, prevOrder: seq<Hash>,
      s: ParaState, x: ParagraphId)
    requires Aligned(prev, prevOrder) && CurrIndexed(a0, curr0, s.curr)
    requires AllKnown(a0, prev, s.curr.orderedParagraphs, s) && x in Pids(s.curr)
    ensures x in Walk(prev, prevOrder)
  {
    hide CurrIndexed, Aligned, Pids;
    PlacedUnder(a0, curr0, s.curr, x);
    var h := a0.paragraphs[x].hashValue;
    assert FirstOf(prev, s.curr.orderedParagraphs, s.curr.paragraphs, h);
    assert x in Bucket(prev, h)[..multiset(s.curr.orderedParagraphs)[h]];
    EntryWalked(prev, prevOrder, h, x);
  }

  /** A paragraph with hash `h` has been placed exactly if it is among the first ones of the
      previous revision's. */
  lemma PlacedSoFar(a0: Arenas, curr0: Revision, prev: map<Hash, seq<ParagraphId>>, prevOrder: seq<Hash>,
      s: ParaState, h: Hash, i: nat)
    requires GoodIndex(a0, prev, prevOrder) && CurrIndexed(a0, curr0, s.curr)
    requires AllKnown(a0, prev, s.curr.orderedParagraphs, s) && h in prev && i < |prev[h]|
    ensures prev[h][i] in Pids(s.curr) <==> i < multiset(s.curr.orderedParagraphs)[h]
    ensures prev[h][i] < |a0.paragraphs| && prev[h][i] in Walk(prev, prevOrder)
  {
    var q, k := prev[h][i], multiset(s.curr.orderedParagraphs)[h];
    IndexLive(a0, prev, prevOrder);
    assert ParagraphUnder(a0, q, h);
    assert Aligned(s.curr.paragraphs, s.curr.orderedParagraphs);
    assert FirstOf(prev, s.curr.orderedParagraphs, s.curr.paragraphs, h);
    assert Bucket(s.curr.paragraphs, h) == prev[h][..k];
    BucketNoDup(prev, prevOrder, h);
    hide CurrIndexed, Walk, Pids, LiveParagraph, WordsIn, HashedBy;
    EntryWalked(prev, prevOrder, h, q);
    if i < k {
      assert prev[h][..k][i] == q;
      EntryPosition(s.curr.paragraphs, s.curr.orderedParagraphs, h, q);
      SameIds(s.curr);
    } else {
      assert q !in prev[h][..k];
      if q in Pids(s.curr) { PlacedUnder(a0, curr0, s.curr, q); }
    }
  }

  lemma SameIds(rev: Revision)
    ensures Pids(rev) == Walk(rev.paragraphs, rev.orderedParagraphs)
  {
  }

  /** Of the previous revision's paragraphs with a hash, the next one is free. */
  lemma NextIsFree(a0: Arenas, curr0: Revision, prev: map<Hash, seq<ParagraphId>>, prevOrder: seq<Hash>,
      s: ParaState, h: Hash)
    requires PrevOk(a0, prev, prevOrder) && ParaInv(a0, curr0, s)
    requires AllKnown(a0, prev, s.curr.orderedParagraphs, s)
    requires multiset(s.curr.orderedParagraphs)[h] < multiset(prevOrder)[h]
    ensures var k := multiset(s.curr.orderedParagraphs)[h];
      && h in prev && k < |prev[h]| && (forall i :: 0 <= i < k ==> prev[h][i] in s.matched.paragraphs)
      && prev[h][k] !in s.matched.paragraphs && Elems(ParaWords(a0, prev[h][k])) !! s.matched.tokens
  {
    var w, pids, k := Walk(prev, prevOrder), Pids(s.curr), multiset(s.curr.orderedParagraphs)[h];
    Counted(prev, prevOrder, h);
    var q := prev[h][k];
    assert CurrIndexed(a0, curr0, s.curr) && PlacedOnce(|a0.paragraphs|, |a0.paragraphs|, pids, s.matched.paragraphs);
    assert WordsClaimed(WordsIn(a0, pids), s.matched.tokens) && NoDup(WordsIn(a0, w)) && Aligned(prev, prevOrder);
    hide ParaInv, Walk, LiveParagraph, FlatSids, FlatWords, ParaWords, WordsIn, GoodArenas, GoodIndex, CurrIndexed,
      Pids, Aligned;
    PlacedSoFar(a0, curr0, prev, prevOrder, s, h, k);
    forall i | 0 <= i < k ensures prev[h][i] in s.matched.paragraphs {
      PlacedSoFar(a0, curr0, prev, prevOrder, s, h, i);
    }
    forall t | t in s.matched.tokens ensures t !in ParaWords(a0, q) {
      assert t in WordsIn(a0, pids);
      WordsInFrom(a0, pids, t);
      var x :| x in pids && t in ParaWords(a0, x);
      PlacedInWalk(a0, curr0, prev, prevOrder, s, x);
      WordsApart(a0, w, x, q);
      assert t in Elems(ParaWords(a0, x));
    }
  }

  lemma CountMore(order: seq<Hash>, h: Hash)
    ensures forall x :: multiset(order + [h])[x] == multiset(order)[x] + if x == h then 1 else 0
  {
  }

  lemma FirstOnesNext(prev: map<Hash, seq<ParagraphId>>, order: seq<Hash>, m: map<Hash, seq<ParagraphId>>, h: Hash)
    requires FirstOnes(prev, order, m) && h in prev && multiset(order)[h] < |prev[h]|
    ensures FirstOnes(prev, order + [h], Push(m, h, prev[h][multiset(order)[h]]))
  {
    var k := multiset(order)[h];
    var m' := Push(m, h, prev[h][k]);
    CountMore(order, h);
    OneMore(prev[h], k);
    assert FirstOf(prev, order, m, h);
    assert Bucket(m', h) == Bucket(m, h) + [prev[h][k]];
    var order' := order + [h];
    forall x ensures FirstOf(prev, order', m', x) {
      assert FirstOf(prev, order, m, x);
      if x != h { assert Bucket(m', x) == Bucket(m, x); }
    }
  }

  lemma OneMore<T>(s: seq<T>, k: nat)
    requires k < |s|
    ensures s[..k + 1] == s[..k] + [s[k]]
  {
  }

  lemma KnownNext(a0: Arenas, curr0: Revision, prev: map<Hash, seq<ParagraphId>>, s: ParaState, h: Hash,
      m: MatchedSets, log: seq<ParagraphId>)
    requires CurrIndexed(a0, curr0, s.curr) && AllKnown(a0, prev, s.curr.orderedParagraphs, s)
    requires var k := multiset(s.curr.orderedParagraphs)[h];
      h in prev && k < |prev[h]| && m.paragraphs == s.matched.paragraphs + {prev[h][k]}
    ensures var q, order := prev[h][multiset(s.curr.orderedParagraphs)[h]], s.curr.orderedParagraphs + [h];
      AllKnown(a0, prev, order, s.(curr := AddParagraph(s.curr, h, q), matched := m, matchedPrev := log))
  {
    var order := s.curr.orderedParagraphs;
    AddParagraphExtends(s.curr, h, prev[h][multiset(order)[h]]);
    FirstOnesNext(prev, order, s.curr.paragraphs, h);
    hide Walk, Pids, Aligned, FirstOnes;
  }

  lemma StepFound(ops: TextOps, prev: map<Hash, seq<ParagraphId>>, text: string, s: ParaState, q: ParagraphId,
      m: MatchedSets, log: seq<ParagraphId>)
    requires var h := ops.digest(text);
      ScanParagraphs(s.arenas, Bucket(prev, h) + Bucket(s.arenas.paragraphsHt, h), s.matched, s.matchedPrev)
          == Scan(Some(q), m, log)
    ensures ParaStep(ops, prev, text, s)
         == s.(curr := AddParagraph(s.curr, ops.digest(text), q), matched := m, matchedPrev := log)
  {
    hide ScanParagraphs, AddParagraph;
  }

  lemma KnownScan(a0: Arenas, bucket: seq<ParagraphId>, table: seq<ParagraphId>, k: nat, m: MatchedSets,
      log: seq<ParagraphId>)
    requires k < |bucket| && (forall i :: 0 <= i < k ==> bucket[i] in m.paragraphs)
    requires bucket[k] !in m.paragraphs && Elems(ParaWords(a0, bucket[k])) !! m.tokens
    ensures ScanParagraphs(a0, bucket + table, m, log)
         == Scan(Some(bucket[k]), ClaimParagraph(a0, bucket[k], m), log + [bucket[k]])
  {
    hide ParaWords, ScanParagraphs, ClaimParagraph;
    var cs := bucket + table;
    assert cs[k] == bucket[k] && forall i :: 0 <= i < k ==> cs[i] == bucket[i];
    ScanSkips(a0, cs, k, m, log);
  }

  lemma KnownStep(ops: TextOps, a0: Arenas, curr0: Revision, prev: map<Hash, seq<ParagraphId>>,
      prevOrder: seq<Hash>, text: string, s: ParaState)
    requires PrevOk(a0, prev, prevOrder) && ParaInv(a0, curr0, s)
    requires AllKnown(a0, prev, s.curr.orderedParagraphs, s)
    requires multiset(s.curr.orderedParagraphs)[ops.digest(text)] < multiset(prevOrder)[ops.digest(text)]
    ensures AllKnown(a0, prev, s.curr.orderedParagraphs + [ops.digest(text)], ParaStep(ops, prev, text, s))
  {
    hide ParaInv, PrevOk, AllKnown, CurrIndexed, ParaWords, SidsOf, ScanParagraphs, AddParagraph, ParaStep;
    var h, k := ops.digest(text), multiset(s.curr.orderedParagraphs)[ops.digest(text)];
    NextIsFree(a0, curr0, prev, prevOrder, s, h);
    CurrKept(a0, curr0, s);
    KnownOrder(a0, prev, s.curr.orderedParagraphs, s);
    var q := prev[h][k];
    KnownScan(a0, prev[h], Bucket(a0.paragraphsHt, h), k, s.matched, s.matchedPrev);
    var m, log := ClaimParagraph(a0, q, s.matched), s.matchedPrev + [q];
    assert Bucket(prev, h) == prev[h];
    StepFound(ops, prev, text, s, q, m, log);
    KnownNext(a0, curr0, prev, s, h, m, log);
  }

  lemma CurrKept(a0: Arenas, curr0: Revision, s: ParaState)
    requires ParaInv(a0, curr0, s)
    ensures CurrIndexed(s.arenas, curr0, s.curr)
  {
  }

  lemma {:induction false} KnownLoop(ops: TextOps, a0: Arenas, curr0: Revision, prev: map<Hash, seq<ParagraphId>>,
      prevOrder: seq<Hash>, texts: seq<string>, s: ParaState)
    requires PrevOk(a0, prev, prevOrder) && ParaInv(a0, curr0, s)
    requires AllKnown(a0, prev, s.curr.orderedParagraphs, s)
    requires multiset(s.curr.orderedParagraphs + Digests(ops, texts)) <= multiset(prevOrder)
    ensures AllKnown(a0, prev, s.curr.orderedParagraphs + Digests(ops, texts), ParaLoop(ops, prev, texts, s))
    decreases |texts|
  {
    var order := s.curr.orderedParagraphs;
    hide ParaInv, PrevOk, AllKnown, ParaStep;
    if texts == [] {
      assert order + [] == order;
    } else {
      var h, rest := ops.digest(texts[0]), Digests(ops, texts[1..]);
      assert order + Digests(ops, texts) == (order + [h]) + rest;
      CountMore(order, h);
      assert multiset((order + [h]) + rest)[h] >= multiset(order)[h] + 1;
      KnownStep(ops, a0, curr0, prev, prevOrder, texts[0], s);
      PrevParts(a0, prev, prevOrder);
      ParaStepKeeps(ops, a0, curr0, prev, texts[0], s);
      var s' := ParaStep(ops, prev, texts[0], s);
      KnownOrder(a0, prev, order + [h], s');
      KnownLoop(ops, a0, curr0, prev, prevOrder, texts[1..], s');
    }
  }

  lemma PrevParts(a0: Arenas, prev: map<Hash, seq<ParagraphId>>, prevOrder: seq<Hash>)
    requires PrevOk(a0, prev, prevOrder)
    ensures IndexedLive(a0, a0.paragraphsHt) && IndexedLive(a0, prev)
  {
    IndexLive(a0, prev, prevOrder);
  }

  lemma KnownOrder(a0: Arenas, prev: map<Hash, seq<ParagraphId>>, order: seq<Hash>, s: ParaState)
    requires AllKnown(a0, prev, order, s)
    ensures s.curr.orderedParagraphs == order && s.arenas == a0 && s.unmatchedCurr == []
  {
  }

  lemma NothingKnownYet(a0: Arenas, prev: map<Hash, seq<ParagraphId>>, curr0: Revision)
    requires curr0.paragraphs == map[] && curr0.orderedParagraphs == []
    ensures AllKnown(a0, prev, [], ParaState(a0, curr0, MatchedSets({}, {}, {}), [], []))
  {
  }

  // ----- the cascade -----

  /** Where no paragraph of the text occurs more often than in the previous revision, the
      cascade changes no arena and adds nothing: under each hash the new revision has the
      previous one's own paragraphs, from the first on. */
  lemma KnownParagraphs(ops: TextOps, a0: Arenas, text: string, prev: map<Hash, seq<ParagraphId>>,
      prevOrder: seq<Hash>, curr0: Revision)
    requires GoodArenas(a0) && GoodIndex(a0, prev, prevOrder)
    requires curr0.paragraphs == map[] && curr0.orderedParagraphs == []
    requires multiset(Digests(ops, Paragraphs(ops, text))) <= multiset(prevOrder)
    ensures var c, order := DetermineAuthorship(ops, a0, text, prev, prevOrder, curr0),
        Digests(ops, Paragraphs(ops, text));
      && !c.vandalism && c.arenas == a0 && c.unmatchedParagraphsCurr == [] == c.unmatchedSentencesCurr
      && c.curr == curr0.(paragraphs := c.curr.paragraphs, orderedParagraphs := order)
      && Aligned(c.curr.paragraphs, order) && FirstOnes(prev, order, c.curr.paragraphs)
  {
    var p0, texts := ParaState(a0, curr0, MatchedSets({}, {}, {}), [], []), Paragraphs(ops, text);
    var p := AnalyseParagraphs(ops, a0, text, prev, curr0);
    StartOk(a0, curr0);
    NothingKnownYet(a0, prev, curr0);
    assert [] + Digests(ops, texts) == Digests(ops, texts);
    KnownLoop(ops, a0, curr0, prev, prevOrder, texts, p0);
    ParaResult(ops, a0, text, prev, prevOrder, curr0);
    assert AllKnown(a0, prev, Digests(ops, texts), p) && CurrIndexed(p.arenas, curr0, p.curr);
    hide ParaInv, GoodArenas, GoodIndex, ParaLoop, Walk, Unmatched, Aligned, AnalyseSentences, AfterSentences;
  }

  // ----- stored revisions -----

  lemma CommitIs(ops: TextOps, st: ArticleState, input: RevisionInput)
    requires AnalyseRevision(ops, st, input).1 == Stored
    ensures var c := CascadeOf(ops, st, input);
      !c.vandalism && Step(ops, st, input) == Commit(st, input, c)
      && Step(ops, st, input).arenas == CommitArenas(c, PrevRevision(st).id, input.revId)
  {
    hide CascadeOf, LengthShrinks, RecordInboundOutbound, CommitParagraphs, CommitSentences;
  }

  /** A stored revision adds the words of its new sentences less those its transcript keeps. */
  lemma StoredAdds(ops: TextOps, st: ArticleState, input: RevisionInput)
    requires Shaped(st) && AnalyseRevision(ops, st, input).1 == Stored
    ensures var st', c := Step(ops, st, input), CascadeOf(ops, st, input);
      && input.revId in st'.revisions
      && st'.revisions[input.revId].originalAdds + Keeps(Script(st.arenas, c)) == |NewTokens(c)|
      && |st'.arenas.tokens| == |st.arenas.tokens| + st'.revisions[input.revId].originalAdds
  {
    var c, prev := CascadeOf(ops, st, input), PrevRevision(st);
    PrevIndex(st);
    assert GoodArenas(st.arenas);
    hide Shaped, GoodArenas, GoodIndex, DetermineAuthorship, CascadeOk, Walk, ParagraphsExhausted, SentencesExhausted,
      ScriptFollowed, CommitArenas, Commit, Extends;
    CommitIs(ops, st, input);
    CascadeRuns(ops, st, input);
    CascadeReuse(ops, st.arenas, ops.lower(input.text), prev.paragraphs, prev.orderedParagraphs, FreshRevision(input));
    AddsAgree(st.arenas, 0, c);
    CommitTokens(st, input, c);
  }

  lemma CommitTokens(st: ArticleState, input: RevisionInput, c: Cascade)
    requires !c.vandalism
    ensures |Commit(st, input, c).arenas.tokens| == |c.arenas.tokens|
    ensures input.revId in Commit(st, input, c).revisions && Commit(st, input, c).revisions[input.revId] == c.curr
  {
    var a := RecordInboundOutbound(c, PrevRevision(st).id, input.revId);
    CommitKeepsTokens(a, c.unmatchedParagraphsCurr);
    CommitKeepsTokens2(CommitParagraphs(a, c.unmatchedParagraphsCurr), c.unmatchedSentencesCurr);
  }

  lemma {:induction false} CommitKeepsTokens(a: Arenas, pids: seq<ParagraphId>)
    ensures CommitParagraphs(a, pids).tokens == a.tokens
    decreases |pids|
  {
    if pids != [] {
      var p := if pids[0] < |a.paragraphs| then a.paragraphs[pids[0]] else Paragraph("", "", map[], []);
      CommitKeepsTokens(if pids[0] < |a.paragraphs| then
          a.(paragraphsHt := Push(a.paragraphsHt, p.hashValue, pids[0]),
             paragraphs := a.paragraphs[pids[0] := p.(value := "")]) else a, pids[1..]);
    }
  }

  lemma {:induction false} CommitKeepsTokens2(a: Arenas, sids: seq<SentenceId>)
    ensures CommitSentences(a, sids).tokens == a.tokens
    decreases |sids|
  {
    if sids != [] {
      var s := if sids[0] < |a.sentences| then a.sentences[sids[0]] else Sentence("", "", []);
      CommitKeepsTokens2(if sids[0] < |a.sentences| then
          a.(sentencesHt := Push(a.sentencesHt, s.hashValue, sids[0]),
             sentences := a.sentences[sids[0] := s.(value := "")]) else a, sids[1..]);
    }
  }

  // ----- revisions without a new paragraph -----

  lemma {:induction false} WalkByBuckets(m: map<Hash, seq<nat>>, m': map<Hash, seq<nat>>, order: seq<Hash>)
    requires forall h :: Bucket(m, h) == Bucket(m', h)
    ensures Walk(m, order) == Walk(m', order)
  {
    if order != [] {
      WalkByBuckets(m, m', order[..|order| - 1]);
      var h := order[|order| - 1];
      assert Bucket(m, h) == Bucket(m', h);
    }
  }

  /** The paragraphs placed are paragraphs of the previous revision. */
  lemma PlacedFromPrev(prev: map<Hash, seq<ParagraphId>>, prevOrder: seq<Hash>, curr: Revision)
    requires Aligned(prev, prevOrder) && Aligned(curr.paragraphs, curr.orderedParagraphs)
    requires FirstOnes(prev, curr.orderedParagraphs, curr.paragraphs)
    ensures forall pid :: pid in Pids(curr) ==> pid in Walk(prev, prevOrder)
  {
    hide Walk, Pids, Aligned;
    SameIds(curr);
    forall pid | pid in Pids(curr) ensures pid in Walk(prev, prevOrder) {
      AlignedMembers(curr.paragraphs, curr.orderedParagraphs, pid);
      var h :| h in curr.paragraphs && pid in curr.paragraphs[h];
      assert FirstOf(prev, curr.orderedParagraphs, curr.paragraphs, h) && pid in Bucket(curr.paragraphs, h);
      EntryWalked(prev, prevOrder, h, pid);
    }
  }

  lemma AllPlaced(prev: map<Hash, seq<ParagraphId>>, prevOrder: seq<Hash>, order: seq<Hash>,
      m: map<Hash, seq<ParagraphId>>)
    requires Aligned(prev, prevOrder) && FirstOnes(prev, order, m) && multiset(order) == multiset(prevOrder)
    ensures forall h :: Bucket(m, h) == Bucket(prev, h)
  {
    forall h ensures Bucket(m, h) == Bucket(prev, h) {
      Counted(prev, prevOrder, h);
      assert FirstOf(prev, order, m, h);
      assert Bucket(prev, h)[..|Bucket(prev, h)|] == Bucket(prev, h);
    }
  }

  /** And all of them if each hash occurs as often. */
  lemma PrevIsPlaced(prev: map<Hash, seq<ParagraphId>>, prevOrder: seq<Hash>, curr: Revision)
    requires Aligned(prev, prevOrder) && Aligned(curr.paragraphs, curr.orderedParagraphs)
    requires FirstOnes(prev, curr.orderedParagraphs, curr.paragraphs)
    requires multiset(curr.orderedParagraphs) == multiset(prevOrder)
    ensures forall pid :: pid in Walk(prev, prevOrder) ==> pid in Pids(curr)
    ensures curr.orderedParagraphs == prevOrder ==> Pids(curr) == Walk(prev, prevOrder)
  {
    hide Walk, Pids, Aligned, FirstOnes;
    SameIds(curr);
    AllPlaced(prev, prevOrder, curr.orderedParagraphs, curr.paragraphs);
    forall pid | pid in Walk(prev, prevOrder) ensures pid in Pids(curr) {
      AlignedMembers(prev, prevOrder, pid);
      var h :| h in prev && pid in prev[h];
      assert pid in Bucket(curr.paragraphs, h);
      EntryWalked(curr.paragraphs, curr.orderedParagraphs, h, pid);
    }
    WalkByBuckets(curr.paragraphs, prev, prevOrder);
  }

  /** Without a new paragraph nothing is too dense, so only the hash or the length can refuse
      the revision; stored, it adds no token, and its tokens are tokens of the previous one:
      all of them if no paragraph went missing, and the very sequence if none moved. */
  lemma NoNewParagraphs(ops: TextOps, st: ArticleState, input: RevisionInput)
    requires Shaped(st)
    requires multiset(Digests(ops, Paragraphs(ops, ops.lower(input.text))))
          <= multiset(PrevRevision(st).orderedParagraphs)
    ensures var order, prev := Digests(ops, Paragraphs(ops, ops.lower(input.text))), PrevRevision(st);
      var (st', outcome) := AnalyseRevision(ops, st, input);
      && (outcome == Stored
          <==> SpamHash(ops, input) !in st.spamHashes && !Shrinks(LastLength(st), |input.text|, input))
      && (outcome == Stored ==>
            && input.revId in st'.revisions && st'.revisions[input.revId].originalAdds == 0
            && |st'.arenas.tokens| == |st.arenas.tokens|
            && var now, before := RevTokens(st'.arenas, st'.revisions[input.revId]), RevTokens(st.arenas, prev);
               && (forall t :: t in now ==> t in before)
               && (multiset(order) == multiset(prev.orderedParagraphs) ==> forall t :: t in before ==> t in now)
               && (order == prev.orderedParagraphs ==> now == before))
  {
    var c, prev := CascadeOf(ops, st, input), PrevRevision(st);
    PrevIndex(st);
    assert GoodArenas(st.arenas) && Aligned(prev.paragraphs, prev.orderedParagraphs);
    hide Shaped, GoodArenas, GoodIndex, DetermineAuthorship, Aligned, CascadeOk, Walk, FirstOnes, CommitArenas, Commit,
      RevTokens, TooDense, NewWords, SpamHash, Shrinks, AnalyseRevision, CascadeOf, WordsIn;
    KnownCascade(ops, st, input);
    VerdictExactly(ops, st, input);
    NothingDense(c);
    if AnalyseRevision(ops, st, input).1 == Stored {
      CommitIs(ops, st, input);
      CommitTokens(st, input, c);
      StoredTokens(ops, st, input);
      PlacedFromPrev(prev.paragraphs, prev.orderedParagraphs, c.curr);
      SameIds(prev);
      if multiset(c.curr.orderedParagraphs) == multiset(prev.orderedParagraphs) {
        PrevIsPlaced(prev.paragraphs, prev.orderedParagraphs, c.curr);
      }
      TokensOfPids(st.arenas, c.curr, prev);
    }
  }

  lemma KnownCascade(ops: TextOps, st: ArticleState, input: RevisionInput)
    requires Shaped(st)
    requires multiset(Digests(ops, Paragraphs(ops, ops.lower(input.text))))
          <= multiset(PrevRevision(st).orderedParagraphs)
    ensures var c, prev := CascadeOf(ops, st, input), PrevRevision(st);
      && c.arenas == st.arenas && c.unmatchedSentencesCurr == [] && c.curr.originalAdds == 0
      && c.curr.orderedParagraphs == Digests(ops, Paragraphs(ops, ops.lower(input.text)))
      && Aligned(c.curr.paragraphs, c.curr.orderedParagraphs)
      && FirstOnes(prev.paragraphs, c.curr.orderedParagraphs, c.curr.paragraphs)
  {
    var prev := PrevRevision(st);
    PrevIndex(st);
    assert GoodArenas(st.arenas);
    hide Shaped, GoodArenas, GoodIndex, DetermineAuthorship, Aligned, FirstOnes;
    KnownParagraphs(ops, st.arenas, ops.lower(input.text), prev.paragraphs, prev.orderedParagraphs,
        FreshRevision(input));
  }

  /** Committing changes no token sequence. */
  lemma StoredTokens(ops: TextOps, st: ArticleState, input: RevisionInput)
    requires Shaped(st) && AnalyseRevision(ops, st, input).1 == Stored
    ensures var c := CascadeOf(ops, st, input);
      RevTokens(Step(ops, st, input).arenas, c.curr) == RevTokens(c.arenas, c.curr)
  {
    var c, prev := CascadeOf(ops, st, input), PrevRevision(st);
    assert GoodArenas(st.arenas);
    hide Shaped, GoodArenas, GoodIndex, DetermineAuthorship, CascadeOk, Walk, CommitArenas, Commit, RevTokens, Extends,
      CascadeOf, OnlyAppended, TablesGrow;
    CommitIs(ops, st, input);
    CascadeRuns(ops, st, input);
    CommitGood(st.arenas, Walk(prev.paragraphs, prev.orderedParagraphs), FreshRevision(input), c, prev.id);
  }

  lemma TokensOfPids(a: Arenas, rev: Revision, prev: Revision)
    requires forall pid :: pid in Pids(rev) ==> pid in Pids(prev)
    ensures forall t :: t in RevTokens(a, rev) ==> t in RevTokens(a, prev)
    ensures (forall pid :: pid in Pids(prev) ==> pid in Pids(rev)) ==>
      forall t :: t in RevTokens(a, prev) ==> t in RevTokens(a, rev)
    ensures Pids(rev) == Pids(prev) ==> RevTokens(a, rev) == RevTokens(a, prev)
  {
    hide WordsIn, Pids;
    WordsAmong(a, Pids(rev), Pids(prev));
    if forall pid :: pid in Pids(prev) ==> pid in Pids(rev) {
      WordsAmong(a, Pids(prev), Pids(rev));
    }
  }

  lemma WordsAmong(a: Arenas, xs: seq<ParagraphId>, ys: seq<ParagraphId>)
    requires forall pid :: pid in xs ==> pid in ys
    ensures forall t :: t in WordsIn(a, xs) ==> t in WordsIn(a, ys)
  {
    hide WordsIn, ParaWords;
    forall t | t in WordsIn(a, xs) ensures t in WordsIn(a, ys) {
      WordsInFrom(a, xs, t);
      var pid :| pid in xs && t in ParaWords(a, pid);
      WordsInHas(a, ys, pid);
    }
  }
}
