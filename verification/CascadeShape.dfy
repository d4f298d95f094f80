/** The shape every reachable article keeps, and how the paragraph level of the cascade
    keeps it. Nothing here depends on what the splitters or the digest do. */
module CascadeShape {
  import opened Wrappers
  import opened Seqs
  import opened Buckets
  import opened TextOps
  import opened Structures
  import opened CascadeSpec

  ghost predicate LiveSentence(a: Arenas, sid: SentenceId) {
    && sid < |a.sentences|
    && WordsOf(a.sentences, sid) != []
    && NoDup(WordsOf(a.sentences, sid))
    && (forall w :: w in WordsOf(a.sentences, sid) ==> w < |a.tokens|)
  }

  ghost predicate SentenceUnder(a: Arenas, sid: SentenceId, h: Hash) {
    LiveSentence(a, sid) && a.sentences[sid].hashValue == h
  }

  /** The sentences `sids` carry the hashes in `order`, position by position. */
  ghost predicate SentencesHashed(sentences: seq<Sentence>, sids: seq<SentenceId>, order: seq<Hash>) {
    && |sids| == |order|
    && forall i :: 0 <= i < |sids| ==> sids[i] < |sentences| && sentences[sids[i]].hashValue == order[i]
  }

  ghost predicate HashesAgree(a: Arenas, pid: ParagraphId)
    requires pid < |a.paragraphs|
  {
    SentencesHashed(a.sentences, SidsOf(a.paragraphs, pid), a.paragraphs[pid].orderedSentences)
  }

  ghost predicate LiveParagraph(a: Arenas, pid: ParagraphId) {
    && pid < |a.paragraphs|
    && Aligned(a.paragraphs[pid].sentences, a.paragraphs[pid].orderedSentences)
    && (forall sid :: sid in SidsOf(a.paragraphs, pid) ==> LiveSentence(a, sid))
    && HashesAgree(a, pid)
    && NoDup(ParaWords(a, pid))
  }

  ghost predicate TokensNumbered(a: Arenas) {
    && a.nextTokenId == |a.tokens|
    && forall i :: 0 <= i < |a.tokens| ==> a.tokens[i].tokenId == i
  }

  ghost predicate GoodTables(a: Arenas) {
    && IndexedLive(a, a.paragraphsHt)
    && forall h, sid :: h in a.sentencesHt && sid in a.sentencesHt[h] ==> SentenceUnder(a, sid, h)
  }

  ghost predicate GoodArenas(a: Arenas) {
    TokensNumbered(a) && GoodTables(a)
  }

  /** The paragraphs `w` carry the hashes in `order`, position by position. */
  ghost predicate HashedBy(paragraphs: seq<Paragraph>, w: seq<ParagraphId>, order: seq<Hash>) {
    && |w| == |order|
    && forall i :: 0 <= i < |w| ==> w[i] < |paragraphs| && paragraphs[w[i]].hashValue == order[i]
  }

  /** A stored revision's index: live paragraphs under their own hashes, no word twice. */
  ghost predicate GoodIndex(a: Arenas, paragraphs: map<Hash, seq<ParagraphId>>, order: seq<Hash>) {
    var pids := Walk(paragraphs, order);
    && Aligned(paragraphs, order)
    && HashedBy(a.paragraphs, pids, order)
    && (forall pid :: pid in pids ==> LiveParagraph(a, pid))
    && NoDup(pids) && NoDup(WordsIn(a, pids))
  }

  /** `b` has everything `a` has, with the same words in the same places. */
  ghost predicate Extends(a: Arenas, b: Arenas) {
    && |a.tokens| <= |b.tokens|
    && |a.sentences| <= |b.sentences|
    && |a.paragraphs| <= |b.paragraphs|
    && (forall i :: 0 <= i < |a.tokens| ==> b.tokens[i].value == a.tokens[i].value)
    && (forall i :: 0 <= i < |a.sentences| ==>
          b.sentences[i].words == a.sentences[i].words && b.sentences[i].hashValue == a.sentences[i].hashValue)
    && (forall i :: 0 <= i < |a.paragraphs| ==>
          && b.paragraphs[i].sentences == a.paragraphs[i].sentences
          && b.paragraphs[i].orderedSentences == a.paragraphs[i].orderedSentences
          && b.paragraphs[i].hashValue == a.paragraphs[i].hashValue)
  }

  lemma ExtendsTrans(a: Arenas, b: Arenas, c: Arenas)
    requires Extends(a, b) && Extends(b, c)
    ensures Extends(a, c)
  {
  }

  lemma LiveSentenceExtends(a: Arenas, b: Arenas, sid: SentenceId)
    requires LiveSentence(a, sid) && Extends(a, b)
    ensures LiveSentence(b, sid) && WordsOf(a.sentences, sid) == WordsOf(b.sentences, sid)
  {
  }

  lemma SidsExtend(a: Arenas, b: Arenas, pid: ParagraphId)
    requires pid < |a.paragraphs| && Extends(a, b)
    ensures SidsOf(a.paragraphs, pid) == SidsOf(b.paragraphs, pid)
  {
  }

  lemma LiveParagraphExtends(a: Arenas, b: Arenas, pid: ParagraphId)
    requires LiveParagraph(a, pid) && Extends(a, b)
    ensures LiveParagraph(b, pid)
    ensures SidsOf(a.paragraphs, pid) == SidsOf(b.paragraphs, pid)
    ensures ParaWords(a, pid) == ParaWords(b, pid)
  {
    SidsExtend(a, b, pid);
    var sids := SidsOf(a.paragraphs, pid);
    FlatWordsFrame(a.sentences, b.sentences, sids);
  }

  lemma WordsInExtends(a: Arenas, b: Arenas, pids: seq<ParagraphId>)
    requires Extends(a, b)
    requires forall pid :: pid in pids ==> LiveParagraph(a, pid)
    ensures WordsIn(a, pids) == WordsIn(b, pids)
  {
    FlatSidsFrame(a.paragraphs, b.paragraphs, pids);
    var sids := FlatSids(a.paragraphs, pids);
    forall sid | sid in sids ensures WordsOf(a.sentences, sid) == WordsOf(b.sentences, sid) {
      FlatSidsFrom(a.paragraphs, pids, sid);
      var pid :| pid in pids && sid in SidsOf(a.paragraphs, pid);
      LiveParagraphExtends(a, b, pid);
    }
    FlatWordsFrame(a.sentences, b.sentences, sids);
  }

  lemma LiveExtends(a: Arenas, b: Arenas, pids: seq<ParagraphId>)
    requires Extends(a, b) && forall pid :: pid in pids ==> LiveParagraph(a, pid)
    ensures forall pid :: pid in pids ==> LiveParagraph(b, pid)
  {
    hide LiveParagraph, Extends;
    forall pid | pid in pids ensures LiveParagraph(b, pid) {
      LiveParagraphExtends(a, b, pid);
    }
  }

  lemma HashedByExtends(a: Arenas, b: Arenas, pids: seq<ParagraphId>, order: seq<Hash>)
    requires Extends(a, b) && HashedBy(a.paragraphs, pids, order)
    ensures HashedBy(b.paragraphs, pids, order)
  {
  }

  lemma GoodIndexExtends(a: Arenas, b: Arenas, paragraphs: map<Hash, seq<ParagraphId>>, order: seq<Hash>)
    requires GoodIndex(a, paragraphs, order) && Extends(a, b)
    ensures GoodIndex(b, paragraphs, order)
    ensures WordsIn(b, Walk(paragraphs, order)) == WordsIn(a, Walk(paragraphs, order))
  {
    hide LiveParagraph, Walk, Aligned, Extends, HashedBy, WordsIn, NoDup;
    var pids := Walk(paragraphs, order);
    LiveExtends(a, b, pids);
    WordsInExtends(a, b, pids);
    HashedByExtends(a, b, pids, order);
  }

  // ----- paragraph level -----

  /** `ids` counts up from `from`. */
  ghost predicate CountsUp(ids: seq<nat>, from: nat) {
    forall i :: 0 <= i < |ids| ==> ids[i] == from + i
  }

  /** What is matched is covered: matched nodes are live and all their words are matched. */
  ghost predicate Covers(a0: Arenas, m: MatchedSets) {
    && (forall pid :: pid in m.paragraphs ==> LiveParagraph(a0, pid) && Elems(ParaWords(a0, pid)) <= m.tokens)
    && (forall sid :: sid in m.sentences ==> LiveSentence(a0, sid) && Elems(WordsOf(a0.sentences, sid)) <= m.tokens)
  }

  lemma {:induction false} ScanParagraphsFacts(a0: Arenas, a: Arenas, cs: seq<ParagraphId>, m: MatchedSets,
      log: seq<ParagraphId>)
    requires Extends(a0, a) && Covers(a0, m) && Elems(log) == m.paragraphs
    requires forall pid :: pid in cs ==> LiveParagraph(a0, pid)
    ensures var r := ScanParagraphs(a, cs, m, log);
      && Covers(a0, r.matched)
      && Elems(r.log) == r.matched.paragraphs
      && m.paragraphs <= r.matched.paragraphs
      && match r.found {
           case None => r.matched.tokens == m.tokens && r.matched.sentences == m.sentences
           case Some(pid) =>
             && pid in cs && pid !in m.paragraphs && pid in r.matched.paragraphs
             && Elems(ParaWords(a0, pid)) !! m.tokens
             && r.matched.tokens == m.tokens + Elems(ParaWords(a0, pid))
         }
  {
    if cs != [] {
      var pid := cs[0];
      assert pid in cs && forall q :: q in cs[1..] ==> q in cs;
      LiveParagraphExtends(a0, a, pid);
      var words := Elems(ParaWords(a, pid));
      ElemsAppend(log, [pid]);
      if pid in m.paragraphs {
        ScanParagraphsFacts(a0, a, cs[1..], m, log);
      } else if words !! m.tokens {
        var sids := SidsOf(a0.paragraphs, pid);
        forall sid | sid in sids ensures Elems(WordsOf(a0.sentences, sid)) <= words {
          FlatWordsHas(a0.sentences, sids, sid);
        }
      } else if words <= m.tokens {
        ScanParagraphsFacts(a0, a, cs[1..], m.(paragraphs := m.paragraphs + {pid}), log + [pid]);
      } else {
        ScanParagraphsFacts(a0, a, cs[1..], m, log);
      }
    }
  }

  /** The cascade has only appended empty paragraphs, all of them listed as unmatched. */
  ghost predicate FreshParagraphs(a0: Arenas, a: Arenas, unmatchedCurr: seq<ParagraphId>) {
    var n := |a0.paragraphs|;
    && a == a0.(paragraphs := a.paragraphs) && a0.paragraphs <= a.paragraphs
    && (forall i :: n <= i < |a.paragraphs| ==>
          a.paragraphs[i].sentences == map[] && a.paragraphs[i].orderedSentences == [])
    && |unmatchedCurr| == |a.paragraphs| - n && CountsUp(unmatchedCurr, n)
  }

  ghost predicate CurrIndexed(a: Arenas, curr0: Revision, curr: Revision) {
    && curr == curr0.(paragraphs := curr.paragraphs, orderedParagraphs := curr.orderedParagraphs)
    && Aligned(curr.paragraphs, curr.orderedParagraphs)
    && HashedBy(a.paragraphs, Pids(curr), curr.orderedParagraphs)
  }

  /** Each paragraph is placed once: reused ones are matched, fresh ones are all placed. */
  ghost predicate PlacedOnce(n: nat, total: nat, w: seq<ParagraphId>, matched: set<ParagraphId>) {
    && NoDup(w)
    && (forall pid :: pid in w && pid < n ==> pid in matched)
    && (forall pid :: n <= pid < total ==> pid in w)
  }

  /** The matched words are those of the revision under construction, each once. */
  ghost predicate WordsClaimed(words: seq<TokenId>, matched: set<TokenId>) {
    matched == Elems(words) && NoDup(words)
  }

  ghost predicate ParaInv(a0: Arenas, curr0: Revision, s: ParaState) {
    && FreshParagraphs(a0, s.arenas, s.unmatchedCurr)
    && CurrIndexed(s.arenas, curr0, s.curr)
    && PlacedOnce(|a0.paragraphs|, |s.arenas.paragraphs|, Pids(s.curr), s.matched.paragraphs)
    && WordsClaimed(WordsIn(s.arenas, Pids(s.curr)), s.matched.tokens)
    && Covers(a0, s.matched)
    && Elems(s.matchedPrev) == s.matched.paragraphs
  }

  lemma FreshExtends(a0: Arenas, a: Arenas, unmatchedCurr: seq<ParagraphId>)
    requires FreshParagraphs(a0, a, unmatchedCurr)
    ensures Extends(a0, a) && a.paragraphsHt == a0.paragraphsHt && |a0.paragraphs| <= |a.paragraphs|
  {
  }

  lemma AddParagraphExtends(rev: Revision, hash: Hash, pid: ParagraphId)
    requires Aligned(rev.paragraphs, rev.orderedParagraphs)
    ensures var rev' := AddParagraph(rev, hash, pid);
      Aligned(rev'.paragraphs, rev'.orderedParagraphs) && Pids(rev') == Pids(rev) + [pid]
  {
    PushExtends(rev.paragraphs, rev.orderedParagraphs, hash, pid);
  }

  ghost predicate ParagraphUnder(a: Arenas, pid: ParagraphId, h: Hash) {
    LiveParagraph(a, pid) && a.paragraphs[pid].hashValue == h
  }

  ghost predicate IndexedLive(a: Arenas, m: map<Hash, seq<ParagraphId>>) {
    forall h, pid :: h in m && pid in m[h] ==> ParagraphUnder(a, pid, h)
  }

  lemma CandidatesLive(a: Arenas, m: map<Hash, seq<ParagraphId>>, h: Hash)
    requires IndexedLive(a, m)
    ensures forall pid :: pid in Bucket(m, h) ==> ParagraphUnder(a, pid, h)
  {
    hide LiveParagraph;
  }

  lemma HashedByPush(paragraphs: seq<Paragraph>, w: seq<ParagraphId>, order: seq<Hash>, pid: ParagraphId, hash: Hash)
    requires HashedBy(paragraphs, w, order) && pid < |paragraphs| && paragraphs[pid].hashValue == hash
    ensures HashedBy(paragraphs, w + [pid], order + [hash])
  {
  }

  lemma CurrIndexedPush(a: Arenas, curr0: Revision, curr: Revision, hash: Hash, pid: ParagraphId)
    requires CurrIndexed(a, curr0, curr)
    requires pid < |a.paragraphs| && a.paragraphs[pid].hashValue == hash
    ensures CurrIndexed(a, curr0, AddParagraph(curr, hash, pid))
    ensures Pids(AddParagraph(curr, hash, pid)) == Pids(curr) + [pid]
  {
    AddParagraphExtends(curr, hash, pid);
    hide Walk, Aligned, Pids, HashedBy;
    HashedByPush(a.paragraphs, Pids(curr), curr.orderedParagraphs, pid, hash);
  }

  lemma WordsClaimedPush(a: Arenas, w: seq<ParagraphId>, pid: ParagraphId, matched: set<TokenId>)
    requires WordsClaimed(WordsIn(a, w), matched)
    requires NoDup(ParaWords(a, pid)) && Elems(ParaWords(a, pid)) !! matched
    ensures WordsClaimed(WordsIn(a, w + [pid]), matched + Elems(ParaWords(a, pid)))
  {
    hide FlatSids, FlatWords, WordsIn, ParaWords;
    WordsInAppend(a, w, [pid]);
    WordsInSingle(a, pid);
    ElemsAppend(WordsIn(a, w), ParaWords(a, pid));
    NoDupAppend(WordsIn(a, w), ParaWords(a, pid));
  }

  lemma PlacedOncePush(n: nat, total: nat, w: seq<ParagraphId>, matched: set<ParagraphId>, pid: ParagraphId,
      matched': set<ParagraphId>)
    requires PlacedOnce(n, total, w, matched) && pid !in w
    requires matched <= matched' && (pid in matched' || pid == total >= n)
    ensures PlacedOnce(n, if pid == total then total + 1 else total, w + [pid], matched')
  {
    NoDupAppend(w, [pid]);
  }

  lemma ParaFound(a0: Arenas, curr0: Revision, s: ParaState, hash: Hash, pid: ParagraphId, m: MatchedSets,
      log: seq<ParagraphId>)
    requires ParaInv(a0, curr0, s)
    requires LiveParagraph(a0, pid) && a0.paragraphs[pid].hashValue == hash
    requires Covers(a0, m) && Elems(log) == m.paragraphs && s.matched.paragraphs <= m.paragraphs
    requires pid !in s.matched.paragraphs && pid in m.paragraphs
    requires Elems(ParaWords(a0, pid)) !! s.matched.tokens
    requires m.tokens == s.matched.tokens + Elems(ParaWords(a0, pid))
    ensures ParaInv(a0, curr0, s.(curr := AddParagraph(s.curr, hash, pid), matched := m, matchedPrev := log))
  {
    FreshExtends(a0, s.arenas, s.unmatchedCurr);
    LiveParagraphExtends(a0, s.arenas, pid);
    assert pid < |a0.paragraphs| && NoDup(ParaWords(s.arenas, pid));
    assert pid !in Pids(s.curr);
    assert s.arenas.paragraphs[pid].hashValue == hash;
    hide LiveParagraph, CurrIndexed, PlacedOnce, WordsClaimed, Covers, FreshParagraphs, Extends, NoDup, AddParagraph;
    CurrIndexedPush(s.arenas, curr0, s.curr, hash, pid);
    WordsClaimedPush(s.arenas, Pids(s.curr), pid, s.matched.tokens);
    PlacedOncePush(|a0.paragraphs|, |s.arenas.paragraphs|, Pids(s.curr), s.matched.paragraphs, pid, m.paragraphs);
  }

  lemma AllocParagraphFacts(a0: Arenas, curr0: Revision, s: ParaState, hash: Hash, text: string)
    requires ParaInv(a0, curr0, s)
    ensures var a, pid := AllocParagraph(s.arenas, hash, text), |s.arenas.paragraphs|;
      && FreshParagraphs(a0, a, s.unmatchedCurr + [pid])
      && CurrIndexed(a, curr0, s.curr)
      && |a0.paragraphs| <= pid && |a.paragraphs| == pid + 1 && a.paragraphs[pid].hashValue == hash
      && pid !in Pids(s.curr)
      && WordsIn(a, Pids(s.curr)) == WordsIn(s.arenas, Pids(s.curr))
      && ParaWords(a, pid) == [] && NoDup(ParaWords(a, pid))
  {
    var a, pid := AllocParagraph(s.arenas, hash, text), |s.arenas.paragraphs|;
    assert SidsOf(a.paragraphs, pid) == [];
    hide Covers, WordsClaimed, PlacedOnce, Walk, Aligned;
    forall q | q in Pids(s.curr) ensures SidsOf(s.arenas.paragraphs, q) == SidsOf(a.paragraphs, q) {}
    FlatSidsFrame(s.arenas.paragraphs, a.paragraphs, Pids(s.curr));
  }

  lemma ParaFresh(a0: Arenas, curr0: Revision, s: ParaState, hash: Hash, text: string, m: MatchedSets,
      log: seq<ParagraphId>)
    requires ParaInv(a0, curr0, s)
    requires Covers(a0, m) && Elems(log) == m.paragraphs && s.matched.paragraphs <= m.paragraphs
    requires m.tokens == s.matched.tokens
    ensures ParaInv(a0, curr0, ParaState(AllocParagraph(s.arenas, hash, text),
                                         AddParagraph(s.curr, hash, |s.arenas.paragraphs|), m,
                                         s.unmatchedCurr + [|s.arenas.paragraphs|], log))
  {
    hide CurrIndexed, PlacedOnce, WordsClaimed, Covers, FreshParagraphs, AddParagraph, AllocParagraph, NoDup,
      WordsIn, ParaWords, Pids;
    var w, pid := Pids(s.curr), |s.arenas.paragraphs|;
    var a := AllocParagraph(s.arenas, hash, text);
    AllocParagraphFacts(a0, curr0, s, hash, text);
    CurrIndexedPush(a, curr0, s.curr, hash, pid);
    WordsClaimedPush(a, w, pid, s.matched.tokens);
    assert s.matched.tokens + Elems(ParaWords(a, pid)) == m.tokens;
    PlacedOncePush(|a0.paragraphs|, pid, w, s.matched.paragraphs, pid, m.paragraphs);
  }

  lemma ParaStepKeeps(ops: TextOps, a0: Arenas, curr0: Revision, prev: map<Hash, seq<ParagraphId>>, text: string,
      s: ParaState)
    requires IndexedLive(a0, a0.paragraphsHt) && IndexedLive(a0, prev)
    requires ParaInv(a0, curr0, s)
    ensures ParaInv(a0, curr0, ParaStep(ops, prev, text, s))
  {
    var hash := ops.digest(text);
    FreshExtends(a0, s.arenas, s.unmatchedCurr);
    assert Covers(a0, s.matched) && Elems(s.matchedPrev) == s.matched.paragraphs;
    CandidatesLive(a0, prev, hash);
    CandidatesLive(a0, a0.paragraphsHt, hash);
    hide ParaInv, LiveParagraph, LiveSentence, ScanParagraphs, AddParagraph, AllocParagraph, IndexedLive;
    var cs := Bucket(prev, hash) + Bucket(a0.paragraphsHt, hash);
    ScanParagraphsFacts(a0, s.arenas, cs, s.matched, s.matchedPrev);
    var r := ScanParagraphs(s.arenas, cs, s.matched, s.matchedPrev);
    if r.found.Some? {
      ParaFound(a0, curr0, s, hash, r.found.value, r.matched, r.log);
    } else {
      ParaFresh(a0, curr0, s, hash, text, r.matched, r.log);
    }
  }

  lemma {:induction false} ParaLoopKeeps(ops: TextOps, a0: Arenas, curr0: Revision, prev: map<Hash, seq<ParagraphId>>,
      texts: seq<string>, s: ParaState)
    requires IndexedLive(a0, a0.paragraphsHt) && IndexedLive(a0, prev)
    requires ParaInv(a0, curr0, s)
    ensures ParaInv(a0, curr0, ParaLoop(ops, prev, texts, s))
    decreases |texts|
  {
    hide ParaInv, IndexedLive;
    if texts != [] {
      ParaStepKeeps(ops, a0, curr0, prev, texts[0], s);
      ParaLoopKeeps(ops, a0, curr0, prev, texts[1..], ParaStep(ops, prev, texts[0], s));
    }
  }
}
