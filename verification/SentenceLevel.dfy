/** How the sentence level of the cascade keeps the shape of the article. */
module SentenceLevel {
  import opened Wrappers
  import opened Seqs
  import opened Buckets
  import opened TextOps
  import opened Structures
  import opened CascadeSpec
  import opened CascadeShape

  // ----- candidates -----

  lemma BucketSentences(a: Arenas, pid: ParagraphId, h: Hash)
    requires LiveParagraph(a, pid)
    ensures forall sid :: sid in Bucket(a.paragraphs[pid].sentences, h) ==> SentenceUnder(a, sid, h)
  {
    var p := a.paragraphs[pid];
    forall sid | sid in Bucket(p.sentences, h) ensures SentenceUnder(a, sid, h) {
      var k :| 0 <= k < |p.sentences[h]| && p.sentences[h][k] == sid;
      assert Covered(p.sentences, p.orderedSentences);
      BucketEntryInWalk(p.sentences, p.orderedSentences, h, k);
      var i :| 0 <= i < |p.orderedSentences| && SidsOf(a.paragraphs, pid)[i] == sid && p.orderedSentences[i] == h;
    }
  }

  lemma {:induction false} PrevCandidatesUnder(a0: Arenas, a: Arenas, pids: seq<ParagraphId>, h: Hash)
    requires forall pid :: pid in pids ==> LiveParagraph(a0, pid)
    requires a0.paragraphs <= a.paragraphs
    ensures forall sid :: sid in PrevCandidates(a, pids, h) ==> SentenceUnder(a0, sid, h)
  {
    if pids != [] {
      assert pids[0] in pids && forall p :: p in pids[1..] ==> p in pids;
      BucketSentences(a0, pids[0], h);
      assert a.paragraphs[pids[0]] == a0.paragraphs[pids[0]];
      PrevCandidatesUnder(a0, a, pids[1..], h);
    }
  }

  lemma {:induction false} ScanSentencesFacts(a0: Arenas, a: Arenas, cs: seq<SentenceId>, m: MatchedSets,
      log: seq<SentenceId>)
    requires a0.sentences <= a.sentences
    requires Covers(a0, m) && Elems(log) <= m.sentences
    requires forall sid :: sid in cs ==> LiveSentence(a0, sid)
    ensures var r := ScanSentences(a, cs, m, log);
      && Covers(a0, r.matched)
      && r.matched.paragraphs == m.paragraphs
      && m.sentences <= r.matched.sentences
      && Elems(log) <= Elems(r.log) <= r.matched.sentences
      && match r.found {
           case None => r.matched.tokens == m.tokens
           case Some(sid) =>
             && sid in cs && sid in r.log
             && Elems(WordsOf(a0.sentences, sid)) !! m.tokens
             && r.matched.tokens == m.tokens + Elems(WordsOf(a0.sentences, sid))
         }
  {
    if cs != [] {
      var sid := cs[0];
      assert sid in cs && forall q :: q in cs[1..] ==> q in cs;
      assert WordsOf(a.sentences, sid) == WordsOf(a0.sentences, sid);
      var words := Elems(WordsOf(a.sentences, sid));
      ElemsAppend(log, [sid]);
      hide LiveSentence, LiveParagraph, ParaWords;
      if sid in m.sentences {
        ScanSentencesFacts(a0, a, cs[1..], m, log);
      } else if words !! m.tokens {
      } else if words <= m.tokens {
        ScanSentencesFacts(a0, a, cs[1..], m.(sentences := m.sentences + {sid}), log + [sid]);
      } else {
        ScanSentencesFacts(a0, a, cs[1..], m, log);
      }
    }
  }

  // ----- the invariant -----

  /** Only empty sentences have been appended, all of them listed as unmatched. */
  ghost predicate FreshSentences(a0: Arenas, start: seq<Paragraph>, a: Arenas, unmatchedCurr: seq<SentenceId>) {
    var n := |a0.sentences|;
    && a == a0.(sentences := a.sentences, paragraphs := a.paragraphs)
    && a0.sentences <= a.sentences && a0.paragraphs <= a.paragraphs
    && |a.paragraphs| == |start|
    && (forall i :: 0 <= i < |start| ==>
          a.paragraphs[i].hashValue == start[i].hashValue && a.paragraphs[i].value == start[i].value)
    && (forall i :: n <= i < |a.sentences| ==> a.sentences[i].words == [])
    && |unmatchedCurr| == |a.sentences| - n && CountsUp(unmatchedCurr, n)
  }

  /** A paragraph being filled: its sentences are old live ones or fresh ones. */
  ghost predicate Filling(a0: Arenas, a: Arenas, pid: ParagraphId) {
    && pid < |a.paragraphs|
    && Aligned(a.paragraphs[pid].sentences, a.paragraphs[pid].orderedSentences)
    && HashesAgree(a, pid)
    && forall sid :: sid in SidsOf(a.paragraphs, pid) ==> |a0.sentences| <= sid < |a.sentences| || LiveSentence(a0, sid)
  }

  ghost predicate FreshOnce(n: nat, total: nat, sids: seq<SentenceId>) {
    forall sid :: n <= sid < total ==> multiset(sids)[sid] == 1
  }

  ghost predicate TokensLogged(a0: Arenas, pids: seq<ParagraphId>, sids: seq<SentenceId>, tokens: set<TokenId>) {
    forall t :: t in tokens ==> t in WordsIn(a0, pids) || t in FlatWords(a0.sentences, sids)
  }

  /** The fixed surroundings of the sentence level: the arenas before the step, the
      paragraphs of the new revision, all paragraphs at the start, and the matched ones. */
  datatype Scene = Scene(a0: Arenas, w: seq<ParagraphId>, start: seq<Paragraph>, matchedParas: seq<ParagraphId>)

  ghost predicate SceneOk(sc: Scene) {
    && |sc.a0.paragraphs| <= |sc.start| && NoDup(sc.w)
    && (forall pid :: pid in sc.w ==> pid < |sc.start|)
    && (forall pid :: pid in sc.w && pid < |sc.a0.paragraphs| ==> LiveParagraph(sc.a0, pid))
    && (forall pid :: |sc.a0.paragraphs| <= pid < |sc.start| ==> pid in sc.w)
  }

  ghost predicate SentInv(sc: Scene, s: SentState) {
    && FreshSentences(sc.a0, sc.start, s.arenas, s.unmatchedCurr)
    && (forall pid :: |sc.a0.paragraphs| <= pid < |sc.start| ==> Filling(sc.a0, s.arenas, pid))
    && FreshOnce(|sc.a0.sentences|, |s.arenas.sentences|, FlatSids(s.arenas.paragraphs, sc.w))
    && WordsClaimed(WordsIn(s.arenas, sc.w), s.matched.tokens)
    && Covers(sc.a0, s.matched)
    && s.matched.paragraphs == Elems(sc.matchedParas)
    && Elems(s.matchedPrev) <= s.matched.sentences
    && TokensLogged(sc.a0, sc.matchedParas, s.matchedPrev, s.matched.tokens)
  }

  // ----- attaching a sentence to the paragraph being filled -----

  lemma AttachSids(a: Arenas, pid: ParagraphId, hash: Hash, sid: SentenceId)
    requires pid < |a.paragraphs| && Aligned(a.paragraphs[pid].sentences, a.paragraphs[pid].orderedSentences)
    ensures var b := AttachSentence(a, pid, hash, sid);
      && SidsOf(b.paragraphs, pid) == SidsOf(a.paragraphs, pid) + [sid]
      && Aligned(b.paragraphs[pid].sentences, b.paragraphs[pid].orderedSentences)
      && forall q :: q != pid ==> SidsOf(b.paragraphs, q) == SidsOf(a.paragraphs, q)
  {
    hide Walk, Push, Aligned;
    PushExtends(a.paragraphs[pid].sentences, a.paragraphs[pid].orderedSentences, hash, sid);
  }

  /** Where the attached sentence lands in the walk. */
  lemma AttachAround(a: Arenas, w: seq<ParagraphId>, pid: ParagraphId, hash: Hash, sid: SentenceId)
      returns (front: seq<SentenceId>, mid: seq<SentenceId>, back: seq<SentenceId>)
    requires pid < |a.paragraphs| && Aligned(a.paragraphs[pid].sentences, a.paragraphs[pid].orderedSentences)
    requires NoDup(w) && pid in w
    ensures FlatSids(a.paragraphs, w) == front + mid + back
    ensures FlatSids(AttachSentence(a, pid, hash, sid).paragraphs, w) == front + (mid + [sid]) + back
  {
    hide AttachSentence, Walk, SidsOf, FlatSids, Aligned, NoDup;
    var b := AttachSentence(a, pid, hash, sid);
    AttachSids(a, pid, hash, sid);
    var x, y := SplitAround(w, pid);
    OtherSids(a, b, x, pid);
    OtherSids(a, b, y, pid);
    SplitFlat(a, x, pid, y);
    SplitFlat(b, x, pid, y);
    front, mid, back := FlatSids(a.paragraphs, x), SidsOf(a.paragraphs, pid), FlatSids(a.paragraphs, y);
  }

  lemma OtherSids(a: Arenas, b: Arenas, x: seq<ParagraphId>, pid: ParagraphId)
    requires pid !in x && forall q :: q != pid ==> SidsOf(b.paragraphs, q) == SidsOf(a.paragraphs, q)
    ensures FlatSids(b.paragraphs, x) == FlatSids(a.paragraphs, x)
  {
    FlatSidsFrame(a.paragraphs, b.paragraphs, x);
  }

  lemma OneSentence(sentences: seq<Sentence>, sid: SentenceId)
    ensures FlatWords(sentences, [sid]) == WordsOf(sentences, sid)
  {
    assert [sid][1..] == [];
  }

  lemma InsertedSid(sentences: seq<Sentence>, front: seq<SentenceId>, mid: seq<SentenceId>, back: seq<SentenceId>,
      sid: SentenceId)
    ensures multiset(front + (mid + [sid]) + back) == multiset(front + mid + back) + multiset{sid}
    ensures multiset(FlatWords(sentences, front + (mid + [sid]) + back))
         == multiset(FlatWords(sentences, front + mid + back)) + multiset(WordsOf(sentences, sid))
  {
    hide FlatWords, WordsOf;
    OneSentence(sentences, sid);
    FlatWordsAppend(sentences, mid, [sid]);
    FlatWordsAppend(sentences, front, mid);
    FlatWordsAppend(sentences, front, mid + [sid]);
    FlatWordsAppend(sentences, front + mid, back);
    FlatWordsAppend(sentences, front + (mid + [sid]), back);
  }

  lemma AttachFlat(a: Arenas, w: seq<ParagraphId>, pid: ParagraphId, hash: Hash, sid: SentenceId)
    requires pid < |a.paragraphs| && Aligned(a.paragraphs[pid].sentences, a.paragraphs[pid].orderedSentences)
    requires NoDup(w) && pid in w
    ensures var b := AttachSentence(a, pid, hash, sid);
      && multiset(FlatSids(b.paragraphs, w)) == multiset(FlatSids(a.paragraphs, w)) + multiset{sid}
      && multiset(WordsIn(b, w)) == multiset(WordsIn(a, w)) + multiset(WordsOf(a.sentences, sid))
  {
    hide FlatSids, FlatWords, WordsOf, Aligned, NoDup;
    var front, mid, back := AttachAround(a, w, pid, hash, sid);
    InsertedSid(a.sentences, front, mid, back, sid);
  }

  lemma SplitFlat(a: Arenas, x: seq<ParagraphId>, pid: ParagraphId, y: seq<ParagraphId>)
    ensures FlatSids(a.paragraphs, x + [pid] + y)
         == FlatSids(a.paragraphs, x) + SidsOf(a.paragraphs, pid) + FlatSids(a.paragraphs, y)
    ensures WordsIn(a, x + [pid] + y)
         == FlatWords(a.sentences, FlatSids(a.paragraphs, x)) + FlatWords(a.sentences, SidsOf(a.paragraphs, pid))
            + FlatWords(a.sentences, FlatSids(a.paragraphs, y))
  {
    var mid := [pid];
    assert FlatSids(a.paragraphs, mid) == SidsOf(a.paragraphs, pid) by {
      assert mid[1..] == [];
    }
    FlatSidsAppend(a.paragraphs, x, mid);
    FlatSidsAppend(a.paragraphs, x + mid, y);
    var fx, fm, fy := FlatSids(a.paragraphs, x), SidsOf(a.paragraphs, pid), FlatSids(a.paragraphs, y);
    FlatWordsAppend(a.sentences, fx, fm);
    FlatWordsAppend(a.sentences, fx + fm, fy);
  }

  lemma ClaimMore(words: seq<TokenId>, matched: set<TokenId>, words': seq<TokenId>, extra: seq<TokenId>)
    requires WordsClaimed(words, matched)
    requires multiset(words') == multiset(words) + multiset(extra)
    requires NoDup(extra) && Elems(extra) !! matched
    ensures WordsClaimed(words', matched + Elems(extra))
  {
    NoDupCounts(words);
    NoDupCounts(extra);
    NoDupCounts(words');
    forall t ensures t in words' <==> t in words || t in extra {
      ElemsMultiset(words', t);
      ElemsMultiset(words, t);
      ElemsMultiset(extra, t);
    }
    forall t ensures multiset(words')[t] <= 1 {
      ElemsMultiset(words, t);
      ElemsMultiset(extra, t);
      assert t in words ==> t !in extra;
    }
  }

  lemma SidsBounded(sc: Scene, a: Arenas, unmatchedCurr: seq<SentenceId>)
    requires SceneOk(sc) && FreshSentences(sc.a0, sc.start, a, unmatchedCurr)
    requires forall pid :: |sc.a0.paragraphs| <= pid < |sc.start| ==> Filling(sc.a0, a, pid)
    ensures forall sid :: sid in FlatSids(a.paragraphs, sc.w) ==> sid < |a.sentences|
  {
    forall sid | sid in FlatSids(a.paragraphs, sc.w) ensures sid < |a.sentences| {
      FlatSidsFrom(a.paragraphs, sc.w, sid);
      var pid :| pid in sc.w && sid in SidsOf(a.paragraphs, pid);
      if pid < |sc.a0.paragraphs| {
        assert a.paragraphs[pid] == sc.a0.paragraphs[pid];
        assert LiveSentence(sc.a0, sid);
      } else {
        assert Filling(sc.a0, a, pid);
      }
    }
  }

  lemma SentencesHashedPush(sentences: seq<Sentence>, sids: seq<SentenceId>, order: seq<Hash>, sid: SentenceId,
      hash: Hash)
    requires SentencesHashed(sentences, sids, order) && sid < |sentences| && sentences[sid].hashValue == hash
    ensures SentencesHashed(sentences, sids + [sid], order + [hash])
  {
  }

  lemma FillingPush(a0: Arenas, a: Arenas, pid: ParagraphId, hash: Hash, sid: SentenceId)
    requires Filling(a0, a, pid)
    requires sid < |a.sentences| && a.sentences[sid].hashValue == hash
    requires |a0.sentences| <= sid || LiveSentence(a0, sid)
    ensures Filling(a0, AttachSentence(a, pid, hash, sid), pid)
  {
    hide Walk, LiveSentence, Push, SidsOf, SentencesHashed, Aligned;
    AttachSids(a, pid, hash, sid);
    var sids, order := SidsOf(a.paragraphs, pid), a.paragraphs[pid].orderedSentences;
    SentencesHashedPush(a.sentences, sids, order, sid, hash);
    forall s | s in sids + [sid] ensures |a0.sentences| <= s < |a.sentences| || LiveSentence(a0, s) {
      if s !in sids { assert s == sid; }
    }
  }

  lemma FillingFrame(a0: Arenas, a: Arenas, b: Arenas, pid: ParagraphId)
    requires Filling(a0, a, pid)
    requires pid < |b.paragraphs| && b.paragraphs[pid] == a.paragraphs[pid] && |a.sentences| <= |b.sentences|
    requires forall i :: 0 <= i < |a.sentences| ==> b.sentences[i].hashValue == a.sentences[i].hashValue
    ensures Filling(a0, b, pid)
  {
    assert SidsOf(a.paragraphs, pid) == SidsOf(b.paragraphs, pid);
  }

  lemma LogMore(a0: Arenas, pids: seq<ParagraphId>, log: seq<SentenceId>, tokens: set<TokenId>, log': seq<SentenceId>,
      sid: SentenceId)
    requires TokensLogged(a0, pids, log, tokens)
    requires Elems(log) <= Elems(log')
    ensures TokensLogged(a0, pids, log', tokens)
    ensures sid in log' ==> TokensLogged(a0, pids, log', tokens + Elems(WordsOf(a0.sentences, sid)))
  {
    forall t | t in tokens ensures t in WordsIn(a0, pids) || t in FlatWords(a0.sentences, log') {
      if t !in WordsIn(a0, pids) {
        FlatWordsFrom(a0.sentences, log, t);
        var s :| s in log && t in WordsOf(a0.sentences, s);
        assert s in Elems(log');
        FlatWordsHas(a0.sentences, log', s);
      }
    }
    if sid in log' {
      FlatWordsHas(a0.sentences, log', sid);
    }
  }

  /** Filling one paragraph leaves the others, and the fresh region, as they were. */
  lemma AttachKeepsFilling(sc: Scene, a: Arenas, unmatchedCurr: seq<SentenceId>, pid: ParagraphId, hash: Hash,
      sid: SentenceId)
    requires FreshSentences(sc.a0, sc.start, a, unmatchedCurr)
    requires forall q :: |sc.a0.paragraphs| <= q < |sc.start| ==> Filling(sc.a0, a, q)
    requires |sc.a0.paragraphs| <= pid < |sc.start|
    requires sid < |a.sentences| && a.sentences[sid].hashValue == hash
    requires |sc.a0.sentences| <= sid || LiveSentence(sc.a0, sid)
    ensures var b := AttachSentence(a, pid, hash, sid);
      && FreshSentences(sc.a0, sc.start, b, unmatchedCurr)
      && forall q :: |sc.a0.paragraphs| <= q < |sc.start| ==> Filling(sc.a0, b, q)
  {
    var b := AttachSentence(a, pid, hash, sid);
    assert b.sentences == a.sentences && |b.paragraphs| == |sc.start|;
    assert FreshSentences(sc.a0, sc.start, b, unmatchedCurr);
    FillingPush(sc.a0, a, pid, hash, sid);
    hide Filling, FreshSentences, LiveSentence;
    forall q | |sc.a0.paragraphs| <= q < |sc.start| ensures Filling(sc.a0, b, q) {
      if q != pid {
        assert Filling(sc.a0, a, q) && q < |a.paragraphs|;
        FillingFrame(sc.a0, a, b, q);
      }
    }
  }

  /** `b` is `s.arenas` with one sentence placed in the revision, carrying `words`. */
  ghost predicate Placement(sc: Scene, s: SentState, b: Arenas, unmatchedCurr: seq<SentenceId>, words: seq<TokenId>) {
    && FreshSentences(sc.a0, sc.start, b, unmatchedCurr)
    && (forall q :: |sc.a0.paragraphs| <= q < |sc.start| ==> Filling(sc.a0, b, q))
    && FreshOnce(|sc.a0.sentences|, |b.sentences|, FlatSids(b.paragraphs, sc.w))
    && multiset(WordsIn(b, sc.w)) == multiset(WordsIn(s.arenas, sc.w)) + multiset(words)
    && NoDup(words)
  }

  lemma FoundPlaced(sc: Scene, s: SentState, pid: ParagraphId, hash: Hash, sid: SentenceId)
    requires SceneOk(sc) && SentInv(sc, s)
    requires |sc.a0.paragraphs| <= pid < |sc.start|
    requires SentenceUnder(sc.a0, sid, hash)
    ensures Placement(sc, s, AttachSentence(s.arenas, pid, hash, sid), s.unmatchedCurr, WordsOf(sc.a0.sentences, sid))
  {
    var a := s.arenas;
    var words := WordsOf(sc.a0.sentences, sid);
    assert sid < |a.sentences| && WordsOf(a.sentences, sid) == words && a.sentences[sid].hashValue == hash;
    assert NoDup(words) && Filling(sc.a0, a, pid);
    assert Aligned(a.paragraphs[pid].sentences, a.paragraphs[pid].orderedSentences);
    AttachKeepsFilling(sc, a, s.unmatchedCurr, pid, hash, sid);
    AttachFlat(a, sc.w, pid, hash, sid);
    hide Filling, FreshSentences, Covers, LiveSentence, LiveParagraph, NoDup, WordsClaimed, TokensLogged, WordsIn,
      FlatSids;
  }

  lemma SentFound(sc: Scene, s: SentState, pid: ParagraphId, hash: Hash, sid: SentenceId, m: MatchedSets,
      log: seq<SentenceId>)
    requires SceneOk(sc) && SentInv(sc, s)
    requires |sc.a0.paragraphs| <= pid < |sc.start|
    requires SentenceUnder(sc.a0, sid, hash)
    requires Covers(sc.a0, m) && m.paragraphs == s.matched.paragraphs
    requires Elems(s.matchedPrev) <= Elems(log) <= m.sentences && sid in log
    requires Elems(WordsOf(sc.a0.sentences, sid)) !! s.matched.tokens
    requires m.tokens == s.matched.tokens + Elems(WordsOf(sc.a0.sentences, sid))
    ensures SentInv(sc, SentState(AttachSentence(s.arenas, pid, hash, sid), m, s.unmatchedCurr, log))
  {
    hide Filling, FreshSentences, FreshOnce, AttachSentence, Covers, LiveSentence, LiveParagraph, NoDup,
      WordsClaimed, TokensLogged, SceneOk, WordsIn, FlatSids;
    FoundPlaced(sc, s, pid, hash, sid);
    var words := WordsOf(sc.a0.sentences, sid);
    ClaimMore(WordsIn(s.arenas, sc.w), s.matched.tokens, WordsIn(AttachSentence(s.arenas, pid, hash, sid), sc.w),
        words);
    LogMore(sc.a0, sc.matchedParas, s.matchedPrev, s.matched.tokens, log, sid);
  }

  lemma AllocSentenceFresh(a0: Arenas, start: seq<Paragraph>, a: Arenas, unmatchedCurr: seq<SentenceId>, hash: Hash,
      value: string)
    requires FreshSentences(a0, start, a, unmatchedCurr)
    ensures FreshSentences(a0, start, AllocSentence(a, hash, value), unmatchedCurr + [|a.sentences|])
  {
  }

  lemma SentAlloc(sc: Scene, s: SentState, hash: Hash, value: string)
    requires SceneOk(sc) && SentInv(sc, s)
    ensures var b, sid := AllocSentence(s.arenas, hash, value), |s.arenas.sentences|;
      && FreshSentences(sc.a0, sc.start, b, s.unmatchedCurr + [sid])
      && (forall q :: |sc.a0.paragraphs| <= q < |sc.start| ==> Filling(sc.a0, b, q))
      && WordsIn(b, sc.w) == WordsIn(s.arenas, sc.w)
      && sid !in FlatSids(b.paragraphs, sc.w)
  {
    var a := s.arenas;
    var b, sid := AllocSentence(a, hash, value), |a.sentences|;
    AllocSentenceFresh(sc.a0, sc.start, a, s.unmatchedCurr, hash, value);
    SidsBounded(sc, a, s.unmatchedCurr);
    assert |a.paragraphs| == |sc.start|;
    hide Covers, WordsClaimed, TokensLogged, FreshOnce, SceneOk, FreshSentences, LiveSentence, Walk, SidsOf;
    forall x | x in FlatSids(a.paragraphs, sc.w) ensures WordsOf(a.sentences, x) == WordsOf(b.sentences, x) {}
    FlatWordsFrame(a.sentences, b.sentences, FlatSids(a.paragraphs, sc.w));
    hide Filling;
    forall q | |sc.a0.paragraphs| <= q < |sc.start| ensures Filling(sc.a0, b, q) {
      FillingFrame(sc.a0, a, b, q);
    }
  }

  lemma FreshPlaced(sc: Scene, s: SentState, pid: ParagraphId, hash: Hash, value: string)
    requires SceneOk(sc) && SentInv(sc, s)
    requires |sc.a0.paragraphs| <= pid < |sc.start|
    ensures var sid := |s.arenas.sentences|;
      Placement(sc, s, AttachSentence(AllocSentence(s.arenas, hash, value), pid, hash, sid), s.unmatchedCurr + [sid],
          [])
  {
    var sid := |s.arenas.sentences|;
    var a := AllocSentence(s.arenas, hash, value);
    SentAlloc(sc, s, hash, value);
    assert Filling(sc.a0, a, pid) && pid < |a.paragraphs|;
    assert Aligned(a.paragraphs[pid].sentences, a.paragraphs[pid].orderedSentences);
    assert sid < |a.sentences| && a.sentences[sid].hashValue == hash && WordsOf(a.sentences, sid) == [];
    assert |sc.a0.sentences| <= sid by { assert FreshSentences(sc.a0, sc.start, s.arenas, s.unmatchedCurr); }
    assert pid in sc.w && NoDup(sc.w);
    hide Filling, FreshSentences, Covers, LiveSentence, LiveParagraph, WordsClaimed, TokensLogged, SceneOk, Aligned,
      NoDup;
    AttachKeepsFilling(sc, a, s.unmatchedCurr + [sid], pid, hash, sid);
    AttachFlat(a, sc.w, pid, hash, sid);
    var b := AttachSentence(a, pid, hash, sid);
    assert |b.sentences| == sid + 1;
    assert FlatSids(a.paragraphs, sc.w) == FlatSids(s.arenas.paragraphs, sc.w);
    hide FreshOnce, AttachSentence, AllocSentence, WordsIn, FlatSids;
    FreshOnceMore(|sc.a0.sentences|, sid, FlatSids(s.arenas.paragraphs, sc.w), FlatSids(b.paragraphs, sc.w));
    NoDupNil();
  }

  lemma SentFresh(sc: Scene, s: SentState, pid: ParagraphId, hash: Hash, value: string, m: MatchedSets,
      log: seq<SentenceId>)
    requires SceneOk(sc) && SentInv(sc, s)
    requires |sc.a0.paragraphs| <= pid < |sc.start|
    requires Covers(sc.a0, m) && m.paragraphs == s.matched.paragraphs
    requires Elems(s.matchedPrev) <= Elems(log) <= m.sentences
    requires m.tokens == s.matched.tokens
    ensures var sid := |s.arenas.sentences|;
      SentInv(sc, SentState(AttachSentence(AllocSentence(s.arenas, hash, value), pid, hash, sid), m,
          s.unmatchedCurr + [sid], log))
  {
    hide Filling, FreshSentences, FreshOnce, AttachSentence, AllocSentence, Covers, LiveSentence, LiveParagraph,
      NoDup, WordsClaimed, TokensLogged, SceneOk, WordsIn, FlatSids;
    var sid := |s.arenas.sentences|;
    var b := AttachSentence(AllocSentence(s.arenas, hash, value), pid, hash, sid);
    FreshPlaced(sc, s, pid, hash, value);
    ClaimMore(WordsIn(s.arenas, sc.w), s.matched.tokens, WordsIn(b, sc.w), []);
    LogMore(sc.a0, sc.matchedParas, s.matchedPrev, s.matched.tokens, log, sid);
    assert s.matched.tokens + Elems<TokenId>([]) == m.tokens;
  }

  lemma NoDupNil()
    ensures NoDup<TokenId>([])
  {
  }

  lemma FreshOnceMore(n: nat, sid: SentenceId, sids: seq<SentenceId>, sids': seq<SentenceId>)
    requires FreshOnce(n, sid, sids) && sid !in sids
    requires multiset(sids') == multiset(sids) + multiset{sid}
    ensures FreshOnce(n, sid + 1, sids')
  {
    ElemsMultiset(sids, sid);
  }

  lemma SentStepKeeps(ops: TextOps, sc: Scene, unmatchedPrev: seq<ParagraphId>, pid: ParagraphId, tokens: seq<string>,
      s: SentState)
    requires SceneOk(sc) && GoodTables(sc.a0) && SentInv(sc, s)
    requires |sc.a0.paragraphs| <= pid < |sc.start|
    requires forall q :: q in unmatchedPrev ==> LiveParagraph(sc.a0, q)
    ensures SentInv(sc, SentStep(ops, unmatchedPrev, pid, tokens, s))
  {
    var normalized := Join(tokens);
    var hash := ops.digest(normalized);
    assert s.arenas.sentencesHt == sc.a0.sentencesHt && sc.a0.sentences <= s.arenas.sentences;
    assert Covers(sc.a0, s.matched) && Elems(s.matchedPrev) <= s.matched.sentences;
    PrevCandidatesUnder(sc.a0, s.arenas, unmatchedPrev, hash);
    var cs := PrevCandidates(s.arenas, unmatchedPrev, hash) + Bucket(s.arenas.sentencesHt, hash);
    assert forall sid :: sid in cs ==> SentenceUnder(sc.a0, sid, hash);
    hide SentInv, LiveParagraph, LiveSentence, ScanSentences, AttachSentence, AllocSentence, PrevCandidates, SceneOk,
      GoodTables;
    ScanSentencesFacts(sc.a0, s.arenas, cs, s.matched, s.matchedPrev);
    var r := ScanSentences(s.arenas, cs, s.matched, s.matchedPrev);
    if r.found.Some? {
      SentFound(sc, s, pid, hash, r.found.value, r.matched, r.log);
    } else {
      SentFresh(sc, s, pid, hash, normalized, r.matched, r.log);
    }
  }

  lemma {:induction false} SentLoopKeeps(ops: TextOps, sc: Scene, unmatchedPrev: seq<ParagraphId>, pid: ParagraphId,
      sentences: seq<seq<string>>, s: SentState)
    requires SceneOk(sc) && GoodTables(sc.a0) && SentInv(sc, s)
    requires |sc.a0.paragraphs| <= pid < |sc.start|
    requires forall q :: q in unmatchedPrev ==> LiveParagraph(sc.a0, q)
    ensures SentInv(sc, SentLoop(ops, unmatchedPrev, pid, sentences, s))
    decreases |sentences|
  {
    hide SentInv, SceneOk, GoodTables, LiveParagraph, SentStep;
    if sentences != [] {
      SentStepKeeps(ops, sc, unmatchedPrev, pid, sentences[0], s);
      SentLoopKeeps(ops, sc, unmatchedPrev, pid, sentences[1..], SentStep(ops, unmatchedPrev, pid, sentences[0], s));
    }
  }

  lemma {:induction false} SentLoopsKeep(ops: TextOps, sc: Scene, unmatchedPrev: seq<ParagraphId>,
      pids: seq<ParagraphId>, s: SentState)
    requires SceneOk(sc) && GoodTables(sc.a0) && SentInv(sc, s)
    requires forall pid :: pid in pids ==> |sc.a0.paragraphs| <= pid < |sc.start|
    requires forall q :: q in unmatchedPrev ==> LiveParagraph(sc.a0, q)
    ensures SentInv(sc, SentLoops(ops, unmatchedPrev, pids, s))
    decreases |pids|
  {
    hide SentInv, SceneOk, GoodTables, LiveParagraph, SentLoop;
    if pids != [] {
      assert pids[0] in pids && forall p :: p in pids[1..] ==> p in pids;
      var sentences := Sentences(ops, ValueOf(s.arenas, pids[0]));
      SentLoopKeeps(ops, sc, unmatchedPrev, pids[0], sentences, s);
      SentLoopsKeep(ops, sc, unmatchedPrev, pids[1..], SentLoop(ops, unmatchedPrev, pids[0], sentences, s));
    }
  }

  // ----- the tail loop -----

  /** The leftover previous sentences are exactly those not matched; each is listed twice. */
  lemma {:induction false} TailLoopFacts(sids: seq<SentenceId>, t: Tail)
    ensures var r := TailLoop(sids, t);
      && Elems(r.unmatchedPrev) == Elems(t.unmatchedPrev) + (Elems(sids) - t.matched)
      && Elems(r.matchedPrev) == Elems(t.matchedPrev) + (Elems(sids) - t.matched)
      && (NoDup(t.unmatchedPrev) && Elems(t.unmatchedPrev) <= t.matched ==> NoDup(r.unmatchedPrev))
    decreases |sids|
  {
    if sids != [] {
      assert Elems(sids) == {sids[0]} + Elems(sids[1..]);
      if sids[0] in t.matched {
        TailLoopFacts(sids[1..], t);
      } else {
        var t' := Tail(t.matched + {sids[0]}, t.unmatchedPrev + [sids[0]], t.matchedPrev + [sids[0]]);
        ElemsAppend(t.unmatchedPrev, [sids[0]]);
        ElemsAppend(t.matchedPrev, [sids[0]]);
        TailLoopFacts(sids[1..], t');
      }
    }
  }
}
