/** What one run of the cascade amounts to: the new revision is well formed, and every old
    token is accounted for as surviving, deleted or untouched. */
module Accounting {
  import opened Wrappers
  import opened Seqs
  import opened Buckets
  import opened TextOps
  import opened Structures
  import opened DifferSpec
  import opened CascadeSpec
  import opened CascadeShape
  import opened SentenceLevel
  import opened WordLevel

  /** Old sentences and paragraphs are exactly as they were; only new ones were appended. */
  ghost predicate Frozen(a: Arenas, b: Arenas) {
    && a.sentences <= b.sentences && a.paragraphs <= b.paragraphs
    && a.paragraphsHt == b.paragraphsHt && a.sentencesHt == b.sentencesHt
  }

  /** Paragraphs and sentences beyond those of `a0` are live in `a`. */
  ghost predicate NewNodesLive(a0: Arenas, a: Arenas) {
    && (forall pid :: |a0.paragraphs| <= pid < |a.paragraphs| ==> LiveParagraph(a, pid))
    && (forall sid :: |a0.sentences| <= sid < |a.sentences| ==> LiveSentence(a, sid))
  }

  /** For the old tokens: which are in the new revision, matched, and reached by the two
      walks of the recorder, against which were in the previous revision. */
  ghost predicate Accounted(n: nat, prev: seq<TokenId>, live: seq<TokenId>, matched: set<TokenId>,
                            outWalk: seq<TokenId>, inWalk: seq<TokenId>)
  {
    && (forall t :: t in matched ==> t < n)
    && (forall t :: t in outWalk ==> t < n)
    && (forall t :: t in live && t < n ==> t in matched && t in inWalk)
    && (forall t :: t in matched && t !in live ==> t in prev)
    && (forall t :: t in outWalk && t !in matched ==> t in prev)
    && (forall t :: t in prev && t !in matched ==> t in outWalk)
  }

  /** What the recorder walks is live, and no word is walked twice for deletion. */
  ghost predicate WalksOk(a0: Arenas, c: Cascade) {
    && (forall pid :: pid in c.matchedParagraphsPrev ==> LiveParagraph(a0, pid))
    && (forall pid :: pid in c.unmatchedParagraphsPrev ==> LiveParagraph(a0, pid))
    && (forall sid :: sid in c.matchedSentencesPrev ==> LiveSentence(a0, sid))
    && (forall sid :: sid in c.unmatchedSentencesPrev ==> LiveSentence(a0, sid))
    && NoDup(OutWalk(a0, c))
  }

  ghost predicate CascadeOk(a0: Arenas, prev: seq<ParagraphId>, curr0: Revision, c: Cascade) {
    var live := RevTokens(c.arenas, c.curr);
    && Frozen(a0, c.arenas) && TokensNumbered(c.arenas)
    && NewNodesLive(a0, c.arenas)
    && GoodIndex(c.arenas, c.curr.paragraphs, c.curr.orderedParagraphs)
    && c.curr == curr0.(paragraphs := c.curr.paragraphs, orderedParagraphs := c.curr.orderedParagraphs,
                        originalAdds := c.curr.originalAdds)
    && c.curr.originalAdds + |a0.tokens| == curr0.originalAdds + |c.arenas.tokens|
    && TokenRecords(a0.tokens, c.arenas.tokens, curr0.id, c.matchedTokens, live)
    && (forall t :: |a0.tokens| <= t < |c.arenas.tokens| ==> t in live)
    && Accounted(|a0.tokens|, WordsIn(a0, prev), live, c.matchedTokens, OutWalk(c.arenas, c), InWalk(c.arenas, c))
    && WalksOk(a0, c)
    && CountsUp(c.unmatchedParagraphsCurr, |a0.paragraphs|)
    && |c.arenas.paragraphs| == |a0.paragraphs| + |c.unmatchedParagraphsCurr|
    && CountsUp(c.unmatchedSentencesCurr, |a0.sentences|)
    && |c.arenas.sentences| == |a0.sentences| + |c.unmatchedSentencesCurr|
  }

  // ----- leftovers of the previous revision -----

  lemma {:induction false} UnmatchedElems(ids: seq<nat>, matched: set<nat>)
    ensures Elems(Unmatched(ids, matched)) == Elems(ids) - matched
  {
    if ids != [] {
      UnmatchedElems(ids[1..], matched);
      assert Elems(ids) == {ids[0]} + Elems(ids[1..]);
      ElemsAppend(if ids[0] in matched then [] else [ids[0]], Unmatched(ids[1..], matched));
    }
  }

  /** A previous word outside the matched ones lies in an unmatched paragraph. */
  lemma PrevWordsLeft(a0: Arenas, m: MatchedSets, prev: seq<ParagraphId>)
    requires Covers(a0, m)
    ensures var upp := Unmatched(prev, m.paragraphs);
      && (forall pid :: pid in upp ==> pid in prev)
      && (forall t :: t in WordsIn(a0, prev) && t !in m.tokens ==> t in WordsIn(a0, upp))
      && (forall t :: t in WordsIn(a0, upp) ==> t in WordsIn(a0, prev))
  {
    var upp := Unmatched(prev, m.paragraphs);
    UnmatchedElems(prev, m.paragraphs);
    forall pid | pid in upp ensures pid in prev {
      assert pid in Elems(upp);
    }
    forall t | t in WordsIn(a0, prev) && t !in m.tokens ensures t in WordsIn(a0, upp) {
      WordsInFrom(a0, prev, t);
      var pid :| pid in prev && t in ParaWords(a0, pid);
      assert t in Elems(ParaWords(a0, pid));
      assert pid !in m.paragraphs;
      assert pid in Elems(prev) - m.paragraphs;
      WordsInHas(a0, upp, pid);
    }
    forall t | t in WordsIn(a0, upp) ensures t in WordsIn(a0, prev) {
      WordsInFrom(a0, upp, t);
      var pid :| pid in upp && t in ParaWords(a0, pid);
      WordsInHas(a0, prev, pid);
    }
  }

  /** A leftover word of an unmatched paragraph lies in an unmatched sentence. */
  lemma LeftoverSentences(a0: Arenas, m: MatchedSets, upp: seq<ParagraphId>, left: seq<SentenceId>)
    requires Covers(a0, m)
    requires Elems(left) == Elems(FlatSids(a0.paragraphs, upp)) - m.sentences
    ensures forall t :: t in WordsIn(a0, upp) && t !in m.tokens ==> t in FlatWords(a0.sentences, left)
    ensures forall t :: t in FlatWords(a0.sentences, left) ==> t in WordsIn(a0, upp)
  {
    var sids := FlatSids(a0.paragraphs, upp);
    forall t | t in WordsIn(a0, upp) && t !in m.tokens ensures t in FlatWords(a0.sentences, left) {
      FlatWordsFrom(a0.sentences, sids, t);
      var sid :| sid in sids && t in WordsOf(a0.sentences, sid);
      assert t in Elems(WordsOf(a0.sentences, sid));
      assert sid in Elems(sids) - m.sentences;
      FlatWordsHas(a0.sentences, left, sid);
    }
    forall t | t in FlatWords(a0.sentences, left) ensures t in WordsIn(a0, upp) {
      FlatWordsFrom(a0.sentences, left, t);
      var sid :| sid in left && t in WordsOf(a0.sentences, sid);
      assert sid in Elems(left);
      FlatWordsHas(a0.sentences, sids, sid);
    }
  }

  lemma WordsBounded(a0: Arenas, pids: seq<ParagraphId>)
    requires forall pid :: pid in pids ==> LiveParagraph(a0, pid)
    ensures forall t :: t in WordsIn(a0, pids) ==> t < |a0.tokens|
  {
    forall t | t in WordsIn(a0, pids) ensures t < |a0.tokens| {
      WordsInFrom(a0, pids, t);
      var pid :| pid in pids && t in ParaWords(a0, pid);
      FlatWordsFrom(a0.sentences, SidsOf(a0.paragraphs, pid), t);
      var sid :| sid in SidsOf(a0.paragraphs, pid) && t in WordsOf(a0.sentences, sid);
      assert LiveSentence(a0, sid);
    }
  }

  lemma MatchedBounded(a0: Arenas, pids: seq<ParagraphId>, sids: seq<SentenceId>, tokens: set<TokenId>)
    requires TokensLogged(a0, pids, sids, tokens)
    requires forall pid :: pid in pids ==> LiveParagraph(a0, pid)
    requires forall sid :: sid in sids ==> LiveSentence(a0, sid)
    ensures forall t :: t in tokens ==> t < |a0.tokens|
  {
    WordsBounded(a0, pids);
    forall t | t in tokens ensures t < |a0.tokens| {
      if t !in WordsIn(a0, pids) {
        FlatWordsFrom(a0.sentences, sids, t);
        var sid :| sid in sids && t in WordsOf(a0.sentences, sid);
        assert LiveSentence(a0, sid);
      }
    }
  }

  // ----- the paragraph level's result -----

  lemma StartOk(a0: Arenas, curr0: Revision)
    requires curr0.paragraphs == map[] && curr0.orderedParagraphs == []
    ensures ParaInv(a0, curr0, ParaState(a0, curr0, MatchedSets({}, {}, {}), [], []))
  {
  }

  /** After the paragraph level: matched words are words of matched paragraphs. */
  lemma ParaResult(ops: TextOps, a0: Arenas, text: string, prev: map<Hash, seq<ParagraphId>>, prevOrder: seq<Hash>,
      curr0: Revision)
    requires GoodArenas(a0) && GoodIndex(a0, prev, prevOrder)
    requires curr0.paragraphs == map[] && curr0.orderedParagraphs == []
    ensures ParaInv(a0, curr0, AnalyseParagraphs(ops, a0, text, prev, curr0))
    ensures var p := AnalyseParagraphs(ops, a0, text, prev, curr0);
      TokensLogged(a0, p.matchedPrev, [], p.matched.tokens)
  {
    StartOk(a0, curr0);
    IndexLive(a0, prev, prevOrder);
    ParaLoopKeeps(ops, a0, curr0, prev, Paragraphs(ops, text), ParaState(a0, curr0, MatchedSets({}, {}, {}), [], []));
    var p := AnalyseParagraphs(ops, a0, text, prev, curr0);
    ParaLogged(a0, curr0, p);
  }

  lemma IndexLive(a0: Arenas, prev: map<Hash, seq<ParagraphId>>, prevOrder: seq<Hash>)
    requires GoodIndex(a0, prev, prevOrder)
    ensures IndexedLive(a0, prev)
  {
    var pids := Walk(prev, prevOrder);
    hide LiveParagraph, Walk, WordsIn, Aligned;
    forall h, pid | h in prev && pid in prev[h] ensures ParagraphUnder(a0, pid, h) {
      EntryPosition(prev, prevOrder, h, pid);
      var i :| 0 <= i < |prevOrder| && pids[i] == pid && prevOrder[i] == h;
      assert pids[i] in pids;
    }
  }

  lemma ParaLogged(a0: Arenas, curr0: Revision, p: ParaState)
    requires ParaInv(a0, curr0, p)
    ensures TokensLogged(a0, p.matchedPrev, [], p.matched.tokens)
  {
    var w := Pids(p.curr);
    assert WordsClaimed(WordsIn(p.arenas, w), p.matched.tokens);
    assert PlacedOnce(|a0.paragraphs|, |p.arenas.paragraphs|, w, p.matched.paragraphs);
    assert FreshParagraphs(a0, p.arenas, p.unmatchedCurr) && Elems(p.matchedPrev) == p.matched.paragraphs;
    hide ParaInv, CurrIndexed, Covers, NoDup, Walk, Pids;
    forall t | t in p.matched.tokens ensures t in WordsIn(a0, p.matchedPrev) {
      assert t in WordsIn(p.arenas, w);
      WordsInFrom(p.arenas, w, t);
      var pid :| pid in w && t in ParaWords(p.arenas, pid);
      FreshEmpty(a0, p.arenas, p.unmatchedCurr, pid);
      assert pid in Elems(p.matchedPrev);
      WordsInHas(a0, p.matchedPrev, pid);
      assert ParaWords(a0, pid) == ParaWords(p.arenas, pid);
    }
  }

  lemma FreshEmpty(a0: Arenas, a: Arenas, unmatchedCurr: seq<ParagraphId>, pid: ParagraphId)
    requires FreshParagraphs(a0, a, unmatchedCurr) && pid < |a.paragraphs|
    ensures |a0.paragraphs| <= pid ==> ParaWords(a, pid) == []
  {
  }

  // ----- the sentence level's result -----

  function SceneOf(a0: Arenas, p: ParaState): Scene {
    Scene(a0, Pids(p.curr), p.arenas.paragraphs, p.matchedPrev)
  }

  lemma FillingStart(a0: Arenas, a: Arenas, unmatchedCurr: seq<ParagraphId>, pid: ParagraphId)
    requires FreshParagraphs(a0, a, unmatchedCurr) && |a0.paragraphs| <= pid < |a.paragraphs|
    ensures Filling(a0, a, pid)
  {
    assert SidsOf(a.paragraphs, pid) == [];
  }

  lemma SceneFits(a0: Arenas, sc: Scene, total: nat, matched: set<ParagraphId>)
    requires sc.a0 == a0 && |a0.paragraphs| <= |sc.start| == total
    requires PlacedOnce(|a0.paragraphs|, total, sc.w, matched)
    requires forall pid :: pid in matched ==> LiveParagraph(a0, pid)
    requires forall i :: 0 <= i < |sc.w| ==> sc.w[i] < total
    ensures SceneOk(sc)
  {
    hide LiveParagraph;
  }

  lemma SceneStart(a0: Arenas, curr0: Revision, p: ParaState)
    requires ParaInv(a0, curr0, p)
    ensures SceneOk(SceneOf(a0, p))
  {
    hide LiveParagraph, LiveSentence, Pids, Aligned, CountsUp, WordsClaimed, PlacedOnce, SceneOk;
    ParaHashed(a0, curr0, p);
    SceneFits(a0, SceneOf(a0, p), |p.arenas.paragraphs|, p.matched.paragraphs);
  }

  lemma SentStart(a0: Arenas, curr0: Revision, p: ParaState)
    requires ParaInv(a0, curr0, p) && TokensLogged(a0, p.matchedPrev, [], p.matched.tokens)
    ensures SceneOk(SceneOf(a0, p))
    ensures SentInv(SceneOf(a0, p), SentState(p.arenas, p.matched, [], []))
  {
    var sc := SceneOf(a0, p);
    SceneStart(a0, curr0, p);
    assert FreshSentences(a0, sc.start, p.arenas, []) by {
      hide LiveParagraph, LiveSentence, CurrIndexed, PlacedOnce, SceneOk, TokensLogged, WordsClaimed, Covers;
    }
    hide Filling, LiveParagraph, LiveSentence, CurrIndexed, PlacedOnce, FreshParagraphs, FreshSentences, SceneOk,
      TokensLogged, WordsClaimed;
    forall pid | |a0.paragraphs| <= pid < |sc.start| ensures Filling(a0, p.arenas, pid) {
      FillingStart(a0, p.arenas, p.unmatchedCurr, pid);
    }
    assert p.arenas.sentences == a0.sentences by { FreshParasSentences(a0, p.arenas, p.unmatchedCurr); }
    hide FlatSids, Covers;
  }

  lemma FreshParasSentences(a0: Arenas, a: Arenas, unmatchedCurr: seq<ParagraphId>)
    requires FreshParagraphs(a0, a, unmatchedCurr)
    ensures a.sentences == a0.sentences && a.tokens == a0.tokens
  {
  }

  lemma ParaHashed(a0: Arenas, curr0: Revision, p: ParaState)
    requires ParaInv(a0, curr0, p)
    ensures HashedBy(p.arenas.paragraphs, Pids(p.curr), p.curr.orderedParagraphs)
    ensures Aligned(p.curr.paragraphs, p.curr.orderedParagraphs)
    ensures p.curr == curr0.(paragraphs := p.curr.paragraphs, orderedParagraphs := p.curr.orderedParagraphs)
  {
    hide HashedBy, Aligned;
  }

  // ----- the token level's result -----

  /** The state when the token level has run (or had nothing to do). */
  datatype Stage = Stage(a0: Arenas, curr0: Revision, p: ParaState, s: SentState, ids: seq<TokenId>, w: WordState)

  function WordSceneOf(st: Stage): WordScene {
    WordScene(st.s.arenas, Pids(st.p.curr), |st.a0.sentences|, st.curr0.id, st.s.matched.tokens, st.ids)
  }

  ghost predicate StageOk(st: Stage) {
    && TokensNumbered(st.a0)
    && ParaInv(st.a0, st.curr0, st.p)
    && SceneOk(SceneOf(st.a0, st.p)) && SentInv(SceneOf(st.a0, st.p), st.s)
    && WordInv(WordSceneOf(st), st.w)
    && (forall sid :: |st.a0.sentences| <= sid < |st.w.arenas.sentences| ==> WordsOf(st.w.arenas.sentences, sid) != [])
  }

  lemma StageExtends(st: Stage)
    requires StageOk(st)
    ensures Frozen(st.a0, st.w.arenas) && Extends(st.a0, st.w.arenas)
    ensures st.w.arenas.paragraphs == st.s.arenas.paragraphs
    ensures st.s.arenas.tokens == st.a0.tokens
    ensures |st.w.arenas.sentences| == |st.s.arenas.sentences|
  {
    hide LiveSentence, LiveParagraph, Filling, WordsClaimed, Placed, Covers, TokensLogged, SceneOk, CurrIndexed,
      PlacedOnce;
    var b := st.w.arenas;
    assert FreshSentences(st.a0, st.p.arenas.paragraphs, st.s.arenas, st.s.unmatchedCurr);
    assert SentencesGrow(|st.a0.sentences|, st.s.arenas.sentences, b.sentences);
    assert TokenRecords(st.s.arenas.tokens, b.tokens, st.curr0.id, st.w.matched, WordsIn(b, Pids(st.p.curr)));
    assert b.paragraphs == st.s.arenas.paragraphs;
    assert Frozen(st.a0, b) by { hide TokenRecords; }
    assert forall i :: 0 <= i < |st.a0.tokens| ==> b.tokens[i].value == st.a0.tokens[i].value;
  }

  lemma NoDupPart<T>(x: seq<T>, y: seq<T>, z: seq<T>)
    requires NoDup(x + y + z)
    ensures NoDup(y)
  {
    var s := x + y + z;
    forall i, j | 0 <= i < j < |y| ensures y[i] != y[j] {
      assert s[|x| + i] == y[i] && s[|x| + j] == y[j];
    }
  }

  lemma SentencePart(a: Arenas, w: seq<ParagraphId>, sid: SentenceId)
    requires NoDup(WordsIn(a, w)) && multiset(FlatSids(a.paragraphs, w))[sid] == 1
    ensures NoDup(WordsOf(a.sentences, sid))
    ensures forall t :: t in WordsOf(a.sentences, sid) ==> t in WordsIn(a, w)
  {
    hide FlatSids, FlatWords, WordsOf, NoDup;
    var x, y := OnceSplits(FlatSids(a.paragraphs, w), sid);
    SplitWords(a.sentences, x, sid, y);
    NoDupPart(FlatWords(a.sentences, x), WordsOf(a.sentences, sid), FlatWords(a.sentences, y));
  }

  lemma ParagraphPart(a: Arenas, w: seq<ParagraphId>, pid: ParagraphId)
    requires NoDup(WordsIn(a, w)) && pid in w
    ensures NoDup(ParaWords(a, pid))
  {
    hide FlatSids, FlatWords, NoDup;
    var x, y := SplitAround(w, pid);
    SplitFlat(a, x, pid, y);
    NoDupPart(FlatWords(a.sentences, FlatSids(a.paragraphs, x)), ParaWords(a, pid),
        FlatWords(a.sentences, FlatSids(a.paragraphs, y)));
  }

  lemma StageSentenceLive(st: Stage, sid: SentenceId)
    requires StageOk(st) && |st.a0.sentences| <= sid < |st.w.arenas.sentences|
    ensures LiveSentence(st.w.arenas, sid)
  {
    StageExtends(st);
    var a, w := st.w.arenas, Pids(st.p.curr);
    assert multiset(FlatSids(a.paragraphs, w))[sid] == 1 by {
      assert FreshOnce(|st.a0.sentences|, |st.s.arenas.sentences|, FlatSids(a.paragraphs, w));
    }
    assert Placed(|st.a0.tokens|, |a.tokens|, WordsIn(a, w), st.s.matched.tokens, st.w.matched, st.ids);
    hide WordsIn, FlatSids, SentInv, WordInv, ParaInv, FreshOnce, Pids;
    SentencePart(a, w, sid);
  }

  /** What the stages know of a paragraph of the new revision. */
  lemma StageParagraphFacts(st: Stage, pid: ParagraphId)
    requires StageOk(st) && |st.a0.paragraphs| <= pid < |st.w.arenas.paragraphs|
    ensures var a, b := st.w.arenas, st.s.arenas;
      && a.paragraphs == b.paragraphs && Filling(st.a0, b, pid) && pid in Pids(st.p.curr)
      && NoDup(WordsIn(a, Pids(st.p.curr)))
      && SentencesGrow(|st.a0.sentences|, b.sentences, a.sentences)
  {
    hide Filling, SentencesGrow, LiveSentence, LiveParagraph, WordsIn, Pids, FreshOnce, TokensLogged, Covers,
      CurrIndexed, PlacedOnce;
    assert Placed(|st.a0.tokens|, |st.w.arenas.tokens|, WordsIn(st.w.arenas, Pids(st.p.curr)), st.s.matched.tokens,
        st.w.matched, st.ids);
  }

  lemma GrownHashes(n: nat, old_: seq<Sentence>, now: seq<Sentence>, sids: seq<SentenceId>, order: seq<Hash>)
    requires SentencesGrow(n, old_, now) && SentencesHashed(old_, sids, order)
    ensures SentencesHashed(now, sids, order)
  {
  }

  lemma StageParagraphLive(st: Stage, pid: ParagraphId)
    requires StageOk(st) && |st.a0.paragraphs| <= pid < |st.w.arenas.paragraphs|
    ensures LiveParagraph(st.w.arenas, pid)
  {
    hide StageOk, LiveSentence, SidsOf, Extends, NoDup, ParaWords, WordsIn, SentencesHashed, SentencesGrow, Pids,
      Aligned;
    StageExtends(st);
    StageParagraphFacts(st, pid);
    var a, b := st.w.arenas, st.s.arenas;
    ParagraphPart(a, Pids(st.p.curr), pid);
    var sids := SidsOf(a.paragraphs, pid);
    GrownHashes(|st.a0.sentences|, b.sentences, a.sentences, sids, a.paragraphs[pid].orderedSentences);
    forall sid | sid in sids ensures LiveSentence(a, sid) {
      if LiveSentence(st.a0, sid) {
        LiveSentenceExtends(st.a0, a, sid);
      } else {
        SentencesBounded(|st.a0.sentences|, b.sentences, a.sentences);
        StageSentenceLive(st, sid);
      }
    }
  }

  lemma SentencesBounded(n: nat, old_: seq<Sentence>, now: seq<Sentence>)
    requires SentencesGrow(n, old_, now)
    ensures |now| == |old_|
  {
  }

  lemma StageIndex(st: Stage)
    requires StageOk(st)
    ensures NewNodesLive(st.a0, st.w.arenas)
    ensures GoodIndex(st.w.arenas, st.p.curr.paragraphs, st.p.curr.orderedParagraphs)
  {
    var a, w := st.w.arenas, Pids(st.p.curr);
    StageExtends(st);
    forall pid | |st.a0.paragraphs| <= pid < |a.paragraphs| ensures LiveParagraph(a, pid) {
      StageParagraphLive(st, pid);
    }
    forall sid | |st.a0.sentences| <= sid < |a.sentences| ensures LiveSentence(a, sid) {
      StageSentenceLive(st, sid);
    }
    ParaHashed(st.a0, st.curr0, st.p);
    assert HashedBy(a.paragraphs, w, st.p.curr.orderedParagraphs) by {
      assert FreshSentences(st.a0, st.p.arenas.paragraphs, st.s.arenas, st.s.unmatchedCurr);
      hide WordInv, ParaInv, SentInv, LiveParagraph, LiveSentence, Extends, Frozen;
    }
    assert NoDup(WordsIn(a, w)) by {
      assert Placed(|st.a0.tokens|, |a.tokens|, WordsIn(a, w), st.s.matched.tokens, st.w.matched, st.ids);
    }
    assert SceneOk(SceneOf(st.a0, st.p)) && |a.paragraphs| == |st.p.arenas.paragraphs|;
    hide WordInv, ParaInv, SentInv, LiveParagraph, LiveSentence, Extends, Frozen, WordsIn, HashedBy, Walk, Aligned,
      NoDup;
    forall pid | pid in w ensures LiveParagraph(a, pid) {
      if pid < |st.a0.paragraphs| {
        LiveParagraphExtends(st.a0, a, pid);
      }
    }
  }

  function TailOf(st: Stage, upp: seq<ParagraphId>): Tail {
    TailLoop(FlatSids(st.s.arenas.paragraphs, upp), Tail(st.s.matched.sentences, [], st.s.matchedPrev))
  }

  function UnmatchedPrevOf(st: Stage, prev: seq<ParagraphId>): seq<ParagraphId> {
    Unmatched(prev, st.p.matched.paragraphs)
  }

  lemma FlatWordsExtend(a: Arenas, b: Arenas, sids: seq<SentenceId>)
    requires Extends(a, b) && forall sid :: sid in sids ==> sid < |a.sentences|
    ensures FlatWords(a.sentences, sids) == FlatWords(b.sentences, sids)
  {
    FlatWordsFrame(a.sentences, b.sentences, sids);
  }

  /** The leftover sentences are live, and they are among those listed as matched. */
  lemma TailFacts(st: Stage, prev: seq<ParagraphId>)
    requires SentInv(SceneOf(st.a0, st.p), st.s)
    requires forall pid :: pid in prev ==> LiveParagraph(st.a0, pid)
    ensures var upp := UnmatchedPrevOf(st, prev); var t := TailOf(st, upp);
      && (forall pid :: pid in upp ==> LiveParagraph(st.a0, pid))
      && Elems(t.unmatchedPrev) == Elems(FlatSids(st.a0.paragraphs, upp)) - st.s.matched.sentences
      && Elems(t.matchedPrev) == Elems(st.s.matchedPrev) + Elems(t.unmatchedPrev)
      && (forall sid :: sid in t.matchedPrev ==> LiveSentence(st.a0, sid))
      && NoDup(t.unmatchedPrev)
  {
    hide SentInv, LiveSentence, LiveParagraph, TailLoop, FlatSids, NoDup;
    var upp := UnmatchedPrevOf(st, prev);
    var t := TailOf(st, upp);
    UnmatchedElems(prev, st.p.matched.paragraphs);
    forall pid | pid in upp ensures pid in prev { assert pid in Elems(upp); }
    SentParts(SceneOf(st.a0, st.p), st.s);
    var sids := FlatSids(st.s.arenas.paragraphs, upp);
    FlatSidsKept(st, upp);
    NoDupNil();
    TailLoopFacts(sids, Tail(st.s.matched.sentences, [], st.s.matchedPrev));
    TailLive(st, upp, t.matchedPrev);
  }

  lemma SentParts(sc: Scene, s: SentState)
    requires SentInv(sc, s)
    ensures sc.a0.paragraphs <= s.arenas.paragraphs
    ensures Covers(sc.a0, s.matched) && Elems(s.matchedPrev) <= s.matched.sentences
  {
  }

  lemma FlatSidsKept(st: Stage, pids: seq<ParagraphId>)
    requires st.a0.paragraphs <= st.s.arenas.paragraphs
    requires forall pid :: pid in pids ==> LiveParagraph(st.a0, pid)
    ensures FlatSids(st.s.arenas.paragraphs, pids) == FlatSids(st.a0.paragraphs, pids)
  {
    FlatSidsFrame(st.a0.paragraphs, st.s.arenas.paragraphs, pids);
  }

  lemma TailLive(st: Stage, upp: seq<ParagraphId>, sids: seq<SentenceId>)
    requires Covers(st.a0, st.s.matched) && Elems(st.s.matchedPrev) <= st.s.matched.sentences
    requires forall pid :: pid in upp ==> LiveParagraph(st.a0, pid)
    requires Elems(sids) <= Elems(st.s.matchedPrev) + Elems(FlatSids(st.a0.paragraphs, upp))
    ensures forall sid :: sid in sids ==> LiveSentence(st.a0, sid)
  {
    hide Covers, LiveSentence, FlatSids, Aligned, NoDup, HashesAgree;
    forall sid | sid in sids ensures LiveSentence(st.a0, sid) {
      assert sid in Elems(sids);
      if sid in Elems(st.s.matchedPrev) {
        CoversLive(st.a0, st.s.matched, sid);
      } else {
        FlatSidsFrom(st.a0.paragraphs, upp, sid);
        var pid :| pid in upp && sid in SidsOf(st.a0.paragraphs, pid);
        assert LiveParagraph(st.a0, pid);
      }
    }
  }

  lemma CoversLive(a0: Arenas, m: MatchedSets, sid: SentenceId)
    requires Covers(a0, m) && sid in m.sentences
    ensures LiveSentence(a0, sid)
  {
  }

  ghost predicate CascadeFits(st: Stage, prev: seq<ParagraphId>, c: Cascade) {
    var upp := UnmatchedPrevOf(st, prev);
    && c.arenas == st.w.arenas && c.matchedTokens == st.w.matched
    && c.matchedParagraphsPrev == st.p.matchedPrev && c.unmatchedParagraphsPrev == upp
    && c.matchedSentencesPrev == TailOf(st, upp).matchedPrev
    && c.unmatchedSentencesPrev == TailOf(st, upp).unmatchedPrev
  }

  /** The recorder's two walks, read in the arenas from before the step. */
  lemma WalksAtStart(st: Stage, prev: seq<ParagraphId>, c: Cascade)
    requires StageOk(st) && CascadeFits(st, prev, c)
    requires forall pid :: pid in prev ==> LiveParagraph(st.a0, pid)
    ensures OutWalk(c.arenas, c) == OutWalk(st.a0, c) && InWalk(c.arenas, c) == InWalk(st.a0, c)
    ensures forall pid :: pid in c.matchedParagraphsPrev ==> LiveParagraph(st.a0, pid)
    ensures forall sid :: sid in c.matchedSentencesPrev ==> LiveSentence(st.a0, sid)
  {
    StageExtends(st);
    TailFacts(st, prev);
    assert Covers(st.a0, st.p.matched) && Elems(st.p.matchedPrev) == st.p.matched.paragraphs;
    hide StageOk, Extends, WordsIn, FlatWords, TailOf, Frozen;
    forall pid | pid in c.matchedParagraphsPrev ensures LiveParagraph(st.a0, pid) {
      assert pid in Elems(st.p.matchedPrev);
    }
    hide Covers, LiveParagraph;
    WordsInExtends(st.a0, c.arenas, c.matchedParagraphsPrev);
    WordsInExtends(st.a0, c.arenas, c.unmatchedParagraphsPrev);
    FlatWordsExtend(st.a0, c.arenas, c.matchedSentencesPrev);
    forall sid | sid in c.unmatchedSentencesPrev ensures sid < |st.a0.sentences| {
      assert sid in Elems(c.unmatchedSentencesPrev);
      assert sid in Elems(c.matchedSentencesPrev);
    }
    FlatWordsExtend(st.a0, c.arenas, c.unmatchedSentencesPrev);
  }

  /** The outbound walk reaches the previous words that are not matched, and no others. */
  lemma StageOutWalk(st: Stage, prev: seq<ParagraphId>, c: Cascade)
    requires StageOk(st) && CascadeFits(st, prev, c)
    requires forall pid :: pid in prev ==> LiveParagraph(st.a0, pid)
    ensures forall t :: t in OutWalk(st.a0, c) ==> t in WordsIn(st.a0, prev)
    ensures forall t :: t in WordsIn(st.a0, prev) && t !in st.s.matched.tokens ==> t in OutWalk(st.a0, c)
    ensures forall t :: t in FlatWords(st.a0.sentences, c.unmatchedSentencesPrev) ==> t in WordsIn(st.a0, prev)
  {
    TailFacts(st, prev);
    assert Covers(st.a0, st.s.matched) && st.s.matched.paragraphs == st.p.matched.paragraphs;
    hide StageOk, Covers, WordsIn, TailOf, Unmatched;
    PrevWordsLeft(st.a0, st.s.matched, prev);
    LeftoverSentences(st.a0, st.s.matched, c.unmatchedParagraphsPrev, c.unmatchedSentencesPrev);
    if c.unmatchedSentencesPrev == [] {
      assert FlatWords(st.a0.sentences, c.unmatchedSentencesPrev) == [];
    }
  }

  /** Every old word of the new revision is matched and reached by the inbound walk. */
  lemma StageInWalk(st: Stage, prev: seq<ParagraphId>, c: Cascade, live: seq<TokenId>)
    requires StageOk(st) && CascadeFits(st, prev, c)
    requires forall pid :: pid in prev ==> LiveParagraph(st.a0, pid)
    requires forall t :: t in st.ids ==> t in FlatWords(st.a0.sentences, c.unmatchedSentencesPrev)
    requires live == WordsIn(st.w.arenas, Pids(st.p.curr))
    ensures forall t :: t in st.w.matched ==> t in InWalk(st.a0, c)
    ensures forall t :: t in live && t < |st.a0.tokens| ==> t in st.w.matched
    ensures forall t :: t in st.w.matched && t !in live ==> t in st.ids
  {
    TailFacts(st, prev);
    StageExtends(st);
    assert Placed(|st.a0.tokens|, |st.w.arenas.tokens|, live, st.s.matched.tokens, st.w.matched, st.ids);
    assert TokensLogged(st.a0, st.p.matchedPrev, st.s.matchedPrev, st.s.matched.tokens);
    hide StageOk, WordsIn, TailOf, LiveSentence, LiveParagraph, FlatWords;
    forall t | t in st.w.matched ensures t in InWalk(st.a0, c) {
      if t in st.s.matched.tokens {
        if t !in WordsIn(st.a0, st.p.matchedPrev) {
          SubLog(st.a0, st.s.matchedPrev, c.matchedSentencesPrev, t);
        }
      } else {
        SubLog(st.a0, c.unmatchedSentencesPrev, c.matchedSentencesPrev, t);
      }
    }
  }

  lemma SubLog(a: Arenas, xs: seq<SentenceId>, ys: seq<SentenceId>, t: TokenId)
    requires Elems(xs) <= Elems(ys) && t in FlatWords(a.sentences, xs)
    ensures t in FlatWords(a.sentences, ys)
  {
    FlatWordsFrom(a.sentences, xs, t);
    var sid :| sid in xs && t in WordsOf(a.sentences, sid);
    assert sid in Elems(ys);
    FlatWordsHas(a.sentences, ys, sid);
  }

  lemma InWalkBounded(a0: Arenas, c: Cascade)
    requires forall pid :: pid in c.matchedParagraphsPrev ==> LiveParagraph(a0, pid)
    requires forall sid :: sid in c.matchedSentencesPrev ==> LiveSentence(a0, sid)
    ensures forall t :: t in InWalk(a0, c) ==> t < |a0.tokens|
  {
    MatchedBounded(a0, c.matchedParagraphsPrev, c.matchedSentencesPrev, Elems(InWalk(a0, c)));
    assert forall t :: t in InWalk(a0, c) ==> t in Elems(InWalk(a0, c));
  }

  lemma StageAccounted(st: Stage, prev: seq<ParagraphId>, c: Cascade)
    requires StageOk(st) && CascadeFits(st, prev, c)
    requires forall pid :: pid in prev ==> LiveParagraph(st.a0, pid)
    requires forall t :: t in st.ids ==> t in FlatWords(st.a0.sentences, c.unmatchedSentencesPrev)
    ensures Accounted(|st.a0.tokens|, WordsIn(st.a0, prev), WordsIn(st.w.arenas, Pids(st.p.curr)), st.w.matched,
                      OutWalk(c.arenas, c), InWalk(c.arenas, c))
  {
    var live := WordsIn(st.w.arenas, Pids(st.p.curr));
    WalksAtStart(st, prev, c);
    StageOutWalk(st, prev, c);
    StageInWalk(st, prev, c, live);
    InWalkBounded(st.a0, c);
    WordsBounded(st.a0, prev);
    StageExtends(st);
    assert Placed(|st.a0.tokens|, |st.w.arenas.tokens|, live, st.s.matched.tokens, st.w.matched, st.ids);
    hide StageOk, WordsIn, CascadeFits, LiveSentence, LiveParagraph, FlatWords, OutWalk, InWalk;
  }

  // ----- no word is walked twice -----

  lemma HeadWords(a: Arenas, pids: seq<ParagraphId>)
    requires pids != []
    ensures WordsIn(a, pids) == ParaWords(a, pids[0]) + WordsIn(a, pids[1..])
  {
    assert [pids[0]] + pids[1..] == pids;
    WordsInAppend(a, [pids[0]], pids[1..]);
    WordsInSingle(a, pids[0]);
  }

  lemma UnmatchedHead(ids: seq<nat>, matched: set<nat>)
    requires ids != []
    ensures ids[0] in matched ==> Unmatched(ids, matched) == Unmatched(ids[1..], matched)
    ensures ids[0] !in matched ==>
      && Unmatched(ids, matched) != [] && Unmatched(ids, matched)[0] == ids[0]
      && Unmatched(ids, matched)[1..] == Unmatched(ids[1..], matched)
  {
    assert [] + Unmatched(ids[1..], matched) == Unmatched(ids[1..], matched);
  }

  lemma PartNoDup(x: seq<TokenId>, y: seq<TokenId>, z: seq<TokenId>)
    requires NoDup(x + y) && NoDup(z) && forall t :: t in z ==> t in y
    ensures NoDup(x + z) && forall t :: t in x + z ==> t in x + y
  {
    NoDupSplit(x, y);
    NoDupAppend(x, z);
  }

  lemma {:induction false} UnmatchedWords(a: Arenas, prev: seq<ParagraphId>, matched: set<ParagraphId>)
    requires NoDup(WordsIn(a, prev))
    ensures NoDup(WordsIn(a, Unmatched(prev, matched)))
    ensures forall t :: t in WordsIn(a, Unmatched(prev, matched)) ==> t in WordsIn(a, prev)
  {
    if prev != [] {
      hide FlatWords, FlatSids, WordsIn, ParaWords, Unmatched, NoDup;
      var left := Unmatched(prev[1..], matched);
      HeadWords(a, prev);
      UnmatchedHead(prev, matched);
      NoDupSplit(ParaWords(a, prev[0]), WordsIn(a, prev[1..]));
      UnmatchedWords(a, prev[1..], matched);
      if prev[0] !in matched {
        HeadWords(a, Unmatched(prev, matched));
        PartNoDup(ParaWords(a, prev[0]), WordsIn(a, prev[1..]), WordsIn(a, left));
      }
    }
  }

  lemma NoDupSplit<T>(x: seq<T>, y: seq<T>)
    requires NoDup(x + y)
    ensures NoDup(x) && NoDup(y)
    ensures forall t :: t in x ==> t !in y
  {
    var s := x + y;
    forall i, j | 0 <= i < j < |x| ensures x[i] != x[j] { assert s[i] == x[i] && s[j] == x[j]; }
    forall i, j | 0 <= i < j < |y| ensures y[i] != y[j] { assert s[|x| + i] == y[i] && s[|x| + j] == y[j]; }
    forall i, j | 0 <= i < |x| && 0 <= j < |y| ensures x[i] != y[j] { assert s[i] == x[i] && s[|x| + j] == y[j]; }
  }

  /** Distinct sentences of a walk without repeated words share no word. */
  lemma {:induction false} SentencesDisjoint(sentences: seq<Sentence>, sids: seq<SentenceId>, x: SentenceId,
      y: SentenceId)
    requires NoDup(FlatWords(sentences, sids)) && x in sids && y in sids
    ensures NoDup(WordsOf(sentences, x))
    ensures x != y ==> forall t :: t in WordsOf(sentences, x) ==> t !in WordsOf(sentences, y)
  {
    var head, rest := sids[0], sids[1..];
    NoDupSplit(WordsOf(sentences, head), FlatWords(sentences, rest));
    hide WordsOf, NoDup;
    if x in rest { FlatWordsHas(sentences, rest, x); }
    if y in rest { FlatWordsHas(sentences, rest, y); }
    if x in rest && y in rest {
      SentencesDisjoint(sentences, rest, x, y);
    } else if x in rest {
      SentencesDisjoint(sentences, rest, x, x);
    }
  }

  /** Listing some of the sentences, each once, still repeats no word. */
  lemma {:induction false} SomeSentencesWords(sentences: seq<Sentence>, all: seq<SentenceId>, some: seq<SentenceId>)
    requires NoDup(FlatWords(sentences, all)) && NoDup(some)
    requires forall sid :: sid in some ==> sid in all
    ensures NoDup(FlatWords(sentences, some))
  {
    if some != [] {
      var sid, rest := some[0], some[1..];
      assert sid in some && sid !in rest && forall x :: x in rest ==> x in some;
      SomeSentencesWords(sentences, all, rest);
      SentencesDisjoint(sentences, all, sid, sid);
      var x, y := WordsOf(sentences, sid), FlatWords(sentences, rest);
      forall t | t in x && t in y ensures false {
        FlatWordsFrom(sentences, rest, t);
        var other :| other in rest && t in WordsOf(sentences, other);
        SentencesDisjoint(sentences, all, sid, other);
      }
      NoDupAppend(x, y);
    }
  }

  lemma StageWalks(st: Stage, prev: seq<ParagraphId>, c: Cascade)
    requires StageOk(st) && CascadeFits(st, prev, c)
    requires forall pid :: pid in prev ==> LiveParagraph(st.a0, pid)
    requires NoDup(WordsIn(st.a0, prev))
    ensures WalksOk(st.a0, c)
  {
    assert SentInv(SceneOf(st.a0, st.p), st.s);
    hide StageOk, SentInv, LiveParagraph, LiveSentence, WordsIn, TailOf, Unmatched, FlatWords, FlatSids, NoDup;
    WalksAtStart(st, prev, c);
    TailFacts(st, prev);
    UnmatchedWords(st.a0, prev, st.p.matched.paragraphs);
    forall sid | sid in c.unmatchedSentencesPrev
      ensures LiveSentence(st.a0, sid) && sid in FlatSids(st.a0.paragraphs, c.unmatchedParagraphsPrev)
    {
      assert sid in Elems(c.unmatchedSentencesPrev);
      assert sid in Elems(c.matchedSentencesPrev);
    }
    WordsInIs(st.a0, c.unmatchedParagraphsPrev);
    SomeSentencesWords(st.a0.sentences, FlatSids(st.a0.paragraphs, c.unmatchedParagraphsPrev),
        c.unmatchedSentencesPrev);
  }

  lemma WordsInIs(a: Arenas, pids: seq<ParagraphId>)
    ensures WordsIn(a, pids) == FlatWords(a.sentences, FlatSids(a.paragraphs, pids))
  {
  }

  // ----- putting the levels together -----

  lemma StageCascade(st: Stage, prev: seq<ParagraphId>, c: Cascade)
    requires StageOk(st) && CascadeFits(st, prev, c)
    requires forall pid :: pid in prev ==> LiveParagraph(st.a0, pid)
    requires NoDup(WordsIn(st.a0, prev))
    requires forall t :: t in st.ids ==> t in FlatWords(st.a0.sentences, c.unmatchedSentencesPrev)
    requires c.curr == st.p.curr.(originalAdds := st.p.curr.originalAdds + st.w.originalAdds)
    requires c.unmatchedParagraphsCurr == st.p.unmatchedCurr && c.unmatchedSentencesCurr == st.s.unmatchedCurr
    ensures CascadeOk(st.a0, prev, st.curr0, c)
  {
    hide StageOk, ParaInv, WordsIn, Accounted, Pids, LiveSentence, LiveParagraph, NewNodesLive, GoodIndex, HashedBy,
      Aligned, Frozen, TokensNumbered, TokenRecords, OutWalk, InWalk, TailOf, UnmatchedPrevOf, CountsUp, Extends,
      WalksOk, NoDup;
    StageAccounted(st, prev, c);
    StageWalks(st, prev, c);
    StageIndex(st);
    StageExtends(st);
    StageCounts(st);
    ParaHashed(st.a0, st.curr0, st.p);
    PidsIgnoreAdds(st.p.curr, st.p.curr.originalAdds + st.w.originalAdds);
  }

  lemma PidsIgnoreAdds(rev: Revision, adds: nat)
    ensures Pids(rev.(originalAdds := adds)) == Pids(rev)
  {
  }

  lemma StageCounts(st: Stage)
    requires StageOk(st)
    ensures ParaInv(st.a0, st.curr0, st.p)
    ensures var a, live := st.w.arenas, WordsIn(st.w.arenas, Pids(st.p.curr));
      && TokensNumbered(a)
      && st.w.originalAdds + |st.a0.tokens| == |a.tokens|
      && TokenRecords(st.a0.tokens, a.tokens, st.curr0.id, st.w.matched, live)
      && (forall t :: |st.a0.tokens| <= t < |a.tokens| ==> t in live)
      && CountsUp(st.p.unmatchedCurr, |st.a0.paragraphs|)
      && |a.paragraphs| == |st.a0.paragraphs| + |st.p.unmatchedCurr|
      && CountsUp(st.s.unmatchedCurr, |st.a0.sentences|)
      && |a.sentences| == |st.a0.sentences| + |st.s.unmatchedCurr|
  {
    var a, live := st.w.arenas, WordsIn(st.w.arenas, Pids(st.p.curr));
    assert FreshParagraphs(st.a0, st.p.arenas, st.p.unmatchedCurr);
    assert FreshSentences(st.a0, st.p.arenas.paragraphs, st.s.arenas, st.s.unmatchedCurr);
    assert SentencesGrow(|st.a0.sentences|, st.s.arenas.sentences, a.sentences);
    assert Placed(|st.a0.tokens|, |a.tokens|, live, st.s.matched.tokens, st.w.matched, st.ids);
    assert TokenRecords(st.s.arenas.tokens, a.tokens, st.curr0.id, st.w.matched, live);
    assert TokensNumbered(a);
    hide ParaInv, SentInv, WordsIn, TokenRecords, TokensNumbered, LiveSentence, LiveParagraph, SceneOk, Pids;
  }

  lemma {:induction false} UnmatchedFrom(ids: seq<nat>, matched: set<nat>)
    ensures forall x :: x in Unmatched(ids, matched) ==> x in ids && x !in matched
  {
    UnmatchedElems(ids, matched);
    forall x | x in Unmatched(ids, matched) ensures x in ids && x !in matched {
      assert x in Elems(Unmatched(ids, matched));
    }
  }

  lemma CurrTextNonempty(a: Arenas, sids: seq<SentenceId>)
    requires sids != []
    ensures CurrText(a, sids) != []
  {
  }

  lemma {:induction false} ValuesPointwise(tokens: seq<Word>, ids: seq<TokenId>)
    requires forall i :: 0 <= i < |ids| ==> ids[i] < |tokens|
    ensures |Values(tokens, ids)| == |ids|
    ensures forall i :: 0 <= i < |ids| ==> Values(tokens, ids)[i] == tokens[ids[i]].value
  {
    if ids != [] {
      ValuesPointwise(tokens, ids[1..]);
    }
  }

  lemma NothingPlacedYet(n: nat, words: seq<TokenId>, claimed: set<TokenId>, ids: seq<TokenId>)
    requires WordsClaimed(words, claimed) && forall t :: t in claimed ==> t < n
    ensures Placed(n, n, words, claimed, claimed, ids)
  {
    forall t | t in words ensures t in claimed { assert t in Elems(words); }
    forall t | t in claimed ensures t in words { assert t in Elems(words); }
  }

  lemma NothingChangedYet(sentences: seq<Sentence>, tokens: seq<Word>, firstFresh: nat, rev: RevId,
      claimed: set<TokenId>, words: seq<TokenId>)
    requires WordsClaimed(words, claimed)
    ensures SentencesGrow(firstFresh, sentences, sentences) && TokenRecords(tokens, tokens, rev, claimed, words)
  {
  }

  lemma WordStart(a0: Arenas, curr0: Revision, p: ParaState, s: SentState, ids: seq<TokenId>, entries: seq<DiffEntry>)
    requires TokensNumbered(a0) && SentInv(SceneOf(a0, p), s)
    requires forall t :: t in s.matched.tokens ==> t < |a0.tokens|
    requires forall t :: t in ids ==> t < |a0.tokens| && t !in s.matched.tokens
    ensures var st := Stage(a0, curr0, p, s, ids, WordState(s.arenas, 0, s.matched.tokens, entries));
      WordSceneOk(WordSceneOf(st)) && WordInv(WordSceneOf(st), st.w)
  {
    assert FreshSentences(a0, p.arenas.paragraphs, s.arenas, s.unmatchedCurr);
    hide Filling, Covers, TokensLogged, LiveSentence, LiveParagraph, FreshOnce, Pids, WordsIn, WordsClaimed, Placed,
      SentencesGrow, TokenRecords, FlatSids, CountsUp;
    var words := WordsIn(s.arenas, Pids(p.curr));
    NothingPlacedYet(|a0.tokens|, words, s.matched.tokens, ids);
    NothingChangedYet(s.arenas.sentences, s.arenas.tokens, |a0.sentences|, curr0.id, s.matched.tokens, words);
  }

  /** The values handed to the diff are those of the ids, and every id is an old, unmatched
      word of a leftover sentence. */
  lemma PrevWordsFacts(a0: Arenas, s: SentState, left: seq<SentenceId>)
    requires a0.sentences <= s.arenas.sentences && s.arenas.tokens == a0.tokens
    requires forall sid :: sid in left ==> LiveSentence(a0, sid)
    ensures var ids := Unmatched(FlatWords(s.arenas.sentences, left), s.matched.tokens);
      && (forall t :: t in ids ==> t < |a0.tokens| && t !in s.matched.tokens && t in FlatWords(a0.sentences, left))
      && PrevValuesOk(PrevWords(ids, Values(s.arenas.tokens, ids)), s.arenas)
  {
    FlatWordsFrame(a0.sentences, s.arenas.sentences, left);
    var ids := Unmatched(FlatWords(s.arenas.sentences, left), s.matched.tokens);
    UnmatchedFrom(FlatWords(s.arenas.sentences, left), s.matched.tokens);
    forall t | t in ids ensures t < |a0.tokens| {
      FlatWordsFrom(a0.sentences, left, t);
      var sid :| sid in left && t in WordsOf(a0.sentences, sid);
      assert LiveSentence(a0, sid);
    }
    forall i | 0 <= i < |ids| ensures ids[i] < |s.arenas.tokens| { assert ids[i] in ids; }
    ValuesPointwise(s.arenas.tokens, ids);
  }

  lemma MatchedTokensBounded(a0: Arenas, p: ParaState, s: SentState)
    requires SentInv(SceneOf(a0, p), s) && Covers(a0, p.matched) && Elems(p.matchedPrev) == p.matched.paragraphs
    ensures forall t :: t in s.matched.tokens ==> t < |a0.tokens|
  {
    assert Covers(a0, s.matched);
    forall pid | pid in p.matchedPrev ensures LiveParagraph(a0, pid) { assert pid in Elems(p.matchedPrev); }
    forall sid | sid in s.matchedPrev ensures LiveSentence(a0, sid) { assert sid in Elems(s.matchedPrev); }
    hide LiveParagraph, LiveSentence;
    MatchedBounded(a0, p.matchedPrev, s.matchedPrev, s.matched.tokens);
  }

  /** The state after the sentence level, before the token level has done anything. */
  function StageAt(a0: Arenas, curr0: Revision, p: ParaState, s: SentState, ids: seq<TokenId>,
      entries: seq<DiffEntry>): Stage {
    Stage(a0, curr0, p, s, ids, WordState(s.arenas, 0, s.matched.tokens, entries))
  }

  // ----- when every current paragraph was found -----

  lemma NothingFresh(a0: Arenas, curr0: Revision, p: ParaState)
    requires ParaInv(a0, curr0, p) && p.unmatchedCurr == []
    ensures p.arenas == a0 && Covers(a0, p.matched) && Elems(p.matchedPrev) == p.matched.paragraphs
    ensures GoodIndex(a0, p.curr.paragraphs, p.curr.orderedParagraphs)
    ensures WordsClaimed(RevTokens(a0, p.curr), p.matched.tokens)
  {
    SceneStart(a0, curr0, p);
    assert p.arenas == a0 by { assert FreshParagraphs(a0, p.arenas, p.unmatchedCurr); hide CurrIndexed, PlacedOnce,
        WordsClaimed; }
    ParaHashed(a0, curr0, p);
    var w := Pids(p.curr);
    assert SceneOk(SceneOf(a0, p)) && WordsClaimed(WordsIn(a0, w), p.matched.tokens);
    hide ParaInv, HashedBy, Aligned, WordsIn, Walk, LiveParagraph;
  }

  lemma AllFoundAccounted(a0: Arenas, prev: seq<ParagraphId>, p: ParaState, c: Cascade)
    requires Covers(a0, p.matched) && TokensLogged(a0, p.matchedPrev, [], p.matched.tokens)
    requires Elems(p.matchedPrev) == p.matched.paragraphs
    requires forall pid :: pid in prev ==> LiveParagraph(a0, pid)
    requires WordsClaimed(RevTokens(a0, p.curr), p.matched.tokens)
    requires c.unmatchedSentencesPrev == [] && c.matchedSentencesPrev == [] && c.matchedParagraphsPrev == p.matchedPrev
    requires c.unmatchedParagraphsPrev == Unmatched(prev, p.matched.paragraphs)
    ensures Accounted(|a0.tokens|, WordsIn(a0, prev), RevTokens(a0, p.curr), p.matched.tokens, OutWalk(a0, c),
        InWalk(a0, c))
  {
    forall pid | pid in p.matchedPrev ensures LiveParagraph(a0, pid) { assert pid in Elems(p.matchedPrev); }
    assert FlatWords(a0.sentences, []) == [];
    hide WordsIn, LiveParagraph, LiveSentence, Covers, RevTokens, FlatWords, Unmatched;
    PrevWordsLeft(a0, p.matched, prev);
    WordsBounded(a0, prev);
    MatchedBounded(a0, p.matchedPrev, [], p.matched.tokens);
    forall t | t in RevTokens(a0, p.curr) ensures t in p.matched.tokens && t in InWalk(a0, c) {
      assert t in Elems(RevTokens(a0, p.curr));
    }
  }

  lemma AllFoundWalks(a0: Arenas, prev: seq<ParagraphId>, p: ParaState, c: Cascade)
    requires Covers(a0, p.matched) && Elems(p.matchedPrev) == p.matched.paragraphs
    requires (forall pid :: pid in prev ==> LiveParagraph(a0, pid)) && NoDup(WordsIn(a0, prev))
    requires c.unmatchedSentencesPrev == [] && c.matchedSentencesPrev == [] && c.matchedParagraphsPrev == p.matchedPrev
    requires c.unmatchedParagraphsPrev == Unmatched(prev, p.matched.paragraphs)
    ensures WalksOk(a0, c)
  {
    hide LiveSentence, WordsIn, NoDup;
    forall pid | pid in p.matchedPrev ensures LiveParagraph(a0, pid) { assert pid in Elems(p.matchedPrev); }
    hide LiveParagraph;
    UnmatchedFrom(prev, p.matched.paragraphs);
    UnmatchedWords(a0, prev, p.matched.paragraphs);
  }

  lemma AllParagraphsFound(a0: Arenas, prev: seq<ParagraphId>, curr0: Revision, p: ParaState)
    requires TokensNumbered(a0) && ParaInv(a0, curr0, p) && TokensLogged(a0, p.matchedPrev, [], p.matched.tokens)
    requires p.unmatchedCurr == []
    requires forall pid :: pid in prev ==> LiveParagraph(a0, pid)
    requires NoDup(WordsIn(a0, prev))
    ensures CascadeOk(a0, prev, curr0,
      Cascade(p.arenas, p.curr, p.matched.tokens, p.matchedPrev, Unmatched(prev, p.matched.paragraphs), [], [], [],
          [], false))
  {
    var c := Cascade(p.arenas, p.curr, p.matched.tokens, p.matchedPrev, Unmatched(prev, p.matched.paragraphs), [], [],
        [], [], false);
    hide ParaInv, LiveParagraph, LiveSentence, Covers, GoodIndex, Unmatched, RevTokens, OutWalk, InWalk, HashedBy,
      Aligned, Accounted, TokensLogged, TokensNumbered, WalksOk, WordsIn;
    NothingFresh(a0, curr0, p);
    ParaHashed(a0, curr0, p);
    AllFoundAccounted(a0, prev, p, c);
    AllFoundWalks(a0, prev, p, c);
    assert TokenRecords(a0.tokens, a0.tokens, curr0.id, p.matched.tokens, RevTokens(a0, p.curr)) by {
      forall t | t in p.matched.tokens ensures t in RevTokens(a0, p.curr) {
        assert t in Elems(RevTokens(a0, p.curr));
      }
    }
  }

  // ----- the cascade -----

  /** A cascade that gave up has appended paragraphs and sentences and changed nothing else. */
  ghost predicate OnlyAppended(a0: Arenas, a: Arenas) {
    Frozen(a0, a) && a == a0.(sentences := a.sentences, paragraphs := a.paragraphs)
  }

  lemma SentencesRan(ops: TextOps, a0: Arenas, prev: seq<ParagraphId>, curr0: Revision, p: ParaState)
    requires GoodArenas(a0) && ParaInv(a0, curr0, p) && TokensLogged(a0, p.matchedPrev, [], p.matched.tokens)
    requires forall pid :: pid in prev ==> LiveParagraph(a0, pid)
    ensures var upp := Unmatched(prev, p.matched.paragraphs);
      var s := AnalyseSentences(ops, p.arenas, p.unmatchedCurr, upp, p.matched).0;
      && SceneOk(SceneOf(a0, p)) && SentInv(SceneOf(a0, p), s)
      && (forall t :: t in s.matched.tokens ==> t < |a0.tokens|)
      && OnlyAppended(a0, s.arenas)
  {
    var upp := Unmatched(prev, p.matched.paragraphs);
    SentStart(a0, curr0, p);
    var sc := SceneOf(a0, p);
    UnmatchedFrom(prev, p.matched.paragraphs);
    assert FreshParagraphs(a0, p.arenas, p.unmatchedCurr) && Covers(a0, p.matched)
        && Elems(p.matchedPrev) == p.matched.paragraphs;
    hide ParaInv, SentInv, SceneOk, LiveParagraph, Covers, SentLoops, TokensLogged, GoodTables;
    SentLoopsKeep(ops, sc, upp, p.unmatchedCurr, SentState(p.arenas, p.matched, [], []));
    var s := SentLoops(ops, upp, p.unmatchedCurr, SentState(p.arenas, p.matched, [], []));
    MatchedTokensBounded(a0, p, s);
    SentOnlyAppends(sc, s);
  }

  lemma SentOnlyAppends(sc: Scene, s: SentState)
    requires SentInv(sc, s)
    ensures OnlyAppended(sc.a0, s.arenas)
    ensures |s.arenas.sentences| == |sc.a0.sentences| + |s.unmatchedCurr|
    ensures CountsUp(s.unmatchedCurr, |sc.a0.sentences|)
    ensures forall sid :: sid in s.unmatchedCurr ==> |sc.a0.sentences| <= sid < |s.arenas.sentences|
    ensures forall sid :: |sc.a0.sentences| <= sid < |s.arenas.sentences| ==>
      sid in s.unmatchedCurr && s.arenas.sentences[sid].words == []
    ensures NoDup(s.unmatchedCurr)
  {
    hide Filling, Covers, TokensLogged, WordsClaimed, FreshOnce, LiveSentence, LiveParagraph;
    forall sid | |sc.a0.sentences| <= sid < |s.arenas.sentences| ensures sid in s.unmatchedCurr {
      assert s.unmatchedCurr[sid - |sc.a0.sentences|] == sid;
    }
  }

  /** The sentence level found everything, so the token level had nothing to do. */
  lemma AllSentencesFound(a0: Arenas, prev: seq<ParagraphId>, curr0: Revision, p: ParaState, s: SentState, c: Cascade)
    requires TokensNumbered(a0) && ParaInv(a0, curr0, p)
    requires SceneOk(SceneOf(a0, p)) && SentInv(SceneOf(a0, p), s)
    requires forall t :: t in s.matched.tokens ==> t < |a0.tokens|
    requires forall pid :: pid in prev ==> LiveParagraph(a0, pid)
    requires NoDup(WordsIn(a0, prev))
    requires s.unmatchedCurr == []
    requires CascadeFits(StageAt(a0, curr0, p, s, [], []), prev, c)
    requires c.curr == p.curr && c.unmatchedParagraphsCurr == p.unmatchedCurr && c.unmatchedSentencesCurr == []
    ensures CascadeOk(a0, prev, curr0, c)
  {
    var st := StageAt(a0, curr0, p, s, [], []);
    SentOnlyAppends(SceneOf(a0, p), s);
    WordStart(a0, curr0, p, s, [], []);
    hide ParaInv, SentInv, SceneOk, WordSceneOk, WordInv, LiveParagraph, CascadeFits;
    StageCascade(st, prev, c);
  }

  /** The token level ran over the fresh sentences. */
  lemma TokensRan(a0: Arenas, prev: seq<ParagraphId>, curr0: Revision, p: ParaState, s: SentState, pw: PrevWords,
                  entries: seq<DiffEntry>, c: Cascade)
    requires TokensNumbered(a0) && ParaInv(a0, curr0, p)
    requires SceneOk(SceneOf(a0, p)) && SentInv(SceneOf(a0, p), s)
    requires forall t :: t in s.matched.tokens ==> t < |a0.tokens|
    requires forall pid :: pid in prev ==> LiveParagraph(a0, pid)
    requires NoDup(WordsIn(a0, prev))
    requires
      forall t :: t in pw.ids
        ==> t < |a0.tokens| && t !in s.matched.tokens && t in FlatWords(a0.sentences, c.unmatchedSentencesPrev)
    requires PrevValuesOk(pw, s.arenas)
    requires var st := StageAt(a0, curr0, p, s, pw.ids, entries);
      CascadeFits(st.(w := WordLoops(pw, curr0.id, s.unmatchedCurr, st.w)), prev, c)
    requires c.curr == p.curr.(originalAdds := p.curr.originalAdds
                                 + WordLoops(pw, curr0.id, s.unmatchedCurr,
                                     WordState(s.arenas, 0, s.matched.tokens, entries)).originalAdds)
    requires c.unmatchedParagraphsCurr == p.unmatchedCurr && c.unmatchedSentencesCurr == s.unmatchedCurr
    ensures CascadeOk(a0, prev, curr0, c)
  {
    var st0 := StageAt(a0, curr0, p, s, pw.ids, entries);
    SentOnlyAppends(SceneOf(a0, p), s);
    WordStart(a0, curr0, p, s, pw.ids, entries);
    hide ParaInv, SentInv, SceneOk, WordSceneOk, WordInv, LiveParagraph, CascadeFits, WordLoops, PrevValuesOk,
      FlatWords, OnlyAppended;
    WordLoopsKeep(WordSceneOf(st0), pw, s.unmatchedCurr, st0.w);
    var st := st0.(w := WordLoops(pw, curr0.id, s.unmatchedCurr, st0.w));
    assert TokensNumbered(s.arenas) by { assert OnlyAppended(a0, s.arenas); AppendedNumbered(a0, s.arenas); }
    WordLoopsFill(pw, curr0.id, s.unmatchedCurr, st0.w);
    forall sid | |a0.sentences| <= sid < |st.w.arenas.sentences| ensures WordsOf(st.w.arenas.sentences, sid) != [] {
      assert sid in s.unmatchedCurr;
      assert Filled(st.w.arenas, sid, SplitSpace(SentenceValue(s.arenas, sid)));
    }
    StageCascade(st, prev, c);
  }

  lemma AppendedNumbered(a0: Arenas, a: Arenas)
    requires TokensNumbered(a0) && OnlyAppended(a0, a)
    ensures TokensNumbered(a)
  {
  }

  lemma AfterSentencesOk(a0: Arenas, prev: seq<ParagraphId>, curr0: Revision, p: ParaState, s: SentState)
    requires TokensNumbered(a0) && ParaInv(a0, curr0, p)
    requires SceneOk(SceneOf(a0, p)) && SentInv(SceneOf(a0, p), s) && OnlyAppended(a0, s.arenas)
    requires forall t :: t in s.matched.tokens ==> t < |a0.tokens|
    requires forall pid :: pid in prev ==> LiveParagraph(a0, pid)
    requires NoDup(WordsIn(a0, prev))
    ensures var upp := Unmatched(prev, p.matched.paragraphs);
      var c := AfterSentences(p, upp, s, TailOf(StageAt(a0, curr0, p, s, [], []), upp));
      if c.vandalism then OnlyAppended(a0, c.arenas) else CascadeOk(a0, prev, curr0, c)
  {
    var upp := Unmatched(prev, p.matched.paragraphs);
    var st0 := StageAt(a0, curr0, p, s, [], []);
    var t := TailOf(st0, upp);
    var c := AfterSentences(p, upp, s, t);
    hide LiveParagraph, ParaInv, SentInv, SceneOk, CascadeOk, OnlyAppended, TokensNumbered, AnalyseWords;
    if s.unmatchedCurr == [] {
      AllSentencesFound(a0, prev, curr0, p, s, c);
    } else {
      WordsAnalysed(a0, prev, curr0, p, s, c);
    }
  }

  lemma WordsAnalysed(a0: Arenas, prev: seq<ParagraphId>, curr0: Revision, p: ParaState, s: SentState, c: Cascade)
    requires TokensNumbered(a0) && ParaInv(a0, curr0, p)
    requires SceneOk(SceneOf(a0, p)) && SentInv(SceneOf(a0, p), s) && OnlyAppended(a0, s.arenas)
    requires forall t :: t in s.matched.tokens ==> t < |a0.tokens|
    requires forall pid :: pid in prev ==> LiveParagraph(a0, pid)
    requires NoDup(WordsIn(a0, prev))
    requires s.unmatchedCurr != []
    requires var upp := Unmatched(prev, p.matched.paragraphs);
      c == AfterSentences(p, upp, s, TailOf(StageAt(a0, curr0, p, s, [], []), upp))
    ensures if c.vandalism then OnlyAppended(a0, c.arenas) else CascadeOk(a0, prev, curr0, c)
  {
    hide LiveParagraph, ParaInv, SentInv, SceneOk, CascadeOk, TokensNumbered, AvgWordFreq, CurrText, Unmatched,
      LiveSentence, FlatWords, WordLoops, PrevValuesOk, StageOk, Aligned, HashedBy, TailOf, Compare, Entries, Values,
      PossibleVandalism, NoDup;
    CurrTextNonempty(s.arenas, s.unmatchedCurr);
    if !c.vandalism {
      var st0 := StageAt(a0, curr0, p, s, [], []);
      var t := TailOf(st0, Unmatched(prev, p.matched.paragraphs));
      ParaHashed(a0, curr0, p);
      TailFacts(st0, prev);
      forall sid | sid in t.unmatchedPrev ensures LiveSentence(a0, sid) {
        assert sid in Elems(t.unmatchedPrev);
        assert sid in Elems(t.matchedPrev);
      }
      PrevWordsFacts(a0, s, t.unmatchedPrev);
      var ids := Unmatched(FlatWords(s.arenas.sentences, t.unmatchedPrev), s.matched.tokens);
      var pw := PrevWords(ids, Values(s.arenas.tokens, ids));
      var entries := if ids == [] then [] else Entries(Compare(pw.values, CurrText(s.arenas, s.unmatchedCurr)));
      TailAnyWords(a0, curr0, p, s, Unmatched(prev, p.matched.paragraphs), pw, entries);
      TokensRan(a0, prev, curr0, p, s, pw, entries, c);
    }
  }

  /** The tail loop does not look at the token level. */
  lemma TailAnyWords(a0: Arenas, curr0: Revision, p: ParaState, s: SentState, upp: seq<ParagraphId>, pw: PrevWords,
      entries: seq<DiffEntry>)
    ensures var st := StageAt(a0, curr0, p, s, pw.ids, entries);
      TailOf(st.(w := WordLoops(pw, curr0.id, s.unmatchedCurr, st.w)), upp)
          == TailOf(StageAt(a0, curr0, p, s, [], []), upp)
  {
  }

  /** Either the cascade gives up having only appended, or it accounts for every token. */
  lemma CascadeTheorem(ops: TextOps, a0: Arenas, text: string, prev: map<Hash, seq<ParagraphId>>,
      prevOrder: seq<Hash>, curr0: Revision)
    requires GoodArenas(a0) && GoodIndex(a0, prev, prevOrder)
    requires curr0.paragraphs == map[] && curr0.orderedParagraphs == []
    ensures var c := DetermineAuthorship(ops, a0, text, prev, prevOrder, curr0);
      if c.vandalism then OnlyAppended(a0, c.arenas) else CascadeOk(a0, Walk(prev, prevOrder), curr0, c)
  {
    var pids := Walk(prev, prevOrder);
    assert forall pid :: pid in pids ==> LiveParagraph(a0, pid);
    assert TokensNumbered(a0) && NoDup(WordsIn(a0, pids));
    hide WordsIn, NoDup, GoodArenas, GoodIndex, LiveParagraph, ParaInv, SentInv, SceneOk, AnalyseParagraphs,
      AnalyseSentences, CascadeOk, OnlyAppended, TokensLogged, TokensNumbered, Walk, AvgWordFreq, CurrText,
      Unmatched, LiveSentence, FlatWords, WordLoops, PrevValuesOk;
    ParaResult(ops, a0, text, prev, prevOrder, curr0);
    var p := AnalyseParagraphs(ops, a0, text, prev, curr0);
    var c := DetermineAuthorship(ops, a0, text, prev, prevOrder, curr0);
    var upp := Unmatched(pids, p.matched.paragraphs);
    if p.unmatchedCurr == [] {
      AllParagraphsFound(a0, pids, curr0, p);
    } else {
      SentencesRan(ops, a0, pids, curr0, p);
      var s := AnalyseSentences(ops, p.arenas, p.unmatchedCurr, upp, p.matched).0;
      AfterSentencesOk(a0, pids, curr0, p, s);
    }
  }
}
