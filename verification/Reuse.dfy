/** What the cascade reuses. A paragraph or sentence is only made anew where every known one
    of its hash shares a word with what the new revision already reuses, and at the token
    level the transcript decides; so what a revision adds is known exactly. */
module Reuse {
  import opened Wrappers
  import opened Seqs
  import opened Buckets
  import opened TextOps
  import opened Structures
  import opened EditScript
  import opened DifferSpec
  import opened CascadeSpec
  import opened CascadeShape
  import opened SentenceLevel
  import opened WordLevel
  import opened Accounting
  import opened Follows

  // ----- the first free candidate -----

  ghost predicate FreeParagraph(a: Arenas, m: MatchedSets, pid: ParagraphId) {
    pid !in m.paragraphs && Elems(ParaWords(a, pid)) !! m.tokens
  }

  ghost predicate FreeSentence(a: Arenas, m: MatchedSets, sid: SentenceId) {
    sid !in m.sentences && Elems(WordsOf(a.sentences, sid)) !! m.tokens
  }

  /** `r` has found the first candidate that is free, or none is. */
  ghost predicate FirstFree(cs: seq<nat>, free: nat -> bool, found: Option<nat>) {
    match found
    case None => forall i :: 0 <= i < |cs| ==> !free(cs[i])
    case Some(x) => exists i :: 0 <= i < |cs| && cs[i] == x && free(x) && forall j :: 0 <= j < i ==> !free(cs[j])
  }

  lemma FirstFreeHead(cs: seq<nat>, free: nat -> bool, found: Option<nat>)
    requires cs != []
    ensures free(cs[0]) ==> FirstFree(cs, free, Some(cs[0]))
    ensures !free(cs[0]) && FirstFree(cs[1..], free, found) ==> FirstFree(cs, free, found)
  {
    if !free(cs[0]) && FirstFree(cs[1..], free, found) {
      if found.Some? {
        var i :| 0 <= i < |cs[1..]| && cs[1..][i] == found.value && free(found.value)
            && forall j :: 0 <= j < i ==> !free(cs[1..][j]);
        assert cs[i + 1] == found.value;
        forall j | 0 <= j < i + 1 ensures !free(cs[j]) {
          if j > 0 { assert cs[j] == cs[1..][j - 1]; }
        }
      } else {
        forall i | 0 <= i < |cs| ensures !free(cs[i]) {
          if i > 0 { assert cs[i] == cs[1..][i - 1]; }
        }
      }
    }
  }

  lemma SameFree(cs: seq<nat>, free: nat -> bool, free': nat -> bool, found: Option<nat>)
    requires FirstFree(cs, free, found) && forall x :: free(x) == free'(x)
    ensures FirstFree(cs, free', found)
  {
  }

  ghost function ParagraphTest(a: Arenas, m: MatchedSets): nat -> bool {
    (pid: nat) => FreeParagraph(a, m, pid)
  }

  ghost function SentenceTest(a: Arenas, m: MatchedSets): nat -> bool {
    (sid: nat) => FreeSentence(a, m, sid)
  }

  /** The scan takes the first free candidate, and none only if none is free. */
  lemma {:induction false} TakesFirstFree(a: Arenas, cs: seq<ParagraphId>, m: MatchedSets, log: seq<ParagraphId>)
    ensures var r := ScanParagraphs(a, cs, m, log);
      && FirstFree(cs, ParagraphTest(a, m), r.found)
      && m.paragraphs <= r.matched.paragraphs && m.tokens <= r.matched.tokens
  {
    hide ParaWords, FirstFree;
    if cs == [] {
      NoneFree(ParagraphTest(a, m));
    } else {
      var pid, rest := cs[0], cs[1..];
      var words := Elems(ParaWords(a, pid));
      FirstFreeHead(cs, ParagraphTest(a, m), ScanParagraphs(a, cs, m, log).found);
      if !FreeParagraph(a, m, pid) {
        var consumed := pid !in m.paragraphs && words <= m.tokens;
        var m' := if consumed then m.(paragraphs := m.paragraphs + {pid}) else m;
        var log' := if consumed then log + [pid] else log;
        TakesFirstFree(a, rest, m', log');
        SameFree(rest, ParagraphTest(a, m'), ParagraphTest(a, m), ScanParagraphs(a, rest, m', log').found);
      }
    }
  }

  lemma NoneFree(free: nat -> bool)
    ensures FirstFree([], free, None)
  {
  }

  lemma {:induction false} TakesFirstFreeSentence(a: Arenas, cs: seq<SentenceId>, m: MatchedSets, log: seq<SentenceId>)
    ensures var r := ScanSentences(a, cs, m, log);
      && FirstFree(cs, SentenceTest(a, m), r.found)
      && m.sentences <= r.matched.sentences && m.tokens <= r.matched.tokens
  {
    hide WordsOf, FirstFree;
    if cs == [] {
      NoneFree(SentenceTest(a, m));
    } else {
      var sid, rest := cs[0], cs[1..];
      var words := Elems(WordsOf(a.sentences, sid));
      FirstFreeHead(cs, SentenceTest(a, m), ScanSentences(a, cs, m, log).found);
      if !FreeSentence(a, m, sid) {
        var consumed := sid !in m.sentences && words <= m.tokens;
        var m' := if consumed then m.(sentences := m.sentences + {sid}) else m;
        var log' := if consumed then log + [sid] else log;
        TakesFirstFreeSentence(a, rest, m', log');
        SameFree(rest, SentenceTest(a, m'), SentenceTest(a, m), ScanSentences(a, rest, m', log').found);
      }
    }
  }

  // ----- paragraphs made anew -----

  /** No known paragraph with this hash is free any more. */
  ghost predicate ParagraphsUsedUp(a0: Arenas, prev: map<Hash, seq<ParagraphId>>, m: MatchedSets, h: Hash) {
    forall q :: q in Bucket(prev, h) || q in Bucket(a0.paragraphsHt, h) ==> !FreeParagraph(a0, m, q)
  }

  ghost predicate NewParagraphsNeeded(a0: Arenas, prev: map<Hash, seq<ParagraphId>>, s: ParaState) {
    forall pid :: pid in s.unmatchedCurr ==>
      pid < |s.arenas.paragraphs| && ParagraphsUsedUp(a0, prev, s.matched, s.arenas.paragraphs[pid].hashValue)
  }

  lemma UsedUpStays(a0: Arenas, prev: map<Hash, seq<ParagraphId>>, m: MatchedSets, m': MatchedSets, h: Hash)
    requires ParagraphsUsedUp(a0, prev, m, h) && m.paragraphs <= m'.paragraphs && m.tokens <= m'.tokens
    ensures ParagraphsUsedUp(a0, prev, m', h)
  {
    hide ParaWords;
  }

  lemma NoneFound(a0: Arenas, a: Arenas, prev: map<Hash, seq<ParagraphId>>, m: MatchedSets, h: Hash)
    requires Extends(a0, a) && IndexedLive(a0, a0.paragraphsHt) && IndexedLive(a0, prev)
    requires FirstFree(Bucket(prev, h) + Bucket(a0.paragraphsHt, h), ParagraphTest(a, m), None)
    ensures ParagraphsUsedUp(a0, prev, m, h)
  {
    CandidatesLive(a0, prev, h);
    CandidatesLive(a0, a0.paragraphsHt, h);
    var cs := Bucket(prev, h) + Bucket(a0.paragraphsHt, h);
    hide ParaWords, Extends, LiveParagraph, IndexedLive;
    forall q | q in Bucket(prev, h) || q in Bucket(a0.paragraphsHt, h) ensures !FreeParagraph(a0, m, q) {
      assert q in cs;
      var i :| 0 <= i < |cs| && cs[i] == q;
      assert ParagraphUnder(a0, q, h);
      LiveParagraphExtends(a0, a, q);
      assert !ParagraphTest(a, m)(cs[i]);
    }
  }

  /** What a step leaves of the paragraphs listed as new, and which one it may list. */
  lemma ParaStepParts(ops: TextOps, prev: map<Hash, seq<ParagraphId>>, text: string, s: ParaState)
    ensures var s', h := ParaStep(ops, prev, text, s), ops.digest(text);
      var r := ScanParagraphs(s.arenas, Bucket(prev, h) + Bucket(s.arenas.paragraphsHt, h), s.matched, s.matchedPrev);
      && s'.matched == r.matched && s.arenas.paragraphs <= s'.arenas.paragraphs
      && if r.found.Some? then s'.unmatchedCurr == s.unmatchedCurr
         else
           && |s.arenas.paragraphs| < |s'.arenas.paragraphs|
           && s'.unmatchedCurr == s.unmatchedCurr + [|s.arenas.paragraphs|]
           && s'.arenas.paragraphs[|s.arenas.paragraphs|].hashValue == h
  {
    hide ScanParagraphs, AddParagraph;
  }

  /** Each paragraph takes the first free one with its hash, those of the previous revision
      before those of the table; only if none is free is it made anew. */
  lemma ParaStepTakes(ops: TextOps, prev: map<Hash, seq<ParagraphId>>, text: string, s: ParaState)
    ensures var s', h := ParaStep(ops, prev, text, s), ops.digest(text);
      exists found: Option<nat> :: FirstFree(Bucket(prev, h) + Bucket(s.arenas.paragraphsHt, h),
                                             ParagraphTest(s.arenas, s.matched), found)
        && s'.curr == AddParagraph(s.curr, h, if found.Some? then found.value else |s.arenas.paragraphs|)
        && s'.arenas == (if found.Some? then s.arenas else AllocParagraph(s.arenas, h, text))
        && s'.unmatchedCurr == s.unmatchedCurr + if found.Some? then [] else [|s.arenas.paragraphs|]
  {
    hide ScanParagraphs, AddParagraph, AllocParagraph, FirstFree;
    var h := ops.digest(text);
    TakesFirstFree(s.arenas, Bucket(prev, h) + Bucket(s.arenas.paragraphsHt, h), s.matched, s.matchedPrev);
    assert s.unmatchedCurr + [] == s.unmatchedCurr;
  }

  lemma ParaStepNeeds(ops: TextOps, a0: Arenas, curr0: Revision, prev: map<Hash, seq<ParagraphId>>, text: string,
      s: ParaState)
    requires IndexedLive(a0, a0.paragraphsHt) && IndexedLive(a0, prev)
    requires ParaInv(a0, curr0, s) && NewParagraphsNeeded(a0, prev, s)
    ensures NewParagraphsNeeded(a0, prev, ParaStep(ops, prev, text, s))
  {
    FreshExtends(a0, s.arenas, s.unmatchedCurr);
    hide IndexedLive, ParaInv, ScanParagraphs, FirstFree, ParagraphsUsedUp, Extends, ParaStep;
    var hash, s' := ops.digest(text), ParaStep(ops, prev, text, s);
    var cs := Bucket(prev, hash) + Bucket(s.arenas.paragraphsHt, hash);
    var r := ScanParagraphs(s.arenas, cs, s.matched, s.matchedPrev);
    TakesFirstFree(s.arenas, cs, s.matched, s.matchedPrev);
    ParaStepParts(ops, prev, text, s);
    forall pid | pid in s'.unmatchedCurr
      ensures pid < |s'.arenas.paragraphs|
          && ParagraphsUsedUp(a0, prev, s'.matched, s'.arenas.paragraphs[pid].hashValue)
    {
      if pid in s.unmatchedCurr {
        UsedUpStays(a0, prev, s.matched, s'.matched, s.arenas.paragraphs[pid].hashValue);
      } else {
        NoneFound(a0, s.arenas, prev, s.matched, hash);
        UsedUpStays(a0, prev, s.matched, s'.matched, hash);
      }
    }
  }

  lemma {:induction false} ParaLoopNeeds(ops: TextOps, a0: Arenas, curr0: Revision, prev: map<Hash, seq<ParagraphId>>,
      texts: seq<string>, s: ParaState)
    requires IndexedLive(a0, a0.paragraphsHt) && IndexedLive(a0, prev)
    requires ParaInv(a0, curr0, s) && NewParagraphsNeeded(a0, prev, s)
    ensures NewParagraphsNeeded(a0, prev, ParaLoop(ops, prev, texts, s))
    decreases |texts|
  {
    hide ParaInv, IndexedLive, NewParagraphsNeeded;
    if texts != [] {
      ParaStepKeeps(ops, a0, curr0, prev, texts[0], s);
      ParaStepNeeds(ops, a0, curr0, prev, texts[0], s);
      ParaLoopNeeds(ops, a0, curr0, prev, texts[1..], ParaStep(ops, prev, texts[0], s));
    }
  }

  // ----- sentences made anew -----

  /** The sentences the search looks through: those of the unmatched previous paragraphs and
      those in the table. */
  ghost predicate Known(a0: Arenas, upp: seq<ParagraphId>, h: Hash, q: SentenceId) {
    || q in Bucket(a0.sentencesHt, h)
    || exists pid :: pid in upp && pid < |a0.paragraphs| && q in Bucket(a0.paragraphs[pid].sentences, h)
  }

  ghost predicate SentencesUsedUp(a0: Arenas, upp: seq<ParagraphId>, m: MatchedSets, h: Hash) {
    forall q :: Known(a0, upp, h, q) ==> !FreeSentence(a0, m, q)
  }

  ghost predicate NewSentencesNeeded(a0: Arenas, upp: seq<ParagraphId>, s: SentState) {
    forall sid :: sid in s.unmatchedCurr ==>
      sid < |s.arenas.sentences| && SentencesUsedUp(a0, upp, s.matched, s.arenas.sentences[sid].hashValue)
  }

  lemma SentencesStayUsed(a0: Arenas, upp: seq<ParagraphId>, m: MatchedSets, m': MatchedSets, h: Hash)
    requires SentencesUsedUp(a0, upp, m, h) && m.sentences <= m'.sentences && m.tokens <= m'.tokens
    ensures SentencesUsedUp(a0, upp, m', h)
  {
    hide WordsOf, Known;
  }

  lemma {:induction false} PrevCandidatesAll(a: Arenas, upp: seq<ParagraphId>, h: Hash, pid: ParagraphId, q: SentenceId)
    requires pid in upp && pid < |a.paragraphs| && q in Bucket(a.paragraphs[pid].sentences, h)
    ensures q in PrevCandidates(a, upp, h)
  {
    if pid != upp[0] {
      PrevCandidatesAll(a, upp[1..], h, pid, q);
    }
  }

  lemma KnownIsCandidate(a0: Arenas, a: Arenas, upp: seq<ParagraphId>, h: Hash, q: SentenceId)
    requires a0.paragraphs <= a.paragraphs && Known(a0, upp, h, q)
    ensures q in PrevCandidates(a, upp, h) + Bucket(a0.sentencesHt, h)
  {
    if q !in Bucket(a0.sentencesHt, h) {
      var pid :| pid in upp && pid < |a0.paragraphs| && q in Bucket(a0.paragraphs[pid].sentences, h);
      PrevCandidatesAll(a, upp, h, pid, q);
    }
  }

  lemma SameWords(a0: Arenas, a: Arenas, h: Hash, q: SentenceId)
    requires a0.sentences <= a.sentences && SentenceUnder(a0, q, h)
    ensures WordsOf(a.sentences, q) == WordsOf(a0.sentences, q)
  {
  }

  lemma CandidatesUnder(a0: Arenas, a: Arenas, upp: seq<ParagraphId>, h: Hash)
    requires a0.paragraphs <= a.paragraphs && GoodTables(a0)
    requires forall pid :: pid in upp ==> LiveParagraph(a0, pid)
    ensures forall q :: q in PrevCandidates(a, upp, h) + Bucket(a0.sentencesHt, h) ==> SentenceUnder(a0, q, h)
  {
    PrevCandidatesUnder(a0, a, upp, h);
    hide LiveParagraph, LiveSentence;
  }

  lemma NoSentenceFound(a0: Arenas, a: Arenas, upp: seq<ParagraphId>, m: MatchedSets, h: Hash)
    requires a0.sentences <= a.sentences && a0.paragraphs <= a.paragraphs && GoodTables(a0)
    requires forall pid :: pid in upp ==> LiveParagraph(a0, pid)
    requires FirstFree(PrevCandidates(a, upp, h) + Bucket(a0.sentencesHt, h), SentenceTest(a, m), None)
    ensures SentencesUsedUp(a0, upp, m, h)
  {
    hide PrevCandidates, GoodTables, LiveParagraph, SentenceUnder, Known, WordsOf;
    var cs := PrevCandidates(a, upp, h) + Bucket(a0.sentencesHt, h);
    CandidatesUnder(a0, a, upp, h);
    forall q | Known(a0, upp, h, q) ensures !FreeSentence(a0, m, q) {
      KnownIsCandidate(a0, a, upp, h, q);
      SameWords(a0, a, h, q);
      var i :| 0 <= i < |cs| && cs[i] == q;
      assert !SentenceTest(a, m)(cs[i]);
    }
  }

  /** What a step leaves of the sentences listed as new, and which one it may list. */
  lemma SentStepParts(ops: TextOps, upp: seq<ParagraphId>, pid: ParagraphId, tokens: seq<string>, s: SentState)
    ensures var s', h := SentStep(ops, upp, pid, tokens, s), ops.digest(Join(tokens));
      var cs := PrevCandidates(s.arenas, upp, h) + Bucket(s.arenas.sentencesHt, h);
      var r := ScanSentences(s.arenas, cs, s.matched, s.matchedPrev);
      && s'.matched == r.matched && s.arenas.sentences <= s'.arenas.sentences
      && if r.found.Some? then s'.unmatchedCurr == s.unmatchedCurr
         else
           && |s.arenas.sentences| < |s'.arenas.sentences|
           && s'.unmatchedCurr == s.unmatchedCurr + [|s.arenas.sentences|]
           && s'.arenas.sentences[|s.arenas.sentences|].hashValue == h
  {
    hide ScanSentences, PrevCandidates;
  }

  /** Each sentence takes the first free one with its hash, those of the unmatched previous
      paragraphs in order before those of the table. */
  lemma SentStepTakes(ops: TextOps, upp: seq<ParagraphId>, pid: ParagraphId, tokens: seq<string>, s: SentState)
    ensures var s', text := SentStep(ops, upp, pid, tokens, s), Join(tokens);
      var h := ops.digest(text);
      exists found: Option<nat> :: FirstFree(PrevCandidates(s.arenas, upp, h) + Bucket(s.arenas.sentencesHt, h),
                                             SentenceTest(s.arenas, s.matched), found)
        && s'.arenas == (if found.Some? then AttachSentence(s.arenas, pid, h, found.value)
            else AttachSentence(AllocSentence(s.arenas, h, text), pid, h, |s.arenas.sentences|))
        && s'.unmatchedCurr == s.unmatchedCurr + if found.Some? then [] else [|s.arenas.sentences|]
  {
    hide ScanSentences, AttachSentence, AllocSentence, PrevCandidates, FirstFree;
    var h := ops.digest(Join(tokens));
    TakesFirstFreeSentence(s.arenas, PrevCandidates(s.arenas, upp, h) + Bucket(s.arenas.sentencesHt, h), s.matched,
                           s.matchedPrev);
    assert s.unmatchedCurr + [] == s.unmatchedCurr;
  }

  lemma SentStepNeeds(ops: TextOps, sc: Scene, upp: seq<ParagraphId>, pid: ParagraphId, tokens: seq<string>,
      s: SentState)
    requires GoodTables(sc.a0) && SentInv(sc, s) && NewSentencesNeeded(sc.a0, upp, s)
    requires forall q :: q in upp ==> LiveParagraph(sc.a0, q)
    ensures NewSentencesNeeded(sc.a0, upp, SentStep(ops, upp, pid, tokens, s))
  {
    assert s.arenas.sentencesHt == sc.a0.sentencesHt && sc.a0.sentences <= s.arenas.sentences
        && sc.a0.paragraphs <= s.arenas.paragraphs;
    hide SentInv, GoodTables, LiveParagraph, ScanSentences, FirstFree, SentencesUsedUp, SentStep, PrevCandidates;
    var hash, s' := ops.digest(Join(tokens)), SentStep(ops, upp, pid, tokens, s);
    var cs := PrevCandidates(s.arenas, upp, hash) + Bucket(s.arenas.sentencesHt, hash);
    var r := ScanSentences(s.arenas, cs, s.matched, s.matchedPrev);
    TakesFirstFreeSentence(s.arenas, cs, s.matched, s.matchedPrev);
    SentStepParts(ops, upp, pid, tokens, s);
    forall sid | sid in s'.unmatchedCurr
      ensures sid < |s'.arenas.sentences|
          && SentencesUsedUp(sc.a0, upp, s'.matched, s'.arenas.sentences[sid].hashValue)
    {
      if sid in s.unmatchedCurr {
        SentencesStayUsed(sc.a0, upp, s.matched, s'.matched, s.arenas.sentences[sid].hashValue);
      } else {
        NoSentenceFound(sc.a0, s.arenas, upp, s.matched, hash);
        SentencesStayUsed(sc.a0, upp, s.matched, s'.matched, hash);
      }
    }
  }

  lemma {:induction false} SentLoopNeeds(ops: TextOps, sc: Scene, upp: seq<ParagraphId>, pid: ParagraphId,
      sentences: seq<seq<string>>, s: SentState)
    requires SceneOk(sc) && GoodTables(sc.a0) && SentInv(sc, s) && NewSentencesNeeded(sc.a0, upp, s)
    requires |sc.a0.paragraphs| <= pid < |sc.start| && forall q :: q in upp ==> LiveParagraph(sc.a0, q)
    ensures NewSentencesNeeded(sc.a0, upp, SentLoop(ops, upp, pid, sentences, s))
    decreases |sentences|
  {
    hide SceneOk, GoodTables, SentInv, NewSentencesNeeded, LiveParagraph, SentStep;
    if sentences != [] {
      SentStepKeeps(ops, sc, upp, pid, sentences[0], s);
      SentStepNeeds(ops, sc, upp, pid, sentences[0], s);
      SentLoopNeeds(ops, sc, upp, pid, sentences[1..], SentStep(ops, upp, pid, sentences[0], s));
    }
  }

  lemma {:induction false} SentLoopsNeed(ops: TextOps, sc: Scene, upp: seq<ParagraphId>, pids: seq<ParagraphId>,
      s: SentState)
    requires SceneOk(sc) && GoodTables(sc.a0) && SentInv(sc, s) && NewSentencesNeeded(sc.a0, upp, s)
    requires forall pid :: pid in pids ==> |sc.a0.paragraphs| <= pid < |sc.start|
    requires forall q :: q in upp ==> LiveParagraph(sc.a0, q)
    ensures NewSentencesNeeded(sc.a0, upp, SentLoops(ops, upp, pids, s))
    decreases |pids|
  {
    hide SceneOk, GoodTables, SentInv, NewSentencesNeeded, LiveParagraph, SentLoop;
    if pids != [] {
      assert pids[0] in pids && forall p :: p in pids[1..] ==> p in pids;
      var sentences := Sentences(ops, ValueOf(s.arenas, pids[0]));
      SentLoopKeeps(ops, sc, upp, pids[0], sentences, s);
      SentLoopNeeds(ops, sc, upp, pids[0], sentences, s);
      SentLoopsNeed(ops, sc, upp, pids[1..], SentLoop(ops, upp, pids[0], sentences, s));
    }
  }

  // ----- what the new revision carries over -----

  function Older(ids: seq<nat>, n: nat): seq<nat> {
    if ids == [] then [] else (if ids[0] < n then [ids[0]] else []) + Older(ids[1..], n)
  }

  /** The tokens of the old paragraphs that the new revision reuses whole. */
  ghost function CarriedWhole(a0: Arenas, c: Cascade): set<TokenId> {
    Elems(WordsIn(a0, Older(Pids(c.curr), |a0.paragraphs|)))
  }

  /** The tokens of the old sentences that stand in the new revision. */
  ghost function Carried(a0: Arenas, c: Cascade): set<TokenId> {
    Elems(FlatWords(a0.sentences, Older(FlatSids(c.arenas.paragraphs, Pids(c.curr)), |a0.sentences|)))
  }

  lemma OneParagraph(paragraphs: seq<Paragraph>, pid: ParagraphId)
    ensures FlatSids(paragraphs, [pid]) == SidsOf(paragraphs, pid) && FlatSids(paragraphs, []) == []
  {
    assert [pid][1..] == [];
  }

  lemma {:induction false} FreshParagraphsEmpty(a0: Arenas, a: Arenas, unmatchedCurr: seq<ParagraphId>,
      w: seq<ParagraphId>)
    requires FreshParagraphs(a0, a, unmatchedCurr)
    ensures FlatSids(a.paragraphs, w) == FlatSids(a0.paragraphs, Older(w, |a0.paragraphs|))
  {
    if w == [] {
      assert Older(w, |a0.paragraphs|) == [];
    } else {
      var first, rest := if w[0] < |a0.paragraphs| then [w[0]] else [], Older(w[1..], |a0.paragraphs|);
      FreshParagraphsEmpty(a0, a, unmatchedCurr, w[1..]);
      FlatSidsAppend(a0.paragraphs, first, rest);
      OneParagraph(a0.paragraphs, w[0]);
      assert SidsOf(a.paragraphs, w[0]) == FlatSids(a0.paragraphs, first);
    }
  }

  lemma {:induction false} FreshSentencesEmpty(old_: seq<Sentence>, now: seq<Sentence>, sids: seq<SentenceId>)
    requires old_ <= now && forall i :: |old_| <= i < |now| ==> now[i].words == []
    ensures FlatWords(now, sids) == FlatWords(old_, Older(sids, |old_|))
  {
    if sids == [] {
      assert Older(sids, |old_|) == [];
    } else {
      var first, rest := if sids[0] < |old_| then [sids[0]] else [], Older(sids[1..], |old_|);
      FreshSentencesEmpty(old_, now, sids[1..]);
      FlatWordsAppend(old_, first, rest);
      OneSentence(old_, sids[0]);
      assert FlatWords(old_, []) == [];
      assert WordsOf(now, sids[0]) == FlatWords(old_, first);
    }
  }

  lemma ClaimedWhole(a0: Arenas, curr0: Revision, p: ParaState)
    requires ParaInv(a0, curr0, p)
    ensures p.matched.tokens == Elems(WordsIn(a0, Older(Pids(p.curr), |a0.paragraphs|)))
  {
    var w := Pids(p.curr);
    assert WordsClaimed(WordsIn(p.arenas, w), p.matched.tokens);
    assert FreshParagraphs(a0, p.arenas, p.unmatchedCurr);
    hide ParaInv, FlatWords, Pids, FlatSids, Older;
    FreshParagraphsEmpty(a0, p.arenas, p.unmatchedCurr, w);
  }

  lemma ClaimedSentences(a0: Arenas, p: ParaState, s: SentState)
    requires SentInv(SceneOf(a0, p), s)
    ensures s.matched.tokens
         == Elems(FlatWords(a0.sentences, Older(FlatSids(s.arenas.paragraphs, Pids(p.curr)), |a0.sentences|)))
  {
    var sids := FlatSids(s.arenas.paragraphs, Pids(p.curr));
    assert WordsClaimed(WordsIn(s.arenas, Pids(p.curr)), s.matched.tokens);
    assert FreshSentences(a0, p.arenas.paragraphs, s.arenas, s.unmatchedCurr);
    hide SentInv, FlatWords, Pids, FlatSids, Older, LiveSentence, LiveParagraph;
    FreshSentencesEmpty(a0.sentences, s.arenas.sentences, sids);
  }

  // ----- the levels of one cascade -----

  ghost predicate Levels(a0: Arenas, curr0: Revision, prev: map<Hash, seq<ParagraphId>>, upp: seq<ParagraphId>,
      p: ParaState, s: SentState) {
    && ParaInv(a0, curr0, p) && SceneOk(SceneOf(a0, p)) && SentInv(SceneOf(a0, p), s)
    && NewParagraphsNeeded(a0, prev, p) && NewSentencesNeeded(a0, upp, s)
    && TokensNumbered(s.arenas) && s.arenas.tokens == a0.tokens
  }

  lemma NothingNeededYet(a0: Arenas, prev: map<Hash, seq<ParagraphId>>, curr0: Revision, upp: seq<ParagraphId>,
      p: ParaState)
    ensures NewParagraphsNeeded(a0, prev, ParaState(a0, curr0, MatchedSets({}, {}, {}), [], []))
    ensures NewSentencesNeeded(a0, upp, SentState(p.arenas, p.matched, [], []))
  {
  }

  lemma ParagraphLevel(ops: TextOps, a0: Arenas, text: string, prev: map<Hash, seq<ParagraphId>>,
      prevOrder: seq<Hash>, curr0: Revision)
    requires GoodArenas(a0) && GoodIndex(a0, prev, prevOrder)
    requires curr0.paragraphs == map[] && curr0.orderedParagraphs == []
    ensures var p := AnalyseParagraphs(ops, a0, text, prev, curr0);
      ParaInv(a0, curr0, p) && NewParagraphsNeeded(a0, prev, p) && TokensLogged(a0, p.matchedPrev, [], p.matched.tokens)
  {
    ParaResult(ops, a0, text, prev, prevOrder, curr0);
    IndexLive(a0, prev, prevOrder);
    StartOk(a0, curr0);
    var p0 := ParaState(a0, curr0, MatchedSets({}, {}, {}), [], []);
    NothingNeededYet(a0, prev, curr0, [], p0);
    assert IndexedLive(a0, a0.paragraphsHt);
    hide IndexedLive, ParaInv, NewParagraphsNeeded, ParaLoop;
    ParaLoopNeeds(ops, a0, curr0, prev, Paragraphs(ops, text), p0);
  }

  lemma AllLevels(ops: TextOps, a0: Arenas, text: string, prev: map<Hash, seq<ParagraphId>>,
      prevOrder: seq<Hash>, curr0: Revision)
    requires GoodArenas(a0) && GoodIndex(a0, prev, prevOrder)
    requires curr0.paragraphs == map[] && curr0.orderedParagraphs == []
    ensures var p := AnalyseParagraphs(ops, a0, text, prev, curr0);
      var upp := Unmatched(Walk(prev, prevOrder), p.matched.paragraphs);
      Levels(a0, curr0, prev, upp, p, AnalyseSentences(ops, p.arenas, p.unmatchedCurr, upp, p.matched).0)
  {
    var p, pids := AnalyseParagraphs(ops, a0, text, prev, curr0), Walk(prev, prevOrder);
    var upp := Unmatched(pids, p.matched.paragraphs);
    ParagraphLevel(ops, a0, text, prev, prevOrder, curr0);
    assert (forall pid :: pid in pids ==> LiveParagraph(a0, pid)) && TokensNumbered(a0) && GoodTables(a0);
    assert FreshParagraphs(a0, p.arenas, p.unmatchedCurr);
    UnmatchedFrom(pids, p.matched.paragraphs);
    hide LiveParagraph, ParaInv, SentInv, SceneOk, NewParagraphsNeeded, NewSentencesNeeded, AnalyseParagraphs,
      SentLoops, TokensLogged, GoodArenas, GoodTables, GoodIndex, Walk, Unmatched, OnlyAppended, TokensNumbered;
    SentStart(a0, curr0, p);
    NothingNeededYet(a0, prev, curr0, upp, p);
    var s0 := SentState(p.arenas, p.matched, [], []);
    GoodArenasAre(a0);
    SentencesRan(ops, a0, pids, curr0, p);
    SentLoopsNeed(ops, SceneOf(a0, p), upp, p.unmatchedCurr, s0);
    var s := AnalyseSentences(ops, p.arenas, p.unmatchedCurr, upp, p.matched).0;
    AppendedTokens(a0, s.arenas);
  }

  lemma GoodArenasAre(a0: Arenas)
    requires TokensNumbered(a0) && GoodTables(a0)
    ensures GoodArenas(a0)
  {
  }

  lemma AppendedTokens(a0: Arenas, a: Arenas)
    requires TokensNumbered(a0) && OnlyAppended(a0, a)
    ensures TokensNumbered(a) && a.tokens == a0.tokens
  {
  }

  // ----- what a cascade reuses and adds -----

  /** The previous tokens that the token level has to account for. */
  ghost function LeftTokens(a0: Arenas, c: Cascade): seq<TokenId> {
    Unmatched(FlatWords(a0.sentences, c.unmatchedSentencesPrev), Carried(a0, c))
  }

  /** The words of the new sentences. */
  ghost function NewTokens(c: Cascade): seq<TokenId> {
    FlatWords(c.arenas.sentences, c.unmatchedSentencesCurr)
  }

  /** The transcript of the two. */
  ghost function Script(a0: Arenas, c: Cascade): seq<DiffOp> {
    Compare(Values(a0.tokens, LeftTokens(a0, c)), Values(c.arenas.tokens, NewTokens(c)))
  }

  /** The new sentences hold the tokens that the transcript stands for, and what it does not
      keep is added. */
  ghost predicate ScriptFollowed(a0: Arenas, adds: nat, c: Cascade) {
    && |LeftTokens(a0, c)| == |Old(Script(a0, c))|
    && NewTokens(c) == Followed(Script(a0, c), LeftTokens(a0, c), |a0.tokens|)
    && c.curr.originalAdds + Keeps(Script(a0, c)) == adds + |NewTokens(c)|
  }

  /** A known paragraph with this hash has a word that a reused paragraph has too, or is itself
      accounted for as matched. */
  ghost predicate ParagraphTaken(a0: Arenas, c: Cascade, q: ParagraphId) {
    q in c.matchedParagraphsPrev || exists t :: t in ParaWords(a0, q) && t in CarriedWhole(a0, c)
  }

  ghost predicate SentenceTaken(a0: Arenas, c: Cascade, q: SentenceId) {
    exists t :: t in WordsOf(a0.sentences, q) && t in Carried(a0, c)
  }

  /** Of every hash under which a paragraph was made anew, no known one could be reused. */
  ghost predicate ParagraphsExhausted(a0: Arenas, prev: map<Hash, seq<ParagraphId>>, c: Cascade) {
    forall pid :: pid in c.unmatchedParagraphsCurr ==>
      pid < |c.arenas.paragraphs| &&
      var h := c.arenas.paragraphs[pid].hashValue;
      forall q :: q in Bucket(prev, h) + Bucket(a0.paragraphsHt, h) ==> ParagraphTaken(a0, c, q)
  }

  ghost predicate SentencesExhausted(a0: Arenas, c: Cascade) {
    forall sid :: sid in c.unmatchedSentencesCurr ==>
      sid < |c.arenas.sentences| &&
      forall q :: Known(a0, c.unmatchedParagraphsPrev, c.arenas.sentences[sid].hashValue, q) ==>
        SentenceTaken(a0, c, q)
  }

  /** How the cascade's result sits on the levels. */
  ghost predicate OnLevels(upp: seq<ParagraphId>, p: ParaState, s: SentState, left: seq<SentenceId>, c: Cascade) {
    && c.arenas.paragraphs == s.arenas.paragraphs && SameTexts(s.arenas.sentences, c.arenas.sentences)
    && Pids(c.curr) == Pids(p.curr) && c.matchedParagraphsPrev == p.matchedPrev && c.unmatchedParagraphsPrev == upp
    && c.unmatchedParagraphsCurr == p.unmatchedCurr && c.unmatchedSentencesCurr == s.unmatchedCurr
    && c.unmatchedSentencesPrev == left
  }

  lemma WholeTaken(a0: Arenas, curr0: Revision, prev: map<Hash, seq<ParagraphId>>, p: ParaState, c: Cascade)
    requires ParaInv(a0, curr0, p) && NewParagraphsNeeded(a0, prev, p)
    requires Pids(c.curr) == Pids(p.curr) && c.matchedParagraphsPrev == p.matchedPrev
        && c.unmatchedParagraphsCurr == p.unmatchedCurr && |c.arenas.paragraphs| == |p.arenas.paragraphs|
    requires forall i :: 0 <= i < |p.arenas.paragraphs| ==>
      c.arenas.paragraphs[i].hashValue == p.arenas.paragraphs[i].hashValue
    ensures ParagraphsExhausted(a0, prev, c)
  {
    ClaimedWhole(a0, curr0, p);
    assert Elems(p.matchedPrev) == p.matched.paragraphs;
    hide ParaInv, Pids, WordsIn, ParaWords, Older;
    forall pid, q | pid in c.unmatchedParagraphsCurr &&
        q in Bucket(prev, p.arenas.paragraphs[pid].hashValue)
          + Bucket(a0.paragraphsHt, p.arenas.paragraphs[pid].hashValue)
      ensures ParagraphTaken(a0, c, q)
    {
      assert !FreeParagraph(a0, p.matched, q);
      if q in p.matched.paragraphs {
        assert q in Elems(p.matchedPrev);
      } else {
        var t :| t in Elems(ParaWords(a0, q)) && t in p.matched.tokens;
      }
    }
  }

  lemma PartTaken(a0: Arenas, p: ParaState, s: SentState, upp: seq<ParagraphId>, left: seq<SentenceId>, c: Cascade)
    requires SentInv(SceneOf(a0, p), s) && NewSentencesNeeded(a0, upp, s) && OnLevels(upp, p, s, left, c)
    ensures SentencesExhausted(a0, c)
  {
    ClaimedSentences(a0, p, s);
    assert Covers(a0, s.matched);
    hide SentInv, Pids, FlatSids, FlatWords, Older, LiveParagraph, ParaWords;
    forall sid, q | sid in c.unmatchedSentencesCurr && Known(a0, upp, s.arenas.sentences[sid].hashValue, q)
      ensures SentenceTaken(a0, c, q)
    {
      assert !FreeSentence(a0, s.matched, q);
      if q in s.matched.sentences {
        assert LiveSentence(a0, q);
        var t := WordsOf(a0.sentences, q)[0];
        assert t in Elems(WordsOf(a0.sentences, q));
      } else {
        var t :| t in Elems(WordsOf(a0.sentences, q)) && t in s.matched.tokens;
      }
    }
  }

  lemma ScriptIs(a0: Arenas, adds: nat, c: Cascade, ids: seq<TokenId>, text: seq<string>, ops: seq<DiffOp>)
    requires ids == LeftTokens(a0, c) && text == Values(c.arenas.tokens, NewTokens(c))
    requires ops == Compare(Values(a0.tokens, ids), text) && |ids| == |Old(ops)|
    requires NewTokens(c) == Followed(ops, ids, |a0.tokens|) && c.curr.originalAdds + Keeps(ops) == adds + |text|
    ensures ScriptFollowed(a0, adds, c)
  {
    hide LeftTokens, NewTokens, Compare, Old, Keeps, Followed, Values;
    ValuesLength(c.arenas.tokens, NewTokens(c));
  }

  /** What the token level leaves to it, and what it is given. */
  ghost predicate WordsReady(a0: Arenas, p: ParaState, s: SentState, left: seq<SentenceId>) {
    && TokensNumbered(s.arenas) && s.arenas.tokens == a0.tokens
    && NoDup(s.unmatchedCurr) && s.matched.tokens
        == Elems(FlatWords(a0.sentences, Older(FlatSids(s.arenas.paragraphs, Pids(p.curr)), |a0.sentences|)))
    && (forall sid :: sid in s.unmatchedCurr ==> sid < |s.arenas.sentences| && s.arenas.sentences[sid].words == [])
    && FlatWords(s.arenas.sentences, left) == FlatWords(a0.sentences, left)
    && (forall x :: x in FlatWords(a0.sentences, left) ==> x < |a0.tokens|)
  }

  /** The token level changes neither paragraphs nor texts. */
  lemma WordsOnLevels(a0: Arenas, upp: seq<ParagraphId>, p: ParaState, s: SentState, t: Tail)
    requires WordsReady(a0, p, s, t.unmatchedPrev)
    requires var c := AfterSentences(p, upp, s, t);
      !c.vandalism ==> NoDup(FlatWords(a0.sentences, t.unmatchedPrev))
    ensures var c := AfterSentences(p, upp, s, t); OnLevels(upp, p, s, t.unmatchedPrev, c)
  {
    var c := AfterSentences(p, upp, s, t);
    hide FlatWords, FlatSids, Compare, Followed, Values, TokensNumbered, NoDup, Unmatched, Old, Keeps, CurrText, Older,
      PossibleVandalism, Pids, AnalyseWords;
    SamePids(p.curr, c.curr);
    if s.unmatchedCurr != [] {
      var possible := PossibleVandalism(|p.unmatchedCurr|, |p.curr.orderedParagraphs|);
      if c.vandalism {
        GivesUp(s.arenas, p.curr.id, s.unmatchedCurr, t.unmatchedPrev, possible, s.matched.tokens);
      } else {
        TokensFollow(s.arenas, p.curr.id, s.unmatchedCurr, t.unmatchedPrev, possible, s.matched.tokens);
      }
    }
  }

  /** And it follows its transcript. */
  lemma WordsFollowed(a0: Arenas, upp: seq<ParagraphId>, p: ParaState, s: SentState, t: Tail)
    requires WordsReady(a0, p, s, t.unmatchedPrev)
    requires var c := AfterSentences(p, upp, s, t);
      !c.vandalism && NoDup(FlatWords(a0.sentences, t.unmatchedPrev))
    ensures ScriptFollowed(a0, p.curr.originalAdds, AfterSentences(p, upp, s, t))
  {
    var c := AfterSentences(p, upp, s, t);
    WordsOnLevels(a0, upp, p, s, t);
    hide FlatWords, FlatSids, Compare, Followed, Values, TokensNumbered, NoDup, Unmatched, Old, Keeps, CurrText, Older,
      PossibleVandalism, Pids, AnalyseWords, SameTexts;
    if s.unmatchedCurr == [] {
      NothingNew(a0, p.curr.originalAdds, c);
    } else {
      var possible := PossibleVandalism(|p.unmatchedCurr|, |p.curr.orderedParagraphs|);
      TokensFollow(s.arenas, p.curr.id, s.unmatchedCurr, t.unmatchedPrev, possible, s.matched.tokens);
      var ids := Unmatched(FlatWords(s.arenas.sentences, t.unmatchedPrev), s.matched.tokens);
      var text := CurrText(s.arenas, s.unmatchedCurr);
      ScriptIs(a0, p.curr.originalAdds, c, ids, text, Compare(Values(a0.tokens, ids), text));
    }
  }

  lemma {:induction false} ValuesLength(tokens: seq<Word>, ids: seq<TokenId>)
    ensures |Values(tokens, ids)| == |ids|
  {
    if ids != [] { ValuesLength(tokens, ids[1..]); }
  }

  lemma SamePids(rev: Revision, rev': Revision)
    requires rev'.paragraphs == rev.paragraphs && rev'.orderedParagraphs == rev.orderedParagraphs
    ensures Pids(rev') == Pids(rev)
  {
  }

  /** A token level that gives up has changed nothing. */
  lemma GivesUp(a: Arenas, rev: RevId, unmatchedCurr: seq<SentenceId>, unmatchedPrev: seq<SentenceId>,
      possible: bool, matched: set<TokenId>)
    requires AnalyseWords(a, rev, unmatchedCurr, unmatchedPrev, possible, matched).vandalism
    ensures AnalyseWords(a, rev, unmatchedCurr, unmatchedPrev, possible, matched).arenas == a
  {
    hide CurrText, AvgWordFreq, WordLoops, Unmatched, FlatWords, Values, Compare;
  }

  lemma LeftBounded(a0: Arenas, a: Arenas, left: seq<SentenceId>)
    requires a0.sentences <= a.sentences && a.tokens == a0.tokens
    requires forall sid :: sid in left ==> LiveSentence(a0, sid)
    ensures FlatWords(a.sentences, left) == FlatWords(a0.sentences, left)
    ensures forall t :: t in FlatWords(a.sentences, left) ==> t < |a.tokens|
  {
    FlatWordsFrame(a0.sentences, a.sentences, left);
    forall t | t in FlatWords(a0.sentences, left) ensures t < |a.tokens| {
      FlatWordsFrom(a0.sentences, left, t);
      var sid :| sid in left && t in WordsOf(a0.sentences, sid);
      assert LiveSentence(a0, sid);
    }
  }

  lemma NothingNew(a0: Arenas, adds: nat, c: Cascade)
    requires c.unmatchedSentencesCurr == [] && c.curr.originalAdds == adds
    requires forall t :: t in FlatWords(a0.sentences, c.unmatchedSentencesPrev) ==> t < |a0.tokens|
    ensures ScriptFollowed(a0, adds, c)
  {
    hide Compare, Unmatched, Carried, FlatWords, Values, Old, New, Followed, Keeps, NewTokens;
    var ids := LeftTokens(a0, c);
    UnmatchedFrom(FlatWords(a0.sentences, c.unmatchedSentencesPrev), Carried(a0, c));
    NoNewTokens(c);
    ValuesKnown(a0, ids);
    CompareSpells(Values(a0.tokens, ids), []);
    NothingFollows(Script(a0, c), ids, |a0.tokens|);
  }

  lemma NoNewTokens(c: Cascade)
    requires c.unmatchedSentencesCurr == []
    ensures NewTokens(c) == [] && Values(c.arenas.tokens, NewTokens(c)) == []
  {
  }

  lemma ReadyForWords(a0: Arenas, p: ParaState, s: SentState, left: seq<SentenceId>)
    requires SentInv(SceneOf(a0, p), s) && TokensNumbered(s.arenas) && s.arenas.tokens == a0.tokens
    requires forall sid :: sid in left ==> LiveSentence(a0, sid)
    ensures WordsReady(a0, p, s, left)
  {
    SentOnlyAppends(SceneOf(a0, p), s);
    ClaimedSentences(a0, p, s);
    assert a0.sentences <= s.arenas.sentences;
    LeftBounded(a0, s.arenas, left);
    hide SentInv, LiveSentence, FlatWords, FlatSids, Older, NoDup, TokensNumbered, Pids;
  }

  lemma LevelsTaken(a0: Arenas, curr0: Revision, prev: map<Hash, seq<ParagraphId>>, upp: seq<ParagraphId>,
      p: ParaState, s: SentState, left: seq<SentenceId>, c: Cascade)
    requires Levels(a0, curr0, prev, upp, p, s) && OnLevels(upp, p, s, left, c)
    ensures ParagraphsExhausted(a0, prev, c) && SentencesExhausted(a0, c)
  {
    assert FreshSentences(a0, p.arenas.paragraphs, s.arenas, s.unmatchedCurr);
    hide ParaInv, SceneOk, SentInv, NewParagraphsNeeded, NewSentencesNeeded, TokensNumbered, SameTexts, Pids;
    WholeTaken(a0, curr0, prev, p, c);
    PartTaken(a0, p, s, upp, left, c);
  }

  lemma LeftoversLive(a0: Arenas, curr0: Revision, pids: seq<ParagraphId>, p: ParaState, s: SentState)
    requires SentInv(SceneOf(a0, p), s) && forall pid :: pid in pids ==> LiveParagraph(a0, pid)
    ensures var upp := Unmatched(pids, p.matched.paragraphs);
      forall sid :: sid in TailOf(StageAt(a0, curr0, p, s, [], []), upp).unmatchedPrev ==> LiveSentence(a0, sid)
  {
    hide SentInv, LiveParagraph, LiveSentence, TailOf, Unmatched;
    var st := StageAt(a0, curr0, p, s, [], []);
    TailFacts(st, pids);
    var t := TailOf(st, UnmatchedPrevOf(st, pids));
    forall sid | sid in t.unmatchedPrev ensures LiveSentence(a0, sid) {
      assert sid in Elems(t.unmatchedPrev);
      assert sid in Elems(t.matchedPrev);
    }
  }

  lemma OutWalkApart(a0: Arenas, pids: seq<ParagraphId>, curr0: Revision, c: Cascade)
    requires CascadeOk(a0, pids, curr0, c)
    ensures NoDup(FlatWords(a0.sentences, c.unmatchedSentencesPrev))
    ensures c.curr.originalAdds + |a0.tokens| == curr0.originalAdds + |c.arenas.tokens|
  {
    assert WalksOk(a0, c) && NoDup(OutWalk(a0, c));
  }

  lemma AfterReuse(a0: Arenas, curr0: Revision, prev: map<Hash, seq<ParagraphId>>, pids: seq<ParagraphId>,
      p: ParaState, s: SentState)
    requires var upp := Unmatched(pids, p.matched.paragraphs);
      var c := AfterSentences(p, upp, s, TailOf(StageAt(a0, curr0, p, s, [], []), upp));
      Levels(a0, curr0, prev, upp, p, s) && (!c.vandalism ==> CascadeOk(a0, pids, curr0, c))
    requires forall pid :: pid in pids ==> LiveParagraph(a0, pid)
    ensures var upp := Unmatched(pids, p.matched.paragraphs);
      var c := AfterSentences(p, upp, s, TailOf(StageAt(a0, curr0, p, s, [], []), upp));
      && ParagraphsExhausted(a0, prev, c) && SentencesExhausted(a0, c)
      && (!c.vandalism ==> ScriptFollowed(a0, curr0.originalAdds, c))
      && OnLevels(upp, p, s, TailOf(StageAt(a0, curr0, p, s, [], []), upp).unmatchedPrev, c)
  {
    var upp := Unmatched(pids, p.matched.paragraphs);
    var t := TailOf(StageAt(a0, curr0, p, s, [], []), upp);
    var c := AfterSentences(p, upp, s, t);
    AddsKept(a0, curr0, p);
    hide ParaInv, SceneOk, SentInv, NewParagraphsNeeded, NewSentencesNeeded, TokensNumbered, LiveParagraph,
      LiveSentence, CascadeOk, WordsReady, AnalyseWords, TailOf, ScriptFollowed, ParagraphsExhausted,
      SentencesExhausted, OnLevels, FlatWords, NoDup, Unmatched;
    LeftoversLive(a0, curr0, pids, p, s);
    ReadyForWords(a0, p, s, t.unmatchedPrev);
    if !c.vandalism {
      OutWalkApart(a0, pids, curr0, c);
      LeftIs(p, upp, s, t);
      WordsFollowed(a0, upp, p, s, t);
    }
    WordsOnLevels(a0, upp, p, s, t);
    LevelsTaken(a0, curr0, prev, upp, p, s, t.unmatchedPrev, c);
  }

  lemma LeftIs(p: ParaState, upp: seq<ParagraphId>, s: SentState, t: Tail)
    ensures AfterSentences(p, upp, s, t).unmatchedSentencesPrev == t.unmatchedPrev
  {
    hide AnalyseWords;
  }

  /** A cascade makes a paragraph or sentence anew only where no known one with its hash is
      left to reuse, and unless it gives up, the words of the new sentences are those of the
      transcript against the previous words left over: each kept one is its own previous
      token, and so the tokens added are the words less the kept ones. */
  lemma CascadeReuse(ops: TextOps, a0: Arenas, text: string, prev: map<Hash, seq<ParagraphId>>,
      prevOrder: seq<Hash>, curr0: Revision)
    requires GoodArenas(a0) && GoodIndex(a0, prev, prevOrder)
    requires curr0.paragraphs == map[] && curr0.orderedParagraphs == []
    ensures var c := DetermineAuthorship(ops, a0, text, prev, prevOrder, curr0);
      && ParagraphsExhausted(a0, prev, c) && SentencesExhausted(a0, c)
      && (!c.vandalism ==>
            && ScriptFollowed(a0, curr0.originalAdds, c)
            && |c.arenas.tokens| + Keeps(Script(a0, c)) == |a0.tokens| + |NewTokens(c)|)
  {
    var pids := Walk(prev, prevOrder);
    assert forall pid :: pid in pids ==> LiveParagraph(a0, pid);
    hide GoodArenas, GoodIndex, LiveParagraph, ParaInv, Levels, AnalyseParagraphs, AnalyseSentences, CascadeOk,
      OnlyAppended, Walk, Unmatched, AnalyseWords, ScriptFollowed, ParagraphsExhausted, SentencesExhausted, TailOf;
    CascadeTheorem(ops, a0, text, prev, prevOrder, curr0);
    var p := AnalyseParagraphs(ops, a0, text, prev, curr0);
    var c := DetermineAuthorship(ops, a0, text, prev, prevOrder, curr0);
    var upp := Unmatched(pids, p.matched.paragraphs);
    if p.unmatchedCurr == [] {
      ParagraphLevel(ops, a0, text, prev, prevOrder, curr0);
      NothingReused(a0, curr0, prev, pids, p, c);
    } else {
      AllLevels(ops, a0, text, prev, prevOrder, curr0);
      var s := AnalyseSentences(ops, p.arenas, p.unmatchedCurr, upp, p.matched).0;
      TailIs(ops, a0, curr0, p, upp, s);
      AfterReuse(a0, curr0, prev, pids, p, s);
    }
    if !c.vandalism {
      OutWalkApart(a0, pids, curr0, c);
      assert ScriptFollowed(a0, curr0.originalAdds, c);
      AddsAgree(a0, curr0.originalAdds, c);
    }
  }

  lemma AddsAgree(a0: Arenas, adds: nat, c: Cascade)
    requires ScriptFollowed(a0, adds, c)
    ensures c.curr.originalAdds + Keeps(Script(a0, c)) == adds + |NewTokens(c)|
  {
  }

  lemma TailIs(ops: TextOps, a0: Arenas, curr0: Revision, p: ParaState, upp: seq<ParagraphId>, s: SentState)
    requires s == AnalyseSentences(ops, p.arenas, p.unmatchedCurr, upp, p.matched).0
    ensures AnalyseSentences(ops, p.arenas, p.unmatchedCurr, upp, p.matched).1
         == TailOf(StageAt(a0, curr0, p, s, [], []), upp)
  {
    hide SentLoops, TailLoop;
  }

  lemma NothingReused(a0: Arenas, curr0: Revision, prev: map<Hash, seq<ParagraphId>>, pids: seq<ParagraphId>,
      p: ParaState, c: Cascade)
    requires ParaInv(a0, curr0, p) && p.unmatchedCurr == []
    requires c == Cascade(p.arenas, p.curr, p.matched.tokens, p.matchedPrev, Unmatched(pids, p.matched.paragraphs),
        [], [], [], [], false)
    ensures ParagraphsExhausted(a0, prev, c) && SentencesExhausted(a0, c) && ScriptFollowed(a0, curr0.originalAdds, c)
  {
    hide ParaInv, ScriptFollowed, FlatWords, Unmatched, Known, ParagraphTaken;
    AddsKept(a0, curr0, p);
    NoText(a0);
    NothingNew(a0, curr0.originalAdds, c);
  }

  lemma AddsKept(a0: Arenas, curr0: Revision, p: ParaState)
    requires ParaInv(a0, curr0, p)
    ensures p.curr.originalAdds == curr0.originalAdds
  {
    assert CurrIndexed(p.arenas, curr0, p.curr);
  }
}
