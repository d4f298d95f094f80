/** What a flagged revision leaves in the arenas is never reached again: everything a later
    revision can reach goes through the two hash tables. */
module Orphans {
  import opened Wrappers
  import opened Seqs
  import opened Buckets
  import opened TextOps
  import opened Structures
  import opened DifferSpec
  import opened CascadeSpec
  import opened CascadeShape
  import opened SentenceLevel
  import opened WordLevel
  import opened Accounting
  import opened History
  import opened Runs

  /** The node is an entry of some bucket of its hash table. */
  ghost predicate TabledPara(a: Arenas, pid: ParagraphId) { InBuckets(a.paragraphsHt, pid) }
  ghost predicate TabledSent(a: Arenas, sid: SentenceId) { InBuckets(a.sentencesHt, sid) }

  /** Stored revisions hold tabled paragraphs, and tabled paragraphs hold tabled sentences. */
  ghost predicate AllTabled(st: ArticleState) {
    && (forall r, pid: ParagraphId :: r in st.revisions && pid in Pids(st.revisions[r]) ==> TabledPara(st.arenas, pid))
    && (forall pid: ParagraphId, sid: SentenceId ::
          TabledPara(st.arenas, pid) && sid in SidsOf(st.arenas.paragraphs, pid) ==> TabledSent(st.arenas, sid))
  }

  // ----- paragraphs are taken from the candidates -----

  lemma {:induction false} ScanTakesCandidate(a: Arenas, cs: seq<ParagraphId>, m: MatchedSets, log: seq<ParagraphId>)
    ensures var r := ScanParagraphs(a, cs, m, log); r.found.Some? ==> r.found.value in cs
  {
    if cs != [] {
      var words := Elems(ParaWords(a, cs[0]));
      if cs[0] in m.paragraphs {
        ScanTakesCandidate(a, cs[1..], m, log);
      } else if words !! m.tokens {
      } else if words <= m.tokens {
        ScanTakesCandidate(a, cs[1..], m.(paragraphs := m.paragraphs + {cs[0]}), log + [cs[0]]);
      } else {
        ScanTakesCandidate(a, cs[1..], m, log);
      }
    }
  }

  ghost predicate PlacedTabled(a0: Arenas, prev: map<Hash, seq<ParagraphId>>, curr: Revision) {
    && Aligned(curr.paragraphs, curr.orderedParagraphs)
    && forall pid: ParagraphId :: pid in Pids(curr) && pid < |a0.paragraphs|
        ==> InBuckets(prev, pid) || TabledPara(a0, pid)
  }

  lemma BucketMember(m: map<Hash, seq<nat>>, h: Hash, id: nat)
    requires id in Bucket(m, h)
    ensures InBuckets(m, id)
  {
  }

  lemma {:induction false} ParaLoopTabled(ops: TextOps, a0: Arenas, prev: map<Hash, seq<ParagraphId>>,
      texts: seq<string>, s: ParaState)
    requires s.arenas.paragraphsHt == a0.paragraphsHt && |a0.paragraphs| <= |s.arenas.paragraphs|
    requires PlacedTabled(a0, prev, s.curr)
    ensures PlacedTabled(a0, prev, ParaLoop(ops, prev, texts, s).curr)
    decreases |texts|
  {
    hide ScanParagraphs, Walk, Aligned, InBuckets;
    if texts != [] {
      var hash := ops.digest(texts[0]);
      var cs := Bucket(prev, hash) + Bucket(s.arenas.paragraphsHt, hash);
      ScanTakesCandidate(s.arenas, cs, s.matched, s.matchedPrev);
      var r := ScanParagraphs(s.arenas, cs, s.matched, s.matchedPrev);
      var pid := if r.found.Some? then r.found.value else |s.arenas.paragraphs|;
      AddParagraphExtends(s.curr, hash, pid);
      if r.found.Some? {
        if pid in Bucket(prev, hash) {
          BucketMember(prev, hash, pid);
        } else {
          BucketMember(a0.paragraphsHt, hash, pid);
        }
      }
      ParaLoopTabled(ops, a0, prev, texts[1..], ParaStep(ops, prev, texts[0], s));
    }
  }

  // ----- sentences are taken from the candidates -----

  lemma {:induction false} ScanTakesSentence(a: Arenas, cs: seq<SentenceId>, m: MatchedSets, log: seq<SentenceId>)
    ensures var r := ScanSentences(a, cs, m, log); r.found.Some? ==> r.found.value in cs
  {
    if cs != [] {
      var words := Elems(WordsOf(a.sentences, cs[0]));
      if cs[0] in m.sentences {
        ScanTakesSentence(a, cs[1..], m, log);
      } else if words !! m.tokens {
      } else if words <= m.tokens {
        ScanTakesSentence(a, cs[1..], m.(sentences := m.sentences + {cs[0]}), log + [cs[0]]);
      } else {
        ScanTakesSentence(a, cs[1..], m, log);
      }
    }
  }

  /** The sentences that `upp` or the sentence table offers. */
  ghost predicate Offered(a0: Arenas, upp: seq<ParagraphId>, sid: SentenceId) {
    TabledSent(a0, sid) || exists q :: q in upp && q < |a0.paragraphs| && InBuckets(a0.paragraphs[q].sentences, sid)
  }

  lemma {:induction false} PrevCandidatesOffered(a0: Arenas, a: Arenas, all: seq<ParagraphId>, upp: seq<ParagraphId>,
      h: Hash)
    requires a0.paragraphs <= a.paragraphs
    requires forall q :: q in upp ==> q in all && q < |a0.paragraphs|
    ensures forall sid :: sid in PrevCandidates(a, upp, h) ==> Offered(a0, all, sid)
  {
    if upp != [] {
      assert upp[0] in upp && forall q :: q in upp[1..] ==> q in upp;
      assert a.paragraphs[upp[0]] == a0.paragraphs[upp[0]];
      PrevCandidatesOffered(a0, a, all, upp[1..], h);
      forall sid | sid in Bucket(a0.paragraphs[upp[0]].sentences, h) ensures Offered(a0, all, sid) {
        BucketMember(a0.paragraphs[upp[0]].sentences, h, sid);
      }
    }
  }

  ghost predicate FilledFromOffer(a0: Arenas, upp: seq<ParagraphId>, a: Arenas) {
    && a0.paragraphs <= a.paragraphs && a.sentencesHt == a0.sentencesHt && |a0.sentences| <= |a.sentences|
    && (forall pid :: |a0.paragraphs| <= pid < |a.paragraphs| ==>
          Aligned(a.paragraphs[pid].sentences, a.paragraphs[pid].orderedSentences))
    && (forall pid, sid: SentenceId ::
      |a0.paragraphs| <= pid < |a.paragraphs| && sid in SidsOf(a.paragraphs, pid) && sid < |a0.sentences| ==>
          Offered(a0, upp, sid))
  }

  lemma SentStepOffered(ops: TextOps, a0: Arenas, upp: seq<ParagraphId>, pid: ParagraphId, tokens: seq<string>,
      s: SentState)
    requires FilledFromOffer(a0, upp, s.arenas) && |a0.paragraphs| <= pid < |s.arenas.paragraphs|
    requires forall q :: q in upp ==> q < |a0.paragraphs|
    ensures FilledFromOffer(a0, upp, SentStep(ops, upp, pid, tokens, s).arenas)
    ensures |SentStep(ops, upp, pid, tokens, s).arenas.paragraphs| == |s.arenas.paragraphs|
  {
    var hash := ops.digest(Join(tokens));
    var cs := PrevCandidates(s.arenas, upp, hash) + Bucket(s.arenas.sentencesHt, hash);
    ScanTakesSentence(s.arenas, cs, s.matched, s.matchedPrev);
    PrevCandidatesOffered(a0, s.arenas, upp, upp, hash);
    var r := ScanSentences(s.arenas, cs, s.matched, s.matchedPrev);
    var a := if r.found.Some? then s.arenas else AllocSentence(s.arenas, hash, Join(tokens));
    var sid := if r.found.Some? then r.found.value else |s.arenas.sentences|;
    if r.found.Some? && sid in Bucket(s.arenas.sentencesHt, hash) {
      BucketMember(s.arenas.sentencesHt, hash, sid);
    }
    assert sid < |a0.sentences| ==> Offered(a0, upp, sid);
    assert SentStep(ops, upp, pid, tokens, s).arenas == AttachSentence(a, pid, hash, sid);
    hide ScanSentences, PrevCandidates, Offered, SentStep, Walk, Aligned;
    AttachOffered(a0, upp, a, pid, hash, sid);
  }

  lemma AttachOffered(a0: Arenas, upp: seq<ParagraphId>, a: Arenas, pid: ParagraphId, hash: Hash, sid: SentenceId)
    requires FilledFromOffer(a0, upp, a) && |a0.paragraphs| <= pid < |a.paragraphs|
    requires sid < |a0.sentences| ==> Offered(a0, upp, sid)
    ensures FilledFromOffer(a0, upp, AttachSentence(a, pid, hash, sid))
  {
    AttachSids(a, pid, hash, sid);
    var b := AttachSentence(a, pid, hash, sid);
    assert forall q :: 0 <= q < |a.paragraphs| && q != pid ==> b.paragraphs[q] == a.paragraphs[q];
    hide Walk, Aligned, Offered, Push, SidsOf;
  }

  lemma {:induction false} SentLoopOffered(ops: TextOps, a0: Arenas, upp: seq<ParagraphId>, pid: ParagraphId,
      sentences: seq<seq<string>>, s: SentState)
    requires FilledFromOffer(a0, upp, s.arenas) && |a0.paragraphs| <= pid < |s.arenas.paragraphs|
    requires forall q :: q in upp ==> q < |a0.paragraphs|
    ensures FilledFromOffer(a0, upp, SentLoop(ops, upp, pid, sentences, s).arenas)
    ensures |SentLoop(ops, upp, pid, sentences, s).arenas.paragraphs| == |s.arenas.paragraphs|
    decreases |sentences|
  {
    hide SentStep, FilledFromOffer;
    if sentences != [] {
      SentStepOffered(ops, a0, upp, pid, sentences[0], s);
      SentLoopOffered(ops, a0, upp, pid, sentences[1..], SentStep(ops, upp, pid, sentences[0], s));
    }
  }

  lemma {:induction false} SentLoopsOffered(ops: TextOps, a0: Arenas, upp: seq<ParagraphId>, pids: seq<ParagraphId>,
      s: SentState)
    requires FilledFromOffer(a0, upp, s.arenas)
    requires forall pid :: pid in pids ==> |a0.paragraphs| <= pid < |s.arenas.paragraphs|
    requires forall q :: q in upp ==> q < |a0.paragraphs|
    ensures FilledFromOffer(a0, upp, SentLoops(ops, upp, pids, s).arenas)
    decreases |pids|
  {
    hide SentLoop, FilledFromOffer;
    if pids != [] {
      assert pids[0] in pids && forall q :: q in pids[1..] ==> q in pids;
      var sentences := Sentences(ops, ValueOf(s.arenas, pids[0]));
      SentLoopOffered(ops, a0, upp, pids[0], sentences, s);
      SentLoopsOffered(ops, a0, upp, pids[1..], SentLoop(ops, upp, pids[0], sentences, s));
    }
  }

  // ----- the token level does not touch paragraphs -----

  lemma {:induction false} ScanDiffParagraphs(pw: PrevWords, rev: RevId, sid: SentenceId, word: string, pos: nat,
      w: WordState)
    ensures ScanDiff(pw, rev, sid, word, pos, w).0.arenas.paragraphs == w.arenas.paragraphs
    decreases |w.entries| - pos
  {
    if pos < |w.entries| {
      var e := w.entries[pos];
      ScanDiffParagraphs(pw, rev, sid, word, pos + 1, w);
      var found := FindUnmatchedPrev(pw, word, w.matched, 0);
      if found.Some? {
        var wid := pw.ids[found.value];
        ScanDiffParagraphs(pw, rev, sid, word, pos + 1,
          w.(arenas := PushOutbound(w.arenas, wid, rev), matched := w.matched + {wid},
              entries := w.entries[pos := e.(consumed := true)]));
      }
    }
  }

  lemma {:induction false} WordLoopParagraphs(pw: PrevWords, rev: RevId, sid: SentenceId, words: seq<string>,
      w: WordState)
    ensures WordLoop(pw, rev, sid, words, w).arenas.paragraphs == w.arenas.paragraphs
    decreases |words|
  {
    if words != [] {
      ScanDiffParagraphs(pw, rev, sid, words[0], 0, w);
      WordLoopParagraphs(pw, rev, sid, words[1..], WordStep(pw, rev, sid, words[0], w));
    }
  }

  lemma {:induction false} WordLoopsParagraphs(pw: PrevWords, rev: RevId, sids: seq<SentenceId>, w: WordState)
    ensures WordLoops(pw, rev, sids, w).arenas.paragraphs == w.arenas.paragraphs
    decreases |sids|
  {
    if sids != [] {
      var words := SplitSpace(SentenceValue(w.arenas, sids[0]));
      hide WordLoop, SplitSpace;
      WordLoopParagraphs(pw, rev, sids[0], words, w);
      WordLoopsParagraphs(pw, rev, sids[1..], WordLoop(pw, rev, sids[0], words, w));
    }
  }

  lemma AfterSentencesParagraphs(p: ParaState, upp: seq<ParagraphId>, s: SentState, t: Tail)
    ensures AfterSentences(p, upp, s, t).arenas.paragraphs == s.arenas.paragraphs
    ensures Pids(AfterSentences(p, upp, s, t).curr) == Pids(p.curr)
  {
    hide WordLoops, AvgWordFreq, CurrText, Unmatched, FlatWords, Compare, Entries, Values, Walk, PossibleVandalism;
    var ids := Unmatched(FlatWords(s.arenas.sentences, t.unmatchedPrev), s.matched.tokens);
    var pw := PrevWords(ids, Values(s.arenas.tokens, ids));
    var entries := if ids == [] then [] else Entries(Compare(pw.values, CurrText(s.arenas, s.unmatchedCurr)));
    WordLoopsParagraphs(pw, p.curr.id, s.unmatchedCurr, WordState(s.arenas, 0, s.matched.tokens, entries));
  }

  // ----- one step -----

  lemma FreshIsFilled(a0: Arenas, upp: seq<ParagraphId>, a: Arenas, unmatchedCurr: seq<ParagraphId>)
    requires FreshParagraphs(a0, a, unmatchedCurr)
    ensures FilledFromOffer(a0, upp, a)
    ensures forall pid :: pid in unmatchedCurr ==> |a0.paragraphs| <= pid < |a.paragraphs|
  {
    forall pid | |a0.paragraphs| <= pid < |a.paragraphs| ensures SidsOf(a.paragraphs, pid) == [] {}
  }

  /** What the new revision reuses was tabled before the step. */
  ghost predicate ReusesTabled(a0: Arenas, c: Cascade) {
    && (forall pid: ParagraphId :: pid in Pids(c.curr) && pid < |a0.paragraphs| ==> TabledPara(a0, pid))
    && (forall pid, sid: SentenceId ::
          |a0.paragraphs| <= pid < |c.arenas.paragraphs| && sid in SidsOf(c.arenas.paragraphs, pid)
              && sid < |a0.sentences| ==>
          TabledSent(a0, sid))
  }

  lemma OfferedTabled(a0: Arenas, upp: seq<ParagraphId>, sid: SentenceId)
    requires Offered(a0, upp, sid)
    requires forall q :: q in upp ==> TabledPara(a0, q) && LiveParagraph(a0, q)
    requires
      forall pid: ParagraphId, s: SentenceId :: TabledPara(a0, pid) && s in SidsOf(a0.paragraphs, pid)
        ==> TabledSent(a0, s)
    ensures TabledSent(a0, sid)
  {
    if exists q :: q in upp && q < |a0.paragraphs| && InBuckets(a0.paragraphs[q].sentences, sid) {
      var q :| q in upp && q < |a0.paragraphs| && InBuckets(a0.paragraphs[q].sentences, sid);
      AlignedMembers(a0.paragraphs[q].sentences, a0.paragraphs[q].orderedSentences, sid);
    }
  }

  lemma CascadeReuses(ops: TextOps, a0: Arenas, text: string, prev: map<Hash, seq<ParagraphId>>, prevOrder: seq<Hash>,
      curr0: Revision)
    requires GoodArenas(a0) && GoodIndex(a0, prev, prevOrder)
    requires curr0.paragraphs == map[] && curr0.orderedParagraphs == []
    requires forall pid: ParagraphId :: pid in Walk(prev, prevOrder) ==> TabledPara(a0, pid)
    requires
      forall pid: ParagraphId, s: SentenceId :: TabledPara(a0, pid) && s in SidsOf(a0.paragraphs, pid)
        ==> TabledSent(a0, s)
    ensures ReusesTabled(a0, DetermineAuthorship(ops, a0, text, prev, prevOrder, curr0))
  {
    var pids := Walk(prev, prevOrder);
    assert Aligned(prev, prevOrder) && forall pid :: pid in pids ==> LiveParagraph(a0, pid);
    hide GoodArenas, GoodIndex, LiveParagraph, ParaInv, AfterSentences, SentLoops, ParaLoop, Walk, Aligned,
      InBuckets, TabledPara, TabledSent, Unmatched, TailLoop, FlatSids, SidsOf, FilledFromOffer, FreshParagraphs,
      Pids, TokensLogged, AnalyseSentences, AnalyseParagraphs, ReusesTabled;
    ParaResult(ops, a0, text, prev, prevOrder, curr0);
    var p := AnalyseParagraphs(ops, a0, text, prev, curr0);
    ParaFreshParagraphs(a0, curr0, p);
    ParagraphsReuse(ops, a0, text, prev, prevOrder, curr0);
    var upp := Unmatched(pids, p.matched.paragraphs);
    UnmatchedFrom(pids, p.matched.paragraphs);
    forall q | q in upp ensures q < |a0.paragraphs| { LiveParagraphIn(a0, q); }
    FreshIsFilled(a0, upp, p.arenas, p.unmatchedCurr);
    FreshTables(a0, p.arenas, p.unmatchedCurr);
    if p.unmatchedCurr == [] {
      FilledReuses(a0, upp, p.arenas);
      NothingUnmatchedReuses(ops, a0, text, prev, prevOrder, curr0);
    } else {
      SentencesReuse(ops, a0, p, upp);
    }
  }

  lemma FreshTables(a0: Arenas, a: Arenas, unmatchedCurr: seq<ParagraphId>)
    requires FreshParagraphs(a0, a, unmatchedCurr)
    ensures a.sentencesHt == a0.sentencesHt
  {
  }

  lemma NothingUnmatchedReuses(ops: TextOps, a0: Arenas, text: string, prev: map<Hash, seq<ParagraphId>>,
      prevOrder: seq<Hash>, curr0: Revision)
    requires var p := AnalyseParagraphs(ops, a0, text, prev, curr0);
      && p.unmatchedCurr == []
      && (forall pid: ParagraphId :: pid in Pids(p.curr) && pid < |a0.paragraphs| ==> TabledPara(a0, pid))
      && (forall pid, sid: SentenceId ::
            |a0.paragraphs| <= pid < |p.arenas.paragraphs| && sid in SidsOf(p.arenas.paragraphs, pid)
                && sid < |a0.sentences| ==>
            TabledSent(a0, sid))
    ensures ReusesTabled(a0, DetermineAuthorship(ops, a0, text, prev, prevOrder, curr0))
  {
    hide AnalyseParagraphs, Pids, TabledPara, TabledSent, SidsOf, AfterSentences, AnalyseSentences;
  }

  lemma ParagraphsReuse(ops: TextOps, a0: Arenas, text: string, prev: map<Hash, seq<ParagraphId>>,
      prevOrder: seq<Hash>, curr0: Revision)
    requires Aligned(prev, prevOrder) && curr0.paragraphs == map[] && curr0.orderedParagraphs == []
    requires forall pid: ParagraphId :: pid in Walk(prev, prevOrder) ==> TabledPara(a0, pid)
    ensures var p := AnalyseParagraphs(ops, a0, text, prev, curr0);
      forall pid: ParagraphId :: pid in Pids(p.curr) && pid < |a0.paragraphs| ==> TabledPara(a0, pid)
  {
    hide ParaLoop, Walk, Aligned, InBuckets, TabledPara, Pids;
    EmptyPlaced(a0, prev, curr0);
    ParaLoopTabled(ops, a0, prev, Paragraphs(ops, text), ParaState(a0, curr0, MatchedSets({}, {}, {}), [], []));
    var p := AnalyseParagraphs(ops, a0, text, prev, curr0);
    forall pid: ParagraphId | pid in Pids(p.curr) && pid < |a0.paragraphs| ensures TabledPara(a0, pid) {
      if InBuckets(prev, pid) { AlignedMembers(prev, prevOrder, pid); }
    }
  }

  lemma SentencesReuse(ops: TextOps, a0: Arenas, p: ParaState, upp: seq<ParagraphId>)
    requires FilledFromOffer(a0, upp, p.arenas) && p.arenas.sentencesHt == a0.sentencesHt
    requires forall pid :: pid in p.unmatchedCurr ==> |a0.paragraphs| <= pid < |p.arenas.paragraphs|
    requires forall q :: q in upp ==> q < |a0.paragraphs| && TabledPara(a0, q) && LiveParagraph(a0, q)
    requires
      forall pid: ParagraphId, s: SentenceId :: TabledPara(a0, pid) && s in SidsOf(a0.paragraphs, pid)
        ==> TabledSent(a0, s)
    requires forall pid: ParagraphId :: pid in Pids(p.curr) && pid < |a0.paragraphs| ==> TabledPara(a0, pid)
    ensures var (s, t) := AnalyseSentences(ops, p.arenas, p.unmatchedCurr, upp, p.matched);
      ReusesTabled(a0, AfterSentences(p, upp, s, t))
  {
    hide LiveParagraph, AfterSentences, SentLoops, TabledPara, TabledSent, TailLoop, FlatSids, SidsOf,
      FilledFromOffer, Pids;
    var s := SentLoops(ops, upp, p.unmatchedCurr, SentState(p.arenas, p.matched, [], []));
    SentLoopsOffered(ops, a0, upp, p.unmatchedCurr, SentState(p.arenas, p.matched, [], []));
    FilledReuses(a0, upp, s.arenas);
    AfterSentencesParagraphs(p, upp, s, TailLoop(FlatSids(s.arenas.paragraphs, upp),
        Tail(s.matched.sentences, [], s.matchedPrev)));
  }

  lemma ParaFreshParagraphs(a0: Arenas, curr0: Revision, p: ParaState)
    requires ParaInv(a0, curr0, p)
    ensures FreshParagraphs(a0, p.arenas, p.unmatchedCurr)
  {
  }

  lemma EmptyPlaced(a0: Arenas, prev: map<Hash, seq<ParagraphId>>, curr0: Revision)
    requires curr0.paragraphs == map[] && curr0.orderedParagraphs == []
    ensures PlacedTabled(a0, prev, curr0)
  {
  }

  lemma FilledReuses(a0: Arenas, upp: seq<ParagraphId>, a: Arenas)
    requires FilledFromOffer(a0, upp, a)
    requires forall q :: q in upp ==> TabledPara(a0, q) && LiveParagraph(a0, q)
    requires
      forall pid: ParagraphId, s: SentenceId :: TabledPara(a0, pid) && s in SidsOf(a0.paragraphs, pid)
        ==> TabledSent(a0, s)
    ensures forall pid, sid: SentenceId ::
      |a0.paragraphs| <= pid < |a.paragraphs| && sid in SidsOf(a.paragraphs, pid) && sid < |a0.sentences| ==>
        TabledSent(a0, sid)
  {
    hide LiveParagraph, TabledPara, TabledSent, Offered;
    forall pid, sid: SentenceId | |a0.paragraphs| <= pid < |a.paragraphs| && sid in SidsOf(a.paragraphs, pid)
        && sid < |a0.sentences|
      ensures TabledSent(a0, sid)
    {
      OfferedTabled(a0, upp, sid);
    }
  }

  // ----- committing tables the new nodes and keeps the old entries -----

  lemma PushInBuckets(m: map<Hash, seq<nat>>, h: Hash, id: nat, x: nat)
    ensures InBuckets(Push(m, h, id), x) <==> InBuckets(m, x) || x == id
  {
    var m' := Push(m, h, id);
    if InBuckets(m, x) {
      var g :| g in m && x in m[g];
      assert g in m' && x in m'[g];
    }
    assert h in m' && id in m'[h];
  }

  lemma {:induction false} CommitParagraphsTables(a: Arenas, pids: seq<ParagraphId>, x: ParagraphId)
    requires forall pid :: pid in pids ==> pid < |a.paragraphs|
    ensures TabledPara(CommitParagraphs(a, pids), x) <==> TabledPara(a, x) || x in pids
    ensures CommitParagraphs(a, pids).sentencesHt == a.sentencesHt && CommitParagraphs(a, pids).sentences == a.sentences
    decreases |pids|
  {
    if pids != [] {
      assert pids[0] in pids && forall q :: q in pids[1..] ==> q in pids;
      var p := a.paragraphs[pids[0]];
      PushInBuckets(a.paragraphsHt, p.hashValue, pids[0], x);
      hide InBuckets, Push;
      CommitParagraphsTables(a.(paragraphsHt := Push(a.paragraphsHt, p.hashValue, pids[0]),
                                paragraphs := a.paragraphs[pids[0] := p.(value := "")]), pids[1..], x);
    }
  }

  lemma {:induction false} CommitSentencesTables(a: Arenas, sids: seq<SentenceId>, x: SentenceId)
    requires forall sid :: sid in sids ==> sid < |a.sentences|
    ensures TabledSent(CommitSentences(a, sids), x) <==> TabledSent(a, x) || x in sids
    ensures CommitSentences(a, sids).paragraphsHt == a.paragraphsHt
    decreases |sids|
  {
    if sids != [] {
      assert sids[0] in sids && forall q :: q in sids[1..] ==> q in sids;
      var s := a.sentences[sids[0]];
      PushInBuckets(a.sentencesHt, s.hashValue, sids[0], x);
      hide InBuckets, Push;
      CommitSentencesTables(a.(sentencesHt := Push(a.sentencesHt, s.hashValue, sids[0]),
                               sentences := a.sentences[sids[0] := s.(value := "")]), sids[1..], x);
    }
  }

  lemma CommitTables(c: Cascade, prevRev: RevId, rev: RevId)
    requires forall pid :: pid in c.unmatchedParagraphsCurr ==> pid < |c.arenas.paragraphs|
    requires forall sid :: sid in c.unmatchedSentencesCurr ==> sid < |c.arenas.sentences|
    ensures var a := CommitArenas(c, prevRev, rev);
      && (forall x: ParagraphId :: TabledPara(a, x) <==> TabledPara(c.arenas, x) || x in c.unmatchedParagraphsCurr)
      && (forall x: SentenceId :: TabledSent(a, x) <==> TabledSent(c.arenas, x) || x in c.unmatchedSentencesCurr)
  {
    var r := RecordInboundOutbound(c, prevRev, rev);
    RecordOnlyTokens(c, prevRev, rev);
    hide RecordInboundOutbound, CommitParagraphs, CommitSentences;
    var b := CommitParagraphs(r, c.unmatchedParagraphsCurr);
    CommitParagraphsTables(r, c.unmatchedParagraphsCurr, 0);
    var a := CommitSentences(b, c.unmatchedSentencesCurr);
    forall x: ParagraphId ensures TabledPara(a, x) <==> TabledPara(c.arenas, x) || x in c.unmatchedParagraphsCurr {
      CommitParagraphsTables(r, c.unmatchedParagraphsCurr, x);
      CommitSentencesTables(b, c.unmatchedSentencesCurr, 0);
    }
    forall x: SentenceId ensures TabledSent(a, x) <==> TabledSent(c.arenas, x) || x in c.unmatchedSentencesCurr {
      CommitSentencesTables(b, c.unmatchedSentencesCurr, x);
    }
  }

  // ----- runs -----

  lemma PrevTabled(st: ArticleState)
    requires AllTabled(st)
    ensures var prev := PrevRevision(st);
      forall pid: ParagraphId :: pid in Walk(prev.paragraphs, prev.orderedParagraphs) ==> TabledPara(st.arenas, pid)
  {
    hide InBuckets;
    var prev := PrevRevision(st);
    if st.lastGoodRevId in st.revisions {
      assert Pids(prev) == Walk(prev.paragraphs, prev.orderedParagraphs);
    } else {
      assert Walk(NO_REVISION.paragraphs, NO_REVISION.orderedParagraphs) == [];
    }
  }

  lemma StepReuses(ops: TextOps, st: ArticleState, input: RevisionInput)
    requires GoodState(st) && AllTabled(st)
    ensures ReusesTabled(st.arenas, CascadeOf(ops, st, input))
  {
    hide GoodIndex, GoodArenas, HistoryOk, Walk, GoodRevisions, TabledPara, TabledSent, ReusesTabled,
      DetermineAuthorship, Pids, SidsOf;
    var prev := PrevRevision(st);
    PrevFacts(st);
    PrevTabled(st);
    CascadeReuses(ops, st.arenas, ops.lower(input.text), prev.paragraphs, prev.orderedParagraphs, FreshRevision(input));
  }

  lemma TabledIsOld(a: Arenas, pid: ParagraphId)
    requires GoodTables(a) && TabledPara(a, pid)
    ensures LiveParagraph(a, pid)
  {
    hide LiveParagraph, LiveSentence;
    var h :| h in a.paragraphsHt && pid in a.paragraphsHt[h];
    assert ParagraphUnder(a, pid, h);
  }

  lemma SidBounded(a: Arenas, pid: ParagraphId, sid: SentenceId)
    requires LiveParagraph(a, pid) && sid in SidsOf(a.paragraphs, pid)
    ensures sid < |a.sentences|
  {
  }

  lemma IndexPid(a: Arenas, rev: Revision, pid: ParagraphId)
    requires GoodIndex(a, rev.paragraphs, rev.orderedParagraphs) && pid in Pids(rev)
    ensures pid < |a.paragraphs|
  {
    hide Walk, Aligned, WordsIn, HashedBy;
    LiveParagraphIn(a, pid);
  }

  lemma TabledAfter(a0: Arenas, prev: seq<ParagraphId>, curr0: Revision, c: Cascade, a: Arenas)
    requires GoodTables(a0) && CascadeOk(a0, prev, curr0, c) && ReusesTabled(a0, c) && Extends(c.arenas, a)
    requires
      forall pid: ParagraphId, s: SentenceId :: TabledPara(a0, pid) && s in SidsOf(a0.paragraphs, pid)
        ==> TabledSent(a0, s)
    requires forall x: ParagraphId :: TabledPara(a, x) <==> TabledPara(c.arenas, x) || x in c.unmatchedParagraphsCurr
    requires forall x: SentenceId :: TabledSent(a, x) <==> TabledSent(c.arenas, x) || x in c.unmatchedSentencesCurr
    ensures forall pid: ParagraphId :: pid in Pids(c.curr) ==> TabledPara(a, pid)
    ensures
      forall pid: ParagraphId, s: SentenceId :: TabledPara(a, pid) && s in SidsOf(a.paragraphs, pid)
        ==> TabledSent(a, s)
  {
    CascadeParts(a0, prev, curr0, c);
    SameTables(a0, c.arenas);
    FrozenSids(a0, c.arenas);
    hide CascadeOk, GoodTables, LiveParagraph, LiveSentence, GoodIndex, TabledPara, TabledSent, Frozen, Extends,
      SidsOf, Pids, TokensNumbered;
    forall pid: ParagraphId | pid in Pids(c.curr) ensures TabledPara(a, pid) {
      if pid >= |a0.paragraphs| {
        IndexPid(c.arenas, c.curr, pid);
        RangeMember(c.unmatchedParagraphsCurr, |a0.paragraphs|, pid);
      }
    }
    forall pid: ParagraphId, s: SentenceId | TabledPara(a, pid) && s in SidsOf(a.paragraphs, pid)
        ensures TabledSent(a, s) {
      if pid in c.unmatchedParagraphsCurr {
        var i :| 0 <= i < |c.unmatchedParagraphsCurr| && c.unmatchedParagraphsCurr[i] == pid;
        SidsExtend(c.arenas, a, pid);
        SidBounded(c.arenas, pid, s);
        if s >= |a0.sentences| {
          RangeMember(c.unmatchedSentencesCurr, |a0.sentences|, s);
        }
      } else {
        TabledIsOld(a0, pid);
        LiveParagraphIn(a0, pid);
        SidsExtend(c.arenas, a, pid);
      }
    }
  }

  lemma SameTables(a0: Arenas, a: Arenas)
    requires Frozen(a0, a)
    ensures forall x: ParagraphId :: TabledPara(a, x) <==> TabledPara(a0, x)
    ensures forall x: SentenceId :: TabledSent(a, x) <==> TabledSent(a0, x)
  {
  }

  lemma FrozenSids(a0: Arenas, a: Arenas)
    requires Frozen(a0, a)
    ensures |a0.paragraphs| <= |a.paragraphs|
    ensures forall pid :: 0 <= pid < |a0.paragraphs| ==> SidsOf(a.paragraphs, pid) == SidsOf(a0.paragraphs, pid)
  {
    hide Walk;
  }

  /** A stored step: everything the new revision reaches is tabled afterwards. */
  lemma StoredTabled(ops: TextOps, st: ArticleState, input: RevisionInput)
    requires GoodState(st) && AllTabled(st) && input.revId !in st.orderedRevisions
    requires AnalyseRevision(ops, st, input).1 == Stored
    ensures AllTabled(Step(ops, st, input))
  {
    hide CascadeOf, LengthShrinks, Walk, Pids, CascadeOk, CommitArenas, TabledPara, TabledSent, Extends, NotYetOut,
      RevTokens, Snapshots, HistoryOk, SidsOf, GoodTables, TokensNumbered, ReusesTabled, TablesGrow, GoodRevisions;
    var st', c, prev := Step(ops, st, input), CascadeOf(ops, st, input), PrevRevision(st);
    var pids, curr0 := Walk(prev.paragraphs, prev.orderedParagraphs), FreshRevision(input);
    StepIsCommit(ops, st, input);
    GoodIsShaped(st);
    CascadeRuns(ops, st, input);
    StepReuses(ops, st, input);
    PrevFacts(st);
    SnapshotsDistinct(st);
    RecordsNotYetOut(Snapshots(st), st.arenas.tokens, input.revId);
    CommitShape(st.arenas, pids, curr0, c, prev.id);
    NewInRange(st.arenas, pids, curr0, c);
    CommitTables(c, prev.id, input.revId);
    TabledAfter(st.arenas, pids, curr0, c, st'.arenas);
    forall r, pid: ParagraphId | r in st'.revisions && pid in Pids(st'.revisions[r])
        ensures TabledPara(st'.arenas, pid) {
      if r != input.revId {
        assert TabledPara(st.arenas, pid);
      }
    }
  }

  lemma StepIsCommit(ops: TextOps, st: ArticleState, input: RevisionInput)
    requires AnalyseRevision(ops, st, input).1 == Stored
    ensures var c := CascadeOf(ops, st, input);
      && !c.vandalism
      && Step(ops, st, input).arenas == CommitArenas(c, PrevRevision(st).id, input.revId)
      && Step(ops, st, input).revisions == st.revisions[input.revId := c.curr]
  {
    hide CascadeOf, LengthShrinks, RecordInboundOutbound, CommitParagraphs, CommitSentences;
  }

  lemma NewInRange(a0: Arenas, prev: seq<ParagraphId>, curr0: Revision, c: Cascade)
    requires CascadeOk(a0, prev, curr0, c)
    ensures forall pid :: pid in c.unmatchedParagraphsCurr ==> pid < |c.arenas.paragraphs|
    ensures forall sid :: sid in c.unmatchedSentencesCurr ==> sid < |c.arenas.sentences|
    ensures forall x: ParagraphId :: TabledPara(c.arenas, x) <==> TabledPara(a0, x)
    ensures forall x: SentenceId :: TabledSent(c.arenas, x) <==> TabledSent(a0, x)
  {
    hide CascadeOk, GoodIndex, NewNodesLive, TokensNumbered, Frozen, TabledPara, TabledSent;
    CascadeParts(a0, prev, curr0, c);
    SameTables(a0, c.arenas);
  }

  lemma FlaggedTabled(st: ArticleState, st': ArticleState, rev: RevId)
    requires GoodState(st) && AllTabled(st) && Invisible(st, st', rev)
    ensures AllTabled(st')
  {
    SameTables(st.arenas, st'.arenas);
    FrozenSids(st.arenas, st'.arenas);
    assert GoodTables(st.arenas);
    hide GoodState, Shaped, Frozen, Pids, TabledPara, TabledSent, SidsOf, GoodTables, LiveParagraph;
    forall pid: ParagraphId, sid: SentenceId | TabledPara(st'.arenas, pid) && sid in SidsOf(st'.arenas.paragraphs, pid)
      ensures TabledSent(st'.arenas, sid)
    {
      TabledIsOld(st.arenas, pid);
      LiveParagraphIn(st.arenas, pid);
    }
  }

  lemma StepTabled(ops: TextOps, st: ArticleState, input: RevisionInput)
    requires GoodState(st) && AllTabled(st) && input.revId !in st.orderedRevisions
    ensures AllTabled(Step(ops, st, input))
  {
    hide GoodState, Shaped, AllTabled, AnalyseRevision, Invisible;
    if AnalyseRevision(ops, st, input).1 == Stored {
      StoredTabled(ops, st, input);
    } else {
      VandalismStep(ops, st, input);
      FlaggedTabled(st, Step(ops, st, input), input.revId);
    }
  }

  lemma {:induction false} RunTabled(ops: TextOps, st: ArticleState, inputs: seq<RevisionInput>)
    requires GoodState(st) && AllTabled(st) && Feedable(ops, st, inputs)
    ensures AllTabled(Run(ops, st, inputs))
    decreases |inputs|
  {
    hide GoodState, Shaped, AllTabled, AnalyseRevision;
    if inputs != [] {
      StepKeepsGood(ops, st, inputs[0]);
      StepTabled(ops, st, inputs[0]);
      RunTabled(ops, Step(ops, st, inputs[0]), inputs[1..]);
    }
  }

  /** Once out of the tables, an allocated node stays out. */
  lemma StepKeepsOut(ops: TextOps, st: ArticleState, input: RevisionInput, pid: ParagraphId, sid: SentenceId)
    requires GoodState(st) && input.revId !in st.orderedRevisions
    ensures pid < |st.arenas.paragraphs| && !TabledPara(st.arenas, pid) ==>
      pid < |Step(ops, st, input).arenas.paragraphs| && !TabledPara(Step(ops, st, input).arenas, pid)
    ensures sid < |st.arenas.sentences| && !TabledSent(st.arenas, sid) ==>
      sid < |Step(ops, st, input).arenas.sentences| && !TabledSent(Step(ops, st, input).arenas, sid)
  {
    hide GoodState, Shaped, AnalyseRevision, TabledPara, TabledSent, Extends, TablesGrow, Snapshots;
    var st' := Step(ops, st, input);
    if AnalyseRevision(ops, st, input).1 == Stored {
      StoredStep(ops, st, input);
      GrowKeepsOut(st.arenas, st'.arenas, pid, sid);
    } else {
      VandalismStep(ops, st, input);
      SameTables(st.arenas, st'.arenas);
    }
  }

  lemma GrowKeepsOut(a0: Arenas, a: Arenas, pid: ParagraphId, sid: SentenceId)
    requires TablesGrow(a0, a)
    ensures |a0.paragraphs| <= |a.paragraphs| && |a0.sentences| <= |a.sentences|
    ensures pid < |a0.paragraphs| && TabledPara(a, pid) ==> TabledPara(a0, pid)
    ensures sid < |a0.sentences| && TabledSent(a, sid) ==> TabledSent(a0, sid)
  {
    if pid < |a0.paragraphs| && TabledPara(a, pid) {
      var h :| h in a.paragraphsHt && pid in a.paragraphsHt[h];
      assert pid in Bucket(a.paragraphsHt, h);
      assert ParagraphEntry(a0, a, h, pid);
      BucketMember(a0.paragraphsHt, h, pid);
    }
    if sid < |a0.sentences| && TabledSent(a, sid) {
      var h :| h in a.sentencesHt && sid in a.sentencesHt[h];
      assert sid in Bucket(a.sentencesHt, h);
      assert SentenceEntry(a0, a, h, sid);
      BucketMember(a0.sentencesHt, h, sid);
    }
  }

  lemma {:induction false} RunKeepsOut(ops: TextOps, st: ArticleState, inputs: seq<RevisionInput>, pid: ParagraphId,
      sid: SentenceId)
    requires GoodState(st) && Feedable(ops, st, inputs)
    ensures pid < |st.arenas.paragraphs| && !TabledPara(st.arenas, pid)
        ==> !TabledPara(Run(ops, st, inputs).arenas, pid)
    ensures sid < |st.arenas.sentences| && !TabledSent(st.arenas, sid) ==> !TabledSent(Run(ops, st, inputs).arenas, sid)
    decreases |inputs|
  {
    hide GoodState, Shaped, AnalyseRevision, TabledPara, TabledSent;
    if inputs != [] {
      StepKeepsGood(ops, st, inputs[0]);
      StepKeepsOut(ops, st, inputs[0], pid, sid);
      RunKeepsOut(ops, Step(ops, st, inputs[0]), inputs[1..], pid, sid);
    }
  }

  /** A node that a step appended. */
  ghost predicate Orphaned(before: nat, id: nat, after: nat) {
    before <= id < after
  }

  ghost predicate ParagraphUnreachable(st: ArticleState, pid: ParagraphId) {
    !TabledPara(st.arenas, pid) && forall r :: r in st.revisions ==> pid !in Pids(st.revisions[r])
  }

  ghost predicate SentenceUnreachable(st: ArticleState, sid: SentenceId) {
    !TabledSent(st.arenas, sid) &&
      forall r :: r in st.revisions ==> sid !in FlatSids(st.arenas.paragraphs, Pids(st.revisions[r]))
  }

  /** The paragraphs and sentences a flagged revision left behind are never reachable from a
      hash table or a stored revision, however the run goes on. */
  lemma FlaggedStayUnreachable(ops: TextOps, st: ArticleState, input: RevisionInput, more: seq<RevisionInput>)
    requires GoodState(st) && AllTabled(st) && AnalyseRevision(ops, st, input).1 != Stored
    requires Feedable(ops, Step(ops, st, input), more)
    ensures forall pid: ParagraphId :: Orphaned(|st.arenas.paragraphs|, pid,
        |Step(ops, st, input).arenas.paragraphs|) ==>
      ParagraphUnreachable(Run(ops, Step(ops, st, input), more), pid)
    ensures forall sid: SentenceId :: Orphaned(|st.arenas.sentences|, sid, |Step(ops, st, input).arenas.sentences|) ==>
      SentenceUnreachable(Run(ops, Step(ops, st, input), more), sid)
  {
    hide GoodState, Shaped, AnalyseRevision, Extends, Snapshots, Run, Feedable, GoodTables, LiveParagraph,
      LiveSentence, Pids, AllTabled, InBuckets;
    var st1 := Step(ops, st, input);
    var later := Run(ops, st1, more);
    GoodHasTables(st);
    VandalismStep(ops, st, input);
    FlaggedTabled(st, st1, input.revId);
    RunTabled(ops, st1, more);
    SameTables(st.arenas, st1.arenas);
    OnlyTabledReached(later);
    forall pid: ParagraphId | Orphaned(|st.arenas.paragraphs|, pid, |st1.arenas.paragraphs|)
        ensures ParagraphUnreachable(later, pid) {
      if TabledPara(st.arenas, pid) { TabledIsOld(st.arenas, pid); LiveParagraphIn(st.arenas, pid); }
      RunKeepsOut(ops, st1, more, pid, 0);
    }
    forall sid: SentenceId | Orphaned(|st.arenas.sentences|, sid, |st1.arenas.sentences|)
        ensures SentenceUnreachable(later, sid) {
      if TabledSent(st.arenas, sid) { TabledSentIsOld(st.arenas, sid); }
      RunKeepsOut(ops, st1, more, 0, sid);
    }
  }

  lemma GoodHasTables(st: ArticleState)
    requires GoodState(st)
    ensures GoodTables(st.arenas)
  {
  }

  lemma TabledSentIsOld(a: Arenas, sid: SentenceId)
    requires GoodTables(a) && TabledSent(a, sid)
    ensures sid < |a.sentences|
  {
    hide LiveParagraph;
    var h :| h in a.sentencesHt && sid in a.sentencesHt[h];
    assert SentenceUnder(a, sid, h);
  }

  lemma OnlyTabledReached(st: ArticleState)
    requires AllTabled(st)
    ensures
      forall r, pid: ParagraphId :: r in st.revisions && pid in Pids(st.revisions[r]) ==> TabledPara(st.arenas, pid)
    ensures forall r, sid: SentenceId ::
      r in st.revisions && sid in FlatSids(st.arenas.paragraphs, Pids(st.revisions[r])) ==> TabledSent(st.arenas, sid)
  {
    hide Pids, TabledPara, TabledSent, SidsOf;
    forall r, sid: SentenceId | r in st.revisions && sid in FlatSids(st.arenas.paragraphs, Pids(st.revisions[r]))
      ensures TabledSent(st.arenas, sid)
    {
      FlatSidsFrom(st.arenas.paragraphs, Pids(st.revisions[r]), sid);
      var pid :| pid in Pids(st.revisions[r]) && sid in SidsOf(st.arenas.paragraphs, pid);
    }
  }
}
