/** Resuming from disk simulates the uninterrupted run: saving and loading at any points of
    a run changes nothing but the pinned token sequences, which stay equal to the walks. */
module Resume {
  import opened Wrappers
  import opened Seqs
  import opened Buckets
  import opened TextOps
  import opened Structures
  import opened CascadeSpec
  import opened CascadeShape
  import opened SentenceLevel
  import opened WordLevel
  import opened Accounting
  import opened History
  import opened Orphans
  import opened Runs
  import opened Interning
  import opened Stored
  import opened Persistence

  // ----- the step does not look at overrides -----

  lemma CascadeKeepsOverride(ops: TextOps, st: ArticleState, input: RevisionInput)
    requires GoodState(st) && !CascadeOf(ops, st, input).vandalism
    ensures CascadeOf(ops, st, input).curr.tokenSequenceOverride == None
  {
    GoodIsShaped(st);
    CascadeRuns(ops, st, input);
    hide GoodState, Shaped, CascadeOf, NewNodesLive, GoodIndex, Frozen, TokenRecords, Accounted, WalksOk, RevTokens;
  }

  lemma UnsealedInputs(ops: TextOps, st: ArticleState, input: RevisionInput)
    ensures CascadeOf(ops, Unsealed(st), input) == CascadeOf(ops, st, input)
    ensures PrevRevision(Unsealed(st)).id == PrevRevision(st).id
        && PrevRevision(Unsealed(st)).length == PrevRevision(st).length
  {
    hide DetermineAuthorship;
  }

  lemma StepUnsealed(ops: TextOps, st: ArticleState, input: RevisionInput)
    requires GoodState(st)
    ensures AnalyseRevision(ops, Unsealed(st), input).1 == AnalyseRevision(ops, st, input).1
    ensures Step(ops, Unsealed(st), input) == Unsealed(Step(ops, st, input))
  {
    hide GoodState, Shaped, CascadeOf, LengthShrinks, CommitParagraphs, CommitSentences, RecordInboundOutbound;
    UnsealedInputs(ops, st, input);
    if AnalyseRevision(ops, st, input).1 == Stored {
      CascadeKeepsOverride(ops, st, input);
      var c := CascadeOf(ops, st, input);
      assert Commit(Unsealed(st), input, c).revisions == Unsealed(Commit(st, input, c)).revisions;
    }
  }

  // ----- what is savable stays savable -----

  lemma FreshParagraphsAligned(a0: Arenas, a: Arenas, unmatchedCurr: seq<ParagraphId>)
    requires ArenaAligned(a0) && FreshParagraphs(a0, a, unmatchedCurr)
    ensures ArenaAligned(a)
  {
    hide CountsUp;
    forall pid | 0 <= pid < |a.paragraphs| ensures Aligned(a.paragraphs[pid].sentences,
        a.paragraphs[pid].orderedSentences) {
      if pid < |a0.paragraphs| { assert a.paragraphs[pid] == a0.paragraphs[pid]; }
    }
  }

  lemma FilledParagraphsAligned(sc: Scene, s: SentState)
    requires ArenaAligned(sc.a0) && SentInv(sc, s)
    ensures ArenaAligned(s.arenas)
  {
    hide Covers, TokensLogged, WordsClaimed, FreshOnce, HashesAgree, LiveSentence, Walk;
    forall pid | 0 <= pid < |s.arenas.paragraphs|
      ensures Aligned(s.arenas.paragraphs[pid].sentences, s.arenas.paragraphs[pid].orderedSentences)
    {
      if pid < |sc.a0.paragraphs| {
        assert s.arenas.paragraphs[pid] == sc.a0.paragraphs[pid];
      } else {
        assert Filling(sc.a0, s.arenas, pid);
      }
    }
  }

  lemma CascadeAligned(ops: TextOps, a0: Arenas, text: string, prev: map<Hash, seq<ParagraphId>>,
      prevOrder: seq<Hash>, curr0: Revision)
    requires GoodArenas(a0) && GoodIndex(a0, prev, prevOrder) && ArenaAligned(a0)
    requires curr0.paragraphs == map[] && curr0.orderedParagraphs == []
    ensures ArenaAligned(DetermineAuthorship(ops, a0, text, prev, prevOrder, curr0).arenas)
  {
    var pids := Walk(prev, prevOrder);
    assert forall pid :: pid in pids ==> LiveParagraph(a0, pid);
    hide GoodArenas, GoodIndex, LiveParagraph, ParaInv, SentInv, AfterSentences, AnalyseParagraphs, AnalyseSentences,
      Walk, SceneOk, OnlyAppended, TokensLogged, Unmatched;
    ParaResult(ops, a0, text, prev, prevOrder, curr0);
    var p := AnalyseParagraphs(ops, a0, text, prev, curr0);
    ParaFreshParagraphs(a0, curr0, p);
    FreshParagraphsAligned(a0, p.arenas, p.unmatchedCurr);
    if p.unmatchedCurr != [] {
      var upp := Unmatched(pids, p.matched.paragraphs);
      SentencesRan(ops, a0, pids, curr0, p);
      var (s, t) := AnalyseSentences(ops, p.arenas, p.unmatchedCurr, upp, p.matched);
      FilledParagraphsAligned(SceneOf(a0, p), s);
      AfterSentencesParagraphs(p, upp, s, t);
      assert ArenaAligned(AfterSentences(p, upp, s, t).arenas);
    }
  }

  lemma CommitAligned(c: Cascade, prevRev: RevId, rev: RevId)
    requires ArenaAligned(c.arenas)
    requires forall pid :: pid in c.unmatchedParagraphsCurr ==> pid < |c.arenas.paragraphs|
    requires forall sid :: sid in c.unmatchedSentencesCurr ==> sid < |c.arenas.sentences|
    ensures ArenaAligned(CommitArenas(c, prevRev, rev))
  {
    hide RecordInboundOutbound, CommitParagraphs, CommitSentences, Aligned;
    RecordOnlyTokens(c, prevRev, rev);
    var r := RecordInboundOutbound(c, prevRev, rev);
    CommitParagraphsFacts(r, c.unmatchedParagraphsCurr);
    CommitSentencesFacts(CommitParagraphs(r, c.unmatchedParagraphsCurr), c.unmatchedSentencesCurr);
  }

  lemma CascadeOfAligned(ops: TextOps, st: ArticleState, input: RevisionInput)
    requires GoodState(st) && ArenaAligned(st.arenas)
    ensures ArenaAligned(CascadeOf(ops, st, input).arenas)
  {
    PrevFacts(st);
    hide GoodArenas, GoodIndex, Walk, ArenaAligned, DetermineAuthorship, HistoryOk, GoodRevisions;
    var prev := PrevRevision(st);
    CascadeAligned(ops, st.arenas, ops.lower(input.text), prev.paragraphs, prev.orderedParagraphs,
        FreshRevision(input));
  }

  lemma NotStoredArenas(ops: TextOps, st: ArticleState, input: RevisionInput)
    requires AnalyseRevision(ops, st, input).1 != Stored
    ensures Step(ops, st, input).arenas == st.arenas || Step(ops, st, input).arenas == CascadeOf(ops, st, input).arenas
  {
    hide CascadeOf, LengthShrinks, Commit;
  }

  lemma StepAligned(ops: TextOps, st: ArticleState, input: RevisionInput)
    requires GoodState(st) && ArenaAligned(st.arenas)
    ensures ArenaAligned(Step(ops, st, input).arenas)
  {
    hide GoodState, Shaped, CascadeOk, CascadeOf, ArenaAligned, AnalyseRevision, Step, CommitArenas, OnlyAppended,
      Walk;
    var c, prev := CascadeOf(ops, st, input), PrevRevision(st);
    GoodIsShaped(st);
    CascadeRuns(ops, st, input);
    CascadeOfAligned(ops, st, input);
    if AnalyseRevision(ops, st, input).1 == Stored {
      StepIsCommit(ops, st, input);
      NewInRange(st.arenas, Walk(prev.paragraphs, prev.orderedParagraphs), FreshRevision(input), c);
      CommitAligned(c, prev.id, input.revId);
    } else {
      NotStoredArenas(ops, st, input);
    }
  }

  lemma StepFaithful(ops: TextOps, st: ArticleState, input: RevisionInput)
    requires GoodState(st) && OverridesFaithful(st) && input.revId !in st.orderedRevisions
    ensures OverridesFaithful(Step(ops, st, input))
  {
    var st' := Step(ops, st, input);
    StepKeepsGood(ops, st, input);
    GoodHistory(st);
    hide GoodState, Shaped, GoodIndex, TokensAt, HistoryOk, Extends, AnalyseRevision, NoDup;
    StepRevisions(ops, st, input);
    forall r | r in st'.revisions
      ensures st'.revisions[r].tokenSequenceOverride.None?
          || st'.revisions[r].tokenSequenceOverride == Some(TokensAt(st', r))
    {
      if r in st.revisions && st'.revisions[r] == st.revisions[r] {
        TokensFrozen(st, st', r);
      }
    }
  }

  lemma StepRevisions(ops: TextOps, st: ArticleState, input: RevisionInput)
    requires GoodState(st)
    ensures forall r :: r in Step(ops, st, input).revisions ==>
      Step(ops, st, input).revisions[r].tokenSequenceOverride.None?
      || (r in st.revisions && Step(ops, st, input).revisions[r] == st.revisions[r])
    ensures Step(ops, st, input).pageId == st.pageId
  {
    hide GoodState, Shaped, CascadeOf, LengthShrinks, CommitParagraphs, CommitSentences, RecordInboundOutbound;
    if AnalyseRevision(ops, st, input).1 == Stored {
      CascadeKeepsOverride(ops, st, input);
    }
  }

  lemma StepKept(ops: TextOps, st: ArticleState, input: RevisionInput)
    requires Kept(st) && input.revId !in st.orderedRevisions
    ensures Kept(Step(ops, st, input)) && Step(ops, st, input).pageId == st.pageId
  {
    hide GoodState, Shaped, ArenaAligned, OverridesFaithful, Step;
    StepKeepsGood(ops, st, input);
    StepAligned(ops, st, input);
    StepFaithful(ops, st, input);
    StepRevisions(ops, st, input);
  }

  /** A new article, given its page id before anything is fed; it may have none. */
  ghost function Begin(title: string, page: Option<nat>): ArticleState {
    NewArticle(title).(pageId := page)
  }

  lemma BeginKept(title: string, page: Option<nat>)
    ensures Kept(Begin(title, page)) && Unsealed(Begin(title, page)) == Begin(title, page)
  {
    NewArticleGood(title);
    assert Snapshots(Begin(title, page)) == [];
    assert Unsealed(Begin(title, page)).revisions == map[];
  }

  // ----- sessions: feeding revisions, with restarts anywhere -----

  datatype Event = Feed(input: RevisionInput) | Restart

  ghost function StringIdIn(strings: seq<string>, v: string): nat {
    if v in strings then var k: nat :| k < |strings| && strings[k] == v; k else 0
  }

  /** The file that saving writes. */
  ghost function Save(st: ArticleState): (file: StoredArticle)
    ensures Projects(st, file)
  {
    var strings := Distinct(ValuesOf(st.arenas.tokens));
    var ws := st.arenas.tokens;
    var tokens := seq(|ws|, i requires 0 <= i < |ws| =>
      StoredToken(StringIdIn(strings, ws[i].value), ws[i].originRevId, ws[i].lastRevId, ws[i].inbound, ws[i].outbound));
    ValuesInterned(ws);
    assert Interns(ws, strings, tokens);
    StoredArticle(strings, tokens, ProjectRevisions(st, st.orderedRevisions),
      seq(|st.arenas.paragraphs|, i requires 0
          <= i < |st.arenas.paragraphs| => ProjectParagraph(st.arenas.paragraphs[i])),
      seq(|st.arenas.sentences|, i requires 0 <= i < |st.arenas.sentences| => ProjectSentence(st.arenas.sentences[i])),
      Table(st.arenas.paragraphsHt), Table(st.arenas.sentencesHt), ProjectMeta(st))
  }

  lemma ValuesInterned(ws: seq<Word>)
    ensures forall i :: 0 <= i < |ws| ==> ws[i].value in Distinct(ValuesOf(ws))
  {
    DistinctFacts(ValuesOf(ws));
    forall i | 0 <= i < |ws| ensures ws[i].value in Distinct(ValuesOf(ws)) {
      assert ValuesOf(ws)[i] in Elems(Distinct(ValuesOf(ws)));
    }
  }

  /** Restarting saves and loads; without a page id nothing can be saved. */
  ghost function After(ops: TextOps, st: ArticleState, e: Event): ArticleState {
    match e
    case Feed(input) => Step(ops, st, input)
    case Restart => if st.pageId.Some? && StringsKnown(Save(st), |Save(st).tokens|) then Loaded(Save(st)) else st
  }

  ghost function Session(ops: TextOps, st: ArticleState, events: seq<Event>): ArticleState
    decreases |events|
  {
    if events == [] then st else Session(ops, After(ops, st, events[0]), events[1..])
  }

  /** The revisions a session feeds. */
  function Inputs(events: seq<Event>): seq<RevisionInput> {
    if events == [] then []
    else (match events[0] case Feed(input) => [input] case Restart => []) + Inputs(events[1..])
  }

  lemma RestartSeals(ops: TextOps, st: ArticleState)
    requires Savable(st)
    ensures After(ops, st, Restart) == Sealed(st)
    ensures Savable(Sealed(st)) && Unsealed(Sealed(st)) == Unsealed(st) && Sealed(st).pageId == st.pageId
  {
    hide GoodState, Shaped, After, ArenaAligned, OverridesFaithful, Snapshots;
    RestartLoads(ops, st);
    SealedGood(st);
    SealedUnsealed(st);
  }

  lemma SealedUnsealed(st: ArticleState)
    ensures Unsealed(Sealed(st)) == Unsealed(st) && Sealed(st).arenas == st.arenas
  {
    assert Unsealed(Sealed(st)).revisions == Unsealed(st).revisions;
  }

  lemma RestartLoads(ops: TextOps, st: ArticleState)
    requires Savable(st)
    ensures After(ops, st, Restart) == Sealed(st)
  {
    hide GoodState, Shaped, Projects, Sorted, Loaded;
    var file := Save(st);
    KnownStrings(st, file);
    assert Rehydrates(file, Ok(Loaded(file)));
    SaveThenLoad(st, file, Ok(Loaded(file)));
  }

  lemma KnownStrings(st: ArticleState, file: StoredArticle)
    requires Projects(st, file)
    ensures StringsKnown(file, |file.tokens|)
  {
    hide Table, ProjectMeta, ProjectRevisions, Distinct;
    forall i | 0 <= i < |file.tokens| ensures file.tokens[i].stringId < |file.strings| {
      assert InternsOne(st.arenas.tokens[i], file.strings, file.tokens[i]);
    }
  }

  /** A session with restarts ends where the uninterrupted run over the same revisions ends. */
  lemma {:induction false} ResumeSimulates(ops: TextOps, st: ArticleState, events: seq<Event>)
    requires Kept(st) && Feedable(ops, Unsealed(st), Inputs(events))
    ensures Unsealed(Session(ops, st, events)) == Run(ops, Unsealed(st), Inputs(events))
    ensures Kept(Session(ops, st, events)) && Session(ops, st, events).pageId == st.pageId
    decreases |events|
  {
    hide Kept, Unsealed, Sealed, Step, After;
    if events != [] {
      var st' := After(ops, st, events[0]);
      match events[0] {
        case Feed(input) =>
          assert Inputs(events)[0] == input && Inputs(events)[1..] == Inputs(events[1..]);
          FeedAfter(ops, st, input);
        case Restart =>
          RestartAfter(ops, st);
          assert Inputs(events) == Inputs(events[1..]);
      }
      ResumeSimulates(ops, st', events[1..]);
    }
  }

  lemma FeedAfter(ops: TextOps, st: ArticleState, input: RevisionInput)
    requires Kept(st) && input.revId !in Unsealed(st).orderedRevisions
    ensures var st' := Step(ops, st, input);
      After(ops, st, Feed(input)) == st' && Kept(st') && st'.pageId == st.pageId
          && Step(ops, Unsealed(st), input) == Unsealed(st')
  {
    hide GoodState, Shaped, ArenaAligned, OverridesFaithful, Step;
    StepKept(ops, st, input);
    StepUnsealed(ops, st, input);
  }

  lemma RestartAfter(ops: TextOps, st: ArticleState)
    requires Kept(st)
    ensures var st' := After(ops, st, Restart);
      Kept(st') && st'.pageId == st.pageId && Unsealed(st') == Unsealed(st)
  {
    hide GoodState, Shaped, ArenaAligned, OverridesFaithful, Sealed, Unsealed, Loaded, Save;
    if st.pageId.Some? {
      RestartSeals(ops, st);
    }
  }

  /** What the outside sees after a session with restarts: the spam verdict of the next
      revision, every stored token sequence, and all that outlives a revision. */
  lemma ResumeVisible(ops: TextOps, st: ArticleState, events: seq<Event>, next: RevisionInput, r: RevId)
    requires Kept(st) && Feedable(ops, Unsealed(st), Inputs(events))
    ensures var now, ref := Session(ops, st, events), Run(ops, Unsealed(st), Inputs(events));
      && now.arenas == ref.arenas && now.spamIds == ref.spamIds && now.spamHashes == ref.spamHashes
      && now.orderedRevisions == ref.orderedRevisions && now.lastGoodRevId == ref.lastGoodRevId
      && (r in now.revisions <==> r in ref.revisions)
      && (r in now.revisions ==> ReadTokens(now.arenas, now.revisions[r]) == TokensAt(ref, r))
      && AnalyseRevision(ops, now, next).1 == AnalyseRevision(ops, ref, next).1
  {
    var now := Session(ops, st, events);
    ResumeSimulates(ops, st, events);
    hide Session, Run, GoodState, ArenaAligned, AnalyseRevision, RevTokens, Feedable;
    StepUnsealed(ops, now, next);
    if r in now.revisions {
      assert Pids(Unsealed(now).revisions[r]) == Pids(now.revisions[r]);
      SameWalk(now, r);
    }
  }

  lemma SameWalk(st: ArticleState, r: RevId)
    requires r in st.revisions
    ensures TokensAt(Unsealed(st), r) == TokensAt(st, r) == RevTokens(st.arenas, st.revisions[r])
  {
    assert Pids(Unsealed(st).revisions[r]) == Pids(st.revisions[r]);
  }
}
