/** The main results, for every article there can be: one that began with or without a page
    id, was fed any revisions, each stored at most once, and was saved and reloaded at any
    points in between. */
module Sessions {
  import opened Wrappers
  import opened Seqs
  import opened TextOps
  import opened Structures
  import opened CascadeSpec
  import opened CascadeShape
  import opened Accounting
  import opened History
  import opened Orphans
  import opened Fidelity
  import opened Presence
  import opened Runs
  import opened Stored
  import opened Persistence
  import opened Resume

  /** Some session from a new article ends in `st`. */
  ghost predicate Reachable(ops: TextOps, st: ArticleState) {
    exists title, page: Option<nat>, events ::
      Feedable(ops, Begin(title, page), Inputs(events)) && st == Session(ops, Begin(title, page), events)
  }

  /** The token sequence the read path answers for a stored revision. */
  function Read(st: ArticleState, r: RevId): seq<TokenId> {
    if r in st.revisions then ReadTokens(st.arenas, st.revisions[r]) else []
  }

  lemma ReadIsWalk(st: ArticleState, r: RevId)
    requires Kept(st)
    ensures Read(st, r) == TokensAt(st, r)
  {
    hide GoodState, ArenaAligned, RevTokens;
  }

  // ----- what carries over from the uninterrupted run -----

  lemma {:induction false} SumAddsUnsealed(st: ArticleState, revs: seq<RevId>)
    ensures SumAdds(Unsealed(st), revs) == SumAdds(st, revs)
  {
    if revs != [] {
      SumAddsUnsealed(st, revs[1..]);
    }
  }

  lemma AddsUnsealed(st: ArticleState)
    requires AddsOk(Unsealed(st))
    ensures AddsOk(st)
  {
    SumAddsUnsealed(st, st.orderedRevisions);
    forall r | r in st.revisions ensures st.revisions[r].originalAdds == Originated(st.arenas.tokens, r) {
      assert Unsealed(st).revisions[r].originalAdds == st.revisions[r].originalAdds;
    }
  }

  lemma TabledUnsealed(st: ArticleState)
    ensures AllTabled(Unsealed(st)) <==> AllTabled(st)
  {
    hide TabledPara, TabledSent;
    forall r | r in st.revisions ensures Pids(Unsealed(st).revisions[r]) == Pids(st.revisions[r]) {}
  }

  lemma BeginFacts(title: string, page: Option<nat>)
    ensures GoodState(Begin(title, page)) && AddsOk(Begin(title, page)) && AllTabled(Begin(title, page))
  {
    BeginKept(title, page);
  }

  /** What every reachable article satisfies. */
  lemma ReachableFacts(ops: TextOps, st: ArticleState)
    requires Reachable(ops, st)
    ensures Kept(st) && AddsOk(st) && AllTabled(st)
  {
    hide GoodState, ArenaAligned, OverridesFaithful, AddsOk, AllTabled, Session, Run, Feedable, Begin, Unsealed;
    var title, page: Option<nat>, events :|
      Feedable(ops, Begin(title, page), Inputs(events)) && st == Session(ops, Begin(title, page), events);
    BeginKept(title, page);
    BeginFacts(title, page);
    ResumeSimulates(ops, Begin(title, page), events);
    AddsRun(ops, Begin(title, page), Inputs(events));
    RunTabled(ops, Begin(title, page), Inputs(events));
    AddsUnsealed(st);
    TabledUnsealed(st);
  }

  // ----- sessions go on -----

  lemma {:induction false} InputsAppend(xs: seq<Event>, ys: seq<Event>)
    ensures Inputs(xs + ys) == Inputs(xs) + Inputs(ys)
  {
    if xs == [] {
      assert xs + ys == ys;
    } else {
      assert (xs + ys)[0] == xs[0] && (xs + ys)[1..] == xs[1..] + ys;
      InputsAppend(xs[1..], ys);
    }
  }

  lemma {:induction false} SessionAppend(ops: TextOps, st: ArticleState, xs: seq<Event>, ys: seq<Event>)
    ensures Session(ops, st, xs + ys) == Session(ops, Session(ops, st, xs), ys)
    decreases |xs|
  {
    hide After;
    if xs == [] {
      assert xs + ys == ys;
    } else {
      assert (xs + ys)[0] == xs[0] && (xs + ys)[1..] == xs[1..] + ys;
      SessionAppend(ops, After(ops, st, xs[0]), xs[1..], ys);
    }
  }

  lemma {:induction false} FeedableAppend(ops: TextOps, st: ArticleState, xs: seq<RevisionInput>,
      ys: seq<RevisionInput>)
    ensures Feedable(ops, st, xs + ys) <==> Feedable(ops, st, xs) && Feedable(ops, Run(ops, st, xs), ys)
    decreases |xs|
  {
    hide Step;
    if xs == [] {
      assert xs + ys == ys;
    } else {
      assert (xs + ys)[0] == xs[0] && (xs + ys)[1..] == xs[1..] + ys;
      FeedableAppend(ops, Step(ops, st, xs[0]), xs[1..], ys);
    }
  }

  /** Whatever a session does next from a reachable article, the result is reachable. */
  lemma SessionsGoOn(ops: TextOps, st: ArticleState, more: seq<Event>)
    requires Reachable(ops, st) && Feedable(ops, Unsealed(st), Inputs(more))
    ensures Reachable(ops, Session(ops, st, more))
  {
    hide Kept, Session, Run, Feedable, Begin, Unsealed, Inputs;
    var title, page: Option<nat>, events :|
      Feedable(ops, Begin(title, page), Inputs(events)) && st == Session(ops, Begin(title, page), events);
    BeginKept(title, page);
    ResumeSimulates(ops, Begin(title, page), events);
    InputsAppend(events, more);
    FeedableAppend(ops, Begin(title, page), Inputs(events), Inputs(more));
    SessionAppend(ops, Begin(title, page), events, more);
    assert Feedable(ops, Begin(title, page), Inputs(events + more));
  }

  // ----- the main results -----

  /** A token's record is exactly its presence history. */
  lemma LifeHistory(ops: TextOps, st: ArticleState, t: TokenId, i: nat)
    requires Reachable(ops, st) && t < |st.arenas.tokens| && i < |st.orderedRevisions|
    ensures var w, snaps := st.arenas.tokens[t], Snapshots(st);
      var here := t in Read(st, st.orderedRevisions[i]);
      var before := i > 0 && t in Read(st, st.orderedRevisions[i - 1]);
      && w.tokenId == t
      && (st.orderedRevisions[i] in w.outbound <==> before && !here)
      && (st.orderedRevisions[i] in w.inbound <==> i > 0 && here && !before && st.orderedRevisions[i] != w.originRevId)
      && w.originRevId == FirstSeen(snaps, t) && w.lastRevId == LastSeen(snaps, t)
      && w.inbound == ExpectedIn(snaps, t) && w.outbound == ExpectedOut(snaps, t)
  {
    hide Reachable, GoodState, ArenaAligned, OverridesFaithful, Read, TokensAt;
    ReachableFacts(ops, st);
    RecordIsHistory(st, t, i);
    ReadIsWalk(st, st.orderedRevisions[i]);
    if i > 0 { ReadIsWalk(st, st.orderedRevisions[i - 1]); }
  }

  /** The histories are those of the sequences the read path answers. */
  lemma SnapshotsAreRead(ops: TextOps, st: ArticleState, i: nat)
    requires Reachable(ops, st) && i < |st.orderedRevisions|
    ensures Snapshots(st)[i] == Snapshot(st.orderedRevisions[i], Read(st, st.orderedRevisions[i]))
  {
    hide Reachable, GoodState, ArenaAligned, OverridesFaithful, Read, TokensAt;
    ReachableFacts(ops, st);
    ReadIsWalk(st, st.orderedRevisions[i]);
  }

  /** A token is in the last good revision exactly when its returns match its deletions. */
  lemma PresentIffBalanced(ops: TextOps, st: ArticleState, t: TokenId)
    requires Reachable(ops, st) && t < |st.arenas.tokens|
    ensures var w := st.arenas.tokens[t];
      && (t in Read(st, st.lastGoodRevId) <==> |w.inbound| == |w.outbound|)
      && (t in Read(st, st.lastGoodRevId) <==> w.lastRevId == st.lastGoodRevId)
      && |w.inbound| <= |w.outbound| <= |w.inbound| + 1
  {
    hide Reachable, GoodState, ArenaAligned, OverridesFaithful, Read, TokensAt;
    ReachableFacts(ops, st);
    RecordIsBalanced(st, t);
    ReadIsWalk(st, st.lastGoodRevId);
  }

  /** No token occurs twice in a stored revision, and all of them are known tokens. */
  lemma TokensUnique(ops: TextOps, st: ArticleState, r: RevId)
    requires Reachable(ops, st) && r in st.revisions
    ensures NoDup(Read(st, r))
    ensures forall t :: t in Read(st, r) ==> t < |st.arenas.tokens|
  {
    hide Reachable, GoodState, ArenaAligned, OverridesFaithful, Read, TokensAt;
    ReachableFacts(ops, st);
    WalkUnique(st, r);
    ReadIsWalk(st, r);
  }

  /** Tokens are conserved: the original additions of the stored revisions add up to all
      tokens, each revision's counting exactly the tokens it originated. */
  lemma Conservation(ops: TextOps, st: ArticleState)
    requires Reachable(ops, st)
    ensures SumAdds(st, st.orderedRevisions) == |st.arenas.tokens| == st.arenas.nextTokenId
    ensures forall r :: r in st.revisions ==> st.revisions[r].originalAdds == Originated(st.arenas.tokens, r)
  {
    hide Reachable, GoodState, ArenaAligned, OverridesFaithful;
    ReachableFacts(ops, st);
    GoodHistory(st);
  }

  /** A stored revision's token sequence never changes, restarts or not. */
  lemma SequencesStay(ops: TextOps, st: ArticleState, more: seq<Event>, r: RevId)
    requires Reachable(ops, st) && Feedable(ops, Unsealed(st), Inputs(more)) && r in st.revisions
    ensures r in Session(ops, st, more).revisions
    ensures Read(Session(ops, st, more), r) == Read(st, r)
  {
    hide Reachable, GoodState, ArenaAligned, OverridesFaithful, Read, TokensAt, Session, Run, Feedable;
    ReachableFacts(ops, st);
    ResumeSimulates(ops, st, more);
    UnsealedGood(st);
    SequencesFrozen(ops, Unsealed(st), Inputs(more), r);
    var now := Session(ops, st, more);
    SameWalk(st, r);
    assert r in Unsealed(now).revisions;
    SameWalk(now, r);
    ReadIsWalk(st, r);
    ReadIsWalk(now, r);
  }

  lemma UnsealedGood(st: ArticleState)
    requires GoodState(st)
    ensures GoodState(Unsealed(st))
  {
    hide GoodIndex, HistoryOk, GoodArenas, TokensAt;
    forall r ensures TokensAt(Unsealed(st), r) == TokensAt(st, r) {
      if r in st.revisions { SameWalk(st, r); } else { NoTokens(st, r); }
    }
    assert Snapshots(Unsealed(st)) == Snapshots(st);
    assert GoodRevisions(Unsealed(st));
  }

  lemma NoTokens(st: ArticleState, r: RevId)
    requires r !in st.revisions
    ensures TokensAt(Unsealed(st), r) == [] == TokensAt(st, r)
  {
  }

  /** After a flagged revision, every later one with its hash is refused, restarts or not. */
  lemma VandalismRemembered(ops: TextOps, st: ArticleState, input: RevisionInput, between: seq<Event>,
      again: RevisionInput)
    requires Reachable(ops, st) && AnalyseRevision(ops, st, input).1 != Stored
        && RevHash(ops, again) == RevHash(ops, input)
    requires Feedable(ops, Unsealed(Step(ops, st, input)), Inputs(between))
    ensures AnalyseRevision(ops, Session(ops, Step(ops, st, input), between), again).1 == Vandalism(HashMatch)
  {
    hide Reachable, GoodState, OverridesFaithful, ArenaAligned, AnalyseRevision, Session, Run, Feedable, RevHash;
    var st1 := Step(ops, st, input);
    ReachableFacts(ops, st);
    FlaggedKept(ops, st, input);
    ResumeSimulates(ops, st1, between);
    StepUnsealed(ops, st, input);
    UnsealedGood(st);
    RepeatedVandalism(ops, Unsealed(st), input, Inputs(between), again);
    StepUnsealed(ops, Session(ops, st1, between), again);
  }

  /** A flagged revision keeps what sessions keep, whatever its id. */
  lemma FlaggedKept(ops: TextOps, st: ArticleState, input: RevisionInput)
    requires Kept(st) && AnalyseRevision(ops, st, input).1 != Stored
    ensures Kept(Step(ops, st, input))
  {
    hide GoodState, ArenaAligned, AnalyseRevision, Extends, OnlyAppended, RevHash;
    var st' := Step(ops, st, input);
    VandalismStep(ops, st, input);
    StepAligned(ops, st, input);
    SameSequences(st, st');
  }

  lemma SameSequences(st: ArticleState, st': ArticleState)
    requires GoodState(st) && OverridesFaithful(st) && Extends(st.arenas, st'.arenas) && st'.revisions == st.revisions
    ensures OverridesFaithful(st')
  {
    GoodHistory(st);
    hide GoodState, GoodIndex, TokensAt, HistoryOk, Extends;
    forall r | r in st.revisions ensures TokensAt(st', r) == TokensAt(st, r) { TokensFrozen(st, st', r); }
  }

  /** What a flagged revision left behind is never reached again, restarts or not. */
  lemma OrphansStayUnreachable(ops: TextOps, st: ArticleState, input: RevisionInput, more: seq<Event>)
    requires Reachable(ops, st) && AnalyseRevision(ops, st, input).1 != Stored
    requires Feedable(ops, Unsealed(Step(ops, st, input)), Inputs(more))
    ensures var st1 := Step(ops, st, input); var later := Session(ops, st1, more);
      &&
        (forall pid: ParagraphId :: Orphaned(|st.arenas.paragraphs|, pid, |st1.arenas.paragraphs|)
          ==> ParagraphUnreachable(later, pid))
      &&
        (forall sid: SentenceId :: Orphaned(|st.arenas.sentences|, sid, |st1.arenas.sentences|)
          ==> SentenceUnreachable(later, sid))
  {
    hide Reachable, GoodState, OverridesFaithful, ArenaAligned, AllTabled, AnalyseRevision, Session, Run, Feedable,
      ParagraphUnreachable, SentenceUnreachable;
    var st1 := Step(ops, st, input);
    var later := Session(ops, st1, more);
    ReachableFacts(ops, st);
    FlaggedKept(ops, st, input);
    ResumeSimulates(ops, st1, more);
    StepUnsealed(ops, st, input);
    UnsealedGood(st);
    TabledUnsealed(st);
    FlaggedStayUnreachable(ops, Unsealed(st), input, Inputs(more));
    forall pid: ParagraphId | ParagraphUnreachable(Unsealed(later), pid) ensures ParagraphUnreachable(later, pid) {
      ReachedUnsealed(later, pid, 0);
    }
    forall sid: SentenceId | SentenceUnreachable(Unsealed(later), sid) ensures SentenceUnreachable(later, sid) {
      ReachedUnsealed(later, 0, sid);
    }
  }

  lemma ReachedUnsealed(st: ArticleState, pid: ParagraphId, sid: SentenceId)
    ensures ParagraphUnreachable(Unsealed(st), pid) <==> ParagraphUnreachable(st, pid)
    ensures SentenceUnreachable(Unsealed(st), sid) <==> SentenceUnreachable(st, sid)
  {
    hide TabledPara, TabledSent, FlatSids;
    forall r | r in st.revisions ensures Pids(Unsealed(st).revisions[r]) == Pids(st.revisions[r]) {}
  }

  /** Every stored revision reads, token by token, as the flattened split of its own lowercased
      text, whatever the session did in between. */
  lemma TextFidelity(ops: TextOps, seen: iset<string>, title: string, page: Option<nat>, events: seq<Event>, r: RevId)
    requires TokenizerOk(ops) && CollisionFree(ops, seen)
    requires Feedable(ops, Begin(title, page), Inputs(events))
    requires forall i :: 0 <= i < |Inputs(events)| ==> InputHashed(ops, seen, Inputs(events)[i])
    requires r in Session(ops, Begin(title, page), events).revisions
    ensures var st := Session(ops, Begin(title, page), events);
      var texts := StoredTexts(ops, Begin(title, page), Inputs(events), map[]);
      r in texts && Values(st.arenas.tokens, Read(st, r)) == Tokens(ops, texts[r])
  {
    hide GoodState, OverridesFaithful, ArenaAligned, Faithful, CollisionFree, AllTabled, AnalyseRevision,
      InputHashed, Step, TokenizerOk, Hashed, Feedable, Run, Session, Begin, TokensAt, Read, Unsealed, TextsKept,
      Inputs, AddsOk;
    var st0, st := Begin(title, page), Session(ops, Begin(title, page), events);
    BeginKept(title, page);
    BeginFacts(title, page);
    BeginFaithful(ops, seen, title, page);
    ResumeSimulates(ops, st0, events);
    RunTabled(ops, st0, Inputs(events));
    RunFaithful(ops, seen, st0, Inputs(events), map[]);
    TabledUnsealed(st);
    StoredText(ops, seen, st, r, StoredTexts(ops, st0, Inputs(events), map[]));
    ReadIsWalk(st, r);
  }

  lemma BeginFaithful(ops: TextOps, seen: iset<string>, title: string, page: Option<nat>)
    ensures Faithful(ops, seen, Begin(title, page).arenas) && TextsKept(ops, seen, Begin(title, page), map[])
  {
  }

  lemma StoredText(ops: TextOps, seen: iset<string>, st: ArticleState, r: RevId, texts: map<RevId, string>)
    requires GoodState(st) && AllTabled(st) && Faithful(ops, seen, Unsealed(st).arenas) && TokenizerOk(ops)
    requires TextsKept(ops, seen, Unsealed(st), texts) && r in st.revisions
    ensures r in texts && Values(st.arenas.tokens, TokensAt(st, r)) == Tokens(ops, texts[r])
  {
    hide GoodState, AllTabled, Faithful, TokenizerOk, Hashed, TokensAt, Digests;
    assert Unsealed(st).revisions[r].orderedParagraphs == st.revisions[r].orderedParagraphs;
    RevisionText(ops, seen, st, r, Paragraphs(ops, texts[r]));
  }

  // ----- saving -----

  /** Every reachable article with a page id can be saved. */
  lemma ReachableSavable(ops: TextOps, st: ArticleState)
    requires Reachable(ops, st) && st.pageId.Some?
    ensures Savable(st)
  {
    hide Reachable, Kept;
    ReachableFacts(ops, st);
  }

  /** Loading what was saved of a reachable article gives it back with its sequences pinned,
      and that article is reachable too; what the read path answers is the same. */
  lemma SavedIsReachable(ops: TextOps, st: ArticleState, file: StoredArticle, r: Result<ArticleState, StorageError>)
    requires Reachable(ops, st) && st.pageId.Some? && Projects(st, file) && Rehydrates(file, r)
    ensures r == Ok(Sealed(st)) && Reachable(ops, Sealed(st))
    ensures forall x :: Read(Sealed(st), x) == Read(st, x)
  {
    hide Reachable, Kept, Projects, Rehydrates, Sealed, Unsealed, Read, TokensAt, Feedable;
    ReachableSavable(ops, st);
    SaveThenLoad(st, file, r);
    RestartSeals(ops, st);
    NothingFed(ops, st);
    SessionsGoOn(ops, st, [Restart]);
    OneRestart(ops, st);
    forall x ensures Read(Sealed(st), x) == Read(st, x) {
      ReadIsWalk(st, x);
      ReadIsWalk(Sealed(st), x);
      SealedTokens(st, x);
    }
  }

  lemma NothingFed(ops: TextOps, st: ArticleState)
    ensures Feedable(ops, Unsealed(st), Inputs([Restart]))
  {
    assert [Restart][1..] == [];
  }

  lemma OneRestart(ops: TextOps, st: ArticleState)
    ensures Session(ops, st, [Restart]) == After(ops, st, Restart)
  {
    assert [Restart][1..] == [];
  }
}
