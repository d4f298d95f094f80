/** Saving an article and loading it again are inverse on every article a run reaches. */
module Persistence {
  import opened Wrappers
  import opened Seqs
  import opened Buckets
  import opened TextOps
  import opened Structures
  import opened CascadeSpec
  import opened CascadeShape
  import opened SentenceLevel
  import opened Accounting
  import opened History
  import opened Orphans
  import opened Runs
  import opened Interning
  import opened Stored

  // ----- projection -----

  /** What the read path answers for a revision. */
  function ReadTokens(a: Arenas, rev: Revision): seq<TokenId> {
    match rev.tokenSequenceOverride
    case Some(s) => s
    case None => RevTokens(a, rev)
  }

  function ProjectRevision(a: Arenas, rev: Revision): StoredRevision {
    StoredRevision(rev.id, rev.timestamp, rev.editor, rev.length, rev.originalAdds,
                   ReadTokens(a, rev), Pairs(rev.paragraphs, rev.orderedParagraphs))
  }

  /** Stored revisions in processing order; ids without a revision are skipped. */
  function ProjectRevisions(st: ArticleState, ids: seq<RevId>): seq<StoredRevision> {
    if ids == [] then []
    else
      var n := |ids| - 1;
      ProjectRevisions(st, ids[..n]) +
      if ids[n] in st.revisions then [ProjectRevision(st.arenas, st.revisions[ids[n]])] else []
  }

  function ProjectParagraph(p: Paragraph): StoredParagraph {
    StoredParagraph(p.hashValue, p.value, Pairs(p.sentences, p.orderedSentences))
  }

  function ProjectSentence(s: Sentence): StoredSentence {
    StoredSentence(s.hashValue, s.value, s.words)
  }

  ghost function ProjectMeta(st: ArticleState): Meta {
    Meta(if st.pageId.Some? then st.pageId.value else 0, st.title, st.lastGoodRevId,
         if st.lastGoodRevId in st.revisions then st.revisions[st.lastGoodRevId].timestamp else "",
         |st.orderedRevisions|, |st.arenas.tokens|, |st.spamIds|, st.arenas.nextTokenId, st.spamIds,
             Sorted(st.spamHashes))
  }

  /** `file` is what saving `st` writes. */
  ghost predicate Projects(st: ArticleState, file: StoredArticle) {
    && Interns(st.arenas.tokens, file.strings, file.tokens)
    && file.revisions == ProjectRevisions(st, st.orderedRevisions)
    && file.paragraphs == seq(|st.arenas.paragraphs|, i
        requires 0 <= i < |st.arenas.paragraphs| => ProjectParagraph(st.arenas.paragraphs[i]))
    && file.sentences == seq(|st.arenas.sentences|, i
        requires 0 <= i < |st.arenas.sentences| => ProjectSentence(st.arenas.sentences[i]))
    && file.paragraphBuckets == Table(st.arenas.paragraphsHt)
    && file.sentenceBuckets == Table(st.arenas.sentencesHt)
    && file.meta == ProjectMeta(st)
  }

  // ----- rehydration -----

  function LoadToken(strings: seq<string>, id: nat, t: StoredToken): Word
    requires t.stringId < |strings|
  {
    Word(id, strings[t.stringId], t.originRevId, t.lastRevId, t.inbound, t.outbound)
  }

  function LoadSentence(s: StoredSentence): Sentence {
    Sentence(s.hashValue, s.value, s.words)
  }

  function LoadParagraph(p: StoredParagraph): Paragraph {
    Paragraph(p.hashValue, p.value, Group(p.orderedSentences), Hashes(p.orderedSentences))
  }

  function LoadRevision(r: StoredRevision): Revision {
    Revision(r.revId, r.editor, r.timestamp, Group(r.orderedParagraphs), Hashes(r.orderedParagraphs),
             r.length, r.originalAdds, Some(r.tokenSequence))
  }

  function LoadRevisions(rs: seq<StoredRevision>): (map<RevId, Revision>, seq<RevId>) {
    if rs == [] then (map[], [])
    else
      var n := |rs| - 1;
      var (m, ids) := LoadRevisions(rs[..n]);
      (m[rs[n].revId := LoadRevision(rs[n])], ids + [rs[n].revId])
  }

  predicate StringsKnown(file: StoredArticle, n: nat)
    requires n <= |file.tokens|
  {
    forall i :: 0 <= i < n ==> file.tokens[i].stringId < |file.strings|
  }

  function Loaded(file: StoredArticle): ArticleState
    requires StringsKnown(file, |file.tokens|)
  {
    var (revisions, ordered) := LoadRevisions(file.revisions);
    ArticleState(
      file.meta.title, Some(file.meta.pageId),
      Arenas(seq(|file.tokens|, i requires 0 <= i < |file.tokens| => LoadToken(file.strings, i, file.tokens[i])),
             seq(|file.sentences|, i requires 0 <= i < |file.sentences| => LoadSentence(file.sentences[i])),
             seq(|file.paragraphs|, i requires 0 <= i < |file.paragraphs| => LoadParagraph(file.paragraphs[i])),
             Untable(file.paragraphBuckets), Untable(file.sentenceBuckets), file.meta.nextTokenId),
      revisions, ordered, file.meta.lastProcessedRevid, file.meta.spamRevisions, Elems(file.meta.spamHashes))
  }

  /** Loading fails exactly on a token that refers to a string that is not there. */
  ghost predicate Rehydrates(file: StoredArticle, r: Result<ArticleState, StorageError>) {
    match r
    case Ok(st) => StringsKnown(file, |file.tokens|) && st == Loaded(file)
    case Err(e) => e.UnknownString? && e.token < |file.tokens| && StringsKnown(file, e.token)
                   && file.tokens[e.token].stringId >= |file.strings|
  }

  // ----- what loading changes -----

  ghost function SealRevision(a: Arenas, rev: Revision): Revision {
    rev.(tokenSequenceOverride := Some(RevTokens(a, rev)))
  }

  /** The article with every stored revision's token sequence pinned to its paragraph walk. */
  ghost function Sealed(st: ArticleState): ArticleState {
    st.(revisions := map r | r in st.revisions :: SealRevision(st.arenas, st.revisions[r]))
  }

  ghost function Unsealed(st: ArticleState): ArticleState {
    st.(revisions := map r | r in st.revisions :: st.revisions[r].(tokenSequenceOverride := None))
  }

  /** An override, where there is one, is the paragraph walk. */
  ghost predicate OverridesFaithful(st: ArticleState) {
    forall r :: r in st.revisions ==>
      st.revisions[r].tokenSequenceOverride.None? || st.revisions[r].tokenSequenceOverride == Some(TokensAt(st, r))
  }

  /** Every paragraph of the arena is aligned, those a flagged revision left behind included. */
  ghost predicate ArenaAligned(a: Arenas) {
    forall pid :: 0 <= pid < |a.paragraphs| ==> Aligned(a.paragraphs[pid].sentences, a.paragraphs[pid].orderedSentences)
  }

  /** What every session keeps, whether or not the article has a page id. */
  ghost predicate Kept(st: ArticleState) {
    GoodState(st) && ArenaAligned(st.arenas) && OverridesFaithful(st)
  }

  ghost predicate Savable(st: ArticleState) {
    Kept(st) && st.pageId.Some?
  }

  // ----- the round trip -----

  lemma TokensRoundTrip(tokens: seq<Word>, file: StoredArticle)
    requires Interns(tokens, file.strings, file.tokens)
    requires forall i :: 0 <= i < |tokens| ==> tokens[i].tokenId == i
    ensures StringsKnown(file, |file.tokens|)
    ensures Loaded(file).arenas.tokens == tokens
  {
    forall i | 0 <= i < |tokens|
      ensures file.tokens[i].stringId < |file.strings| && LoadToken(file.strings, i, file.tokens[i]) == tokens[i]
    {
      assert InternsOne(tokens[i], file.strings, file.tokens[i]);
    }
  }

  lemma ParagraphsRoundTrip(a: Arenas, file: StoredArticle)
    requires ArenaAligned(a) && StringsKnown(file, |file.tokens|)
    requires file.paragraphs == seq(|a.paragraphs|, i
        requires 0 <= i < |a.paragraphs| => ProjectParagraph(a.paragraphs[i]))
    ensures Loaded(file).arenas.paragraphs == a.paragraphs
  {
    hide Aligned, Group, Pairs, Hashes;
    forall i | 0 <= i < |a.paragraphs| ensures LoadParagraph(file.paragraphs[i]) == a.paragraphs[i] {
      OrderedRoundTrip(a.paragraphs[i].sentences, a.paragraphs[i].orderedSentences);
    }
  }

  lemma RevisionRoundTrip(st: ArticleState, r: RevId)
    requires r in st.revisions && OverridesFaithful(st)
    requires Aligned(st.revisions[r].paragraphs, st.revisions[r].orderedParagraphs)
    ensures LoadRevision(ProjectRevision(st.arenas, st.revisions[r])) == SealRevision(st.arenas, st.revisions[r])
  {
    hide Aligned, Group, Pairs, Hashes, RevTokens;
    OrderedRoundTrip(st.revisions[r].paragraphs, st.revisions[r].orderedParagraphs);
  }

  ghost predicate RevisionsAligned(st: ArticleState) {
    forall r :: r in st.revisions ==>
      st.revisions[r].id == r && Aligned(st.revisions[r].paragraphs, st.revisions[r].orderedParagraphs)
  }

  lemma {:induction false} RevisionsRoundTrip(st: ArticleState, ids: seq<RevId>)
    requires RevisionsAligned(st) && OverridesFaithful(st) && forall r :: r in ids ==> r in st.revisions
    ensures LoadRevisions(ProjectRevisions(st, ids)).1 == ids
    ensures LoadRevisions(ProjectRevisions(st, ids)).0 == map r | r in ids :: SealRevision(st.arenas, st.revisions[r])
  {
    hide SealRevision, Aligned, LoadRevision, OverridesFaithful;
    if ids != [] {
      var n := |ids| - 1;
      var r := ids[n];
      assert ids == ids[..n] + [r];
      RevisionsRoundTrip(st, ids[..n]);
      RevisionRoundTrip(st, r);
      var done := ProjectRevisions(st, ids[..n]);
      assert (done + [ProjectRevision(st.arenas, st.revisions[r])])[..|done|] == done;
    }
  }

  lemma RevisionsAreAligned(st: ArticleState)
    requires GoodRevisions(st)
    ensures RevisionsAligned(st) && forall r :: r in st.revisions <==> r in st.orderedRevisions
  {
    hide LiveParagraph, HashedBy, Walk;
    forall r | r in st.revisions ensures Aligned(st.revisions[r].paragraphs, st.revisions[r].orderedParagraphs) {
      assert GoodIndex(st.arenas, st.revisions[r].paragraphs, st.revisions[r].orderedParagraphs);
    }
  }

  lemma {:induction false} AllProjected(st: ArticleState, ids: seq<RevId>)
    requires forall r :: r in ids ==> r in st.revisions
    ensures |ProjectRevisions(st, ids)| == |ids|
    ensures ids != [] ==>
      ProjectRevisions(st, ids)[|ids| - 1] == ProjectRevision(st.arenas, st.revisions[ids[|ids| - 1]])
  {
    if ids != [] {
      hide ProjectRevision;
      var n := |ids| - 1;
      forall r | r in ids[..n] ensures r in st.revisions { assert r in ids; }
      AllProjected(st, ids[..n]);
      assert ids[n] in ids;
    }
  }

  /** The counters in a saved article's header count the records saved beside it, the next token
      id is the number of token records, and what was processed last is the last revision. */
  lemma HeaderCounts(st: ArticleState, file: StoredArticle)
    requires GoodState(st) && Projects(st, file)
    ensures file.meta.nRevisions == |file.revisions| && file.meta.nSpamRevisions == |file.meta.spamRevisions|
    ensures file.meta.nLifetimeTokens == |file.tokens| == file.meta.nextTokenId
    ensures file.revisions != [] ==>
      var last := file.revisions[|file.revisions| - 1];
      file.meta.lastProcessedRevid == last.revId && file.meta.lastProcessedTimestamp == last.timestamp
  {
    hide Table, ProjectParagraph, ProjectSentence, HistoryOk, RevisionsAligned;
    RevisionsAreAligned(st);
    AllProjected(st, st.orderedRevisions);
  }

  /** Loading what was saved gives back the article, its token sequences pinned. */
  lemma SaveThenLoad(st: ArticleState, file: StoredArticle, r: Result<ArticleState, StorageError>)
    requires Savable(st) && Projects(st, file) && Rehydrates(file, r)
    ensures r == Ok(Sealed(st))
  {
    hide Interns, Table, Untable, ProjectRevisions, LoadRevisions, LoadParagraph, ProjectParagraph, LoadToken,
      HistoryOk, GoodTables, ArenaAligned, OverridesFaithful, GoodRevisions, RevisionsAligned, SealRevision;
    TokensRoundTrip(st.arenas.tokens, file);
    ParagraphsRoundTrip(st.arenas, file);
    RevisionsAreAligned(st);
    RevisionsRoundTrip(st, st.orderedRevisions);
    TableRoundTrip(st.arenas.paragraphsHt);
    TableRoundTrip(st.arenas.sentencesHt);
    var now := Loaded(file);
    assert now.arenas.sentences == st.arenas.sentences;
    assert now.revisions == Sealed(st).revisions;
    assert now.orderedRevisions == st.orderedRevisions;
    assert now.arenas == st.arenas;
  }

  /** Saving is a function of the article: two files of one article are equal. */
  lemma SavingIsDeterministic(st: ArticleState, x: StoredArticle, y: StoredArticle)
    requires Projects(st, x) && Projects(st, y)
    ensures x == y
  {
    hide Interns, ProjectRevisions, Table, ProjectMeta, ProjectParagraph, ProjectSentence;
    InternsUnique(st.arenas.tokens, x.strings, x.tokens, y.strings, y.tokens);
  }

  // ----- loading keeps what runs rely on -----

  lemma SealedTokens(st: ArticleState, r: RevId)
    ensures TokensAt(Sealed(st), r) == TokensAt(st, r)
  {
    if r in st.revisions {
      assert Pids(Sealed(st).revisions[r]) == Pids(st.revisions[r]);
    }
  }

  lemma SealedGood(st: ArticleState)
    requires GoodState(st)
    ensures GoodState(Sealed(st)) && OverridesFaithful(Sealed(st)) && Snapshots(Sealed(st)) == Snapshots(st)
  {
    hide GoodIndex, HistoryOk, GoodArenas, TokensAt;
    var st' := Sealed(st);
    forall r ensures TokensAt(st', r) == TokensAt(st, r) { SealedTokens(st, r); }
    assert Snapshots(st') == Snapshots(st);
    assert GoodRevisions(st');
    SealedFaithful(st);
  }

  lemma SealedFaithful(st: ArticleState)
    ensures OverridesFaithful(Sealed(st))
  {
    forall r | r in st.revisions ensures Sealed(st).revisions[r].tokenSequenceOverride
        == Some(TokensAt(Sealed(st), r)) {
      SealedTokens(st, r);
    }
  }

  /** Saving again after loading writes the same file. */
  lemma SaveAgain(st: ArticleState, x: StoredArticle, y: StoredArticle)
    requires Savable(st) && Projects(st, x) && Projects(Sealed(st), y)
    ensures x == y
  {
    hide Interns, Table, ProjectParagraph, ProjectSentence, GoodState, ArenaAligned, OverridesFaithful;
    InternsUnique(st.arenas.tokens, x.strings, x.tokens, y.strings, y.tokens);
    SameRevisionRows(st, st.orderedRevisions);
  }

  lemma {:induction false} SameRevisionRows(st: ArticleState, ids: seq<RevId>)
    requires OverridesFaithful(st)
    ensures ProjectRevisions(Sealed(st), ids) == ProjectRevisions(st, ids)
  {
    hide Pairs, RevTokens;
    if ids != [] {
      SameRevisionRows(st, ids[..|ids| - 1]);
    }
  }
}
