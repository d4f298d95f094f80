/** Writing an article object to its stored records and opening it again, as the loops
    they are. */
module ArticleStore {
  import opened Wrappers
  import opened Seqs
  import opened Buckets
  import opened TextOps
  import opened Structures
  import opened CascadeShape
  import opened History
  import opened Stored
  import opened Persistence
  import opened ArticleClass
  import opened Presence
  import TokensFile
  import RevisionsFile

  lemma ValidReads(st: ArticleState, r: RevId)
    requires Shaped(st) && r in st.revisions
    ensures GoodIndex(st.arenas, st.revisions[r].paragraphs, st.revisions[r].orderedParagraphs)
  {
    hide GoodIndex, HistoryOk, GoodArenas;
  }

  method ProjectRevisionsOf(article: Article) returns (rows: seq<StoredRevision>)
    requires article.Valid()
    ensures rows == ProjectRevisions(article.State(), article.orderedRevisions)
  {
    hide GoodState, Shaped, GoodIndex, Pairs, RevTokens;
    rows := [];
    var ids := article.orderedRevisions;
    for i := 0 to |ids|
      invariant rows == ProjectRevisions(article.State(), ids[..i])
    {
      assert ids[..i + 1][..i] == ids[..i];
      if ids[i] in article.revisions {
        var rev := article.revisions[ids[i]];
        ValidReads(article.State(), ids[i]);
        var tokens := article.IterRevTokens(rev);
        var ordered := ProjectOrdered(rev.paragraphs, rev.orderedParagraphs);
        rows := rows + [StoredRevision(rev.id, rev.timestamp, rev.editor, rev.length, rev.originalAdds, tokens,
            ordered)];
      }
    }
    assert ids[..|ids|] == ids;
  }

  method ProjectParagraphsOf(paragraphs: seq<Paragraph>) returns (rows: seq<StoredParagraph>)
    ensures |rows| == |paragraphs| && forall i :: 0 <= i < |rows| ==> rows[i] == ProjectParagraph(paragraphs[i])
  {
    rows := [];
    for i := 0 to |paragraphs|
      invariant |rows| == i && forall k :: 0 <= k < i ==> rows[k] == ProjectParagraph(paragraphs[k])
    {
      var p := paragraphs[i];
      var ordered := ProjectOrdered(p.sentences, p.orderedSentences);
      rows := rows + [StoredParagraph(p.hashValue, p.value, ordered)];
    }
  }

  /** Only an article without a page id cannot be written. */
  method WriteArticle(article: Article) returns (r: Result<StoredArticle, StorageError>)
    requires article.Valid()
    ensures match r
      case Ok(file) => article.pageId.Some? && Projects(article.State(), file)
      case Err(e) => article.pageId.None? && e == NoPageId
  {
    hide GoodState, Shaped, Interns, ProjectRevisions, Table, Pairs;
    if article.pageId.None? {
      return Err(NoPageId);
    }
    var strings, tokens := ProjectTokens(article.tokens);
    var revisions := ProjectRevisionsOf(article);
    var paragraphs := ProjectParagraphsOf(article.paragraphs);
    var ss := article.sentences;
    var sentences := seq(|ss|, i requires 0 <= i < |ss| => ProjectSentence(ss[i]));
    var paragraphBuckets := ProjectTable(article.paragraphsHt);
    var sentenceBuckets := ProjectTable(article.sentencesHt);
    var spamHashes := SortHashes(article.spamHashes);
    var last := article.lastGoodRevId;
    var meta := Meta(
      article.pageId.value, article.title, last,
      if last in article.revisions then article.revisions[last].timestamp else "",
      |article.orderedRevisions|, |article.tokens|, |article.spamIds|, article.nextTokenId, article.spamIds,
          spamHashes);
    r := Ok(StoredArticle(strings, tokens, revisions, paragraphs, sentences, paragraphBuckets, sentenceBuckets, meta));
    var ps := article.paragraphs;
    assert r.value.paragraphs == seq(|ps|, i requires 0 <= i < |ps| => ProjectParagraph(ps[i]));
  }

  method OpenTokens(file: StoredArticle) returns (r: Result<seq<Word>, StorageError>)
    ensures match r
      case Ok(tokens) =>
        && StringsKnown(file, |file.tokens|) && |tokens| == |file.tokens|
        && forall k :: 0 <= k < |tokens| ==> tokens[k] == LoadToken(file.strings, k, file.tokens[k])
      case Err(e) =>
        && e.UnknownString? && e.token < |file.tokens| && StringsKnown(file, e.token)
        && file.tokens[e.token].stringId >= |file.strings|
  {
    var tokens := [];
    for id := 0 to |file.tokens|
      invariant |tokens| == id && StringsKnown(file, id)
      invariant forall k :: 0 <= k < id ==> tokens[k] == LoadToken(file.strings, k, file.tokens[k])
    {
      if file.tokens[id].stringId >= |file.strings| {
        return Err(UnknownString(id));
      }
      tokens := tokens + [LoadToken(file.strings, id, file.tokens[id])];
    }
    r := Ok(tokens);
  }

  lemma LoadedFields(file: StoredArticle, tokens: seq<Word>, paragraphs: seq<Paragraph>)
    requires StringsKnown(file, |file.tokens|) && |tokens| == |file.tokens| && |paragraphs| == |file.paragraphs|
    requires forall k :: 0 <= k < |tokens| ==> tokens[k] == LoadToken(file.strings, k, file.tokens[k])
    requires forall i :: 0 <= i < |paragraphs| ==> paragraphs[i] == LoadParagraph(file.paragraphs[i])
    ensures Loaded(file).arenas.tokens == tokens && Loaded(file).arenas.paragraphs == paragraphs
  {
    hide LoadToken, LoadParagraph, LoadRevisions, Untable;
  }

  /** Fills a new article object from the records. */
  method OpenArticle(ops: TextOps, file: StoredArticle) returns (r: Result<Article, StorageError>)
    ensures r.Ok? ==> fresh(r.value) && r.value.ops == ops && Rehydrates(file, Ok(r.value.State()))
    ensures r.Err? ==> Rehydrates(file, Err(r.error))
  {
    hide GoodState, Shaped, Group, Hashes, Untable, LoadToken, LoadRevision, LoadRevisions, LoadParagraph,
      LoadSentence, StringsKnown;
    var tokens := OpenTokens(file);
    if tokens.Err? {
      return Err(tokens.error);
    }
    var ss := seq(|file.sentences|, i requires 0 <= i < |file.sentences| => LoadSentence(file.sentences[i]));
    var paragraphs := OpenParagraphs(file.paragraphs);
    LoadedFields(file, tokens.value, paragraphs);
    var paragraphsHt := LoadTable(file.paragraphBuckets);
    var sentencesHt := LoadTable(file.sentenceBuckets);
    var revisions, ordered := OpenRevisions(file.revisions);
    var article := new Article.Restored(ops, ArticleState(
      file.meta.title, Some(file.meta.pageId),
      Arenas(tokens.value, ss, paragraphs, paragraphsHt, sentencesHt, file.meta.nextTokenId),
      revisions, ordered, file.meta.lastProcessedRevid, file.meta.spamRevisions, Elems(file.meta.spamHashes)));
    r := Ok(article);
  }

  method OpenParagraphs(rows: seq<StoredParagraph>) returns (ps: seq<Paragraph>)
    ensures |ps| == |rows| && forall i :: 0 <= i < |ps| ==> ps[i] == LoadParagraph(rows[i])
  {
    ps := [];
    for i := 0 to |rows|
      invariant |ps| == i && forall k :: 0 <= k < i ==> ps[k] == LoadParagraph(rows[k])
    {
      var sentences, order := GroupEntries(rows[i].orderedSentences);
      ps := ps + [Paragraph(rows[i].hashValue, rows[i].value, sentences, order)];
    }
  }

  method OpenRevisions(rows: seq<StoredRevision>) returns (revisions: map<RevId, Revision>, ordered: seq<RevId>)
    ensures (revisions, ordered) == LoadRevisions(rows)
  {
    revisions, ordered := map[], [];
    for i := 0 to |rows|
      invariant (revisions, ordered) == LoadRevisions(rows[..i])
    {
      assert rows[..i + 1][..i] == rows[..i];
      var row := rows[i];
      var paragraphs, order := GroupEntries(row.orderedParagraphs);
      ordered := ordered + [row.revId];
      revisions := revisions[row.revId := Revision(row.revId, row.editor, row.timestamp, paragraphs, order,
                                                  row.length, row.originalAdds, Some(row.tokenSequence))];
    }
    assert rows[..|rows|] == rows;
  }

  /** Writing a good article and opening the file gives the same article, sealed. */
  method Reopen(article: Article) returns (r: Result<Article, StorageError>)
    requires article.Valid() && Savable(article.State())
    ensures r.Ok? && fresh(r.value) && r.value.ops == article.ops
    ensures r.value.State() == Sealed(article.State()) && r.value.Valid()
  {
    hide GoodState, Shaped, Projects, Rehydrates;
    ghost var st := article.State();
    var written := WriteArticle(article);
    assert Savable(st);
    var file := written.value;
    r := OpenArticle(article.ops, file);
    if r.Ok? {
      SaveThenLoad(st, file, Ok(r.value.State()));
    } else {
      SaveThenLoad(st, file, Err(r.error));
    }
    SealedGood(st);
    GoodIsShaped(Sealed(st));
  }

  /** A token's record mentions stored revisions only. */
  lemma RecordMentionsStored(st: ArticleState, t: TokenId, r: RevId)
    requires GoodState(st) && t < |st.arenas.tokens|
    requires var w := st.arenas.tokens[t]; r == w.originRevId || r == w.lastRevId || r in w.inbound || r in w.outbound
    ensures r in st.orderedRevisions
  {
    var snaps, w := Snapshots(st), st.arenas.tokens[t];
    assert RecordIs(snaps, t, w);
    hide GoodState, Shaped, GoodArenas, GoodRevisions, HistoryOk, TokensAt;
    if r == w.originRevId {
      FirstSeenIsStored(snaps, t);
    } else if r == w.lastRevId {
      LastSeenIsStored(snaps, t);
    } else if r in w.inbound {
      InIsStored(snaps, t, r);
    } else {
      OutIsStored(snaps, t, r);
    }
  }

  /** When every stored revision id fits a signed word, so does every record of the token
      file: writing it can only fail for the number of tokens. */
  lemma SavedTokensFit(st: ArticleState, file: StoredArticle)
    requires GoodState(st) && Projects(st, file)
    requires forall r :: r in st.orderedRevisions ==> TokensFile.RevIdFits(r)
    ensures forall t :: t in file.tokens ==> TokensFile.TokenFits(t)
  {
    hide GoodState, Shaped, Table, ProjectMeta, ProjectRevisions;
    var tokens := st.arenas.tokens;
    forall t | t in file.tokens ensures TokensFile.TokenFits(t) {
      var i :| 0 <= i < |file.tokens| && file.tokens[i] == t;
      assert InternsOne(tokens[i], file.strings, file.tokens[i]);
      forall r | r == t.originRevId || r == t.lastRevId || r in t.inbound || r in t.outbound
          ensures TokensFile.RevIdFits(r) {
        RecordMentionsStored(st, i, r);
      }
    }
  }

  lemma {:induction false} RowIds(st: ArticleState, ids: seq<RevId>)
    requires RevisionsAligned(st) && forall r :: r in ids ==> r in st.revisions
    ensures |ProjectRevisions(st, ids)| == |ids|
    ensures forall k :: 0 <= k < |ids| ==> ProjectRevisions(st, ids)[k].revId == ids[k]
  {
    hide Aligned, Pairs, RevTokens;
    if ids != [] {
      var n := |ids| - 1;
      assert ids[n] in ids && forall r :: r in ids[..n] ==> r in ids;
      RowIds(st, ids[..n]);
    }
  }

  /** No two revisions of a saved article share an id, so reading one by its id finds what a
      scan of the revisions file would. */
  lemma SavedIdsDistinct(st: ArticleState, file: StoredArticle)
    requires GoodState(st) && Projects(st, file)
    ensures RevisionsFile.DistinctIds(file.revisions)
  {
    hide GoodState, Shaped, Table, ProjectMeta, ProjectRevisions, Interns;
    RevisionsDistinct(st);
    RowIds(st, st.orderedRevisions);
  }

  lemma RevisionsDistinct(st: ArticleState)
    requires GoodState(st)
    ensures NoDup(st.orderedRevisions) && RevisionsAligned(st) &&
      forall r :: r in st.orderedRevisions ==> r in st.revisions
  {
    hide HistoryOk, GoodArenas;
    RevisionsAreAligned(st);
  }
}
