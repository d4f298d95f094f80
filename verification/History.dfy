/** The per-revision step over whole articles: every token's record is its presence history. */
module History {
  import opened Wrappers
  import opened Seqs
  import opened Buckets
  import opened TextOps
  import opened Structures
  import opened CascadeSpec
  import opened CascadeShape
  import opened Accounting
  import opened WordLevel
  import opened Presence

  // ----- recording -----

  /** What a step does to the record of a token it did not create. */
  function StepWord(w: Word, inPrev: bool, inCurr: bool, prevRev: RevId, rev: RevId): Word {
    if inCurr then
      w.(inbound := if w.lastRevId != prevRev then w.inbound + [rev] else w.inbound, lastRevId := rev)
    else if inPrev then w.(outbound := w.outbound + [rev])
    else w
  }

  ghost predicate NotYetOut(tokens: seq<Word>, rev: RevId) {
    forall t :: 0 <= t < |tokens| && tokens[t].outbound != [] ==> tokens[t].outbound[|tokens[t].outbound| - 1] != rev
  }

  /** The recorder turns the cascade's bookkeeping into the step's effect on each token. */
  lemma RecorderTheorem(a0: Arenas, prev: seq<ParagraphId>, curr0: Revision, c: Cascade, prevRev: RevId)
    requires CascadeOk(a0, prev, curr0, c) && !c.vandalism
    requires NotYetOut(a0.tokens, curr0.id)
    ensures var tokens := RecordInboundOutbound(c, prevRev, curr0.id).tokens;
      var live := RevTokens(c.arenas, c.curr);
      && |tokens| == |c.arenas.tokens| >= |a0.tokens|
      && (forall t :: 0 <= t < |a0.tokens| ==>
            tokens[t] == StepWord(a0.tokens[t], t in WordsIn(a0, prev), t in live, prevRev, curr0.id))
      && (forall t :: |a0.tokens| <= t < |tokens| ==>
            t in live && tokens[t] == Word(t, tokens[t].value, curr0.id, curr0.id, [], []))
      &&
        (forall t :: 0 <= t < |tokens|
          ==> tokens[t].value == c.arenas.tokens[t].value && tokens[t].tokenId == c.arenas.tokens[t].tokenId)
  {
    var live, rev := RevTokens(c.arenas, c.curr), curr0.id;
    var out, in_ := OutWalk(c.arenas, c), InWalk(c.arenas, c);
    var tokens := RecordInboundOutbound(c, prevRev, rev).tokens;
    hide RevTokens, OutWalk, InWalk, WordsIn, GoodIndex, NewNodesLive, Frozen, StepWord, Recorded, MarkDeleted,
      NotYetOut, WalksOk, CountsUp;
    forall t | 0 <= t < |a0.tokens|
      ensures tokens[t] == StepWord(a0.tokens[t], t in WordsIn(a0, prev), t in live, prevRev, rev)
    {
      assert t in Elems(out) <==> t in out;
      assert t in Elems(in_) <==> t in in_;
      TokenNotYetOut(a0.tokens, t, rev);
      RecordedIsStep(a0.tokens[t], t in WordsIn(a0, prev), t in live, t in c.matchedTokens, t in out, t in in_,
          prevRev, rev);
    }
    forall t | |a0.tokens| <= t < |tokens|
      ensures t in live && tokens[t] == Word(t, tokens[t].value, rev, rev, [], [])
    {
      NotMatchedStays(c.arenas.tokens[t], prevRev, rev);
    }
    forall t | 0 <= t < |tokens|
      ensures tokens[t].value == c.arenas.tokens[t].value && tokens[t].tokenId == c.arenas.tokens[t].tokenId
    {
      RecordedKeeps(c.arenas.tokens[t], t in Elems(out) && t !in c.matchedTokens, t in Elems(in_)
          && t in c.matchedTokens, prevRev, rev);
    }
  }

  /** Recording leaves what every token stands for as it was. */
  lemma RecorderKeeps(a0: Arenas, prev: seq<ParagraphId>, curr0: Revision, c: Cascade, prevRev: RevId)
    requires CascadeOk(a0, prev, curr0, c)
    ensures var tokens := RecordInboundOutbound(c, prevRev, curr0.id).tokens;
      && |tokens| == |c.arenas.tokens| >= |a0.tokens|
      && (forall t :: 0 <= t < |a0.tokens| ==> tokens[t].value == a0.tokens[t].value)
      &&
        (forall t :: 0 <= t < |tokens|
          ==> tokens[t].value == c.arenas.tokens[t].value && tokens[t].tokenId == c.arenas.tokens[t].tokenId)
  {
    hide RevTokens, OutWalk, InWalk, WordsIn, GoodIndex, NewNodesLive, Frozen, Recorded, WalksOk, CountsUp,
      Accounted;
    var out, in_ := OutWalk(c.arenas, c), InWalk(c.arenas, c);
    var tokens := RecordInboundOutbound(c, prevRev, curr0.id).tokens;
    forall t | 0 <= t < |tokens|
      ensures tokens[t].value == c.arenas.tokens[t].value && tokens[t].tokenId == c.arenas.tokens[t].tokenId
    {
      RecordedKeeps(c.arenas.tokens[t], t in Elems(out) && t !in c.matchedTokens, t in Elems(in_)
          && t in c.matchedTokens, prevRev, curr0.id);
    }
  }

  lemma TokenNotYetOut(tokens: seq<Word>, t: TokenId, rev: RevId)
    requires NotYetOut(tokens, rev) && t < |tokens|
    ensures tokens[t].outbound != [] ==> tokens[t].outbound[|tokens[t].outbound| - 1] != rev
  {
  }

  lemma NotMatchedStays(w: Word, prevRev: RevId, rev: RevId)
    ensures Recorded(w, false, false, prevRev, rev) == w
  {
  }

  lemma RecordedKeeps(w: Word, deleted: bool, present: bool, prevRev: RevId, rev: RevId)
    ensures var r := Recorded(w, deleted, present, prevRev, rev); r.value == w.value && r.tokenId == w.tokenId
  {
  }

  /** One old token: cascade and recorder together are one step of its history. */
  lemma RecordedIsStep(w: Word, inPrev: bool, inLive: bool, matched: bool, out: bool, in_: bool, prevRev: RevId,
      rev: RevId)
    requires w.outbound != [] ==> w.outbound[|w.outbound| - 1] != rev
    requires inLive ==> matched && in_
    requires matched && !inLive ==> inPrev
    requires out && !matched ==> inPrev
    requires inPrev && !matched ==> out
    ensures var cascaded := if matched && !inLive then MarkDeleted(w, rev) else w;
      Recorded(cascaded, out && !matched, in_ && matched, prevRev, rev) == StepWord(w, inPrev, inLive, prevRev, rev)
  {
  }

  // ----- committing -----

  /** Values aside, the nodes are the same. */
  ghost predicate SameNodes(a: Arenas, b: Arenas) {
    && |a.sentences| == |b.sentences| && |a.paragraphs| == |b.paragraphs|
    && (forall i :: 0 <= i < |a.sentences| ==> b.sentences[i] == a.sentences[i].(value := b.sentences[i].value))
    && (forall i :: 0 <= i < |a.paragraphs| ==> b.paragraphs[i] == a.paragraphs[i].(value := b.paragraphs[i].value))
  }

  lemma {:induction false} CommitParagraphsFacts(a: Arenas, pids: seq<ParagraphId>)
    requires forall pid :: pid in pids ==> pid < |a.paragraphs|
    ensures var b := CommitParagraphs(a, pids);
      && b == a.(paragraphsHt := b.paragraphsHt, paragraphs := b.paragraphs)
      && SameNodes(a, b)
      && (forall i :: 0 <= i < |a.paragraphs| && i !in pids ==> b.paragraphs[i] == a.paragraphs[i])
      && (forall h, pid: ParagraphId :: pid in Bucket(b.paragraphsHt, h) ==>
            pid in Bucket(a.paragraphsHt, h) || (pid in pids && a.paragraphs[pid].hashValue == h))
    decreases |pids|
  {
    if pids != [] {
      assert pids[0] in pids && forall x :: x in pids[1..] ==> x in pids;
      var p := a.paragraphs[pids[0]];
      var a' := a.(paragraphsHt := Push(a.paragraphsHt, p.hashValue, pids[0]),
                   paragraphs := a.paragraphs[pids[0] := p.(value := "")]);
      CommitParagraphsFacts(a', pids[1..]);
      forall h, pid: ParagraphId | pid in Bucket(a'.paragraphsHt, h)
        ensures pid in Bucket(a.paragraphsHt, h) || (pid in pids && a.paragraphs[pid].hashValue == h)
      {
      }
    }
  }

  lemma {:induction false} CommitSentencesFacts(a: Arenas, sids: seq<SentenceId>)
    requires forall sid :: sid in sids ==> sid < |a.sentences|
    ensures var b := CommitSentences(a, sids);
      && b == a.(sentencesHt := b.sentencesHt, sentences := b.sentences)
      && SameNodes(a, b)
      && (forall i :: 0 <= i < |a.sentences| && i !in sids ==> b.sentences[i] == a.sentences[i])
      && (forall h, sid: SentenceId :: sid in Bucket(b.sentencesHt, h) ==>
            sid in Bucket(a.sentencesHt, h) || (sid in sids && a.sentences[sid].hashValue == h))
    decreases |sids|
  {
    if sids != [] {
      assert sids[0] in sids && forall x :: x in sids[1..] ==> x in sids;
      var s := a.sentences[sids[0]];
      var a' := a.(sentencesHt := Push(a.sentencesHt, s.hashValue, sids[0]),
                   sentences := a.sentences[sids[0] := s.(value := "")]);
      CommitSentencesFacts(a', sids[1..]);
      forall h, sid: SentenceId | sid in Bucket(a'.sentencesHt, h)
        ensures sid in Bucket(a.sentencesHt, h) || (sid in sids && a.sentences[sid].hashValue == h)
      {
      }
    }
  }

  lemma RangeMember(ids: seq<nat>, from: nat, x: nat)
    requires CountsUp(ids, from) && from <= x < from + |ids|
    ensures x in ids
  {
    assert ids[x - from] == x;
  }

  lemma TokensOnlyExtends(a: Arenas, tokens: seq<Word>)
    requires |tokens| == |a.tokens|
    requires forall t :: 0 <= t < |tokens| ==> tokens[t].value == a.tokens[t].value
    ensures Extends(a, a.(tokens := tokens))
  {
  }

  lemma SameNodesExtends(a: Arenas, b: Arenas)
    requires SameNodes(a, b) && b.tokens == a.tokens
    ensures Extends(a, b)
  {
  }

  /** The arenas after a stored step. */
  function CommitArenas(c: Cascade, prevRev: RevId, rev: RevId): Arenas {
    CommitSentences(CommitParagraphs(RecordInboundOutbound(c, prevRev, rev), c.unmatchedParagraphsCurr),
        c.unmatchedSentencesCurr)
  }

  /** An entry of the later table is an entry of the earlier one or a new node under its hash. */
  ghost predicate ParagraphEntry(a0: Arenas, a: Arenas, h: Hash, pid: ParagraphId) {
    pid in Bucket(a0.paragraphsHt, h) || (|a0.paragraphs| <= pid < |a.paragraphs| && a.paragraphs[pid].hashValue == h)
  }

  ghost predicate SentenceEntry(a0: Arenas, a: Arenas, h: Hash, sid: SentenceId) {
    sid in Bucket(a0.sentencesHt, h) || (|a0.sentences| <= sid < |a.sentences| && a.sentences[sid].hashValue == h)
  }

  /** Old nodes come back from the commit untouched, and the tables gain only new ones. */
  ghost predicate TablesGrow(a0: Arenas, a: Arenas) {
    && a0.sentences <= a.sentences && a0.paragraphs <= a.paragraphs
    && (forall h, pid: ParagraphId :: pid in Bucket(a.paragraphsHt, h) ==>
          ParagraphEntry(a0, a, h, pid))
    && (forall h, sid: SentenceId :: sid in Bucket(a.sentencesHt, h) ==>
          SentenceEntry(a0, a, h, sid))
  }

  lemma ParagraphTableGrows(a0: Arenas, r: Arenas, pids: seq<ParagraphId>)
    requires Frozen(a0, r) && CountsUp(pids, |a0.paragraphs|) && |r.paragraphs| == |a0.paragraphs| + |pids|
    ensures var b := CommitParagraphs(r, pids);
      && SameNodes(r, b) && b == r.(paragraphsHt := b.paragraphsHt, paragraphs := b.paragraphs)
      && a0.paragraphs <= b.paragraphs
      && (forall h, pid: ParagraphId :: pid in Bucket(b.paragraphsHt, h) ==>
            ParagraphEntry(a0, b, h, pid))
  {
    hide CommitParagraphs;
    CommitParagraphsFacts(r, pids);
    var b := CommitParagraphs(r, pids);
    forall h, pid: ParagraphId | pid in Bucket(b.paragraphsHt, h)
      ensures ParagraphEntry(a0, b, h, pid)
    {
      if pid !in Bucket(r.paragraphsHt, h) {
        assert pid in pids && r.paragraphs[pid].hashValue == h;
        assert b.paragraphs[pid].hashValue == h;
      }
    }
  }

  lemma SentenceTableGrows(a0: Arenas, b: Arenas, sids: seq<SentenceId>)
    requires a0.sentences <= b.sentences && b.sentencesHt == a0.sentencesHt
    requires CountsUp(sids, |a0.sentences|) && |b.sentences| == |a0.sentences| + |sids|
    ensures var a := CommitSentences(b, sids);
      && SameNodes(b, a) && a == b.(sentencesHt := a.sentencesHt, sentences := a.sentences)
      && a0.sentences <= a.sentences
      && (forall h, sid: SentenceId :: sid in Bucket(a.sentencesHt, h) ==>
            SentenceEntry(a0, a, h, sid))
  {
    hide CommitSentences;
    CommitSentencesFacts(b, sids);
    var a := CommitSentences(b, sids);
    forall h, sid: SentenceId | sid in Bucket(a.sentencesHt, h)
      ensures SentenceEntry(a0, a, h, sid)
    {
      if sid !in Bucket(b.sentencesHt, h) {
        assert sid in sids && b.sentences[sid].hashValue == h;
        assert a.sentences[sid].hashValue == h;
      }
    }
  }

  lemma CascadeParts(a0: Arenas, prev: seq<ParagraphId>, curr0: Revision, c: Cascade)
    requires CascadeOk(a0, prev, curr0, c)
    ensures CountsUp(c.unmatchedParagraphsCurr, |a0.paragraphs|)
    ensures CountsUp(c.unmatchedSentencesCurr, |a0.sentences|)
    ensures |c.arenas.paragraphs| == |a0.paragraphs| + |c.unmatchedParagraphsCurr|
    ensures |c.arenas.sentences| == |a0.sentences| + |c.unmatchedSentencesCurr|
    ensures Frozen(a0, c.arenas) && NewNodesLive(a0, c.arenas) && TokensNumbered(c.arenas)
    ensures GoodIndex(c.arenas, c.curr.paragraphs, c.curr.orderedParagraphs)
    ensures c.curr.id == curr0.id && c.curr.originalAdds + |a0.tokens| == curr0.originalAdds + |c.arenas.tokens|
  {
    hide Frozen, NewNodesLive, TokensNumbered, GoodIndex, Accounted, TokenRecords, CountsUp;
  }

  lemma CommitShape(a0: Arenas, prev: seq<ParagraphId>, curr0: Revision, c: Cascade, prevRev: RevId)
    requires CascadeOk(a0, prev, curr0, c) && !c.vandalism
    ensures var a := CommitArenas(c, prevRev, curr0.id);
      && a.tokens == RecordInboundOutbound(c, prevRev, curr0.id).tokens
      && a.nextTokenId == c.arenas.nextTokenId
      && Extends(c.arenas, a)
      && TablesGrow(a0, a)
      && |a.paragraphs| == |c.arenas.paragraphs| && |a.sentences| == |c.arenas.sentences|
  {
    hide CascadeOk, RecordInboundOutbound, CommitParagraphs, CommitSentences, NotYetOut, Extends, GoodIndex,
      NewNodesLive, TokensNumbered, CountsUp, RevTokens, WordsIn;
    var rev := curr0.id;
    var r := RecordInboundOutbound(c, prevRev, rev);
    CascadeParts(a0, prev, curr0, c);
    RecorderKeeps(a0, prev, curr0, c, prevRev);
    RecordOnlyTokens(c, prevRev, rev);
    var b := CommitParagraphs(r, c.unmatchedParagraphsCurr);
    ParagraphTableGrows(a0, r, c.unmatchedParagraphsCurr);
    var a := CommitSentences(b, c.unmatchedSentencesCurr);
    SentenceTableGrows(a0, b, c.unmatchedSentencesCurr);
    TokensOnlyExtends(c.arenas, r.tokens);
    SameNodesExtends(r, b);
    SameNodesExtends(b, a);
    ExtendsTrans(c.arenas, r, b);
    ExtendsTrans(c.arenas, b, a);
  }

  lemma RecordOnlyTokens(c: Cascade, prevRev: RevId, rev: RevId)
    ensures var r := RecordInboundOutbound(c, prevRev, rev); r == c.arenas.(tokens := r.tokens)
  {
  }

  lemma FrozenExtends(a0: Arenas, a: Arenas)
    requires a0.sentences <= a.sentences && a0.paragraphs <= a.paragraphs && |a0.tokens| <= |a.tokens|
    requires forall t :: 0 <= t < |a0.tokens| ==> a.tokens[t].value == a0.tokens[t].value
    ensures Extends(a0, a)
  {
  }

  lemma TablesLive(a0: Arenas, mid: Arenas, a: Arenas)
    requires GoodTables(a0) && NewNodesLive(a0, mid)
    requires Extends(a0, a) && Extends(mid, a) && TablesGrow(a0, a)
    requires |a.paragraphs| == |mid.paragraphs| && |a.sentences| == |mid.sentences|
    ensures GoodTables(a)
  {
    hide LiveParagraph, LiveSentence, Extends;
    forall h, pid | h in a.paragraphsHt && pid in a.paragraphsHt[h] ensures ParagraphUnder(a, pid, h) {
      assert pid in Bucket(a.paragraphsHt, h);
      if pid in Bucket(a0.paragraphsHt, h) {
        assert ParagraphUnder(a0, pid, h);
        LiveParagraphIn(a0, pid);
        LiveParagraphExtends(a0, a, pid);
        HashExtends(a0, a, pid);
      } else {
        assert ParagraphEntry(a0, a, h, pid);
        LiveParagraphExtends(mid, a, pid);
      }
    }
    forall h, sid | h in a.sentencesHt && sid in a.sentencesHt[h] ensures SentenceUnder(a, sid, h) {
      assert sid in Bucket(a.sentencesHt, h);
      if sid in Bucket(a0.sentencesHt, h) {
        assert SentenceUnder(a0, sid, h);
        LiveSentenceIn(a0, sid);
        LiveSentenceExtends(a0, a, sid);
        SentenceHashExtends(a0, a, sid);
      } else {
        assert SentenceEntry(a0, a, h, sid);
        LiveSentenceExtends(mid, a, sid);
      }
    }
  }

  lemma HashExtends(a: Arenas, b: Arenas, pid: ParagraphId)
    requires Extends(a, b) && pid < |a.paragraphs|
    ensures pid < |b.paragraphs| && b.paragraphs[pid].hashValue == a.paragraphs[pid].hashValue
  {
  }

  lemma SentenceHashExtends(a: Arenas, b: Arenas, sid: SentenceId)
    requires Extends(a, b) && sid < |a.sentences|
    ensures sid < |b.sentences| && b.sentences[sid].hashValue == a.sentences[sid].hashValue
  {
  }

  /** The tables, the new revision's index and all old nodes are in order after the step. */
  lemma CommitGood(a0: Arenas, prev: seq<ParagraphId>, curr0: Revision, c: Cascade, prevRev: RevId)
    requires GoodArenas(a0) && CascadeOk(a0, prev, curr0, c) && !c.vandalism
    ensures var a := CommitArenas(c, prevRev, curr0.id);
      && GoodArenas(a) && Extends(a0, a) && TablesGrow(a0, a)
      && GoodIndex(a, c.curr.paragraphs, c.curr.orderedParagraphs)
      && RevTokens(a, c.curr) == RevTokens(c.arenas, c.curr)
  {
    hide CascadeOk, CommitArenas, RecordInboundOutbound, NotYetOut, GoodIndex, RevTokens, GoodTables, NewNodesLive,
      TablesGrow, Extends, WordsIn;
    var a := CommitArenas(c, prevRev, curr0.id);
    CommitShape(a0, prev, curr0, c, prevRev);
    RecorderKeeps(a0, prev, curr0, c, prevRev);
    CascadeParts(a0, prev, curr0, c);
    GrowsExtends(a0, a);
    GoodIndexExtends(c.arenas, a, c.curr.paragraphs, c.curr.orderedParagraphs);
    RevTokensIs(a, c.curr);
    RevTokensIs(c.arenas, c.curr);
    TablesLive(a0, c.arenas, a);
  }

  lemma GrowsExtends(a0: Arenas, a: Arenas)
    requires TablesGrow(a0, a) && |a0.tokens| <= |a.tokens|
    requires forall t :: 0 <= t < |a0.tokens| ==> a.tokens[t].value == a0.tokens[t].value
    ensures Extends(a0, a)
  {
    FrozenExtends(a0, a);
  }

  lemma RevTokensIs(a: Arenas, rev: Revision)
    ensures RevTokens(a, rev) == WordsIn(a, Walk(rev.paragraphs, rev.orderedParagraphs))
  {
  }

  lemma LiveParagraphIn(a: Arenas, pid: ParagraphId)
    requires LiveParagraph(a, pid)
    ensures pid < |a.paragraphs|
  {
  }

  lemma LiveSentenceIn(a: Arenas, sid: SentenceId)
    requires LiveSentence(a, sid)
    ensures sid < |a.sentences|
  {
  }

  // ----- whole articles -----

  /** What every operation needs of an article: live tables and live stored revisions. */
  ghost predicate Shaped(st: ArticleState) {
    && GoodArenas(st.arenas)
    && forall r :: r in st.revisions ==> GoodIndex(st.arenas, st.revisions[r].paragraphs,
        st.revisions[r].orderedParagraphs)
  }

  lemma GoodIsShaped(st: ArticleState)
    requires GoodState(st)
    ensures Shaped(st)
  {
    hide GoodArenas, GoodIndex, HistoryOk;
  }

  ghost predicate GoodRevisions(st: ArticleState) {
    && NoDup(st.orderedRevisions)
    && (forall r :: r in st.revisions <==> r in st.orderedRevisions)
    && st.lastGoodRevId == (if st.orderedRevisions == [] then 0 else st.orderedRevisions[|st.orderedRevisions| - 1])
    && forall r :: r in st.revisions ==>
         && st.revisions[r].id == r
         && GoodIndex(st.arenas, st.revisions[r].paragraphs, st.revisions[r].orderedParagraphs)
  }

  function TokensAt(st: ArticleState, r: RevId): seq<TokenId> {
    if r in st.revisions then RevTokens(st.arenas, st.revisions[r]) else []
  }

  /** The token sequences of the stored revisions, in processing order. */
  function Snapshots(st: ArticleState): (snaps: seq<Snapshot>)
    ensures |snaps| == |st.orderedRevisions|
    ensures
      forall i :: 0 <= i < |snaps|
        ==> snaps[i] == Snapshot(st.orderedRevisions[i], TokensAt(st, st.orderedRevisions[i]))
  {
    seq(|st.orderedRevisions|, i requires 0 <= i < |st.orderedRevisions| =>
      Snapshot(st.orderedRevisions[i], TokensAt(st, st.orderedRevisions[i])))
  }

  /** Every token's record is its presence history, and snapshots hold only known tokens. */
  ghost predicate HistoryOk(snaps: seq<Snapshot>, tokens: seq<Word>) {
    && (forall t :: 0 <= t < |tokens| ==> RecordIs(snaps, t, tokens[t]))
    && (forall i, t :: 0 <= i < |snaps| && t in snaps[i].tokens ==> t < |tokens|)
  }

  ghost predicate GoodState(st: ArticleState) {
    && GoodArenas(st.arenas) && GoodRevisions(st)
    && HistoryOk(Snapshots(st), st.arenas.tokens)
  }

  lemma NewArticleGood(title: string)
    ensures GoodState(NewArticle(title))
  {
  }

  lemma SnapshotsDistinct(st: ArticleState)
    requires GoodRevisions(st)
    ensures DistinctRevs(Snapshots(st))
  {
    hide TokensAt, GoodIndex;
  }

  /** Stored revisions have ids other than a fresh one, so no record ends in it yet. */
  lemma RecordsNotYetOut(snaps: seq<Snapshot>, tokens: seq<Word>, rev: RevId)
    requires HistoryOk(snaps, tokens)
    requires forall i :: 0 <= i < |snaps| ==> snaps[i].rev != rev
    ensures NotYetOut(tokens, rev)
  {
    forall t | 0 <= t < |tokens| && tokens[t].outbound != []
      ensures tokens[t].outbound[|tokens[t].outbound| - 1] != rev
    {
      var out := tokens[t].outbound;
      assert RecordIs(snaps, t, tokens[t]);
      OutIsStored(snaps, t, out[|out| - 1]);
    }
  }

  /** The step's effect on an old token's record is the one the longer history asks for. */
  lemma StepRecord(snaps: seq<Snapshot>, s: Snapshot, t: TokenId, w: Word)
    requires DistinctRevs(snaps) && RecordIs(snaps, t, w)
    ensures RecordIs(snaps + [s], t, StepWord(w, InLast(snaps, t), t in s.tokens, LastRev(snaps), s.rev))
  {
    var snaps' := snaps + [s];
    assert snaps'[..|snaps|] == snaps;
    SeenSplits(snaps', t);
    LastSeenNewest(snaps, t);
  }

  lemma FreshRecord(snaps: seq<Snapshot>, s: Snapshot, t: TokenId, value: string)
    requires !Seen(snaps, t) && t in s.tokens
    ensures RecordIs(snaps + [s], t, Word(t, value, s.rev, s.rev, [], []))
  {
    var snaps' := snaps + [s];
    assert snaps'[..|snaps|] == snaps;
    SeenSplits(snaps', t);
    NeverSeenNeverIn(snaps, t);
    if snaps != [] { SeenSplits(snaps, t); }
  }

  lemma HistoryStep(snaps: seq<Snapshot>, tokens: seq<Word>, s: Snapshot, tokens': seq<Word>)
    requires HistoryOk(snaps, tokens) && DistinctRevs(snaps) && |tokens| <= |tokens'|
    requires forall t :: 0 <= t < |tokens| ==>
      tokens'[t] == StepWord(tokens[t], InLast(snaps, t), t in s.tokens, LastRev(snaps), s.rev)
    requires forall t :: |tokens| <= t < |tokens'| ==>
      t in s.tokens && tokens'[t] == Word(t, tokens'[t].value, s.rev, s.rev, [], [])
    requires forall t :: t in s.tokens ==> t < |tokens'|
    ensures HistoryOk(snaps + [s], tokens')
  {
    forall t | 0 <= t < |tokens'| ensures RecordIs(snaps + [s], t, tokens'[t]) {
      if t < |tokens| {
        StepRecord(snaps, s, t, tokens[t]);
      } else {
        FreshRecord(snaps, s, t, tokens'[t].value);
      }
    }
  }

  lemma EmptyIndexGood(a: Arenas)
    ensures GoodIndex(a, map[], []) && WordsIn(a, Walk(map[], [])) == []
  {
  }

  lemma PrevIndex(st: ArticleState)
    requires Shaped(st)
    ensures var prev := PrevRevision(st); GoodIndex(st.arenas, prev.paragraphs, prev.orderedParagraphs)
  {
    hide GoodIndex, GoodArenas;
    EmptyIndexGood(st.arenas);
  }

  lemma PrevFacts(st: ArticleState)
    requires GoodState(st)
    ensures var prev := PrevRevision(st);
      && GoodIndex(st.arenas, prev.paragraphs, prev.orderedParagraphs)
      && prev.id == LastRev(Snapshots(st))
      && forall t :: t in WordsIn(st.arenas, Walk(prev.paragraphs, prev.orderedParagraphs))
          <==> InLast(Snapshots(st), t)
  {
    hide GoodIndex, GoodArenas, HistoryOk, WordsIn, Walk;
    EmptyIndexGood(st.arenas);
    RevTokensIs(st.arenas, PrevRevision(st));
  }

  lemma IndexBounded(a: Arenas, rev: Revision)
    requires GoodIndex(a, rev.paragraphs, rev.orderedParagraphs)
    ensures forall t :: t in RevTokens(a, rev) ==> t < |a.tokens|
  {
    hide LiveParagraph, Walk;
    WordsBounded(a, Pids(rev));
  }

  lemma SnapshotsAppend(st: ArticleState, st': ArticleState, rev: RevId)
    requires GoodRevisions(st) && rev !in st.revisions
    requires st'.orderedRevisions == st.orderedRevisions + [rev]
    requires rev in st'.revisions &&
      forall r :: r in st.revisions ==> r in st'.revisions && st'.revisions[r] == st.revisions[r]
    requires Extends(st.arenas, st'.arenas)
    ensures Snapshots(st') == Snapshots(st) + [Snapshot(rev, RevTokens(st'.arenas, st'.revisions[rev]))]
  {
    hide GoodIndex, Extends, RevTokens;
    forall i | 0 <= i < |st.orderedRevisions| ensures Snapshots(st')[i] == Snapshots(st)[i] {
      var r := st.orderedRevisions[i];
      TokensFrozen(st, st', r);
    }
  }

  lemma TokensFrozen(st: ArticleState, st': ArticleState, r: RevId)
    requires r in st.revisions && r in st'.revisions && st'.revisions[r] == st.revisions[r]
    requires GoodIndex(st.arenas, st.revisions[r].paragraphs, st.revisions[r].orderedParagraphs)
    requires Extends(st.arenas, st'.arenas)
    ensures TokensAt(st', r) == TokensAt(st, r)
    ensures GoodIndex(st'.arenas, st'.revisions[r].paragraphs, st'.revisions[r].orderedParagraphs)
  {
    hide GoodIndex, Extends;
    GoodIndexExtends(st.arenas, st'.arenas, st.revisions[r].paragraphs, st.revisions[r].orderedParagraphs);
  }

  lemma CascadeRuns(ops: TextOps, st: ArticleState, input: RevisionInput)
    requires Shaped(st)
    ensures var c := CascadeOf(ops, st, input); var prev := PrevRevision(st);
      if c.vandalism then OnlyAppended(st.arenas, c.arenas)
      else CascadeOk(st.arenas, Walk(prev.paragraphs, prev.orderedParagraphs), FreshRevision(input), c)
  {
    PrevIndex(st);
    hide GoodIndex, GoodArenas, Walk, DetermineAuthorship;
    var prev := PrevRevision(st);
    CascadeTheorem(ops, st.arenas, ops.lower(input.text), prev.paragraphs, prev.orderedParagraphs,
        FreshRevision(input));
  }

  lemma CommitRevisions(st: ArticleState, input: RevisionInput, c: Cascade)
    requires GoodRevisions(st) && input.revId !in st.orderedRevisions
    requires c.curr.id == input.revId
    requires var a := Commit(st, input, c).arenas;
      Extends(st.arenas, a) && GoodIndex(a, c.curr.paragraphs, c.curr.orderedParagraphs)
    ensures GoodRevisions(Commit(st, input, c))
  {
    hide GoodIndex, Extends, RecordInboundOutbound, CommitParagraphs, CommitSentences;
    var st' := Commit(st, input, c);
    NoDupAppend(st.orderedRevisions, [input.revId]);
    forall r | r in st'.revisions
      ensures st'.revisions[r].id == r
      ensures GoodIndex(st'.arenas, st'.revisions[r].paragraphs, st'.revisions[r].orderedParagraphs)
    {
      if r != input.revId {
        GoodIndexExtends(st.arenas, st'.arenas, st.revisions[r].paragraphs, st.revisions[r].orderedParagraphs);
      }
    }
  }

  lemma AppendedTables(a: Arenas, b: Arenas)
    requires GoodArenas(a) && OnlyAppended(a, b)
    ensures GoodArenas(b) && Extends(a, b)
  {
    FrozenExtends(a, b);
    assert b.paragraphsHt == a.paragraphsHt && b.sentencesHt == a.sentencesHt;
    assert TokensNumbered(b);
    hide LiveParagraph, LiveSentence, OnlyAppended, Extends, TokensNumbered;
    forall h, pid | h in b.paragraphsHt && pid in b.paragraphsHt[h] ensures ParagraphUnder(b, pid, h) {
      assert ParagraphUnder(a, pid, h);
      LiveParagraphIn(a, pid);
      LiveParagraphExtends(a, b, pid);
      HashExtends(a, b, pid);
    }
    forall h, sid | h in b.sentencesHt && sid in b.sentencesHt[h] ensures SentenceUnder(b, sid, h) {
      assert SentenceUnder(a, sid, h);
      LiveSentenceIn(a, sid);
      LiveSentenceExtends(a, b, sid);
      SentenceHashExtends(a, b, sid);
    }
  }

  /** Any step keeps the shape, even for a revision that is fed again. */
  lemma StepShaped(ops: TextOps, st: ArticleState, input: RevisionInput)
    requires Shaped(st)
    ensures Shaped(AnalyseRevision(ops, st, input).0)
  {
    hide GoodIndex, GoodArenas, CascadeOf, CascadeOk, Walk, Extends, TablesGrow, RevTokens, OnlyAppended,
      RecordInboundOutbound, CommitParagraphs, CommitSentences, LengthShrinks;
    var c, prev := CascadeOf(ops, st, input), PrevRevision(st);
    var st' := AnalyseRevision(ops, st, input).0;
    CascadeRuns(ops, st, input);
    var outcome := AnalyseRevision(ops, st, input).1;
    if outcome == Vandalism(TokenDensity) {
      AppendedTables(st.arenas, c.arenas);
      IndexesExtend(st, st'.arenas);
    } else if outcome == Stored {
      CommitGood(st.arenas, Walk(prev.paragraphs, prev.orderedParagraphs), FreshRevision(input), c, prev.id);
      IndexesExtend(st, st'.arenas);
    }
  }

  lemma IndexesExtend(st: ArticleState, b: Arenas)
    requires Shaped(st) && Extends(st.arenas, b)
    ensures forall r :: r in st.revisions ==> GoodIndex(b, st.revisions[r].paragraphs,
        st.revisions[r].orderedParagraphs)
  {
    hide GoodIndex, GoodArenas, Extends;
    forall r | r in st.revisions ensures GoodIndex(b, st.revisions[r].paragraphs, st.revisions[r].orderedParagraphs) {
      GoodIndexExtends(st.arenas, b, st.revisions[r].paragraphs, st.revisions[r].orderedParagraphs);
    }
  }

  /** A stored revision extends every history by one snapshot and keeps the article good. */
  lemma StoredStep(ops: TextOps, st: ArticleState, input: RevisionInput)
    requires GoodState(st) && input.revId !in st.orderedRevisions
    requires AnalyseRevision(ops, st, input).1 == Stored
    ensures var st' := AnalyseRevision(ops, st, input).0;
      && GoodState(st')
      && Extends(st.arenas, st'.arenas) && TablesGrow(st.arenas, st'.arenas)
      && input.revId in st'.revisions
      && Snapshots(st') == Snapshots(st) + [Snapshot(input.revId, TokensAt(st', input.revId))]
      && st'.revisions == st.revisions[input.revId := st'.revisions[input.revId]]
      && st'.revisions[input.revId].originalAdds + |st.arenas.tokens| == |st'.arenas.tokens|
      && (forall t :: 0 <= t < |st.arenas.tokens| ==>
            st'.arenas.tokens[t] == StepWord(st.arenas.tokens[t], InLast(Snapshots(st), t),
                t in TokensAt(st', input.revId),
                                             LastRev(Snapshots(st)), input.revId))
      && (forall t :: |st.arenas.tokens| <= t < |st'.arenas.tokens| ==>
            st'.arenas.tokens[t] == Word(t, st'.arenas.tokens[t].value, input.revId, input.revId, [], []))
  {
    hide GoodIndex, GoodArenas, CascadeOf, CascadeOk, GoodRevisions, HistoryOk, Walk, Extends, TablesGrow, RevTokens,
      RecordInboundOutbound, NotYetOut, WordsIn, CommitParagraphs, CommitSentences, LengthShrinks;
    GoodIsShaped(st);
    var c, prev, rev := CascadeOf(ops, st, input), PrevRevision(st), input.revId;
    var pids, curr0 := Walk(prev.paragraphs, prev.orderedParagraphs), FreshRevision(input);
    var st' := AnalyseRevision(ops, st, input).0;
    var snaps := Snapshots(st);
    CascadeRuns(ops, st, input);
    PrevFacts(st);
    SnapshotsDistinct(st);
    RecordsNotYetOut(snaps, st.arenas.tokens, rev);
    CommitGood(st.arenas, pids, curr0, c, prev.id);
    CommitShape(st.arenas, pids, curr0, c, prev.id);
    RecorderTheorem(st.arenas, pids, curr0, c, prev.id);
    CascadeParts(st.arenas, pids, curr0, c);
    CommitRevisions(st, input, c);
    NotStored(st, rev);
    SnapshotsAppend(st, st', rev);
    IndexBounded(st'.arenas, c.curr);
    HistoryStep(snaps, st.arenas.tokens, Snapshot(rev, RevTokens(st'.arenas, c.curr)), st'.arenas.tokens);
  }

  lemma NotStored(st: ArticleState, rev: RevId)
    requires GoodRevisions(st) && rev !in st.orderedRevisions
    ensures rev !in st.revisions
  {
  }
}
