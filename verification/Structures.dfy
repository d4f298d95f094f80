/** The data the attribution algorithm carries across revisions. */
module Structures {
  import opened Wrappers
  import opened Seqs
  import opened Buckets

  type TokenId = nat
  type SentenceId = nat
  type ParagraphId = nat
  type RevId = nat

  datatype Word = Word(
    tokenId: TokenId, value: string, originRevId: RevId, lastRevId: RevId,
    inbound: seq<RevId>, outbound: seq<RevId>)

  datatype Sentence = Sentence(hashValue: Hash, value: string, words: seq<TokenId>)

  datatype Paragraph = Paragraph(
    hashValue: Hash, value: string,
    sentences: map<Hash, seq<SentenceId>>, orderedSentences: seq<Hash>)

  datatype Revision = Revision(
    id: RevId, editor: string, timestamp: string,
    paragraphs: map<Hash, seq<ParagraphId>>, orderedParagraphs: seq<Hash>,
    length: nat, originalAdds: nat, tokenSequenceOverride: Option<seq<TokenId>>)

  /** What `unwrap_or_default` yields when there is no previous revision. */
  const NO_REVISION := Revision(0, "", "", map[], [], 0, 0, None)

  /** Per-revision scratch: what the cascade has matched so far. */
  datatype MatchedSets = MatchedSets(
    paragraphs: set<ParagraphId>, sentences: set<SentenceId>, tokens: set<TokenId>)

  /** The part of an article that the matching cascade reads and extends. */
  datatype Arenas = Arenas(
    tokens: seq<Word>, sentences: seq<Sentence>, paragraphs: seq<Paragraph>,
    paragraphsHt: map<Hash, seq<ParagraphId>>, sentencesHt: map<Hash, seq<SentenceId>>,
    nextTokenId: TokenId)

  datatype ArticleState = ArticleState(
    title: string, pageId: Option<nat>, arenas: Arenas,
    revisions: map<RevId, Revision>, orderedRevisions: seq<RevId>, lastGoodRevId: RevId,
    spamIds: seq<RevId>, spamHashes: set<Hash>)

  function NewArticle(title: string): ArticleState {
    ArticleState(title, None, Arenas([], [], [], map[], map[], 0), map[], [], 0, [], {})
  }

  // ----- allocation -----

  function AllocWord(a: Arenas, value: string, originRev: RevId): Arenas {
    a.(tokens := a.tokens + [Word(a.nextTokenId, value, originRev, originRev, [], [])],
       nextTokenId := a.nextTokenId + 1)
  }

  function AllocSentence(a: Arenas, hash: Hash, value: string): Arenas {
    a.(sentences := a.sentences + [Sentence(hash, value, [])])
  }

  function AllocParagraph(a: Arenas, hash: Hash, value: string): Arenas {
    a.(paragraphs := a.paragraphs + [Paragraph(hash, value, map[], [])])
  }

  // ----- walking a revision in document order -----

  function SidsOf(paragraphs: seq<Paragraph>, pid: ParagraphId): seq<SentenceId> {
    if pid < |paragraphs| then Walk(paragraphs[pid].sentences, paragraphs[pid].orderedSentences) else []
  }

  function FlatSids(paragraphs: seq<Paragraph>, pids: seq<ParagraphId>): seq<SentenceId> {
    if pids == [] then [] else SidsOf(paragraphs, pids[0]) + FlatSids(paragraphs, pids[1..])
  }

  function WordsOf(sentences: seq<Sentence>, sid: SentenceId): seq<TokenId> {
    if sid < |sentences| then sentences[sid].words else []
  }

  function FlatWords(sentences: seq<Sentence>, sids: seq<SentenceId>): seq<TokenId> {
    if sids == [] then [] else WordsOf(sentences, sids[0]) + FlatWords(sentences, sids[1..])
  }

  function ParaWords(a: Arenas, pid: ParagraphId): seq<TokenId> {
    FlatWords(a.sentences, SidsOf(a.paragraphs, pid))
  }

  /** The words of a list of paragraphs, in document order. */
  function WordsIn(a: Arenas, pids: seq<ParagraphId>): seq<TokenId> {
    FlatWords(a.sentences, FlatSids(a.paragraphs, pids))
  }

  function Pids(rev: Revision): seq<ParagraphId> {
    Walk(rev.paragraphs, rev.orderedParagraphs)
  }

  function RevTokens(a: Arenas, rev: Revision): seq<TokenId> {
    WordsIn(a, Pids(rev))
  }

  function Values(tokens: seq<Word>, ids: seq<TokenId>): seq<string> {
    if ids == [] then []
    else [if ids[0] < |tokens| then tokens[ids[0]].value else ""] + Values(tokens, ids[1..])
  }

  // ----- how the walks split and grow -----

  lemma {:induction false} FlatSidsAppend(paragraphs: seq<Paragraph>, xs: seq<ParagraphId>, ys: seq<ParagraphId>)
    ensures FlatSids(paragraphs, xs + ys) == FlatSids(paragraphs, xs) + FlatSids(paragraphs, ys)
  {
    if xs == [] {
      assert xs + ys == ys;
    } else {
      assert (xs + ys)[1..] == xs[1..] + ys;
      FlatSidsAppend(paragraphs, xs[1..], ys);
    }
  }

  lemma {:induction false} FlatWordsAppend(sentences: seq<Sentence>, xs: seq<SentenceId>, ys: seq<SentenceId>)
    ensures FlatWords(sentences, xs + ys) == FlatWords(sentences, xs) + FlatWords(sentences, ys)
  {
    if xs == [] {
      assert xs + ys == ys;
    } else {
      assert (xs + ys)[1..] == xs[1..] + ys;
      FlatWordsAppend(sentences, xs[1..], ys);
    }
  }

  lemma {:induction false} ValuesAppend(tokens: seq<Word>, xs: seq<TokenId>, ys: seq<TokenId>)
    ensures Values(tokens, xs + ys) == Values(tokens, xs) + Values(tokens, ys)
  {
    if xs == [] {
      assert xs + ys == ys;
    } else {
      assert (xs + ys)[1..] == xs[1..] + ys;
      ValuesAppend(tokens, xs[1..], ys);
    }
  }

  lemma {:induction false} WordsInSingle(a: Arenas, pid: ParagraphId)
    ensures WordsIn(a, [pid]) == ParaWords(a, pid)
  {
    assert FlatSids(a.paragraphs, [pid]) == SidsOf(a.paragraphs, pid);
  }

  lemma WordsInAppend(a: Arenas, xs: seq<ParagraphId>, ys: seq<ParagraphId>)
    ensures WordsIn(a, xs + ys) == WordsIn(a, xs) + WordsIn(a, ys)
  {
    FlatSidsAppend(a.paragraphs, xs, ys);
    FlatWordsAppend(a.sentences, FlatSids(a.paragraphs, xs), FlatSids(a.paragraphs, ys));
  }

  lemma {:induction false} FlatSidsFrom(paragraphs: seq<Paragraph>, pids: seq<ParagraphId>, sid: SentenceId)
    requires sid in FlatSids(paragraphs, pids)
    ensures exists pid :: pid in pids && sid in SidsOf(paragraphs, pid)
  {
    if sid in SidsOf(paragraphs, pids[0]) {
    } else {
      FlatSidsFrom(paragraphs, pids[1..], sid);
    }
  }

  lemma {:induction false} FlatSidsHas(paragraphs: seq<Paragraph>, pids: seq<ParagraphId>, pid: ParagraphId)
    requires pid in pids
    ensures forall sid :: sid in SidsOf(paragraphs, pid) ==> sid in FlatSids(paragraphs, pids)
  {
    if pid != pids[0] {
      FlatSidsHas(paragraphs, pids[1..], pid);
    }
  }

  lemma {:induction false} FlatWordsFrom(sentences: seq<Sentence>, sids: seq<SentenceId>, w: TokenId)
    requires w in FlatWords(sentences, sids)
    ensures exists sid :: sid in sids && w in WordsOf(sentences, sid)
  {
    if w in WordsOf(sentences, sids[0]) {
    } else {
      FlatWordsFrom(sentences, sids[1..], w);
    }
  }

  lemma {:induction false} FlatWordsHas(sentences: seq<Sentence>, sids: seq<SentenceId>, sid: SentenceId)
    requires sid in sids
    ensures forall w :: w in WordsOf(sentences, sid) ==> w in FlatWords(sentences, sids)
  {
    if sid != sids[0] {
      FlatWordsHas(sentences, sids[1..], sid);
    }
  }

  lemma WordsInFrom(a: Arenas, pids: seq<ParagraphId>, w: TokenId)
    requires w in WordsIn(a, pids)
    ensures exists pid :: pid in pids && w in ParaWords(a, pid)
  {
    FlatWordsFrom(a.sentences, FlatSids(a.paragraphs, pids), w);
    var sid :| sid in FlatSids(a.paragraphs, pids) && w in WordsOf(a.sentences, sid);
    FlatSidsFrom(a.paragraphs, pids, sid);
    var pid :| pid in pids && sid in SidsOf(a.paragraphs, pid);
    FlatWordsHas(a.sentences, SidsOf(a.paragraphs, pid), sid);
  }

  lemma WordsInHas(a: Arenas, pids: seq<ParagraphId>, pid: ParagraphId)
    requires pid in pids
    ensures forall w :: w in ParaWords(a, pid) ==> w in WordsIn(a, pids)
  {
    FlatSidsHas(a.paragraphs, pids, pid);
    forall w | w in ParaWords(a, pid) ensures w in WordsIn(a, pids) {
      FlatWordsFrom(a.sentences, SidsOf(a.paragraphs, pid), w);
      var sid :| sid in SidsOf(a.paragraphs, pid) && w in WordsOf(a.sentences, sid);
      FlatWordsHas(a.sentences, FlatSids(a.paragraphs, pids), sid);
    }
  }

  // ----- what the walks depend on -----

  lemma {:induction false} FlatSidsFrame(p: seq<Paragraph>, q: seq<Paragraph>, pids: seq<ParagraphId>)
    requires forall pid :: pid in pids ==> SidsOf(p, pid) == SidsOf(q, pid)
    ensures FlatSids(p, pids) == FlatSids(q, pids)
  {
    if pids != [] {
      assert pids[0] in pids;
      FlatSidsFrame(p, q, pids[1..]);
    }
  }

  lemma {:induction false} FlatWordsFrame(s: seq<Sentence>, t: seq<Sentence>, sids: seq<SentenceId>)
    requires forall sid :: sid in sids ==> WordsOf(s, sid) == WordsOf(t, sid)
    ensures FlatWords(s, sids) == FlatWords(t, sids)
  {
    if sids != [] {
      assert sids[0] in sids;
      FlatWordsFrame(s, t, sids[1..]);
    }
  }

  lemma {:induction false} ValuesFrame(t: seq<Word>, u: seq<Word>, ids: seq<TokenId>)
    requires forall id :: id in ids ==> id < |t| && id < |u| && t[id].value == u[id].value
    ensures Values(t, ids) == Values(u, ids)
  {
    if ids != [] {
      assert ids[0] in ids && forall id :: id in ids[1..] ==> id in ids;
      ValuesFrame(t, u, ids[1..]);
    }
  }
}
