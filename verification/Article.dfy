/** The article container as an object: the cascade, the recorder and the per-revision step
    as the loops they are, each tied to the function that says what it computes. */
module ArticleClass {
  import opened Wrappers
  import opened Seqs
  import opened Buckets
  import opened TextOps
  import opened Structures
  import opened DifferSpec
  import opened CascadeSpec
  import opened CascadeShape
  import opened SentenceLevel
  import opened WordLevel
  import opened Accounting
  import opened History
  import opened Runs
  import Differ

  lemma {:induction false} SameMembersWords(sentences: seq<Sentence>, xs: seq<SentenceId>, ys: seq<SentenceId>)
    requires forall x :: x in xs ==> x in ys
    ensures Elems(FlatWords(sentences, xs)) <= Elems(FlatWords(sentences, ys))
  {
    forall w | w in FlatWords(sentences, xs) ensures w in FlatWords(sentences, ys) {
      FlatWordsFrom(sentences, xs, w);
      var x :| x in xs && w in WordsOf(sentences, x);
      FlatWordsHas(sentences, ys, x);
    }
  }

  lemma SameMultisetWords(sentences: seq<Sentence>, xs: seq<SentenceId>, ys: seq<SentenceId>)
    requires multiset(xs) == multiset(ys)
    ensures Elems(FlatWords(sentences, xs)) == Elems(FlatWords(sentences, ys))
  {
    forall x ensures x in xs <==> x in ys {
      ElemsMultiset(xs, x);
      ElemsMultiset(ys, x);
    }
    SameMembersWords(sentences, xs, ys);
    SameMembersWords(sentences, ys, xs);
  }

  lemma FlatWordsNext(sentences: seq<Sentence>, sids: seq<SentenceId>, i: nat)
    requires i < |sids|
    ensures FlatWords(sentences, sids[..i + 1]) == FlatWords(sentences, sids[..i]) + WordsOf(sentences, sids[i])
  {
    assert sids[..i + 1] == sids[..i] + [sids[i]];
    FlatWordsAppend(sentences, sids[..i], [sids[i]]);
    assert FlatWords(sentences, [sids[i]]) == WordsOf(sentences, sids[i]);
  }

  lemma {:induction false} ScanParagraphsAppend(a: Arenas, xs: seq<ParagraphId>, ys: seq<ParagraphId>, m: MatchedSets,
      log: seq<ParagraphId>)
    ensures var r := ScanParagraphs(a, xs, m, log);
      ScanParagraphs(a, xs + ys, m, log) == if r.found.Some? then r else ScanParagraphs(a, ys, r.matched, r.log)
  {
    if xs == [] {
      assert xs + ys == ys;
    } else {
      var pid := xs[0];
      assert (xs + ys)[0] == pid && (xs + ys)[1..] == xs[1..] + ys;
      var words := Elems(ParaWords(a, pid));
      if pid in m.paragraphs {
        ScanParagraphsAppend(a, xs[1..], ys, m, log);
      } else if words !! m.tokens {
      } else if words <= m.tokens {
        ScanParagraphsAppend(a, xs[1..], ys, m.(paragraphs := m.paragraphs + {pid}), log + [pid]);
      } else {
        ScanParagraphsAppend(a, xs[1..], ys, m, log);
      }
    }
  }

  lemma {:induction false} ScanSentencesAppend(a: Arenas, xs: seq<SentenceId>, ys: seq<SentenceId>, m: MatchedSets,
      log: seq<SentenceId>)
    ensures var r := ScanSentences(a, xs, m, log);
      ScanSentences(a, xs + ys, m, log) == if r.found.Some? then r else ScanSentences(a, ys, r.matched, r.log)
  {
    if xs == [] {
      assert xs + ys == ys;
    } else {
      var sid := xs[0];
      assert (xs + ys)[0] == sid && (xs + ys)[1..] == xs[1..] + ys;
      var words := Elems(WordsOf(a.sentences, sid));
      if sid in m.sentences {
        ScanSentencesAppend(a, xs[1..], ys, m, log);
      } else if words !! m.tokens {
      } else if words <= m.tokens {
        ScanSentencesAppend(a, xs[1..], ys, m.(sentences := m.sentences + {sid}), log + [sid]);
      } else {
        ScanSentencesAppend(a, xs[1..], ys, m, log);
      }
    }
  }

  lemma TablesIndexed(a: Arenas)
    requires GoodArenas(a)
    ensures IndexedLive(a, a.paragraphsHt)
  {
  }

  /** The candidates are still live after the paragraphs appended so far. */
  lemma CandidatesStillLive(a0: Arenas, curr0: Revision, s: ParaState, prev: map<Hash, seq<ParagraphId>>, hash: Hash)
    requires ParaInv(a0, curr0, s) && IndexedLive(a0, prev) && IndexedLive(a0, a0.paragraphsHt)
    ensures s.arenas.paragraphsHt == a0.paragraphsHt
    ensures forall pid :: pid in Bucket(prev, hash) ==> LiveParagraph(s.arenas, pid)
    ensures forall pid :: pid in Bucket(s.arenas.paragraphsHt, hash) ==> LiveParagraph(s.arenas, pid)
  {
    FreshExtends(a0, s.arenas, s.unmatchedCurr);
    CandidatesLive(a0, prev, hash);
    CandidatesLive(a0, a0.paragraphsHt, hash);
    hide ParaInv, LiveParagraph, Extends, IndexedLive;
    forall pid | pid in Bucket(prev, hash) ensures LiveParagraph(s.arenas, pid) {
      assert ParagraphUnder(a0, pid, hash);
      LiveParagraphExtends(a0, s.arenas, pid);
    }
    forall pid | pid in Bucket(a0.paragraphsHt, hash) ensures LiveParagraph(s.arenas, pid) {
      assert ParagraphUnder(a0, pid, hash);
      LiveParagraphExtends(a0, s.arenas, pid);
    }
  }

  lemma SameElems(xs: seq<nat>, ys: seq<nat>)
    requires multiset(xs) == multiset(ys)
    ensures Elems(xs) == Elems(ys)
  {
    forall x ensures x in xs <==> x in ys { ElemsMultiset(xs, x); ElemsMultiset(ys, x); }
  }

  /** The candidates of the sentence level are allocated sentences. */
  lemma SentenceCandidates(sc: Scene, s: SentState, pidsPrev: seq<ParagraphId>, hash: Hash)
    requires SentInv(sc, s) && GoodTables(sc.a0)
    requires forall q :: q in pidsPrev ==> LiveParagraph(sc.a0, q)
    ensures s.arenas.sentencesHt == sc.a0.sentencesHt && |s.arenas.paragraphs| == |sc.start|
    ensures forall q :: q in pidsPrev ==> q < |s.arenas.paragraphs|
    ensures forall sid :: sid in PrevCandidates(s.arenas, pidsPrev, hash) ==> sid < |s.arenas.sentences|
    ensures forall sid :: sid in Bucket(s.arenas.sentencesHt, hash) ==> sid < |s.arenas.sentences|
  {
    assert FreshSentences(sc.a0, sc.start, s.arenas, s.unmatchedCurr);
    PrevCandidatesUnder(sc.a0, s.arenas, pidsPrev, hash);
    hide SentInv, LiveParagraph, Filling;
    forall q | q in pidsPrev ensures q < |s.arenas.paragraphs| { LiveParagraphIn(sc.a0, q); }
    forall sid | sid in Bucket(s.arenas.sentencesHt, hash) ensures sid < |s.arenas.sentences| {
      assert SentenceUnder(sc.a0, sid, hash);
    }
  }

  lemma SentInvBounds(sc: Scene, s: SentState)
    requires SentInv(sc, s)
    ensures |s.arenas.paragraphs| == |sc.start|
  {
    hide Filling, Covers, TokensLogged, WordsClaimed, FreshOnce;
  }

  lemma {:induction false} PrevCandidatesSplit(a: Arenas, pids: seq<ParagraphId>, j: nat, hash: Hash)
    requires j < |pids| && pids[j] < |a.paragraphs|
    ensures PrevCandidates(a, pids[j..], hash)
         == Bucket(a.paragraphs[pids[j]].sentences, hash) + PrevCandidates(a, pids[j + 1..], hash)
  {
    assert pids[j..][0] == pids[j] && pids[j..][1..] == pids[j + 1..];
  }

  lemma {:induction false} PrevCandidatesPart(a: Arenas, pids: seq<ParagraphId>, j: nat, hash: Hash)
    requires j < |pids| && pids[j] < |a.paragraphs|
    ensures forall sid :: sid in Bucket(a.paragraphs[pids[j]].sentences, hash) ==> sid in PrevCandidates(a, pids, hash)
  {
    if j > 0 {
      assert pids[1..][j - 1] == pids[j];
      PrevCandidatesPart(a, pids[1..], j - 1, hash);
    }
  }

  lemma {:induction false} FlatSidsNext(paragraphs: seq<Paragraph>, pids: seq<ParagraphId>, i: nat)
    requires i < |pids|
    ensures FlatSids(paragraphs, pids[..i + 1]) == FlatSids(paragraphs, pids[..i]) + SidsOf(paragraphs, pids[i])
  {
    assert pids[..i + 1] == pids[..i] + [pids[i]];
    FlatSidsAppend(paragraphs, pids[..i], [pids[i]]);
    assert FlatSids(paragraphs, [pids[i]]) == SidsOf(paragraphs, pids[i]);
  }

  lemma {:induction false} TailLoopAppend(xs: seq<SentenceId>, ys: seq<SentenceId>, t: Tail)
    ensures TailLoop(xs + ys, t) == TailLoop(ys, TailLoop(xs, t))
    decreases |xs|
  {
    if xs == [] {
      assert xs + ys == ys;
    } else {
      assert (xs + ys)[0] == xs[0] && (xs + ys)[1..] == xs[1..] + ys;
      var t' := if xs[0] in t.matched then t
                else Tail(t.matched + {xs[0]}, t.unmatchedPrev + [xs[0]], t.matchedPrev + [xs[0]]);
      TailLoopAppend(xs[1..], ys, t');
    }
  }

  lemma NoneLeft(matched: set<nat>)
    ensures Unmatched([], matched) == []
  {
  }

  lemma OneLeft(id: nat, matched: set<nat>)
    ensures Unmatched([id], matched) == if id in matched then [] else [id]
  {
    assert [id][1..] == [];
  }

  lemma NoLeftovers(paragraphs: seq<Paragraph>, t: Tail)
    ensures TailLoop(FlatSids(paragraphs, []), t) == t
  {
  }

  lemma NoCandidates(a: Arenas, hash: Hash, m: MatchedSets, log: seq<SentenceId>)
    ensures PrevCandidates(a, [], hash) == []
    ensures ScanSentences(a, [], m, log) == Scan(None, m, log)
  {
  }

  lemma {:induction false} EntriesNext(ops: seq<DiffOp>, i: nat)
    requires i < |ops|
    ensures Entries(ops[..i + 1]) == Entries(ops[..i]) + [DiffEntry(ops[i], false)]
  {
    EntriesAppend(ops[..i], [ops[i]]);
    assert ops[..i + 1] == ops[..i] + [ops[i]];
    assert Entries([ops[i]]) == [DiffEntry(ops[i], false)];
  }

  lemma {:induction false} EntriesAppend(xs: seq<DiffOp>, ys: seq<DiffOp>)
    ensures Entries(xs + ys) == Entries(xs) + Entries(ys)
  {
    if xs == [] {
      assert xs + ys == ys;
    } else {
      assert (xs + ys)[0] == xs[0] && (xs + ys)[1..] == xs[1..] + ys;
      EntriesAppend(xs[1..], ys);
    }
  }

  lemma ValuesNext(tokens: seq<Word>, ids: seq<TokenId>, t: TokenId)
    requires t < |tokens|
    ensures Values(tokens, ids + [t]) == Values(tokens, ids) + [tokens[t].value]
  {
    ValuesAppend(tokens, ids, [t]);
    assert Values(tokens, [t]) == [tokens[t].value];
  }

  lemma {:induction false} UnmatchedAppend(xs: seq<nat>, ys: seq<nat>, matched: set<nat>)
    ensures Unmatched(xs + ys, matched) == Unmatched(xs, matched) + Unmatched(ys, matched)
  {
    if xs == [] {
      assert xs + ys == ys;
    } else {
      assert (xs + ys)[0] == xs[0] && (xs + ys)[1..] == xs[1..] + ys;
      UnmatchedAppend(xs[1..], ys, matched);
    }
  }

  lemma {:induction false} CurrTextNext(a: Arenas, sids: seq<SentenceId>, i: nat)
    requires i < |sids|
    ensures CurrText(a, sids[..i + 1]) == CurrText(a, sids[..i]) + SplitSpace(SentenceValue(a, sids[i]))
    decreases i
  {
    if i == 0 {
      assert sids[..1] == [sids[0]] && sids[..0] == [];
      assert CurrText(a, [sids[0]]) == SplitSpace(SentenceValue(a, sids[0])) + CurrText(a, []);
    } else {
      assert sids[..i + 1][1..] == sids[1..][..i] && sids[..i][1..] == sids[1..][..i - 1];
      CurrTextNext(a, sids[1..], i - 1);
    }
  }

  lemma AppendedKeepsTexts(a: Arenas, b: Arenas, sid: SentenceId, words: seq<string>)
    requires Appended(a, b, sid, words)
    ensures |b.sentences| == |a.sentences|
    ensures forall i :: 0 <= i < |a.sentences| ==> b.sentences[i].value == a.sentences[i].value
  {
  }

  lemma PrevWordsOk(a: Arenas, left: seq<SentenceId>, matched: set<TokenId>)
    requires forall sid :: sid in left ==> LiveSentence(a, sid)
    ensures var ids := Unmatched(FlatWords(a.sentences, left), matched);
      PrevValuesOk(PrevWords(ids, Values(a.tokens, ids)), a)
  {
    PrevWordsFacts(a, SentState(a, MatchedSets({}, {}, matched), [], []), left);
  }

  lemma {:induction false} RemoveWords(sentences: seq<Sentence>, ys: seq<SentenceId>, i: nat)
    requires i < |ys|
    ensures multiset(FlatWords(sentences, ys)) == multiset(WordsOf(sentences, ys[i]))
        + multiset(FlatWords(sentences, ys[..i] + ys[i + 1..]))
    ensures multiset(ys[..i] + ys[i + 1..]) == multiset(ys) - multiset{ys[i]}
  {
    hide FlatWords, WordsOf;
    var before, after := ys[..i], ys[i + 1..];
    assert ys == before + [ys[i]] + after;
    SplitWords(sentences, before, ys[i], after);
    FlatWordsAppend(sentences, before, after);
  }

  lemma FindIn(xs: seq<SentenceId>, ys: seq<SentenceId>) returns (i: nat)
    requires xs != [] && multiset(xs) == multiset(ys)
    ensures i < |ys| && ys[i] == xs[0]
  {
    ElemsMultiset(xs, xs[0]);
    ElemsMultiset(ys, xs[0]);
    i :| 0 <= i < |ys| && ys[i] == xs[0];
  }

  lemma SameRest(xs: seq<SentenceId>, ys: seq<SentenceId>, i: nat)
    requires xs != [] && i < |ys| && ys[i] == xs[0] && multiset(xs) == multiset(ys)
    ensures multiset(xs[1..]) == multiset(ys[..i] + ys[i + 1..])
  {
    assert xs == [xs[0]] + xs[1..] && ys == ys[..i] + [ys[i]] + ys[i + 1..];
    assert multiset(xs) == multiset{xs[0]} + multiset(xs[1..]);
    assert multiset(ys) == multiset{xs[0]} + multiset(ys[..i] + ys[i + 1..]);
    CancelOne(multiset(xs[1..]), multiset(ys[..i] + ys[i + 1..]), xs[0]);
  }

  lemma CancelOne(a: multiset<SentenceId>, b: multiset<SentenceId>, x: SentenceId)
    requires multiset{x} + a == multiset{x} + b
    ensures a == b
  {
    forall v ensures a[v] == b[v] { assert (multiset{x} + a)[v] == (multiset{x} + b)[v]; }
  }

  /** Rearranging sentences rearranges their words. */
  lemma {:induction false} PermutedWords(sentences: seq<Sentence>, xs: seq<SentenceId>, ys: seq<SentenceId>)
    requires multiset(xs) == multiset(ys)
    ensures multiset(FlatWords(sentences, xs)) == multiset(FlatWords(sentences, ys))
    decreases |xs|
  {
    hide WordsOf, FlatWords;
    if xs == [] {
      assert |multiset(ys)| == |ys|;
      assert xs == ys;
    } else {
      var i := FindIn(xs, ys);
      var rest := ys[..i] + ys[i + 1..];
      RemoveWords(sentences, ys, i);
      RemoveWords(sentences, xs, 0);
      assert xs[..0] + xs[1..] == xs[1..];
      SameRest(xs, ys, i);
      PermutedWords(sentences, xs[1..], rest);
    }
  }

  lemma PermutedNoDup(sentences: seq<Sentence>, xs: seq<SentenceId>, ys: seq<SentenceId>)
    requires multiset(xs) == multiset(ys) && NoDup(FlatWords(sentences, ys))
    ensures NoDup(FlatWords(sentences, xs))
    ensures forall t :: t in FlatWords(sentences, xs) <==> t in FlatWords(sentences, ys)
  {
    PermutedWords(sentences, xs, ys);
    var a, b := FlatWords(sentences, xs), FlatWords(sentences, ys);
    NoDupCounts(a);
    NoDupCounts(b);
    forall t ensures t in a <==> t in b { ElemsMultiset(a, t); ElemsMultiset(b, t); }
  }

  lemma WordsInNext(a: Arenas, pids: seq<ParagraphId>, i: nat)
    requires i < |pids|
    ensures WordsIn(a, pids[..i + 1]) == WordsIn(a, pids[..i]) + ParaWords(a, pids[i])
  {
    assert pids[..i + 1] == pids[..i] + [pids[i]];
    WordsInAppend(a, pids[..i], [pids[i]]);
    WordsInSingle(a, pids[i]);
  }

  lemma WordsInPrefixNoDup(a: Arenas, pids: seq<ParagraphId>, i: nat)
    requires i < |pids| && NoDup(WordsIn(a, pids))
    ensures NoDup(ParaWords(a, pids[i]))
    ensures forall t :: t in ParaWords(a, pids[i]) ==> t !in WordsIn(a, pids[..i])
  {
    assert pids[..i + 1] + pids[i + 1..] == pids;
    WordsInAppend(a, pids[..i + 1], pids[i + 1..]);
    NoDupSplit(WordsIn(a, pids[..i + 1]), WordsIn(a, pids[i + 1..]));
    WordsInNext(a, pids, i);
    NoDupSplit(WordsIn(a, pids[..i]), ParaWords(a, pids[i]));
  }

  lemma NothingUnmatched(sentences: seq<Sentence>, tokens: seq<Word>, matched: set<TokenId>)
    ensures Unmatched(FlatWords(sentences, []), matched) == [] && Values(tokens, []) == []
  {
  }

  lemma LiveWordsOf(a: Arenas, sid: SentenceId)
    requires LiveSentence(a, sid)
    ensures sid < |a.sentences| && WordsOf(a.sentences, sid) == a.sentences[sid].words
    ensures forall t :: t in a.sentences[sid].words ==> t < |a.tokens|
  {
  }

  lemma MarkedThen(old_: seq<Word>, mid: seq<Word>, now: seq<Word>, xs: seq<TokenId>, ys: seq<TokenId>,
      matched: set<TokenId>, rev: RevId)
    requires Marked(old_, mid, xs, matched, rev) && Marked(mid, now, ys, matched, rev)
    requires forall t :: t in ys ==> t !in xs
    ensures Marked(old_, now, xs + ys, matched, rev)
  {
  }

  /** The recorder only walks live nodes, and walks no word twice for deletion. */
  ghost predicate RecorderReady(a: Arenas, c: Cascade) {
    && (forall pid :: pid in c.matchedParagraphsPrev ==> LiveParagraph(a, pid))
    && (forall pid :: pid in c.unmatchedParagraphsPrev ==> LiveParagraph(a, pid))
    && (forall sid :: sid in c.matchedSentencesPrev ==> LiveSentence(a, sid))
    && (forall sid :: sid in c.unmatchedSentencesPrev ==> LiveSentence(a, sid))
    && NoDup(OutWalk(a, c))
  }

  ghost predicate Marked(old_: seq<Word>, now: seq<Word>, words: seq<TokenId>, matched: set<TokenId>, rev: RevId) {
    && |now| == |old_|
    && forall t :: 0 <= t < |old_| ==> now[t] == if t in words && t !in matched then MarkDeleted(old_[t], rev)
        else old_[t]
  }

  ghost predicate Touched(old_: seq<Word>, now: seq<Word>, done: set<TokenId>, prevRev: RevId, rev: RevId) {
    && |now| == |old_|
    && forall t :: 0 <= t < |old_| ==> now[t] == if t in done then MarkPresent(old_[t], prevRev, rev) else old_[t]
  }

  lemma NothingMarked(tokens: seq<Word>, sentences: seq<Sentence>, matched: set<TokenId>, rev: RevId)
    ensures Marked(tokens, tokens, FlatWords(sentences, []), matched, rev)
  {
  }

  lemma MarkedLength(old_: seq<Word>, now: seq<Word>, words: seq<TokenId>, matched: set<TokenId>, rev: RevId)
    requires Marked(old_, now, words, matched, rev)
    ensures |now| == |old_|
  {
  }

  lemma TouchedLength(old_: seq<Word>, now: seq<Word>, done: set<TokenId>, prevRev: RevId, rev: RevId)
    requires Touched(old_, now, done, prevRev, rev)
    ensures |now| == |old_|
  {
  }

  lemma NoWords(sentences: seq<Sentence>)
    ensures FlatWords(sentences, []) == []
  {
  }

  /** A sentence of a duplicate-free list has no word of the sentences before it. */
  lemma PrefixNoDup(sentences: seq<Sentence>, sids: seq<SentenceId>, i: nat)
    requires i < |sids| && NoDup(FlatWords(sentences, sids))
    ensures NoDup(WordsOf(sentences, sids[i]))
    ensures
      forall t :: t in WordsOf(sentences, sids[i])
        ==> t !in FlatWords(sentences, sids[..i]) && t in FlatWords(sentences, sids)
  {
    assert sids == sids[..i] + [sids[i]] + sids[i + 1..];
    SplitWords(sentences, sids[..i], sids[i], sids[i + 1..]);
    hide FlatWords, WordsOf, NoDup;
    var x, y, z := FlatWords(sentences, sids[..i]), WordsOf(sentences, sids[i]), FlatWords(sentences, sids[i + 1..]);
    NoDupSplit(x + y, z);
    NoDupSplit(x, y);
  }

  lemma NoWordsIn(a: Arenas)
    ensures WordsIn(a, []) == []
  {
  }

  lemma MarkedNothing(tokens: seq<Word>, matched: set<TokenId>, rev: RevId)
    ensures Marked(tokens, tokens, [], matched, rev)
  {
  }

  lemma TouchedNothing(tokens: seq<Word>, prevRev: RevId, rev: RevId)
    ensures Touched(tokens, tokens, {}, prevRev, rev)
  {
  }

  lemma MarkedSame(old_: seq<Word>, now: seq<Word>, xs: seq<TokenId>, ys: seq<TokenId>, matched: set<TokenId>,
      rev: RevId)
    requires Marked(old_, now, xs, matched, rev) && Elems(xs) == Elems(ys)
    ensures Marked(old_, now, ys, matched, rev)
  {
    forall t ensures t in xs <==> t in ys { assert t in Elems(xs) <==> t in Elems(ys); }
  }

  lemma ParagraphNoDup(a: Arenas, pid: ParagraphId)
    requires LiveParagraph(a, pid)
    ensures NoDup(FlatWords(a.sentences, SidsOf(a.paragraphs, pid)))
    ensures forall t :: t in FlatWords(a.sentences, SidsOf(a.paragraphs, pid)) ==> t < |a.tokens|
  {
    LiveWordsBounded(a, SidsOf(a.paragraphs, pid));
  }

  /** Marking and then touching is the recorder's effect on every token. */
  lemma RecorderResult(a: Arenas, mid: seq<Word>, now: seq<Word>, c: Cascade, prevRev: RevId, rev: RevId)
    requires a == c.arenas && !c.vandalism
    requires Marked(a.tokens, mid, OutWalk(a, c), c.matchedTokens, rev)
    requires Touched(mid, now, Elems(InWalk(a, c)) * c.matchedTokens, prevRev, rev)
    ensures a.(tokens := now) == CascadeSpec.RecordInboundOutbound(c, prevRev, rev)
  {
    hide OutWalk, InWalk, MarkDeleted, MarkPresent;
    var r := RecordTokens(a.tokens, Elems(OutWalk(a, c)), Elems(InWalk(a, c)), c.matchedTokens, prevRev, rev);
    forall t | 0 <= t < |now| ensures now[t] == r[t] {
      assert t in Elems(OutWalk(a, c)) <==> t in OutWalk(a, c);
    }
    assert now == r;
  }

  lemma LiveWordsBounded(a: Arenas, sids: seq<SentenceId>)
    requires forall sid :: sid in sids ==> LiveSentence(a, sid)
    ensures forall t :: t in FlatWords(a.sentences, sids) ==> t < |a.tokens|
  {
    forall t | t in FlatWords(a.sentences, sids) ensures t < |a.tokens| {
      FlatWordsFrom(a.sentences, sids, t);
      var sid :| sid in sids && t in WordsOf(a.sentences, sid);
      assert LiveSentence(a, sid);
    }
  }

  lemma SentenceLevelReady(a0: Arenas, prev: map<Hash, seq<ParagraphId>>, prevOrder: seq<Hash>, curr0: Revision,
      p: ParaState)
    requires GoodArenas(a0) && GoodIndex(a0, prev, prevOrder) && ParaInv(a0, curr0, p)
    requires TokensLogged(a0, p.matchedPrev, [], p.matched.tokens)
    ensures SceneOk(SceneOf(a0, p)) && GoodTables(a0)
    ensures SentInv(SceneOf(a0, p), SentState(p.arenas, p.matched, [], []))
    ensures forall pid :: pid in p.unmatchedCurr ==> |a0.paragraphs| <= pid < |p.arenas.paragraphs|
    ensures forall q :: q in Unmatched(Walk(prev, prevOrder), p.matched.paragraphs) ==> LiveParagraph(a0, q)
  {
    assert FreshParagraphs(a0, p.arenas, p.unmatchedCurr);
    UnmatchedFrom(Walk(prev, prevOrder), p.matched.paragraphs);
    hide ParaInv, LiveParagraph, SceneOk, SentInv, TokensLogged, Walk, Unmatched, WordsIn, NoDup, Aligned;
    SentStart(a0, curr0, p);
    FreshRange(a0, p.arenas, p.unmatchedCurr);
  }

  lemma FreshRange(a0: Arenas, a: Arenas, unmatched: seq<ParagraphId>)
    requires FreshParagraphs(a0, a, unmatched)
    ensures forall pid :: pid in unmatched ==> |a0.paragraphs| <= pid < |a.paragraphs|
  {
  }

  lemma TokenLevelReady(ops: TextOps, a0: Arenas, prev: map<Hash, seq<ParagraphId>>, prevOrder: seq<Hash>,
      curr0: Revision,
                        p: ParaState, s: SentState, t: Tail)
    requires GoodArenas(a0) && GoodIndex(a0, prev, prevOrder) && ParaInv(a0, curr0, p) && SentInv(SceneOf(a0, p), s)
    requires (s, t) == AnalyseSentences(ops, p.arenas, p.unmatchedCurr,
        Unmatched(Walk(prev, prevOrder), p.matched.paragraphs), p.matched)
    ensures TokensNumbered(s.arenas)
    ensures forall sid :: sid in t.unmatchedPrev ==> LiveSentence(s.arenas, sid)
    ensures forall sid :: sid in s.unmatchedCurr ==> sid < |s.arenas.sentences|
  {
    var pids := Walk(prev, prevOrder);
    var st := StageAt(a0, curr0, p, s, [], []);
    assert forall pid :: pid in pids ==> LiveParagraph(a0, pid);
    assert TokensNumbered(a0);
    assert t == TailOf(st, UnmatchedPrevOf(st, pids));
    hide GoodIndex, GoodArenas, ParaInv, SentInv, LiveParagraph, LiveSentence, TailLoop, Walk, Unmatched,
      TokensNumbered, OnlyAppended;
    SentOnlyAppends(SceneOf(a0, p), s);
    AppendedNumbered(a0, s.arenas);
    TailFacts(st, pids);
    AppendedExtends(a0, s.arenas);
    forall sid | sid in t.unmatchedPrev ensures LiveSentence(s.arenas, sid) {
      assert sid in Elems(t.unmatchedPrev);
      assert sid in Elems(t.matchedPrev);
      LiveSentenceExtends(a0, s.arenas, sid);
    }
  }

  lemma AppendedExtends(a0: Arenas, a: Arenas)
    requires OnlyAppended(a0, a)
    ensures Extends(a0, a)
  {
  }

  /** What the step needs of the state: a good previous index, and a recorder that is ready. */
  lemma StepReady(ops: TextOps, st: ArticleState, input: RevisionInput)
    requires Shaped(st)
    ensures var prev := PrevRevision(st); GoodIndex(st.arenas, prev.paragraphs, prev.orderedParagraphs)
    ensures GoodArenas(st.arenas)
    ensures var c := CascadeOf(ops, st, input); !c.vandalism ==> RecorderReady(c.arenas, c) && FreshInRange(c)
  {
    PrevIndex(st);
    CascadeRuns(ops, st, input);
    var c, prev := CascadeOf(ops, st, input), PrevRevision(st);
    hide GoodIndex, GoodArenas, CascadeOk, RecorderReady, CascadeOf, Walk;
    if !c.vandalism {
      CascadeReady(st.arenas, Walk(prev.paragraphs, prev.orderedParagraphs), FreshRevision(input), c);
    }
  }

  ghost predicate FreshInRange(c: Cascade) {
    && (forall pid :: pid in c.unmatchedParagraphsCurr ==> pid < |c.arenas.paragraphs|)
    && (forall sid :: sid in c.unmatchedSentencesCurr ==> sid < |c.arenas.sentences|)
  }

  lemma CascadeReady(a0: Arenas, prev: seq<ParagraphId>, curr0: Revision, c: Cascade)
    requires CascadeOk(a0, prev, curr0, c)
    ensures RecorderReady(c.arenas, c) && FreshInRange(c)
  {
    assert WalksOk(a0, c) && Frozen(a0, c.arenas)
        && TokenRecords(a0.tokens, c.arenas.tokens, curr0.id, c.matchedTokens, RevTokens(c.arenas, c.curr));
    assert FreshInRange(c) by {
      hide Frozen, WalksOk, Accounted, TokenRecords, NewNodesLive, GoodIndex, TokensNumbered, RevTokens;
    }
    hide CascadeOk, RevTokens;
    RecordsKeepValues(a0.tokens, c.arenas.tokens, curr0.id, c.matchedTokens, RevTokens(c.arenas, c.curr));
    hide TokenRecords;
    FrozenExtends(a0, c.arenas);
    hide Frozen;
    WalksExtend(a0, c);
  }

  lemma RecordsKeepValues(old_: seq<Word>, now: seq<Word>, rev: RevId, matched: set<TokenId>, words: seq<TokenId>)
    requires TokenRecords(old_, now, rev, matched, words)
    ensures |old_| <= |now| && forall i :: 0 <= i < |old_| ==> now[i].value == old_[i].value
  {
  }

  lemma WalksExtend(a0: Arenas, c: Cascade)
    requires WalksOk(a0, c) && Extends(a0, c.arenas)
    ensures RecorderReady(c.arenas, c)
  {
    hide LiveParagraph, LiveSentence, Extends;
    forall pid | LiveParagraph(a0, pid) ensures LiveParagraph(c.arenas,
        pid) { LiveParagraphExtends(a0, c.arenas, pid); }
    forall sid | LiveSentence(a0, sid) ensures LiveSentence(c.arenas, sid) { LiveSentenceExtends(a0, c.arenas, sid); }
    forall sid | sid in c.unmatchedSentencesPrev ensures sid < |a0.sentences| { LiveSentenceIn(a0, sid); }
    FlatWordsExtend(a0, c.arenas, c.unmatchedSentencesPrev);
    WordsInExtends(a0, c.arenas, c.unmatchedParagraphsPrev);
  }

  lemma CommitReady(c: Cascade, prevRev: RevId, rev: RevId)
    requires FreshInRange(c)
    ensures var a := CascadeSpec.RecordInboundOutbound(c, prevRev, rev);
      && (forall pid :: pid in c.unmatchedParagraphsCurr ==> pid < |a.paragraphs|)
      && (forall sid :: sid in c.unmatchedSentencesCurr ==> sid < |a.sentences|)
  {
  }

  lemma CommitIgnoresArenas(st: ArticleState, a: Arenas, input: RevisionInput, c: Cascade)
    ensures Commit(st.(arenas := a), input, c) == Commit(st, input, c)
  {
  }

  lemma ParagraphCovered(a: Arenas, pid: ParagraphId)
    requires LiveParagraph(a, pid)
    ensures pid < |a.paragraphs|
    ensures ClampedWalk(a.paragraphs[pid].sentences, a.paragraphs[pid].orderedSentences) == SidsOf(a.paragraphs, pid)
    ensures forall sid :: sid in SidsOf(a.paragraphs, pid) ==> sid < |a.sentences|
  {
    ClampedIsWalk(a.paragraphs[pid].sentences, a.paragraphs[pid].orderedSentences);
    hide Walk;
    forall sid | sid in SidsOf(a.paragraphs, pid) ensures sid < |a.sentences| { LiveSentenceIn(a, sid); }
  }

  class Article {
    const ops: TextOps
    var title: string
    var pageId: Option<nat>
    var tokens: seq<Word>
    var sentences: seq<Sentence>
    var paragraphs: seq<Paragraph>
    var revisions: map<RevId, Revision>
    var orderedRevisions: seq<RevId>
    var lastGoodRevId: RevId
    var paragraphsHt: map<Hash, seq<ParagraphId>>
    var sentencesHt: map<Hash, seq<SentenceId>>
    var spamIds: seq<RevId>
    var spamHashes: set<Hash>
    var nextTokenId: TokenId

    function Store(): Arenas
      reads this
    {
      Arenas(tokens, sentences, paragraphs, paragraphsHt, sentencesHt, nextTokenId)
    }

    function State(): ArticleState
      reads this
    {
      ArticleState(title, pageId, Store(), revisions, orderedRevisions, lastGoodRevId, spamIds, spamHashes)
    }

    ghost predicate Valid()
      reads this
    {
      Shaped(State())
    }

    constructor (ops: TextOps, title: string)
      ensures State() == NewArticle(title) && this.ops == ops
      ensures Valid() && GoodState(State())
    {
      this.ops := ops;
      this.title := title;
      pageId := None;
      tokens, sentences, paragraphs := [], [], [];
      revisions, orderedRevisions, lastGoodRevId := map[], [], 0;
      paragraphsHt, sentencesHt := map[], map[];
      spamIds, spamHashes, nextTokenId := [], {}, 0;
      new;
      NewArticleGood(title);
      GoodIsShaped(State());
    }

    /** An article with the given contents, as loading assembles it. */
    constructor Restored(ops: TextOps, st: ArticleState)
      ensures State() == st && this.ops == ops
    {
      this.ops := ops;
      title, pageId := st.title, st.pageId;
      tokens, sentences, paragraphs := st.arenas.tokens, st.arenas.sentences, st.arenas.paragraphs;
      paragraphsHt, sentencesHt, nextTokenId := st.arenas.paragraphsHt, st.arenas.sentencesHt, st.arenas.nextTokenId;
      revisions, orderedRevisions, lastGoodRevId := st.revisions, st.orderedRevisions, st.lastGoodRevId;
      spamIds, spamHashes := st.spamIds, st.spamHashes;
    }

    // ----- word status of a candidate -----

    /** Is any, and is every, one of the paragraph's words already matched? */
    method CheckParagraphWordsStatus(pid: ParagraphId, matched: set<TokenId>) returns (one: bool, all: bool)
      requires LiveParagraph(Store(), pid)
      ensures one <==> !(Elems(ParaWords(Store(), pid)) !! matched)
      ensures all <==> Elems(ParaWords(Store(), pid)) <= matched
    {
      var p := paragraphs[pid];
      var sids := ChainBuckets(p.sentences, p.orderedSentences);
      SameMultisetWords(sentences, sids, Walk(p.sentences, p.orderedSentences));
      one, all := CheckWords(sids, matched);
    }

    method CheckSentenceWordsStatus(sid: SentenceId, matched: set<TokenId>) returns (one: bool, all: bool)
      requires sid < |sentences|
      ensures one <==> !(Elems(WordsOf(sentences, sid)) !! matched)
      ensures all <==> Elems(WordsOf(sentences, sid)) <= matched
    {
      one, all := CheckWords([sid], matched);
      assert FlatWords(sentences, [sid]) == WordsOf(sentences, sid);
    }

    method CheckWords(sids: seq<SentenceId>, matched: set<TokenId>) returns (one: bool, all: bool)
      ensures one <==> !(Elems(FlatWords(sentences, sids)) !! matched)
      ensures all <==> Elems(FlatWords(sentences, sids)) <= matched
    {
      hide FlatWords, WordsOf;
      one, all := false, true;
      NoWords(sentences);
      for i := 0 to |sids|
        invariant one <==> !(Elems(FlatWords(sentences, sids[..i])) !! matched)
        invariant all <==> Elems(FlatWords(sentences, sids[..i])) <= matched
      {
        FlatWordsNext(sentences, sids, i);
        ElemsAppend(FlatWords(sentences, sids[..i]), WordsOf(sentences, sids[i]));
        var someOne, everyOne := CheckWordList(WordsOf(sentences, sids[i]), matched);
        one, all := one || someOne, all && everyOne;
      }
      assert sids[..|sids|] == sids;
    }

    static method CheckWordList(words: seq<TokenId>, matched: set<TokenId>) returns (one: bool, all: bool)
      ensures one <==> !(Elems(words) !! matched)
      ensures all <==> Elems(words) <= matched
    {
      one, all := false, true;
      for k := 0 to |words|
        invariant one <==> exists j :: 0 <= j < k && words[j] in matched
        invariant all <==> forall j :: 0 <= j < k ==> words[j] in matched
      {
        if words[k] in matched {
          one := true;
        } else {
          all := false;
        }
      }
      assert forall j :: 0 <= j < |words| ==> words[j] in Elems(words);
    }

    // ----- paragraph level -----

    /** Claims the paragraph, every sentence in it and every word of those. */
    method RecordFullParagraphMatch(pid: ParagraphId, m: MatchedSets) returns (r: MatchedSets)
      requires LiveParagraph(Store(), pid)
      ensures r == ClaimParagraph(Store(), pid, m)
    {
      var p := paragraphs[pid];
      var sids := ChainBuckets(p.sentences, p.orderedSentences);
      hide LiveParagraph, Walk;
      var words := ClaimWords(sids, m.tokens);
      SameMultisetWords(sentences, sids, SidsOf(paragraphs, pid));
      SameElems(sids, SidsOf(paragraphs, pid));
      r := MatchedSets(m.paragraphs + {pid}, m.sentences + Elems(sids), words);
    }

    method ClaimWords(sids: seq<SentenceId>, matched: set<TokenId>) returns (r: set<TokenId>)
      ensures r == matched + Elems(FlatWords(sentences, sids))
    {
      r := matched;
      for i := 0 to |sids|
        invariant r == matched + Elems(FlatWords(sentences, sids[..i]))
      {
        FlatWordsNext(sentences, sids, i);
        ElemsAppend(FlatWords(sentences, sids[..i]), WordsOf(sentences, sids[i]));
        r := r + Elems(WordsOf(sentences, sids[i]));
      }
      assert sids[..|sids|] == sids;
    }

    /** Tries the paragraphs of one bucket, as both fallbacks of the paragraph level do. */
    method ScanParagraphBucket(bucket: seq<ParagraphId>, m: MatchedSets, log: seq<ParagraphId>)
      returns (found: Option<ParagraphId>, matched: MatchedSets, log': seq<ParagraphId>)
      requires forall pid :: pid in bucket ==> LiveParagraph(Store(), pid)
      ensures ScanParagraphs(Store(), bucket, m, log) == Scan(found, matched, log')
    {
      hide LiveParagraph;
      matched, log' := m, log;
      for i := 0 to |bucket|
        invariant ScanParagraphs(Store(), bucket[i..], matched, log') == ScanParagraphs(Store(), bucket, m, log)
      {
        var pid := bucket[i];
        assert bucket[i..][0] == pid && bucket[i..][1..] == bucket[i + 1..];
        if pid in matched.paragraphs {
          continue;
        }
        var one, all := CheckParagraphWordsStatus(pid, matched.tokens);
        if !one {
          matched := RecordFullParagraphMatch(pid, matched);
          log' := log' + [pid];
          return Some(pid), matched, log';
        } else if all {
          matched := matched.(paragraphs := matched.paragraphs + {pid});
          log' := log' + [pid];
        }
      }
      assert bucket[|bucket|..] == [];
      found := None;
    }

    method AllocParagraph(hash: Hash, value: string) returns (pid: ParagraphId)
      modifies this`paragraphs
      ensures Store() == Structures.AllocParagraph(old(Store()), hash, value) && pid == old(|paragraphs|)
    {
      pid := |paragraphs|;
      paragraphs := paragraphs + [Paragraph(hash, value, map[], [])];
    }

    method AnalyseParagraphsInRevision(text: string, prev: map<Hash, seq<ParagraphId>>, prevOrder: seq<Hash>,
        curr0: Revision)
      returns (p: ParaState, unmatchedPrev: seq<ParagraphId>)
      requires GoodArenas(Store()) && GoodIndex(Store(), prev, prevOrder)
      requires curr0.paragraphs == map[] && curr0.orderedParagraphs == []
      modifies this`paragraphs
      ensures p == AnalyseParagraphs(ops, old(Store()), text, prev, curr0) && Store() == p.arenas
      ensures unmatchedPrev == Unmatched(Walk(prev, prevOrder), p.matched.paragraphs)
    {
      hide GoodIndex, GoodArenas, ParaInv, LiveParagraph, ScanParagraphs, Walk, IndexedLive;
      ghost var a0 := Store();
      ghost var s0 := ParaState(a0, curr0, MatchedSets({}, {}, {}), [], []);
      var curr, m := curr0, MatchedSets({}, {}, {});
      var unmatchedCurr: seq<ParagraphId>, matchedPrev: seq<ParagraphId> := [], [];
      StartOk(a0, curr0);
      IndexLive(a0, prev, prevOrder);
      TablesIndexed(a0);
      var raws := ops.splitParagraphs(text);
      assert raws[0..] == raws;
      for i := 0 to |raws|
        invariant ParaInv(a0, curr0, ParaState(Store(), curr, m, unmatchedCurr, matchedPrev))
        invariant ParaLoop(ops, prev, NonBlank(ops, raws[i..]), ParaState(Store(), curr, m, unmatchedCurr, matchedPrev))
               == ParaLoop(ops, prev, Paragraphs(ops, text), s0)
      {
        ghost var s := ParaState(Store(), curr, m, unmatchedCurr, matchedPrev);
        assert raws[i..][0] == raws[i] && raws[i..][1..] == raws[i + 1..];
        var trimmed := ops.trim(raws[i]);
        if trimmed == "" {
          assert NonBlank(ops, raws[i..]) == [] + NonBlank(ops, raws[i + 1..]) == NonBlank(ops, raws[i + 1..]);
          continue;
        }
        ghost var rest := NonBlank(ops, raws[i + 1..]);
        assert NonBlank(ops, raws[i..]) == [trimmed] + rest;
        assert ([trimmed] + rest)[1..] == rest;
        var hash := ops.digest(trimmed);
        CandidatesStillLive(a0, curr0, s, prev, hash);
        ScanParagraphsAppend(Store(), Bucket(prev, hash), Bucket(paragraphsHt, hash), m, matchedPrev);
        var found;
        found, m, matchedPrev := ScanParagraphBucket(Bucket(prev, hash), m, matchedPrev);
        if found.None? {
          found, m, matchedPrev := ScanParagraphBucket(Bucket(paragraphsHt, hash), m, matchedPrev);
        }
        match found {
          case Some(pid) =>
            curr := AddParagraph(curr, hash, pid);
          case None =>
            var pid := AllocParagraph(hash, trimmed);
            curr := AddParagraph(curr, hash, pid);
            unmatchedCurr := unmatchedCurr + [pid];
        }
        assert ParaState(Store(), curr, m, unmatchedCurr, matchedPrev) == ParaStep(ops, prev, trimmed, s);
        ParaStepKeeps(ops, a0, curr0, prev, trimmed, s);
      }
      assert raws[|raws|..] == [];
      p := ParaState(Store(), curr, m, unmatchedCurr, matchedPrev);
      var ordered := WalkBuckets(prev, prevOrder);
      unmatchedPrev := KeepUnmatched(ordered, m.paragraphs);
    }

    /** The tail loop: previous paragraphs that no current one matched or consumed. */
    static method KeepUnmatched(ids: seq<nat>, matched: set<nat>) returns (left: seq<nat>)
      ensures left == Unmatched(ids, matched)
    {
      hide Unmatched;
      left := [];
      NoneLeft(matched);
      for i := 0 to |ids|
        invariant left == Unmatched(ids[..i], matched)
      {
        assert ids[..i + 1] == ids[..i] + [ids[i]];
        UnmatchedAppend(ids[..i], [ids[i]], matched);
        OneLeft(ids[i], matched);
        if ids[i] !in matched {
          left := left + [ids[i]];
        }
      }
      assert ids[..|ids|] == ids;
    }

    // ----- sentence level -----

    method ScanSentenceBucket(bucket: seq<SentenceId>, m: MatchedSets, log: seq<SentenceId>)
      returns (found: Option<SentenceId>, matched: MatchedSets, log': seq<SentenceId>)
      requires forall sid :: sid in bucket ==> sid < |sentences|
      ensures ScanSentences(Store(), bucket, m, log) == Scan(found, matched, log')
    {
      matched, log' := m, log;
      for i := 0 to |bucket|
        invariant ScanSentences(Store(), bucket[i..], matched, log') == ScanSentences(Store(), bucket, m, log)
      {
        var sid := bucket[i];
        assert sid in bucket && bucket[i..][0] == sid && bucket[i..][1..] == bucket[i + 1..];
        if sid in matched.sentences {
          continue;
        }
        var one, all := CheckSentenceWordsStatus(sid, matched.tokens);
        if !one {
          matched := matched.(sentences := matched.sentences + {sid},
              tokens := matched.tokens + Elems(sentences[sid].words));
          log' := log' + [sid];
          return Some(sid), matched, log';
        } else if all {
          matched := matched.(sentences := matched.sentences + {sid});
          log' := log' + [sid];
        }
      }
      assert bucket[|bucket|..] == [];
      found := None;
    }

    /** Tries the unmatched previous paragraphs first, then the sentence table. */
    method FindSentence(pidsPrev: seq<ParagraphId>, hash: Hash, m: MatchedSets, log: seq<SentenceId>)
      returns (found: Option<SentenceId>, matched: MatchedSets, log': seq<SentenceId>)
      requires forall q :: q in pidsPrev ==> q < |paragraphs|
      requires forall sid :: sid in PrevCandidates(Store(), pidsPrev, hash) ==> sid < |sentences|
      requires forall sid :: sid in Bucket(sentencesHt, hash) ==> sid < |sentences|
      ensures ScanSentences(Store(), PrevCandidates(Store(), pidsPrev, hash) + Bucket(sentencesHt, hash), m, log)
           == Scan(found, matched, log')
    {
      hide ScanSentences, PrevCandidates;
      matched, log' := m, log;
      ghost var all := PrevCandidates(Store(), pidsPrev, hash);
      ScanSentencesAppend(Store(), all, Bucket(sentencesHt, hash), m, log);
      assert pidsPrev[0..] == pidsPrev;
      for j := 0 to |pidsPrev|
        invariant ScanSentences(Store(), PrevCandidates(Store(), pidsPrev[j..], hash), matched, log')
            == ScanSentences(Store(), all, m, log)
      {
        assert pidsPrev[j] in pidsPrev;
        PrevCandidatesSplit(Store(), pidsPrev, j, hash);
        PrevCandidatesPart(Store(), pidsPrev, j, hash);
        var bucket := Bucket(paragraphs[pidsPrev[j]].sentences, hash);
        ScanSentencesAppend(Store(), bucket, PrevCandidates(Store(), pidsPrev[j + 1..], hash), matched, log');
        found, matched, log' := ScanSentenceBucket(bucket, matched, log');
        if found.Some? {
          return;
        }
      }
      NoCandidates(Store(), hash, matched, log');
      assert pidsPrev[|pidsPrev|..] == [];
      found, matched, log' := ScanSentenceBucket(Bucket(sentencesHt, hash), matched, log');
    }

    method AllocSentence(hash: Hash, value: string) returns (sid: SentenceId)
      modifies this`sentences
      ensures Store() == Structures.AllocSentence(old(Store()), hash, value) && sid == old(|sentences|)
    {
      sid := |sentences|;
      sentences := sentences + [Sentence(hash, value, [])];
    }

    /** One sentence of the paragraph being filled: matched, or allocated, then attached. */
    method PlaceSentence(pid: ParagraphId, toks: seq<string>, pidsPrev: seq<ParagraphId>, s: SentState, ghost sc: Scene)
      returns (s': SentState)
      requires SceneOk(sc) && GoodTables(sc.a0) && SentInv(sc, s) && s.arenas == Store()
      requires |sc.a0.paragraphs| <= pid < |sc.start|
      requires forall q :: q in pidsPrev ==> LiveParagraph(sc.a0, q)
      modifies this`sentences, this`paragraphs
      ensures s' == SentStep(ops, pidsPrev, pid, toks, s) && s'.arenas == Store() && SentInv(sc, s')
    {
      hide SentInv, SceneOk, GoodTables, LiveParagraph, ScanSentences, PrevCandidates, Join;
      var normalized := Join(toks);
      var hash := ops.digest(normalized);
      SentenceCandidates(sc, s, pidsPrev, hash);
      SentStepKeeps(ops, sc, pidsPrev, pid, toks, s);
      var found, matched, log := FindSentence(pidsPrev, hash, s.matched, s.matchedPrev);
      var unmatchedCurr := s.unmatchedCurr;
      var sid;
      match found {
        case Some(x) =>
          sid := x;
        case None =>
          sid := AllocSentence(hash, normalized);
          unmatchedCurr := unmatchedCurr + [sid];
      }
      var p := paragraphs[pid];
      paragraphs := paragraphs[pid := p.(sentences := Push(p.sentences, hash, sid),
                                         orderedSentences := p.orderedSentences + [hash])];
      s' := SentState(Store(), matched, unmatchedCurr, log);
    }

    method AnalyseSentencesInParagraphs(pidsCurr: seq<ParagraphId>, pidsPrev: seq<ParagraphId>, m: MatchedSets,
        ghost sc: Scene)
      returns (s: SentState, t: Tail)
      requires SceneOk(sc) && GoodTables(sc.a0) && SentInv(sc, SentState(Store(), m, [], []))
      requires forall pid :: pid in pidsCurr ==> |sc.a0.paragraphs| <= pid < |sc.start|
      requires forall q :: q in pidsPrev ==> LiveParagraph(sc.a0, q)
      modifies this`sentences, this`paragraphs
      ensures (s, t) == AnalyseSentences(ops, old(Store()), pidsCurr, pidsPrev, m)
      ensures Store() == s.arenas && SentInv(sc, s)
    {
      hide SentInv, SceneOk, GoodTables, LiveParagraph, SentStep, Join;
      s := SentState(Store(), m, [], []);
      ghost var s0 := s;
      assert pidsCurr[0..] == pidsCurr;
      for i := 0 to |pidsCurr|
        invariant s.arenas == Store() && SentInv(sc, s)
        invariant SentLoops(ops, pidsPrev, pidsCurr[i..], s) == SentLoops(ops, pidsPrev, pidsCurr, s0)
      {
        var pid := pidsCurr[i];
        assert pid in pidsCurr && pidsCurr[i..][0] == pid && pidsCurr[i..][1..] == pidsCurr[i + 1..];
        SentInvBounds(sc, s);
        var value := paragraphs[pid].value;
        var raws := ops.splitSentences(value);
        ghost var before := s;
        assert raws[0..] == raws;
        for k := 0 to |raws|
          invariant s.arenas == Store() && SentInv(sc, s)
          invariant SentLoop(ops, pidsPrev, pid, TokenLists(ops, NonBlank(ops, raws[k..])), s)
                 == SentLoop(ops, pidsPrev, pid, Sentences(ops, value), before)
        {
          assert raws[k..][0] == raws[k] && raws[k..][1..] == raws[k + 1..];
          var trimmed := ops.trim(raws[k]);
          ghost var rest := NonBlank(ops, raws[k + 1..]);
          if trimmed == "" {
            assert NonBlank(ops, raws[k..]) == [] + rest == rest;
            continue;
          }
          assert NonBlank(ops, raws[k..]) == [trimmed] + rest && ([trimmed] + rest)[1..] == rest;
          var toks := ops.splitTokens(trimmed);
          ghost var lists := TokenLists(ops, rest);
          assert TokenLists(ops, [trimmed] + rest) == [toks] + lists && ([toks] + lists)[1..] == lists;
          s := PlaceSentence(pid, toks, pidsPrev, s, sc);
        }
        assert raws[|raws|..] == [];
      }
      assert pidsCurr[|pidsCurr|..] == [];
      t := CollectLeftovers(pidsPrev, Tail(s.matched.sentences, [], s.matchedPrev));
    }

    /** The tail loop: leftover previous sentences are listed as unmatched and as matched. */
    method CollectLeftovers(pidsPrev: seq<ParagraphId>, t0: Tail) returns (t: Tail)
      ensures t == TailLoop(FlatSids(paragraphs, pidsPrev), t0)
    {
      hide TailLoop, FlatSids, Walk;
      t := t0;
      NoLeftovers(paragraphs, t0);
      for i := 0 to |pidsPrev|
        invariant t == TailLoop(FlatSids(paragraphs, pidsPrev[..i]), t0)
      {
        FlatSidsNext(paragraphs, pidsPrev, i);
        var sids := [];
        if pidsPrev[i] < |paragraphs| {
          sids := WalkBuckets(paragraphs[pidsPrev[i]].sentences, paragraphs[pidsPrev[i]].orderedSentences);
        }
        TailLoopAppend(FlatSids(paragraphs, pidsPrev[..i]), sids, t0);
        t := ListLeftovers(sids, t);
      }
      assert pidsPrev[..|pidsPrev|] == pidsPrev;
    }

    static method ListLeftovers(sids: seq<SentenceId>, t0: Tail) returns (t: Tail)
      ensures t == TailLoop(sids, t0)
    {
      t := t0;
      assert sids[0..] == sids;
      for k := 0 to |sids|
        invariant TailLoop(sids[k..], t) == TailLoop(sids, t0)
      {
        assert sids[k..][0] == sids[k] && sids[k..][1..] == sids[k + 1..];
        if sids[k] !in t.matched {
          t := Tail(t.matched + {sids[k]}, t.unmatchedPrev + [sids[k]], t.matchedPrev + [sids[k]]);
        }
      }
    }

    // ----- token level -----

    /** The first not yet matched previous word with this value. */
    static method FindPrev(pw: PrevWords, word: string, matched: set<TokenId>) returns (r: Option<nat>)
      requires |pw.ids| == |pw.values|
      ensures r == FindUnmatchedPrev(pw, word, matched, 0)
    {
      for i := 0 to |pw.ids|
        invariant FindUnmatchedPrev(pw, word, matched, i) == FindUnmatchedPrev(pw, word, matched, 0)
      {
        if pw.ids[i] !in matched && pw.values[i] == word {
          return Some(i);
        }
      }
      r := None;
    }

    method AllocWord(value: string, originRev: RevId) returns (wid: TokenId)
      modifies this`tokens, this`nextTokenId
      ensures Store() == Structures.AllocWord(old(Store()), value, originRev) && wid == old(nextTokenId)
    {
      wid := nextTokenId;
      tokens := tokens + [Word(wid, value, originRev, originRev, [], [])];
      nextTokenId := nextTokenId + 1;
    }

    method AppendWord(sid: SentenceId, wid: TokenId)
      requires sid < |sentences|
      modifies this`sentences
      ensures Store() == PushWord(old(Store()), sid, wid)
    {
      sentences := sentences[sid := sentences[sid].(words := sentences[sid].words + [wid])];
    }

    /** Scans the transcript for `word` and places it in sentence `sid`. */
    method PlaceWord(pw: PrevWords, rev: RevId, sid: SentenceId, word: string, w0: WordState) returns (w: WordState)
      requires w0.arenas == Store() && sid < |sentences| && TokensNumbered(Store()) && PrevValuesOk(pw, Store())
      modifies this`tokens, this`sentences, this`nextTokenId
      ensures w == WordStep(pw, rev, sid, word, w0) && w.arenas == Store()
      ensures Appended(old(Store()), Store(), sid, [word]) && TokensNumbered(Store()) && PrevValuesOk(pw, Store())
    {
      hide Values;
      WordStepAppends(pw, rev, sid, word, w0);
      w := w0;
      var pos := 0;
      var currMatched := false;
      while pos < |w.entries|
        invariant pos <= |w.entries| && w.arenas == Store() && |sentences| == |old(sentences)| && !currMatched
        invariant TokensNumbered(Store()) && PrevValuesOk(pw, Store())
        invariant ScanDiff(pw, rev, sid, word, pos, w) == ScanDiff(pw, rev, sid, word, 0, w0)
        decreases |w.entries| - pos
      {
        var e := w.entries[pos];
        if !e.consumed && e.op.value == word {
          if e.op.Insert? {
            currMatched := true;
            var wid := AllocWord(word, rev);
            AppendWord(sid, wid);
            w := WordState(Store(), w.originalAdds + 1, w.matched, w.entries[pos := e.(consumed := true)]);
            break;
          }
          var found := FindPrev(pw, word, w.matched);
          if found.Some? {
            var wid := pw.ids[found.value];
            if e.op.Keep? {
              currMatched := true;
              AppendWord(sid, wid);
              w := WordState(Store(), w.originalAdds, w.matched + {wid}, w.entries[pos := e.(consumed := true)]);
              break;
            } else {
              tokens := tokens[wid := tokens[wid].(outbound := tokens[wid].outbound + [rev])];
              w := WordState(Store(), w.originalAdds, w.matched + {wid}, w.entries[pos := e.(consumed := true)]);
            }
          }
        }
        pos := pos + 1;
      }
      if !currMatched {
        assert ScanDiff(pw, rev, sid, word, 0, w0) == (w, false);
        var wid := AllocWord(word, rev);
        AppendWord(sid, wid);
        w := w.(arenas := Store(), originalAdds := w.originalAdds + 1);
      } else {
        assert ScanDiff(pw, rev, sid, word, 0, w0) == (w, true);
      }
    }

    /** The ids and values of the previous words still to account for. */
    method CollectPrevWords(unmatchedPrev: seq<SentenceId>, matched: set<TokenId>) returns (pw: PrevWords)
      requires forall sid :: sid in unmatchedPrev ==> LiveSentence(Store(), sid)
      ensures pw.ids == Unmatched(FlatWords(sentences, unmatchedPrev), matched) && pw.values == Values(tokens, pw.ids)
    {
      hide FlatWords, Unmatched, Values, LiveSentence, NoDup;
      pw := PrevWords([], []);
      NothingUnmatched(sentences, tokens, matched);
      for i := 0 to |unmatchedPrev|
        invariant pw.ids == Unmatched(FlatWords(sentences, unmatchedPrev[..i]), matched)
            && pw.values == Values(tokens, pw.ids)
      {
        FlatWordsNext(sentences, unmatchedPrev, i);
        var sid := unmatchedPrev[i];
        LiveWordsOf(Store(), sid);
        pw := KeepUnmatchedWords(sentences[sid].words, matched, pw, FlatWords(sentences, unmatchedPrev[..i]));
      }
      assert unmatchedPrev[..|unmatchedPrev|] == unmatchedPrev;
    }

    method KeepUnmatchedWords(words: seq<TokenId>, matched: set<TokenId>, pw0: PrevWords, ghost before: seq<TokenId>)
        returns (pw: PrevWords)
      requires forall t :: t in words ==> t < |tokens|
      requires pw0.ids == Unmatched(before, matched) && pw0.values == Values(tokens, pw0.ids)
      ensures pw.ids == Unmatched(before + words, matched) && pw.values == Values(tokens, pw.ids)
    {
      hide Values;
      pw := pw0;
      assert before + words[..0] == before;
      for k := 0 to |words|
        invariant pw.ids == Unmatched(before + words[..k], matched) && pw.values == Values(tokens, pw.ids)
      {
        assert before + words[..k + 1] == (before + words[..k]) + [words[k]];
        UnmatchedAppend(before + words[..k], [words[k]], matched);
        if words[k] !in matched {
          assert words[k] in words;
          ValuesNext(tokens, pw.ids, words[k]);
          pw := PrevWords(pw.ids + [words[k]], pw.values + [tokens[words[k]].value]);
        }
      }
      assert words[..|words|] == words;
    }

    /** The words of each fresh sentence, and all of them in a row. */
    method CollectCurrText(sids: seq<SentenceId>) returns (parts: seq<seq<string>>, text: seq<string>)
      requires forall sid :: sid in sids ==> sid < |sentences|
      ensures |parts| == |sids| && text == CurrText(Store(), sids)
      ensures forall i :: 0 <= i < |sids| ==> parts[i] == SplitSpace(SentenceValue(Store(), sids[i]))
    {
      hide SplitSpace;
      parts, text := [], [];
      for i := 0 to |sids|
        invariant |parts| == i && text == CurrText(Store(), sids[..i])
        invariant forall k :: 0 <= k < i ==> parts[k] == SplitSpace(SentenceValue(Store(), sids[k]))
      {
        CurrTextNext(Store(), sids, i);
        assert sids[i] in sids;
        var words := SplitSpace(sentences[sids[i]].value);
        parts := parts + [words];
        text := text + words;
      }
      assert sids[..|sids|] == sids;
    }

    static method MakeEntries(ops: seq<DiffOp>) returns (entries: seq<DiffEntry>)
      ensures entries == Entries(ops)
    {
      entries := [];
      for i := 0 to |ops|
        invariant entries == Entries(ops[..i])
      {
        EntriesNext(ops, i);
        entries := entries + [DiffEntry(ops[i], false)];
      }
      assert ops[..|ops|] == ops;
    }

    /** Places the words of the fresh sentences, one by one. */
    method PlaceWords(pw: PrevWords, rev: RevId, sids: seq<SentenceId>, parts: seq<seq<string>>, w0: WordState)
        returns (w: WordState)
      requires w0.arenas == Store() && TokensNumbered(Store()) && PrevValuesOk(pw, Store())
      requires |parts| == |sids| && forall sid :: sid in sids ==> sid < |sentences|
      requires forall i :: 0 <= i < |sids| ==> parts[i] == SplitSpace(SentenceValue(Store(), sids[i]))
      modifies this`tokens, this`sentences, this`nextTokenId
      ensures w == WordLoops(pw, rev, sids, w0) && w.arenas == Store()
    {
      hide SplitSpace, WordStep, TokensNumbered, PrevValuesOk, Appended;
      w := w0;
      assert sids[0..] == sids;
      for i := 0 to |sids|
        invariant w.arenas == Store() && TokensNumbered(Store()) && PrevValuesOk(pw, Store())
        invariant |sentences| == |old(sentences)|
        invariant forall k :: 0 <= k < |sentences| ==> sentences[k].value == old(sentences)[k].value
        invariant WordLoops(pw, rev, sids[i..], w) == WordLoops(pw, rev, sids, w0)
      {
        var sid := sids[i];
        assert sid in sids && sids[i..][0] == sid && sids[i..][1..] == sids[i + 1..];
        assert parts[i] == SplitSpace(SentenceValue(w.arenas, sid));
        ghost var start := w;
        assert parts[i][0..] == parts[i];
        for k := 0 to |parts[i]|
          invariant w.arenas == Store() && TokensNumbered(Store()) && PrevValuesOk(pw, Store())
          invariant |sentences| == |old(sentences)|
          invariant forall j :: 0 <= j < |sentences| ==> sentences[j].value == old(sentences)[j].value
          invariant WordLoop(pw, rev, sid, parts[i][k..], w) == WordLoop(pw, rev, sid, parts[i], start)
        {
          assert parts[i][k..][0] == parts[i][k] && parts[i][k..][1..] == parts[i][k + 1..];
          ghost var before := Store();
          w := PlaceWord(pw, rev, sid, parts[i][k], w);
          AppendedKeepsTexts(before, Store(), sid, [parts[i][k]]);
        }
        assert parts[i][|parts[i]|..] == [];
      }
      assert sids[|sids|..] == [];
    }

    method AnalyseWordsInSentences(unmatchedCurr: seq<SentenceId>, unmatchedPrev: seq<SentenceId>,
        possibleVandalism: bool,
                                   rev: RevId, matched: set<TokenId>)
      returns (adds: nat, matched': set<TokenId>, vandalism: bool)
      requires TokensNumbered(Store())
      requires forall sid :: sid in unmatchedPrev ==> LiveSentence(Store(), sid)
      requires forall sid :: sid in unmatchedCurr ==> sid < |sentences|
      modifies this`tokens, this`sentences, this`nextTokenId
      ensures WordLevel(Store(), adds, matched', vandalism)
           == AnalyseWords(old(Store()), rev, unmatchedCurr, unmatchedPrev, possibleVandalism, matched)
    {
      hide LiveSentence, TokensNumbered, AvgWordFreq, Unmatched, FlatWords, Values, CurrText, PrevValuesOk,
        WordLoops, SplitSpace, Compare, Entries;
      var pw := CollectPrevWords(unmatchedPrev, matched);
      var parts, text := CollectCurrText(unmatchedCurr);
      PrevWordsOk(Store(), unmatchedPrev, matched);
      if text == [] {
        return 0, matched, false;
      }
      if possibleVandalism && AvgWordFreq(text) > TOKEN_DENSITY_LIMIT {
        return 0, matched, true;
      }
      var entries := [];
      if pw.ids != [] {
        var transcript := Differ.DifferCompare(pw.values, text);
        entries := MakeEntries(transcript);
      }
      var w := PlaceWords(pw, rev, unmatchedCurr, parts, WordState(Store(), 0, matched, entries));
      return w.originalAdds, w.matched, false;
    }

    // ----- recording -----

    method PushOutboundWords(words: seq<TokenId>, matched: set<TokenId>, rev: RevId)
      requires NoDup(words) && forall t :: t in words ==> t < |tokens|
      modifies this`tokens
      ensures Marked(old(tokens), tokens, words, matched, rev)
    {
      for k := 0 to |words|
        invariant Marked(old(tokens), tokens, words[..k], matched, rev)
      {
        assert words[k] in words && words[..k + 1] == words[..k] + [words[k]];
        if words[k] !in matched {
          tokens := tokens[words[k] := MarkDeleted(tokens[words[k]], rev)];
        }
      }
      assert words[..|words|] == words;
    }

    /** Marks the unmatched words of these sentences as deleted in `rev`. */
    method PushOutboundFor(sids: seq<SentenceId>, matched: set<TokenId>, rev: RevId)
      requires NoDup(FlatWords(sentences, sids))
      requires forall t :: t in FlatWords(sentences, sids) ==> t < |tokens|
      modifies this`tokens
      ensures Marked(old(tokens), tokens, FlatWords(sentences, sids), matched, rev)
    {
      hide Marked, FlatWords, NoDup, WordsOf;
      NothingMarked(tokens, sentences, matched, rev);
      for i := 0 to |sids|
        invariant Marked(old(tokens), tokens, FlatWords(sentences, sids[..i]), matched, rev)
            && |tokens| == |old(tokens)|
      {
        FlatWordsNext(sentences, sids, i);
        PrefixNoDup(sentences, sids, i);
        label before:
        PushOutboundWords(WordsOf(sentences, sids[i]), matched, rev);
        MarkedLength(old@before(tokens), tokens, WordsOf(sentences, sids[i]), matched, rev);
        MarkedThen(old(tokens), old@before(tokens), tokens, FlatWords(sentences, sids[..i]),
            WordsOf(sentences, sids[i]), matched, rev);
      }
      assert sids[..|sids|] == sids;
    }

    /** The update rule for one surviving word; each word is updated once per revision. */
    method UpdateInboundAndLastRevId(wid: TokenId, matched: set<TokenId>, processed: set<TokenId>, prevRev: RevId,
        rev: RevId)
      returns (processed': set<TokenId>)
      requires wid < |tokens|
      modifies this`tokens
      ensures processed' == if wid in matched then processed + {wid} else processed
      ensures tokens == if wid in matched && wid !in processed
                        then old(tokens)[wid := MarkPresent(old(tokens)[wid], prevRev, rev)] else old(tokens)
    {
      processed' := processed;
      if wid !in matched {
        return;
      }
      if wid in processed {
        return processed + {wid};
      }
      processed' := processed + {wid};
      var word := tokens[wid];
      if word.outbound != [] && word.outbound[|word.outbound| - 1] == rev {
        assert tokens == tokens[wid := word];
        return;
      }
      if word.lastRevId != prevRev {
        word := word.(inbound := word.inbound + [rev]);
      }
      word := word.(lastRevId := rev);
      tokens := tokens[wid := word];
    }

    method TouchWordList(words: seq<TokenId>, matched: set<TokenId>, processed: set<TokenId>, prevRev: RevId,
        rev: RevId, ghost base: seq<Word>)
      returns (processed': set<TokenId>)
      requires forall t :: t in words ==> t < |tokens|
      requires Touched(base, tokens, processed, prevRev, rev)
      modifies this`tokens
      ensures processed' == processed + Elems(words) * matched
      ensures Touched(base, tokens, processed', prevRev, rev)
    {
      hide MarkPresent;
      processed' := processed;
      for k := 0 to |words|
        invariant processed' == processed + Elems(words[..k]) * matched
        invariant Touched(base, tokens, processed', prevRev, rev)
      {
        assert words[k] in words && words[..k + 1] == words[..k] + [words[k]];
        ElemsAppend(words[..k], [words[k]]);
        processed' := UpdateInboundAndLastRevId(words[k], matched, processed', prevRev, rev);
      }
      assert words[..|words|] == words;
    }

    method TouchWords(sids: seq<SentenceId>, matched: set<TokenId>, processed: set<TokenId>, prevRev: RevId,
        rev: RevId, ghost base: seq<Word>)
      returns (processed': set<TokenId>)
      requires forall t :: t in FlatWords(sentences, sids) ==> t < |tokens|
      requires Touched(base, tokens, processed, prevRev, rev)
      modifies this`tokens
      ensures processed' == processed + Elems(FlatWords(sentences, sids)) * matched
      ensures Touched(base, tokens, processed', prevRev, rev)
    {
      hide Touched, FlatWords, WordsOf;
      processed' := processed;
      NoWords(sentences);
      TouchedLength(base, tokens, processed, prevRev, rev);
      for i := 0 to |sids|
        invariant processed' == processed + Elems(FlatWords(sentences, sids[..i])) * matched
        invariant Touched(base, tokens, processed', prevRev, rev) && |tokens| == |base|
      {
        FlatWordsNext(sentences, sids, i);
        FlatWordsHas(sentences, sids, sids[i]);
        ElemsAppend(FlatWords(sentences, sids[..i]), WordsOf(sentences, sids[i]));
        processed' := TouchWordList(WordsOf(sentences, sids[i]), matched, processed', prevRev, rev, base);
        TouchedLength(base, tokens, processed', prevRev, rev);
      }
      assert sids[..|sids|] == sids;
    }

    /** Chains a paragraph's sentence buckets in map order: the same sentences in some order. */
    method SentencesOf(pid: ParagraphId, ghost a: Arenas) returns (sids: seq<SentenceId>)
      requires LiveParagraph(a, pid) && SameText(a)
      ensures multiset(sids) == multiset(SidsOf(paragraphs, pid))
      ensures Elems(FlatWords(sentences, sids)) == Elems(ParaWords(a, pid))
      ensures NoDup(FlatWords(sentences, sids))
      ensures forall t :: t in FlatWords(sentences, sids) ==> t < |tokens|
    {
      hide FlatWords, Walk, LiveSentence, NoDup;
      sids := ChainBuckets(paragraphs[pid].sentences, paragraphs[pid].orderedSentences);
      ParagraphNoDup(a, pid);
      hide LiveParagraph;
      SameMultisetWords(sentences, sids, SidsOf(paragraphs, pid));
      PermutedNoDup(sentences, sids, SidsOf(paragraphs, pid));
    }

    /** The nodes are those of `a`, and so is the number of tokens. */
    ghost predicate SameText(a: Arenas)
      reads this
    {
      a.sentences == sentences && a.paragraphs == paragraphs && |a.tokens| == |tokens|
    }

    method PushOutboundParagraphs(pids: seq<ParagraphId>, matched: set<TokenId>, rev: RevId)
      requires forall pid :: pid in pids ==> LiveParagraph(Store(), pid)
      requires NoDup(WordsIn(Store(), pids))
      modifies this`tokens
      ensures Marked(old(tokens), tokens, WordsIn(old(Store()), pids), matched, rev)
    {
      hide Marked, WordsIn, ParaWords, FlatWords, FlatSids, LiveParagraph, NoDup, MarkDeleted;
      ghost var a := Store();
      NoWordsIn(a);
      MarkedNothing(tokens, matched, rev);
      for i := 0 to |pids|
        invariant Marked(old(tokens), tokens, WordsIn(a, pids[..i]), matched, rev) && SameText(a)
      {
        WordsInNext(a, pids, i);
        WordsInPrefixNoDup(a, pids, i);
        var sids := SentencesOf(pids[i], a);
        label before:
        PushOutboundFor(sids, matched, rev);
        MarkedLength(old@before(tokens), tokens, FlatWords(sentences, sids), matched, rev);
        MarkedSame(old@before(tokens), tokens, FlatWords(sentences, sids), ParaWords(a, pids[i]), matched, rev);
        MarkedThen(old(tokens), old@before(tokens), tokens, WordsIn(a, pids[..i]), ParaWords(a, pids[i]), matched, rev);
      }
      assert pids[..|pids|] == pids;
    }

    method TouchParagraphs(pids: seq<ParagraphId>, matched: set<TokenId>, prevRev: RevId, rev: RevId, ghost a: Arenas)
      returns (processed: set<TokenId>)
      requires SameText(a) && forall pid :: pid in pids ==> LiveParagraph(a, pid)
      modifies this`tokens
      ensures processed == Elems(WordsIn(a, pids)) * matched
      ensures Touched(old(tokens), tokens, processed, prevRev, rev) && SameText(a)
    {
      hide Touched, WordsIn, ParaWords, FlatWords, FlatSids, LiveParagraph, NoDup, Walk;
      NoWordsIn(a);
      processed := {};
      TouchedNothing(tokens, prevRev, rev);
      for i := 0 to |pids|
        invariant processed == Elems(WordsIn(a, pids[..i])) * matched
        invariant Touched(old(tokens), tokens, processed, prevRev, rev) && SameText(a)
      {
        WordsInNext(a, pids, i);
        ElemsAppend(WordsIn(a, pids[..i]), ParaWords(a, pids[i]));
        assert pids[i] in pids;
        var sids := SentencesOf(pids[i], a);
        processed := TouchWords(sids, matched, processed, prevRev, rev, old(tokens));
        TouchedLength(old(tokens), tokens, processed, prevRev, rev);
      }
      assert pids[..|pids|] == pids;
    }

    /** Records deletions, then survivals and reintroductions, on the words walked. */
    method RecordInboundOutbound(c: Cascade, prevRev: RevId, rev: RevId)
      requires c.arenas == Store() && (!c.vandalism ==> RecorderReady(Store(), c))
      modifies this`tokens
      ensures Store() == CascadeSpec.RecordInboundOutbound(c, prevRev, rev)
    {
      hide Marked, Touched, WordsIn, FlatWords, LiveParagraph, LiveSentence, NoDup, RecordTokens, MarkDeleted,
        MarkPresent;
      if c.vandalism {
        return;
      }
      ghost var a := Store();
      if c.unmatchedSentencesPrev != [] {
        LiveWordsBounded(a, c.unmatchedSentencesPrev);
        PushOutboundFor(c.unmatchedSentencesPrev, c.matchedTokens, rev);
      } else {
        PushOutboundParagraphs(c.unmatchedParagraphsPrev, c.matchedTokens, rev);
      }
      assert Marked(a.tokens, tokens, OutWalk(a, c), c.matchedTokens, rev);
      MarkedLength(a.tokens, tokens, OutWalk(a, c), c.matchedTokens, rev);
      ghost var mid := tokens;
      var processed := TouchParagraphs(c.matchedParagraphsPrev, c.matchedTokens, prevRev, rev, a);
      LiveWordsBounded(a, c.matchedSentencesPrev);
      processed := TouchWords(c.matchedSentencesPrev, c.matchedTokens, processed, prevRev, rev, mid);
      ElemsAppend(WordsIn(a, c.matchedParagraphsPrev), FlatWords(a.sentences, c.matchedSentencesPrev));
      assert processed == Elems(InWalk(a, c)) * c.matchedTokens;
      RecorderResult(a, mid, tokens, c, prevRev, rev);
    }

    // ----- the cascade -----

    /** Paragraphs, then sentences, then tokens; each level only looks at what is left. */
    method DetermineAuthorship(text: string, prev: map<Hash, seq<ParagraphId>>, prevOrder: seq<Hash>, curr0: Revision)
      returns (c: Cascade)
      requires GoodArenas(Store()) && GoodIndex(Store(), prev, prevOrder)
      requires curr0.paragraphs == map[] && curr0.orderedParagraphs == []
      modifies this`tokens, this`sentences, this`paragraphs, this`nextTokenId
      ensures c == CascadeSpec.DetermineAuthorship(ops, old(Store()), text, prev, prevOrder, curr0)
      ensures c.arenas == Store()
    {
      hide GoodIndex, GoodArenas, ParaInv, SentInv, LiveParagraph, LiveSentence, Walk, AnalyseParagraphs,
        AnalyseSentences, AnalyseWords, SceneOk, TokensLogged, GoodTables, TokensNumbered, Unmatched,
        PossibleVandalism;
      ghost var a0 := Store();
      ParaResult(ops, a0, text, prev, prevOrder, curr0);
      var p, upp := AnalyseParagraphsInRevision(text, prev, prevOrder, curr0);
      if p.unmatchedCurr == [] {
        return Cascade(Store(), p.curr, p.matched.tokens, p.matchedPrev, upp, [], [], [], [], false);
      }
      SentenceLevelReady(a0, prev, prevOrder, curr0, p);
      var s, t := AnalyseSentencesInParagraphs(p.unmatchedCurr, upp, p.matched, SceneOf(a0, p));
      if s.unmatchedCurr == [] {
        return Cascade(Store(), p.curr, s.matched.tokens, p.matchedPrev, upp, t.matchedPrev, t.unmatchedPrev,
            p.unmatchedCurr, [], false);
      }
      var possible := PossibleVandalism(|p.unmatchedCurr|, |p.curr.orderedParagraphs|);
      TokenLevelReady(ops, a0, prev, prevOrder, curr0, p, s, t);
      var adds, matched, vandalism :=
        AnalyseWordsInSentences(s.unmatchedCurr, t.unmatchedPrev, possible, p.curr.id, s.matched.tokens);
      c := Cascade(Store(), p.curr.(originalAdds := p.curr.originalAdds + adds), matched, p.matchedPrev, upp,
                   t.matchedPrev, t.unmatchedPrev, p.unmatchedCurr, s.unmatchedCurr, vandalism);
    }

    // ----- the per-revision step -----

    method CommitParagraphs(pids: seq<ParagraphId>)
      modifies this`paragraphs, this`paragraphsHt
      requires forall pid :: pid in pids ==> pid < |paragraphs|
      ensures Store() == CascadeSpec.CommitParagraphs(old(Store()), pids)
    {
      assert pids[0..] == pids;
      for i := 0 to |pids|
        invariant |paragraphs| == |old(paragraphs)|
        invariant CascadeSpec.CommitParagraphs(Store(), pids[i..]) == CascadeSpec.CommitParagraphs(old(Store()), pids)
      {
        assert pids[i] in pids && pids[i..][0] == pids[i] && pids[i..][1..] == pids[i + 1..];
        paragraphsHt := Push(paragraphsHt, paragraphs[pids[i]].hashValue, pids[i]);
        paragraphs := paragraphs[pids[i] := paragraphs[pids[i]].(value := "")];
      }
      assert pids[|pids|..] == [];
    }

    method CommitSentences(sids: seq<SentenceId>)
      modifies this`sentences, this`sentencesHt
      requires forall sid :: sid in sids ==> sid < |sentences|
      ensures Store() == CascadeSpec.CommitSentences(old(Store()), sids)
    {
      assert sids[0..] == sids;
      for i := 0 to |sids|
        invariant |sentences| == |old(sentences)|
        invariant CascadeSpec.CommitSentences(Store(), sids[i..]) == CascadeSpec.CommitSentences(old(Store()), sids)
      {
        assert sids[i] in sids && sids[i..][0] == sids[i] && sids[i..][1..] == sids[i + 1..];
        sentencesHt := Push(sentencesHt, sentences[sids[i]].hashValue, sids[i]);
        sentences := sentences[sids[i] := sentences[sids[i]].(value := "")];
      }
      assert sids[|sids|..] == [];
    }

    /** Records, moves the fresh nodes into the hash tables and stores the revision. */
    method StoreRevision(c: Cascade, prevRev: RevId, input: RevisionInput)
      requires c.arenas == Store() && !c.vandalism && RecorderReady(Store(), c) && FreshInRange(c)
      requires prevRev == PrevRevision(State()).id
      modifies this
      ensures State() == Commit(old(State()), input, c)
    {
      hide RecorderReady, CascadeSpec.RecordInboundOutbound, CascadeSpec.CommitParagraphs,
        CascadeSpec.CommitSentences;
      ghost var st := State();
      RecordInboundOutbound(c, prevRev, input.revId);
      ghost var a := CascadeSpec.RecordInboundOutbound(c, prevRev, input.revId);
      CommitReady(c, prevRev, input.revId);
      CommitParagraphs(c.unmatchedParagraphsCurr);
      CommitParagraphsFacts(a, c.unmatchedParagraphsCurr);
      CommitSentences(c.unmatchedSentencesCurr);
      lastGoodRevId := input.revId;
      orderedRevisions := orderedRevisions + [input.revId];
      revisions := revisions[input.revId := c.curr];
    }

    /** Processes one revision: the two spam gates, the cascade, the recorder, the commit. */
    method AnalyseRevision(input: RevisionInput) returns (outcome: Outcome)
      requires Valid()
      modifies this
      ensures (State(), outcome) == CascadeSpec.AnalyseRevision(ops, old(State()), input)
      ensures Valid()
      ensures GoodState(old(State())) && input.revId !in old(orderedRevisions) ==> GoodState(State())
    {
      hide GoodState, Shaped, GoodIndex, GoodArenas, RecorderReady, FreshInRange, LengthShrinks, Commit, RevHash,
        CascadeSpec.DetermineAuthorship;
      StepShaped(ops, State(), input);
      if GoodState(State()) && input.revId !in orderedRevisions {
        StepKeepsGood(ops, State(), input);
      }
      StepReady(ops, State(), input);
      ghost var before := State();
      var hash := RevHash(ops, input);
      if hash in spamHashes {
        spamIds := spamIds + [input.revId];
        return Vandalism(HashMatch);
      }
      var prev := PrevRevision(State());
      if LengthShrinks(prev.length, |input.text|, CommentPresent(input), input.minor) {
        spamIds := spamIds + [input.revId];
        spamHashes := spamHashes + {hash};
        return Vandalism(LengthShrink);
      }
      var c := DetermineAuthorship(ops.lower(input.text), prev.paragraphs, prev.orderedParagraphs,
          FreshRevision(input));
      assert c == CascadeOf(ops, before, input);
      if c.vandalism {
        spamIds := spamIds + [input.revId];
        spamHashes := spamHashes + {hash};
        return Vandalism(TokenDensity);
      }
      StoreRevision(c, prev.id, input);
      CommitIgnoresArenas(before, c.arenas, input, c);
      outcome := Stored;
    }

    // ----- reading a revision back -----

    /** A loaded revision answers from its override; otherwise the paragraphs are walked. */
    method IterRevTokens(rev: Revision) returns (ids: seq<TokenId>)
      requires rev.tokenSequenceOverride.None? ==> GoodIndex(Store(), rev.paragraphs, rev.orderedParagraphs)
      ensures ids == match rev.tokenSequenceOverride case Some(s) => s case None => RevTokens(Store(), rev)
    {
      hide LiveParagraph, LiveSentence, NoDup, ClampedWalk, HashedBy;
      if rev.tokenSequenceOverride.Some? {
        return rev.tokenSequenceOverride.value;
      }
      ids := [];
      ClampedIsWalk(rev.paragraphs, rev.orderedParagraphs);
      hide Walk, Aligned;
      ghost var all := Pids(rev);
      var pids := WalkClamped(rev.paragraphs, rev.orderedParagraphs);
      for i := 0 to |pids|
        invariant ids == WordsIn(Store(), pids[..i])
      {
        WordsInNext(Store(), pids, i);
        assert LiveParagraph(Store(), pids[i]);
        ParagraphCovered(Store(), pids[i]);
        var p := paragraphs[pids[i]];
        var sids := WalkClamped(p.sentences, p.orderedSentences);
        var words := WordsOfAll(sids);
        ids := ids + words;
      }
      assert pids[..|pids|] == pids;
    }

    method WordsOfAll(sids: seq<SentenceId>) returns (words: seq<TokenId>)
      requires forall sid :: sid in sids ==> sid < |sentences|
      ensures words == FlatWords(sentences, sids)
    {
      words := [];
      for i := 0 to |sids|
        invariant words == FlatWords(sentences, sids[..i])
      {
        FlatWordsNext(sentences, sids, i);
        assert sids[i] in sids;
        words := words + sentences[sids[i]].words;
      }
      assert sids[..|sids|] == sids;
    }
  }
}
