/** How the token level of the cascade keeps the shape of the article, whatever the diff
    transcript says. */
module WordLevel {
  import opened Wrappers
  import opened Seqs
  import opened Buckets
  import opened TextOps
  import opened Structures
  import opened DifferSpec
  import opened CascadeSpec
  import opened CascadeShape
  import opened SentenceLevel

  // ----- pushing a word -----

  lemma OnceSplits(sids: seq<SentenceId>, sid: SentenceId) returns (x: seq<SentenceId>, y: seq<SentenceId>)
    requires multiset(sids)[sid] == 1
    ensures sids == x + [sid] + y && sid !in x && sid !in y
  {
    ElemsMultiset(sids, sid);
    var i :| 0 <= i < |sids| && sids[i] == sid;
    x, y := sids[..i], sids[i + 1..];
    assert sids == x + [sid] + y;
    assert multiset(sids) == multiset(x) + multiset{sid} + multiset(y);
    ElemsMultiset(x, sid);
    ElemsMultiset(y, sid);
  }

  lemma PushedFlat(old_: seq<Sentence>, now: seq<Sentence>, sids: seq<SentenceId>, sid: SentenceId, wid: TokenId)
    requires multiset(sids)[sid] == 1
    requires forall i :: i != sid ==> WordsOf(now, i) == WordsOf(old_, i)
    requires WordsOf(now, sid) == WordsOf(old_, sid) + [wid]
    ensures multiset(FlatWords(now, sids)) == multiset(FlatWords(old_, sids)) + multiset{wid}
  {
    hide WordsOf;
    var x, y := OnceSplits(sids, sid);
    FlatWordsFrame(old_, now, x);
    FlatWordsFrame(old_, now, y);
    SplitWords(old_, x, sid, y);
    SplitWords(now, x, sid, y);
  }

  lemma PushWordFlat(a: Arenas, w: seq<ParagraphId>, sid: SentenceId, wid: TokenId)
    requires sid < |a.sentences| && multiset(FlatSids(a.paragraphs, w))[sid] == 1
    ensures multiset(WordsIn(PushWord(a, sid, wid), w)) == multiset(WordsIn(a, w)) + multiset{wid}
  {
    var b := PushWord(a, sid, wid);
    hide FlatSids;
    assert forall i :: i != sid ==> WordsOf(b.sentences, i) == WordsOf(a.sentences, i);
    assert WordsOf(b.sentences, sid) == WordsOf(a.sentences, sid) + [wid];
    assert b.paragraphs == a.paragraphs;
    hide FlatWords, WordsOf, PushWord;
    PushedFlat(a.sentences, b.sentences, FlatSids(a.paragraphs, w), sid, wid);
  }

  lemma SplitWords(sentences: seq<Sentence>, x: seq<SentenceId>, sid: SentenceId, y: seq<SentenceId>)
    ensures FlatWords(sentences, x + [sid] + y) == FlatWords(sentences, x) + WordsOf(sentences, sid)
        + FlatWords(sentences, y)
  {
    var mid := [sid];
    assert FlatWords(sentences, mid) == WordsOf(sentences, sid) by {
      assert mid[1..] == [];
    }
    FlatWordsAppend(sentences, x, mid);
    FlatWordsAppend(sentences, x + mid, y);
  }

  // ----- the invariant -----

  /** The fixed surroundings of the token level. */
  datatype WordScene = WordScene(
    base: Arenas, w: seq<ParagraphId>, firstFresh: nat, rev: RevId, claimed: set<TokenId>, ids: seq<TokenId>)

  ghost predicate WordSceneOk(sc: WordScene) {
    && TokensNumbered(sc.base)
    && FreshOnce(sc.firstFresh, |sc.base.sentences|, FlatSids(sc.base.paragraphs, sc.w))
    && WordsClaimed(WordsIn(sc.base, sc.w), sc.claimed)
    && (forall t :: t in sc.claimed ==> t < |sc.base.tokens|)
    && (forall t :: t in sc.ids ==> t < |sc.base.tokens| && t !in sc.claimed)
  }

  /** Old sentences are untouched, fresh ones keep their hash and text. */
  ghost predicate SentencesGrow(firstFresh: nat, old_: seq<Sentence>, now: seq<Sentence>) {
    && |now| == |old_|
    && (forall i :: 0 <= i < |old_| && i < firstFresh ==> now[i] == old_[i])
    && (forall i :: firstFresh <= i < |old_| ==> now[i].hashValue == old_[i].hashValue && now[i].value == old_[i].value)
  }

  /** Old tokens are unchanged, but for one deletion mark on those taken out. */
  ghost predicate TokenRecords(old_: seq<Word>, now: seq<Word>, rev: RevId, matched: set<TokenId>,
      words: seq<TokenId>) {
    && |old_| <= |now|
    && (forall t :: 0 <= t < |old_| ==>
          now[t] == if t in matched && t !in words then MarkDeleted(old_[t], rev) else old_[t])
    && (forall t :: |old_| <= t < |now| ==> now[t] == Word(t, now[t].value, rev, rev, [], []))
  }

  ghost predicate Placed(n: nat, total: nat, words: seq<TokenId>, claimed: set<TokenId>, matched: set<TokenId>,
      ids: seq<TokenId>) {
    && NoDup(words)
    && (forall t :: t in words ==> t < total && (t < n ==> t in matched))
    && (forall t :: n <= t < total ==> t in words)
    && (forall t :: t in claimed ==> t in words)
    && claimed <= matched
    && (forall t :: t in matched && t !in claimed ==> t in ids)
  }

  ghost predicate WordInv(sc: WordScene, s: WordState) {
    var a, words := s.arenas, WordsIn(s.arenas, sc.w);
    && a == sc.base.(tokens := a.tokens, sentences := a.sentences, nextTokenId := a.nextTokenId)
    && TokensNumbered(a)
    && s.originalAdds == |a.tokens| - |sc.base.tokens|
    && SentencesGrow(sc.firstFresh, sc.base.sentences, a.sentences)
    && TokenRecords(sc.base.tokens, a.tokens, sc.rev, s.matched, words)
    && Placed(|sc.base.tokens|, |a.tokens|, words, sc.claimed, s.matched, sc.ids)
  }

  // ----- the three things a step does -----

  lemma PlacedMore(n: nat, total: nat, words: seq<TokenId>, claimed: set<TokenId>, matched: set<TokenId>,
      ids: seq<TokenId>,
                   words': seq<TokenId>, wid: TokenId)
    requires Placed(n, total, words, claimed, matched, ids)
    requires multiset(words') == multiset(words) + multiset{wid} && wid !in words
    requires n <= total && ((wid < n && wid in ids) || wid == total)
    ensures wid < n ==> Placed(n, total, words', claimed, matched + {wid}, ids)
    ensures wid == total ==> Placed(n, total + 1, words', claimed, matched, ids)
    ensures forall t :: t in words' <==> t in words || t == wid
  {
    NoDupCounts(words);
    NoDupCounts(words');
    forall t ensures t in words' <==> t in words || t == wid {
      ElemsMultiset(words', t);
      ElemsMultiset(words, t);
    }
    forall t ensures multiset(words')[t] <= 1 {
      ElemsMultiset(words, t);
    }
  }

  /** Pushing a word changes nothing but the words of one sentence. */
  lemma PushWordFields(a: Arenas, sid: SentenceId, wid: TokenId, firstFresh: nat, old_: seq<Sentence>)
    requires firstFresh <= sid < |a.sentences| && SentencesGrow(firstFresh, old_, a.sentences)
    ensures
      var b := PushWord(a, sid, wid); b == a.(sentences := b.sentences) && SentencesGrow(firstFresh, old_, b.sentences)
  {
  }

  lemma RecordsKept(old_: seq<Word>, now: seq<Word>, rev: RevId, matched: set<TokenId>, words: seq<TokenId>,
                    words': seq<TokenId>, wid: TokenId)
    requires TokenRecords(old_, now, rev, matched, words) && wid !in matched
    requires forall t :: t in words' <==> t in words || t == wid
    ensures TokenRecords(old_, now, rev, matched + {wid}, words')
  {
    hide MarkDeleted;
  }

  lemma RecordsDeleted(old_: seq<Word>, now: seq<Word>, rev: RevId, matched: set<TokenId>, words: seq<TokenId>,
      wid: TokenId)
    requires TokenRecords(old_, now, rev, matched, words) && wid !in matched && wid !in words && wid < |old_|
    ensures TokenRecords(old_, now[wid := MarkDeleted(now[wid], rev)], rev, matched + {wid}, words)
  {
  }

  lemma RecordsGrown(old_: seq<Word>, now: seq<Word>, rev: RevId, matched: set<TokenId>, words: seq<TokenId>,
                     words': seq<TokenId>, value: string)
    requires TokenRecords(old_, now, rev, matched, words)
    requires forall t :: t in words' <==> t in words || t == |now|
    ensures TokenRecords(old_, now + [Word(|now|, value, rev, rev, [], [])], rev, matched, words')
  {
    hide MarkDeleted;
  }

  /** What the scene and the invariant say that all three steps use. */
  lemma WordFacts(sc: WordScene, s: WordState)
    requires WordSceneOk(sc) && WordInv(sc, s)
    ensures s.arenas.paragraphs == sc.base.paragraphs && |s.arenas.sentences| == |sc.base.sentences|
    ensures |sc.base.tokens| <= |s.arenas.tokens| && s.arenas.nextTokenId == |s.arenas.tokens|
    ensures forall t :: t in sc.ids ==> t < |sc.base.tokens|
    ensures forall t :: t in sc.ids && t !in s.matched ==> t !in WordsIn(s.arenas, sc.w)
    ensures |s.arenas.tokens| !in WordsIn(s.arenas, sc.w)
    ensures
      forall sid :: sc.firstFresh <= sid < |sc.base.sentences|
        ==> multiset(FlatSids(s.arenas.paragraphs, sc.w))[sid] == 1
  {
    hide FlatSids, WordsClaimed, NoDup, MarkDeleted;
    var words := WordsIn(s.arenas, sc.w);
    hide WordsIn;
    assert Placed(|sc.base.tokens|, |s.arenas.tokens|, words, sc.claimed, s.matched, sc.ids);
  }

  lemma KeepKeeps(sc: WordScene, s: WordState, sid: SentenceId, wid: TokenId, entries: seq<DiffEntry>)
    requires WordSceneOk(sc) && WordInv(sc, s)
    requires sc.firstFresh <= sid < |sc.base.sentences| && wid in sc.ids && wid !in s.matched
    ensures WordInv(sc, s.(arenas := PushWord(s.arenas, sid, wid), matched := s.matched + {wid}, entries := entries))
  {
    hide WordSceneOk, WordsIn, FlatSids, PushWord, SentencesGrow, TokenRecords, Placed;
    var words, b := WordsIn(s.arenas, sc.w), PushWord(s.arenas, sid, wid);
    WordFacts(sc, s);
    PushWordFields(s.arenas, sid, wid, sc.firstFresh, sc.base.sentences);
    PushWordFlat(s.arenas, sc.w, sid, wid);
    PlacedMore(|sc.base.tokens|, |s.arenas.tokens|, words, sc.claimed, s.matched, sc.ids, WordsIn(b, sc.w), wid);
    RecordsKept(sc.base.tokens, s.arenas.tokens, sc.rev, s.matched, words, WordsIn(b, sc.w), wid);
  }

  lemma DeleteKeeps(sc: WordScene, s: WordState, wid: TokenId, entries: seq<DiffEntry>)
    requires WordSceneOk(sc) && WordInv(sc, s)
    requires wid in sc.ids && wid !in s.matched
    ensures WordInv(sc, s.(arenas := PushOutbound(s.arenas, wid, sc.rev), matched := s.matched + {wid},
        entries := entries))
  {
    hide WordSceneOk, FlatSids, FlatWords, SentencesGrow, TokenRecords, Placed;
    var words, b := WordsIn(s.arenas, sc.w), PushOutbound(s.arenas, wid, sc.rev);
    WordFacts(sc, s);
    assert WordsIn(b, sc.w) == words;
    RecordsDeleted(sc.base.tokens, s.arenas.tokens, sc.rev, s.matched, words, wid);
    PlacedTaken(|sc.base.tokens|, |s.arenas.tokens|, words, sc.claimed, s.matched, sc.ids, wid);
  }

  lemma PlacedTaken(n: nat, total: nat, words: seq<TokenId>, claimed: set<TokenId>, matched: set<TokenId>,
      ids: seq<TokenId>, wid: TokenId)
    requires Placed(n, total, words, claimed, matched, ids) && wid in ids
    ensures Placed(n, total, words, claimed, matched + {wid}, ids)
  {
    hide NoDup;
  }

  lemma FreshKeeps(sc: WordScene, s: WordState, sid: SentenceId, word: string, entries: seq<DiffEntry>)
    requires WordSceneOk(sc) && WordInv(sc, s)
    requires sc.firstFresh <= sid < |sc.base.sentences|
    ensures WordInv(sc, AddFreshWord(sid, word, sc.rev, s).(entries := entries))
  {
    hide WordSceneOk, FlatSids, FlatWords, PushWord, SentencesGrow, TokenRecords, Placed;
    var words, wid := WordsIn(s.arenas, sc.w), |s.arenas.tokens|;
    var a := AllocWord(s.arenas, word, sc.rev);
    var b := PushWord(a, sid, wid);
    WordFacts(sc, s);
    assert WordsIn(a, sc.w) == words;
    hide WordsIn;
    PushWordFields(a, sid, wid, sc.firstFresh, sc.base.sentences);
    PushWordFlat(a, sc.w, sid, wid);
    PlacedMore(|sc.base.tokens|, wid, words, sc.claimed, s.matched, sc.ids, WordsIn(b, sc.w), wid);
    RecordsGrown(sc.base.tokens, s.arenas.tokens, sc.rev, s.matched, words, WordsIn(b, sc.w), word);
  }

  // ----- the loops -----

  lemma {:induction false} ScanDiffKeeps(sc: WordScene, pw: PrevWords, sid: SentenceId, word: string, pos: nat,
      s: WordState)
    requires WordSceneOk(sc) && WordInv(sc, s) && pw.ids == sc.ids
    requires sc.firstFresh <= sid < |sc.base.sentences|
    ensures WordInv(sc, ScanDiff(pw, sc.rev, sid, word, pos, s).0)
    decreases |s.entries| - pos
  {
    hide WordSceneOk, WordInv, PushWord, PushOutbound, AddFreshWord;
    if pos < |s.entries| {
      var e := s.entries[pos];
      if e.consumed || e.op.value != word {
        ScanDiffKeeps(sc, pw, sid, word, pos + 1, s);
      } else {
        var used := s.entries[pos := e.(consumed := true)];
        if e.op.Insert? {
          FreshKeeps(sc, s, sid, word, used);
        } else {
          var found := FindUnmatchedPrev(pw, word, s.matched, 0);
          if found.None? {
            ScanDiffKeeps(sc, pw, sid, word, pos + 1, s);
          } else if e.op.Keep? {
            KeepKeeps(sc, s, sid, pw.ids[found.value], used);
          } else {
            var wid := pw.ids[found.value];
            DeleteKeeps(sc, s, wid, used);
            ScanDiffKeeps(sc, pw, sid, word, pos + 1,
                          s.(arenas := PushOutbound(s.arenas, wid, sc.rev), matched := s.matched + {wid},
                              entries := used));
          }
        }
      }
    }
  }

  lemma WordStepKeeps(sc: WordScene, pw: PrevWords, sid: SentenceId, word: string, s: WordState)
    requires WordSceneOk(sc) && WordInv(sc, s) && pw.ids == sc.ids
    requires sc.firstFresh <= sid < |sc.base.sentences|
    ensures WordInv(sc, WordStep(pw, sc.rev, sid, word, s))
  {
    hide WordSceneOk, WordInv, ScanDiff;
    ScanDiffKeeps(sc, pw, sid, word, 0, s);
    var (s', matched) := ScanDiff(pw, sc.rev, sid, word, 0, s);
    FreshKeeps(sc, s', sid, word, s'.entries);
  }

  lemma {:induction false} WordLoopKeeps(sc: WordScene, pw: PrevWords, sid: SentenceId, words: seq<string>,
      s: WordState)
    requires WordSceneOk(sc) && WordInv(sc, s) && pw.ids == sc.ids
    requires sc.firstFresh <= sid < |sc.base.sentences|
    ensures WordInv(sc, WordLoop(pw, sc.rev, sid, words, s))
    decreases |words|
  {
    hide WordSceneOk, WordInv, WordStep;
    if words != [] {
      WordStepKeeps(sc, pw, sid, words[0], s);
      WordLoopKeeps(sc, pw, sid, words[1..], WordStep(pw, sc.rev, sid, words[0], s));
    }
  }

  lemma {:induction false} WordLoopsKeep(sc: WordScene, pw: PrevWords, sids: seq<SentenceId>, s: WordState)
    requires WordSceneOk(sc) && WordInv(sc, s) && pw.ids == sc.ids
    requires forall sid :: sid in sids ==> sc.firstFresh <= sid < |sc.base.sentences|
    ensures WordInv(sc, WordLoops(pw, sc.rev, sids, s))
    decreases |sids|
  {
    hide WordSceneOk, WordInv, WordLoop;
    if sids != [] {
      assert sids[0] in sids && forall x :: x in sids[1..] ==> x in sids;
      var words := SplitSpace(SentenceValue(s.arenas, sids[0]));
      WordLoopKeeps(sc, pw, sids[0], words, s);
      WordLoopsKeep(sc, pw, sids[1..], WordLoop(pw, sc.rev, sids[0], words, s));
    }
  }

  // ----- what each sentence receives -----

  /** `now` is `old_` with the words `added` at the end of sentence `sid`. */
  ghost predicate Appended(old_: Arenas, now: Arenas, sid: SentenceId, added: seq<string>) {
    && |old_.tokens| <= |now.tokens| && |old_.sentences| == |now.sentences| && sid < |old_.sentences|
    && (forall t :: 0 <= t < |old_.tokens| ==> now.tokens[t].value == old_.tokens[t].value)
    && (forall i :: 0 <= i < |old_.sentences| && i != sid ==> now.sentences[i] == old_.sentences[i])
    && now.sentences[sid].value == old_.sentences[sid].value
    && now.sentences[sid].hashValue == old_.sentences[sid].hashValue
    && |now.sentences[sid].words| == |old_.sentences[sid].words| + |added|
    && old_.sentences[sid].words <= now.sentences[sid].words
    && forall i :: 0 <= i < |added| ==> HasWord(now, sid, |old_.sentences[sid].words| + i, added[i])
  }

  /** The k-th word of sentence `sid` has this value. */
  ghost predicate HasWord(a: Arenas, sid: SentenceId, k: nat, value: string) {
    && sid < |a.sentences| && k < |a.sentences[sid].words|
    && a.sentences[sid].words[k] < |a.tokens|
    && a.tokens[a.sentences[sid].words[k]].value == value
  }

  /** The recorded previous values are the values of the previous ids. */
  ghost predicate PrevValuesOk(pw: PrevWords, a: Arenas) {
    && |pw.ids| == |pw.values|
    && forall i :: 0 <= i < |pw.ids| ==> pw.ids[i] < |a.tokens| && a.tokens[pw.ids[i]].value == pw.values[i]
  }

  lemma AppendedTrans(a: Arenas, b: Arenas, c: Arenas, sid: SentenceId, xs: seq<string>, ys: seq<string>)
    requires Appended(a, b, sid, xs) && Appended(b, c, sid, ys)
    ensures Appended(a, c, sid, xs + ys)
  {
    var k := |a.sentences[sid].words|;
    forall i | 0 <= i < |xs + ys| ensures HasWord(c, sid, k + i, (xs + ys)[i]) {
      if i < |xs| {
        assert HasWord(b, sid, k + i, xs[i]);
      } else {
        assert HasWord(c, sid, |b.sentences[sid].words| + (i - |xs|), ys[i - |xs|]);
      }
    }
  }

  lemma {:induction false} FindUnmatchedPrevValue(pw: PrevWords, word: string, matched: set<TokenId>, i: nat)
    ensures var r := FindUnmatchedPrev(pw, word, matched, i);
      r.Some? ==> r.value < |pw.values| && pw.values[r.value] == word
    decreases |pw.ids| - i
  {
    if i < |pw.ids| {
      FindUnmatchedPrevValue(pw, word, matched, i + 1);
    }
  }

  /** A scan appends the word looked for, or nothing when it reports no match. */
  lemma {:induction false} ScanDiffAppends(pw: PrevWords, rev: RevId, sid: SentenceId, word: string, pos: nat,
      s: WordState)
    requires TokensNumbered(s.arenas) && PrevValuesOk(pw, s.arenas) && sid < |s.arenas.sentences|
    ensures var (r, matched) := ScanDiff(pw, rev, sid, word, pos, s);
      && Appended(s.arenas, r.arenas, sid, if matched then [word] else [])
      && TokensNumbered(r.arenas) && PrevValuesOk(pw, r.arenas)
    decreases |s.entries| - pos
  {
    if pos < |s.entries| {
      var e := s.entries[pos];
      if e.consumed || e.op.value != word {
        ScanDiffAppends(pw, rev, sid, word, pos + 1, s);
      } else {
        var used := s.entries[pos := e.(consumed := true)];
        if e.op.Insert? {
          FreshAppends(pw, rev, sid, word, s);
        } else {
          var found := FindUnmatchedPrev(pw, word, s.matched, 0);
          FindUnmatchedPrevValue(pw, word, s.matched, 0);
          if found.None? {
            ScanDiffAppends(pw, rev, sid, word, pos + 1, s);
          } else {
            var wid := pw.ids[found.value];
            if e.op.Delete? {
              var s' := s.(arenas := PushOutbound(s.arenas, wid, rev), matched := s.matched + {wid}, entries := used);
              ScanDiffAppends(pw, rev, sid, word, pos + 1, s');
              var (r, matched) := ScanDiff(pw, rev, sid, word, pos + 1, s');
              AppendedTrans(s.arenas, s'.arenas, r.arenas, sid, [], if matched then [word] else []);
              assert [] + (if matched then [word] else []) == if matched then [word] else [];
            }
          }
        }
      }
    }
  }

  lemma FreshAppends(pw: PrevWords, rev: RevId, sid: SentenceId, word: string, s: WordState)
    requires TokensNumbered(s.arenas) && PrevValuesOk(pw, s.arenas) && sid < |s.arenas.sentences|
    ensures var r := AddFreshWord(sid, word, rev, s);
      Appended(s.arenas, r.arenas, sid, [word]) && TokensNumbered(r.arenas) && PrevValuesOk(pw, r.arenas)
  {
  }

  lemma WordStepAppends(pw: PrevWords, rev: RevId, sid: SentenceId, word: string, s: WordState)
    requires TokensNumbered(s.arenas) && PrevValuesOk(pw, s.arenas) && sid < |s.arenas.sentences|
    ensures var r := WordStep(pw, rev, sid, word, s);
      Appended(s.arenas, r.arenas, sid, [word]) && TokensNumbered(r.arenas) && PrevValuesOk(pw, r.arenas)
  {
    ScanDiffAppends(pw, rev, sid, word, 0, s);
    var (s', matched) := ScanDiff(pw, rev, sid, word, 0, s);
    hide ScanDiff, AddFreshWord;
    if !matched {
      assert sid < |s'.arenas.sentences|;
      FreshAppends(pw, rev, sid, word, s');
      AppendedTrans(s.arenas, s'.arenas, AddFreshWord(sid, word, rev, s').arenas, sid, [], [word]);
      assert [] + [word] == [word];
    }
  }

  lemma {:induction false} WordLoopAppends(pw: PrevWords, rev: RevId, sid: SentenceId, words: seq<string>, s: WordState)
    requires TokensNumbered(s.arenas) && PrevValuesOk(pw, s.arenas) && sid < |s.arenas.sentences|
    ensures var r := WordLoop(pw, rev, sid, words, s);
      Appended(s.arenas, r.arenas, sid, words) && TokensNumbered(r.arenas) && PrevValuesOk(pw, r.arenas)
    decreases |words|
  {
    hide WordStep;
    if words != [] {
      var s' := WordStep(pw, rev, sid, words[0], s);
      WordStepAppends(pw, rev, sid, words[0], s);
      assert sid < |s'.arenas.sentences|;
      WordLoopAppends(pw, rev, sid, words[1..], s');
      AppendedTrans(s.arenas, s'.arenas, WordLoop(pw, rev, sid, words[1..], s').arenas, sid, [words[0]], words[1..]);
      assert [words[0]] + words[1..] == words;
    }
  }

  /** Sentence `sid` holds exactly these words. */
  ghost predicate Filled(a: Arenas, sid: SentenceId, parts: seq<string>) {
    && sid < |a.sentences| && |a.sentences[sid].words| == |parts|
    && forall k :: 0 <= k < |parts| ==> HasWord(a, sid, k, parts[k])
  }

  /** Later arenas keep every sentence outside `sids`, all texts and hashes and all token values. */
  ghost predicate OthersKept(a: Arenas, b: Arenas, sids: seq<SentenceId>) {
    && |a.sentences| == |b.sentences| && |a.tokens| <= |b.tokens|
    && (forall i :: 0 <= i < |a.sentences| && i !in sids ==> b.sentences[i] == a.sentences[i])
    && (forall i :: 0 <= i < |a.sentences| ==>
          b.sentences[i].value == a.sentences[i].value && b.sentences[i].hashValue == a.sentences[i].hashValue)
    && (forall t :: 0 <= t < |a.tokens| ==> b.tokens[t].value == a.tokens[t].value)
  }

  lemma FilledKept(a: Arenas, b: Arenas, sids: seq<SentenceId>, sid: SentenceId, parts: seq<string>)
    requires Filled(a, sid, parts) && OthersKept(a, b, sids) && sid !in sids
    ensures Filled(b, sid, parts)
  {
    forall k | 0 <= k < |parts| ensures HasWord(b, sid, k, parts[k]) {
      assert HasWord(a, sid, k, parts[k]);
    }
  }

  lemma AppendedFills(a: Arenas, b: Arenas, sid: SentenceId, parts: seq<string>)
    requires Appended(a, b, sid, parts) && a.sentences[sid].words == []
    ensures Filled(b, sid, parts) && OthersKept(a, b, [sid])
  {
  }

  /** The token level gives every fresh sentence exactly the words of its text. */
  lemma {:induction false} WordLoopsFill(pw: PrevWords, rev: RevId, sids: seq<SentenceId>, s: WordState)
    requires TokensNumbered(s.arenas) && PrevValuesOk(pw, s.arenas) && NoDup(sids)
    requires forall sid :: sid in sids ==> sid < |s.arenas.sentences| && s.arenas.sentences[sid].words == []
    ensures var r := WordLoops(pw, rev, sids, s);
      && OthersKept(s.arenas, r.arenas, sids)
      && forall sid :: sid in sids ==> Filled(r.arenas, sid, SplitSpace(SentenceValue(s.arenas, sid)))
    decreases |sids|
  {
    if sids != [] {
      var sid, rest := sids[0], sids[1..];
      assert sid in sids && (forall x :: x in rest ==> x in sids) && sid !in rest;
      var parts := SplitSpace(SentenceValue(s.arenas, sid));
      var s' := WordLoop(pw, rev, sid, parts, s);
      WordLoopAppends(pw, rev, sid, parts, s);
      hide WordLoop, SplitSpace, TokensNumbered, PrevValuesOk, HasWord;
      AppendedFills(s.arenas, s'.arenas, sid, parts);
      WordLoopsFill(pw, rev, rest, s');
      var r := WordLoops(pw, rev, rest, s');
      FilledKept(s'.arenas, r.arenas, rest, sid, parts);
      forall x | x in sids ensures Filled(r.arenas, x, SplitSpace(SentenceValue(s.arenas, x))) {
        if x != sid {
          assert x in rest && s'.arenas.sentences[x] == s.arenas.sentences[x];
        }
      }
    }
  }
}
