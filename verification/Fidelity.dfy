/** Text fidelity: a stored revision's token values are the flattened split of its text,
    whichever mix of reuse, diff and allocation built it. */
module Fidelity {
  import opened Wrappers
  import opened Seqs
  import opened Buckets
  import opened TextOps
  import opened Structures
  import opened DifferSpec
  import opened CascadeSpec
  import opened CascadeShape
  import opened SentenceLevel
  import opened WordLevel
  import opened Accounting
  import opened History
  import opened Runs
  import opened Orphans

  // ----- what is assumed of the text operations -----

  /** No two of the strings in `seen` share a digest. */
  ghost predicate CollisionFree(ops: TextOps, seen: iset<string>) {
    forall x, y :: x in seen && y in seen && ops.digest(x) == ops.digest(y) ==> x == y
  }

  /** A non-blank sentence has at least one token, and no token contains a space. */
  ghost predicate TokenizerOk(ops: TextOps) {
    forall s :: ops.trim(s) != "" ==> SpaceFree(ops.splitTokens(ops.trim(s)))
  }

  /** Every paragraph and normalized sentence of the text is in `seen`. */
  ghost predicate Hashed(ops: TextOps, seen: iset<string>, paragraphs: seq<string>) {
    forall i :: 0 <= i < |paragraphs|
      ==> paragraphs[i] in seen && SentencesHashedIn(ops, seen, Sentences(ops, paragraphs[i]))
  }

  ghost predicate SentencesHashedIn(ops: TextOps, seen: iset<string>, sentences: seq<seq<string>>) {
    forall j :: 0 <= j < |sentences| ==> Join(sentences[j]) in seen
  }

  function Digests(ops: TextOps, texts: seq<string>): (r: seq<Hash>)
    ensures |r| == |texts|
  {
    if texts == [] then [] else [ops.digest(texts[0])] + Digests(ops, texts[1..])
  }

  /** The hashes of a paragraph's sentences, in order. */
  function SentenceHashes(ops: TextOps, sentences: seq<seq<string>>): (r: seq<Hash>)
    ensures |r| == |sentences|
  {
    if sentences == [] then [] else [ops.digest(Join(sentences[0]))] + SentenceHashes(ops, sentences[1..])
  }

  // ----- the invariant -----

  /** The sentence's words read as the tokens of the text its hash stands for. */
  ghost predicate FaithfulSentence(ops: TextOps, seen: iset<string>, a: Arenas, sid: SentenceId) {
    && sid < |a.sentences|
    && forall toks :: SpaceFree(toks) && Join(toks) in seen && ops.digest(Join(toks)) == a.sentences[sid].hashValue ==>
         Values(a.tokens, WordsOf(a.sentences, sid)) == toks
  }

  /** The paragraph lists the sentences of the text its hash stands for. */
  ghost predicate FaithfulParagraph(ops: TextOps, seen: iset<string>, a: Arenas, pid: ParagraphId) {
    && pid < |a.paragraphs|
    && forall p :: p in seen && ops.digest(p) == a.paragraphs[pid].hashValue ==>
         a.paragraphs[pid].orderedSentences == SentenceHashes(ops, Sentences(ops, p))
  }

  ghost predicate Faithful(ops: TextOps, seen: iset<string>, a: Arenas) {
    && (forall pid: ParagraphId :: TabledPara(a, pid) ==> FaithfulParagraph(ops, seen, a, pid))
    && (forall sid: SentenceId :: TabledSent(a, sid) ==> FaithfulSentence(ops, seen, a, sid))
  }

  lemma FaithfulSentenceExtends(ops: TextOps, seen: iset<string>, a: Arenas, b: Arenas, sid: SentenceId)
    requires FaithfulSentence(ops, seen, a, sid) && LiveSentence(a, sid) && Extends(a, b)
    ensures FaithfulSentence(ops, seen, b, sid)
  {
    ValuesFrame(a.tokens, b.tokens, WordsOf(a.sentences, sid));
    hide SpaceFree, Join, Values;
  }

  lemma FaithfulParagraphExtends(ops: TextOps, seen: iset<string>, a: Arenas, b: Arenas, pid: ParagraphId)
    requires FaithfulParagraph(ops, seen, a, pid) && Extends(a, b)
    ensures FaithfulParagraph(ops, seen, b, pid)
  {
  }

  // ----- what each level leaves behind -----

  ghost predicate FreshParagraphTexts(ops: TextOps, seen: iset<string>, from: nat, paragraphs: seq<Paragraph>) {
    forall i :: from <= i < |paragraphs| ==>
      && paragraphs[i].hashValue == ops.digest(paragraphs[i].value) && paragraphs[i].value in seen
      && SentencesHashedIn(ops, seen, Sentences(ops, paragraphs[i].value))
  }

  ghost predicate FreshSentenceTexts(ops: TextOps, seen: iset<string>, from: nat, sentences: seq<Sentence>) {
    forall i :: from <= i < |sentences| ==>
      sentences[i].hashValue == ops.digest(sentences[i].value) && sentences[i].value in seen
  }

  lemma {:induction false} ParaLoopTexts(ops: TextOps, seen: iset<string>, from: nat,
      prev: map<Hash, seq<ParagraphId>>, texts: seq<string>, s: ParaState)
    requires Hashed(ops, seen, texts)
    requires FreshParagraphTexts(ops, seen, from, s.arenas.paragraphs)
    ensures var r := ParaLoop(ops, prev, texts, s);
      && FreshParagraphTexts(ops, seen, from, r.arenas.paragraphs)
      && r.curr.orderedParagraphs == s.curr.orderedParagraphs + Digests(ops, texts)
    decreases |texts|
  {
    hide ScanParagraphs, Sentences, SentencesHashedIn, Push;
    if texts != [] {
      assert texts[0] in seen && SentencesHashedIn(ops, seen, Sentences(ops, texts[0]));
      var s' := ParaStep(ops, prev, texts[0], s);
      assert s'.curr.orderedParagraphs == s.curr.orderedParagraphs + [ops.digest(texts[0])];
      assert Hashed(ops, seen, texts[1..]) by {
        forall i | 0 <= i < |texts[1..]| ensures texts[1..][i] in seen
            && SentencesHashedIn(ops, seen, Sentences(ops, texts[1..][i])) {
          assert texts[1..][i] == texts[i + 1];
        }
      }
      ParaLoopTexts(ops, seen, from, prev, texts[1..], s');
    }
  }

  /** One sentence more is listed in `pid`; other paragraphs are as they were. */
  lemma SentStepTexts(ops: TextOps, seen: iset<string>, from: nat, upp: seq<ParagraphId>, pid: ParagraphId,
      tokens: seq<string>, s: SentState)
    requires pid < |s.arenas.paragraphs| && Join(tokens) in seen
    requires FreshSentenceTexts(ops, seen, from, s.arenas.sentences)
    ensures var r := SentStep(ops, upp, pid, tokens, s);
      && |r.arenas.paragraphs| == |s.arenas.paragraphs|
      && (forall q :: 0 <= q < |s.arenas.paragraphs| && q != pid ==> r.arenas.paragraphs[q] == s.arenas.paragraphs[q])
      && r.arenas.paragraphs[pid].value == s.arenas.paragraphs[pid].value
      && r.arenas.paragraphs[pid].hashValue == s.arenas.paragraphs[pid].hashValue
      && r.arenas.paragraphs[pid].orderedSentences == s.arenas.paragraphs[pid].orderedSentences
          + [ops.digest(Join(tokens))]
      && FreshSentenceTexts(ops, seen, from, r.arenas.sentences)
      && r.arenas.tokens == s.arenas.tokens
  {
    hide ScanSentences, PrevCandidates, Join, Push;
  }

  lemma {:induction false} SentLoopTexts(ops: TextOps, seen: iset<string>, from: nat, upp: seq<ParagraphId>,
      pid: ParagraphId, sentences: seq<seq<string>>, s: SentState)
    requires pid < |s.arenas.paragraphs| && SentencesHashedIn(ops, seen, sentences)
    requires FreshSentenceTexts(ops, seen, from, s.arenas.sentences)
    ensures var r := SentLoop(ops, upp, pid, sentences, s);
      && |r.arenas.paragraphs| == |s.arenas.paragraphs|
      && (forall q :: 0 <= q < |s.arenas.paragraphs| && q != pid ==> r.arenas.paragraphs[q] == s.arenas.paragraphs[q])
      && r.arenas.paragraphs[pid].value == s.arenas.paragraphs[pid].value
      && r.arenas.paragraphs[pid].hashValue == s.arenas.paragraphs[pid].hashValue
      && r.arenas.paragraphs[pid].orderedSentences == s.arenas.paragraphs[pid].orderedSentences
          + SentenceHashes(ops, sentences)
      && FreshSentenceTexts(ops, seen, from, r.arenas.sentences)
      && r.arenas.tokens == s.arenas.tokens
    decreases |sentences|
  {
    hide SentStep, Join, FreshSentenceTexts;
    if sentences != [] {
      SentStepTexts(ops, seen, from, upp, pid, sentences[0], s);
      SentLoopTexts(ops, seen, from, upp, pid, sentences[1..], SentStep(ops, upp, pid, sentences[0], s));
    }
  }

  /** After the loop over `pids`, each of them lists the sentences of its own text. */
  lemma {:induction false} SentLoopsTexts(ops: TextOps, seen: iset<string>, from: nat, upp: seq<ParagraphId>,
      pids: seq<ParagraphId>, s: SentState)
    requires NoDup(pids)
    requires forall pid :: pid in pids ==>
      && pid < |s.arenas.paragraphs| && s.arenas.paragraphs[pid].orderedSentences == []
      && SentencesHashedIn(ops, seen, Sentences(ops, s.arenas.paragraphs[pid].value))
    requires FreshSentenceTexts(ops, seen, from, s.arenas.sentences)
    ensures var r := SentLoops(ops, upp, pids, s);
      && |r.arenas.paragraphs| == |s.arenas.paragraphs|
      && (forall q :: 0 <= q < |s.arenas.paragraphs| && q !in pids ==> r.arenas.paragraphs[q] == s.arenas.paragraphs[q])
      && (forall q :: 0 <= q < |s.arenas.paragraphs| ==>
            r.arenas.paragraphs[q].value == s.arenas.paragraphs[q].value
            && r.arenas.paragraphs[q].hashValue == s.arenas.paragraphs[q].hashValue)
      && (forall pid :: pid in pids ==>
            r.arenas.paragraphs[pid].orderedSentences
                == SentenceHashes(ops, Sentences(ops, s.arenas.paragraphs[pid].value)))
      && FreshSentenceTexts(ops, seen, from, r.arenas.sentences)
      && r.arenas.tokens == s.arenas.tokens
    decreases |pids|
  {
    hide SentLoop, FreshSentenceTexts, SentencesHashedIn, Sentences, SentenceHashes;
    if pids != [] {
      var pid, rest := pids[0], pids[1..];
      assert pid in pids && pid !in rest && forall q :: q in rest ==> q in pids;
      var sentences := Sentences(ops, ValueOf(s.arenas, pid));
      SentLoopTexts(ops, seen, from, upp, pid, sentences, s);
      var s' := SentLoop(ops, upp, pid, sentences, s);
      SentLoopsTexts(ops, seen, from, upp, rest, s');
    }
  }

  // ----- the cascade's result -----

  /** The new nodes carry what their texts ask for. */
  ghost predicate NewTexts(ops: TextOps, seen: iset<string>, a0: Arenas, a: Arenas) {
    && FreshParagraphTexts(ops, seen, |a0.paragraphs|, a.paragraphs)
    && (forall pid :: |a0.paragraphs| <= pid < |a.paragraphs| ==>
          a.paragraphs[pid].orderedSentences == SentenceHashes(ops, Sentences(ops, a.paragraphs[pid].value)))
    && FreshSentenceTexts(ops, seen, |a0.sentences|, a.sentences)
    && (forall sid :: |a0.sentences| <= sid < |a.sentences| ==> Filled(a, sid, SplitSpace(a.sentences[sid].value)))
  }

  lemma ParaTexts(ops: TextOps, seen: iset<string>, a0: Arenas, text: string, prev: map<Hash, seq<ParagraphId>>,
      curr0: Revision)
    requires Hashed(ops, seen, Paragraphs(ops, text)) && curr0.orderedParagraphs == []
    ensures var p := AnalyseParagraphs(ops, a0, text, prev, curr0);
      && FreshParagraphTexts(ops, seen, |a0.paragraphs|, p.arenas.paragraphs)
      && p.curr.orderedParagraphs == Digests(ops, Paragraphs(ops, text))
  {
    hide ParaLoop, Hashed;
    ParaLoopTexts(ops, seen, |a0.paragraphs|, prev, Paragraphs(ops, text),
        ParaState(a0, curr0, MatchedSets({}, {}, {}), [], []));
  }

  lemma FreshParasFacts(a0: Arenas, a: Arenas, unmatchedCurr: seq<ParagraphId>)
    requires FreshParagraphs(a0, a, unmatchedCurr)
    ensures NoDup(unmatchedCurr)
    ensures
      forall pid :: pid in unmatchedCurr
        ==> |a0.paragraphs| <= pid < |a.paragraphs| && a.paragraphs[pid].orderedSentences == []
    ensures forall pid :: |a0.paragraphs| <= pid < |a.paragraphs| ==> pid in unmatchedCurr
    ensures a.sentences == a0.sentences && |a0.paragraphs| <= |a.paragraphs|
  {
    forall pid | |a0.paragraphs| <= pid < |a.paragraphs| ensures pid in unmatchedCurr {
      RangeMember(unmatchedCurr, |a0.paragraphs|, pid);
    }
  }

  lemma SentTexts(ops: TextOps, seen: iset<string>, a0: Arenas, upp: seq<ParagraphId>, p: ParaState)
    requires FreshParagraphs(a0, p.arenas, p.unmatchedCurr)
    requires FreshParagraphTexts(ops, seen, |a0.paragraphs|, p.arenas.paragraphs)
    ensures var s := SentLoops(ops, upp, p.unmatchedCurr, SentState(p.arenas, p.matched, [], []));
      && FreshParagraphTexts(ops, seen, |a0.paragraphs|, s.arenas.paragraphs)
      && (forall pid :: |a0.paragraphs| <= pid < |s.arenas.paragraphs| ==>
            s.arenas.paragraphs[pid].orderedSentences
                == SentenceHashes(ops, Sentences(ops, s.arenas.paragraphs[pid].value)))
      && FreshSentenceTexts(ops, seen, |a0.sentences|, s.arenas.sentences)
  {
    FreshParasFacts(a0, p.arenas, p.unmatchedCurr);
    hide SentLoops, Sentences, SentenceHashes, SentencesHashedIn, FreshParagraphs;
    SentLoopsTexts(ops, seen, |a0.sentences|, upp, p.unmatchedCurr, SentState(p.arenas, p.matched, [], []));
  }

  /** The token level fills the fresh sentences with the words of their texts. */
  lemma WordTexts(ops: TextOps, seen: iset<string>, a0: Arenas, p: ParaState, upp: seq<ParagraphId>, s: SentState,
      t: Tail)
    requires TokensNumbered(a0) && OnlyAppended(a0, s.arenas)
    requires |s.arenas.sentences| == |a0.sentences| + |s.unmatchedCurr| && NoDup(s.unmatchedCurr)
    requires forall sid :: |a0.sentences| <= sid < |s.arenas.sentences| ==> sid in s.unmatchedCurr
    requires
      forall sid :: sid in s.unmatchedCurr
        ==> |a0.sentences| <= sid < |s.arenas.sentences| && s.arenas.sentences[sid].words == []
    requires forall sid :: sid in t.unmatchedPrev ==> LiveSentence(a0, sid)
    requires FreshSentenceTexts(ops, seen, |a0.sentences|, s.arenas.sentences)
    requires !AfterSentences(p, upp, s, t).vandalism
    ensures var a := AfterSentences(p, upp, s, t).arenas;
      && FreshSentenceTexts(ops, seen, |a0.sentences|, a.sentences)
      && forall sid :: |a0.sentences| <= sid < |a.sentences| ==> Filled(a, sid, SplitSpace(a.sentences[sid].value))
  {
    hide LiveSentence, Unmatched, FlatWords, WordLoops, PrevValuesOk, TokensNumbered, SplitSpace, Filled,
      AfterSentences, NoDup, CurrText;
    if s.unmatchedCurr == [] {
      NoTokenLevel(p, upp, s, t);
    } else {
      AppendedNumbered(a0, s.arenas);
      PrevWordsFacts(a0, s, t.unmatchedPrev);
      TokenLevelArenas(p, upp, s, t);
      var w0 := WordState(s.arenas, 0, s.matched.tokens, EntriesLeft(s, t));
      WordLoopsFill(WordsLeft(s, t), p.curr.id, s.unmatchedCurr, w0);
      var a := WordLoops(WordsLeft(s, t), p.curr.id, s.unmatchedCurr, w0).arenas;
      forall sid | |a0.sentences| <= sid < |a.sentences| ensures Filled(a, sid, SplitSpace(a.sentences[sid].value)) {
        assert sid in s.unmatchedCurr && SentenceValue(s.arenas, sid) == a.sentences[sid].value;
      }
    }
  }

  /** The previous words left for the token level, and the transcript it works from. */
  function WordsLeft(s: SentState, t: Tail): PrevWords {
    var ids := Unmatched(FlatWords(s.arenas.sentences, t.unmatchedPrev), s.matched.tokens);
    PrevWords(ids, Values(s.arenas.tokens, ids))
  }

  ghost function EntriesLeft(s: SentState, t: Tail): seq<DiffEntry> {
    var pw := WordsLeft(s, t);
    if pw.ids == [] then [] else Entries(Compare(pw.values, CurrText(s.arenas, s.unmatchedCurr)))
  }

  lemma NoTokenLevel(p: ParaState, upp: seq<ParagraphId>, s: SentState, t: Tail)
    requires s.unmatchedCurr == []
    ensures AfterSentences(p, upp, s, t).arenas == s.arenas
  {
  }

  lemma TokenLevelArenas(p: ParaState, upp: seq<ParagraphId>, s: SentState, t: Tail)
    requires s.unmatchedCurr != [] && !AfterSentences(p, upp, s, t).vandalism
    ensures AfterSentences(p, upp, s, t).arenas
         == WordLoops(WordsLeft(s, t), p.curr.id, s.unmatchedCurr,
             WordState(s.arenas, 0, s.matched.tokens, EntriesLeft(s, t))).arenas
  {
    CurrTextNonempty(s.arenas, s.unmatchedCurr);
    hide AvgWordFreq, CurrText, Unmatched, FlatWords, WordLoops, Compare, Entries, Values, PossibleVandalism;
  }

  lemma CascadeTexts(ops: TextOps, seen: iset<string>, a0: Arenas, text: string, prev: map<Hash, seq<ParagraphId>>,
      prevOrder: seq<Hash>, curr0: Revision)
    requires GoodArenas(a0) && GoodIndex(a0, prev, prevOrder)
    requires curr0.paragraphs == map[] && curr0.orderedParagraphs == []
    requires Hashed(ops, seen, Paragraphs(ops, text))
    requires !DetermineAuthorship(ops, a0, text, prev, prevOrder, curr0).vandalism
    ensures var c := DetermineAuthorship(ops, a0, text, prev, prevOrder, curr0);
      && c.curr.orderedParagraphs == Digests(ops, Paragraphs(ops, text))
      && NewTexts(ops, seen, a0, c.arenas)
  {
    hide GoodArenas, GoodIndex, LiveParagraph, ParaInv, AfterSentences, SentLoops, Hashed, Walk, Unmatched, TailLoop,
      FlatSids, TokensLogged, AnalyseParagraphs, NewTexts, FreshParagraphTexts, FreshParagraphs;
    var pids := Walk(prev, prevOrder);
    IndexPidsLive(a0, prev, prevOrder);
    ParaResult(ops, a0, text, prev, prevOrder, curr0);
    ParaTexts(ops, seen, a0, text, prev, curr0);
    var p := AnalyseParagraphs(ops, a0, text, prev, curr0);
    ParaFreshParagraphs(a0, curr0, p);
    FreshParasFacts(a0, p.arenas, p.unmatchedCurr);
    if p.unmatchedCurr == [] {
      NoFreshTexts(ops, seen, a0, p.arenas);
    } else {
      SentencesTexts(ops, seen, a0, pids, curr0, p);
      var (s, t) := AnalyseSentences(ops, p.arenas, p.unmatchedCurr, Unmatched(pids, p.matched.paragraphs), p.matched);
      AfterSentencesOrder(p, Unmatched(pids, p.matched.paragraphs), s, t);
    }
  }

  lemma IndexPidsLive(a0: Arenas, prev: map<Hash, seq<ParagraphId>>, prevOrder: seq<Hash>)
    requires GoodArenas(a0) && GoodIndex(a0, prev, prevOrder)
    ensures forall pid :: pid in Walk(prev, prevOrder) ==> LiveParagraph(a0, pid)
    ensures TokensNumbered(a0)
  {
    hide LiveParagraph, Walk;
  }

  lemma SentencesTexts(ops: TextOps, seen: iset<string>, a0: Arenas, pids: seq<ParagraphId>, curr0: Revision,
      p: ParaState)
    requires GoodArenas(a0) && ParaInv(a0, curr0, p) && TokensLogged(a0, p.matchedPrev, [], p.matched.tokens)
    requires forall pid :: pid in pids ==> LiveParagraph(a0, pid)
    requires FreshParagraphTexts(ops, seen, |a0.paragraphs|, p.arenas.paragraphs)
    requires var upp := Unmatched(pids, p.matched.paragraphs);
      var (s, t) := AnalyseSentences(ops, p.arenas, p.unmatchedCurr, upp, p.matched);
      !AfterSentences(p, upp, s, t).vandalism
    ensures var upp := Unmatched(pids, p.matched.paragraphs);
      var (s, t) := AnalyseSentences(ops, p.arenas, p.unmatchedCurr, upp, p.matched);
      NewTexts(ops, seen, a0, AfterSentences(p, upp, s, t).arenas)
  {
    hide GoodTables, LiveParagraph, ParaInv, SentInv, SceneOk, AfterSentences, SentLoops, OnlyAppended, TokensLogged,
      TokensNumbered, Unmatched, LiveSentence, TailLoop, FlatSids, FreshParagraphTexts, FreshSentenceTexts,
      Sentences, SentenceHashes, SplitSpace, Filled, FreshParagraphs;
    var upp := Unmatched(pids, p.matched.paragraphs);
    ParaFreshParagraphs(a0, curr0, p);
    SentTexts(ops, seen, a0, upp, p);
    SentencesRan(ops, a0, pids, curr0, p);
    var s := SentLoops(ops, upp, p.unmatchedCurr, SentState(p.arenas, p.matched, [], []));
    var t := TailOf(StageAt(a0, curr0, p, s, [], []), upp);
    SentOnlyAppends(SceneOf(a0, p), s);
    TailFacts(StageAt(a0, curr0, p, s, [], []), pids);
    forall sid | sid in t.unmatchedPrev ensures LiveSentence(a0, sid) {
      assert sid in Elems(t.unmatchedPrev);
      assert sid in Elems(t.matchedPrev);
    }
    WordTexts(ops, seen, a0, p, upp, s, t);
    AfterSentencesParagraphs(p, upp, s, t);
  }

  lemma AfterSentencesOrder(p: ParaState, upp: seq<ParagraphId>, s: SentState, t: Tail)
    ensures AfterSentences(p, upp, s, t).curr.orderedParagraphs == p.curr.orderedParagraphs
  {
    hide AnalyseWords;
  }

  lemma NoFreshTexts(ops: TextOps, seen: iset<string>, a0: Arenas, a: Arenas)
    requires |a.paragraphs| <= |a0.paragraphs| && |a.sentences| <= |a0.sentences|
    ensures NewTexts(ops, seen, a0, a)
  {
  }

  // ----- the step -----

  lemma {:induction false} ValuesAt(tokens: seq<Word>, ids: seq<TokenId>, parts: seq<string>)
    requires |ids| == |parts|
    requires forall k :: 0 <= k < |parts| ==> ids[k] < |tokens| && tokens[ids[k]].value == parts[k]
    ensures Values(tokens, ids) == parts
  {
    if ids != [] {
      ValuesAt(tokens, ids[1..], parts[1..]);
    }
  }

  lemma FilledFaithful(ops: TextOps, seen: iset<string>, a: Arenas, sid: SentenceId)
    requires CollisionFree(ops, seen) && sid < |a.sentences|
    requires a.sentences[sid].hashValue == ops.digest(a.sentences[sid].value) && a.sentences[sid].value in seen
    requires Filled(a, sid, SplitSpace(a.sentences[sid].value))
    ensures FaithfulSentence(ops, seen, a, sid)
  {
    var v := a.sentences[sid].value;
    forall k | 0 <= k < |SplitSpace(v)|
      ensures a.sentences[sid].words[k] < |a.tokens| && a.tokens[a.sentences[sid].words[k]].value == SplitSpace(v)[k]
    {
      assert HasWord(a, sid, k, SplitSpace(v)[k]);
    }
    ValuesAt(a.tokens, a.sentences[sid].words, SplitSpace(v));
    hide SplitSpace, Join, Values, SpaceFree;
    forall toks | SpaceFree(toks) && Join(toks) in seen && ops.digest(Join(toks)) == a.sentences[sid].hashValue
      ensures Values(a.tokens, WordsOf(a.sentences, sid)) == toks
    {
      assert Join(toks) == v;
      SplitJoin(toks);
    }
  }

  lemma ListedFaithful(ops: TextOps, seen: iset<string>, a: Arenas, pid: ParagraphId)
    requires CollisionFree(ops, seen) && pid < |a.paragraphs|
    requires a.paragraphs[pid].hashValue == ops.digest(a.paragraphs[pid].value) && a.paragraphs[pid].value in seen
    requires a.paragraphs[pid].orderedSentences == SentenceHashes(ops, Sentences(ops, a.paragraphs[pid].value))
    ensures FaithfulParagraph(ops, seen, a, pid)
  {
    hide Sentences, SentenceHashes;
  }

  lemma CommitFaithful(ops: TextOps, seen: iset<string>, a0: Arenas, mid: Arenas, a: Arenas, pids: seq<ParagraphId>,
      sids: seq<SentenceId>)
    requires CollisionFree(ops, seen) && GoodTables(a0) && Faithful(ops, seen, a0)
    requires NewTexts(ops, seen, a0, mid) && NewNodesLive(a0, mid) && Extends(a0, a) && Extends(mid, a)
    requires forall x: ParagraphId :: TabledPara(a, x) ==> TabledPara(a0, x) || x in pids
    requires forall x: SentenceId :: TabledSent(a, x) ==> TabledSent(a0, x) || x in sids
    requires forall pid :: pid in pids ==> |a0.paragraphs| <= pid < |mid.paragraphs|
    requires forall sid :: sid in sids ==> |a0.sentences| <= sid < |mid.sentences|
    ensures Faithful(ops, seen, a)
  {
    hide CollisionFree, GoodTables, Extends, FaithfulSentence, FaithfulParagraph, LiveParagraph, LiveSentence,
      TabledPara, TabledSent, Filled, SplitSpace, Sentences, SentenceHashes, SentencesHashedIn;
    forall pid: ParagraphId | TabledPara(a, pid) ensures FaithfulParagraph(ops, seen, a, pid) {
      if pid in pids {
        ListedFaithful(ops, seen, mid, pid);
        FaithfulParagraphExtends(ops, seen, mid, a, pid);
      } else {
        FaithfulParagraphExtends(ops, seen, a0, a, pid);
      }
    }
    forall sid: SentenceId | TabledSent(a, sid) ensures FaithfulSentence(ops, seen, a, sid) {
      if sid in sids {
        FilledFaithful(ops, seen, mid, sid);
        FaithfulSentenceExtends(ops, seen, mid, a, sid);
      } else {
        TabledSentLive(a0, sid);
        FaithfulSentenceExtends(ops, seen, a0, a, sid);
      }
    }
  }

  lemma TabledSentLive(a: Arenas, sid: SentenceId)
    requires GoodTables(a) && TabledSent(a, sid)
    ensures LiveSentence(a, sid)
  {
    hide LiveParagraph, LiveSentence;
    var h :| h in a.sentencesHt && sid in a.sentencesHt[h];
    assert SentenceUnder(a, sid, h);
  }

  ghost predicate InputHashed(ops: TextOps, seen: iset<string>, input: RevisionInput) {
    Hashed(ops, seen, Paragraphs(ops, ops.lower(input.text)))
  }

  lemma StoredFaithful(ops: TextOps, seen: iset<string>, st: ArticleState, input: RevisionInput)
    requires GoodState(st) && Faithful(ops, seen, st.arenas) && CollisionFree(ops, seen)
        && InputHashed(ops, seen, input)
    requires input.revId !in st.orderedRevisions
    requires AnalyseRevision(ops, st, input).1 == Stored
    ensures Faithful(ops, seen, Step(ops, st, input).arenas)
    ensures Step(ops, st, input).revisions[input.revId].orderedParagraphs
        == Digests(ops, Paragraphs(ops, ops.lower(input.text)))
  {
    hide CascadeOf, LengthShrinks, Walk, Pids, CascadeOk, CommitArenas, TabledPara, TabledSent, Extends, NotYetOut,
      RevTokens, Snapshots, HistoryOk, SidsOf, GoodTables, TokensNumbered, TablesGrow, GoodRevisions, Faithful,
      CollisionFree, Hashed, NewTexts, GoodIndex, NewNodesLive, DetermineAuthorship;
    var st', c, prev := Step(ops, st, input), CascadeOf(ops, st, input), PrevRevision(st);
    var pids, curr0 := Walk(prev.paragraphs, prev.orderedParagraphs), FreshRevision(input);
    StepIsCommit(ops, st, input);
    GoodIsShaped(st);
    CascadeRuns(ops, st, input);
    PrevFacts(st);
    SnapshotsDistinct(st);
    RecordsNotYetOut(Snapshots(st), st.arenas.tokens, input.revId);
    CommitShape(st.arenas, pids, curr0, c, prev.id);
    CommitGood(st.arenas, pids, curr0, c, prev.id);
    CascadeParts(st.arenas, pids, curr0, c);
    NewInRange(st.arenas, pids, curr0, c);
    CommitTables(c, prev.id, input.revId);
    CascadeOfIs(ops, st, input);
    CascadeTexts(ops, seen, st.arenas, ops.lower(input.text), prev.paragraphs, prev.orderedParagraphs, curr0);
    CommitFaithful(ops, seen, st.arenas, c.arenas, st'.arenas, c.unmatchedParagraphsCurr, c.unmatchedSentencesCurr);
  }

  lemma CascadeOfIs(ops: TextOps, st: ArticleState, input: RevisionInput)
    ensures CascadeOf(ops, st, input)
         == DetermineAuthorship(ops, st.arenas, ops.lower(input.text), PrevRevision(st).paragraphs,
                                PrevRevision(st).orderedParagraphs, FreshRevision(input))
  {
    hide DetermineAuthorship;
  }

  // ----- reading a stored revision -----

  lemma {:induction false} TokenListsSpaceFree(ops: TextOps, raws: seq<string>)
    requires TokenizerOk(ops)
    ensures
      forall j :: 0 <= j < |TokenLists(ops, NonBlank(ops, raws))| ==> SpaceFree(TokenLists(ops, NonBlank(ops, raws))[j])
  {
    if raws != [] {
      TokenListsSpaceFree(ops, raws[1..]);
      var t, rest := ops.trim(raws[0]), NonBlank(ops, raws[1..]);
      if t != "" {
        assert SpaceFree(ops.splitTokens(t));
        assert ([t] + rest)[1..] == rest;
        assert TokenLists(ops, [t] + rest) == [ops.splitTokens(t)] + TokenLists(ops, rest);
      } else {
        assert NonBlank(ops, raws) == [] + rest == rest;
      }
      hide SpaceFree, TokenizerOk;
    }
  }

  lemma {:induction false} SentencesText(ops: TextOps, seen: iset<string>, a: Arenas, sids: seq<SentenceId>,
      sentences: seq<seq<string>>)
    requires |sids| == |sentences| && SentencesHashedIn(ops, seen, sentences)
    requires forall j :: 0 <= j < |sids| ==>
      && SpaceFree(sentences[j])
      && FaithfulSentence(ops, seen, a, sids[j])
      && a.sentences[sids[j]].hashValue == ops.digest(Join(sentences[j]))
    ensures Values(a.tokens, FlatWords(a.sentences, sids)) == Concat(sentences)
  {
    hide SpaceFree, Join;
    if sids != [] {
      assert FaithfulSentence(ops, seen, a, sids[0]) && SpaceFree(sentences[0]) && Join(sentences[0]) in seen;
      assert Values(a.tokens, WordsOf(a.sentences, sids[0])) == sentences[0];
      forall j | 0 <= j < |sids[1..]|
        ensures SpaceFree(sentences[1..][j]) && FaithfulSentence(ops, seen, a, sids[1..][j])
        ensures a.sentences[sids[1..][j]].hashValue == ops.digest(Join(sentences[1..][j]))
      {
        assert sids[1..][j] == sids[j + 1] && sentences[1..][j] == sentences[j + 1];
      }
      hide FaithfulSentence, WordsOf;
      SentencesText(ops, seen, a, sids[1..], sentences[1..]);
      ValuesAppend(a.tokens, WordsOf(a.sentences, sids[0]), FlatWords(a.sentences, sids[1..]));
    }
  }

  /** A live, tabled paragraph reads as the sentences of the text behind its hash. */
  lemma ParagraphText(ops: TextOps, seen: iset<string>, a: Arenas, pid: ParagraphId, text: string)
    requires TokenizerOk(ops) && text in seen && SentencesHashedIn(ops, seen, Sentences(ops, text))
    requires LiveParagraph(a, pid) && FaithfulParagraph(ops, seen, a, pid)
        && a.paragraphs[pid].hashValue == ops.digest(text)
    requires forall sid :: sid in SidsOf(a.paragraphs, pid) ==> FaithfulSentence(ops, seen, a, sid)
    ensures Values(a.tokens, ParaWords(a, pid)) == Concat(Sentences(ops, text))
  {
    var sids, sentences := SidsOf(a.paragraphs, pid), Sentences(ops, text);
    assert SentencesHashed(a.sentences, sids, SentenceHashes(ops, sentences));
    TokenListsSpaceFree(ops, ops.splitSentences(text));
    HashesPointwise(ops, sentences);
    hide SpaceFree, Join, TokenizerOk, LiveParagraph, FaithfulSentence, FaithfulParagraph, SidsOf, Sentences,
      SentenceHashes;
    SentencesText(ops, seen, a, sids, sentences);
  }

  lemma {:induction false} HashesPointwise(ops: TextOps, sentences: seq<seq<string>>)
    ensures forall j :: 0 <= j < |sentences| ==> SentenceHashes(ops, sentences)[j] == ops.digest(Join(sentences[j]))
  {
    if sentences != [] { HashesPointwise(ops, sentences[1..]); }
  }

  lemma {:induction false} DigestsPointwise(ops: TextOps, texts: seq<string>)
    ensures forall j :: 0 <= j < |texts| ==> Digests(ops, texts)[j] == ops.digest(texts[j])
  {
    if texts != [] { DigestsPointwise(ops, texts[1..]); }
  }

  ghost predicate ReadsAs(ops: TextOps, a: Arenas, pid: ParagraphId, text: string) {
    Values(a.tokens, ParaWords(a, pid)) == Concat(Sentences(ops, text))
  }

  lemma {:induction false} ParagraphsText(ops: TextOps, a: Arenas, pids: seq<ParagraphId>, texts: seq<string>)
    requires |pids| == |texts| && forall i :: 0 <= i < |pids| ==> ReadsAs(ops, a, pids[i], texts[i])
    ensures Values(a.tokens, WordsIn(a, pids)) == Flatten(ops, texts)
  {
    hide Sentences, ParaWords, WordsIn;
    if pids == [] {
      assert WordsIn(a, []) == [] by { WordsInNil(a); }
    } else {
      WordsInAppend(a, [pids[0]], pids[1..]);
      WordsInSingle(a, pids[0]);
      assert [pids[0]] + pids[1..] == pids;
      ValuesAppend(a.tokens, ParaWords(a, pids[0]), WordsIn(a, pids[1..]));
      assert ReadsAs(ops, a, pids[0], texts[0]);
      forall i | 0 <= i < |pids[1..]| ensures ReadsAs(ops, a, pids[1..][i], texts[1..][i]) {
        assert ReadsAs(ops, a, pids[i + 1], texts[i + 1]);
      }
      ParagraphsText(ops, a, pids[1..], texts[1..]);
    }
  }

  lemma WordsInNil(a: Arenas)
    ensures WordsIn(a, []) == []
  {
  }

  lemma RevisionText(ops: TextOps, seen: iset<string>, st: ArticleState, r: RevId, texts: seq<string>)
    requires GoodState(st) && AllTabled(st) && Faithful(ops, seen, st.arenas) && TokenizerOk(ops)
    requires r in st.revisions && st.revisions[r].orderedParagraphs == Digests(ops, texts) && Hashed(ops, seen, texts)
    ensures Values(st.arenas.tokens, TokensAt(st, r)) == Flatten(ops, texts)
  {
    var a, rev := st.arenas, st.revisions[r];
    var pids := Walk(rev.paragraphs, rev.orderedParagraphs);
    assert GoodIndex(a, rev.paragraphs, rev.orderedParagraphs);
    assert HashedBy(a.paragraphs, pids, Digests(ops, texts)) && (forall pid :: pid in pids ==> LiveParagraph(a, pid));
    assert pids == Pids(rev);
    hide GoodState, Shaped, GoodIndex, LiveParagraph, FaithfulSentence, FaithfulParagraph, TokenizerOk, Walk, Pids,
      SidsOf, TabledPara, TabledSent, Digests, SentencesHashedIn, Sentences;
    DigestsPointwise(ops, texts);
    forall i | 0 <= i < |pids| ensures ReadsAs(ops, a, pids[i], texts[i]) {
      assert pids[i] in pids && TabledPara(a, pids[i]);
      ParagraphText(ops, seen, a, pids[i], texts[i]);
    }
    ParagraphsText(ops, a, pids, texts);
    RevTokensIs(a, rev);
  }

  // ----- runs -----

  /** The lowercased texts of the revisions a run stores. */
  ghost function StoredTexts(ops: TextOps, st: ArticleState, inputs: seq<RevisionInput>,
      texts: map<RevId, string>): map<RevId, string>
    decreases |inputs|
  {
    if inputs == [] then texts
    else
      var texts' := if AnalyseRevision(ops, st, inputs[0]).1 == Stored
                    then texts[inputs[0].revId := ops.lower(inputs[0].text)] else texts;
      StoredTexts(ops, Step(ops, st, inputs[0]), inputs[1..], texts')
  }

  ghost predicate TextsKept(ops: TextOps, seen: iset<string>, st: ArticleState, texts: map<RevId, string>) {
    forall r :: r in st.revisions ==>
      && r in texts && Hashed(ops, seen, Paragraphs(ops, texts[r]))
      && st.revisions[r].orderedParagraphs == Digests(ops, Paragraphs(ops, texts[r]))
  }

  lemma FlaggedFaithful(ops: TextOps, seen: iset<string>, st: ArticleState, st': ArticleState, rev: RevId)
    requires GoodState(st) && Faithful(ops, seen, st.arenas) && Invisible(st, st', rev)
    ensures Faithful(ops, seen, st'.arenas)
  {
    AppendedGood(st, st', rev);
    SameTables(st.arenas, st'.arenas);
    GoodHasTables(st);
    hide GoodState, Shaped, FaithfulSentence, FaithfulParagraph, TabledPara, TabledSent, Extends, Frozen, GoodTables,
      Snapshots;
    forall pid: ParagraphId | TabledPara(st'.arenas, pid) ensures FaithfulParagraph(ops, seen, st'.arenas, pid) {
      FaithfulParagraphExtends(ops, seen, st.arenas, st'.arenas, pid);
    }
    forall sid: SentenceId | TabledSent(st'.arenas, sid) ensures FaithfulSentence(ops, seen, st'.arenas, sid) {
      TabledSentLive(st.arenas, sid);
      FaithfulSentenceExtends(ops, seen, st.arenas, st'.arenas, sid);
    }
  }

  lemma StepFaithful(ops: TextOps, seen: iset<string>, st: ArticleState, input: RevisionInput,
      texts: map<RevId, string>)
    requires GoodState(st) && Faithful(ops, seen, st.arenas) && CollisionFree(ops, seen)
        && InputHashed(ops, seen, input)
    requires input.revId !in st.orderedRevisions && TextsKept(ops, seen, st, texts)
    ensures Faithful(ops, seen, Step(ops, st, input).arenas)
    ensures TextsKept(ops, seen, Step(ops, st, input),
      if AnalyseRevision(ops, st, input).1 == Stored then texts[input.revId := ops.lower(input.text)] else texts)
  {
    hide GoodState, Shaped, Faithful, CollisionFree, AnalyseRevision, Hashed, Extends, TablesGrow, Snapshots,
      Digests, OnlyAppended;
    if AnalyseRevision(ops, st, input).1 == Stored {
      StoredStep(ops, st, input);
      StoredFaithful(ops, seen, st, input);
    } else {
      VandalismStep(ops, st, input);
      FlaggedFaithful(ops, seen, st, Step(ops, st, input), input.revId);
    }
  }

  lemma {:induction false} RunFaithful(ops: TextOps, seen: iset<string>, st: ArticleState, inputs: seq<RevisionInput>,
      texts: map<RevId, string>)
    requires GoodState(st) && Faithful(ops, seen, st.arenas) && CollisionFree(ops, seen) && Feedable(ops, st, inputs)
    requires forall i :: 0 <= i < |inputs| ==> InputHashed(ops, seen, inputs[i])
    requires TextsKept(ops, seen, st, texts)
    ensures Faithful(ops, seen, Run(ops, st, inputs).arenas)
    ensures TextsKept(ops, seen, Run(ops, st, inputs), StoredTexts(ops, st, inputs, texts))
    decreases |inputs|
  {
    hide GoodState, Shaped, Faithful, CollisionFree, AnalyseRevision, TextsKept, InputHashed, Step;
    if inputs != [] {
      var st' := Step(ops, st, inputs[0]);
      StepKeepsGood(ops, st, inputs[0]);
      StepFaithful(ops, seen, st, inputs[0], texts);
      var texts' := if AnalyseRevision(ops, st, inputs[0]).1 == Stored
                    then texts[inputs[0].revId := ops.lower(inputs[0].text)] else texts;
      RunFaithful(ops, seen, st', inputs[1..], texts');
    }
  }
}
