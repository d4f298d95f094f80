/** When a revision is refused, and why: the conditions spelled out for each of the three
    reasons, and that it is stored otherwise. */
module Verdicts {
  import opened Wrappers
  import opened Seqs
  import opened Buckets
  import opened TextOps
  import opened Structures
  import opened DifferSpec
  import opened CascadeSpec
  import opened CascadeShape
  import opened SentenceLevel
  import opened WordLevel
  import opened Accounting
  import opened History
  import opened Runs
  import opened Persistence
  import opened Resume
  import opened Sessions
  import opened Follows
  import opened Reuse

  // ----- the token density -----

  /** How often a word counts: structural tokens do not. */
  ghost predicate CountsOf(text: seq<string>, counts: multiset<string>) {
    forall w :: counts[w]
      == if w in {"<", ">", "tr", "td", "[", "]", "\"", "*", "==", "{", "}", "|", "-"} then 0 else multiset(text)[w]
  }

  /** More than twenty occurrences for each distinct word, on average. */
  ghost predicate TooDense(text: seq<string>) {
    exists counts :: CountsOf(text, counts) && |counts| > 20 * |set w | w in counts|
  }

  lemma {:induction false} CountedCounts(text: seq<string>)
    ensures CountsOf(text, multiset(Counted(text)))
  {
    if text != [] {
      CountedCounts(text[1..]);
      assert text == [text[0]] + text[1..];
      hide Counted;
      CountedHead(text);
    }
  }

  lemma CountedHead(text: seq<string>)
    requires text != []
    ensures Counted(text) == (if text[0] in REMOVED then [] else [text[0]]) + Counted(text[1..])
  {
  }

  lemma CountsOnce(text: seq<string>, x: multiset<string>, y: multiset<string>)
    requires CountsOf(text, x) && CountsOf(text, y)
    ensures x == y
  {
    forall w ensures x[w] == y[w] {}
  }

  lemma DensityIs(text: seq<string>)
    ensures AvgWordFreq(text) > TOKEN_DENSITY_LIMIT <==> TooDense(text)
  {
    var kept := Counted(text);
    var counts := multiset(kept);
    CountedCounts(text);
    assert Elems(kept) == set w | w in counts;
    hide Counted, CountsOf;
    var n, d := |kept|, |Elems(kept)|;
    assert |counts| == n;
    if d > 0 { Average(n, d); }
    if kept != [] { assert kept[0] in Elems(kept); }
    if TooDense(text) {
      var other :| CountsOf(text, other) && |other| > 20 * |set w | w in other|;
      CountsOnce(text, other, counts);
    }
  }

  lemma Average(n: nat, d: nat)
    requires d > 0
    ensures n as real / d as real > 20.0 <==> n > 20 * d
  {
    Divided(n as real, d as real);
    assert (20 * d) as real == 20.0 * d as real;
  }

  lemma Divided(x: real, y: real)
    requires y > 0.0
    ensures x / y > 20.0 <==> x > 20.0 * y
    ensures x / y <= -0.40 <==> 5.0 * x <= -2.0 * y
  {
    var q := x / y;
    assert q * y == x;
    SameSign(q - 20.0, y);
    SameSign(q + 0.40, y);
    assert (q - 20.0) * y == q * y - 20.0 * y;
    assert (q + 0.40) * y == q * y + 0.40 * y;
  }

  lemma SameSign(x: real, y: real)
    requires y > 0.0
    ensures x * y > 0.0 <==> x > 0.0
  {
  }

  // ----- the cascade gives up -----

  /** The words of the sentences that are made anew. */
  function NewWords(c: Cascade): seq<string> {
    CurrText(c.arenas, c.unmatchedSentencesCurr)
  }

  lemma NoTextSparse()
    ensures !TooDense([])
  {
    forall counts | CountsOf([], counts) ensures |counts| == 0 {
      assert counts == multiset{};
    }
  }

  lemma SomethingUnmatched(a0: Arenas, curr0: Revision, p: ParaState)
    requires ParaInv(a0, curr0, p) && p.unmatchedCurr != []
    ensures PossibleVandalism(|p.unmatchedCurr|, |p.curr.orderedParagraphs|)
  {
    var n, m := |p.unmatchedCurr|, |p.curr.orderedParagraphs|;
    ParaHashed(a0, curr0, p);
    var pid := |a0.paragraphs|;
    assert pid in Pids(p.curr) by {
      assert PlacedOnce(|a0.paragraphs|, |p.arenas.paragraphs|, Pids(p.curr), p.matched.paragraphs);
      assert FreshParagraphs(a0, p.arenas, p.unmatchedCurr);
    }
    assert |Pids(p.curr)| == m by { assert HashedBy(p.arenas.paragraphs, Pids(p.curr), p.curr.orderedParagraphs); }
    Positive(n as real, m as real);
  }

  lemma Positive(x: real, y: real)
    requires x > 0.0 && y > 0.0
    ensures x / y > 0.0
  {
  }

  lemma GivesUpExactly(a: Arenas, rev: RevId, unmatchedCurr: seq<SentenceId>, unmatchedPrev: seq<SentenceId>,
      matched: set<TokenId>)
    requires unmatchedCurr != []
    ensures AnalyseWords(a, rev, unmatchedCurr, unmatchedPrev, true, matched).vandalism
       <==> TooDense(CurrText(a, unmatchedCurr))
  {
    DensityIs(CurrText(a, unmatchedCurr));
    CurrTextNonempty(a, unmatchedCurr);
    hide CurrText, AvgWordFreq, WordLoops, Unmatched, FlatWords, Values, Compare, TooDense;
  }

  lemma AfterVerdict(upp: seq<ParagraphId>, p: ParaState, s: SentState, t: Tail, c: Cascade)
    requires c == AfterSentences(p, upp, s, t) && OnLevels(upp, p, s, t.unmatchedPrev, c)
    requires PossibleVandalism(|p.unmatchedCurr|, |p.curr.orderedParagraphs|)
    ensures c.vandalism <==> TooDense(NewWords(c))
  {
    hide AnalyseWords, CurrText, TooDense, PossibleVandalism, Pids;
    SameText(s.arenas, c.arenas, s.unmatchedCurr);
    if s.unmatchedCurr == [] {
      NoText(c.arenas);
      NoTextSparse();
    } else {
      GivesUpExactly(s.arenas, p.curr.id, s.unmatchedCurr, t.unmatchedPrev, s.matched.tokens);
    }
  }

  /** The cascade gives up exactly if the words of the sentences made anew are too dense. */
  lemma CascadeGivesUp(ops: TextOps, a0: Arenas, text: string, prev: map<Hash, seq<ParagraphId>>,
      prevOrder: seq<Hash>, curr0: Revision)
    requires GoodArenas(a0) && GoodIndex(a0, prev, prevOrder)
    requires curr0.paragraphs == map[] && curr0.orderedParagraphs == []
    ensures var c := DetermineAuthorship(ops, a0, text, prev, prevOrder, curr0);
      c.vandalism <==> TooDense(NewWords(c))
  {
    var pids := Walk(prev, prevOrder);
    assert forall pid :: pid in pids ==> LiveParagraph(a0, pid);
    hide GoodArenas, GoodIndex, LiveParagraph, ParaInv, AnalyseParagraphs, AnalyseSentences, CascadeOk,
      OnlyAppended, Walk, Unmatched, AnalyseWords, TailOf, TooDense, NewWords, OnLevels, PossibleVandalism,
      AfterSentences;
    CascadeTheorem(ops, a0, text, prev, prevOrder, curr0);
    var p := AnalyseParagraphs(ops, a0, text, prev, curr0);
    var c := DetermineAuthorship(ops, a0, text, prev, prevOrder, curr0);
    var upp := Unmatched(pids, p.matched.paragraphs);
    if p.unmatchedCurr == [] {
      NothingDense(c);
    } else {
      AllLevels(ops, a0, text, prev, prevOrder, curr0);
      var s := AnalyseSentences(ops, p.arenas, p.unmatchedCurr, upp, p.matched).0;
      TailIs(ops, a0, curr0, p, upp, s);
      AfterReuse(a0, curr0, prev, pids, p, s);
      SomethingUnmatched(a0, curr0, p);
      AfterVerdict(upp, p, s, TailOf(StageAt(a0, curr0, p, s, [], []), upp), c);
    }
  }

  lemma NothingDense(c: Cascade)
    requires c.unmatchedSentencesCurr == []
    ensures !TooDense(NewWords(c))
  {
    NoText(c.arenas);
    NoTextSparse();
  }

  // ----- the verdict -----

  /** The hash that marks spam: the one delivered, else that of the text. */
  function SpamHash(ops: TextOps, input: RevisionInput): Hash {
    if input.sha1.Some? then input.sha1.value else ops.digest(input.text)
  }

  /** How long the last good revision was; 0 if there is none. */
  function LastLength(st: ArticleState): nat {
    if st.lastGoodRevId in st.revisions then st.revisions[st.lastGoodRevId].length else 0
  }

  /** From more than 1000 characters to fewer than 1000 and at most three fifths, unless it is
      a minor edit with a comment. */
  predicate Shrinks(p: nat, n: nat, input: RevisionInput) {
    && p > 1000 && n < 1000 && 5 * n <= 3 * p
    && !(input.minor && input.comment.Some? && input.comment.value != "")
  }

  lemma ShrinksExactly(p: nat, n: nat, input: RevisionInput)
    ensures LengthShrinks(p, n, CommentPresent(input), input.minor) <==> Shrinks(p, n, input)
  {
    if p > 1000 {
      Divided(n as real - p as real, p as real);
      Scaled(n, p);
    }
  }

  lemma Scaled(n: nat, p: nat)
    ensures 5.0 * (n as real - p as real) <= -2.0 * p as real <==> 5 * n <= 3 * p
  {
    assert (5 * n) as real == 5.0 * n as real && (3 * p) as real == 3.0 * p as real;
  }

  /** Every verdict, exactly: a known spam hash first, then a shrunk text, then sentences made
      anew that repeat their words too often; and stored if it is none of the three. */
  lemma VerdictExactly(ops: TextOps, st: ArticleState, input: RevisionInput)
    requires Shaped(st)
    ensures var outcome := AnalyseRevision(ops, st, input).1;
      var known := SpamHash(ops, input) in st.spamHashes;
      var shrunk := Shrinks(LastLength(st), |input.text|, input);
      var dense := TooDense(NewWords(CascadeOf(ops, st, input)));
      && (outcome == Vandalism(HashMatch) <==> known)
      && (outcome == Vandalism(LengthShrink) <==> !known && shrunk)
      && (outcome == Vandalism(TokenDensity) <==> !known && !shrunk && dense)
      && (outcome == Stored <==> !known && !shrunk && !dense)
  {
    var prev := PrevRevision(st);
    PrevIndex(st);
    assert GoodArenas(st.arenas);
    hide Shaped, GoodArenas, GoodIndex, DetermineAuthorship, LengthShrinks, Shrinks, TooDense, Commit;
    CascadeGivesUp(ops, st.arenas, ops.lower(input.text), prev.paragraphs, prev.orderedParagraphs,
        FreshRevision(input));
    ShrinksExactly(LastLength(st), |input.text|, input);
  }

  // ----- what is recorded of a revision, and the verdict after any session -----

  /** What has been stored so far, as it was delivered. */
  ghost function StoredInputs(ops: TextOps, st: ArticleState, inputs: seq<RevisionInput>,
      known: map<RevId, RevisionInput>): map<RevId, RevisionInput>
    decreases |inputs|
  {
    if inputs == [] then known
    else
      var known' := if AnalyseRevision(ops, st, inputs[0]).1 == Stored then known[inputs[0].revId := inputs[0]]
                    else known;
      StoredInputs(ops, Step(ops, st, inputs[0]), inputs[1..], known')
  }

  /** Of every stored revision the id, editor, time and length in characters are recorded. */
  ghost predicate RecordsKept(st: ArticleState, known: map<RevId, RevisionInput>) {
    forall r :: r in st.revisions ==> r in known && RecordOf(st.revisions[r], known[r])
  }

  predicate RecordOf(rev: Revision, input: RevisionInput) {
    rev.id == input.revId && rev.editor == input.editor && rev.timestamp == input.timestamp
    && rev.length == |input.text|
  }

  lemma CurrRecord(a0: Arenas, pids: seq<ParagraphId>, input: RevisionInput, c: Cascade)
    requires CascadeOk(a0, pids, FreshRevision(input), c)
    ensures RecordOf(c.curr, input)
  {
  }

  lemma StepRecords(ops: TextOps, st: ArticleState, input: RevisionInput, known: map<RevId, RevisionInput>)
    requires Shaped(st) && RecordsKept(st, known)
    ensures RecordsKept(Step(ops, st, input),
      if AnalyseRevision(ops, st, input).1 == Stored then known[input.revId := input] else known)
  {
    hide Shaped, CascadeOf, CascadeOk, OnlyAppended, LengthShrinks, RecordInboundOutbound, CommitParagraphs,
      CommitSentences, Walk, RecordOf, RevHash;
    var prev := PrevRevision(st);
    CascadeRuns(ops, st, input);
    var c := CascadeOf(ops, st, input);
    if !c.vandalism {
      CurrRecord(st.arenas, Walk(prev.paragraphs, prev.orderedParagraphs), input, c);
    }
  }

  lemma {:induction false} RunRecords(ops: TextOps, st: ArticleState, inputs: seq<RevisionInput>,
      known: map<RevId, RevisionInput>)
    requires Shaped(st) && RecordsKept(st, known)
    ensures RecordsKept(Run(ops, st, inputs), StoredInputs(ops, st, inputs, known))
    decreases |inputs|
  {
    hide Shaped, RecordsKept, AnalyseRevision;
    if inputs != [] {
      StepRecords(ops, st, inputs[0], known);
      StepShaped(ops, st, inputs[0]);
      RunRecords(ops, Step(ops, st, inputs[0]), inputs[1..],
          if AnalyseRevision(ops, st, inputs[0]).1 == Stored then known[inputs[0].revId := inputs[0]] else known);
    }
  }

  /** After any session, restarts included, the records are those of what was delivered, so the
      length a verdict compares with is that of the last text stored. */
  lemma SessionRecords(ops: TextOps, title: string, page: Option<nat>, events: seq<Event>)
    requires Feedable(ops, Begin(title, page), Inputs(events))
    ensures var st := Session(ops, Begin(title, page), events);
      var known := StoredInputs(ops, Begin(title, page), Inputs(events), map[]);
      && Shaped(st) && RecordsKept(st, known)
      && (st.orderedRevisions == [] ==> LastLength(st) == 0)
      && (st.orderedRevisions != [] ==>
            && st.lastGoodRevId == st.orderedRevisions[|st.orderedRevisions| - 1] && st.lastGoodRevId in known
            && LastLength(st) == |known[st.lastGoodRevId].text|)
  {
    hide GoodState, ArenaAligned, OverridesFaithful, Session, Run, Feedable, Begin, Inputs, StoredInputs, Shaped;
    var st0 := Begin(title, page);
    var st, known := Session(ops, st0, events), StoredInputs(ops, st0, Inputs(events), map[]);
    BeginKept(title, page);
    GoodIsShaped(st0);
    NothingRecorded(title, page);
    RunRecords(ops, st0, Inputs(events), map[]);
    ResumeSimulates(ops, st0, events);
    GoodIsShaped(st);
    RecordsUnsealed(st, known);
    LastIsStored(st, known);
  }

  lemma NothingRecorded(title: string, page: Option<nat>)
    ensures RecordsKept(Begin(title, page), map[])
  {
  }

  lemma RecordsUnsealed(st: ArticleState, known: map<RevId, RevisionInput>)
    requires RecordsKept(Unsealed(st), known)
    ensures RecordsKept(st, known)
  {
    forall r | r in st.revisions ensures r in known && RecordOf(st.revisions[r], known[r]) {
      assert RecordOf(Unsealed(st).revisions[r], known[r]);
    }
  }

  lemma LastIsStored(st: ArticleState, known: map<RevId, RevisionInput>)
    requires GoodState(st) && RecordsKept(st, known)
    ensures st.orderedRevisions == [] ==> LastLength(st) == 0
    ensures st.orderedRevisions != [] ==>
      && st.lastGoodRevId == st.orderedRevisions[|st.orderedRevisions| - 1] && st.lastGoodRevId in known
      && LastLength(st) == |known[st.lastGoodRevId].text|
  {
    GoodHistory(st);
    hide GoodState, GoodIndex;
    if st.orderedRevisions != [] {
      assert st.lastGoodRevId in st.orderedRevisions;
      assert RecordOf(st.revisions[st.lastGoodRevId], known[st.lastGoodRevId]);
    }
  }
}
