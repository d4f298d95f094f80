/** The matching cascade and the per-revision step as functions on values: what the
    methods of `Article` compute. */
module CascadeSpec {
  import opened Wrappers
  import opened Seqs
  import opened Buckets
  import opened TextOps
  import opened Structures
  import opened DifferSpec

  // ----- paragraph level -----

  datatype Scan = Scan(found: Option<nat>, matched: MatchedSets, log: seq<nat>)

  /** A full match claims the paragraph, its sentences and all their words. */
  function ClaimParagraph(a: Arenas, pid: ParagraphId, m: MatchedSets): MatchedSets {
    MatchedSets(m.paragraphs + {pid},
                m.sentences + Elems(SidsOf(a.paragraphs, pid)),
                m.tokens + Elems(ParaWords(a, pid)))
  }

  /** Tries candidates in turn: one with no matched word is taken; one whose words are all
      matched is consumed without being taken; a partly matched one is passed over. */
  function ScanParagraphs(a: Arenas, candidates: seq<ParagraphId>, m: MatchedSets, log: seq<ParagraphId>): Scan {
    if candidates == [] then Scan(None, m, log)
    else
      var pid, rest := candidates[0], candidates[1..];
      var words := Elems(ParaWords(a, pid));
      if pid in m.paragraphs then ScanParagraphs(a, rest, m, log)
      else if words !! m.tokens then Scan(Some(pid), ClaimParagraph(a, pid, m), log + [pid])
      else if words <= m.tokens then
        ScanParagraphs(a, rest, m.(paragraphs := m.paragraphs + {pid}), log + [pid])
      else ScanParagraphs(a, rest, m, log)
  }

  function AddParagraph(rev: Revision, hash: Hash, pid: ParagraphId): Revision {
    rev.(paragraphs := Push(rev.paragraphs, hash, pid), orderedParagraphs := rev.orderedParagraphs + [hash])
  }

  datatype ParaState = ParaState(
    arenas: Arenas, curr: Revision, matched: MatchedSets,
    unmatchedCurr: seq<ParagraphId>, matchedPrev: seq<ParagraphId>)

  function ParaStep(ops: TextOps, prev: map<Hash, seq<ParagraphId>>, trimmed: string, s: ParaState): ParaState {
    var hash := ops.digest(trimmed);
    var r := ScanParagraphs(s.arenas, Bucket(prev, hash) + Bucket(s.arenas.paragraphsHt, hash), s.matched,
        s.matchedPrev);
    match r.found
    case Some(pid) =>
      s.(curr := AddParagraph(s.curr, hash, pid), matched := r.matched, matchedPrev := r.log)
    case None =>
      var pid := |s.arenas.paragraphs|;
      ParaState(AllocParagraph(s.arenas, hash, trimmed), AddParagraph(s.curr, hash, pid), r.matched,
                s.unmatchedCurr + [pid], r.log)
  }

  function ParaLoop(ops: TextOps, prev: map<Hash, seq<ParagraphId>>, texts: seq<string>, s: ParaState): ParaState
    decreases |texts|
  {
    if texts == [] then s else ParaLoop(ops, prev, texts[1..], ParaStep(ops, prev, texts[0], s))
  }

  function Unmatched(ids: seq<nat>, matched: set<nat>): seq<nat> {
    if ids == [] then []
    else (if ids[0] in matched then [] else [ids[0]]) + Unmatched(ids[1..], matched)
  }

  // ----- sentence level -----

  function ScanSentences(a: Arenas, candidates: seq<SentenceId>, m: MatchedSets, log: seq<SentenceId>): Scan {
    if candidates == [] then Scan(None, m, log)
    else
      var sid, rest := candidates[0], candidates[1..];
      var words := Elems(WordsOf(a.sentences, sid));
      if sid in m.sentences then ScanSentences(a, rest, m, log)
      else if words !! m.tokens then
        Scan(Some(sid), m.(sentences := m.sentences + {sid}, tokens := m.tokens + words), log + [sid])
      else if words <= m.tokens then
        ScanSentences(a, rest, m.(sentences := m.sentences + {sid}), log + [sid])
      else ScanSentences(a, rest, m, log)
  }

  /** The sentences under one hash in the unmatched paragraphs of the previous revision. */
  function PrevCandidates(a: Arenas, unmatchedPrev: seq<ParagraphId>, hash: Hash): seq<SentenceId> {
    if unmatchedPrev == [] then []
    else
      (if unmatchedPrev[0] < |a.paragraphs| then Bucket(a.paragraphs[unmatchedPrev[0]].sentences, hash) else [])
      + PrevCandidates(a, unmatchedPrev[1..], hash)
  }

  datatype SentState = SentState(
    arenas: Arenas, matched: MatchedSets,
    unmatchedCurr: seq<SentenceId>, matchedPrev: seq<SentenceId>)

  function AttachSentence(a: Arenas, pid: ParagraphId, hash: Hash, sid: SentenceId): Arenas {
    if pid < |a.paragraphs| then
      var p := a.paragraphs[pid];
      a.(paragraphs := a.paragraphs[pid := p.(sentences := Push(p.sentences, hash, sid),
                                              orderedSentences := p.orderedSentences + [hash])])
    else a
  }

  function SentStep(ops: TextOps, unmatchedPrev: seq<ParagraphId>, pid: ParagraphId, tokens: seq<string>,
      s: SentState): SentState {
    var normalized := Join(tokens);
    var hash := ops.digest(normalized);
    var r := ScanSentences(s.arenas,
                           PrevCandidates(s.arenas, unmatchedPrev, hash) + Bucket(s.arenas.sentencesHt, hash),
                           s.matched, s.matchedPrev);
    match r.found
    case Some(sid) =>
      SentState(AttachSentence(s.arenas, pid, hash, sid), r.matched, s.unmatchedCurr, r.log)
    case None =>
      var sid := |s.arenas.sentences|;
      SentState(AttachSentence(AllocSentence(s.arenas, hash, normalized), pid, hash, sid), r.matched,
                s.unmatchedCurr + [sid], r.log)
  }

  function SentLoop(ops: TextOps, unmatchedPrev: seq<ParagraphId>, pid: ParagraphId, sentences: seq<seq<string>>,
      s: SentState): SentState
    decreases |sentences|
  {
    if sentences == [] then s
    else SentLoop(ops, unmatchedPrev, pid, sentences[1..], SentStep(ops, unmatchedPrev, pid, sentences[0], s))
  }

  function ValueOf(a: Arenas, pid: ParagraphId): string {
    if pid < |a.paragraphs| then a.paragraphs[pid].value else ""
  }

  function SentLoops(ops: TextOps, unmatchedPrev: seq<ParagraphId>, pids: seq<ParagraphId>, s: SentState): SentState
    decreases |pids|
  {
    if pids == [] then s
    else
      SentLoops(ops, unmatchedPrev, pids[1..],
                SentLoop(ops, unmatchedPrev, pids[0], Sentences(ops, ValueOf(s.arenas, pids[0])), s))
  }

  datatype Tail = Tail(matched: set<SentenceId>, unmatchedPrev: seq<SentenceId>, matchedPrev: seq<SentenceId>)

  /** The tail loop lists each leftover previous sentence as unmatched and as matched. */
  function TailLoop(sids: seq<SentenceId>, t: Tail): Tail
    decreases |sids|
  {
    if sids == [] then t
    else if sids[0] in t.matched then TailLoop(sids[1..], t)
    else TailLoop(sids[1..], Tail(t.matched + {sids[0]}, t.unmatchedPrev + [sids[0]], t.matchedPrev + [sids[0]]))
  }

  // ----- token level -----

  datatype DiffEntry = DiffEntry(op: DiffOp, consumed: bool)

  function Entries(ops: seq<DiffOp>): seq<DiffEntry> {
    if ops == [] then [] else [DiffEntry(ops[0], false)] + Entries(ops[1..])
  }

  /** The previous words the token level still has to account for. */
  datatype PrevWords = PrevWords(ids: seq<TokenId>, values: seq<string>)

  datatype WordState = WordState(
    arenas: Arenas, originalAdds: nat, matched: set<TokenId>, entries: seq<DiffEntry>)

  function FindUnmatchedPrev(pw: PrevWords, word: string, matched: set<TokenId>, i: nat): (r: Option<nat>)
    ensures r.Some? ==> i <= r.value < |pw.ids| && pw.ids[r.value] !in matched
    decreases |pw.ids| - i
  {
    if i >= |pw.ids| then None
    else if pw.ids[i] !in matched && i < |pw.values| && pw.values[i] == word then Some(i)
    else FindUnmatchedPrev(pw, word, matched, i + 1)
  }

  function PushWord(a: Arenas, sid: SentenceId, wid: TokenId): Arenas {
    if sid < |a.sentences| then
      a.(sentences := a.sentences[sid := a.sentences[sid].(words := a.sentences[sid].words + [wid])])
    else a
  }

  function PushOutbound(a: Arenas, wid: TokenId, rev: RevId): Arenas {
    if wid < |a.tokens| then
      a.(tokens := a.tokens[wid := a.tokens[wid].(outbound := a.tokens[wid].outbound + [rev])])
    else a
  }

  /** A fresh word at the end of sentence `sid`, counted as an original addition. */
  function AddFreshWord(sid: SentenceId, word: string, rev: RevId, w: WordState): WordState {
    w.(arenas := PushWord(AllocWord(w.arenas, word, rev), sid, w.arenas.nextTokenId),
       originalAdds := w.originalAdds + 1)
  }

  /** Scans the transcript from `pos` for `word`. A Keep or Insert entry ends the scan; a
      Delete entry takes a previous word out and the scan goes on. */
  function ScanDiff(pw: PrevWords, rev: RevId, sid: SentenceId, word: string, pos: nat,
      w: WordState): (r: (WordState, bool))
    decreases |w.entries| - pos
  {
    if pos >= |w.entries| then (w, false)
    else
      var e := w.entries[pos];
      if e.consumed || e.op.value != word then ScanDiff(pw, rev, sid, word, pos + 1, w)
      else
        var used := w.entries[pos := e.(consumed := true)];
        if e.op.Insert? then (AddFreshWord(sid, word, rev, w).(entries := used), true)
        else
          var found := FindUnmatchedPrev(pw, word, w.matched, 0);
          if found.None? then ScanDiff(pw, rev, sid, word, pos + 1, w)
          else
            var wid := pw.ids[found.value];
            if e.op.Keep? then
              (w.(arenas := PushWord(w.arenas, sid, wid), matched := w.matched + {wid}, entries := used), true)
            else
              ScanDiff(pw, rev, sid, word, pos + 1,
                       w.(arenas := PushOutbound(w.arenas, wid, rev), matched := w.matched + {wid}, entries := used))
  }

  function WordStep(pw: PrevWords, rev: RevId, sid: SentenceId, word: string, w: WordState): WordState {
    var (w', matched) := ScanDiff(pw, rev, sid, word, 0, w);
    if matched then w' else AddFreshWord(sid, word, rev, w')
  }

  function WordLoop(pw: PrevWords, rev: RevId, sid: SentenceId, words: seq<string>, w: WordState): WordState
    decreases |words|
  {
    if words == [] then w else WordLoop(pw, rev, sid, words[1..], WordStep(pw, rev, sid, words[0], w))
  }

  function SentenceValue(a: Arenas, sid: SentenceId): string {
    if sid < |a.sentences| then a.sentences[sid].value else ""
  }

  function WordLoops(pw: PrevWords, rev: RevId, sids: seq<SentenceId>, w: WordState): WordState
    decreases |sids|
  {
    if sids == [] then w
    else WordLoops(pw, rev, sids[1..], WordLoop(pw, rev, sids[0], SplitSpace(SentenceValue(w.arenas, sids[0])), w))
  }

  function CurrText(a: Arenas, sids: seq<SentenceId>): seq<string> {
    if sids == [] then [] else SplitSpace(SentenceValue(a, sids[0])) + CurrText(a, sids[1..])
  }

  // ----- the token-density gate -----

  const REMOVED: set<string> := {"<", ">", "tr", "td", "[", "]", "\"", "*", "==", "{", "}", "|", "-"}
  const TOKEN_DENSITY_LIMIT: real := 20.0
  const UNMATCHED_PARAGRAPH: real := 0.0

  function Counted(tokens: seq<string>): seq<string> {
    if tokens == [] then []
    else (if tokens[0] in REMOVED then [] else [tokens[0]]) + Counted(tokens[1..])
  }

  /** Average number of occurrences per distinct counted token. */
  function AvgWordFreq(tokens: seq<string>): real {
    var kept := Counted(tokens);
    if |Elems(kept)| == 0 then 0.0 else |kept| as real / |Elems(kept)| as real
  }

  datatype WordLevel = WordLevel(arenas: Arenas, originalAdds: nat, matched: set<TokenId>, vandalism: bool)

  ghost function AnalyseWords(a: Arenas, rev: RevId, unmatchedCurr: seq<SentenceId>, unmatchedPrev: seq<SentenceId>,
                              possibleVandalism: bool, matched: set<TokenId>): WordLevel
  {
    var ids := Unmatched(FlatWords(a.sentences, unmatchedPrev), matched);
    var pw := PrevWords(ids, Values(a.tokens, ids));
    var text := CurrText(a, unmatchedCurr);
    if text == [] then WordLevel(a, 0, matched, false)
    else if possibleVandalism && AvgWordFreq(text) > TOKEN_DENSITY_LIMIT then WordLevel(a, 0, matched, true)
    else
      var entries := if ids == [] then [] else Entries(Compare(pw.values, text));
      var w := WordLoops(pw, rev, unmatchedCurr, WordState(a, 0, matched, entries));
      WordLevel(w.arenas, w.originalAdds, w.matched, false)
  }

  // ----- the cascade -----

  datatype Cascade = Cascade(
    arenas: Arenas, curr: Revision, matchedTokens: set<TokenId>,
    matchedParagraphsPrev: seq<ParagraphId>, unmatchedParagraphsPrev: seq<ParagraphId>,
    matchedSentencesPrev: seq<SentenceId>, unmatchedSentencesPrev: seq<SentenceId>,
    unmatchedParagraphsCurr: seq<ParagraphId>, unmatchedSentencesCurr: seq<SentenceId>,
    vandalism: bool)

  function AnalyseParagraphs(ops: TextOps, a: Arenas, text: string, prev: map<Hash, seq<ParagraphId>>,
      curr: Revision): ParaState {
    ParaLoop(ops, prev, Paragraphs(ops, text), ParaState(a, curr, MatchedSets({}, {}, {}), [], []))
  }

  function AnalyseSentences(ops: TextOps, a: Arenas, pidsCurr: seq<ParagraphId>, pidsPrev: seq<ParagraphId>,
      m: MatchedSets): (SentState, Tail) {
    var s := SentLoops(ops, pidsPrev, pidsCurr, SentState(a, m, [], []));
    (s, TailLoop(FlatSids(s.arenas.paragraphs, pidsPrev), Tail(s.matched.sentences, [], s.matchedPrev)))
  }

  function PossibleVandalism(unmatched: nat, total: nat): bool {
    total > 0 && unmatched as real / total as real > UNMATCHED_PARAGRAPH
  }

  /** What follows the sentence level: the two vandalism gates and the token level. */
  ghost function AfterSentences(p: ParaState, upp: seq<ParagraphId>, s: SentState, t: Tail): Cascade {
    if s.unmatchedCurr == [] then
      Cascade(s.arenas, p.curr, s.matched.tokens, p.matchedPrev, upp, t.matchedPrev, t.unmatchedPrev,
              p.unmatchedCurr, [], false)
    else
      var possible := PossibleVandalism(|p.unmatchedCurr|, |p.curr.orderedParagraphs|);
      var w := AnalyseWords(s.arenas, p.curr.id, s.unmatchedCurr, t.unmatchedPrev, possible, s.matched.tokens);
      Cascade(w.arenas, p.curr.(originalAdds := p.curr.originalAdds + w.originalAdds), w.matched,
              p.matchedPrev, upp, t.matchedPrev, t.unmatchedPrev, p.unmatchedCurr, s.unmatchedCurr, w.vandalism)
  }

  ghost function DetermineAuthorship(ops: TextOps, a: Arenas, text: string, prev: map<Hash, seq<ParagraphId>>,
                                     prevOrder: seq<Hash>, curr: Revision): Cascade
  {
    var p := AnalyseParagraphs(ops, a, text, prev, curr);
    var upp := Unmatched(Walk(prev, prevOrder), p.matched.paragraphs);
    if p.unmatchedCurr == [] then
      Cascade(p.arenas, p.curr, p.matched.tokens, p.matchedPrev, upp, [], [], [], [], false)
    else
      var (s, t) := AnalyseSentences(ops, p.arenas, p.unmatchedCurr, upp, p.matched);
      AfterSentences(p, upp, s, t)
  }

  // ----- recording deletions, survivals and reintroductions -----

  /** The words walked for deletions: the unmatched sentences' words or, only when there
      are no such sentences, those of the unmatched paragraphs. */
  function OutWalk(a: Arenas, c: Cascade): seq<TokenId> {
    if c.unmatchedSentencesPrev != [] then FlatWords(a.sentences, c.unmatchedSentencesPrev)
    else WordsIn(a, c.unmatchedParagraphsPrev)
  }

  /** The words walked for survivals: matched paragraphs first, then matched sentences. */
  function InWalk(a: Arenas, c: Cascade): seq<TokenId> {
    WordsIn(a, c.matchedParagraphsPrev) + FlatWords(a.sentences, c.matchedSentencesPrev)
  }

  function MarkDeleted(w: Word, rev: RevId): Word {
    w.(outbound := w.outbound + [rev])
  }

  function MarkPresent(w: Word, prevRev: RevId, rev: RevId): Word {
    if w.outbound != [] && w.outbound[|w.outbound| - 1] == rev then w
    else w.(inbound := if w.lastRevId != prevRev then w.inbound + [rev] else w.inbound, lastRevId := rev)
  }

  /** One token's record after the recorder has run. */
  function Recorded(w: Word, deleted: bool, present: bool, prevRev: RevId, rev: RevId): Word {
    var w' := if deleted then MarkDeleted(w, rev) else w;
    if present then MarkPresent(w', prevRev, rev) else w'
  }

  function RecordTokens(tokens: seq<Word>, out: set<TokenId>, in_: set<TokenId>, matched: set<TokenId>,
      prevRev: RevId, rev: RevId): (r: seq<Word>)
    ensures |r| == |tokens|
    ensures forall i :: 0 <= i < |r| ==>
      r[i] == Recorded(tokens[i], i in out && i !in matched, i in in_ && i in matched, prevRev, rev)
  {
    seq(|tokens|, i requires 0 <= i < |tokens| =>
      Recorded(tokens[i], i in out && i !in matched, i in in_ && i in matched, prevRev, rev))
  }

  function RecordInboundOutbound(c: Cascade, prevRev: RevId, rev: RevId): Arenas {
    if c.vandalism then c.arenas
    else
      c.arenas.(tokens := RecordTokens(c.arenas.tokens, Elems(OutWalk(c.arenas, c)), Elems(InWalk(c.arenas, c)),
                                       c.matchedTokens, prevRev, rev))
  }

  // ----- committing -----

  function CommitParagraphs(a: Arenas, pids: seq<ParagraphId>): Arenas
    decreases |pids|
  {
    if pids == [] then a
    else if pids[0] < |a.paragraphs| then
      var p := a.paragraphs[pids[0]];
      CommitParagraphs(a.(paragraphsHt := Push(a.paragraphsHt, p.hashValue, pids[0]),
                          paragraphs := a.paragraphs[pids[0] := p.(value := "")]), pids[1..])
    else CommitParagraphs(a, pids[1..])
  }

  function CommitSentences(a: Arenas, sids: seq<SentenceId>): Arenas
    decreases |sids|
  {
    if sids == [] then a
    else if sids[0] < |a.sentences| then
      var s := a.sentences[sids[0]];
      CommitSentences(a.(sentencesHt := Push(a.sentencesHt, s.hashValue, sids[0]),
                         sentences := a.sentences[sids[0] := s.(value := "")]), sids[1..])
    else CommitSentences(a, sids[1..])
  }

  // ----- the per-revision step -----

  datatype RevisionInput = RevisionInput(
    revId: RevId, timestamp: string, text: string, sha1: Option<Hash>, comment: Option<string>,
    minor: bool, editor: string)

  datatype VandalismReason = HashMatch | LengthShrink | TokenDensity
  datatype Outcome = Stored | Vandalism(reason: VandalismReason)

  const CHANGE_PERCENTAGE: real := -0.40
  const PREVIOUS_LENGTH: nat := 1000
  const CURR_LENGTH: nat := 1000

  function LengthShrinks(prevLength: nat, currLength: nat, comment: bool, minor: bool): bool {
    && !(comment && minor)
    && prevLength > PREVIOUS_LENGTH
    && currLength < CURR_LENGTH
    && (currLength as real - prevLength as real) / prevLength as real <= CHANGE_PERCENTAGE
  }

  function RevHash(ops: TextOps, input: RevisionInput): Hash {
    match input.sha1
    case Some(h) => h
    case None => ops.digest(input.text)
  }

  function CommentPresent(input: RevisionInput): bool {
    input.comment.Some? && input.comment.value != ""
  }

  function PrevRevision(st: ArticleState): Revision {
    if st.lastGoodRevId in st.revisions then st.revisions[st.lastGoodRevId] else NO_REVISION
  }

  function FreshRevision(input: RevisionInput): Revision {
    Revision(input.revId, input.editor, input.timestamp, map[], [], |input.text|, 0, None)
  }

  ghost function CascadeOf(ops: TextOps, st: ArticleState, input: RevisionInput): Cascade {
    var prev := PrevRevision(st);
    DetermineAuthorship(ops, st.arenas, ops.lower(input.text), prev.paragraphs, prev.orderedParagraphs,
        FreshRevision(input))
  }

  function Commit(st: ArticleState, input: RevisionInput, c: Cascade): ArticleState {
    var a := RecordInboundOutbound(c, PrevRevision(st).id, input.revId);
    var a' := CommitSentences(CommitParagraphs(a, c.unmatchedParagraphsCurr), c.unmatchedSentencesCurr);
    st.(arenas := a', lastGoodRevId := input.revId,
        orderedRevisions := st.orderedRevisions + [input.revId],
        revisions := st.revisions[input.revId := c.curr])
  }

  ghost function AnalyseRevision(ops: TextOps, st: ArticleState, input: RevisionInput): (ArticleState, Outcome) {
    var hash := RevHash(ops, input);
    if hash in st.spamHashes then
      (st.(spamIds := st.spamIds + [input.revId]), Vandalism(HashMatch))
    else if LengthShrinks(PrevRevision(st).length, |input.text|, CommentPresent(input), input.minor) then
      (st.(spamIds := st.spamIds + [input.revId], spamHashes := st.spamHashes + {hash}), Vandalism(LengthShrink))
    else
      var c := CascadeOf(ops, st, input);
      if c.vandalism then
        (st.(arenas := c.arenas, spamIds := st.spamIds + [input.revId], spamHashes := st.spamHashes + {hash}),
         Vandalism(TokenDensity))
      else (Commit(st, input, c), Stored)
  }
}
