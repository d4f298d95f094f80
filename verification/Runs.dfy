/** Theorems over every run of the algorithm: what holds after any sequence of revisions. */
module Runs {
  import opened Wrappers
  import opened Seqs
  import opened Buckets
  import opened TextOps
  import opened Structures
  import opened Presence
  import opened CascadeSpec
  import opened CascadeShape
  import opened Accounting
  import opened History

  // ----- runs -----

  ghost function Step(ops: TextOps, st: ArticleState, input: RevisionInput): ArticleState {
    AnalyseRevision(ops, st, input).0
  }

  ghost function Run(ops: TextOps, st: ArticleState, inputs: seq<RevisionInput>): ArticleState
    decreases |inputs|
  {
    if inputs == [] then st else Run(ops, Step(ops, st, inputs[0]), inputs[1..])
  }

  /** No revision is fed again once it has been stored. */
  ghost predicate Feedable(ops: TextOps, st: ArticleState, inputs: seq<RevisionInput>)
    decreases |inputs|
  {
    inputs == [] ||
    (inputs[0].revId !in st.orderedRevisions
     && Feedable(ops, Step(ops, st, inputs[0]), inputs[1..]))
  }

  /** A flagged revision changes nothing but spam bookkeeping and unreachable arena entries. */
  ghost predicate Invisible(st: ArticleState, st': ArticleState, rev: RevId) {
    && st' == st.(arenas := st'.arenas, spamIds := st.spamIds + [rev], spamHashes := st'.spamHashes)
    && OnlyAppended(st.arenas, st'.arenas)
    && st.spamHashes <= st'.spamHashes
  }

  lemma SameRevisions(st: ArticleState, st': ArticleState)
    requires GoodRevisions(st) && Extends(st.arenas, st'.arenas)
    requires st'.revisions == st.revisions && st'.orderedRevisions == st.orderedRevisions
        && st'.lastGoodRevId == st.lastGoodRevId
    ensures GoodRevisions(st') && Snapshots(st') == Snapshots(st)
  {
    hide GoodIndex, Extends, RevTokens, TokensAt;
    forall r | r in st.revisions
      ensures TokensAt(st', r) == TokensAt(st, r)
      ensures GoodIndex(st'.arenas, st'.revisions[r].paragraphs, st'.revisions[r].orderedParagraphs)
    {
      TokensFrozen(st, st', r);
    }
    forall i | 0 <= i < |st.orderedRevisions| ensures Snapshots(st')[i] == Snapshots(st)[i] {
      assert st.orderedRevisions[i] in st.revisions;
    }
  }

  lemma AppendedGood(st: ArticleState, st': ArticleState, rev: RevId)
    requires GoodState(st) && Invisible(st, st', rev)
    ensures GoodState(st') && Snapshots(st') == Snapshots(st)
    ensures Extends(st.arenas, st'.arenas)
  {
    hide GoodArenas, GoodRevisions, HistoryOk, Extends, Snapshots, Frozen;
    AppendedTables(st.arenas, st'.arenas);
    SameRevisions(st, st');
  }

  /** Vandalism is invisible: the article stays good, and tokens, tables, stored revisions
      and the last good revision are those from before. */
  lemma VandalismStep(ops: TextOps, st: ArticleState, input: RevisionInput)
    requires GoodState(st) && AnalyseRevision(ops, st, input).1 != Stored
    ensures var st' := Step(ops, st, input);
      && Invisible(st, st', input.revId)
      && RevHash(ops, input) in st'.spamHashes
      && GoodState(st') && Snapshots(st') == Snapshots(st)
      && Extends(st.arenas, st'.arenas)
  {
    hide GoodState, Shaped, CascadeOf, CascadeOk, LengthShrinks, Snapshots, Commit, OnlyAppended, Extends;
    GoodIsShaped(st);
    CascadeRuns(ops, st, input);
    AppendsNothing(st.arenas);
    AppendedGood(st, Step(ops, st, input), input.revId);
  }

  lemma AppendsNothing(a: Arenas)
    ensures OnlyAppended(a, a)
  {
  }

  /** A hash once flagged stays flagged, so an identical revision is rejected on sight. */
  lemma {:induction false} FlaggedForever(ops: TextOps, st: ArticleState, inputs: seq<RevisionInput>, hash: Hash)
    requires hash in st.spamHashes
    ensures hash in Run(ops, st, inputs).spamHashes
    decreases |inputs|
  {
    if inputs != [] {
      SpamHashesGrow(ops, st, inputs[0]);
      hide AnalyseRevision;
      FlaggedForever(ops, Step(ops, st, inputs[0]), inputs[1..], hash);
    }
  }

  lemma SpamHashesGrow(ops: TextOps, st: ArticleState, input: RevisionInput)
    ensures st.spamHashes <= Step(ops, st, input).spamHashes
  {
    hide CascadeOf, LengthShrinks;
  }

  lemma RepeatedVandalism(ops: TextOps, st: ArticleState, input: RevisionInput, between: seq<RevisionInput>,
      again: RevisionInput)
    requires GoodState(st) && AnalyseRevision(ops, st, input).1 != Stored
    requires RevHash(ops, again) == RevHash(ops, input)
    ensures AnalyseRevision(ops, Run(ops, Step(ops, st, input), between), again).1 == Vandalism(HashMatch)
  {
    VandalismStep(ops, st, input);
    FlaggedForever(ops, Step(ops, st, input), between, RevHash(ops, input));
    hide CascadeOf, LengthShrinks, Run, GoodState;
  }

  /** One step, whatever its outcome. */
  lemma StepKeepsGood(ops: TextOps, st: ArticleState, input: RevisionInput)
    requires GoodState(st) && input.revId !in st.orderedRevisions
    ensures GoodState(Step(ops, st, input))
    ensures Extends(st.arenas, Step(ops, st, input).arenas)
    ensures Snapshots(st) <= Snapshots(Step(ops, st, input))
  {
    hide GoodState, Shaped, Extends, Snapshots;
    if AnalyseRevision(ops, st, input).1 == Stored {
      StoredStep(ops, st, input);
    } else {
      VandalismStep(ops, st, input);
    }
  }

  /** Every article a run reaches is good, and a stored revision's token sequence is final:
      later revisions only append snapshots. */
  lemma {:induction false} RunKeepsGood(ops: TextOps, st: ArticleState, inputs: seq<RevisionInput>)
    requires GoodState(st) && Feedable(ops, st, inputs)
    ensures GoodState(Run(ops, st, inputs))
    ensures Extends(st.arenas, Run(ops, st, inputs).arenas)
    ensures Snapshots(st) <= Snapshots(Run(ops, st, inputs))
    decreases |inputs|
  {
    hide GoodState, Shaped, Extends, Snapshots, AnalyseRevision;
    if inputs == [] {
      ExtendsSelf(st.arenas);
    } else {
      var st' := Step(ops, st, inputs[0]);
      StepKeepsGood(ops, st, inputs[0]);
      RunKeepsGood(ops, st', inputs[1..]);
      ExtendsTrans(st.arenas, st'.arenas, Run(ops, st', inputs[1..]).arenas);
    }
  }

  lemma ExtendsSelf(a: Arenas)
    ensures Extends(a, a)
  {
  }

  lemma GoodIsDistinct(st: ArticleState)
    requires GoodState(st)
    ensures DistinctRevs(Snapshots(st))
  {
    SnapshotsDistinct(st);
  }

  lemma GoodHistory(st: ArticleState)
    requires GoodState(st)
    ensures HistoryOk(Snapshots(st), st.arenas.tokens)
    ensures GoodRevisions(st) && TokensNumbered(st.arenas)
  {
  }

  // ----- the life history of a token -----

  /** In a good article a token's record is exactly its presence history. */
  lemma RecordIsHistory(st: ArticleState, t: TokenId, i: nat)
    requires GoodState(st) && t < |st.arenas.tokens| && i < |st.orderedRevisions|
    ensures var w, snaps := st.arenas.tokens[t], Snapshots(st);
      var here := t in TokensAt(st, st.orderedRevisions[i]);
      var before := i > 0 && t in TokensAt(st, st.orderedRevisions[i - 1]);
      && w.tokenId == t
      && (st.orderedRevisions[i] in w.outbound <==> before && !here)
      && (st.orderedRevisions[i] in w.inbound <==> i > 0 && here && !before && st.orderedRevisions[i] != w.originRevId)
      && w.originRevId == FirstSeen(snaps, t) && w.lastRevId == LastSeen(snaps, t)
      && w.inbound == ExpectedIn(snaps, t) && w.outbound == ExpectedOut(snaps, t)
  {
    var snaps := Snapshots(st);
    GoodIsDistinct(st);
    GoodHistory(st);
    assert RecordIs(snaps, t, st.arenas.tokens[t]);
    hide GoodState, Shaped, HistoryOk, TokensAt, GoodRevisions;
    OutIff(snaps, t, i);
    InIff(snaps, t, i);
  }

  /** The token is in the last good revision exactly when its returns match its deletions. */
  lemma RecordIsBalanced(st: ArticleState, t: TokenId)
    requires GoodState(st) && t < |st.arenas.tokens|
    ensures var w := st.arenas.tokens[t];
      && (t in TokensAt(st, st.lastGoodRevId) <==> |w.inbound| == |w.outbound|)
      && (t in TokensAt(st, st.lastGoodRevId) <==> w.lastRevId == st.lastGoodRevId)
      && |w.inbound| <= |w.outbound| <= |w.inbound| + 1
  {
    var snaps := Snapshots(st);
    GoodIsDistinct(st);
    GoodHistory(st);
    assert RecordIs(snaps, t, st.arenas.tokens[t]);
    hide GoodState, Shaped, HistoryOk, TokensAt;
    Alternates(snaps, t);
    LastSeenNewest(snaps, t);
  }

  /** No token occurs twice in a stored revision, and all of them are known tokens. */
  lemma WalkUnique(st: ArticleState, r: RevId)
    requires GoodState(st) && r in st.revisions
    ensures NoDup(TokensAt(st, r))
    ensures forall t :: t in TokensAt(st, r) ==> t < |st.arenas.tokens|
  {
    GoodHistory(st);
    RevTokensIs(st.arenas, st.revisions[r]);
    assert GoodIndex(st.arenas, st.revisions[r].paragraphs, st.revisions[r].orderedParagraphs);
    IndexBounded(st.arenas, st.revisions[r]);
    hide GoodState, Shaped;
  }

  /** A stored revision's token sequence never changes. */
  lemma SequencesFrozen(ops: TextOps, st: ArticleState, inputs: seq<RevisionInput>, r: RevId)
    requires GoodState(st) && Feedable(ops, st, inputs) && r in st.revisions
    ensures r in Run(ops, st, inputs).revisions
    ensures TokensAt(Run(ops, st, inputs), r) == TokensAt(st, r)
  {
    var st' := Run(ops, st, inputs);
    RunKeepsGood(ops, st, inputs);
    GoodHistory(st);
    GoodHistory(st');
    hide GoodState, Shaped, Run, Feedable, Extends, TokensAt;
    var i :| 0 <= i < |st.orderedRevisions| && st.orderedRevisions[i] == r;
    assert Snapshots(st')[i] == Snapshots(st)[i];
    assert r in st'.orderedRevisions;
  }

  /** Revisions with distinct ids can be fed exactly if none of them is stored yet. */
  lemma {:induction false} DistinctIdsFeedable(ops: TextOps, st: ArticleState, inputs: seq<RevisionInput>)
    requires forall i, j :: 0 <= i < j < |inputs| ==> inputs[i].revId != inputs[j].revId
    ensures Feedable(ops, st, inputs) <==> forall i :: 0 <= i < |inputs| ==> inputs[i].revId !in st.orderedRevisions
    decreases |inputs|
  {
    if inputs != [] {
      var st', rest := Step(ops, st, inputs[0]), inputs[1..];
      OrderedGrows(ops, st, inputs[0]);
      hide AnalyseRevision, Step;
      DistinctIdsFeedable(ops, st', rest);
      forall i | 0 < i < |inputs| ensures inputs[i].revId !in st'.orderedRevisions
          <==> inputs[i].revId !in st.orderedRevisions {}
      assert forall i :: 0 <= i < |rest| ==> rest[i] == inputs[i + 1];
      assert forall i :: 0 < i < |inputs| ==> inputs[i] == rest[i - 1];
    }
  }

  lemma OrderedGrows(ops: TextOps, st: ArticleState, input: RevisionInput)
    ensures var st' := Step(ops, st, input);
      st'.orderedRevisions == st.orderedRevisions || st'.orderedRevisions == st.orderedRevisions + [input.revId]
  {
    hide CascadeOf, LengthShrinks;
  }

  // ----- conservation -----

  function SumAdds(st: ArticleState, revs: seq<RevId>): nat {
    if revs == [] then 0
    else (if revs[0] in st.revisions then st.revisions[revs[0]].originalAdds else 0) + SumAdds(st, revs[1..])
  }

  /** How many tokens a revision originated. */
  function Originated(tokens: seq<Word>, r: RevId): nat {
    if tokens == [] then 0
    else (if tokens[|tokens| - 1].originRevId == r then 1 else 0) + Originated(tokens[..|tokens| - 1], r)
  }

  ghost predicate AddsOk(st: ArticleState) {
    && SumAdds(st, st.orderedRevisions) == |st.arenas.tokens|
    && (forall r :: r in st.revisions ==> st.revisions[r].originalAdds == Originated(st.arenas.tokens, r))
    && (forall t :: 0 <= t < |st.arenas.tokens| ==> st.arenas.tokens[t].originRevId in st.revisions)
  }

  lemma {:induction false} SumAddsAppend(st: ArticleState, st': ArticleState, revs: seq<RevId>, rev: RevId)
    requires rev in st'.revisions && rev !in revs
    requires forall r :: r in revs ==> r in st.revisions && r in st'.revisions && st'.revisions[r] == st.revisions[r]
    ensures SumAdds(st', revs + [rev]) == SumAdds(st, revs) + st'.revisions[rev].originalAdds
  {
    if revs == [] {
    } else {
      assert revs[0] in revs && forall r :: r in revs[1..] ==> r in revs;
      assert (revs + [rev])[1..] == revs[1..] + [rev];
      SumAddsAppend(st, st', revs[1..], rev);
    }
  }

  lemma {:induction false} OriginatedGrows(old_: seq<Word>, now: seq<Word>, rev: RevId, r: RevId)
    requires |old_| <= |now|
    requires forall t :: 0 <= t < |old_| ==> now[t].originRevId == old_[t].originRevId
    requires forall t :: |old_| <= t < |now| ==> now[t].originRevId == rev
    ensures Originated(now, r) == Originated(old_, r) + if r == rev then |now| - |old_| else 0
    decreases |now|
  {
    if now == [] {
    } else if |old_| == |now| {
      OriginatedGrows(old_[..|old_| - 1], now[..|now| - 1], rev, r);
    } else {
      OriginatedGrows(old_, now[..|now| - 1], rev, r);
    }
  }

  lemma {:induction false} NoneOriginated(tokens: seq<Word>, r: RevId)
    requires forall t :: 0 <= t < |tokens| ==> tokens[t].originRevId != r
    ensures Originated(tokens, r) == 0
  {
    if tokens != [] {
      NoneOriginated(tokens[..|tokens| - 1], r);
    }
  }

  lemma AddsStored(st: ArticleState, st': ArticleState, rev: RevId)
    requires AddsOk(st) && rev !in st.orderedRevisions && forall r :: r in st.revisions <==> r in st.orderedRevisions
    requires rev in st'.revisions && st'.revisions == st.revisions[rev := st'.revisions[rev]]
    requires st'.orderedRevisions == st.orderedRevisions + [rev]
    requires |st.arenas.tokens| <= |st'.arenas.tokens|
    requires st'.revisions[rev].originalAdds + |st.arenas.tokens| == |st'.arenas.tokens|
    requires
      forall t :: 0 <= t < |st.arenas.tokens| ==> st'.arenas.tokens[t].originRevId == st.arenas.tokens[t].originRevId
    requires forall t :: |st.arenas.tokens| <= t < |st'.arenas.tokens| ==> st'.arenas.tokens[t].originRevId == rev
    ensures AddsOk(st')
  {
    SumAddsAppend(st, st', st.orderedRevisions, rev);
    var old_, now := st.arenas.tokens, st'.arenas.tokens;
    forall r | r in st'.revisions ensures st'.revisions[r].originalAdds == Originated(now, r) {
      OriginatedGrows(old_, now, rev, r);
      if r == rev { NoneOriginated(old_, rev); }
    }
  }

  lemma AddsStep(ops: TextOps, st: ArticleState, input: RevisionInput)
    requires GoodState(st) && AddsOk(st) && input.revId !in st.orderedRevisions
    ensures AddsOk(Step(ops, st, input))
  {
    hide GoodState, Shaped, AnalyseRevision, GoodIndex, Snapshots, TokensAt, HistoryOk, Extends, TablesGrow,
      TokensNumbered, InLast, LastRev, OnlyAppended, AddsOk;
    var st', rev := Step(ops, st, input), input.revId;
    GoodHistory(st);
    if AnalyseRevision(ops, st, input).1 == Stored {
      StoredStep(ops, st, input);
      OrderedIsStored(ops, st, input);
      AddsStored(st, st', rev);
    } else {
      VandalismStep(ops, st, input);
      AddsUnchanged(st, st', rev);
    }
  }

  lemma AddsUnchanged(st: ArticleState, st': ArticleState, rev: RevId)
    requires AddsOk(st) && Invisible(st, st', rev)
    ensures AddsOk(st')
  {
    SumAddsSame(st, st', st.orderedRevisions);
  }

  lemma OrderedIsStored(ops: TextOps, st: ArticleState, input: RevisionInput)
    requires AnalyseRevision(ops, st, input).1 == Stored
    ensures Step(ops, st, input).orderedRevisions == st.orderedRevisions + [input.revId]
  {
    hide CascadeOf, LengthShrinks;
  }

  lemma {:induction false} SumAddsSame(st: ArticleState, st': ArticleState, revs: seq<RevId>)
    requires st'.revisions == st.revisions
    ensures SumAdds(st', revs) == SumAdds(st, revs)
  {
    if revs != [] { SumAddsSame(st, st', revs[1..]); }
  }

  lemma {:induction false} AddsRun(ops: TextOps, st: ArticleState, inputs: seq<RevisionInput>)
    requires GoodState(st) && AddsOk(st) && Feedable(ops, st, inputs)
    ensures AddsOk(Run(ops, st, inputs))
    decreases |inputs|
  {
    hide GoodState, Shaped, AddsOk, AnalyseRevision;
    if inputs != [] {
      StepKeepsGood(ops, st, inputs[0]);
      AddsStep(ops, st, inputs[0]);
      AddsRun(ops, Step(ops, st, inputs[0]), inputs[1..]);
    }
  }
}
