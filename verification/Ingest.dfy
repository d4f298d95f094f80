/** The two callers that feed an article: building it from a page's whole history, and
    applying an event to a saved one. The second fetches the history again and keeps what is
    newer than the last good revision, by id. */
module Ingest {
  import opened Wrappers
  import opened Seqs
  import opened TextOps
  import opened Structures
  import opened CascadeSpec
  import opened CascadeShape
  import opened History
  import opened Runs
  import opened Stored
  import opened Persistence
  import opened Resume
  import opened Sessions
  import opened ArticleClass
  import opened ArticleStore

  /** A revision as delivered; its text may be hidden. */
  datatype Fetched = Fetched(input: RevisionInput, textHidden: bool)

  datatype Batch = Batch(revisions: seq<Fetched>, sawEnd: bool)

  datatype ApplyOutcome = SnapshotMissing | AlreadyAtOrAhead | Applied(revs: nat)

  /** What the batches bring, up to the one that holds the event's revision. */
  function Delivered(batches: seq<Batch>): seq<Fetched> {
    if batches == [] then []
    else batches[0].revisions + if batches[0].sawEnd then [] else Delivered(batches[1..])
  }

  function Newer(fetched: seq<Fetched>, last: RevId): seq<Fetched> {
    if fetched == [] then []
    else (if fetched[0].input.revId > last then [fetched[0]] else []) + Newer(fetched[1..], last)
  }

  function Shown(fetched: seq<Fetched>): seq<RevisionInput> {
    if fetched == [] then []
    else (if fetched[0].textHidden then [] else [fetched[0].input]) + Shown(fetched[1..])
  }

  /** What an event feeds to an article whose last good revision is `last`. */
  function Fed(fetched: seq<Fetched>, last: RevId): seq<RevisionInput> {
    Shown(Newer(fetched, last))
  }

  // ----- feeding an article object -----

  lemma StepPage(ops: TextOps, st: ArticleState, input: RevisionInput)
    ensures AnalyseRevision(ops, st, input).0.pageId == st.pageId
  {
    hide CascadeOf, LengthShrinks;
  }

  /** Skips hidden texts and feeds the rest. */
  method FeedAll(article: Article, revisions: seq<Fetched>) returns (applied: nat)
    requires article.Valid()
    modifies article
    ensures article.Valid() && article.pageId == old(article.pageId)
    ensures article.State() == Run(article.ops, old(article.State()), Shown(revisions)) && applied == |Shown(revisions)|
  {
    hide Shaped, AnalyseRevision, Run, Step;
    applied := 0;
    ghost var done := Run(article.ops, article.State(), Shown(revisions));
    assert revisions[0..] == revisions;
    for i := 0 to |revisions|
      invariant article.Valid() && article.pageId == old(article.pageId)
      invariant done == Run(article.ops, article.State(), Shown(revisions[i..]))
      invariant applied + |Shown(revisions[i..])| == |Shown(revisions)|
    {
      ghost var rest := revisions[i..];
      assert rest[1..] == revisions[i + 1..];
      ShownHead(rest);
      if !revisions[i].textHidden {
        StepPage(article.ops, article.State(), revisions[i].input);
        RunHead(article.ops, article.State(), revisions[i].input, Shown(rest[1..]));
        var _ := article.AnalyseRevision(revisions[i].input);
        applied := applied + 1;
      }
    }
    RunNothing(article.ops, article.State());
  }

  lemma ShownHead(fetched: seq<Fetched>)
    requires fetched != []
    ensures Shown(fetched) == if fetched[0].textHidden then Shown(fetched[1..])
        else [fetched[0].input] + Shown(fetched[1..])
  {
  }

  lemma RunHead(ops: TextOps, st: ArticleState, input: RevisionInput, rest: seq<RevisionInput>)
    ensures Run(ops, st, [input] + rest) == Run(ops, AnalyseRevision(ops, st, input).0, rest)
  {
    assert ([input] + rest)[1..] == rest;
    hide AnalyseRevision;
  }

  lemma RunNothing(ops: TextOps, st: ArticleState)
    ensures Run(ops, st, []) == st
  {
  }

  /** A new article is given its page id first, then fed the page's history. */
  method BuildArticle(ops: TextOps, title: string, page: nat, revisions: seq<Fetched>) returns (article: Article)
    ensures fresh(article) && article.Valid() && article.ops == ops
    ensures article.State() == Run(ops, Begin(title, Some(page)), Shown(revisions))
  {
    hide Shaped;
    article := new Article(ops, title);
    article.pageId := Some(page);
    ShapeIgnoresPage(NewArticle(title), Some(page));
    var _ := FeedAll(article, revisions);
  }

  lemma ShapeIgnoresPage(st: ArticleState, page: Option<nat>)
    requires Shaped(st)
    ensures Shaped(st.(pageId := page))
  {
  }

  // ----- which revisions an event is delivered -----

  /** The first `n` batches are read: none but the last of them saw the end, and that one did
      unless there are no more. */
  ghost predicate ReadUpTo(batches: seq<Batch>, n: nat) {
    && n <= |batches| && (forall k :: 0 <= k < n - 1 ==> !batches[k].sawEnd)
    && (n < |batches| ==> n > 0 && batches[n - 1].sawEnd)
  }

  datatype Place = Place(batch: nat, row: nat)

  predicate Before(x: Place, y: Place) {
    x.batch < y.batch || (x.batch == y.batch && x.row < y.row)
  }

  ghost predicate Ascends(at: seq<Place>) {
    forall i, j :: 0 <= i < j < |at| ==> Before(at[i], at[j])
  }

  predicate IsPlace(batches: seq<Batch>, p: Place) {
    p.batch < |batches| && p.row < |batches[p.batch].revisions|
  }

  function RevisionAt(batches: seq<Batch>, p: Place): Fetched
    requires IsPlace(batches, p)
  {
    batches[p.batch].revisions[p.row]
  }

  /** The list is what stands at the places, in order. */
  ghost predicate StandsAt(batches: seq<Batch>, out: seq<Fetched>, at: seq<Place>) {
    |at| == |out| && forall k :: 0 <= k < |at| ==> IsPlace(batches, at[k]) && out[k] == RevisionAt(batches, at[k])
  }

  /** The places are all those in the first `n` batches with an id above `start`. */
  ghost predicate NewerPlaces(batches: seq<Batch>, n: nat, start: RevId, at: seq<Place>) {
    forall p :: p in at
      <==> p.batch < n && IsPlace(batches, p) && RevisionAt(batches, p).input.revId > start
  }

  /** The list is the first `n` batches in order, without what is not newer than `start`. */
  ghost predicate NewerOf(batches: seq<Batch>, n: nat, start: RevId, out: seq<Fetched>) {
    exists at :: Ascends(at) && StandsAt(batches, out, at) && NewerPlaces(batches, n, start, at)
  }

  // ----- picking rows of one batch -----

  ghost predicate RowsOf(flags: seq<bool>, rows: seq<nat>) {
    && (forall i, j :: 0 <= i < j < |rows| ==> rows[i] < rows[j])
    && forall i: nat :: i in rows <==> i < |flags| && flags[i]
  }

  function AtRows<T>(xs: seq<T>, rows: seq<nat>): seq<T>
    requires forall k :: 0 <= k < |rows| ==> rows[k] < |xs|
  {
    seq(|rows|, k requires 0 <= k < |rows| => xs[rows[k]])
  }

  function NextRows(taken: bool, rows: seq<nat>): seq<nat> {
    (if taken then [0] else []) + seq(|rows|, k requires 0 <= k < |rows| => rows[k] + 1)
  }

  lemma NextRowsAre(flags: seq<bool>, rows: seq<nat>)
    requires flags != [] && RowsOf(flags[1..], rows)
    ensures RowsOf(flags, NextRows(flags[0], rows))
  {
    var next := NextRows(flags[0], rows);
    forall i: nat | i < |flags| && flags[i] ensures i in next {
      if i > 0 {
        assert flags[1..][i - 1];
        var k :| 0 <= k < |rows| && rows[k] == i - 1;
        assert next[|next| - |rows| + k] == i;
      } else {
        assert next[0] == i;
      }
    }
    forall i: nat | i in next ensures i < |flags| && flags[i] {
      if i > 0 {
        var k :| 0 <= k < |rows| && rows[k] + 1 == i;
        assert rows[k] in rows;
      }
    }
  }

  lemma AtNextRows<T>(xs: seq<T>, taken: bool, rows: seq<nat>)
    requires xs != [] && forall k :: 0 <= k < |rows| ==> rows[k] < |xs[1..]|
    ensures forall k :: 0 <= k < |NextRows(taken, rows)| ==> NextRows(taken, rows)[k] < |xs|
    ensures AtRows(xs, NextRows(taken, rows)) == (if taken then [xs[0]] else []) + AtRows(xs[1..], rows)
  {
  }

  function NewerFlags(fetched: seq<Fetched>, start: RevId): seq<bool> {
    seq(|fetched|, k requires 0 <= k < |fetched| => fetched[k].input.revId > start)
  }

  lemma {:induction false} NewerRows(fetched: seq<Fetched>, start: RevId) returns (rows: seq<nat>)
    ensures RowsOf(NewerFlags(fetched, start), rows)
    ensures (forall k :: 0 <= k < |rows| ==> rows[k] < |fetched|) && Newer(fetched, start) == AtRows(fetched, rows)
  {
    if fetched == [] {
      rows := [];
    } else {
      hide RowsOf, AtRows, NextRows;
      var flags := NewerFlags(fetched, start);
      var rest := NewerRows(fetched[1..], start);
      rows := NextRows(flags[0], rest);
      assert flags[1..] == NewerFlags(fetched[1..], start);
      NextRowsAre(flags, rest);
      NewerHead(fetched, start);
      AtNextRows(fetched, flags[0], rest);
    }
  }

  // ----- the batches one after the other -----

  /** The picked rows of the first batch, then the places of the others, one batch further. */
  function Onward(rows: seq<nat>, at: seq<Place>): (all: seq<Place>)
    ensures |all| == |rows| + |at|
    ensures forall k :: 0 <= k < |rows| ==> all[k] == Place(0, rows[k])
    ensures forall k :: |rows| <= k < |all| ==> all[k] == Place(at[k - |rows|].batch + 1, at[k - |rows|].row)
  {
    seq(|rows|, k requires 0 <= k < |rows| => Place(0, rows[k]))
    + seq(|at|, k requires 0 <= k < |at| => Place(at[k].batch + 1, at[k].row))
  }

  lemma OnwardAscends(flags: seq<bool>, rows: seq<nat>, at: seq<Place>)
    requires RowsOf(flags, rows) && Ascends(at)
    ensures Ascends(Onward(rows, at))
  {
    var all := Onward(rows, at);
    hide Onward;
    forall i, j | 0 <= i < j < |all| ensures Before(all[i], all[j]) {
      if i >= |rows| { assert Before(at[i - |rows|], at[j - |rows|]); }
    }
  }

  lemma OnwardStands(batches: seq<Batch>, rows: seq<nat>, out: seq<Fetched>, at: seq<Place>)
    requires batches != [] && forall k :: 0 <= k < |rows| ==> rows[k] < |batches[0].revisions|
    requires StandsAt(batches[1..], out, at)
    ensures StandsAt(batches, AtRows(batches[0].revisions, rows) + out, Onward(rows, at))
  {
    var all := Onward(rows, at);
    hide Onward;
    var rest := batches[1..];
    forall k | |rows| <= k < |all| ensures IsPlace(batches, all[k]) && RevisionAt(batches, all[k]) == out[k - |rows|] {
      var p := at[k - |rows|];
      assert IsPlace(rest, p) && rest[p.batch] == batches[p.batch + 1];
    }
  }

  lemma OnwardNewer(batches: seq<Batch>, n: nat, start: RevId, rows: seq<nat>, at: seq<Place>)
    requires batches != [] && RowsOf(NewerFlags(batches[0].revisions, start), rows)
    requires NewerPlaces(batches[1..], n, start, at)
    ensures NewerPlaces(batches, n + 1, start, Onward(rows, at))
  {
    var all, rest, after := Onward(rows, at), batches[1..], n + 1;
    hide Onward;
    forall p ensures p in all
      <==> p.batch < after && IsPlace(batches, p) && RevisionAt(batches, p).input.revId > start
    {
      InOnward(rows, at, p);
      if p.batch > 0 {
        var q := Place(p.batch - 1, p.row);
        assert IsPlace(rest, q) <==> IsPlace(batches, p);
        if IsPlace(rest, q) { assert RevisionAt(rest, q) == RevisionAt(batches, p); }
      }
    }
  }

  lemma InOnward(rows: seq<nat>, at: seq<Place>, p: Place)
    ensures p in Onward(rows, at) <==> if p.batch == 0 then p.row in rows else Place(p.batch - 1, p.row) in at
  {
    var all := Onward(rows, at);
    hide Onward;
    if p.batch == 0 && p.row in rows {
      var k :| 0 <= k < |rows| && rows[k] == p.row;
      assert all[k] == p;
    }
    if p.batch > 0 && Place(p.batch - 1, p.row) in at {
      var k :| 0 <= k < |at| && at[k] == Place(p.batch - 1, p.row);
      assert all[|rows| + k] == p;
    }
  }

  lemma OnwardOf(batches: seq<Batch>, n: nat, start: RevId, out: seq<Fetched>)
    requires batches != [] && NewerOf(batches[1..], n, start, out)
    ensures NewerOf(batches, n + 1, start, Newer(batches[0].revisions, start) + out)
  {
    hide Newer, Ascends, StandsAt, NewerPlaces, RowsOf, Onward, AtRows;
    var at :| Ascends(at) && StandsAt(batches[1..], out, at) && NewerPlaces(batches[1..], n, start, at);
    var rows := NewerRows(batches[0].revisions, start);
    OnwardAscends(NewerFlags(batches[0].revisions, start), rows, at);
    OnwardStands(batches, rows, out, at);
    OnwardNewer(batches, n, start, rows, at);
  }

  lemma NothingRead(batches: seq<Batch>, start: RevId)
    ensures NewerOf(batches, 0, start, []) && (batches == [] ==> ReadUpTo(batches, 0))
  {
    assert Ascends([]) && StandsAt(batches, [], []) && NewerPlaces(batches, 0, start, []);
  }

  lemma ReadOnward(batches: seq<Batch>, n: nat)
    requires batches != [] && !batches[0].sawEnd && ReadUpTo(batches[1..], n)
    ensures ReadUpTo(batches, n + 1)
  {
    var rest := batches[1..];
    forall k | 0 <= k < n ensures !batches[k].sawEnd {
      if k > 0 { assert rest[k - 1] == batches[k]; }
    }
  }

  /** An event is delivered the batches up to and with the first that saw the end, in order
      and without what is not newer. */
  lemma {:induction false} DeliveredIsWindow(batches: seq<Batch>, start: RevId)
    ensures exists n :: ReadUpTo(batches, n) && NewerOf(batches, n, start, Newer(Delivered(batches), start))
  {
    NewerNothing(start);
    hide Newer, NewerOf;
    if batches == [] {
      NothingRead(batches, start);
    } else {
      var revisions, rest := batches[0].revisions, batches[1..];
      if batches[0].sawEnd {
        NothingRead(rest, start);
        OnwardOf(batches, 0, start, []);
        assert revisions + [] == revisions && Newer(revisions, start) + [] == Newer(revisions, start);
        assert ReadUpTo(batches, 1);
      } else {
        DeliveredIsWindow(rest, start);
        var n :| ReadUpTo(rest, n) && NewerOf(rest, n, start, Newer(Delivered(rest), start));
        OnwardOf(batches, n, start, Newer(Delivered(rest), start));
        NewerAppend(revisions, Delivered(rest), start);
        ReadOnward(batches, n);
        var after := n + 1;
        assert ReadUpTo(batches, after);
      }
    }
  }

  function ShownFlags(fetched: seq<Fetched>): seq<bool> {
    seq(|fetched|, k requires 0 <= k < |fetched| => !fetched[k].textHidden)
  }

  function InputsOf(fetched: seq<Fetched>): seq<RevisionInput> {
    seq(|fetched|, k requires 0 <= k < |fetched| => fetched[k].input)
  }

  /** What is shown is all whose text is not hidden, in order. */
  lemma {:induction false} ShownRows(fetched: seq<Fetched>) returns (rows: seq<nat>)
    ensures RowsOf(ShownFlags(fetched), rows) && forall k :: 0 <= k < |rows| ==> rows[k] < |fetched|
    ensures Shown(fetched) == AtRows(InputsOf(fetched), rows)
  {
    if fetched == [] {
      rows := [];
    } else {
      hide RowsOf, AtRows, NextRows;
      var flags, inputs := ShownFlags(fetched), InputsOf(fetched);
      var rest := ShownRows(fetched[1..]);
      rows := NextRows(flags[0], rest);
      assert flags[1..] == ShownFlags(fetched[1..]) && inputs[1..] == InputsOf(fetched[1..]);
      NextRowsAre(flags, rest);
      ShownHead(fetched);
      AtNextRows(inputs, flags[0], rest);
    }
  }

  /** The batch is read and delivers the revision with its text. */
  ghost predicate BatchOffers(batches: seq<Batch>, k: nat, r: RevId) {
    k < |batches| && (forall i :: 0 <= i < k ==> !batches[i].sawEnd) && Offers(batches[k].revisions, r)
  }

  lemma {:induction false} OffersAppend(xs: seq<Fetched>, ys: seq<Fetched>, r: RevId)
    ensures Offers(xs + ys, r) <==> Offers(xs, r) || Offers(ys, r)
  {
    if xs == [] {
      NothingOffered(r);
      assert xs + ys == ys;
    } else {
      hide Offers;
      OffersAppend(xs[1..], ys, r);
      assert xs + ys == [xs[0]] + (xs[1..] + ys) && xs == [xs[0]] + xs[1..];
      OffersCons(xs[0], xs[1..] + ys, r);
      OffersCons(xs[0], xs[1..], r);
    }
  }

  lemma {:induction false} DeliveredOffers(batches: seq<Batch>, r: RevId)
    ensures Offers(Delivered(batches), r) <==> exists k :: BatchOffers(batches, k, r)
  {
    NothingOffered(r);
    hide Offers;
    if batches != [] {
      var revisions, rest := batches[0].revisions, batches[1..];
      OffersAppend(revisions, if batches[0].sawEnd then [] else Delivered(rest), r);
      DeliveredOffers(rest, r);
      if Offers(revisions, r) { assert BatchOffers(batches, 0, r); }
      if !batches[0].sawEnd && exists k :: BatchOffers(rest, k, r) {
        var k: nat :| BatchOffers(rest, k, r);
        OffersOnward(batches, k, r);
      }
      if exists k :: BatchOffers(batches, k, r) {
        var k: nat :| BatchOffers(batches, k, r);
        if k > 0 { OffersOnward(batches, k - 1, r); }
      }
    }
  }

  lemma OffersOnward(batches: seq<Batch>, k: nat, r: RevId)
    requires batches != []
    ensures BatchOffers(batches, k + 1, r) <==> !batches[0].sawEnd && BatchOffers(batches[1..], k, r)
  {
    hide Offers;
    var rest := batches[1..];
    assert forall i :: 0 <= i < |rest| ==> rest[i] == batches[i + 1];
    if BatchOffers(batches, k + 1, r) {
      forall i | 0 <= i < k ensures !rest[i].sawEnd {
        var after := i + 1;
        assert !batches[after].sawEnd;
      }
    }
    if !batches[0].sawEnd && BatchOffers(rest, k, r) {
      forall i | 0 <= i < k + 1 ensures !batches[i].sawEnd {
        if i > 0 { assert !rest[i - 1].sawEnd; }
      }
    }
  }

  /** A revision is fed exactly if it is above the last good id and some batch with none before
      it at the end delivers it with its text. */
  lemma FedByBatch(batches: seq<Batch>, last: RevId, r: RevId)
    ensures Feeds(Fed(Delivered(batches), last), r) <==> r > last && exists k :: BatchOffers(batches, k, r)
  {
    hide Offers, Feeds, Delivered, Fed, BatchOffers;
    FedExactly(Delivered(batches), last, r);
    DeliveredOffers(batches, r);
  }

  // ----- applying an event -----

  /** All revisions above `start` that the batches bring, up to and with the first batch that
      saw the end, in the order they come in. */
  method FetchWindow(batches: seq<Batch>, start: RevId) returns (out: seq<Fetched>)
    ensures out == Newer(Delivered(batches), start)
    ensures exists n :: ReadUpTo(batches, n) && NewerOf(batches, n, start, out)
  {
    hide Newer, ReadUpTo, NewerOf;
    DeliveredIsWindow(batches, start);
    out := [];
    assert batches[0..] == batches;
    for i := 0 to |batches|
      invariant out + Newer(Delivered(batches[i..]), start) == Newer(Delivered(batches), start)
    {
      assert batches[i..][0] == batches[i] && batches[i..][1..] == batches[i + 1..];
      var revisions := batches[i].revisions;
      ghost var more := if batches[i].sawEnd then [] else Delivered(batches[i + 1..]);
      NewerAppend(revisions, more, start);
      assert Delivered(batches[i..]) == revisions + more;
      var kept := DropOld(revisions, start);
      out := out + kept;
      if batches[i].sawEnd {
        NewerNothing(start);
        return;
      }
    }
    NewerNothing(start);
  }

  method DropOld(revisions: seq<Fetched>, start: RevId) returns (kept: seq<Fetched>)
    ensures kept == Newer(revisions, start)
  {
    hide Newer;
    kept := [];
    assert revisions[0..] == revisions;
    for k := 0 to |revisions|
      invariant kept + Newer(revisions[k..], start) == Newer(revisions, start)
    {
      ghost var more := Newer(revisions[k + 1..], start);
      assert revisions[k..][1..] == revisions[k + 1..];
      NewerHead(revisions[k..], start);
      if revisions[k].input.revId > start {
        assert kept + ([revisions[k]] + more) == (kept + [revisions[k]]) + more;
        kept := kept + [revisions[k]];
      }
    }
    NewerNothing(start);
  }

  lemma NewerHead(fetched: seq<Fetched>, last: RevId)
    requires fetched != []
    ensures Newer(fetched, last) == if fetched[0].input.revId > last then [fetched[0]] + Newer(fetched[1..], last)
        else Newer(fetched[1..], last)
  {
  }

  lemma NewerNothing(last: RevId)
    ensures Newer([], last) == []
  {
  }

  lemma {:induction false} NewerAppend(xs: seq<Fetched>, ys: seq<Fetched>, last: RevId)
    ensures Newer(xs + ys, last) == Newer(xs, last) + Newer(ys, last)
  {
    if xs == [] {
      assert xs + ys == ys;
    } else {
      assert (xs + ys)[0] == xs[0] && (xs + ys)[1..] == xs[1..] + ys;
      NewerAppend(xs[1..], ys, last);
    }
  }

  /** Every token of the file has its string. */
  predicate Loads(file: StoredArticle) {
    StringsKnown(file, |file.tokens|)
  }

  lemma LoadsOrNot(file: StoredArticle, r: Result<ArticleState, StorageError>)
    requires Rehydrates(file, r)
    ensures if Loads(file) then r == Ok(Loaded(file)) && Loaded(file).pageId.Some? else r.Err?
  {
    hide Group, Untable, LoadRevisions, LoadParagraph, LoadSentence, LoadToken;
  }

  /** Opens the saved article, feeds it the window, and writes it again. Of the file it is only
      asked that what it loads as has its indexes in range, as every saved article's does. */
  method ApplyEvent(ops: TextOps, file: Option<StoredArticle>, eventRev: RevId, batches: seq<Batch>)
      returns (outcome: Result<ApplyOutcome, StorageError>, saved: Option<StoredArticle>)
    requires file.Some? && Loads(file.value) ==> Shaped(Loaded(file.value))
    ensures file.None? ==> outcome == Ok(SnapshotMissing) && saved == None
    ensures file.Some? && !Loads(file.value) ==>
      outcome.Err? && Rehydrates(file.value, Err(outcome.error)) && saved == None
    ensures file.Some? && Loads(file.value) ==>
      var st := Loaded(file.value);
      var inputs := Fed(Delivered(batches), st.lastGoodRevId);
      if eventRev <= st.lastGoodRevId then outcome == Ok(AlreadyAtOrAhead) && saved == None
      else outcome == Ok(Applied(|inputs|)) && saved.Some? && Projects(Run(ops, st, inputs), saved.value)
  {
    hide Shaped, Projects, Rehydrates, Loaded, Loads, Run, Delivered, Newer, Shown;
    if file.None? {
      return Ok(SnapshotMissing), None;
    }
    var loaded := OpenArticle(ops, file.value);
    if loaded.Err? {
      LoadsOrNot(file.value, Err(loaded.error));
      return Err(loaded.error), None;
    }
    var article := loaded.value;
    LoadsOrNot(file.value, Ok(article.State()));
    if eventRev <= article.lastGoodRevId {
      return Ok(AlreadyAtOrAhead), None;
    }
    var window := FetchWindow(batches, article.lastGoodRevId);
    var applied := FeedAll(article, window);
    var written := WriteArticle(article);
    outcome, saved := Ok(Applied(applied)), Some(written.value);
  }

  /** The file of a savable article loads as that article, its sequences pinned, so the event
      goes on from there. */
  lemma SavedLoads(st: ArticleState, file: StoredArticle)
    requires Savable(st) && Projects(st, file)
    ensures Loads(file) && Loaded(file) == Sealed(st) && Shaped(Sealed(st))
    ensures Sealed(st).lastGoodRevId == st.lastGoodRevId
  {
    hide GoodState, Shaped, Projects, Loaded, ArenaAligned, OverridesFaithful;
    KnownStrings(st, file);
    SaveThenLoad(st, file, Ok(Loaded(file)));
    SealedGood(st);
    GoodIsShaped(Sealed(st));
  }

  // ----- when an event feeds only what is not stored yet -----

  ghost predicate DistinctFetched(fetched: seq<Fetched>) {
    forall i, j :: 0 <= i < j < |fetched| ==> fetched[i].input.revId != fetched[j].input.revId
  }

  /** The revision is delivered with its text. */
  ghost predicate Offers(fetched: seq<Fetched>, r: RevId) {
    exists k :: 0 <= k < |fetched| && fetched[k].input.revId == r && !fetched[k].textHidden
  }

  ghost predicate Feeds(inputs: seq<RevisionInput>, r: RevId) {
    exists i :: 0 <= i < |inputs| && inputs[i].revId == r
  }

  ghost predicate DistinctInputs(inputs: seq<RevisionInput>) {
    forall i, j :: 0 <= i < j < |inputs| ==> inputs[i].revId != inputs[j].revId
  }

  lemma OffersCons(f: Fetched, rest: seq<Fetched>, r: RevId)
    ensures Offers([f] + rest, r) <==> (f.input.revId == r && !f.textHidden) || Offers(rest, r)
  {
    var all := [f] + rest;
    if Offers(rest, r) {
      var k :| 0 <= k < |rest| && rest[k].input.revId == r && !rest[k].textHidden;
      assert all[k + 1] == rest[k];
    }
    if f.input.revId == r && !f.textHidden { assert all[0] == f; }
    if Offers(all, r) {
      var k :| 0 <= k < |all| && all[k].input.revId == r && !all[k].textHidden;
      if k > 0 { assert rest[k - 1] == all[k]; }
    }
  }

  lemma FeedsCons(x: RevisionInput, rest: seq<RevisionInput>, r: RevId)
    ensures Feeds([x] + rest, r) <==> x.revId == r || Feeds(rest, r)
  {
    var all := [x] + rest;
    if Feeds(rest, r) {
      var k :| 0 <= k < |rest| && rest[k].revId == r;
      assert all[k + 1] == rest[k];
    }
    assert all[0] == x;
    if Feeds(all, r) {
      var k :| 0 <= k < |all| && all[k].revId == r;
      if k > 0 { assert rest[k - 1] == all[k]; }
    }
  }

  lemma {:induction false} FedExactly(fetched: seq<Fetched>, last: RevId, r: RevId)
    ensures Feeds(Fed(fetched, last), r) <==> r > last && Offers(fetched, r)
  {
    hide Offers, Feeds;
    if fetched == [] {
      NothingOffered(r);
    } else {
      var f, rest := fetched[0], fetched[1..];
      FedExactly(rest, last, r);
      assert fetched == [f] + rest;
      OffersCons(f, rest, r);
      FedHead(fetched, last);
      FeedsCons(f.input, Fed(rest, last), r);
    }
  }

  lemma NothingOffered(r: RevId)
    ensures !Offers([], r) && !Feeds([], r)
  {
  }

  lemma FedHead(fetched: seq<Fetched>, last: RevId)
    requires fetched != []
    ensures Fed(fetched, last)
         == if fetched[0].input.revId > last && !fetched[0].textHidden then [fetched[0].input] + Fed(fetched[1..], last)
            else Fed(fetched[1..], last)
  {
    var newer, rest := Newer(fetched, last), Newer(fetched[1..], last);
    if fetched[0].input.revId > last {
      assert newer[0] == fetched[0] && newer[1..] == rest;
      ShownHead(newer);
    } else {
      assert newer == rest;
    }
  }

  lemma {:induction false} FedDistinct(fetched: seq<Fetched>, last: RevId)
    requires DistinctFetched(fetched)
    ensures DistinctInputs(Fed(fetched, last))
  {
    if fetched != [] {
      var f, rest := fetched[0], fetched[1..];
      FedDistinct(rest, last);
      FedHead(fetched, last);
      FedExactly(rest, last, f.input.revId);
      assert forall k :: 0 <= k < |rest| ==> rest[k] == fetched[k + 1];
      assert !Offers(rest, f.input.revId);
      DistinctCons(f.input, Fed(rest, last));
    }
  }

  lemma DistinctCons(x: RevisionInput, rest: seq<RevisionInput>)
    requires DistinctInputs(rest) && !Feeds(rest, x.revId)
    ensures DistinctInputs([x] + rest)
  {
    forall i | 0 <= i < |rest| ensures rest[i].revId != x.revId {}
  }

  /** An event feeds only revisions that are not stored yet exactly if no stored revision that
      is delivered again has an id above the last good one's. */
  lemma WindowFeedable(ops: TextOps, st: ArticleState, fetched: seq<Fetched>)
    requires DistinctFetched(fetched)
    ensures Feedable(ops, st, Fed(fetched, st.lastGoodRevId))
       <==> forall r :: r in st.orderedRevisions && Offers(fetched, r) ==> r <= st.lastGoodRevId
  {
    hide Offers, Feedable;
    var inputs := Fed(fetched, st.lastGoodRevId);
    FedDistinct(fetched, st.lastGoodRevId);
    DistinctIdsFeedable(ops, st, inputs);
    forall r: RevId ensures Feeds(inputs, r) <==> r > st.lastGoodRevId && Offers(fetched, r) {
      FedExactly(fetched, st.lastGoodRevId, r);
    }
    assert forall i :: 0 <= i < |inputs| ==> Feeds(inputs, inputs[i].revId);
  }

  /** The caller could check this before it applies an event. */
  ghost predicate NewestIsLargest(st: ArticleState) {
    forall r :: r in st.orderedRevisions ==> r <= st.lastGoodRevId
  }

  /** When every stored revision is delivered again, that is the case exactly if the last good
      revision has the largest id of all stored ones. */
  lemma RefetchedFeedable(ops: TextOps, st: ArticleState, fetched: seq<Fetched>)
    requires DistinctFetched(fetched) && forall r :: r in st.orderedRevisions ==> Offers(fetched, r)
    ensures Feedable(ops, st, Fed(fetched, st.lastGoodRevId)) <==> NewestIsLargest(st)
  {
    hide Offers, Feedable, Fed;
    WindowFeedable(ops, st, fetched);
  }

  function FeedEvents(inputs: seq<RevisionInput>): seq<Event> {
    if inputs == [] then [] else [Feed(inputs[0])] + FeedEvents(inputs[1..])
  }

  lemma {:induction false} FeedsRun(ops: TextOps, st: ArticleState, inputs: seq<RevisionInput>)
    ensures Inputs(FeedEvents(inputs)) == inputs
    ensures Session(ops, st, FeedEvents(inputs)) == Run(ops, st, inputs)
    decreases |inputs|
  {
    hide Step;
    if inputs != [] {
      assert FeedEvents(inputs)[1..] == FeedEvents(inputs[1..]) && FeedEvents(inputs)[0] == Feed(inputs[0]);
      FeedsRun(ops, Step(ops, st, inputs[0]), inputs[1..]);
      assert inputs == [inputs[0]] + inputs[1..];
    }
  }

  /** Then what the event saves is again a reachable article, so all that is proved of
      reachable articles holds of it. */
  lemma AppliedIsReachable(ops: TextOps, st: ArticleState, fetched: seq<Fetched>)
    requires Reachable(ops, st) && st.pageId.Some? && DistinctFetched(fetched) && NewestIsLargest(st)
    ensures Reachable(ops, Run(ops, Sealed(st), Fed(fetched, st.lastGoodRevId)))
  {
    hide Reachable, Kept, Sealed, Feedable, Fed, Offers, Unsealed, Run, Session, Inputs, FeedEvents, DistinctFetched,
      NewestIsLargest;
    var inputs := Fed(fetched, st.lastGoodRevId);
    ReachableSavable(ops, st);
    RestartSeals(ops, st);
    NothingFed(ops, st);
    OneRestart(ops, st);
    SessionsGoOn(ops, st, [Restart]);
    FeedsRun(ops, Sealed(st), inputs);
    FedAfterLoading(ops, st, fetched);
    SessionsGoOn(ops, Sealed(st), FeedEvents(inputs));
  }

  lemma FedAfterLoading(ops: TextOps, st: ArticleState, fetched: seq<Fetched>)
    requires DistinctFetched(fetched) && NewestIsLargest(st)
    ensures Feedable(ops, Unsealed(Sealed(st)), Fed(fetched, st.lastGoodRevId))
  {
    hide Feedable, Offers, Fed;
    WindowFeedable(ops, Unsealed(Sealed(st)), fetched);
  }

  /** A page built from its whole history is reachable. */
  lemma BuiltIsReachable(ops: TextOps, title: string, page: nat, fetched: seq<Fetched>)
    requires DistinctFetched(fetched)
    ensures Reachable(ops, Run(ops, Begin(title, Some(page)), Shown(fetched)))
  {
    hide Feedable, Run, Session, Inputs, FeedEvents, Offers;
    var st0, inputs := Begin(title, Some(page)), Shown(fetched);
    ShownDistinct(fetched);
    DistinctIdsFeedable(ops, st0, inputs);
    FeedsRun(ops, st0, inputs);
  }

  lemma {:induction false} ShownExactly(fetched: seq<Fetched>, r: RevId)
    ensures Feeds(Shown(fetched), r) <==> Offers(fetched, r)
  {
    hide Offers, Feeds;
    if fetched == [] {
      NothingOffered(r);
    } else {
      var f, rest := fetched[0], fetched[1..];
      ShownExactly(rest, r);
      assert fetched == [f] + rest;
      OffersCons(f, rest, r);
      ShownHead(fetched);
      FeedsCons(f.input, Shown(rest), r);
    }
  }

  lemma {:induction false} ShownDistinct(fetched: seq<Fetched>)
    requires DistinctFetched(fetched)
    ensures DistinctInputs(Shown(fetched))
  {
    if fetched != [] {
      var f, rest := fetched[0], fetched[1..];
      ShownDistinct(rest);
      ShownExactly(rest, f.input.revId);
      assert forall k :: 0 <= k < |rest| ==> rest[k] == fetched[k + 1];
      assert !Offers(rest, f.input.revId);
      ShownHead(fetched);
      DistinctCons(f.input, Shown(rest));
    }
  }

  // ----- an event that feeds a stored revision again -----

  /** Text operations under which an empty text has no paragraphs. */
  const PLAIN := TextOps(
    (s: string) => s, (s: string) => s, (s: string) => if s == "" then [] else [s],
    (s: string) => [s], (s: string) => [s], (s: string) => s)

  function Blank(id: RevId): RevisionInput {
    RevisionInput(id, "", "", None, None, false, "")
  }

  lemma BlankCascade(st: ArticleState, id: RevId)
    ensures !CascadeOf(PLAIN, st, Blank(id)).vandalism
    ensures CascadeOf(PLAIN, st, Blank(id)).curr == FreshRevision(Blank(id))
  {
    assert PLAIN.lower("") == "" && PLAIN.splitParagraphs("") == [];
    assert Paragraphs(PLAIN, "") == [];
  }

  lemma BlankStep(st: ArticleState, id: RevId)
    requires st.spamHashes == {} && PrevRevision(st).length == 0
    ensures var st' := Step(PLAIN, st, Blank(id));
      && st'.spamHashes == {} && PrevRevision(st').length == 0
      && st'.orderedRevisions == st.orderedRevisions + [id] && st'.lastGoodRevId == id
  {
    BlankCascade(st, id);
    hide CascadeOf;
  }

  /** A page whose history has revision 1000 before revision 500, as ids from before 2002 may
      be: an event for revision 1001 feeds revision 1000 a second time, and the article then
      lists it twice. */
  lemma OutOfOrderFedAgain()
    ensures var st := Run(PLAIN, Begin("", Some(1)), [Blank(1000), Blank(500)]);
      var history := [Fetched(Blank(1000), false), Fetched(Blank(500), false), Fetched(Blank(1001), false)];
      var inputs := Fed(history, st.lastGoodRevId);
      && Reachable(PLAIN, st) && st.orderedRevisions == [1000, 500] && st.lastGoodRevId == 500
      && inputs == [Blank(1000), Blank(1001)] && !Feedable(PLAIN, st, inputs)
      && Run(PLAIN, Sealed(st), inputs).orderedRevisions == [1000, 500, 1000, 1001]
  {
    hide Reachable, Step, Feedable, Fed, Run, Sealed;
    var st0 := Begin("", Some(1));
    var st := Run(PLAIN, st0, [Blank(1000), Blank(500)]);
    var fetched := [Fetched(Blank(1000), false), Fetched(Blank(500), false)];
    var history := fetched + [Fetched(Blank(1001), false)];
    BuiltIsReachable(PLAIN, "", 1, fetched);
    assert Shown(fetched) == [Blank(1000), Blank(500)] by { ShownTwo(fetched); }
    TwoBlanks(st0, 1000, 500);
    assert st.orderedRevisions == [1000, 500];
    WindowOf(history);
    assert history == [Fetched(Blank(1000), false), Fetched(Blank(500), false), Fetched(Blank(1001), false)];
    StoredNotFeedable(PLAIN, st, Blank(1000), [Blank(1001)]);
    assert [Blank(1000), Blank(1001)] == [Blank(1000)] + [Blank(1001)];
    SealedFields(st);
    TwoBlanks(Sealed(st), 1000, 1001);
  }

  lemma ShownTwo(fetched: seq<Fetched>)
    requires |fetched| == 2 && !fetched[0].textHidden && !fetched[1].textHidden
    ensures Shown(fetched) == [fetched[0].input, fetched[1].input]
  {
    assert Shown(fetched[1..]) == [fetched[1].input] + Shown(fetched[1..][1..]);
  }

  lemma TwoBlanks(st: ArticleState, x: RevId, y: RevId)
    requires st.spamHashes == {} && PrevRevision(st).length == 0
    ensures var st' := Run(PLAIN, st, [Blank(x), Blank(y)]);
      && st'.spamHashes == {} && PrevRevision(st').length == 0
      && st'.orderedRevisions == st.orderedRevisions + [x, y] && st'.lastGoodRevId == y
  {
    hide Step, PrevRevision;
    BlankStep(st, x);
    var st1 := Step(PLAIN, st, Blank(x));
    BlankStep(st1, y);
    assert [Blank(x), Blank(y)][1..] == [Blank(y)] && [Blank(y)][1..] == [];
    assert Run(PLAIN, st1, [Blank(y)]) == Run(PLAIN, Step(PLAIN, st1, Blank(y)), []);
  }

  lemma WindowOf(history: seq<Fetched>)
    requires history == [Fetched(Blank(1000), false), Fetched(Blank(500), false), Fetched(Blank(1001), false)]
    ensures Fed(history, 500) == [Blank(1000), Blank(1001)]
  {
    FedHead(history, 500);
    FedHead(history[1..], 500);
    FedHead(history[2..], 500);
    assert history[3..] == [] && Fed(history[3..], 500) == [];
  }

  lemma StoredNotFeedable(ops: TextOps, st: ArticleState, input: RevisionInput, rest: seq<RevisionInput>)
    requires input.revId in st.orderedRevisions
    ensures !Feedable(ops, st, [input] + rest)
  {
  }

  lemma SealedFields(st: ArticleState)
    ensures Sealed(st).spamHashes == st.spamHashes && Sealed(st).orderedRevisions == st.orderedRevisions
    ensures PrevRevision(Sealed(st)).length == PrevRevision(st).length
  {
  }
}
