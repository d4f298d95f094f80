/** The token level follows the transcript: whatever the values, and however often they
    occur, each word of the new text gets the token that its own entry of the transcript
    says, and nothing else is kept or allocated. */
module Follows {
  import opened Wrappers
  import opened Seqs
  import opened TextOps
  import opened Structures
  import opened EditScript
  import opened DifferSpec
  import opened CascadeSpec
  import opened CascadeShape
  import opened WordLevel
  import opened Accounting

  // ----- what the transcript asks for -----

  /** The tokens of the new text: a kept entry stands for its previous token, an inserted one
      for the next new token. */
  function Followed(ops: seq<DiffOp>, ids: seq<TokenId>, next: TokenId): (r: seq<TokenId>)
    requires |ids| == |Old(ops)|
    ensures |r| == |New(ops)|
  {
    if ops == [] then []
    else
      match ops[0]
      case Keep(_) => [ids[0]] + Followed(ops[1..], ids[1..], next)
      case Delete(_) => Followed(ops[1..], ids[1..], next)
      case Insert(_) => [next] + Followed(ops[1..], ids, next + 1)
  }

  /** How many entries before `q` take something of the old text, of the new one, of both. */
  function OldAt(ops: seq<DiffOp>, q: nat): nat
    requires q <= |ops|
  {
    |Old(ops[..q])|
  }

  function NewAt(ops: seq<DiffOp>, q: nat): nat
    requires q <= |ops|
  {
    |New(ops[..q])|
  }

  function KeepAt(ops: seq<DiffOp>, q: nat): nat
    requires q <= |ops|
  {
    Keeps(ops[..q])
  }

  lemma AtZero(ops: seq<DiffOp>)
    ensures OldAt(ops, 0) == NewAt(ops, 0) == KeepAt(ops, 0) == 0
    ensures OldAt(ops, |ops|) == |Old(ops)| && NewAt(ops, |ops|) == |New(ops)| && KeepAt(ops, |ops|) == Keeps(ops)
  {
    assert ops[..|ops|] == ops;
  }

  lemma AtNext(ops: seq<DiffOp>, q: nat)
    requires q < |ops|
    ensures OldAt(ops, q + 1) == OldAt(ops, q) + if ops[q].Insert? then 0 else 1
    ensures NewAt(ops, q + 1) == NewAt(ops, q) + if ops[q].Delete? then 0 else 1
    ensures KeepAt(ops, q + 1) == KeepAt(ops, q) + if ops[q].Keep? then 1 else 0
  {
    hide Old, New, Keeps;
    assert ops[..q + 1] == ops[..q] + [ops[q]];
    ScriptAppend(ops[..q], [ops[q]]);
    ScriptOne(ops[q]);
  }

  lemma {:induction false} AtGrows(ops: seq<DiffOp>, q: nat, r: nat)
    requires q <= r <= |ops|
    ensures OldAt(ops, q) <= OldAt(ops, r) && NewAt(ops, q) <= NewAt(ops, r)
    decreases r
  {
    hide OldAt, NewAt;
    if q < r {
      AtNext(ops, r - 1);
      AtGrows(ops, q, r - 1);
    }
  }

  lemma {:induction false} KeepsAreNew(ops: seq<DiffOp>)
    ensures Keeps(ops) <= |New(ops)|
  {
    if ops != [] { KeepsAreNew(ops[1..]); }
  }

  /** Each entry's value is the old and the new text's at its places. */
  lemma AtValues(ops: seq<DiffOp>, q: nat)
    requires q < |ops|
    ensures !ops[q].Insert? ==> OldAt(ops, q) < |Old(ops)| && Old(ops)[OldAt(ops, q)] == ops[q].value
    ensures !ops[q].Delete? ==> NewAt(ops, q) < |New(ops)| && New(ops)[NewAt(ops, q)] == ops[q].value
  {
    hide Old, New;
    var x, y := ops[..q], ops[q + 1..];
    assert ops == x + ([ops[q]] + y);
    ScriptAppend(x, [ops[q]] + y);
    ScriptAppend([ops[q]], y);
    ScriptOne(ops[q]);
  }

  /** The token that entry `q` asks for. */
  function Asked(ops: seq<DiffOp>, ids: seq<TokenId>, next: TokenId, q: nat): TokenId
    requires |ids| == |Old(ops)| && q < |ops|
  {
    if ops[q].Keep? then
      AtValues(ops, q);
      ids[OldAt(ops, q)]
    else
      KeepsAreNew(ops[..q]);
      next + NewAt(ops, q) - KeepAt(ops, q)
  }

  /** Every word of the old text has its entry. */
  lemma {:induction false} OldPlace(ops: seq<DiffOp>, i: nat, top: nat) returns (q: nat)
    requires top <= |ops| && i < OldAt(ops, top)
    ensures q < top && !ops[q].Insert? && OldAt(ops, q) == i
    decreases top
  {
    hide OldAt;
    AtZero(ops);
    AtNext(ops, top - 1);
    if i < OldAt(ops, top - 1) {
      q := OldPlace(ops, i, top - 1);
    } else {
      q := top - 1;
    }
  }

  /** The entry that makes up word `n` of the new text. */
  function PlaceOf(ops: seq<DiffOp>, n: nat, top: nat): (q: nat)
    requires top <= |ops| && n < NewAt(ops, top)
    ensures q < top && !ops[q].Delete? && NewAt(ops, q) == n
    decreases top
  {
    AtZero(ops);
    AtNext(ops, top - 1);
    if n < NewAt(ops, top - 1) then PlaceOf(ops, n, top - 1) else top - 1
  }

  function EntryFor(ops: seq<DiffOp>, n: nat): (q: nat)
    requires n < |New(ops)|
    ensures q < |ops| && !ops[q].Delete? && NewAt(ops, q) == n
  {
    AtZero(ops);
    PlaceOf(ops, n, |ops|)
  }

  /** Two entries with the same place in the new text are the same. */
  lemma NewPlaceOnce(ops: seq<DiffOp>, q: nat, r: nat)
    requires q < |ops| && r < |ops| && !ops[q].Delete? && !ops[r].Delete? && NewAt(ops, q) == NewAt(ops, r)
    ensures q == r
  {
    hide NewAt;
    AtNext(ops, q);
    AtNext(ops, r);
    if q < r { AtGrows(ops, q + 1, r); }
    if r < q { AtGrows(ops, r + 1, q); }
  }

  lemma OldPlaceOnce(ops: seq<DiffOp>, q: nat, r: nat)
    requires q < |ops| && r < |ops| && !ops[q].Insert? && !ops[r].Insert? && OldAt(ops, q) == OldAt(ops, r)
    ensures q == r
  {
    hide OldAt;
    AtNext(ops, q);
    AtNext(ops, r);
    if q < r { AtGrows(ops, q + 1, r); }
    if r < q { AtGrows(ops, r + 1, q); }
  }

  // ----- which entries are used up -----

  /** A later entry of the same value makes up one of the first `n` words. */
  ghost predicate Used(ops: seq<DiffOp>, q: nat, n: nat)
    requires q < |ops|
  {
    exists r :: q <= r < |ops| && ops[r].value == ops[q].value && !ops[r].Delete? && NewAt(ops, r) < n
  }

  /** In the scan for word `n`, whose entry is `at`: also the entries of its value passed. */
  ghost predicate UsedAlso(ops: seq<DiffOp>, q: nat, n: nat, word: string, pos: nat)
    requires q < |ops|
  {
    Used(ops, q, n) || (q < pos && ops[q].value == word)
  }

  lemma UsedNext(ops: seq<DiffOp>, q: nat, at: nat)
    requires q < |ops| && at < |ops| && !ops[at].Delete?
    ensures Used(ops, q, NewAt(ops, at) + 1) <==> UsedAlso(ops, q, NewAt(ops, at), ops[at].value, at + 1)
  {
    hide NewAt;
    var n := NewAt(ops, at);
    if Used(ops, q, n + 1) && !Used(ops, q, n) {
      var r :| q <= r < |ops| && ops[r].value == ops[q].value && !ops[r].Delete? && NewAt(ops, r) < n + 1;
      NewPlaceOnce(ops, r, at);
    }
  }

  /** The entry of a word is not used before the word's turn. */
  lemma NotUsedYet(ops: seq<DiffOp>, at: nat)
    requires at < |ops| && !ops[at].Delete?
    ensures !Used(ops, at, NewAt(ops, at))
  {
    hide NewAt;
    forall r | at <= r < |ops| ensures NewAt(ops, r) >= NewAt(ops, at) { AtGrows(ops, at, r); }
  }

  /** Before it, an entry of the same value that is not used is a deletion. */
  lemma PassedIsDelete(ops: seq<DiffOp>, q: nat, at: nat)
    requires q < at < |ops| && !ops[at].Delete? && !Used(ops, q, NewAt(ops, at))
    ensures ops[q].Delete?
  {
    hide NewAt;
    if !ops[q].Delete? {
      AtNext(ops, q);
      AtGrows(ops, q + 1, at);
    }
  }

  // ----- the invariant -----

  /** The fixed surroundings: the transcript, the previous words, the tokens matched before
      and how many tokens there were. */
  datatype Track = Track(ops: seq<DiffOp>, pw: PrevWords, matched: set<TokenId>, base: nat)

  ghost predicate TrackOk(tr: Track) {
    && Old(tr.ops) == tr.pw.values && |tr.pw.ids| == |tr.pw.values| && NoDup(tr.pw.ids)
    && (forall t :: t in tr.pw.ids ==> t !in tr.matched && t < tr.base)
  }

  ghost predicate EntryAs(tr: Track, w: WordState, q: nat, used: bool)
    requires q < |tr.ops| && |w.entries| == |tr.ops| && |Old(tr.ops)| == |tr.pw.ids|
  {
    && w.entries[q] == DiffEntry(tr.ops[q], used)
    && (!tr.ops[q].Insert? ==>
          && OldAt(tr.ops, q) < |tr.pw.ids|
          && (tr.pw.ids[OldAt(tr.ops, q)] in w.matched <==> used))
  }

  ghost predicate EntryOk(tr: Track, n: nat, word: string, pos: nat, w: WordState, q: nat)
    requires q < |tr.ops| && |w.entries| == |tr.ops| && |Old(tr.ops)| == |tr.pw.ids|
  {
    EntryAs(tr, w, q, UsedAlso(tr.ops, q, n, word, pos))
  }

  /** The state in the scan for word `n` at `pos`; between scans `pos` is 0. */
  ghost predicate TrackInv(tr: Track, n: nat, word: string, pos: nat, w: WordState) {
    && |w.entries| == |tr.ops| && |Old(tr.ops)| == |tr.pw.ids|
    && (forall q :: 0 <= q < |tr.ops| ==> EntryOk(tr, n, word, pos, w, q))
    && (forall t :: t !in tr.pw.ids ==> (t in w.matched <==> t in tr.matched))
  }

  /** An unused entry of an old word finds that very word. */
  lemma FindsOwn(tr: Track, n: nat, word: string, pos: nat, w: WordState)
    requires TrackOk(tr) && TrackInv(tr, n, word, pos, w)
    requires pos < |tr.ops| && !tr.ops[pos].Insert? && tr.ops[pos].value == word && !UsedAlso(tr.ops, pos, n, word, pos)
    ensures OldAt(tr.ops, pos) < |tr.pw.ids|
    ensures FindUnmatchedPrev(tr.pw, word, w.matched, 0) == Some(OldAt(tr.ops, pos))
  {
    hide Old, Used, OldAt, NoDup;
    var own := OldAt(tr.ops, pos);
    AtValues(tr.ops, pos);
    assert EntryOk(tr, n, word, pos, w, pos);
    forall i | 0 <= i < own && tr.pw.values[i] == word ensures tr.pw.ids[i] in w.matched {
      var q := OldPlace(tr.ops, i, pos);
      AtValues(tr.ops, q);
      assert EntryOk(tr, n, word, pos, w, q);
    }
    FirstIsFound(tr.pw, word, w.matched, 0, own);
  }

  lemma {:induction false} FirstIsFound(pw: PrevWords, word: string, matched: set<TokenId>, i: nat, own: nat)
    requires |pw.ids| == |pw.values| && i <= own < |pw.ids| && pw.values[own] == word && pw.ids[own] !in matched
    requires forall k :: i <= k < own && pw.values[k] == word ==> pw.ids[k] in matched
    ensures FindUnmatchedPrev(pw, word, matched, i) == Some(own)
    decreases own - i
  {
    if i < own {
      FirstIsFound(pw, word, matched, i + 1, own);
    }
  }

  /** Passing an entry that is used or of another value changes nothing. */
  lemma PassOver(tr: Track, n: nat, word: string, pos: nat, w: WordState)
    requires TrackInv(tr, n, word, pos, w) && pos < |tr.ops|
    requires tr.ops[pos].value != word || Used(tr.ops, pos, n)
    ensures TrackInv(tr, n, word, pos + 1, w)
  {
    hide Used, Old, OldAt;
    var after := pos + 1;
    forall q | 0 <= q < |tr.ops| ensures EntryOk(tr, n, word, after, w, q) {
      assert UsedAlso(tr.ops, q, n, word, pos + 1) <==> UsedAlso(tr.ops, q, n, word, pos);
      assert EntryOk(tr, n, word, pos, w, q);
    }
  }

  /** Using an entry up, and with it the old word it stands for. */
  lemma UseUp(tr: Track, n: nat, word: string, pos: nat, w: WordState, w': WordState)
    requires TrackOk(tr) && TrackInv(tr, n, word, pos, w) && pos < |tr.ops| && tr.ops[pos].value == word
    requires w'.entries == w.entries[pos := w.entries[pos].(consumed := true)]
    requires !tr.ops[pos].Insert? ==>
      OldAt(tr.ops, pos) < |tr.pw.ids| && w'.matched == w.matched + {tr.pw.ids[OldAt(tr.ops, pos)]}
    requires tr.ops[pos].Insert? ==> w'.matched == w.matched
    ensures TrackInv(tr, n, word, pos + 1, w')
  {
    hide Used, Old, OldAt;
    var after := pos + 1;
    forall q | 0 <= q < |tr.ops| ensures EntryOk(tr, n, word, after, w', q) {
      assert EntryOk(tr, n, word, pos, w, q);
      if q != pos && !tr.ops[q].Insert? && !tr.ops[pos].Insert? {
        if OldAt(tr.ops, q) == OldAt(tr.ops, pos) { OldPlaceOnce(tr.ops, q, pos); }
      }
    }
    if !tr.ops[pos].Insert? {
      assert tr.pw.ids[OldAt(tr.ops, pos)] in tr.pw.ids;
    }
  }

  /** The next word begins with the entry of this one used. */
  lemma NextWord(tr: Track, at: nat, w: WordState, next: string)
    requires at < |tr.ops| && !tr.ops[at].Delete?
    requires TrackInv(tr, NewAt(tr.ops, at), tr.ops[at].value, at + 1, w)
    ensures TrackInv(tr, NewAt(tr.ops, at) + 1, next, 0, w)
  {
    hide Used, Old, OldAt, NewAt;
    var n := NewAt(tr.ops, at) + 1;
    forall q | 0 <= q < |tr.ops| ensures EntryOk(tr, n, next, 0, w, q) {
      UsedNext(tr.ops, q, at);
      assert EntryOk(tr, NewAt(tr.ops, at), tr.ops[at].value, at + 1, w, q);
    }
  }

  // ----- one word -----

  /** What placing one token in sentence `sid` leaves: the token at the end of the sentence,
      the other sentences as they were, and one new token if `added`. */
  ghost predicate PlacedOne(w: WordState, r: WordState, sid: SentenceId, t: TokenId, added: bool) {
    && |r.arenas.sentences| == |w.arenas.sentences| && sid < |w.arenas.sentences|
    && (forall i :: 0 <= i < |w.arenas.sentences| && i != sid ==> r.arenas.sentences[i] == w.arenas.sentences[i])
    && r.arenas.sentences[sid] == w.arenas.sentences[sid].(words := w.arenas.sentences[sid].words + [t])
    && r.arenas.paragraphs == w.arenas.paragraphs
    && r.originalAdds == w.originalAdds + (if added then 1 else 0)
    && r.arenas.nextTokenId == w.arenas.nextTokenId + (if added then 1 else 0)
  }

  lemma {:induction false} ScanFollows(tr: Track, rev: RevId, sid: SentenceId, at: nat, pos: nat, w: WordState)
    requires TrackOk(tr) && at < |tr.ops| && !tr.ops[at].Delete? && pos <= at
    requires TrackInv(tr, NewAt(tr.ops, at), tr.ops[at].value, pos, w) && sid < |w.arenas.sentences|
    requires tr.ops[at].Insert? ==> w.arenas.nextTokenId == Asked(tr.ops, tr.pw.ids, tr.base, at)
    ensures var (r, found) := ScanDiff(tr.pw, rev, sid, tr.ops[at].value, pos, w);
      && found && PlacedOne(w, r, sid, Asked(tr.ops, tr.pw.ids, tr.base, at), tr.ops[at].Insert?)
      && TrackInv(tr, NewAt(tr.ops, at), tr.ops[at].value, at + 1, r)
    decreases at - pos
  {
    hide Used, OldAt, NewAt, KeepAt, Old, TrackOk;
    var n, word := NewAt(tr.ops, at), tr.ops[at].value;
    assert EntryOk(tr, n, word, pos, w, pos);
    if tr.ops[pos].value != word || Used(tr.ops, pos, n) {
      NotUsedYet(tr.ops, at);
      PassOver(tr, n, word, pos, w);
      ScanFollows(tr, rev, sid, at, pos + 1, w);
    } else {
      var used := w.entries[pos := w.entries[pos].(consumed := true)];
      if pos < at { PassedIsDelete(tr.ops, pos, at); }
      if tr.ops[pos].Insert? {
        UseUp(tr, n, word, pos, w, AddFreshWord(sid, word, rev, w).(entries := used));
      } else {
        FindsOwn(tr, n, word, pos, w);
        var wid := tr.pw.ids[OldAt(tr.ops, pos)];
        if tr.ops[pos].Keep? {
          UseUp(tr, n, word, pos, w, w.(arenas := PushWord(w.arenas, sid, wid), matched := w.matched + {wid},
              entries := used));
        } else {
          var w' := w.(arenas := PushOutbound(w.arenas, wid, rev), matched := w.matched + {wid}, entries := used);
          UseUp(tr, n, word, pos, w, w');
          ScanFollows(tr, rev, sid, at, pos + 1, w');
        }
      }
    }
  }

  // ----- how many are kept -----

  /** How many of the first `n` words are kept ones. */
  function KeptBefore(ops: seq<DiffOp>, n: nat): nat
    requires n <= |New(ops)|
  {
    if n < |New(ops)| then KeepAt(ops, EntryFor(ops, n)) else Keeps(ops)
  }

  /** Between two entries with the same place in the new text there are only deletions. */
  lemma {:induction false} SameKeeps(ops: seq<DiffOp>, q: nat, r: nat)
    requires q <= r <= |ops| && NewAt(ops, q) == NewAt(ops, r)
    ensures KeepAt(ops, q) == KeepAt(ops, r)
    decreases r
  {
    hide NewAt, KeepAt;
    if q < r {
      AtNext(ops, r - 1);
      AtGrows(ops, q, r - 1);
      SameKeeps(ops, q, r - 1);
    }
  }

  lemma KeptAtCut(ops: seq<DiffOp>, q: nat)
    requires q <= |ops|
    ensures NewAt(ops, q) <= |New(ops)| && KeptBefore(ops, NewAt(ops, q)) == KeepAt(ops, q)
  {
    hide NewAt, KeepAt, New, Keeps;
    AtZero(ops);
    AtGrows(ops, q, |ops|);
    var n := NewAt(ops, q);
    if n < |New(ops)| {
      var at := EntryFor(ops, n);
      if at < q {
        AtNext(ops, at);
        AtGrows(ops, at + 1, q);
      }
      SameKeeps(ops, q, at);
    } else {
      SameKeeps(ops, q, |ops|);
    }
  }

  lemma KeptNext(ops: seq<DiffOp>, n: nat)
    requires n < |New(ops)|
    ensures KeptBefore(ops, n + 1) == KeptBefore(ops, n) + if ops[EntryFor(ops, n)].Keep? then 1 else 0
  {
    hide NewAt, KeepAt, New, Keeps, KeptBefore;
    var at := EntryFor(ops, n);
    AtNext(ops, at);
    KeptAtCut(ops, at);
    KeptAtCut(ops, at + 1);
  }

  lemma KeptNone(ops: seq<DiffOp>)
    ensures KeptBefore(ops, 0) == 0 && KeptBefore(ops, |New(ops)|) == Keeps(ops)
  {
    hide NewAt, KeepAt, New, Keeps, KeptBefore;
    AtZero(ops);
    KeptAtCut(ops, 0);
    KeptAtCut(ops, |ops|);
  }

  lemma AtTail(ops: seq<DiffOp>, q: nat)
    requires 0 < q <= |ops|
    ensures OldAt(ops, q) == OldAt(ops[1..], q - 1) + if ops[0].Insert? then 0 else 1
    ensures NewAt(ops, q) == NewAt(ops[1..], q - 1) + if ops[0].Delete? then 0 else 1
    ensures KeepAt(ops, q) == KeepAt(ops[1..], q - 1) + if ops[0].Keep? then 1 else 0
  {
    hide Old, New, Keeps;
    assert ops[..q] == [ops[0]] + ops[1..][..q - 1];
    ScriptAppend([ops[0]], ops[1..][..q - 1]);
    ScriptOne(ops[0]);
  }

  lemma FollowedHead(ops: seq<DiffOp>, ids: seq<TokenId>, next: TokenId)
    requires |ids| == |Old(ops)| && ops != []
    ensures if ops[0].Insert? then
              && |ids| == |Old(ops[1..])|
              && Followed(ops, ids, next) == [next] + Followed(ops[1..], ids, next + 1)
            else
              && |ids| == |Old(ops[1..])| + 1
              && Followed(ops, ids, next)
                 == (if ops[0].Keep? then [ids[0]] else []) + Followed(ops[1..], ids[1..], next)
  {
  }

  /** What the entries ask for is, in order, the sequence the transcript stands for. */
  lemma {:induction false} FollowedAt(ops: seq<DiffOp>, ids: seq<TokenId>, next: TokenId, q: nat)
    requires |ids| == |Old(ops)| && q < |ops| && !ops[q].Delete?
    ensures NewAt(ops, q) < |New(ops)| && Followed(ops, ids, next)[NewAt(ops, q)] == Asked(ops, ids, next, q)
    decreases |ops|
  {
    hide Old, New, Keeps, Followed, OldAt, NewAt, KeepAt;
    AtValues(ops, q);
    AtZero(ops);
    FollowedHead(ops, ids, next);
    KeepsAreNew(ops[..q]);
    if q > 0 {
      AtTail(ops, q);
      AtValues(ops[1..], q - 1);
      FollowedAt(ops[1..], if ops[0].Insert? then ids else ids[1..], if ops[0].Insert? then next + 1 else next, q - 1);
    }
  }

  // ----- a word, a sentence, all sentences -----

  /** The state before word `n`. Without previous words there is no transcript to scan. */
  ghost predicate Tracked(tr: Track, n: nat, w: WordState) {
    && TrackOk(tr) && n <= |New(tr.ops)|
    && w.arenas.nextTokenId + KeptBefore(tr.ops, n) == tr.base + n
    && (if tr.pw.ids == [] then w.entries == [] && w.matched == tr.matched else TrackInv(tr, n, "", 0, w))
  }

  function Target(tr: Track): (r: seq<TokenId>)
    requires |tr.pw.ids| == |Old(tr.ops)|
    ensures |r| == |New(tr.ops)|
  {
    Followed(tr.ops, tr.pw.ids, tr.base)
  }

  lemma AnyWord(tr: Track, n: nat, word: string, next: string, w: WordState)
    requires TrackInv(tr, n, word, 0, w)
    ensures TrackInv(tr, n, next, 0, w)
  {
    hide Used, Old, OldAt;
    forall q | 0 <= q < |tr.ops| ensures EntryOk(tr, n, next, 0, w, q) {
      assert EntryOk(tr, n, word, 0, w, q);
    }
  }

  lemma NoEntry(pw: PrevWords, rev: RevId, sid: SentenceId, word: string, w: WordState)
    requires w.entries == []
    ensures WordStep(pw, rev, sid, word, w) == AddFreshWord(sid, word, rev, w)
  {
  }

  lemma WordFollows(tr: Track, rev: RevId, n: nat, sid: SentenceId, w: WordState)
    requires Tracked(tr, n, w) && n < |New(tr.ops)| && sid < |w.arenas.sentences|
    ensures var r := WordStep(tr.pw, rev, sid, New(tr.ops)[n], w);
      && PlacedOne(w, r, sid, Target(tr)[n], !tr.ops[EntryFor(tr.ops, n)].Keep?)
      && Tracked(tr, n + 1, r)
  {
    hide Old, New, Keeps, OldAt, NewAt, KeepAt, KeptBefore, Followed, TrackInv, ScanDiff, AddFreshWord, Used;
    var at, word := EntryFor(tr.ops, n), New(tr.ops)[n];
    AtValues(tr.ops, at);
    FollowedAt(tr.ops, tr.pw.ids, tr.base, at);
    KeptNext(tr.ops, n);
    KeptAtCut(tr.ops, at);
    KeepsAreNew(tr.ops[..at]);
    if tr.pw.ids == [] {
      NoEntry(tr.pw, rev, sid, word, w);
      FreshPlaced(w, sid, word, rev);
    } else {
      AnyWord(tr, n, "", word, w);
      ScanFollows(tr, rev, sid, at, 0, w);
      var (r, _) := ScanDiff(tr.pw, rev, sid, word, 0, w);
      NextWord(tr, at, r, "");
    }
  }

  lemma FreshPlaced(w: WordState, sid: SentenceId, word: string, rev: RevId)
    requires sid < |w.arenas.sentences|
    ensures var r := AddFreshWord(sid, word, rev, w);
      PlacedOne(w, r, sid, w.arenas.nextTokenId, true) && r.entries == w.entries && r.matched == w.matched
  {
  }

  /** Sentence `sid` has got these tokens, and nothing else has changed in any sentence. */
  ghost predicate PlacedMany(w: WordState, r: WordState, sid: SentenceId, ts: seq<TokenId>) {
    && |r.arenas.sentences| == |w.arenas.sentences| && sid < |w.arenas.sentences|
    && (forall i :: 0 <= i < |w.arenas.sentences| && i != sid ==> r.arenas.sentences[i] == w.arenas.sentences[i])
    && r.arenas.sentences[sid] == w.arenas.sentences[sid].(words := w.arenas.sentences[sid].words + ts)
    && r.arenas.paragraphs == w.arenas.paragraphs
    && r.originalAdds + w.arenas.nextTokenId == w.originalAdds + r.arenas.nextTokenId
  }

  lemma PlacedThen(w: WordState, v: WordState, r: WordState, sid: SentenceId, t: TokenId, added: bool, ts: seq<TokenId>)
    requires PlacedOne(w, v, sid, t, added) && PlacedMany(v, r, sid, ts)
    ensures PlacedMany(w, r, sid, [t] + ts)
  {
    assert w.arenas.sentences[sid].words + [t] + ts == w.arenas.sentences[sid].words + ([t] + ts);
  }

  lemma PlacedNone(w: WordState, sid: SentenceId)
    requires sid < |w.arenas.sentences|
    ensures PlacedMany(w, w, sid, [])
  {
  }

  lemma {:induction false} WordsFollow(tr: Track, rev: RevId, n: nat, sid: SentenceId, words: seq<string>, w: WordState)
    requires Tracked(tr, n, w) && sid < |w.arenas.sentences|
    requires n + |words| <= |New(tr.ops)| && New(tr.ops)[n..n + |words|] == words
    ensures var r := WordLoop(tr.pw, rev, sid, words, w);
      PlacedMany(w, r, sid, Target(tr)[n..n + |words|]) && Tracked(tr, n + |words|, r)
    decreases |words|
  {
    hide Old, New, Tracked, PlacedOne, PlacedMany, WordStep, Followed, EntryFor;
    TrackedOk(tr, n, w);
    var target := Target(tr);
    if words == [] {
      assert target[n..n] == [];
      PlacedNone(w, sid);
    } else {
      var rest := words[1..];
      assert words[0] == New(tr.ops)[n] && New(tr.ops)[n + 1..n + 1 + |rest|] == rest;
      WordFollows(tr, rev, n, sid, w);
      var v := WordStep(tr.pw, rev, sid, words[0], w);
      PlacedSid(w, v, sid, target[n], !tr.ops[EntryFor(tr.ops, n)].Keep?);
      WordsFollow(tr, rev, n + 1, sid, rest, v);
      assert target[n..n + |words|] == [target[n]] + target[n + 1..n + 1 + |rest|];
      PlacedThen(w, v, WordLoop(tr.pw, rev, sid, rest, v), sid, target[n], !tr.ops[EntryFor(tr.ops, n)].Keep?,
          target[n + 1..n + 1 + |rest|]);
    }
  }

  lemma TrackedOk(tr: Track, n: nat, w: WordState)
    requires Tracked(tr, n, w)
    ensures |tr.pw.ids| == |Old(tr.ops)| && n <= |New(tr.ops)|
  {
  }

  lemma PlacedSid(w: WordState, v: WordState, sid: SentenceId, t: TokenId, added: bool)
    requires PlacedOne(w, v, sid, t, added)
    ensures sid < |v.arenas.sentences|
  {
  }

  ghost predicate SameTexts(old_: seq<Sentence>, now: seq<Sentence>) {
    |now| == |old_|
    && forall i :: 0 <= i < |old_| ==> now[i].value == old_[i].value && now[i].hashValue == old_[i].hashValue
  }

  /** Only these sentences have changed, and only in their words. */
  ghost predicate FilledOnly(w: WordState, r: WordState, sids: seq<SentenceId>) {
    && |r.arenas.sentences| == |w.arenas.sentences|
    && (forall i :: 0 <= i < |w.arenas.sentences| && i !in sids ==> r.arenas.sentences[i] == w.arenas.sentences[i])
    && SameTexts(w.arenas.sentences, r.arenas.sentences)
    && r.arenas.paragraphs == w.arenas.paragraphs
    && r.originalAdds + w.arenas.nextTokenId == w.originalAdds + r.arenas.nextTokenId
  }

  lemma {:induction false} SameText(a: Arenas, b: Arenas, sids: seq<SentenceId>)
    requires |a.sentences| == |b.sentences|
    requires forall i :: 0 <= i < |a.sentences| && i in sids ==> b.sentences[i].value == a.sentences[i].value
    ensures CurrText(b, sids) == CurrText(a, sids)
  {
    hide SplitSpace;
    if sids != [] {
      assert sids[0] in sids && forall i :: i in sids[1..] ==> i in sids;
      SameText(a, b, sids[1..]);
    }
  }

  lemma Sliced<T>(s: seq<T>, n: nat, x: seq<T>, y: seq<T>)
    requires n <= |s| && s[n..] == x + y
    ensures var k := n + |x|; k <= |s| && s[n..k] == x && s[k..] == y
  {
    assert |s| - n == |x| + |y|;
    assert s[n..n + |x|] == s[n..][..|x|] && s[n + |x|..] == s[n..][|x|..];
  }

  lemma TwoSlices<T>(s: seq<T>, n: nat, k: nat)
    requires n <= k <= |s|
    ensures s[n..] == s[n..k] + s[k..]
  {
  }

  lemma NoText(a: Arenas)
    ensures CurrText(a, []) == [] && FlatWords(a.sentences, []) == []
  {
  }

  lemma TextHead(a: Arenas, sids: seq<SentenceId>)
    requires sids != []
    ensures CurrText(a, sids) == SplitSpace(SentenceValue(a, sids[0])) + CurrText(a, sids[1..])
  {
  }

  /** The first sentence is filled and the rest left as they were. */
  lemma FirstFilled(w: WordState, v: WordState, sid: SentenceId, ts: seq<TokenId>, rest: seq<SentenceId>)
    requires PlacedMany(w, v, sid, ts) && sid !in rest && w.arenas.sentences[sid].words == []
    requires forall x :: x in rest ==> x < |w.arenas.sentences| && w.arenas.sentences[x].words == []
    ensures forall x :: x in rest ==> x < |v.arenas.sentences| && v.arenas.sentences[x].words == []
    ensures CurrText(v.arenas, rest) == CurrText(w.arenas, rest)
    ensures WordsOf(v.arenas.sentences, sid) == ts && FilledOnly(w, v, [sid])
  {
    SameText(w.arenas, v.arenas, rest);
    assert [] + ts == ts;
  }

  lemma FilledThen(w: WordState, v: WordState, r: WordState, sid: SentenceId, rest: seq<SentenceId>)
    requires FilledOnly(w, v, [sid]) && FilledOnly(v, r, rest) && sid !in rest
    ensures FilledOnly(w, r, [sid] + rest)
    ensures WordsOf(r.arenas.sentences, sid) == WordsOf(v.arenas.sentences, sid)
  {
  }

  lemma FilledNone(w: WordState)
    ensures FilledOnly(w, w, [])
  {
  }

  lemma FlatHead(sentences: seq<Sentence>, sid: SentenceId, rest: seq<SentenceId>)
    ensures FlatWords(sentences, [sid] + rest) == WordsOf(sentences, sid) + FlatWords(sentences, rest)
  {
    assert ([sid] + rest)[1..] == rest;
  }

  lemma LoopsHead(pw: PrevWords, rev: RevId, sids: seq<SentenceId>, w: WordState)
    ensures WordLoops(pw, rev, sids, w)
         == if sids == [] then w
            else WordLoops(pw, rev, sids[1..],
                           WordLoop(pw, rev, sids[0], SplitSpace(SentenceValue(w.arenas, sids[0])), w))
  {
  }

  lemma {:induction false} SentencesFollow(tr: Track, rev: RevId, n: nat, sids: seq<SentenceId>, w: WordState)
    requires Tracked(tr, n, w) && NoDup(sids)
    requires forall sid :: sid in sids ==> sid < |w.arenas.sentences| && w.arenas.sentences[sid].words == []
    requires New(tr.ops)[n..] == CurrText(w.arenas, sids)
    ensures var r := WordLoops(tr.pw, rev, sids, w);
      && FilledOnly(w, r, sids) && Tracked(tr, |New(tr.ops)|, r)
      && FlatWords(r.arenas.sentences, sids) == Target(tr)[n..]
    decreases |sids|
  {
    hide Old, New, Tracked, WordLoop, WordLoops, Followed, SplitSpace, PlacedMany, FilledOnly, CurrText, WordsOf,
      FlatWords, SentenceValue;
    TrackedOk(tr, n, w);
    LoopsHead(tr.pw, rev, sids, w);
    var target, new_ := Target(tr), New(tr.ops);
    if sids == [] {
      NoText(w.arenas);
      assert n == |new_|;
      NoText(WordLoops(tr.pw, rev, sids, w).arenas);
      FilledNone(w);
    } else {
      var sid, rest := sids[0], sids[1..];
      assert sid in sids && (forall x :: x in rest ==> x in sids) && sid !in rest && sids == [sid] + rest;
      var words := SplitSpace(SentenceValue(w.arenas, sid));
      var k := n + |words|;
      TextHead(w.arenas, sids);
      Sliced(new_, n, words, CurrText(w.arenas, rest));
      WordsFollow(tr, rev, n, sid, words, w);
      var v := WordLoop(tr.pw, rev, sid, words, w);
      FirstFilled(w, v, sid, target[n..k], rest);
      SentencesFollow(tr, rev, k, rest, v);
      var r := WordLoops(tr.pw, rev, rest, v);
      FilledThen(w, v, r, sid, rest);
      FlatHead(r.arenas.sentences, sid, rest);
      TwoSlices(target, n, k);
    }
  }

  // ----- the token level -----

  lemma {:induction false} EntriesAre(ops: seq<DiffOp>)
    ensures |Entries(ops)| == |ops| && forall q :: 0 <= q < |ops| ==> Entries(ops)[q] == DiffEntry(ops[q], false)
  {
    if ops != [] { EntriesAre(ops[1..]); }
  }

  lemma TrackStarts(tr: Track, w: WordState)
    requires TrackOk(tr) && w.matched == tr.matched && w.arenas.nextTokenId == tr.base
    requires w.entries == if tr.pw.ids == [] then [] else Entries(tr.ops)
    ensures Tracked(tr, 0, w)
  {
    hide Old, OldAt, NewAt, New, Keeps, KeptBefore;
    KeptNone(tr.ops);
    EntriesAre(tr.ops);
    if tr.pw.ids != [] {
      forall q | 0 <= q < |tr.ops| ensures EntryOk(tr, 0, "", 0, w, q) {
        AtValues(tr.ops, q);
        assert !Used(tr.ops, q, 0);
        if !tr.ops[q].Insert? { assert tr.pw.ids[OldAt(tr.ops, q)] in tr.pw.ids; }
      }
    }
  }

  lemma AddsAreRest(tr: Track, w: WordState, r: WordState)
    requires Tracked(tr, 0, w) && Tracked(tr, |New(tr.ops)|, r)
    requires r.originalAdds + w.arenas.nextTokenId == w.originalAdds + r.arenas.nextTokenId
    ensures r.originalAdds + Keeps(tr.ops) == w.originalAdds + |New(tr.ops)|
  {
    hide New, Keeps, KeptBefore, TrackInv, TrackOk;
    KeptNone(tr.ops);
  }

  lemma NothingFollows(ops: seq<DiffOp>, ids: seq<TokenId>, next: TokenId)
    requires New(ops) == [] && |ids| == |Old(ops)|
    ensures Followed(ops, ids, next) == [] && Keeps(ops) == 0
  {
    KeepsAreNew(ops);
  }

  lemma {:induction false} UnmatchedNoDup(ids: seq<TokenId>, matched: set<TokenId>)
    requires NoDup(ids)
    ensures NoDup(Unmatched(ids, matched)) && forall t :: t in Unmatched(ids, matched) <==> t in ids && t !in matched
  {
    if ids != [] {
      var rest := ids[1..];
      assert forall i, j :: 0 <= i < j < |rest| ==> rest[i] == ids[i + 1] && rest[j] == ids[j + 1];
      UnmatchedNoDup(rest, matched);
      assert ids[0] !in rest;
    }
  }

  /** The words of the filled sentences spell their texts. */
  lemma {:induction false} FilledSpells(a: Arenas, b: Arenas, sids: seq<SentenceId>)
    requires forall sid :: sid in sids ==> Filled(b, sid, SplitSpace(SentenceValue(a, sid)))
    ensures Values(b.tokens, FlatWords(b.sentences, sids)) == CurrText(a, sids)
  {
    hide SplitSpace;
    if sids != [] {
      var sid, rest := sids[0], sids[1..];
      assert sid in sids && forall x :: x in rest ==> x in sids;
      FilledSpells(a, b, rest);
      ValuesAppend(b.tokens, WordsOf(b.sentences, sid), FlatWords(b.sentences, rest));
      FilledValues(b, sid, SplitSpace(SentenceValue(a, sid)));
    }
  }

  lemma FilledValues(b: Arenas, sid: SentenceId, parts: seq<string>)
    requires Filled(b, sid, parts)
    ensures Values(b.tokens, WordsOf(b.sentences, sid)) == parts
  {
    var words := WordsOf(b.sentences, sid);
    forall k | 0 <= k < |parts| ensures words[k] < |b.tokens| && b.tokens[words[k]].value == parts[k] {
      assert HasWord(b, sid, k, parts[k]);
    }
    ValuesPointwise(b.tokens, words);
  }

  lemma ValuesKnown(a: Arenas, ids: seq<TokenId>)
    requires forall t :: t in ids ==> t < |a.tokens|
    ensures PrevValuesOk(PrevWords(ids, Values(a.tokens, ids)), a)
  {
    forall i | 0 <= i < |ids| ensures ids[i] < |a.tokens| { assert ids[i] in ids; }
    ValuesPointwise(a.tokens, ids);
  }

  lemma {:induction false} NoWordsYet(sentences: seq<Sentence>, sids: seq<SentenceId>)
    requires forall sid :: sid in sids ==> WordsOf(sentences, sid) == []
    ensures FlatWords(sentences, sids) == []
  {
    if sids != [] { NoWordsYet(sentences, sids[1..]); }
  }

  /** Unless it gives up, the token level puts into the sentences of the new text exactly the
      tokens that the transcript of the two texts stands for: each kept entry's own previous
      token, a new one for each inserted word. So what is kept is not added. */
  lemma TokensFollow(a: Arenas, rev: RevId, unmatchedCurr: seq<SentenceId>, unmatchedPrev: seq<SentenceId>,
      possible: bool, matched: set<TokenId>)
    requires TokensNumbered(a) && NoDup(unmatchedCurr) && NoDup(FlatWords(a.sentences, unmatchedPrev))
    requires forall sid :: sid in unmatchedCurr ==> sid < |a.sentences| && a.sentences[sid].words == []
    requires forall t :: t in FlatWords(a.sentences, unmatchedPrev) ==> t < |a.tokens|
    ensures var r := AnalyseWords(a, rev, unmatchedCurr, unmatchedPrev, possible, matched);
      var ids := Unmatched(FlatWords(a.sentences, unmatchedPrev), matched);
      var text := CurrText(a, unmatchedCurr);
      var ops := Compare(Values(a.tokens, ids), text);
      |ids| == |Old(ops)| && (!r.vandalism ==>
        && FlatWords(r.arenas.sentences, unmatchedCurr) == Followed(ops, ids, |a.tokens|)
        && Values(r.arenas.tokens, FlatWords(r.arenas.sentences, unmatchedCurr)) == text
        && r.originalAdds + Keeps(ops) == |text|
        && r.arenas.paragraphs == a.paragraphs && SameTexts(a.sentences, r.arenas.sentences)
        && forall i :: 0 <= i < |a.sentences| && i !in unmatchedCurr ==> r.arenas.sentences[i] == a.sentences[i])
  {
    hide Old, New, Keeps, Followed, Compare, CurrText, FlatWords, Unmatched, Values, WordLoops, Tracked, AvgWordFreq,
      NoDup, Filled;
    var ids := Unmatched(FlatWords(a.sentences, unmatchedPrev), matched);
    var text, values := CurrText(a, unmatchedCurr), Values(a.tokens, ids);
    var ops := Compare(values, text);
    UnmatchedNoDup(FlatWords(a.sentences, unmatchedPrev), matched);
    ValuesKnown(a, ids);
    CompareSpells(values, text);
    var r := AnalyseWords(a, rev, unmatchedCurr, unmatchedPrev, possible, matched);
    if text == [] {
      NothingFollows(ops, ids, |a.tokens|);
      NoWordsYet(a.sentences, unmatchedCurr);
      NoValues(a.tokens);
    } else if !r.vandalism {
      var tr := Track(ops, PrevWords(ids, values), matched, |a.tokens|);
      var w := WordState(a, 0, matched, if ids == [] then [] else Entries(ops));
      TrackStarts(tr, w);
      assert New(ops)[0..] == text;
      SentencesFollow(tr, rev, 0, unmatchedCurr, w);
      AddsAreRest(tr, w, WordLoops(tr.pw, rev, unmatchedCurr, w));
      assert Target(tr)[0..] == Target(tr);
      WordLoopsFill(tr.pw, rev, unmatchedCurr, w);
      FilledSpells(a, r.arenas, unmatchedCurr);
    }
  }

  lemma NoValues(tokens: seq<Word>)
    ensures Values(tokens, []) == []
  {
  }
}
