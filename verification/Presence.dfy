/** Presence histories: which stored revisions contained a token, in order, and what a
    token's record must be for such a history. */
module Presence {
  import opened Structures

  datatype Snapshot = Snapshot(rev: RevId, tokens: seq<TokenId>)

  ghost predicate Seen(snaps: seq<Snapshot>, t: TokenId) {
    exists i :: 0 <= i < |snaps| && t in snaps[i].tokens
  }

  function InLast(snaps: seq<Snapshot>, t: TokenId): bool {
    snaps != [] && t in snaps[|snaps| - 1].tokens
  }

  function LastRev(snaps: seq<Snapshot>): RevId {
    if snaps == [] then 0 else snaps[|snaps| - 1].rev
  }

  /** The revisions that dropped the token: present just before, absent here. */
  function ExpectedOut(snaps: seq<Snapshot>, t: TokenId): seq<RevId> {
    if snaps == [] then []
    else
      var before := snaps[..|snaps| - 1];
      ExpectedOut(before, t) + if InLast(before, t) && !InLast(snaps, t) then [LastRev(snaps)] else []
  }

  /** The revisions that brought it back: absent just before, present here, not the first. */
  ghost function ExpectedIn(snaps: seq<Snapshot>, t: TokenId): seq<RevId> {
    if snaps == [] then []
    else
      var before := snaps[..|snaps| - 1];
      ExpectedIn(before, t) + if Seen(before, t) && !InLast(before, t) && InLast(snaps, t) then [LastRev(snaps)] else []
  }

  ghost function FirstSeen(snaps: seq<Snapshot>, t: TokenId): RevId {
    if snaps == [] then 0
    else
      var before := snaps[..|snaps| - 1];
      if Seen(before, t) then FirstSeen(before, t) else LastRev(snaps)
  }

  function LastSeen(snaps: seq<Snapshot>, t: TokenId): RevId {
    if snaps == [] then 0
    else if InLast(snaps, t) then LastRev(snaps)
    else LastSeen(snaps[..|snaps| - 1], t)
  }

  /** The record a token with this history must carry. */
  ghost predicate RecordIs(snaps: seq<Snapshot>, t: TokenId, w: Word) {
    && Seen(snaps, t)
    && w.originRevId == FirstSeen(snaps, t)
    && w.lastRevId == LastSeen(snaps, t)
    && w.inbound == ExpectedIn(snaps, t)
    && w.outbound == ExpectedOut(snaps, t)
  }

  ghost predicate DistinctRevs(snaps: seq<Snapshot>) {
    forall i, j :: 0 <= i < j < |snaps| ==> snaps[i].rev != snaps[j].rev
  }

  lemma SeenSplits(snaps: seq<Snapshot>, t: TokenId)
    requires snaps != []
    ensures Seen(snaps, t) <==> Seen(snaps[..|snaps| - 1], t) || InLast(snaps, t)
  {
    var before := snaps[..|snaps| - 1];
    if Seen(snaps, t) {
      var i :| 0 <= i < |snaps| && t in snaps[i].tokens;
      assert i < |before| ==> before[i] == snaps[i];
    }
    if Seen(before, t) {
      var i :| 0 <= i < |before| && t in before[i].tokens;
      assert snaps[i] == before[i];
    }
  }

  lemma {:induction false} LastSeenIsStored(snaps: seq<Snapshot>, t: TokenId)
    requires Seen(snaps, t)
    ensures exists i :: 0 <= i < |snaps| && snaps[i].rev == LastSeen(snaps, t) && t in snaps[i].tokens
  {
    var n := |snaps| - 1;
    if InLast(snaps, t) {
      assert snaps[n].rev == LastSeen(snaps, t);
    } else {
      SeenSplits(snaps, t);
      LastSeenIsStored(snaps[..n], t);
      var i :| 0 <= i < n && snaps[..n][i].rev == LastSeen(snaps[..n], t) && t in snaps[..n][i].tokens;
      assert snaps[i] == snaps[..n][i];
    }
  }

  /** With distinct ids, the last-seen id is the newest one exactly for the tokens in it. */
  lemma LastSeenNewest(snaps: seq<Snapshot>, t: TokenId)
    requires snaps != [] && DistinctRevs(snaps) && Seen(snaps, t)
    ensures LastSeen(snaps, t) == LastRev(snaps) <==> InLast(snaps, t)
  {
    if !InLast(snaps, t) {
      var n := |snaps| - 1;
      SeenSplits(snaps, t);
      LastSeenIsStored(snaps[..n], t);
      var i :| 0 <= i < n && snaps[..n][i].rev == LastSeen(snaps[..n], t) && t in snaps[..n][i].tokens;
      assert snaps[i].rev != snaps[n].rev;
    }
  }

  lemma {:induction false} OutIsStored(snaps: seq<Snapshot>, t: TokenId, r: RevId)
    requires r in ExpectedOut(snaps, t)
    ensures exists i :: 0 <= i < |snaps| && snaps[i].rev == r
  {
    var n := |snaps| - 1;
    if r in ExpectedOut(snaps[..n], t) {
      OutIsStored(snaps[..n], t, r);
      var i :| 0 <= i < n && snaps[..n][i].rev == r;
      assert snaps[i].rev == r;
    } else {
      assert snaps[n].rev == r;
    }
  }

  lemma {:induction false} InIsStored(snaps: seq<Snapshot>, t: TokenId, r: RevId)
    requires r in ExpectedIn(snaps, t)
    ensures exists i :: 0 <= i < |snaps| && snaps[i].rev == r
  {
    var n := |snaps| - 1;
    if r in ExpectedIn(snaps[..n], t) {
      InIsStored(snaps[..n], t, r);
      var i :| 0 <= i < n && snaps[..n][i].rev == r;
      assert snaps[i].rev == r;
    } else {
      assert snaps[n].rev == r;
    }
  }

  /** A deletion is recorded exactly at the revisions whose predecessor had the token. */
  lemma {:induction false} OutIff(snaps: seq<Snapshot>, t: TokenId, i: nat)
    requires DistinctRevs(snaps) && i < |snaps|
    ensures snaps[i].rev in ExpectedOut(snaps, t)
       <==> i > 0 && t in snaps[i - 1].tokens && t !in snaps[i].tokens
  {
    var n, r := |snaps| - 1, snaps[i].rev;
    var before := snaps[..n];
    if i < n {
      OutIff(before, t, i);
      assert before[i] == snaps[i] && (i > 0 ==> before[i - 1] == snaps[i - 1]);
      assert snaps[n].rev != r;
    } else {
      if r in ExpectedOut(before, t) {
        OutIsStored(before, t, r);
        assert false;
      }
      assert n > 0 ==> before[n - 1] == snaps[n - 1];
    }
  }

  /** A reintroduction is recorded exactly where the token returns after an absence. */
  lemma {:induction false} InIff(snaps: seq<Snapshot>, t: TokenId, i: nat)
    requires DistinctRevs(snaps) && i < |snaps| && Seen(snaps, t)
    ensures snaps[i].rev in ExpectedIn(snaps, t)
       <==> i > 0 && t !in snaps[i - 1].tokens && t in snaps[i].tokens && snaps[i].rev != FirstSeen(snaps, t)
  {
    var n, r := |snaps| - 1, snaps[i].rev;
    var before := snaps[..n];
    SeenSplits(snaps, t);
    if i < n {
      assert before[i] == snaps[i] && (i > 0 ==> before[i - 1] == snaps[i - 1]);
      assert snaps[n].rev != r;
      if Seen(before, t) {
        InIff(before, t, i);
      } else {
        if r in ExpectedIn(before, t) {
          NeverSeenNeverIn(before, t);
        }
        assert t !in before[i].tokens;
      }
    } else {
      NewestIn(snaps, t);
    }
  }

  lemma NewestIn(snaps: seq<Snapshot>, t: TokenId)
    requires DistinctRevs(snaps) && snaps != []
    ensures var n := |snaps| - 1;
      snaps[n].rev in ExpectedIn(snaps, t)
      <==> n > 0 && t !in snaps[n - 1].tokens && t in snaps[n].tokens && snaps[n].rev != FirstSeen(snaps, t)
  {
    var n := |snaps| - 1;
    var before, r := snaps[..n], snaps[n].rev;
    if r in ExpectedIn(before, t) {
      InIsStored(before, t, r);
      assert false;
    }
    assert n > 0 ==> before[n - 1] == snaps[n - 1];
    if Seen(before, t) {
      FirstSeenIsStored(before, t);
      var j :| 0 <= j < n && before[j].rev == FirstSeen(before, t);
      assert snaps[j].rev != r;
    }
  }

  lemma {:induction false} NeverSeenNeverIn(snaps: seq<Snapshot>, t: TokenId)
    requires !Seen(snaps, t)
    ensures ExpectedIn(snaps, t) == []
    ensures ExpectedOut(snaps, t) == []
  {
    if snaps != [] {
      SeenSplits(snaps, t);
      if |snaps| > 1 { SeenSplits(snaps[..|snaps| - 1], t); }
      NeverSeenNeverIn(snaps[..|snaps| - 1], t);
    }
  }

  lemma {:induction false} FirstSeenIsStored(snaps: seq<Snapshot>, t: TokenId)
    requires Seen(snaps, t)
    ensures exists i :: 0 <= i < |snaps| && snaps[i].rev == FirstSeen(snaps, t) && t in snaps[i].tokens
  {
    var n := |snaps| - 1;
    SeenSplits(snaps, t);
    if Seen(snaps[..n], t) {
      FirstSeenIsStored(snaps[..n], t);
      var i :| 0 <= i < n && snaps[..n][i].rev == FirstSeen(snaps[..n], t) && t in snaps[..n][i].tokens;
      assert snaps[i] == snaps[..n][i];
    } else {
      assert snaps[n].rev == FirstSeen(snaps, t);
    }
  }

  /** Deletions and returns alternate: at every point of the history a token that has been
      seen has as many returns as deletions when it is there, and one fewer when it is not. */
  lemma {:induction false} Alternates(snaps: seq<Snapshot>, t: TokenId)
    requires Seen(snaps, t)
    ensures |ExpectedOut(snaps, t)| == |ExpectedIn(snaps, t)| + if InLast(snaps, t) then 0 else 1
  {
    var before := snaps[..|snaps| - 1];
    SeenSplits(snaps, t);
    if Seen(before, t) {
      Alternates(before, t);
    } else {
      NeverSeenNeverIn(before, t);
      if before != [] { SeenSplits(before, t); }
    }
  }
}
