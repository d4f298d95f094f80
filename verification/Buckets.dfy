/** Hash buckets beside a document-ordered list of hashes: how a revision keeps its
    paragraphs and a paragraph keeps its sentences. The k-th occurrence of a hash in the
    order stands for the k-th entry of that hash's bucket. */
module Buckets {
  type Hash = string

  function Bucket(m: map<Hash, seq<nat>>, h: Hash): seq<nat> {
    if h in m then m[h] else []
  }

  function Push(m: map<Hash, seq<nat>>, h: Hash, id: nat): map<Hash, seq<nat>> {
    m[h := Bucket(m, h) + [id]]
  }

  ghost predicate InBuckets(m: map<Hash, seq<nat>>, id: nat) {
    exists h :: h in m && id in m[h]
  }

  /** Each bucket holds one entry per occurrence of its hash. */
  ghost predicate Aligned(m: map<Hash, seq<nat>>, order: seq<Hash>) {
    && (forall h :: h in m <==> h in order)
    && (forall h :: h in m ==> |m[h]| == multiset(order)[h])
  }

  /** The ids in document order; an occurrence beyond its bucket's end is skipped. */
  function Walk(m: map<Hash, seq<nat>>, order: seq<Hash>): seq<nat> {
    if order == [] then []
    else
      var n := |order| - 1;
      var h, k := order[n], multiset(order[..n])[order[n]];
      Walk(m, order[..n]) + if h in m && k < |m[h]| then [m[h][k]] else []
  }

  ghost predicate Covered(m: map<Hash, seq<nat>>, order: seq<Hash>) {
    forall h :: h in order ==> h in m && multiset(order)[h] <= |m[h]|
  }

  lemma CoveredPrefix(m: map<Hash, seq<nat>>, order: seq<Hash>, n: nat)
    requires Covered(m, order) && n <= |order|
    ensures Covered(m, order[..n])
  {
    assert order == order[..n] + order[n..];
    assert multiset(order) == multiset(order[..n]) + multiset(order[n..]);
  }

  lemma LastIsBeyondPrefix(order: seq<Hash>)
    requires order != []
    ensures multiset(order)[order[|order| - 1]] == multiset(order[..|order| - 1])[order[|order| - 1]] + 1
    ensures forall h :: h != order[|order| - 1] ==> multiset(order)[h] == multiset(order[..|order| - 1])[h]
  {
    assert order == order[..|order| - 1] + [order[|order| - 1]];
  }

  /** On aligned buckets the walk has one id per position. */
  lemma {:induction false} WalkLength(m: map<Hash, seq<nat>>, order: seq<Hash>)
    requires Covered(m, order)
    ensures |Walk(m, order)| == |order|
  {
    if order != [] {
      CoveredPrefix(m, order, |order| - 1);
      LastIsBeyondPrefix(order);
      WalkLength(m, order[..|order| - 1]);
    }
  }

  /** Appending to buckets that already cover the order leaves the walk as it was. */
  lemma {:induction false} WalkUnaffected(m: map<Hash, seq<nat>>, order: seq<Hash>, h: Hash, id: nat)
    requires Covered(m, order)
    ensures Walk(Push(m, h, id), order) == Walk(m, order)
  {
    if order != [] {
      CoveredPrefix(m, order, |order| - 1);
      LastIsBeyondPrefix(order);
      WalkUnaffected(m, order[..|order| - 1], h, id);
    }
  }

  /** Pushing an id and its hash together extends the walk by exactly that id. */
  lemma PushExtends(m: map<Hash, seq<nat>>, order: seq<Hash>, h: Hash, id: nat)
    requires Aligned(m, order)
    ensures Aligned(Push(m, h, id), order + [h])
    ensures Walk(Push(m, h, id), order + [h]) == Walk(m, order) + [id]
  {
    var m', order' := Push(m, h, id), order + [h];
    assert order'[..|order|] == order;
    assert Covered(m, order);
    WalkUnaffected(m, order, h, id);
    assert multiset(order') == multiset(order) + multiset{h};
    assert |Bucket(m, h)| == multiset(order)[h];
  }

  lemma {:induction false} WalkInBuckets(m: map<Hash, seq<nat>>, order: seq<Hash>, id: nat)
    requires id in Walk(m, order)
    ensures InBuckets(m, id)
  {
    var n := |order| - 1;
    if id in Walk(m, order[..n]) {
      WalkInBuckets(m, order[..n], id);
    }
  }

  /** The k-th entry of a bucket stands at a position that carries the bucket's hash. */
  lemma {:induction false} BucketEntryInWalk(m: map<Hash, seq<nat>>, order: seq<Hash>, h: Hash, k: nat)
    requires Covered(m, order)
    requires h in m && k < |m[h]| && k < multiset(order)[h]
    ensures |Walk(m, order)| == |order|
    ensures exists i :: 0 <= i < |order| && Walk(m, order)[i] == m[h][k] && order[i] == h
  {
    var n := |order| - 1;
    LastIsBeyondPrefix(order);
    CoveredPrefix(m, order, n);
    WalkLength(m, order);
    WalkLength(m, order[..n]);
    var w := Walk(m, order);
    assert w[..n] == Walk(m, order[..n]);
    if k < multiset(order[..n])[h] {
      BucketEntryInWalk(m, order[..n], h, k);
      var i :| 0 <= i < n && w[..n][i] == m[h][k] && order[..n][i] == h;
      assert w[i] == m[h][k] && order[i] == h;
    } else {
      assert w[n] == m[h][k] && order[n] == h;
    }
  }

  lemma EntryPosition(m: map<Hash, seq<nat>>, order: seq<Hash>, h: Hash, id: nat)
    requires Aligned(m, order) && h in m && id in m[h]
    ensures |Walk(m, order)| == |order|
    ensures exists i :: 0 <= i < |order| && Walk(m, order)[i] == id && order[i] == h
  {
    var k :| 0 <= k < |m[h]| && m[h][k] == id;
    assert Covered(m, order);
    BucketEntryInWalk(m, order, h, k);
  }

  /** Walking in document order and iterating over the map's values reach the same ids. */
  lemma AlignedMembers(m: map<Hash, seq<nat>>, order: seq<Hash>, id: nat)
    requires Aligned(m, order)
    ensures id in Walk(m, order) <==> InBuckets(m, id)
  {
    assert Covered(m, order);
    if id in Walk(m, order) {
      WalkInBuckets(m, order, id);
    }
    if InBuckets(m, id) {
      var h :| h in m && id in m[h];
      var k :| 0 <= k < |m[h]| && m[h][k] == id;
      BucketEntryInWalk(m, order, h, k);
    }
  }

  // ----- map iteration order does not matter -----

  /** The part of the walk whose hashes are in `keys`. */
  ghost function WalkIn(m: map<Hash, seq<nat>>, order: seq<Hash>, keys: set<Hash>): seq<nat> {
    if order == [] then []
    else
      var n := |order| - 1;
      var h, k := order[n], multiset(order[..n])[order[n]];
      WalkIn(m, order[..n], keys) + if h in keys && h in m && k < |m[h]| then [m[h][k]] else []
  }

  lemma {:induction false} WalkInAll(m: map<Hash, seq<nat>>, order: seq<Hash>, keys: set<Hash>)
    requires m.Keys <= keys
    ensures WalkIn(m, order, keys) == Walk(m, order)
  {
    if order != [] { WalkInAll(m, order[..|order| - 1], keys); }
  }

  lemma {:induction false} WalkInNone(m: map<Hash, seq<nat>>, order: seq<Hash>)
    ensures WalkIn(m, order, {}) == []
  {
    if order != [] { WalkInNone(m, order[..|order| - 1]); }
  }

  /** What the last hash of `order` contributes to the walk. */
  ghost function LastEntry(m: map<Hash, seq<nat>>, order: seq<Hash>): seq<nat>
    requires order != []
  {
    var n := |order| - 1;
    var h, k := order[n], multiset(order[..n])[order[n]];
    if h in m && k < |m[h]| then [m[h][k]] else []
  }

  lemma WalkInLast(m: map<Hash, seq<nat>>, order: seq<Hash>, keys: set<Hash>)
    requires order != []
    ensures var n := |order| - 1;
      multiset(WalkIn(m, order, keys))
      == multiset(WalkIn(m, order[..n], keys)) + multiset(if order[n] in keys then LastEntry(m, order) else [])
  {
  }

  lemma {:induction false} WalkInAdds(m: map<Hash, seq<nat>>, order: seq<Hash>, keys: set<Hash>, h: Hash)
    requires h !in keys
    ensures multiset(WalkIn(m, order, keys + {h})) == multiset(WalkIn(m, order, keys)) + multiset(WalkIn(m, order, {h}))
  {
    if order != [] {
      hide WalkIn, LastEntry;
      WalkInLast(m, order, keys + {h});
      WalkInLast(m, order, keys);
      WalkInLast(m, order, {h});
      WalkInAdds(m, order[..|order| - 1], keys, h);
    }
  }

  lemma {:induction false} WalkInOne(m: map<Hash, seq<nat>>, order: seq<Hash>, h: Hash)
    requires h in m && multiset(order)[h] <= |m[h]|
    ensures WalkIn(m, order, {h}) == m[h][..multiset(order)[h]]
  {
    if order != [] {
      LastIsBeyondPrefix(order);
      WalkInOne(m, order[..|order| - 1], h);
    }
  }

  lemma BucketIsWalk(m: map<Hash, seq<nat>>, order: seq<Hash>, keys: set<Hash>, h: Hash)
    requires Aligned(m, order) && h in m && h !in keys
    ensures multiset(WalkIn(m, order, keys + {h})) == multiset(WalkIn(m, order, keys)) + multiset(m[h])
  {
    WalkInAdds(m, order, keys, h);
    WalkInOne(m, order, h);
    assert m[h][..multiset(order)[h]] == m[h];
  }

  /** Chaining the buckets in any order gives the walk's ids, each as often. */
  method ChainBuckets(m: map<Hash, seq<nat>>, ghost order: seq<Hash>) returns (ids: seq<nat>)
    requires Aligned(m, order)
    ensures multiset(ids) == multiset(Walk(m, order))
  {
    hide WalkIn, Walk, Aligned;
    ids := [];
    var keys := m.Keys;
    ghost var done: set<Hash> := {};
    WalkInNone(m, order);
    while keys != {}
      invariant keys !! done && keys + done == m.Keys
      invariant multiset(ids) == multiset(WalkIn(m, order, done))
      decreases keys
    {
      var h :| h in keys;
      BucketIsWalk(m, order, done, h);
      ids := ids + m[h];
      keys := keys - {h};
      done := done + {h};
    }
    WalkInAll(m, order, done);
  }

  lemma CountNext(order: seq<Hash>, i: nat)
    requires i < |order|
    ensures forall h :: multiset(order[..i + 1])[h] == multiset(order[..i])[h] + if h == order[i] then 1 else 0
  {
    assert order[..i + 1] == order[..i] + [order[i]];
  }

  lemma NothingWalked(m: map<Hash, seq<nat>>)
    ensures Walk(m, []) == []
  {
  }

  lemma WalkNext(m: map<Hash, seq<nat>>, order: seq<Hash>, i: nat)
    requires i < |order|
    ensures var h, k := order[i], multiset(order[..i])[order[i]];
      Walk(m, order[..i + 1]) == Walk(m, order[..i]) + if h in m && k < |m[h]| then [m[h][k]] else []
  {
    assert order[..i + 1][..i] == order[..i];
  }

  /** Walking in document order with a per-hash counter. */
  method WalkBuckets(m: map<Hash, seq<nat>>, order: seq<Hash>) returns (ids: seq<nat>)
    ensures ids == Walk(m, order)
  {
    hide Walk;
    ids := [];
    var counts: map<Hash, nat> := map[];
    NothingWalked(m);
    for i := 0 to |order|
      invariant ids == Walk(m, order[..i])
      invariant forall h :: (if h in counts then counts[h] else 0) == multiset(order[..i])[h]
    {
      var h := order[i];
      var k := if h in counts then counts[h] else 0;
      WalkNext(m, order, i);
      CountNext(order, i);
      counts := counts[h := k + 1];
      if h in m && k < |m[h]| {
        ids := ids + [m[h][k]];
      }
    }
    assert order[..|order|] == order;
  }

  // ----- the read path -----

  /** The walk of the read path: an occurrence beyond its bucket's end repeats the last entry. */
  function ClampedWalk(m: map<Hash, seq<nat>>, order: seq<Hash>): seq<nat> {
    if order == [] then []
    else
      var n := |order| - 1;
      var bucket, k := Bucket(m, order[n]), multiset(order[..n])[order[n]];
      ClampedWalk(m, order[..n]) +
      if bucket == [] then [] else [bucket[if k < |bucket| then k else |bucket| - 1]]
  }

  /** On aligned buckets nothing is clamped and nothing is skipped. */
  lemma {:induction false} ClampedIsWalk(m: map<Hash, seq<nat>>, order: seq<Hash>)
    requires Covered(m, order)
    ensures ClampedWalk(m, order) == Walk(m, order)
  {
    if order != [] {
      CoveredPrefix(m, order, |order| - 1);
      LastIsBeyondPrefix(order);
      ClampedIsWalk(m, order[..|order| - 1]);
    }
  }

  lemma NothingClamped(m: map<Hash, seq<nat>>)
    ensures ClampedWalk(m, []) == []
  {
  }

  lemma ClampedNext(m: map<Hash, seq<nat>>, order: seq<Hash>, i: nat)
    requires i < |order|
    ensures var bucket, k := Bucket(m, order[i]), multiset(order[..i])[order[i]];
      ClampedWalk(m, order[..i + 1])
      == ClampedWalk(m, order[..i]) + if bucket == [] then [] else [bucket[if k < |bucket| then k else |bucket| - 1]]
  {
    assert order[..i + 1][..i] == order[..i];
  }

  /** Counts occurrences only of hashes with several entries, as the read path does. */
  method WalkClamped(m: map<Hash, seq<nat>>, order: seq<Hash>) returns (ids: seq<nat>)
    ensures ids == ClampedWalk(m, order)
  {
    hide ClampedWalk;
    ids := [];
    var seen: map<Hash, nat> := map[];
    NothingClamped(m);
    for i := 0 to |order|
      invariant ids == ClampedWalk(m, order[..i])
      invariant forall h :: h in m && |m[h]| > 1 ==> (if h in seen then seen[h] else 0) == multiset(order[..i])[h]
    {
      var h := order[i];
      ClampedNext(m, order, i);
      CountNext(order, i);
      if h !in m || m[h] == [] {
        continue;
      }
      var idx := 0;
      if |m[h]| > 1 {
        var k := if h in seen then seen[h] else 0;
        seen := seen[h := k + 1];
        idx := if k <= |m[h]| - 1 then k else |m[h]| - 1;
      }
      ids := ids + [m[h][idx]];
    }
    assert order[..|order|] == order;
  }
}
