/** Sorted (key, value) indexes searched by halving: the per-language map from revision to
    page. */
module SortedIndexes {
  import opened Wrappers
  import opened Seqs

  type Pair = (nat, nat)

  ghost predicate Sorted(es: seq<Pair>) {
    forall i, j :: 0 <= i < j < |es| ==> es[i].0 <= es[j].0
  }

  ghost predicate Rising(es: seq<Pair>) {
    forall i, j :: 0 <= i < j < |es| ==> es[i].0 < es[j].0
  }

  // ----- sorting by key -----

  function InsertPair(e: Pair, es: seq<Pair>): seq<Pair> {
    if es == [] then [e]
    else if e.0 <= es[0].0 then [e] + es
    else [es[0]] + InsertPair(e, es[1..])
  }

  lemma SortedCons(e: Pair, es: seq<Pair>)
    requires Sorted(es) && forall x :: x in es ==> e.0 <= x.0
    ensures Sorted([e] + es)
  {
  }

  lemma SortedHead(es: seq<Pair>)
    requires Sorted(es) && es != []
    ensures Sorted(es[1..]) && forall x :: x in es ==> es[0].0 <= x.0
  {
    var rest := es[1..];
    assert forall i :: 0 <= i < |rest| ==> rest[i] == es[i + 1];
  }

  lemma {:induction false} InsertPairFacts(e: Pair, es: seq<Pair>)
    requires Sorted(es)
    ensures Sorted(InsertPair(e, es)) && multiset(InsertPair(e, es)) == multiset(es) + multiset{e}
    ensures forall x :: x in InsertPair(e, es) <==> x in es || x == e
  {
    hide Sorted;
    if es == [] {
      NothingSorted();
      SortedCons(e, []);
      assert [e] == [e] + [];
    } else {
      SortedHead(es);
      if e.0 <= es[0].0 {
        SortedCons(e, es);
      } else {
        InsertPairFacts(e, es[1..]);
        SortedCons(es[0], InsertPair(e, es[1..]));
        assert es == [es[0]] + es[1..];
      }
    }
  }

  /** Sorting by key; how equal keys are ordered is not promised. */
  method SortByKey(es: seq<Pair>) returns (r: seq<Pair>)
    ensures Sorted(r) && multiset(r) == multiset(es)
  {
    hide Sorted;
    r := [];
    NothingSorted();
    for i := 0 to |es|
      invariant Sorted(r) && multiset(r) == multiset(es[..i])
    {
      assert es[..i + 1] == es[..i] + [es[i]];
      InsertPairFacts(es[i], r);
      r := InsertPair(es[i], r);
    }
    assert es[..|es|] == es;
  }

  lemma NothingSorted()
    ensures Sorted([])
  {
  }

  /** Halving search; with repeated keys any of the entries may be found. */
  method Search(es: seq<Pair>, key: nat) returns (r: Option<nat>)
    requires Sorted(es)
    ensures r.Some? ==> r.value < |es| && es[r.value].0 == key
    ensures r.None? ==> forall e :: e in es ==> e.0 != key
  {
    var lo, hi := 0, |es|;
    while lo < hi
      invariant 0 <= lo <= hi <= |es|
      invariant forall i :: 0 <= i < lo ==> es[i].0 < key
      invariant forall i :: hi <= i < |es| ==> key < es[i].0
    {
      var mid := (lo + hi) / 2;
      if es[mid].0 == key {
        return Some(mid);
      } else if es[mid].0 < key {
        lo := mid + 1;
      } else {
        hi := mid;
      }
    }
    r := None;
  }

  // ----- an index as a map -----

  /** The map an index stands for: later entries win, but a rising index has no choice. */
  function MapOf(es: seq<Pair>): map<nat, nat> {
    if es == [] then map[] else MapOf(es[..|es| - 1])[es[|es| - 1].0 := es[|es| - 1].1]
  }

  ghost predicate OneValue(es: seq<Pair>) {
    forall x, y :: x in es && y in es && x.0 == y.0 ==> x == y
  }

  lemma {:induction false} MapOfEntries(es: seq<Pair>)
    requires OneValue(es)
    ensures forall k, v :: (k, v) in es <==> k in MapOf(es) && MapOf(es)[k] == v
  {
    if es != [] {
      var n := |es| - 1;
      var front, e := es[..n], es[n];
      assert es == front + [e];
      assert OneValue(front);
      MapOfEntries(front);
      forall k, v ensures (k, v) in es <==> k in MapOf(es) && MapOf(es)[k] == v {
        assert (k, v) in es <==> (k, v) in front || (k, v) == e;
        if k == e.0 { assert e in es; }
      }
    }
  }

  lemma RisingOneValue(es: seq<Pair>)
    requires Rising(es)
    ensures OneValue(es)
  {
    forall x, y | x in es && y in es && x.0 == y.0 ensures x == y {
      var i :| 0 <= i < |es| && es[i] == x;
      var j :| 0 <= j < |es| && es[j] == y;
    }
  }

  lemma SameEntriesSameMap(x: seq<Pair>, y: seq<Pair>)
    requires OneValue(x) && OneValue(y) && forall e :: e in x <==> e in y
    ensures MapOf(x) == MapOf(y)
  {
    MapOfEntries(x);
    MapOfEntries(y);
    forall k ensures k in MapOf(x) <==> k in MapOf(y) {
      if k in MapOf(x) { assert (k, MapOf(x)[k]) in x; }
      if k in MapOf(y) { assert (k, MapOf(y)[k]) in y; }
    }
    forall k | k in MapOf(x) ensures MapOf(x)[k] == MapOf(y)[k] {
      assert (k, MapOf(x)[k]) in y;
    }
  }

  // ----- revision to page -----

  /** Some revision already belongs to another page. */
  ghost predicate Collides(m: map<nat, nat>, page: nat, revs: seq<nat>) {
    exists r :: r in revs && r in m && m[r] != page
  }

  /** The map after a page's revisions have been replaced. */
  ghost function Replaced(m: map<nat, nat>, page: nat, revs: seq<nat>): map<nat, nat> {
    map r | r in m.Keys + Elems(revs) && (r in revs || m[r] != page) :: if r in revs then page else m[r]
  }

  /** Entries with one key that are neighbours agree on the value. */
  ghost predicate NeighboursAgree(es: seq<Pair>) {
    forall i :: 0 <= i < |es| - 1 ==> AgreeAt(es, i)
  }

  predicate AgreeAt(es: seq<Pair>, i: nat)
    requires i + 1 < |es|
  {
    es[i].0 == es[i + 1].0 ==> es[i].1 == es[i + 1].1
  }

  lemma {:induction false} AgreeFar(es: seq<Pair>, i: nat, j: nat)
    requires Sorted(es) && NeighboursAgree(es) && i <= j < |es| && es[i].0 == es[j].0
    ensures es[i] == es[j]
    decreases j - i
  {
    if i < j {
      AgreeFar(es, i, j - 1);
      assert es[j - 1].0 == es[j].0 && AgreeAt(es, j - 1);
    }
  }

  lemma AgreeOneValue(es: seq<Pair>)
    requires Sorted(es)
    ensures NeighboursAgree(es) <==> OneValue(es)
  {
    if NeighboursAgree(es) {
      forall x, y | x in es && y in es && x.0 == y.0 ensures x == y {
        var i :| 0 <= i < |es| && es[i] == x;
        var j :| 0 <= j < |es| && es[j] == y;
        if i <= j { AgreeFar(es, i, j); } else { AgreeFar(es, j, i); }
      }
    }
    if OneValue(es) {
      forall i | 0 <= i < |es| - 1 ensures AgreeAt(es, i) {
        assert es[i] in es && es[i + 1] in es;
      }
    }
  }

  /** What is gathered before sorting: the other pages' entries and the new ones. */
  ghost predicate Gathered(old_: seq<Pair>, page: nat, revs: seq<nat>, all: seq<Pair>) {
    forall e :: e in all <==> (e in old_ && e.1 != page) || (e.0 in revs && e.1 == page)
  }

  /** Once sorted, some neighbours share a revision and differ on the page exactly if some
      revision belongs to another page. */
  lemma CollisionShows(old_: seq<Pair>, page: nat, revs: seq<nat>, all: seq<Pair>)
    requires Rising(old_) && Gathered(old_, page, revs, all) && Sorted(all)
    ensures NeighboursAgree(all) <==> !Collides(MapOf(old_), page, revs)
  {
    hide Rising, Gathered, Sorted, Collides, MapOf;
    AgreeOneValue(all);
    CollisionSplits(old_, page, revs, all);
  }

  lemma CollisionSplits(old_: seq<Pair>, page: nat, revs: seq<nat>, all: seq<Pair>)
    requires Rising(old_) && Gathered(old_, page, revs, all)
    ensures OneValue(all) <==> !Collides(MapOf(old_), page, revs)
  {
    RisingOneValue(old_);
    MapOfEntries(old_);
    hide MapOf, Rising;
    if !OneValue(all) {
      var x, y :| x in all && y in all && x.0 == y.0 && x != y;
      var z := if x.1 == page then y else x;
      assert z in old_ && z.1 != page;
      assert z == (z.0, z.1);
      assert z.0 in MapOf(old_) && MapOf(old_)[z.0] == z.1;
      assert z.0 in revs;
    }
    if Collides(MapOf(old_), page, revs) {
      var r :| r in revs && r in MapOf(old_) && MapOf(old_)[r] != page;
      assert (r, MapOf(old_)[r]) in all && (r, page) in all;
    }
  }

  lemma GatheredMap(old_: seq<Pair>, page: nat, revs: seq<nat>, all: seq<Pair>)
    requires Rising(old_) && Gathered(old_, page, revs, all) && OneValue(all)
    ensures MapOf(all) == Replaced(MapOf(old_), page, revs)
  {
    RisingOneValue(old_);
    MapOfEntries(old_);
    MapOfEntries(all);
    hide MapOf, Rising, OneValue;
    var m, now := Replaced(MapOf(old_), page, revs), MapOf(all);
    forall r ensures r in m <==> r in now {
      if r in now { assert (r, now[r]) in all; }
      if r in m { assert (r, m[r]) in all; }
    }
    forall r | r in m ensures m[r] == now[r] {
      assert (r, m[r]) in all;
    }
  }

  class RevIdIndex {
    var entries: seq<Pair>

    ghost predicate Valid()
      reads this
    {
      Rising(entries)
    }

    constructor ()
      ensures Valid() && MapOf(entries) == map[]
    {
      entries := [];
    }

    method Lookup(revId: nat) returns (r: Option<nat>)
      requires Valid()
      ensures r == if revId in MapOf(entries) then Some(MapOf(entries)[revId]) else None
    {
      RisingOneValue(entries);
      MapOfEntries(entries);
      hide MapOf, OneValue;
      var i := Search(entries, revId);
      match i {
        case Some(k) =>
          assert entries[k] == (revId, entries[k].1) && entries[k] in entries;
          r := Some(entries[k].1);
        case None =>
          if revId in MapOf(entries) {
            assert (revId, MapOf(entries)[revId]) in entries;
          }
          r := None;
      }
    }

    /** Drops the page's entries, adds its revisions, sorts, and refuses two pages claiming
        one revision. After a refusal the entries are not an index any more. */
    method ReplaceArticle(page: nat, revIds: seq<nat>) returns (ok: bool)
      requires Valid()
      modifies this
      ensures ok <==> !Collides(MapOf(old(entries)), page, revIds)
      ensures ok ==> Valid() && MapOf(entries) == Replaced(MapOf(old(entries)), page, revIds)
    {
      hide Rising, Gathered, OneValue, MapOf, Collides, Replaced, NeighboursAgree, Sorted;
      ghost var before := entries;
      var gathered := Gather(entries, page, revIds);
      entries := SortByKey(gathered);
      SameGathered(before, page, revIds, gathered, entries);
      CollisionShows(before, page, revIds, entries);
      var clash := FindClash(entries);
      AgreeOneValue(entries);
      if clash {
        return false;
      }
      GatheredMap(before, page, revIds, entries);
      entries := DedupByKey(entries);
      ok := true;
    }

    static method Gather(entries: seq<Pair>, page: nat, revIds: seq<nat>) returns (all: seq<Pair>)
      ensures Gathered(entries, page, revIds, all)
    {
      all := [];
      for i := 0 to |entries|
        invariant forall e :: e in all <==> e in entries[..i] && e.1 != page
      {
        assert entries[..i + 1] == entries[..i] + [entries[i]];
        if entries[i].1 != page {
          all := all + [entries[i]];
        }
      }
      assert entries[..|entries|] == entries;
      for i := 0 to |revIds|
        invariant forall e :: e in all <==> (e in entries && e.1 != page) || (e.0 in revIds[..i] && e.1 == page)
      {
        assert revIds[..i + 1] == revIds[..i] + [revIds[i]];
        all := all + [(revIds[i], page)];
      }
      assert revIds[..|revIds|] == revIds;
    }

    /** Two neighbours with one revision and two pages. */
    static method FindClash(entries: seq<Pair>) returns (clash: bool)
      requires Sorted(entries)
      ensures clash <==> !NeighboursAgree(entries)
    {
      var i := 0;
      while i + 1 < |entries|
        invariant 0 <= i && (i == 0 || i < |entries|)
        invariant forall k :: 0 <= k < i ==> AgreeAt(entries, k)
      {
        if !AgreeAt(entries, i) {
          return true;
        }
        i := i + 1;
      }
      clash := false;
    }

    /** Keeps the first of neighbours with one key. */
    static method DedupByKey(es: seq<Pair>) returns (r: seq<Pair>)
      requires Sorted(es) && OneValue(es)
      ensures Rising(r) && MapOf(r) == MapOf(es)
    {
      hide MapOf, Rising, OneValue;
      r := [];
      NothingRises();
      for i := 0 to |es|
        invariant Rising(r) && forall e :: e in r <==> e in es[..i]
        invariant r != [] ==> i > 0 && r[|r| - 1].0 == es[i - 1].0
      {
        assert es[..i + 1] == es[..i] + [es[i]];
        if r == [] || r[|r| - 1].0 != es[i].0 {
          RisingMore(r, es[i]);
          r := r + [es[i]];
        } else {
          assert r[|r| - 1] in r && es[i] in es;
          OneValueAt(es, r[|r| - 1], es[i]);
        }
      }
      assert es[..|es|] == es;
      RisingOneValue(r);
      SameEntriesSameMap(r, es);
    }
  }

  lemma NothingRises()
    ensures Rising([])
  {
  }

  lemma RisingMore(r: seq<Pair>, e: Pair)
    requires Rising(r) && (r == [] || r[|r| - 1].0 < e.0)
    ensures Rising(r + [e])
  {
  }

  lemma OneValueAt(es: seq<Pair>, x: Pair, y: Pair)
    requires OneValue(es) && x in es && y in es
    ensures x.0 == y.0 ==> x == y
  {
  }

  lemma SameGathered(old_: seq<Pair>, page: nat, revs: seq<nat>, x: seq<Pair>, y: seq<Pair>)
    requires Gathered(old_, page, revs, x) && multiset(x) == multiset(y)
    ensures Gathered(old_, page, revs, y)
  {
    forall e ensures e in x <==> e in y { ElemsMultiset(x, e); ElemsMultiset(y, e); }
  }
}
