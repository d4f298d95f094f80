/** Facts about sequences that several components share. */
module Seqs {

  function Elems<T>(s: seq<T>): set<T> {
    set x | x in s
  }

  ghost predicate NoDup<T>(s: seq<T>) {
    forall i, j :: 0 <= i < j < |s| ==> s[i] != s[j]
  }

  lemma ElemsAppend<T>(s: seq<T>, t: seq<T>)
    ensures Elems(s + t) == Elems(s) + Elems(t)
  {
  }

  lemma ElemsMultiset<T>(s: seq<T>, x: T)
    ensures x in multiset(s) <==> x in s
    ensures x in Elems(s) <==> x in s
  {
  }

  /** A sequence has no duplicates exactly when no element is counted twice. */
  lemma {:induction false} NoDupCounts<T>(s: seq<T>)
    ensures NoDup(s) <==> forall x :: multiset(s)[x] <= 1
  {
    if s == [] {
    } else {
      var n := |s| - 1;
      var front := s[..n];
      NoDupCounts(front);
      assert s == front + [s[n]];
      if NoDup(s) {
        assert s[n] !in front;
      } else if NoDup(front) {
        assert s[n] in front;
        assert multiset(s)[s[n]] >= 2;
      } else {
        var x :| multiset(front)[x] > 1;
        assert multiset(s)[x] > 1;
      }
    }
  }

  lemma NoDupAppend<T>(s: seq<T>, t: seq<T>)
    requires NoDup(s) && NoDup(t) && Elems(s) !! Elems(t)
    ensures NoDup(s + t)
  {
    var st := s + t;
    forall i, j | 0 <= i < j < |st| ensures st[i] != st[j] {
      if i < |s| <= j {
        assert st[i] in Elems(s) && st[j] in Elems(t);
      }
    }
  }

  /** Every element of a duplicate-free prefix-extended sequence splits it in one way. */
  lemma SplitAround<T>(s: seq<T>, x: T) returns (before: seq<T>, after: seq<T>)
    requires x in s
    ensures s == before + [x] + after
    ensures NoDup(s) ==> x !in before && x !in after
  {
    var i :| 0 <= i < |s| && s[i] == x;
    before, after := s[..i], s[i + 1..];
    assert s == before + [x] + after;
    if NoDup(s) {
      forall k | 0 <= k < |before| ensures before[k] != x { assert before[k] == s[k]; }
      forall k | 0 <= k < |after| ensures after[k] != x { assert after[k] == s[i + 1 + k]; }
    }
  }

  function Concat<T>(ss: seq<seq<T>>): seq<T> {
    if ss == [] then [] else ss[0] + Concat(ss[1..])
  }

  lemma {:induction false} ConcatAppend<T>(ss: seq<seq<T>>, ts: seq<seq<T>>)
    ensures Concat(ss + ts) == Concat(ss) + Concat(ts)
  {
    if ss == [] {
      assert ss + ts == ts;
    } else {
      assert (ss + ts)[1..] == ss[1..] + ts;
      ConcatAppend(ss[1..], ts);
    }
  }
}
