/** Tables of distinct strings in order of first appearance, and ids into them. */
module Interning {
  import opened Seqs

  /** The distinct values in order of first appearance. */
  function Distinct(vs: seq<string>): seq<string> {
    if vs == [] then []
    else
      var front, v := Distinct(vs[..|vs| - 1]), vs[|vs| - 1];
      if v in front then front else front + [v]
  }

  lemma {:induction false} DistinctFacts(vs: seq<string>)
    ensures NoDup(Distinct(vs)) && Elems(Distinct(vs)) == Elems(vs)
  {
    if vs != [] {
      var n := |vs| - 1;
      DistinctFacts(vs[..n]);
      assert vs == vs[..n] + [vs[n]];
      ElemsAppend(vs[..n], [vs[n]]);
      ElemsAppend(Distinct(vs[..n]), [vs[n]]);
      assert vs[n] in Elems(Distinct(vs[..n])) <==> vs[n] in Distinct(vs[..n]);
      if vs[n] !in Distinct(vs[..n]) {
        NoDupAppend(Distinct(vs[..n]), [vs[n]]);
      }
    }
  }

  lemma NothingInterned()
    ensures Distinct([]) == []
  {
  }

  lemma DistinctNext(vs: seq<string>, i: nat)
    requires i < |vs|
    ensures Distinct(vs[..i + 1]) == (if vs[i] in Distinct(vs[..i]) then Distinct(vs[..i])
        else Distinct(vs[..i]) + [vs[i]])
  {
    assert vs[..i + 1][..i] == vs[..i];
  }

  lemma {:induction false} DistinctGrows(vs: seq<string>, n: nat)
    requires n <= |vs|
    ensures Distinct(vs[..n]) <= Distinct(vs)
    decreases |vs| - n
  {
    if n == |vs| {
      assert vs[..n] == vs;
    } else {
      DistinctNext(vs, n);
      DistinctGrows(vs, n + 1);
    }
  }

  /** `ids` are the positions of the values in the table. */
  ghost predicate IdsOf(table: seq<string>, vs: seq<string>, ids: seq<nat>) {
    |ids| == |vs| && forall i :: 0 <= i < |vs| ==> ids[i] < |table| && table[ids[i]] == vs[i]
  }

  /** The ids of values in a table that has them all. */
  ghost function Ids(table: seq<string>, vs: seq<string>): (ids: seq<nat>)
    requires Elems(vs) <= Elems(table)
    ensures IdsOf(table, vs, ids)
  {
    if vs == [] then []
    else
      assert vs[0] in Elems(vs) && Elems(vs[1..]) <= Elems(vs);
      var k: nat :| k < |table| && table[k] == vs[0];
      [k] + Ids(table, vs[1..])
  }

  lemma IdsUnique(table: seq<string>, vs: seq<string>, x: seq<nat>, y: seq<nat>)
    requires NoDup(table) && IdsOf(table, vs, x) && IdsOf(table, vs, y)
    ensures x == y
  {
  }

  /** Interns two lists into one table: equal strings, and only those, get equal ids. */
  method InternBoth(prev: seq<string>, curr: seq<string>) returns (a: seq<nat>, b: seq<nat>, values: seq<string>)
    ensures values == Distinct(prev + curr) && NoDup(values)
    ensures IdsOf(values, prev, a) && IdsOf(values, curr, b)
  {
    hide Distinct, IdsOf;
    var table: map<string, nat> := map[];
    ghost var all := prev + curr;
    NothingInterned();
    assert all[..0] == [];
    values := [];
    NoIds([]);
    table, values, a := InternOne(prev, table, values, all, 0);
    ghost var mid := values;
    table, values, b := InternOne(curr, table, values, all, |prev|);
    assert all[..|prev| + |curr|] == all;
    IdsStay(mid, values, prev, a);
    DistinctFacts(all);
  }

  lemma NoIds(table: seq<string>)
    ensures IdsOf(table, [], [])
  {
  }

  lemma IdsStay(table: seq<string>, table': seq<string>, vs: seq<string>, ids: seq<nat>)
    requires IdsOf(table, vs, ids) && table <= table'
    ensures IdsOf(table', vs, ids)
  {
  }

  lemma IdsMore(table: seq<string>, vs: seq<string>, ids: seq<nat>, v: string, id: nat)
    requires IdsOf(table, vs, ids) && id < |table| && table[id] == v
    ensures IdsOf(table, vs + [v], ids + [id])
  {
  }

  method InternOne(vs: seq<string>, table0: map<string, nat>, values0: seq<string>, ghost all: seq<string>,
      ghost from: nat)
      returns (table: map<string, nat>, values: seq<string>, ids: seq<nat>)
    requires from + |vs| <= |all| && vs == all[from..from + |vs|] && values0 == Distinct(all[..from])
    requires forall v :: v in table0 <==> v in values0
    requires forall v :: v in table0 ==> table0[v] < |values0| && values0[table0[v]] == v
    ensures values == Distinct(all[..from + |vs|]) && values0 <= values && IdsOf(values, vs, ids)
    ensures forall v :: v in table <==> v in values
    ensures forall v :: v in table ==> table[v] < |values| && values[table[v]] == v
  {
    hide Distinct, IdsOf;
    table, values, ids := table0, values0, [];
    NoIds(values);
    for i := 0 to |vs|
      invariant values == Distinct(all[..from + i]) && values0 <= values && IdsOf(values, vs[..i], ids)
      invariant forall v :: v in table <==> v in values
      invariant forall v :: v in table ==> table[v] < |values| && values[table[v]] == v
    {
      var v := vs[i];
      assert all[from + i] == v;
      DistinctNext(all, from + i);
      if v !in table {
        table := table[v := |values|];
        IdsStay(values, values + [v], vs[..i], ids);
        values := values + [v];
      }
      IdsMore(values, vs[..i], ids, v, table[v]);
      assert vs[..i + 1] == vs[..i] + [v];
      ids := ids + [table[v]];
    }
    assert vs[..|vs|] == vs;
  }
}
