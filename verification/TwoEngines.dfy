/** The two diff engines side by side. */
module TwoEngines {
  import opened Seqs
  import opened EditScript
  import opened Interning
  import opened DifferSpec
  import Myers

  /** The transcript with every string replaced by its id. */
  ghost function OnIds(table: seq<string>, ops: seq<DiffOp>): seq<Op<nat>>
    requires Elems(Old(ops)) + Elems(New(ops)) <= Elems(table)
  {
    if ops == [] then []
    else
      RestIn(ops);
      var id := Ids(table, [ops[0].value])[0];
      (match ops[0]
       case Keep(_) => [Keep(id)]
       case Delete(_) => [Delete(id)]
       case Insert(_) => [Insert(id)]) + OnIds(table, ops[1..])
  }

  lemma RestIn(ops: seq<DiffOp>)
    requires ops != []
    ensures Elems(Old(ops[1..])) <= Elems(Old(ops)) && Elems(New(ops[1..])) <= Elems(New(ops))
    ensures Elems([ops[0].value]) <= Elems(Old(ops)) + Elems(New(ops))
  {
  }

  lemma OnIdsHead(table: seq<string>, ops: seq<DiffOp>)
    requires Elems(Old(ops)) + Elems(New(ops)) <= Elems(table) && ops != []
    ensures Elems(Old(ops[1..])) + Elems(New(ops[1..])) <= Elems(table)
    ensures var on := OnIds(table, ops);
      && on != [] && on[1..] == OnIds(table, ops[1..])
      && (on[0].Keep? <==> ops[0].Keep?) && (on[0].Delete? <==> ops[0].Delete?)
      && on[0].value < |table| && table[on[0].value] == ops[0].value
  {
    RestIn(ops);
    hide Old, New;
    assert IdsOf(table, [ops[0].value], Ids(table, [ops[0].value]));
  }

  lemma IdsCons(table: seq<string>, vs: seq<string>, ids: seq<nat>, v: string, id: nat)
    requires IdsOf(table, vs, ids) && id < |table| && table[id] == v
    ensures IdsOf(table, [v] + vs, [id] + ids)
  {
  }

  lemma {:induction false} OnIdsSpells(table: seq<string>, ops: seq<DiffOp>)
    requires Elems(Old(ops)) + Elems(New(ops)) <= Elems(table)
    ensures IdsOf(table, Old(ops), Old(OnIds(table, ops))) && IdsOf(table, New(ops), New(OnIds(table, ops)))
    ensures Keeps(OnIds(table, ops)) == Keeps(ops)
  {
    if ops != [] {
      hide IdsOf, OnIds, Ids;
      OnIdsHead(table, ops);
      OnIdsSpells(table, ops[1..]);
      var on, rest := OnIds(table, ops), OnIds(table, ops[1..]);
      IdsCons(table, Old(ops[1..]), Old(rest), ops[0].value, on[0].value);
      IdsCons(table, New(ops[1..]), New(rest), ops[0].value, on[0].value);
      EmptyFront(Old(ops[1..]), Old(rest));
      EmptyFront(New(ops[1..]), New(rest));
    }
  }

  lemma EmptyFront(x: seq<string>, y: seq<nat>)
    ensures [] + x == x && [] + y == y
  {
  }

  /** On the interned token lists, the differ never keeps more than a shortest transcript
      such as the Myers engine returns. */
  lemma NeverMoreKeeps(prev: seq<string>, curr: seq<string>, myers: seq<Op<nat>>)
    requires Myers.Shortest(myers, Interned(prev, curr).a, Interned(prev, curr).b)
    ensures Keeps(Compare(prev, curr)) <= Keeps(myers)
  {
    hide Compare;
    var ops, p, table := Compare(prev, curr), Interned(prev, curr), Distinct(prev + curr);
    CompareSpells(prev, curr);
    DistinctFacts(prev + curr);
    ElemsAppend(prev, curr);
    OnIdsSpells(table, ops);
    var other := OnIds(table, ops);
    IdsUnique(table, prev, Old(other), p.a);
    IdsUnique(table, curr, New(other), p.b);
    assert Spells(other, p.a, p.b);
    ScriptCounts(other);
    ScriptCounts(myers);
  }
}
