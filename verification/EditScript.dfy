/** Edit transcripts: what a diff returns, and what it says about its two inputs. */
module EditScript {
  import opened Seqs

  datatype Op<T> = Keep(value: T) | Delete(value: T) | Insert(value: T)

  /** What the transcript consumes of the old sequence: keeps and deletes. */
  function Old<T>(ops: seq<Op<T>>): seq<T> {
    if ops == [] then []
    else (if ops[0].Insert? then [] else [ops[0].value]) + Old(ops[1..])
  }

  /** What the transcript consumes of the new sequence: keeps and inserts. */
  function New<T>(ops: seq<Op<T>>): seq<T> {
    if ops == [] then []
    else (if ops[0].Delete? then [] else [ops[0].value]) + New(ops[1..])
  }

  function Edits<T>(ops: seq<Op<T>>): nat {
    if ops == [] then 0 else (if ops[0].Keep? then 0 else 1) + Edits(ops[1..])
  }

  function Keeps<T>(ops: seq<Op<T>>): nat {
    if ops == [] then 0 else (if ops[0].Keep? then 1 else 0) + Keeps(ops[1..])
  }

  /** The transcript turns `a` into `b`. */
  ghost predicate Spells<T>(ops: seq<Op<T>>, a: seq<T>, b: seq<T>) {
    Old(ops) == a && New(ops) == b
  }

  lemma {:induction false} OldAppend<T>(x: seq<Op<T>>, y: seq<Op<T>>)
    ensures Old(x + y) == Old(x) + Old(y)
  {
    if x == [] {
      assert x + y == y;
    } else {
      assert (x + y)[0] == x[0] && (x + y)[1..] == x[1..] + y;
      OldAppend(x[1..], y);
    }
  }

  lemma {:induction false} NewAppend<T>(x: seq<Op<T>>, y: seq<Op<T>>)
    ensures New(x + y) == New(x) + New(y)
  {
    if x == [] {
      assert x + y == y;
    } else {
      assert (x + y)[0] == x[0] && (x + y)[1..] == x[1..] + y;
      NewAppend(x[1..], y);
    }
  }

  lemma {:induction false} EditsAppend<T>(x: seq<Op<T>>, y: seq<Op<T>>)
    ensures Edits(x + y) == Edits(x) + Edits(y)
  {
    if x == [] {
      assert x + y == y;
    } else {
      assert (x + y)[0] == x[0] && (x + y)[1..] == x[1..] + y;
      EditsAppend(x[1..], y);
    }
  }

  lemma {:induction false} KeepsAppend<T>(x: seq<Op<T>>, y: seq<Op<T>>)
    ensures Keeps(x + y) == Keeps(x) + Keeps(y)
  {
    if x == [] {
      assert x + y == y;
    } else {
      assert (x + y)[0] == x[0] && (x + y)[1..] == x[1..] + y;
      KeepsAppend(x[1..], y);
    }
  }

  lemma ScriptAppend<T>(x: seq<Op<T>>, y: seq<Op<T>>)
    ensures Old(x + y) == Old(x) + Old(y) && New(x + y) == New(x) + New(y)
    ensures Edits(x + y) == Edits(x) + Edits(y) && Keeps(x + y) == Keeps(x) + Keeps(y)
  {
    hide Old, New, Edits, Keeps;
    OldAppend(x, y);
    NewAppend(x, y);
    EditsAppend(x, y);
    KeepsAppend(x, y);
  }

  lemma ScriptOne<T>(op: Op<T>)
    ensures Old([op]) == (if op.Insert? then [] else [op.value])
    ensures New([op]) == (if op.Delete? then [] else [op.value])
    ensures Edits([op]) == (if op.Keep? then 0 else 1) && Keeps([op]) == (if op.Keep? then 1 else 0)
  {
    assert [op][1..] == [];
  }

  /** Every element is either kept or edited, so fewer edits means more keeps. */
  lemma {:induction false} ScriptCounts<T>(ops: seq<Op<T>>)
    ensures |Old(ops)| + |New(ops)| == 2 * Keeps(ops) + Edits(ops)
  {
    if ops != [] {
      ScriptCounts(ops[1..]);
    }
  }

  function Deletes<T>(a: seq<T>): seq<Op<T>> {
    if a == [] then [] else [Delete(a[0])] + Deletes(a[1..])
  }

  function Inserts<T>(b: seq<T>): seq<Op<T>> {
    if b == [] then [] else [Insert(b[0])] + Inserts(b[1..])
  }

  function KeepAll<T>(a: seq<T>): seq<Op<T>> {
    if a == [] then [] else [Keep(a[0])] + KeepAll(a[1..])
  }

  lemma {:induction false} DeletesSpell<T>(a: seq<T>)
    ensures Spells(Deletes(a), a, []) && Edits(Deletes(a)) == |a|
  {
    if a != [] {
      assert Deletes(a)[1..] == Deletes(a[1..]);
      DeletesSpell(a[1..]);
    }
  }

  lemma {:induction false} InsertsSpell<T>(b: seq<T>)
    ensures Spells(Inserts(b), [], b) && Edits(Inserts(b)) == |b|
  {
    if b != [] {
      assert Inserts(b)[1..] == Inserts(b[1..]);
      InsertsSpell(b[1..]);
    }
  }

  lemma {:induction false} KeepAllSpells<T>(a: seq<T>)
    ensures Spells(KeepAll(a), a, a) && Edits(KeepAll(a)) == 0
  {
    if a != [] {
      assert KeepAll(a)[1..] == KeepAll(a[1..]);
      KeepAllSpells(a[1..]);
    }
  }
}
