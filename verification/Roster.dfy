/** The roster of present editors: who has how many of the tokens found, the busiest first. */
module Roster {
  import opened Wrappers

  datatype Token = Token(str: string, editor: string, className: string)

  datatype EditorState = EditorState(className: string, count: nat, order: nat)

  datatype RosterEntry = RosterEntry(editor: string, className: string, count: nat)

  /** Positions of tokens, each later than the one before. */
  ghost predicate Found(tokens: seq<Token>, found: seq<nat>) {
    && (forall i :: 0 <= i < |found| ==> found[i] < |tokens|)
    && forall i, j :: 0 <= i < j < |found| ==> found[i] < found[j]
  }

  /** What registering a found token does. */
  function Register(m: map<string, EditorState>, t: Token): map<string, EditorState> {
    if t.editor in m then m[t.editor := m[t.editor].(count := m[t.editor].count + 1)]
    else m[t.editor := EditorState(t.className, 1, |m|)]
  }

  function Tally(tokens: seq<Token>, found: seq<nat>): map<string, EditorState>
    requires forall i :: 0 <= i < |found| ==> found[i] < |tokens|
  {
    if found == [] then map[]
    else
      var n := |found| - 1;
      Register(Tally(tokens, found[..n]), tokens[found[n]])
  }

  lemma TallyMore(tokens: seq<Token>, found: seq<nat>, k: nat)
    requires Found(tokens, found) && k < |tokens| && forall i :: 0 <= i < |found| ==> found[i] < k
    ensures Found(tokens, found + [k])
    ensures Tally(tokens, found + [k]) == Register(Tally(tokens, found), tokens[k])
  {
    assert (found + [k])[..|found|] == found;
  }

  // ----- what the tally says -----

  /** How many of the found tokens are the editor's. */
  function TokensOf(tokens: seq<Token>, found: seq<nat>, editor: string): nat
    requires forall i :: 0 <= i < |found| ==> found[i] < |tokens|
  {
    if found == [] then 0
    else
      var n := |found| - 1;
      TokensOf(tokens, found[..n], editor) + if tokens[found[n]].editor == editor then 1 else 0
  }

  /** The first found token of the editor. */
  function FirstOf(tokens: seq<Token>, found: seq<nat>, editor: string): Option<nat>
    requires forall i :: 0 <= i < |found| ==> found[i] < |tokens|
  {
    if found == [] then None
    else
      var n := |found| - 1;
      match FirstOf(tokens, found[..n], editor)
      case Some(k) => Some(k)
      case None => if tokens[found[n]].editor == editor then Some(found[n]) else None
  }

  /** Each editor's state: the number of tokens, and the class name of the first one. */
  ghost predicate StateOk(tokens: seq<Token>, found: seq<nat>, editor: string, m: map<string, EditorState>)
    requires forall i :: 0 <= i < |found| ==> found[i] < |tokens|
  {
    var first := FirstOf(tokens, found, editor);
    && (editor in m <==> TokensOf(tokens, found, editor) > 0)
    && (editor in m <==> first.Some?)
    && (first.Some? ==> first.value < |tokens|)
    && (editor in m
      ==> m[editor].count == TokensOf(tokens, found, editor) && m[editor].className == tokens[first.value].className)
  }

  lemma {:induction false} TallyCounts(tokens: seq<Token>, found: seq<nat>, editor: string)
    requires forall i :: 0 <= i < |found| ==> found[i] < |tokens|
    ensures StateOk(tokens, found, editor, Tally(tokens, found))
  {
    if found != [] {
      TallyCounts(tokens, found[..|found| - 1], editor);
    }
  }

  /** Orders tell editors apart, and follow first appearance. */
  ghost predicate PairOk(tokens: seq<Token>, found: seq<nat>, m: map<string, EditorState>, e: string, f: string)
    requires (forall i :: 0 <= i < |found| ==> found[i] < |tokens|) && e in m && f in m
  {
    var first, other := FirstOf(tokens, found, e), FirstOf(tokens, found, f);
    && first.Some? && other.Some? && m[e].order < |m|
    && (m[e].order < m[f].order <==> first.value < other.value)
    && (m[e].order == m[f].order ==> e == f)
  }

  ghost predicate OrdersOk(tokens: seq<Token>, found: seq<nat>, m: map<string, EditorState>)
    requires forall i :: 0 <= i < |found| ==> found[i] < |tokens|
  {
    forall e, f :: e in m && f in m ==> PairOk(tokens, found, m, e, f)
  }

  lemma {:induction false} TallyOrders(tokens: seq<Token>, found: seq<nat>)
    requires Found(tokens, found)
    ensures OrdersOk(tokens, found, Tally(tokens, found))
  {
    if found != [] {
      var n := |found| - 1;
      var before, k := found[..n], found[n];
      var m := Tally(tokens, before);
      TallyOrders(tokens, before);
      FirstBefore(tokens, before, k);
      assert before + [k] == found;
      var m' := Register(m, tokens[k]);
      assert m' == Tally(tokens, found);
      hide Tally, FirstOf, PairOk, Register;
      forall e, f | e in m' && f in m' ensures PairOk(tokens, found, m', e, f) {
        NextPair(tokens, before, k, m, e, f);
      }
    }
  }

  lemma {:induction false} FirstBefore(tokens: seq<Token>, found: seq<nat>, k: nat)
    requires Found(tokens, found) && forall i :: 0 <= i < |found| ==> found[i] < k
    ensures forall e :: FirstOf(tokens, found, e).Some? ==> FirstOf(tokens, found, e).value < k
  {
    if found != [] {
      FirstBefore(tokens, found[..|found| - 1], k);
    }
  }

  lemma FirstNext(tokens: seq<Token>, found: seq<nat>, k: nat, e: string)
    requires Found(tokens, found) && k < |tokens| && forall i :: 0 <= i < |found| ==> found[i] < k
    ensures Found(tokens, found + [k])
    ensures FirstOf(tokens, found + [k], e)
         == match FirstOf(tokens, found, e)
            case Some(x) => Some(x)
            case None => if tokens[k].editor == e then Some(k) else None
  {
    assert (found + [k])[..|found|] == found;
  }

  lemma NextPair(tokens: seq<Token>, found: seq<nat>, k: nat, m: map<string, EditorState>, e: string, f: string)
    requires Found(tokens, found) && k < |tokens| && (forall i :: 0 <= i < |found| ==> found[i] < k)
    requires OrdersOk(tokens, found, m) && m == Tally(tokens, found)
    requires forall x :: FirstOf(tokens, found, x).Some? ==> FirstOf(tokens, found, x).value < k
    requires e in Register(m, tokens[k]) && f in Register(m, tokens[k])
    ensures Found(tokens, found + [k]) && PairOk(tokens, found + [k], Register(m, tokens[k]), e, f)
  {
    FirstNext(tokens, found, k, e);
    FirstNext(tokens, found, k, f);
    TallyCounts(tokens, found, e);
    TallyCounts(tokens, found, f);
    hide FirstOf, TokensOf, Tally, Found;
    if e in m { assert PairOk(tokens, found, m, e, e); }
    if f in m { assert PairOk(tokens, found, m, f, f); }
    if e in m && f in m { assert PairOk(tokens, found, m, e, f); }
    assert |Register(m, tokens[k])| == if tokens[k].editor in m then |m| else |m| + 1;
  }

  lemma OrdersApart(tokens: seq<Token>, found: seq<nat>)
    requires Found(tokens, found)
    ensures var m := Tally(tokens, found); Apart(m)
  {
    TallyOrders(tokens, found);
    var m := Tally(tokens, found);
    hide Tally, FirstOf;
    forall x, y | x in m && y in m && m[x].order == m[y].order ensures x == y {
      assert PairOk(tokens, found, m, x, y);
    }
  }

  // ----- the sorted roster -----

  function EntryOf(m: map<string, EditorState>, e: string): RosterEntry
    requires e in m
  {
    RosterEntry(e, m[e].className, m[e].count)
  }

  /** More tokens first; of equally many, who appeared first. */
  predicate Ahead(m: map<string, EditorState>, e: string, f: string)
    requires e in m && f in m
  {
    m[e].count > m[f].count || (m[e].count == m[f].count && m[e].order < m[f].order)
  }

  ghost predicate InRosterOrder(m: map<string, EditorState>, names: seq<string>) {
    && (forall i :: 0 <= i < |names| ==> names[i] in m)
    && forall i, j :: 0 <= i < j < |names| ==> Ahead(m, names[i], names[j])
  }

  ghost predicate Apart(m: map<string, EditorState>) {
    forall x, y :: x in m && y in m && m[x].order == m[y].order ==> x == y
  }

  lemma AheadOrBehind(m: map<string, EditorState>, e: string, f: string)
    requires Apart(m) && e in m && f in m && e != f
    ensures Ahead(m, e, f) || Ahead(m, f, e)
  {
  }

  lemma AheadTrans(m: map<string, EditorState>, e: string, f: string, g: string)
    requires e in m && f in m && g in m && Ahead(m, e, f) && Ahead(m, f, g)
    ensures Ahead(m, e, g)
  {
  }

  lemma Inserted(m: map<string, EditorState>, names: seq<string>, i: nat, e: string)
    requires Apart(m) && InRosterOrder(m, names) && e in m && e !in names && i <= |names|
    requires forall k :: 0 <= k < i ==> Ahead(m, names[k], e)
    requires i < |names| ==> !Ahead(m, names[i], e)
    ensures InRosterOrder(m, names[..i] + [e] + names[i..])
  {
    hide Ahead;
    var r := names[..i] + [e] + names[i..];
    forall x, y | 0 <= x < y < |r| ensures Ahead(m, r[x], r[y]) {
      if x == i {
        assert r[y] == names[y - 1];
        AheadOrBehind(m, names[i], e);
        if y - 1 > i { AheadTrans(m, e, names[i], names[y - 1]); }
      } else if y != i {
        assert r[x] == names[if x < i then x else x - 1] && r[y] == names[if y < i then y else y - 1];
      }
    }
  }

  method InsertName(m: map<string, EditorState>, names: seq<string>, e: string) returns (r: seq<string>)
    requires InRosterOrder(m, names) && e in m && e !in names && Apart(m)
    ensures InRosterOrder(m, r) && forall x :: x in r <==> x in names || x == e
  {
    var i := 0;
    while i < |names| && Ahead(m, names[i], e)
      invariant 0 <= i <= |names|
      invariant forall k :: 0 <= k < i ==> Ahead(m, names[k], e)
    {
      i := i + 1;
    }
    Inserted(m, names, i, e);
    r := names[..i] + [e] + names[i..];
    assert names == names[..i] + names[i..];
  }

  /** The map's entries, in whatever order it yields them, sorted. */
  method SortRoster(m: map<string, EditorState>) returns (names: seq<string>, roster: seq<RosterEntry>)
    requires Apart(m)
    ensures InRosterOrder(m, names) && (forall x :: x in names <==> x in m)
    ensures |roster| == |names| && forall i :: 0 <= i < |names| ==> roster[i] == EntryOf(m, names[i])
  {
    names := [];
    var left := m.Keys;
    while left != {}
      invariant left <= m.Keys && InRosterOrder(m, names)
      invariant forall x :: x in names <==> x in m && x !in left
      decreases left
    {
      var e :| e in left;
      names := InsertName(m, names, e);
      left := left - {e};
    }
    roster := seq(|names|, i requires 0 <= i < |names| => EntryOf(m, names[i]));
  }

  /** What the roster of the found tokens must be. */
  ghost predicate RosterOk(tokens: seq<Token>, found: seq<nat>, roster: seq<RosterEntry>)
    requires forall i :: 0 <= i < |found| ==> found[i] < |tokens|
  {
    && (forall e :: TokensOf(tokens, found, e) > 0 <==> exists i :: 0 <= i < |roster| && roster[i].editor == e)
    && (forall i :: 0 <= i < |roster| ==> RowOk(tokens, found, roster[i]))
    && forall i, j :: 0 <= i < j < |roster| ==> Precedes(tokens, found, roster[i], roster[j])
  }

  ghost predicate RowOk(tokens: seq<Token>, found: seq<nat>, r: RosterEntry)
    requires forall i :: 0 <= i < |found| ==> found[i] < |tokens|
  {
    var first := FirstOf(tokens, found, r.editor);
    && r.count == TokensOf(tokens, found, r.editor)
    && first.Some? && first.value < |tokens| && r.className == tokens[first.value].className
  }

  ghost predicate Precedes(tokens: seq<Token>, found: seq<nat>, r: RosterEntry, s: RosterEntry)
    requires forall i :: 0 <= i < |found| ==> found[i] < |tokens|
  {
    && r.editor != s.editor
    && (r.count > s.count
        || (r.count == s.count && FirstOf(tokens, found, r.editor).Some? && FirstOf(tokens, found, s.editor).Some?
            && FirstOf(tokens, found, r.editor).value < FirstOf(tokens, found, s.editor).value))
  }

  lemma RosterIs(tokens: seq<Token>, found: seq<nat>, names: seq<string>, roster: seq<RosterEntry>)
    requires Found(tokens, found)
    requires var m := Tally(tokens, found);
      && InRosterOrder(m, names) && (forall x :: x in names <==> x in m)
      && |roster| == |names| && forall i :: 0 <= i < |names| ==> roster[i] == EntryOf(m, names[i])
    ensures RosterOk(tokens, found, roster)
  {
    var m := Tally(tokens, found);
    hide Tally, FirstOf, TokensOf;
    forall e ensures StateOk(tokens, found, e, m) { TallyCounts(tokens, found, e); }
    TallyOrders(tokens, found);
    forall e ensures TokensOf(tokens, found, e) > 0 <==> exists i :: 0 <= i < |roster| && roster[i].editor == e {
      assert StateOk(tokens, found, e, m);
      if e in m {
        var i :| 0 <= i < |names| && names[i] == e;
        assert roster[i].editor == e;
      }
    }
    forall i | 0 <= i < |roster| ensures RowOk(tokens, found, roster[i]) {
      assert StateOk(tokens, found, names[i], m);
    }
    forall i, j | 0 <= i < j < |roster| ensures Precedes(tokens, found, roster[i], roster[j]) {
      assert StateOk(tokens, found, names[i], m) && StateOk(tokens, found, names[j], m);
      assert Ahead(m, names[i], names[j]) && PairOk(tokens, found, m, names[i], names[j]);
    }
  }
}
