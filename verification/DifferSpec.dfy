/** What the token-level differ produces, as functions: which pair of a replaced stretch it
    synchronises on, and the transcript it assembles. */
module DifferSpec {
  import opened Wrappers
  import opened Seqs
  import opened EditScript
  import opened Interning
  import M = Matching
  import D = Decomposition

  type DiffOp = Op<string>

  // ----- the pair to synchronise on -----

  ghost function CharRatio(x: string, y: string): real {
    D.Ratio(M.Inputs(x, y, true))
  }

  /** The closest pair so far, and the first identical one. */
  datatype Best = Best(ratio: real, i: nat, j: nat, identical: Option<(nat, nat)>)

  const START: real := 0.74
  const CUTOFF: real := 0.75

  ghost function Consider(a: seq<string>, b: seq<string>, i: nat, j: nat, s: Best): Best
    requires i < |a| && j < |b|
  {
    if a[i] == b[j] then (if s.identical.None? then s.(identical := Some((i, j))) else s)
    else if CharRatio(a[i], b[j]) > s.ratio then Best(CharRatio(a[i], b[j]), i, j, s.identical)
    else s
  }

  /** Considers the pairs of column `j` with rows `alo` up to `i`. */
  ghost function Column(a: seq<string>, b: seq<string>, alo: nat, i: nat, j: nat, s: Best): Best
    requires alo <= i <= |a| && j < |b|
    decreases i
  {
    if i == alo then s else Consider(a, b, i - 1, j, Column(a, b, alo, i - 1, j, s))
  }

  /** Considers the columns `blo` up to `j`, each from top to bottom. */
  ghost function Columns(a: seq<string>, b: seq<string>, alo: nat, ahi: nat, blo: nat, j: nat): Best
    requires alo <= ahi <= |a| && blo <= j <= |b|
    decreases j
  {
    if j == blo then Best(START, 0, 0, None)
    else Column(a, b, alo, ahi, j - 1, Columns(a, b, alo, ahi, blo, j - 1))
  }

  /** Column-major order of pairs. */
  predicate Before(i: int, j: int, i': int, j': int) {
    j < j' || (j == j' && i <= i')
  }

  ghost predicate Seen(alo: nat, ahi: nat, blo: nat, i: int, j: int, upToI: int, upToJ: int) {
    alo <= i < ahi && blo <= j && (j < upToJ || (j == upToJ && i < upToI))
  }

  /** Of the pairs seen, `s` has the first of the closest ones above the starting ratio, and
      the first identical one. */
  ghost predicate BestOf(a: seq<string>, b: seq<string>, alo: nat, ahi: nat, blo: nat, s: Best, upToI: nat, upToJ: nat)
    requires ahi <= |a|
  {
    && s.ratio >= START
    && (s.ratio > START ==>
          && s.i < |a| && s.j < |b| && Seen(alo, ahi, blo, s.i, s.j, upToI, upToJ)
          && a[s.i] != b[s.j] && CharRatio(a[s.i], b[s.j]) == s.ratio)
    && (s.identical.Some? ==>
          var (i, j) := s.identical.value;
          i < |a| && j < |b| && Seen(alo, ahi, blo, i, j, upToI, upToJ) && a[i] == b[j])
    && forall i, j :: Seen(alo, ahi, blo, i, j, upToI, upToJ) && j < |b| ==> Judged(a, b, s, i, j)
  }

  ghost predicate Judged(a: seq<string>, b: seq<string>, s: Best, i: int, j: int)
    requires 0 <= i < |a| && 0 <= j < |b|
  {
    if a[i] == b[j] then s.identical.Some? && Before(s.identical.value.0, s.identical.value.1, i, j)
    else CharRatio(a[i], b[j]) <= s.ratio && (CharRatio(a[i], b[j]) == s.ratio > START ==> Before(s.i, s.j, i, j))
  }

  lemma ConsiderBest(a: seq<string>, b: seq<string>, alo: nat, ahi: nat, blo: nat, i: nat, j: nat, s: Best)
    requires alo <= i < ahi <= |a| && blo <= j < |b| && BestOf(a, b, alo, ahi, blo, s, i, j)
    ensures BestOf(a, b, alo, ahi, blo, Consider(a, b, i, j, s), i + 1, j)
  {
    hide CharRatio;
    var s' := Consider(a, b, i, j, s);
    forall i', j' | Seen(alo, ahi, blo, i', j', i + 1, j) && j' < |b| ensures Judged(a, b, s', i', j') {
      if !(i' == i && j' == j) {
        assert Seen(alo, ahi, blo, i', j', i, j);
        assert Judged(a, b, s, i', j');
      }
    }
  }

  lemma {:induction false} ColumnBest(a: seq<string>, b: seq<string>, alo: nat, ahi: nat, blo: nat, i: nat, j: nat,
      s: Best)
    requires alo <= i <= ahi <= |a| && blo <= j < |b| && BestOf(a, b, alo, ahi, blo, s, alo, j)
    ensures BestOf(a, b, alo, ahi, blo, Column(a, b, alo, i, j, s), i, j)
    decreases i
  {
    hide BestOf;
    if i > alo {
      ColumnBest(a, b, alo, ahi, blo, i - 1, j, s);
      ConsiderBest(a, b, alo, ahi, blo, i - 1, j, Column(a, b, alo, i - 1, j, s));
    }
  }

  lemma NextColumn(a: seq<string>, b: seq<string>, alo: nat, ahi: nat, blo: nat, j: nat, s: Best)
    requires ahi <= |a| && BestOf(a, b, alo, ahi, blo, s, ahi, j)
    ensures BestOf(a, b, alo, ahi, blo, s, alo, j + 1)
  {
    hide CharRatio, Judged;
    forall i', j' | Seen(alo, ahi, blo, i', j', alo, j + 1) && j' < |b| ensures Judged(a, b, s, i', j') {
      assert Seen(alo, ahi, blo, i', j', ahi, j);
    }
  }

  /** The scan finds the first closest pair and the first identical pair, in column order. */
  lemma {:induction false} ColumnsBest(a: seq<string>, b: seq<string>, alo: nat, ahi: nat, blo: nat, j: nat)
    requires alo <= ahi <= |a| && blo <= j <= |b|
    ensures BestOf(a, b, alo, ahi, blo, Columns(a, b, alo, ahi, blo, j), alo, j)
    decreases j
  {
    hide BestOf, Column;
    if j == blo {
      NothingSeen(a, b, alo, ahi, blo);
    } else {
      var s := Columns(a, b, alo, ahi, blo, j - 1);
      ColumnsBest(a, b, alo, ahi, blo, j - 1);
      ColumnBest(a, b, alo, ahi, blo, ahi, j - 1, s);
      NextColumn(a, b, alo, ahi, blo, j - 1, Column(a, b, alo, ahi, j - 1, s));
    }
  }

  lemma NothingSeen(a: seq<string>, b: seq<string>, alo: nat, ahi: nat, blo: nat)
    requires ahi <= |a|
    ensures BestOf(a, b, alo, ahi, blo, Best(START, 0, 0, None), alo, blo)
  {
  }

  /** The short-circuit test of three ratios accepts exactly what the exact ratio accepts. */
  lemma ThreeStages(x: string, y: string, limit: real)
    ensures var p := M.Inputs(x, y, true);
      (D.RealQuickRatio(p) > limit && D.QuickRatio(p) > limit && D.Ratio(p) > limit) <==> CharRatio(x, y) > limit
  {
    D.RatioBounds(M.Inputs(x, y, true));
  }

  // ----- the transcript of a replaced stretch -----

  /** The shorter side first; deletes first when the sides are equally long. */
  function PlainReplace(a: seq<string>, b: seq<string>): seq<DiffOp> {
    if |b| < |a| then Inserts(b) + Deletes(a) else Deletes(a) + Inserts(b)
  }

  /** Synchronises on a close pair, else on an identical one, and recurses on both sides. */
  ghost function Fancy(a: seq<string>, alo: nat, ahi: nat, b: seq<string>, blo: nat, bhi: nat): seq<DiffOp>
    requires alo < ahi <= |a| && blo < bhi <= |b|
    decreases ahi - alo + (bhi - blo), 0
  {
    var s := Columns(a, b, alo, ahi, blo, bhi);
    ColumnsBest(a, b, alo, ahi, blo, bhi);
    if s.ratio >= CUTOFF then
      Helper(a, alo, s.i, b, blo, s.j) + [Delete(a[s.i]), Insert(b[s.j])] + Helper(a, s.i + 1, ahi, b, s.j + 1, bhi)
    else if s.identical.Some? then
      var (i, j) := s.identical.value;
      Helper(a, alo, i, b, blo, j) + [Keep(a[i])] + Helper(a, i + 1, ahi, b, j + 1, bhi)
    else PlainReplace(a[alo..ahi], b[blo..bhi])
  }

  ghost function Helper(a: seq<string>, alo: nat, ahi: nat, b: seq<string>, blo: nat, bhi: nat): seq<DiffOp>
    requires alo <= ahi <= |a| && blo <= bhi <= |b|
    decreases ahi - alo + (bhi - blo), 1
  {
    if alo < ahi then
      (if blo < bhi then Fancy(a, alo, ahi, b, blo, bhi) else Deletes(a[alo..ahi]))
    else if blo < bhi then Inserts(b[blo..bhi])
    else []
  }

  lemma PlainSpells(a: seq<string>, b: seq<string>)
    ensures Spells(PlainReplace(a, b), a, b)
  {
    hide Old, New, Deletes, Inserts;
    DeletesSpell(a);
    InsertsSpell(b);
    ScriptAppend(Deletes(a), Inserts(b));
    ScriptAppend(Inserts(b), Deletes(a));
  }

  lemma CutInThree<T>(s: seq<T>, lo: nat, i: nat, i2: nat, hi: nat)
    requires lo <= i <= i2 <= hi <= |s|
    ensures s[lo..hi] == s[lo..i] + s[i..i2] + s[i2..hi]
  {
  }

  lemma SpellsAround(x: seq<DiffOp>, mid: seq<DiffOp>, y: seq<DiffOp>, a: seq<string>, alo: nat, i: nat, i2: nat,
      ahi: nat,
                     b: seq<string>, blo: nat, j: nat, j2: nat, bhi: nat)
    requires alo <= i <= i2 <= ahi <= |a| && blo <= j <= j2 <= bhi <= |b|
    requires Spells(x, a[alo..i], b[blo..j]) && Spells(mid, a[i..i2], b[j..j2]) && Spells(y, a[i2..ahi], b[j2..bhi])
    ensures Spells(x + mid + y, a[alo..ahi], b[blo..bhi])
  {
    hide Old, New;
    ScriptAppend(x, mid);
    ScriptAppend(x + mid, y);
    CutInThree(a, alo, i, i2, ahi);
    CutInThree(b, blo, j, j2, bhi);
  }

  lemma PairSpells(x: string, y: string)
    ensures Spells<string>([Delete(x), Insert(y)], [x], [y]) && Spells<string>([Keep(x)], [x], [x])
  {
    ScriptOne<string>(Delete(x));
    ScriptOne<string>(Insert(y));
    ScriptOne<string>(Keep(x));
    ScriptAppend<string>([Delete(x)], [Insert(y)]);
    assert [Delete(x), Insert(y)] == [Delete(x)] + [Insert(y)];
  }

  /** A replaced stretch's transcript spells both of its sides. */
  lemma {:induction false} FancySpells(a: seq<string>, alo: nat, ahi: nat, b: seq<string>, blo: nat, bhi: nat)
    requires alo < ahi <= |a| && blo < bhi <= |b|
    ensures Spells(Fancy(a, alo, ahi, b, blo, bhi), a[alo..ahi], b[blo..bhi])
    decreases ahi - alo + (bhi - blo), 0
  {
    hide Spells, Columns, Helper, PlainReplace, CharRatio, Judged;
    var s := Columns(a, b, alo, ahi, blo, bhi);
    ColumnsBest(a, b, alo, ahi, blo, bhi);
    if s.ratio >= CUTOFF {
      HelperSpells(a, alo, s.i, b, blo, s.j);
      HelperSpells(a, s.i + 1, ahi, b, s.j + 1, bhi);
      PairSpells(a[s.i], b[s.j]);
      assert a[s.i..s.i + 1] == [a[s.i]] && b[s.j..s.j + 1] == [b[s.j]];
      SpellsAround(Helper(a, alo, s.i, b, blo, s.j), [Delete(a[s.i]), Insert(b[s.j])],
          Helper(a, s.i + 1, ahi, b, s.j + 1, bhi),
                   a, alo, s.i, s.i + 1, ahi, b, blo, s.j, s.j + 1, bhi);
    } else if s.identical.Some? {
      var (i, j) := s.identical.value;
      HelperSpells(a, alo, i, b, blo, j);
      HelperSpells(a, i + 1, ahi, b, j + 1, bhi);
      PairSpells(a[i], b[j]);
      assert a[i..i + 1] == [a[i]] && b[j..j + 1] == [a[i]];
      SpellsAround(Helper(a, alo, i, b, blo, j), [Keep(a[i])], Helper(a, i + 1, ahi, b, j + 1, bhi),
                   a, alo, i, i + 1, ahi, b, blo, j, j + 1, bhi);
    } else {
      PlainSpells(a[alo..ahi], b[blo..bhi]);
    }
  }

  lemma {:induction false} HelperSpells(a: seq<string>, alo: nat, ahi: nat, b: seq<string>, blo: nat, bhi: nat)
    requires alo <= ahi <= |a| && blo <= bhi <= |b|
    ensures Spells(Helper(a, alo, ahi, b, blo, bhi), a[alo..ahi], b[blo..bhi])
    decreases ahi - alo + (bhi - blo), 1
  {
    hide Fancy;
    DeletesSpell(a[alo..ahi]);
    InsertsSpell(b[blo..bhi]);
    if alo < ahi && blo < bhi {
      FancySpells(a, alo, ahi, b, blo, bhi);
    }
  }

  // ----- the whole transcript -----

  /** The segment's ranges lie in the two lists; a Replace has something on both sides. */
  ghost predicate Readable(prev: seq<string>, curr: seq<string>, c: D.OpCode) {
    && c.i1 <= c.i2 <= |prev| && c.j1 <= c.j2 <= |curr|
    && (c.tag.Replace? ==> c.i1 < c.i2 && c.j1 < c.j2)
  }

  ghost function Segment(prev: seq<string>, curr: seq<string>, c: D.OpCode): seq<DiffOp>
    requires Readable(prev, curr, c)
  {
    match c.tag
    case Equal => KeepAll(prev[c.i1..c.i2])
    case Delete => Deletes(prev[c.i1..c.i2])
    case Insert => Inserts(curr[c.j1..c.j2])
    case Replace => Fancy(prev, c.i1, c.i2, curr, c.j1, c.j2)
  }

  ghost function Segments(prev: seq<string>, curr: seq<string>, codes: seq<D.OpCode>): seq<DiffOp>
    requires forall c :: c in codes ==> Readable(prev, curr, c)
  {
    if codes == [] then []
    else Segments(prev, curr, codes[..|codes| - 1]) + Segment(prev, curr, codes[|codes| - 1])
  }

  /** The two lists as ids of one table. */
  ghost function Interned(prev: seq<string>, curr: seq<string>): (p: M.Inputs<nat>)
    ensures |p.a| == |prev| && |p.b| == |curr| && p.autojunk
    ensures var table := Distinct(prev + curr); IdsOf(table, prev, p.a) && IdsOf(table, curr, p.b)
  {
    DistinctFacts(prev + curr);
    ElemsAppend(prev, curr);
    M.Inputs(Ids(Distinct(prev + curr), prev), Ids(Distinct(prev + curr), curr), true)
  }

  /** The transcript that the differ returns for two token lists. */
  ghost function Compare(prev: seq<string>, curr: seq<string>): seq<DiffOp> {
    var p := Interned(prev, curr);
    CodesReadable(prev, curr);
    Segments(prev, curr, D.Opcodes(p))
  }

  lemma {:induction false} TiledReadable<T(!new)>(p: M.Inputs<T>, prev: seq<string>, curr: seq<string>,
      codes: seq<D.OpCode>, i: nat, j: nat)
    requires |p.a| == |prev| && |p.b| == |curr| && D.Tiles(p, codes, i, j, false)
    ensures forall c :: c in codes ==> Readable(prev, curr, c)
    decreases |codes|
  {
    if codes != [] {
      TiledReadable(p, prev, curr, codes[1..], codes[0].i2, codes[0].j2);
    }
  }

  lemma CodesReadable(prev: seq<string>, curr: seq<string>)
    ensures forall c :: c in D.Opcodes(Interned(prev, curr)) ==> Readable(prev, curr, c)
  {
    var p := Interned(prev, curr);
    D.OpcodesTile(p, false);
    TiledReadable(p, prev, curr, D.Opcodes(p), 0, 0);
  }

  lemma SegmentSpells(prev: seq<string>, curr: seq<string>, c: D.OpCode)
    requires D.SegmentOk(Interned(prev, curr), c, false)
    ensures Readable(prev, curr, c) && Spells(Segment(prev, curr, c), prev[c.i1..c.i2], curr[c.j1..c.j2])
  {
    hide Fancy;
    var p := Interned(prev, curr);
    KeepAllSpells(prev[c.i1..c.i2]);
    DeletesSpell(prev[c.i1..c.i2]);
    InsertsSpell(curr[c.j1..c.j2]);
    match c.tag {
      case Equal => SameStrings(prev, curr, c);
      case Replace => FancySpells(prev, c.i1, c.i2, curr, c.j1, c.j2);
      case _ =>
    }
  }

  lemma SameStrings(prev: seq<string>, curr: seq<string>, c: D.OpCode)
    requires var p := Interned(prev, curr);
      c.i1 <= c.i2 <= |prev| && c.j1 <= c.j2 <= |curr| && p.a[c.i1..c.i2] == p.b[c.j1..c.j2]
    ensures prev[c.i1..c.i2] == curr[c.j1..c.j2]
  {
    var p := Interned(prev, curr);
    var x, y := p.a[c.i1..c.i2], p.b[c.j1..c.j2];
    assert |x| == |y|;
    forall t | 0 <= t < c.i2 - c.i1 ensures prev[c.i1..c.i2][t] == curr[c.j1..c.j2][t] {
      assert x[t] == p.a[c.i1 + t] && y[t] == p.b[c.j1 + t];
    }
  }

  lemma {:induction false} SegmentsAppend(prev: seq<string>, curr: seq<string>, x: seq<D.OpCode>, y: seq<D.OpCode>)
    requires (forall c :: c in x ==> Readable(prev, curr, c)) && forall c :: c in y ==> Readable(prev, curr, c)
    ensures forall c :: c in x + y ==> Readable(prev, curr, c)
    ensures Segments(prev, curr, x + y) == Segments(prev, curr, x) + Segments(prev, curr, y)
    decreases |y|
  {
    hide Segment, Readable;
    if y == [] {
      assert x + y == x;
    } else {
      var n := |y| - 1;
      assert (x + y)[..|x| + n] == x + y[..n] && (x + y)[|x| + n] == y[n];
      SegmentsAppend(prev, curr, x, y[..n]);
    }
  }

  lemma {:induction false} SegmentsSpell(prev: seq<string>, curr: seq<string>, codes: seq<D.OpCode>, i: nat, j: nat)
    requires i <= |prev| && j <= |curr| && D.Tiles(Interned(prev, curr), codes, i, j, false)
    requires forall c :: c in codes ==> Readable(prev, curr, c)
    ensures Spells(Segments(prev, curr, codes), prev[i..], curr[j..])
    decreases |codes|
  {
    hide Segment, Spells, Readable, Interned, D.SegmentOk;
    if codes == [] {
      assert prev[i..] == [] && curr[j..] == [];
      NothingSpells();
    } else {
      var c := codes[0];
      SegmentSpells(prev, curr, c);
      SegmentInside(prev, curr, c);
      SegmentsSpell(prev, curr, codes[1..], c.i2, c.j2);
      assert codes == [c] + codes[1..];
      SegmentsAppend(prev, curr, [c], codes[1..]);
      OneSegment(prev, curr, c);
      SpellsThen(Segment(prev, curr, c), Segments(prev, curr, codes[1..]), prev, i, c.i2, curr, j, c.j2);
    }
  }

  lemma SegmentInside(prev: seq<string>, curr: seq<string>, c: D.OpCode)
    requires Readable(prev, curr, c)
    ensures c.i1 <= c.i2 <= |prev| && c.j1 <= c.j2 <= |curr|
  {
  }

  lemma OneSegment(prev: seq<string>, curr: seq<string>, c: D.OpCode)
    requires Readable(prev, curr, c)
    ensures Segments(prev, curr, [c]) == Segment(prev, curr, c)
  {
    assert [c][..0] == [];
    assert Segments(prev, curr, [c]) == Segments(prev, curr, [c][..0]) + Segment(prev, curr, c);
  }

  lemma NothingSpells()
    ensures Spells<string>([], [], [])
  {
  }

  lemma SpellsThen(x: seq<DiffOp>, y: seq<DiffOp>, a: seq<string>, i: nat, i2: nat, b: seq<string>, j: nat, j2: nat)
    requires i <= i2 <= |a| && j <= j2 <= |b|
    requires Spells(x, a[i..i2], b[j..j2]) && Spells(y, a[i2..], b[j2..])
    ensures Spells(x + y, a[i..], b[j..])
  {
    hide Old, New;
    ScriptAppend(x, y);
    assert a[i..] == a[i..i2] + a[i2..] && b[j..] == b[j..j2] + b[j2..];
  }

  /** The differ's transcript reconstructs both token lists, whatever they are. */
  lemma CompareSpells(prev: seq<string>, curr: seq<string>)
    ensures Spells(Compare(prev, curr), prev, curr)
  {
    hide D.Opcodes, D.Tiles, D.TakeTurns;
    var p := Interned(prev, curr);
    D.OpcodesTile(p, false);
    CodesReadable(prev, curr);
    SegmentsSpell(prev, curr, D.Opcodes(p), 0, 0);
    assert prev[0..] == prev && curr[0..] == curr;
  }
}
