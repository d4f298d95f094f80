/** How many tokens the differ keeps: with no popular token, exactly those of the matching
    blocks, since a replaced stretch then has no token in common to synchronise on. */
module DifferKeeps {
  import opened Wrappers
  import opened Seqs
  import opened EditScript
  import opened Interning
  import opened DifferSpec
  import M = Matching
  import D = Decomposition

  ghost predicate NothingShared(a: seq<string>, alo: nat, ahi: nat, b: seq<string>, blo: nat, bhi: nat)
    requires ahi <= |a| && bhi <= |b|
  {
    forall i, j :: alo <= i < ahi && blo <= j < bhi ==> a[i] != b[j]
  }

  lemma KeepsThree(x: seq<DiffOp>, y: seq<DiffOp>, z: seq<DiffOp>)
    ensures Keeps(x + y + z) == Keeps(x) + Keeps(y) + Keeps(z)
  {
    KeepsAppend(x, y);
    KeepsAppend(x + y, z);
  }

  /** Without a shared token the identical-pair branch is never taken, at any depth. */
  lemma {:induction false} FancyKeepsNone(a: seq<string>, alo: nat, ahi: nat, b: seq<string>, blo: nat, bhi: nat)
    requires alo < ahi <= |a| && blo < bhi <= |b| && NothingShared(a, alo, ahi, b, blo, bhi)
    ensures Columns(a, b, alo, ahi, blo, bhi).identical.None?
    ensures Keeps(Fancy(a, alo, ahi, b, blo, bhi)) == 0
    decreases ahi - alo + (bhi - blo), 0
  {
    hide Keeps, Columns, Helper, CharRatio, Judged;
    var s := Columns(a, b, alo, ahi, blo, bhi);
    ColumnsBest(a, b, alo, ahi, blo, bhi);
    assert s.identical.None?;
    if s.ratio >= CUTOFF {
      assert alo <= s.i < ahi && blo <= s.j < bhi;
      HelperKeepsNone(a, alo, s.i, b, blo, s.j);
      HelperKeepsNone(a, s.i + 1, ahi, b, s.j + 1, bhi);
      PairKeepsNone(a[s.i], b[s.j]);
      KeepsThree(Helper(a, alo, s.i, b, blo, s.j), [Delete(a[s.i]), Insert(b[s.j])],
          Helper(a, s.i + 1, ahi, b, s.j + 1, bhi));
    } else {
      PlainKeepsNone(a[alo..ahi], b[blo..bhi]);
    }
  }

  lemma {:induction false} HelperKeepsNone(a: seq<string>, alo: nat, ahi: nat, b: seq<string>, blo: nat, bhi: nat)
    requires alo <= ahi <= |a| && blo <= bhi <= |b| && NothingShared(a, alo, ahi, b, blo, bhi)
    ensures Keeps(Helper(a, alo, ahi, b, blo, bhi)) == 0
    decreases ahi - alo + (bhi - blo), 1
  {
    hide Keeps, Fancy, Columns;
    if alo < ahi && blo < bhi {
      FancyKeepsNone(a, alo, ahi, b, blo, bhi);
    } else {
      PlainKeepsNone(a[alo..ahi], b[blo..bhi]);
    }
  }

  lemma PairKeepsNone(x: string, y: string)
    ensures Keeps([Delete(x), Insert(y)]) == 0
  {
    assert [Delete(x), Insert(y)] == [Delete(x)] + [Insert(y)];
    ScriptOne(Delete(x));
    ScriptOne(Insert(y));
    KeepsAppend([Delete(x)], [Insert(y)]);
  }

  lemma PlainKeepsNone(a: seq<string>, b: seq<string>)
    ensures Keeps(PlainReplace(a, b)) == 0 && Keeps(Deletes(a)) == 0 && Keeps(Inserts(b)) == 0 && Keeps<string>([]) == 0
  {
    DeletesSpell(a);
    InsertsSpell(b);
    KeepsAppend(Deletes(a), Inserts(b));
    KeepsAppend(Inserts(b), Deletes(a));
    ScriptCounts(Deletes(a));
    ScriptCounts(Inserts(b));
  }

  // ----- whole transcripts -----

  function EqualLength(c: D.OpCode): int {
    if c.tag.Equal? then c.i2 - c.i1 else 0
  }

  function EqualTotal(codes: seq<D.OpCode>): int {
    if codes == [] then 0 else EqualLength(codes[0]) + EqualTotal(codes[1..])
  }

  lemma {:induction false} EqualAppend(x: seq<D.OpCode>, y: seq<D.OpCode>)
    ensures EqualTotal(x + y) == EqualTotal(x) + EqualTotal(y)
  {
    if x == [] {
      assert x + y == y;
    } else {
      assert (x + y)[0] == x[0] && (x + y)[1..] == x[1..] + y;
      EqualAppend(x[1..], y);
    }
  }

  lemma OneCode(c: D.OpCode)
    ensures EqualTotal([c]) == EqualLength(c) && EqualTotal([]) == 0
  {
    assert [c][1..] == [];
  }

  lemma GapAndBlock(i: nat, i2: nat, j: nat, j2: nat, m: M.Match)
    ensures EqualTotal(D.Gap(i, i2, j, j2)) == 0 && EqualTotal(D.Same(m)) == m.size
  {
    hide EqualTotal;
    OneCode(D.OpCode(D.Replace, i, i2, j, j2));
    OneCode(D.OpCode(D.Delete, i, i2, j, j2));
    OneCode(D.OpCode(D.Insert, i, i2, j, j2));
    OneCode(D.OpCode(D.Equal, m.aStart, m.aStart + m.size, m.bStart, m.bStart + m.size));
  }

  /** The Equal segments are the blocks. */
  lemma {:induction false} CodesTotal(ms: seq<M.Match>, i: nat, j: nat)
    ensures EqualTotal(D.Codes(ms, i, j)) == D.Total(ms)
    decreases |ms|
  {
    hide D.Gap, D.Same, EqualLength;
    if ms != [] {
      var m := ms[0];
      var gap, same := D.Gap(i, m.aStart, j, m.bStart), D.Same(m);
      var rest := D.Codes(ms[1..], m.aStart + m.size, m.bStart + m.size);
      CodesTotal(ms[1..], m.aStart + m.size, m.bStart + m.size);
      GapAndBlock(i, m.aStart, j, m.bStart, m);
      EqualAppend(gap, same);
      EqualAppend(gap + same, rest);
    }
  }

  lemma SharedIds(prev: seq<string>, curr: seq<string>, c: D.OpCode)
    requires c.i1 <= c.i2 <= |prev| && c.j1 <= c.j2 <= |curr|
    requires D.NoShare(Interned(prev, curr), c.i1, c.i2, c.j1, c.j2)
    ensures NothingShared(prev, c.i1, c.i2, curr, c.j1, c.j2)
  {
    var p, table := Interned(prev, curr), Distinct(prev + curr);
    DistinctFacts(prev + curr);
    forall i, j | c.i1 <= i < c.i2 && c.j1 <= j < c.j2 ensures prev[i] != curr[j] {
      assert p.a[i] != p.b[j];
      assert table[p.a[i]] == prev[i] && table[p.b[j]] == curr[j];
    }
  }

  lemma SegmentKeeps(prev: seq<string>, curr: seq<string>, c: D.OpCode)
    requires Readable(prev, curr, c) && D.SegmentOk(Interned(prev, curr), c, true)
    ensures Keeps(Segment(prev, curr, c)) == EqualLength(c)
  {
    hide Fancy, Keeps;
    match c.tag {
      case Equal =>
        KeepAllSpells(prev[c.i1..c.i2]);
        ScriptCounts(KeepAll(prev[c.i1..c.i2]));
      case Replace =>
        SharedIds(prev, curr, c);
        FancyKeepsNone(prev, c.i1, c.i2, curr, c.j1, c.j2);
      case _ => PlainKeepsNone(prev[c.i1..c.i2], curr[c.j1..c.j2]);
    }
  }

  lemma {:induction false} SegmentsKeep(prev: seq<string>, curr: seq<string>, codes: seq<D.OpCode>, i: nat, j: nat)
    requires D.Tiles(Interned(prev, curr), codes, i, j, true) && forall c :: c in codes ==> Readable(prev, curr, c)
    ensures Keeps(Segments(prev, curr, codes)) == EqualTotal(codes)
    decreases |codes|
  {
    hide Segment, Readable, Interned, D.SegmentOk, EqualLength, Keeps;
    if codes == [] {
      PlainKeepsNone([], []);
    } else {
      var c := codes[0];
      SegmentKeeps(prev, curr, c);
      SegmentsKeep(prev, curr, codes[1..], c.i2, c.j2);
      assert codes == [c] + codes[1..];
      SegmentsAppend(prev, curr, [c], codes[1..]);
      OneSegment(prev, curr, c);
      KeepsAppend(Segment(prev, curr, c), Segments(prev, curr, codes[1..]));
    }
  }

  /** With no popular token the differ keeps exactly the tokens of the matching blocks. */
  lemma KeepsAreMatches(prev: seq<string>, curr: seq<string>)
    requires M.NonePopular(Interned(prev, curr))
    ensures Keeps(Compare(prev, curr)) == D.Total(D.MatchingBlocks(Interned(prev, curr)))
  {
    hide D.Tiles, D.TakeTurns, D.Codes, D.MatchingBlocks, Keeps, Segments;
    var p := Interned(prev, curr);
    D.OpcodesTile(p, true);
    CodesReadable(prev, curr);
    SegmentsKeep(prev, curr, D.Opcodes(p), 0, 0);
    CodesTotal(D.MatchingBlocks(p), 0, 0);
  }
}
