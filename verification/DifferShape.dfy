/** The shape of the differ's transcript, in integers and without the functions that compute
    it: which pair a replaced stretch is synchronised on, and what stands around it. */
module DifferShape {
  import opened Wrappers
  import opened Seqs
  import opened EditScript
  import opened Interning
  import opened DifferSpec
  import M = Matching
  import D = Decomposition

  /** How many characters the matching blocks of two strings hold. */
  ghost function Alike(x: string, y: string): nat {
    D.Total(D.MatchingBlocks(M.Inputs(x, y, true)))
  }

  /** Different, with three quarters of their characters or more in matching blocks. */
  ghost predicate Close(x: string, y: string) {
    x != y && 8 * Alike(x, y) >= 3 * (|x| + |y|)
  }

  /** A pair of rows and columns in the two ranges. */
  datatype Range = Range(a: seq<string>, alo: nat, ahi: nat, b: seq<string>, blo: nat, bhi: nat)

  ghost predicate RangeOk(r: Range) {
    r.alo < r.ahi <= |r.a| && r.blo < r.bhi <= |r.b|
  }

  predicate InRange(r: Range, i: int, j: int) {
    r.alo <= i < r.ahi <= |r.a| && r.blo <= j < r.bhi <= |r.b|
  }

  ghost predicate ClosePair(r: Range, i: int, j: int) {
    InRange(r, i, j) && Close(r.a[i], r.b[j])
  }

  predicate SamePair(r: Range, i: int, j: int) {
    InRange(r, i, j) && r.a[i] == r.b[j]
  }

  /** The pair (i, j) is at least as alike, for its length, as (i', j'), and comes first in
      column order if they are equally alike. */
  ghost predicate AtLeast(r: Range, i: int, j: int, i': int, j': int)
    requires InRange(r, i, j) && InRange(r, i', j')
  {
    var n, n' := |r.a[i]| + |r.b[j]|, |r.a[i']| + |r.b[j']|;
    && Alike(r.a[i'], r.b[j']) * n <= Alike(r.a[i], r.b[j]) * n'
    && (Alike(r.a[i'], r.b[j']) * n == Alike(r.a[i], r.b[j]) * n' ==> j < j' || (j == j' && i <= i'))
  }

  /** The first of the closest pairs. */
  ghost predicate ClosestPair(r: Range, i: int, j: int) {
    && ClosePair(r, i, j)
    && forall i', j' :: InRange(r, i', j') && r.a[i'] != r.b[j'] ==> AtLeast(r, i, j, i', j')
  }

  ghost predicate FirstSame(r: Range, i: int, j: int) {
    && SamePair(r, i, j)
    && forall i', j' :: SamePair(r, i', j') ==> j < j' || (j == j' && i <= i')
  }

  /** What is before the pair, what is put for it, and what is after it. */
  ghost predicate Around(r: Range, i: nat, j: nat, mid: seq<DiffOp>, t: seq<DiffOp>) {
    && InRange(r, i, j)
    && exists x, y :: t == x + mid + y
         && Spells(x, r.a[r.alo..i], r.b[r.blo..j]) && Stretch(r.a, r.alo, i, r.b, r.blo, j, x)
         && Spells(y, r.a[i + 1..r.ahi], r.b[j + 1..r.bhi]) && Stretch(r.a, i + 1, r.ahi, r.b, j + 1, r.bhi, y)
  }

  /** Two ranges of which one may be empty, replaced in turn. */
  ghost predicate Stretch(a: seq<string>, alo: nat, ahi: nat, b: seq<string>, blo: nat, bhi: nat, t: seq<DiffOp>)
    requires alo <= ahi <= |a| && blo <= bhi <= |b|
  {
    if alo < ahi && blo < bhi then t == Fancy(a, alo, ahi, b, blo, bhi)
    else
      && |t| == ahi - alo + (bhi - blo)
      && (forall k :: alo <= k < ahi ==> t[k - alo] == Delete(a[k]))
      && (forall k :: blo <= k < bhi ==> t[k - blo] == Insert(b[k]))
  }

  // ----- ratios in integers -----

  lemma RatioIs(x: string, y: string)
    requires x != y
    ensures |x| + |y| > 0 && CharRatio(x, y) == 2.0 * Alike(x, y) as real / (|x| + |y|) as real
  {
    hide D.MatchingBlocks, D.Total;
  }

  lemma Compared(m: nat, n: nat, m': nat, n': nat)
    requires n > 0 && n' > 0
    ensures 2.0 * m as real / n as real <= 2.0 * m' as real / n' as real <==> m * n' <= m' * n
  {
    var q, q' := 2.0 * m as real / n as real, 2.0 * m' as real / n' as real;
    assert q * n as real == 2.0 * m as real && q' * n' as real == 2.0 * m' as real;
    Order(q, q', n as real * n' as real);
    Regroup(q, n as real, n' as real);
    Regroup(q', n' as real, n as real);
    assert 2.0 * m as real * n' as real == 2.0 * (m * n') as real;
    assert 2.0 * m' as real * n as real == 2.0 * (m' * n) as real;
  }

  lemma Order(q: real, q': real, p: real)
    requires p > 0.0
    ensures q <= q' <==> q * p <= q' * p
  {
    Sign(q' - q, p);
    assert (q' - q) * p == q' * p - q * p;
  }

  lemma Sign(d: real, p: real)
    requires p > 0.0
    ensures d >= 0.0 <==> d * p >= 0.0
  {
  }

  lemma Regroup(q: real, x: real, y: real)
    ensures q * (x * y) == q * x * y && q * (y * x) == q * x * y
  {
  }

  lemma CutoffIs(m: nat, n: nat)
    requires n > 0
    ensures 2.0 * m as real / n as real >= 0.75 <==> 8 * m >= 3 * n
  {
    var q := 2.0 * m as real / n as real;
    assert q * n as real == 2.0 * m as real;
    Order(0.75, q, n as real);
    assert 4.0 * (0.75 * n as real) == (3 * n) as real && 4.0 * (2.0 * m as real) == (8 * m) as real;
  }

  // ----- the pair that the scan finds -----

  lemma CloseIs(x: string, y: string)
    requires x != y
    ensures CharRatio(x, y) >= CUTOFF <==> Close(x, y)
  {
    hide CharRatio, Alike;
    RatioIs(x, y);
    CutoffIs(Alike(x, y), |x| + |y|);
  }

  lemma NearerIs(x: string, y: string, x': string, y': string)
    requires x != y && x' != y'
    ensures CharRatio(x', y') <= CharRatio(x, y) <==> Alike(x', y') * (|x| + |y|) <= Alike(x, y) * (|x'| + |y'|)
  {
    hide CharRatio, Alike;
    RatioIs(x, y);
    RatioIs(x', y');
    Compared(Alike(x', y'), |x'| + |y'|, Alike(x, y), |x| + |y|);
  }

  ghost function Scan(r: Range): Best
    requires RangeOk(r)
  {
    Columns(r.a, r.b, r.alo, r.ahi, r.blo, r.bhi)
  }

  /** What the scan says of one pair. */
  lemma ScanJudges(r: Range, i: int, j: int)
    requires RangeOk(r) && InRange(r, i, j)
    ensures Judged(r.a, r.b, Scan(r), i, j)
  {
    hide Judged, Columns, CharRatio;
    ColumnsBest(r.a, r.b, r.alo, r.ahi, r.blo, r.bhi);
    assert Seen(r.alo, r.ahi, r.blo, i, j, r.alo, r.bhi);
  }

  lemma ScanPlaces(r: Range)
    requires RangeOk(r)
    ensures var s := Scan(r);
      && (s.ratio >= CUTOFF ==>
            InRange(r, s.i, s.j) && r.a[s.i] != r.b[s.j] && CharRatio(r.a[s.i], r.b[s.j]) == s.ratio)
      && (s.identical.Some? ==> SamePair(r, s.identical.value.0, s.identical.value.1))
  {
    hide Judged, Columns, CharRatio;
    ColumnsBest(r.a, r.b, r.alo, r.ahi, r.blo, r.bhi);
  }

  lemma ScanClosest(r: Range)
    requires RangeOk(r)
    ensures var s := Scan(r);
      if s.ratio >= CUTOFF then ClosestPair(r, s.i, s.j) else forall i, j :: !ClosePair(r, i, j)
  {
    hide Columns, CharRatio, Alike, Close;
    var s := Scan(r);
    ScanPlaces(r);
    if s.ratio >= CUTOFF {
      CloseIs(r.a[s.i], r.b[s.j]);
      forall i, j | InRange(r, i, j) && r.a[i] != r.b[j] ensures AtLeast(r, s.i, s.j, i, j) {
        ScanJudges(r, i, j);
        NearerIs(r.a[s.i], r.b[s.j], r.a[i], r.b[j]);
        NearerIs(r.a[i], r.b[j], r.a[s.i], r.b[s.j]);
      }
    } else {
      forall i, j ensures !ClosePair(r, i, j) {
        if InRange(r, i, j) && r.a[i] != r.b[j] {
          ScanJudges(r, i, j);
          CloseIs(r.a[i], r.b[j]);
        } else if InRange(r, i, j) {
          NotClose(r.a[i], r.b[j]);
        }
      }
    }
  }

  lemma NotClose(x: string, y: string)
    requires x == y
    ensures !Close(x, y)
  {
  }

  lemma ScanSame(r: Range)
    requires RangeOk(r)
    ensures var s := Scan(r);
      match s.identical
      case Some((i, j)) => FirstSame(r, i, j)
      case None => forall i, j :: !SamePair(r, i, j)
  {
    hide Columns, CharRatio;
    var s := Scan(r);
    ScanPlaces(r);
    forall i, j | SamePair(r, i, j)
      ensures s.identical.Some? && Before(s.identical.value.0, s.identical.value.1, i, j)
    {
      ScanJudges(r, i, j);
    }
  }

  // ----- what stands around it -----

  lemma {:induction false} DeletesAt(s: seq<string>)
    ensures |Deletes(s)| == |s| && forall k :: 0 <= k < |s| ==> Deletes(s)[k] == Delete(s[k])
  {
    if s != [] { DeletesAt(s[1..]); }
  }

  lemma {:induction false} InsertsAt(s: seq<string>)
    ensures |Inserts(s)| == |s| && forall k :: 0 <= k < |s| ==> Inserts(s)[k] == Insert(s[k])
  {
    if s != [] { InsertsAt(s[1..]); }
  }

  lemma HelperIs(a: seq<string>, alo: nat, ahi: nat, b: seq<string>, blo: nat, bhi: nat)
    requires alo <= ahi <= |a| && blo <= bhi <= |b|
    ensures Stretch(a, alo, ahi, b, blo, bhi, Helper(a, alo, ahi, b, blo, bhi))
  {
    hide Fancy;
    DeletesAt(a[alo..ahi]);
    InsertsAt(b[blo..bhi]);
  }

  lemma AroundIs(r: Range, i: nat, j: nat, mid: seq<DiffOp>)
    requires InRange(r, i, j)
    ensures Around(r, i, j, mid, Helper(r.a, r.alo, i, r.b, r.blo, j) + mid
        + Helper(r.a, i + 1, r.ahi, r.b, j + 1, r.bhi))
  {
    hide Helper, Stretch, Spells;
    HelperIs(r.a, r.alo, i, r.b, r.blo, j);
    HelperIs(r.a, i + 1, r.ahi, r.b, j + 1, r.bhi);
    HelperSpells(r.a, r.alo, i, r.b, r.blo, j);
    HelperSpells(r.a, i + 1, r.ahi, r.b, j + 1, r.bhi);
  }

  /** Deletes from `deletes` on, inserts from `inserts` on, and nothing else. */
  ghost predicate Sides(a: seq<string>, deletes: nat, b: seq<string>, inserts: nat, t: seq<DiffOp>)
    requires deletes + |a| <= |t| && inserts + |b| <= |t|
  {
    && (forall k :: 0 <= k < |a| ==> t[deletes + k] == Delete(a[k]))
    && (forall k :: 0 <= k < |b| ==> t[inserts + k] == Insert(b[k]))
  }

  /** The shorter side first; on a tie what is deleted. */
  ghost predicate Plain(r: Range, t: seq<DiffOp>)
    requires RangeOk(r)
  {
    var n, m := r.ahi - r.alo, r.bhi - r.blo;
    var deletes, inserts := if m < n then m else 0, if m < n then 0 else n;
    |t| == n + m && Sides(r.a[r.alo..r.ahi], deletes, r.b[r.blo..r.bhi], inserts, t)
  }

  lemma PlainSides(a: seq<string>, b: seq<string>)
    ensures var t := PlainReplace(a, b);
      && |t| == |a| + |b|
      && Sides(a, if |b| < |a| then |b| else 0, b, if |b| < |a| then 0 else |a|, t)
  {
    DeletesAt(a);
    InsertsAt(b);
    hide Deletes, Inserts;
  }

  lemma PlainIs(r: Range)
    requires RangeOk(r)
    ensures Plain(r, PlainReplace(r.a[r.alo..r.ahi], r.b[r.blo..r.bhi]))
  {
    hide PlainReplace;
    var a, b := r.a[r.alo..r.ahi], r.b[r.blo..r.bhi];
    PlainSides(a, b);
  }

  /** A replaced stretch is synchronised on the first of its closest pairs if any pair is
      close, else on its first identical pair, and else it is the one side and then the
      other. */
  lemma FancyShape(r: Range)
    requires RangeOk(r)
    ensures var t := Fancy(r.a, r.alo, r.ahi, r.b, r.blo, r.bhi);
      if exists i, j :: ClosePair(r, i, j) then
        exists i: nat, j: nat :: ClosestPair(r, i, j) && Around(r, i, j, [Delete(r.a[i]), Insert(r.b[j])], t)
      else if exists i, j :: SamePair(r, i, j) then
        exists i: nat, j: nat :: FirstSame(r, i, j) && Around(r, i, j, [Keep(r.a[i])], t)
      else Plain(r, t)
  {
    hide Columns, Around, ClosestPair, ClosePair, SamePair, FirstSame, Plain, Fancy, Scan;
    var s := Scan(r);
    ScanClosest(r);
    ScanSame(r);
    FancyIs(r);
    if s.ratio >= CUTOFF {
      IsClose(r, s.i, s.j);
    } else if s.identical.Some? {
      IsSame(r, s.identical.value.0, s.identical.value.1);
    }
  }

  lemma IsClose(r: Range, i: int, j: int)
    requires ClosestPair(r, i, j)
    ensures ClosePair(r, i, j)
  {
  }

  lemma IsSame(r: Range, i: int, j: int)
    requires FirstSame(r, i, j)
    ensures SamePair(r, i, j)
  {
  }

  lemma FancyIs(r: Range)
    requires RangeOk(r)
    ensures var s, t := Scan(r), Fancy(r.a, r.alo, r.ahi, r.b, r.blo, r.bhi);
      if s.ratio >= CUTOFF then
        InRange(r, s.i, s.j) && Around(r, s.i, s.j, [Delete(r.a[s.i]), Insert(r.b[s.j])], t)
      else if s.identical.Some? then
        && InRange(r, s.identical.value.0, s.identical.value.1)
        && Around(r, s.identical.value.0, s.identical.value.1, [Keep(r.a[s.identical.value.0])], t)
      else Plain(r, t)
  {
    hide Columns, Helper, PlainReplace, Around, CharRatio, Plain;
    var s := Scan(r);
    ScanPlaces(r);
    PlainIs(r);
    if s.ratio >= CUTOFF {
      AroundIs(r, s.i, s.j, [Delete(r.a[s.i]), Insert(r.b[s.j])]);
    } else if s.identical.Some? {
      var (i, j) := s.identical.value;
      AroundIs(r, i, j, [Keep(r.a[i])]);
    }
  }

  // ----- the whole transcript -----

  /** What one segment contributes: kept words, or a stretch replaced. */
  ghost predicate SegmentShape(prev: seq<string>, curr: seq<string>, c: D.OpCode, t: seq<DiffOp>)
    requires c.i1 <= c.i2 <= |prev| && c.j1 <= c.j2 <= |curr|
  {
    if c.tag.Equal? then |t| == c.i2 - c.i1 && forall k :: 0 <= k < |t| ==> t[k] == Keep(prev[c.i1 + k])
    else Stretch(prev, c.i1, c.i2, curr, c.j1, c.j2, t)
  }

  lemma {:induction false} KeepsAt(s: seq<string>)
    ensures |KeepAll(s)| == |s| && forall k :: 0 <= k < |s| ==> KeepAll(s)[k] == Keep(s[k])
  {
    if s != [] { KeepsAt(s[1..]); }
  }

  lemma SegmentIs(prev: seq<string>, curr: seq<string>, c: D.OpCode)
    requires D.SegmentOk(Interned(prev, curr), c, false) && Readable(prev, curr, c)
    ensures SegmentShape(prev, curr, c, Segment(prev, curr, c))
  {
    hide Fancy, KeepAll, Deletes, Inserts;
    KeepsAt(prev[c.i1..c.i2]);
    DeletesAt(prev[c.i1..c.i2]);
    InsertsAt(curr[c.j1..c.j2]);
  }

  lemma {:induction false} TilesFrom<T(!new)>(p: M.Inputs<T>, cs: seq<D.OpCode>, i: nat, j: nat, k: nat)
    requires D.Tiles(p, cs, i, j, false) && k < |cs|
    ensures D.SegmentOk(p, cs[k], false) && D.Tiles(p, cs[k + 1..], cs[k].i2, cs[k].j2, false)
    decreases k
  {
    hide D.SegmentOk;
    if k > 0 {
      assert cs[1..][k - 1] == cs[k] && cs[1..][k..] == cs[k + 1..];
      TilesFrom(p, cs[1..], cs[0].i2, cs[0].j2, k - 1);
    }
  }

  lemma SegmentsAt(prev: seq<string>, curr: seq<string>, codes: seq<D.OpCode>, k: nat)
    requires k < |codes| && forall c :: c in codes ==> Readable(prev, curr, c)
    ensures forall c :: c in codes[..k] + codes[k + 1..] ==> Readable(prev, curr, c)
    ensures Readable(prev, curr, codes[k])
    ensures Segments(prev, curr, codes)
         == Segments(prev, curr, codes[..k]) + Segment(prev, curr, codes[k]) + Segments(prev, curr, codes[k + 1..])
  {
    hide Segment, Readable;
    var x, c, y := codes[..k], codes[k], codes[k + 1..];
    assert codes == (x + [c]) + y;
    SegmentsAppend(prev, curr, x, [c]);
    SegmentsAppend(prev, curr, x + [c], y);
    OneSegment(prev, curr, c);
  }

  lemma Cancelled<T>(s: seq<T>, x: seq<T>, i: nat)
    requires i <= |s| && x + s[i..] == s
    ensures x == s[..i]
  {
    assert |x| == i && s[..i] == (x + s[i..])[..i];
  }

  /** Around a segment, with what comes before and after it. */
  ghost predicate Holds(prev: seq<string>, curr: seq<string>, c: D.OpCode, t: seq<DiffOp>) {
    && c.i1 <= c.i2 <= |prev| && c.j1 <= c.j2 <= |curr|
    && exists x, s, y :: t == x + s + y && SegmentShape(prev, curr, c, s)
         && Spells(x, prev[..c.i1], curr[..c.j1]) && Spells(y, prev[c.i2..], curr[c.j2..])
  }

  /** Every segment stands in the transcript in its place: an equal one kept word by word, any
      other as a stretch that is replaced. */
  lemma CompareShape(prev: seq<string>, curr: seq<string>, k: nat)
    requires k < |D.Opcodes(Interned(prev, curr))|
    ensures Holds(prev, curr, D.Opcodes(Interned(prev, curr))[k], Compare(prev, curr))
  {
    var p := Interned(prev, curr);
    var codes := D.Opcodes(p);
    var c := codes[k];
    D.OpcodesTile(p, false);
    CodesReadable(prev, curr);
    hide D.Opcodes, D.TakeTurns, D.Tiles, Segments, Segment, Readable, Interned, Spells, D.SegmentOk, SegmentShape;
    TilesFrom(p, codes, 0, 0, k);
    SegmentsAt(prev, curr, codes, k);
    SegmentInside(prev, curr, c);
    SegmentIs(prev, curr, c);
    SegmentSpells(prev, curr, c);
    SegmentsSpell(prev, curr, codes[k + 1..], c.i2, c.j2);
    CompareSpells(prev, curr);
    var x, s, y := Segments(prev, curr, codes[..k]), Segment(prev, curr, c), Segments(prev, curr, codes[k + 1..]);
    RestSpells(prev, curr, c, x, s, y);
    assert Compare(prev, curr) == x + s + y;
  }

  lemma RestSpells(prev: seq<string>, curr: seq<string>, c: D.OpCode, x: seq<DiffOp>, s: seq<DiffOp>, y: seq<DiffOp>)
    requires c.i1 <= c.i2 <= |prev| && c.j1 <= c.j2 <= |curr| && Spells(x + s + y, prev, curr)
    requires Spells(s, prev[c.i1..c.i2], curr[c.j1..c.j2]) && Spells(y, prev[c.i2..], curr[c.j2..])
    ensures Spells(x, prev[..c.i1], curr[..c.j1])
  {
    hide Old, New;
    ScriptAppend(x, s);
    ScriptAppend(x + s, y);
    assert prev[c.i1..] == prev[c.i1..c.i2] + prev[c.i2..] && curr[c.j1..] == curr[c.j1..c.j2] + curr[c.j2..];
    assert Old(x) + prev[c.i1..] == prev && New(x) + curr[c.j1..] == curr;
    Cancelled(prev, Old(x), c.i1);
    Cancelled(curr, New(x), c.j1);
  }

  // ----- an example -----

  function FirstOf<T>(s: seq<T>): Option<T> {
    if s == [] then None else Some(s[0])
  }

  lemma SameSlices<T>(p: M.Inputs<T>, w: M.Window, m: M.Match)
    requires M.Common(p, w, m) && m.aStart + m.size <= |p.a| && m.bStart + m.size <= |p.b|
    ensures p.a[m.aStart..m.aStart + m.size] == p.b[m.bStart..m.bStart + m.size]
  {
  }

  lemma NothingInCommon<T(!new)>(p: M.Inputs<T>)
    requires forall i, j :: 0 <= i < |p.a| && 0 <= j < |p.b| ==> p.a[i] != p.b[j]
    ensures D.MatchingBlocks(p) == [M.Match(|p.a|, |p.b|, 0)] && D.Total(D.MatchingBlocks(p)) == 0
  {
    hide M.Rows, M.GrowLeft, M.GrowRight, M.Common;
    var m := M.Longest(p, D.Whole(p));
    M.CommonBounds(p, D.Whole(p), m);
    var x, y := p.a[m.aStart..m.aStart + m.size], p.b[m.bStart..m.bStart + m.size];
    forall k | 0 <= k < m.size ensures x[k] != y[k] {
      assert x[k] == p.a[m.aStart + k] && y[k] == p.b[m.bStart + k];
    }
    SameSlices(p, D.Whole(p), m);
    assert FirstOf(x) == FirstOf(y);
    assert D.Blocks(p, D.Whole(p)) == [];
    assert D.MatchingBlocks(p)[1..] == [];
  }

  lemma AllReplaced(prev: seq<string>, curr: seq<string>)
    requires prev != [] && curr != []
    requires forall i, j :: 0 <= i < |prev| && 0 <= j < |curr| ==> prev[i] != curr[j]
    ensures Compare(prev, curr) == Fancy(prev, 0, |prev|, curr, 0, |curr|)
  {
    hide Fancy, D.Blocks, Distinct;
    var p := Interned(prev, curr);
    forall i, j | 0 <= i < |p.a| && 0 <= j < |p.b| ensures p.a[i] != p.b[j] {}
    hide Interned;
    NothingInCommon(p);
    var c := D.OpCode(D.Replace, 0, |prev|, 0, |curr|);
    OneReplace(|prev|, |curr|);
    assert D.Opcodes(p) == [c];
    OneSegment(prev, curr, c);
  }

  lemma OneReplace(n: nat, m: nat)
    requires n > 0 && m > 0
    ensures D.Codes([M.Match(n, m, 0)], 0, 0) == [D.OpCode(D.Replace, 0, n, 0, m)]
  {
    assert [M.Match(n, m, 0)][1..] == [];
    assert D.Codes([], n, m) == [];
  }

  lemma {:induction false} CollapseTotal(ms: seq<M.Match>, cur: M.Match)
    ensures D.Total(D.Collapse(ms, cur)) == cur.size + D.Total(ms)
    decreases |ms|
  {
    if ms == [] {
      assert [cur][1..] == [];
    } else if D.Touches(cur, ms[0]) {
      CollapseTotal(ms[1..], M.Match(cur.aStart, cur.bStart, cur.size + ms[0].size));
    } else {
      var first, rest := if cur.size > 0 then [cur] else [], D.Collapse(ms[1..], ms[0]);
      CollapseTotal(ms[1..], ms[0]);
      D.TotalAppend(first, rest);
      assert [cur][1..] == [];
    }
  }

  lemma TotalOfBlocks<T>(p: M.Inputs<T>)
    ensures D.Total(D.MatchingBlocks(p)) == D.Total(D.Blocks(p, D.Whole(p)))
  {
    hide D.Blocks, D.Collapse;
    var ms, end := D.Collapse(D.Blocks(p, D.Whole(p)), M.Match(0, 0, 0)), M.Match(|p.a|, |p.b|, 0);
    CollapseTotal(D.Blocks(p, D.Whole(p)), M.Match(0, 0, 0));
    D.TotalAppend(ms, [end]);
    assert [end][1..] == [];
  }

  lemma SizesAdd<T>(p: M.Inputs<T>, w: M.Window)
    requires M.Within(p, w)
    ensures var m := M.Longest(p, w);
      m.size > 0 ==>
        D.Total(D.Blocks(p, w)) == D.Total(D.LeftBlocks(p, w, m)) + m.size + D.Total(D.RightBlocks(p, w, m))
  {
    hide M.Longest, M.Common, D.LeftBlocks, D.RightBlocks;
    var m := M.Longest(p, w);
    if m.size > 0 {
      var left, right := D.LeftBlocks(p, w, m), D.RightBlocks(p, w, m);
      D.TotalAppend(left + [m], right);
      D.TotalAppend(left, [m]);
      assert [m][1..] == [];
    }
  }

  lemma NoneLong(p: M.Inputs<char>)
    requires |p.b| < 200
    ensures M.NonePopular(p)
  {
  }

  const COLOR := "color"
  const COLOUR := "colour"

  lemma Letters()
    ensures |COLOR| == 5 && |COLOUR| == 6 && COLOR[..4] == COLOUR[..4]
    ensures COLOR[4] == COLOUR[5] == 'r' && COLOUR[4] == 'u' && COLOR[0] == 'c' && COLOUR[1] == 'o'
  {
    assert COLOR[..4] == "colo" == COLOUR[..4];
  }

  /** The longest common block is the first four letters. */
  lemma FirstFour(p: M.Inputs<char>)
    requires p == M.Inputs(COLOR, COLOUR, true)
    ensures M.Longest(p, D.Whole(p)) == M.Match(0, 0, 4)
  {
    hide M.Rows, M.GrowLeft, M.GrowRight, M.NonePopular, M.Longest;
    Letters();
    NoneLong(p);
    M.LongestIsOptimal(p, D.Whole(p), M.Match(0, 0, 4));
    M.LongestIsMaximal(p, D.Whole(p));
    var m := M.Longest(p, D.Whole(p));
    SameSlices(p, D.Whole(p), m);
    NotFive(0);
    NotFive(1);
    assert COLOR[0..5] == COLOR && m.size <= 5;
  }

  lemma NotFive(j: nat)
    requires j <= 1
    ensures j + 5 <= |COLOUR| && COLOUR[j..j + 5] != COLOR
  {
    Letters();
    assert COLOUR[j..j + 5][0] == COLOUR[j] && COLOUR[j..j + 5][4] == COLOUR[j + 4];
  }

  lemma LastLetter(p: M.Inputs<char>)
    requires p == M.Inputs(COLOR, COLOUR, true)
    ensures M.Within(p, M.Window(4, 5, 4, 6)) && D.Total(D.Blocks(p, M.Window(4, 5, 4, 6))) >= 1
  {
    var w := M.Window(4, 5, 4, 6);
    Letters();
    NoneLong(p);
    assert M.Common(p, w, M.Match(4, 5, 1)) by { assert p.a[4..5] == ['r'] == p.b[5..6]; }
    hide M.Rows, M.GrowLeft, M.GrowRight, M.NonePopular, M.Longest, M.Common, D.Blocks, D.Total;
    M.LongestIsOptimal(p, w, M.Match(4, 5, 1));
    SizesAdd(p, w);
  }

  lemma AfterFour(p: M.Inputs<char>)
    requires p == M.Inputs(COLOR, COLOUR, true)
    ensures D.Total(D.Blocks(p, D.Whole(p))) >= 5
  {
    hide M.Longest, D.Blocks, D.Total;
    FirstFour(p);
    LastLetter(p);
    Letters();
    SizesAdd(p, D.Whole(p));
  }

  lemma FiveLetters()
    ensures Alike(COLOR, COLOUR) >= 5
  {
    hide D.MatchingBlocks, D.Total, D.Blocks;
    var p := M.Inputs(COLOR, COLOUR, true);
    AfterFour(p);
    TotalOfBlocks(p);
  }

  lemma NoLetters(x: string, y: string)
    requires forall i, j :: 0 <= i < |x| && 0 <= j < |y| ==> x[i] != y[j]
    ensures Alike(x, y) == 0
  {
    hide D.MatchingBlocks, D.Total;
    NothingInCommon(M.Inputs(x, y, true));
  }

  lemma OtherLetters()
    ensures forall k :: 0 <= k < 5 ==> "color"[k] != 'y'
    ensures forall k :: 0 <= k < 6 ==> "colour"[k] != 'x'
    ensures "x"[0] == 'x' && "y"[0] == 'y'
  {
  }

  lemma WordsDiffer()
    ensures "color" != "y" && "color" != "colour" && "x" != "y" && "x" != "colour"
    ensures |"color"| == 5 && |"colour"| == 6 && |"x"| == |"y"| == 1
  {
    assert "x"[0] == 'x' && "y"[0] == 'y';
  }

  /** Of four words only color and colour are close. */
  lemma OnlyClose(i: int, j: int)
    ensures var r := Range(["color", "x"], 0, 2, ["y", "colour"], 0, 2); ClosePair(r, i, j) <==> i == 0 && j == 1
  {
    hide Alike;
    WordsDiffer();
    OtherLetters();
    NoLetters("color", "y");
    NoLetters("x", "y");
    NoLetters("x", "colour");
    FiveLetters();
  }

  lemma OnlyInsert(a: seq<string>, b: seq<string>, i: nat, t: seq<DiffOp>)
    requires i <= |a| && |b| > 0 && Stretch(a, i, i, b, 0, 1, t)
    ensures t == [Insert(b[0])]
  {
    assert t[0 - 0] == Insert(b[0]);
  }

  lemma OnlyDelete(a: seq<string>, b: seq<string>, i: nat, j: nat, t: seq<DiffOp>)
    requires i < |a| && j <= |b| && Stretch(a, i, i + 1, b, j, j, t)
    ensures t == [Delete(a[i])]
  {
    assert t[i - i] == Delete(a[i]);
  }

  lemma AroundFirst(a: seq<string>, b: seq<string>, mid: seq<DiffOp>, t: seq<DiffOp>)
    requires |a| == |b| == 2 && Around(Range(a, 0, 2, b, 0, 2), 0, 1, mid, t)
    ensures t == [Insert(b[0])] + mid + [Delete(a[1])]
  {
    hide Stretch, Spells;
    var x, y :| t == x + mid + y && Stretch(a, 0, 0, b, 0, 1, x) && Stretch(a, 1, 2, b, 2, 2, y);
    OnlyInsert(a, b, 0, x);
    OnlyDelete(a, b, 1, 2, y);
  }

  lemma NothingSame(a: seq<string>, b: seq<string>)
    requires |a| == |b| == 2 && a[0] != b[0] && a[0] != b[1] && a[1] != b[0] && a[1] != b[1]
    ensures forall i, j :: 0 <= i < 2 && 0 <= j < 2 ==> a[i] != b[j]
  {
  }

  /** A word respelled and two others that have nothing in common: synchronised on the word. */
  lemma Respelled()
    ensures Compare(["color", "x"], ["y", "colour"]) == [Insert("y"), Delete("color"), Insert("colour"), Delete("x")]
  {
    hide Compare, Fancy, Around, AtLeast, Close, SamePair, Plain;
    var a, b := ["color", "x"], ["y", "colour"];
    var r := Range(a, 0, 2, b, 0, 2);
    WordsDiffer();
    NothingSame(a, b);
    AllReplaced(a, b);
    FancyShape(r);
    OnlyClose(0, 1);
    var t := Fancy(a, 0, 2, b, 0, 2);
    var i: nat, j: nat :| ClosestPair(r, i, j) && Around(r, i, j, [Delete(r.a[i]), Insert(r.b[j])], t);
    IsClose(r, i, j);
    OnlyClose(i, j);
    AroundFirst(a, b, [Delete(a[0]), Insert(b[1])], t);
  }
}
