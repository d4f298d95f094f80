/** The matcher as an object with lazily filled caches. Whatever is cached is what a fresh
    matcher on the current pair would compute. */
module SequenceMatcherClass {
  import opened Wrappers
  import opened Seqs
  import opened Matching
  import opened Decomposition

  // ----- the index of b -----

  function Positions<T(==)>(b: seq<T>, x: T): (ps: seq<nat>)
    ensures |ps| == multiset(b)[x]
  {
    if b == [] then []
    else
      assert b == b[..|b| - 1] + [b[|b| - 1]];
      Positions(b[..|b| - 1], x) + if b[|b| - 1] == x then [|b| - 1] else []
  }

  ghost predicate Rising(ps: seq<nat>, n: nat) {
    (forall q, r :: 0 <= q < r < |ps| ==> ps[q] < ps[r]) && forall q :: 0 <= q < |ps| ==> ps[q] < n
  }

  lemma RisingMore(ps: seq<nat>, n: nat)
    requires Rising(ps, n)
    ensures Rising(ps, n + 1) && Rising(ps + [n], n + 1)
  {
  }

  lemma {:induction false} PositionsRise<T>(b: seq<T>, x: T)
    ensures Rising(Positions(b, x), |b|)
    ensures forall j: nat :: j in Positions(b, x) <==> j < |b| && b[j] == x
  {
    hide Rising;
    if b == [] {
      NoneRise();
    } else {
      var n := |b| - 1;
      PositionsRise(b[..n], x);
      RisingMore(Positions(b[..n], x), n);
      var front := Positions(b[..n], x);
      assert front + [] == front;
      forall j: nat ensures j in Positions(b, x) <==> j < |b| && b[j] == x {
        assert j in Positions(b, x) <==> j in front || (j == n && b[n] == x);
        assert j in front <==> j < n && b[..n][j] == x;
      }
    }
  }

  lemma NoneRise()
    ensures Rising([], 0)
  {
  }

  /** The popular elements are dropped only from a `b` of 200 or more: those whose places, but
      for one, are more than one in a hundred. */
  lemma PopularExactly<T(!new)>(p: Inputs<T>, x: T)
    ensures Popular(p, x) <==> p.autojunk && 200 <= |p.b| && 100 * (|PlacesOf(p.b, x)| - 1) > |p.b|
  {
    hide Positions;
    PositionsRise(p.b, x);
    RisingSet(Positions(p.b, x));
    assert Elems(Positions(p.b, x)) == PlacesOf(p.b, x);
  }

  ghost function PlacesOf<T>(b: seq<T>, x: T): set<nat> {
    set j: nat | j < |b| && b[j] == x
  }

  lemma SetOfMore(front: seq<nat>, last: nat)
    requires last !in front
    ensures |Elems(front + [last])| == |Elems(front)| + 1
  {
    assert Elems(front + [last]) == Elems(front) + {last};
  }

  lemma {:induction false} RisingSet(ps: seq<nat>)
    requires forall q, r :: 0 <= q < r < |ps| ==> ps[q] < ps[r]
    ensures |Elems(ps)| == |ps|
  {
    if ps != [] {
      var n := |ps| - 1;
      var front, last := ps[..n], ps[n];
      RisingSet(front);
      assert ps == front + [last] && forall q :: 0 <= q < n ==> front[q] < last;
      SetOfMore(front, last);
    }
  }

  lemma PositionsFacts<T>(b: seq<T>, x: T)
    ensures forall q, r :: 0 <= q < r < |Positions(b, x)| ==> Positions(b, x)[q] < Positions(b, x)[r]
    ensures forall j: nat :: j in Positions(b, x) <==> j < |b| && b[j] == x
  {
    PositionsRise(b, x);
  }

  /** Where each element of `b` occurs, without the popular ones. */
  ghost function Index<T>(p: Inputs<T>): map<T, seq<nat>> {
    map x | x in p.b && !Popular(p, x) :: Positions(p.b, x)
  }

  ghost function Counts<T>(b: seq<T>): map<T, nat> {
    map x | x in b :: multiset(b)[x]
  }

  // ----- scanning one row -----

  function LenAt(lens: map<nat, nat>, j: nat): nat {
    if j in lens then lens[j] else 0
  }

  /** The run that ends with row `i - 1` and column `j`, if the column is before `hi`. */
  ghost function RunTo<T>(p: Inputs<T>, w: Window, i: nat, hi: nat, j: nat): nat
    requires Within(p, w) && i <= w.ahi && hi <= w.bhi
  {
    if w.blo <= j < hi then Run(p, w, i, j + 1) else 0
  }

  /** The stored run lengths are those of the runs that end on row `i`. */
  ghost predicate RunsOf<T>(p: Inputs<T>, w: Window, i: nat, lens: map<nat, nat>, hi: nat)
    requires Within(p, w) && i <= w.ahi && hi <= w.bhi
  {
    forall j: nat :: LenAt(lens, j) == RunTo(p, w, i, hi, j)
  }

  /** No run ends before row `row` in the columns from `c` to `c2`. */
  ghost predicate NoRuns<T>(p: Inputs<T>, w: Window, row: nat, c: nat, c2: nat)
    requires Within(p, w) && row <= w.ahi
  {
    forall j: nat :: c <= j < c2 ==> RunTo(p, w, row, w.bhi, j) == 0
  }

  lemma {:induction false} SkipColumns<T>(p: Inputs<T>, w: Window, i: nat, c: nat, c2: nat, best: Match)
    requires Within(p, w) && i < w.ahi && w.blo <= c <= c2 <= w.bhi && NoRuns(p, w, i + 1, c, c2)
    ensures Row(p, w, i, c2, best) == Row(p, w, i, c, best)
    decreases c2
  {
    if c < c2 {
      SkipColumns(p, w, i, c, c2 - 1, best);
      assert RunTo(p, w, i + 1, w.bhi, c2 - 1) == 0;
    }
  }

  lemma NoRunOff<T>(p: Inputs<T>, w: Window, i: nat, j: nat)
    requires Within(p, w) && i < w.ahi && j < w.bhi && w.alo <= i
    ensures p.a[i] != p.b[j] || Popular(p, p.a[i]) ==> Run(p, w, i + 1, j + 1) == 0
    ensures p.a[i] == p.b[j] && !Popular(p, p.a[i]) && w.blo <= j ==> Run(p, w, i + 1, j + 1) == Run(p, w, i, j) + 1
  {
  }

  /** The positions of a row's element, none for a popular or absent one. */
  ghost function RowPositions<T>(p: Inputs<T>, x: T): seq<nat> {
    if x in p.b && !Popular(p, x) then Positions(p.b, x) else []
  }

  lemma RowPositionsFacts<T>(p: Inputs<T>, w: Window, i: nat)
    requires Within(p, w) && w.alo <= i < w.ahi
    ensures var ps := RowPositions(p, p.a[i]);
      && (forall q, r :: 0 <= q < r < |ps| ==> ps[q] < ps[r])
      && (forall q :: 0 <= q < |ps| ==> ps[q] < |p.b| && p.b[ps[q]] == p.a[i] && !Popular(p, p.a[i]))
  {
    var x := p.a[i];
    var ps := RowPositions(p, x);
    PositionsFacts(p.b, x);
    hide Positions, Popular;
    forall q | 0 <= q < |ps| ensures ps[q] < |p.b| && p.b[ps[q]] == x { assert ps[q] in ps; }
  }

  lemma RowHasColumn<T>(p: Inputs<T>, i: nat, j: nat)
    requires i < |p.a| && j < |p.b| && p.a[i] == p.b[j] && !Popular(p, p.a[i])
    ensures j in RowPositions(p, p.a[i])
  {
    PositionsFacts(p.b, p.a[i]);
    assert p.b[j] in p.b;
  }

  lemma NoRunsBetween<T>(p: Inputs<T>, w: Window, i: nat, c: nat, c2: nat)
    requires Within(p, w) && w.alo <= i < w.ahi && c2 <= w.bhi
    requires forall j: nat :: c <= j < c2 ==> j !in RowPositions(p, p.a[i])
    ensures NoRuns(p, w, i + 1, c, c2)
  {
    PositionsFacts(p.b, p.a[i]);
    hide Positions, Popular;
    var row := i + 1;
    forall j: nat | c <= j < c2 ensures RunTo(p, w, row, w.bhi, j) == 0 {
      if p.a[i] == p.b[j] && !Popular(p, p.a[i]) {
        RowHasColumn(p, i, j);
      }
      NoRunOff(p, w, i, j);
    }
  }

  lemma RowIsDone<T>(p: Inputs<T>, w: Window, i: nat, lens: map<nat, nat>, c: nat, best: Match)
    requires Within(p, w) && w.alo <= i < w.ahi && w.blo <= c <= w.bhi && RunsOf(p, w, i + 1, lens, c)
    requires NoRuns(p, w, i + 1, c, w.bhi)
    ensures RunsOf(p, w, i + 1, lens, w.bhi) && Row(p, w, i, w.bhi, best) == Row(p, w, i, c, best)
  {
    SkipColumns(p, w, i, c, w.bhi, best);
    hide Run, Row;
    forall j: nat ensures LenAt(lens, j) == RunTo(p, w, i + 1, w.bhi, j) {
      assert LenAt(lens, j) == RunTo(p, w, i + 1, c, j);
    }
  }

  lemma PrevLen<T>(p: Inputs<T>, w: Window, i: nat, lens: map<nat, nat>, j: nat)
    requires Within(p, w) && w.alo <= i < w.ahi && w.blo <= j < w.bhi && RunsOf(p, w, i, lens, w.bhi)
    ensures (if j == 0 then 0 else LenAt(lens, j - 1)) == Run(p, w, i, j)
  {
    if j > 0 {
      assert LenAt(lens, j - 1) == RunTo(p, w, i, w.bhi, j - 1);
    }
  }

  lemma ColumnDone<T>(p: Inputs<T>, w: Window, i: nat, lens: map<nat, nat>, lens': map<nat, nat>, c: nat, j: nat,
      best: Match)
    requires Within(p, w) && w.alo <= i < w.ahi && w.blo <= c <= j < w.bhi
    requires RunsOf(p, w, i, lens, w.bhi) && RunsOf(p, w, i + 1, lens', c) && NoRuns(p, w, i + 1, c, j)
    requires p.a[i] == p.b[j] && !Popular(p, p.a[i])
    ensures var k := (if j == 0 then 0 else LenAt(lens, j - 1)) + 1;
      && k == Run(p, w, i + 1, j + 1)
      && RunsOf(p, w, i + 1, lens'[j := k], j + 1)
      && Row(p, w, i, j + 1, best) == Better(Row(p, w, i, c, best), i + 1, j + 1, k)
  {
    NoRunOff(p, w, i, j);
    SkipColumns(p, w, i, c, j, best);
    PrevLen(p, w, i, lens, j);
    hide Run, Popular;
    var k := (if j == 0 then 0 else LenAt(lens, j - 1)) + 1;
    assert Row(p, w, i, j + 1, best) == Better(Row(p, w, i, j, best), i + 1, j + 1, Run(p, w, i + 1, j + 1));
    hide Row;
    var row, hi, after := i + 1, j + 1, lens'[j := k];
    forall x: nat ensures LenAt(after, x) == RunTo(p, w, row, hi, x) {
      assert LenAt(lens', x) == RunTo(p, w, i + 1, c, x);
      if c <= x < j { assert RunTo(p, w, i + 1, w.bhi, x) == 0; }
    }
  }

  /** Row `i` of the run table: only the positions of its element are visited. */
  method ScanRow<T(==)>(p: Inputs<T>, w: Window, i: nat, positions: seq<nat>, lens: map<nat, nat>, best0: Match)
      returns (lens': map<nat, nat>, best: Match)
    requires Within(p, w) && w.alo <= i < w.ahi && positions == RowPositions(p, p.a[i])
    requires RunsOf(p, w, i, lens, w.bhi)
    ensures RunsOf(p, w, i + 1, lens', w.bhi) && best == Row(p, w, i, w.bhi, best0)
  {
    hide Run, Row, Better, RunsOf, Popular, RowPositions;
    RowPositionsFacts(p, w, i);
    lens', best := map[], best0;
    ghost var c := w.blo;
    RowStart(p, w, i, best0);
    var q := 0;
    while q < |positions| && positions[q] < w.bhi
      invariant 0 <= q <= |positions| && w.blo <= c <= w.bhi
      invariant c == w.blo || (q > 0 && c == positions[q - 1] + 1)
      invariant forall r :: 0 <= r < q ==> positions[r] < c
      invariant RunsOf(p, w, i + 1, lens', c) && best == Row(p, w, i, c, best0)
    {
      var j := positions[q];
      q := q + 1;
      if j < w.blo {
        continue;
      }
      var prevLen := if j == 0 then 0 else LenAt(lens, j - 1);
      var k := prevLen + 1;
      NoneBetween(positions, q - 1, c, j);
      NoRunsBetween(p, w, i, c, j);
      ColumnDone(p, w, i, lens, lens', c, j, best0);
      lens' := lens'[j := k];
      if k > best.size {
        BetterTakes(best, i + 1, j + 1, k);
        best := Match(i + 1 - k, j + 1 - k, k);
      } else {
        BetterKeeps(best, i + 1, j + 1, k);
      }
      c := j + 1;
    }
    NoneBetween(positions, q, c, w.bhi);
    NoRunsBetween(p, w, i, c, w.bhi);
    RowIsDone(p, w, i, lens', c, best0);
  }

  /** In an ascending list, nothing lies between what is before `q` and what is from `q` on. */
  lemma NoneBetween(ps: seq<nat>, q: nat, c: nat, hi: nat)
    requires forall r, s :: 0 <= r < s < |ps| ==> ps[r] < ps[s]
    requires q <= |ps| && (forall r :: 0 <= r < q ==> ps[r] < c) && (q < |ps| ==> hi <= ps[q])
    ensures forall x: nat :: c <= x < hi ==> x !in ps
  {
  }

  lemma RowStart<T>(p: Inputs<T>, w: Window, i: nat, best: Match)
    requires Within(p, w) && i < w.ahi
    ensures RunsOf(p, w, i + 1, map[], w.blo) && Row(p, w, i, w.blo, best) == best
  {
  }

  lemma BetterTakes(best: Match, i: nat, j: nat, k: nat)
    requires k <= i && k <= j && k > best.size
    ensures Better(best, i, j, k) == Match(i - k, j - k, k)
  {
  }

  lemma BetterKeeps(best: Match, i: nat, j: nat, k: nat)
    requires k <= i && k <= j && k <= best.size
    ensures Better(best, i, j, k) == best
  {
  }

  // ----- the work queue -----

  /** What the windows still in the queue will contribute. */
  ghost function Pending<T>(p: Inputs<T>, queue: seq<Window>): multiset<Match>
    requires forall w :: w in queue ==> Within(p, w)
  {
    if queue == [] then multiset{}
    else Pending(p, queue[..|queue| - 1]) + multiset(Blocks(p, queue[|queue| - 1]))
  }

  /** The queue's measure: every pop removes more than its two pushes add. */
  ghost function Load(queue: seq<Window>): nat {
    if queue == [] then 0
    else
      var w := queue[|queue| - 1];
      Load(queue[..|queue| - 1]) + (if w.alo <= w.ahi then 2 * (w.ahi - w.alo) else 0) + 1
  }

  lemma PushWindow<T>(p: Inputs<T>, queue: seq<Window>, w: Window)
    requires Within(p, w) && forall v :: v in queue ==> Within(p, v)
    ensures Pending(p, queue + [w]) == Pending(p, queue) + multiset(Blocks(p, w))
    ensures Load(queue + [w]) == Load(queue) + 2 * (w.ahi - w.alo) + 1
  {
    assert (queue + [w])[..|queue|] == queue;
  }

  predicate KeyLe(x: Match, y: Match) {
    x.aStart < y.aStart
    || (x.aStart == y.aStart && (x.bStart < y.bStart || (x.bStart == y.bStart && x.size <= y.size)))
  }

  ghost predicate InOrder(ms: seq<Match>) {
    forall i, j :: 0 <= i < j < |ms| ==> KeyLe(ms[i], ms[j])
  }

  function InsertBlock(m: Match, ms: seq<Match>): seq<Match> {
    if ms == [] then [m]
    else if KeyLe(m, ms[0]) then [m] + ms
    else [ms[0]] + InsertBlock(m, ms[1..])
  }

  lemma OrderCons(m: Match, ms: seq<Match>)
    requires InOrder(ms) && forall x :: x in ms ==> KeyLe(m, x)
    ensures InOrder([m] + ms)
  {
    hide KeyLe;
  }

  lemma OrderSplit(ms: seq<Match>)
    requires InOrder(ms) && ms != []
    ensures InOrder(ms[1..]) && forall x :: x in ms[1..] ==> KeyLe(ms[0], x)
  {
    hide KeyLe;
    var rest := ms[1..];
    assert forall i :: 0 <= i < |rest| ==> rest[i] == ms[i + 1];
  }

  lemma LeAll(m: Match, ms: seq<Match>)
    requires InOrder(ms) && ms != [] && KeyLe(m, ms[0])
    ensures forall x :: x in ms ==> KeyLe(m, x)
  {
    forall x | x in ms ensures KeyLe(m, x) {
      var i :| 0 <= i < |ms| && ms[i] == x;
      if i > 0 { assert KeyLe(ms[0], ms[i]); }
    }
  }

  lemma {:induction false} InsertBlockFacts(m: Match, ms: seq<Match>)
    requires InOrder(ms)
    ensures InOrder(InsertBlock(m, ms)) && multiset(InsertBlock(m, ms)) == multiset(ms) + multiset{m}
    ensures forall x :: x in InsertBlock(m, ms) <==> x in ms || x == m
  {
    hide InOrder;
    if ms == [] {
      OneInOrder(m);
    } else if KeyLe(m, ms[0]) {
      LeAll(m, ms);
      OrderCons(m, ms);
    } else {
      KeyLeTotal(m, ms[0]);
      hide KeyLe;
      OrderSplit(ms);
      InsertBlockFacts(m, ms[1..]);
      OrderCons(ms[0], InsertBlock(m, ms[1..]));
      assert ms == [ms[0]] + ms[1..];
    }
  }

  lemma OneInOrder(m: Match)
    ensures InOrder([m])
  {
  }

  lemma KeyLeTotal(x: Match, y: Match)
    ensures KeyLe(x, y) || KeyLe(y, x)
  {
  }

  /** Sorting by start in a, start in b, size. */
  function SortBlocks(ms: seq<Match>): (r: seq<Match>)
    ensures InOrder(r) && multiset(r) == multiset(ms)
  {
    if ms == [] then []
    else
      var front := SortBlocks(ms[..|ms| - 1]);
      InsertBlockFacts(ms[|ms| - 1], front);
      assert ms == ms[..|ms| - 1] + [ms[|ms| - 1]];
      InsertBlock(ms[|ms| - 1], front)
  }

  lemma KeyLeBoth(x: Match, y: Match)
    requires KeyLe(x, y) && KeyLe(y, x)
    ensures x == y
  {
  }

  lemma HeadBefore(x: seq<Match>, m: Match)
    requires InOrder(x) && m in multiset(x)
    ensures x != [] && (m == x[0] || KeyLe(x[0], m))
  {
    var j :| 0 <= j < |x| && x[j] == m;
  }

  lemma TailCounts(x: seq<Match>)
    requires x != []
    ensures multiset(x[1..]) == multiset(x) - multiset{x[0]} && x[0] in multiset(x)
  {
    assert x == [x[0]] + x[1..];
  }

  lemma HeadIsLeast(x: seq<Match>, y: seq<Match>)
    requires InOrder(x) && InOrder(y) && multiset(x) == multiset(y) && x != []
    ensures y != [] && x[0] == y[0] && multiset(x[1..]) == multiset(y[1..])
  {
    hide KeyLe, InOrder;
    TailCounts(x);
    HeadBefore(y, x[0]);
    TailCounts(y);
    HeadBefore(x, y[0]);
    if x[0] != y[0] { KeyLeBoth(x[0], y[0]); }
  }

  lemma {:induction false} InOrderUnique(x: seq<Match>, y: seq<Match>)
    requires InOrder(x) && InOrder(y) && multiset(x) == multiset(y)
    ensures x == y
  {
    SameSize(x, y);
    if x != [] {
      HeadIsLeast(x, y);
      InOrderUnique(x[1..], y[1..]);
      assert x == [x[0]] + x[1..] && y == [y[0]] + y[1..];
    }
  }

  lemma SameSize(x: seq<Match>, y: seq<Match>)
    requires multiset(x) == multiset(y)
    ensures |x| == |y|
  {
    assert |multiset(x)| == |x| && |multiset(y)| == |y|;
  }

  lemma {:induction false} DecomposedInOrder<T(!new)>(p: Inputs<T>, ms: seq<Match>, i: nat, j: nat, i2: nat, j2: nat)
    requires Decomposes(p, ms, i, j, i2, j2, false)
    ensures InOrder(ms) && forall n :: 0 <= n < |ms| ==> i <= ms[n].aStart
    decreases |ms|
  {
    if ms != [] {
      DecomposedInOrder(p, ms[1..], ms[0].aStart + ms[0].size, ms[0].bStart + ms[0].size, i2, j2);
      hide Decomposes;
      assert forall n :: 1 <= n < |ms| ==> ms[n] == ms[1..][n - 1];
    }
  }

  /** However the queue visited the windows, sorting restores the order of the decomposition. */
  lemma SortedIsBlocks<T(!new)>(p: Inputs<T>, ms: seq<Match>)
    requires multiset(ms) == multiset(Blocks(p, Whole(p)))
    ensures SortBlocks(ms) == Blocks(p, Whole(p))
  {
    BlocksDecompose(p, Whole(p), false);
    DecomposedInOrder(p, Blocks(p, Whole(p)), 0, 0, |p.a|, |p.b|);
    InOrderUnique(SortBlocks(ms), Blocks(p, Whole(p)));
  }

  method CollapseBlocks(ms: seq<Match>) returns (r: seq<Match>)
    ensures r == Collapse(ms, Match(0, 0, 0))
  {
    var cur := Match(0, 0, 0);
    r := [];
    for n := 0 to |ms|
      invariant r + Collapse(ms[n..], cur) == Collapse(ms, Match(0, 0, 0))
    {
      assert ms[n..][0] == ms[n] && ms[n..][1..] == ms[n + 1..];
      if Touches(cur, ms[n]) {
        cur := cur.(size := cur.size + ms[n].size);
      } else {
        if cur.size > 0 {
          r := r + [cur];
        }
        cur := ms[n];
      }
    }
    if cur.size > 0 {
      r := r + [cur];
    }
  }

  // ----- the matcher -----

  class SequenceMatcher<T(==, !new)> {
    var a: seq<T>
    var b: seq<T>
    const autojunk: bool
    var b2j: Option<map<T, seq<nat>>>
    var matchingBlocks: Option<seq<Match>>
    var opcodes: Option<seq<OpCode>>
    var fullbcount: Option<map<T, nat>>

    function Pair(): Inputs<T>
      reads this
    {
      Inputs(a, b, autojunk)
    }

    /** Every filled cache holds what the current pair determines. */
    ghost predicate Valid()
      reads this
    {
      && (b2j.Some? ==> b2j.value == Index(Pair()))
      && (matchingBlocks.Some? ==> matchingBlocks.value == MatchingBlocks(Pair()))
      && (opcodes.Some? ==> opcodes.value == Opcodes(Pair()))
      && (fullbcount.Some? ==> fullbcount.value == Counts(b))
    }

    constructor (autojunk: bool)
      ensures Valid() && Pair() == Inputs([], [], autojunk)
    {
      a, b := [], [];
      this.autojunk := autojunk;
      b2j, matchingBlocks, opcodes, fullbcount := None, None, None, None;
    }

    method SetSeqs(a: seq<T>, b: seq<T>)
      requires Valid()
      modifies this
      ensures Valid() && Pair() == Inputs(a, b, autojunk)
    {
      SetSeq2(b);
      SetSeq1(a);
    }

    /** Replaces `a`; what depends on `b` alone stays cached. */
    method SetSeq1(a: seq<T>)
      requires Valid()
      modifies this`a, this`matchingBlocks, this`opcodes
      ensures Valid() && Pair() == old(Pair()).(a := a)
    {
      if a == this.a {
        return;
      }
      assert Index(Inputs(a, b, autojunk)) == Index(Pair());
      this.a := a;
      matchingBlocks := None;
      opcodes := None;
    }

    method SetSeq2(b: seq<T>)
      requires Valid()
      modifies this
      ensures Valid() && Pair() == old(Pair()).(b := b)
    {
      if b == this.b {
        return;
      }
      this.b := b;
      matchingBlocks := None;
      opcodes := None;
      b2j := None;
      fullbcount := None;
    }

    /** Indexes `b`, then drops the popular elements of a long one. */
    method ChainB()
      requires Valid()
      modifies this`b2j
      ensures Valid() && b2j == Some(Index(Pair()))
    {
      if b2j.Some? {
        return;
      }
      hide MatchingBlocks, Opcodes, Counts, Positions;
      var index := IndexAll(b);
      var n := |b|;
      if autojunk && n >= 200 {
        var ntest := n / 100 + 1;
        index := map x | x in index && |index[x]| <= ntest :: index[x];
      }
      b2j := Some(index);
    }

    static method IndexAll(b: seq<T>) returns (index: map<T, seq<nat>>)
      ensures forall x :: x in index <==> x in b
      ensures forall x :: x in index ==> index[x] == Positions(b, x)
    {
      hide Positions, Indexed;
      index := map[];
      NothingIndexed<T>();
      for i := 0 to |b|
        invariant Indexed(index, b[..i])
      {
        IndexNext(index, b, i);
        index := index[b[i] := (if b[i] in index then index[b[i]] else []) + [i]];
      }
      AllIndexed(index, b);
    }

    /** The longest match of a window, by one pass over its rows. */
    method FindLongestMatch(w: Window) returns (m: Match)
      requires Valid() && Within(Pair(), w)
      modifies this`b2j
      ensures Valid() && b2j == Some(Index(Pair())) && m == Longest(Pair(), w)
    {
      hide MatchingBlocks, Opcodes, Counts, Index, Rows, GrowLeft, GrowRight, Common;
      ChainB();
      m := ScanRows(Pair(), w, b2j.value);
      RowsCommon(Pair(), w);
      m := Grow(Pair(), w, m);
    }

    static method ScanRows(p: Inputs<T>, w: Window, index: map<T, seq<nat>>) returns (m: Match)
      requires Within(p, w) && index == Index(p)
      ensures m == Rows(p, w, w.ahi)
    {
      hide Index, Run, Row, RunsOf, Rows;
      m := Match(w.alo, w.blo, 0);
      var lens: map<nat, nat> := map[];
      RowsStart(p, w);
      for i := w.alo to w.ahi
        invariant RunsOf(p, w, i, lens, w.bhi) && m == Rows(p, w, i)
      {
        var positions := if p.a[i] in index then index[p.a[i]] else [];
        IndexLookup(p, p.a[i]);
        lens, m := ScanRow(p, w, i, positions, lens, m);
        RowsNext(p, w, i);
      }
    }

    /** Grows a match to the left, then to the right. */
    static method Grow(p: Inputs<T>, w: Window, m0: Match) returns (m: Match)
      requires Common(p, w, m0)
      ensures m == GrowRight(p, w, GrowLeft(p, w, m0))
    {
      hide Common;
      m := m0;
      CommonBounds(p, w, m);
      while m.aStart > w.alo && m.bStart > w.blo && p.a[m.aStart - 1] == p.b[m.bStart - 1]
        invariant w.alo <= m.aStart && m.aStart + m.size <= w.ahi <= |p.a|
        invariant w.blo <= m.bStart && m.bStart + m.size <= w.bhi <= |p.b|
        invariant Common(p, w, m) && GrowLeft(p, w, m) == GrowLeft(p, w, m0)
        decreases m.aStart
      {
        LeftIsCommon(p, w, m);
        m := Match(m.aStart - 1, m.bStart - 1, m.size + 1);
      }
      m := GrowRightwards(p, w, m);
    }

    static method GrowRightwards(p: Inputs<T>, w: Window, m0: Match) returns (m: Match)
      requires Common(p, w, m0)
      ensures m == GrowRight(p, w, m0)
    {
      hide Common;
      m := m0;
      CommonBounds(p, w, m);
      while m.aStart + m.size < w.ahi && m.bStart + m.size < w.bhi && p.a[m.aStart + m.size] == p.b[m.bStart + m.size]
        invariant w.alo <= m.aStart && m.aStart + m.size <= w.ahi <= |p.a|
        invariant w.blo <= m.bStart && m.bStart + m.size <= w.bhi <= |p.b|
        invariant Common(p, w, m) && GrowRight(p, w, m) == GrowRight(p, w, m0)
        decreases w.ahi - m.size
      {
        RightIsCommon(p, w, m);
        m := m.(size := m.size + 1);
      }
    }

    method GetMatchingBlocks() returns (blocks: seq<Match>)
      requires Valid()
      modifies this`b2j, this`matchingBlocks
      ensures Valid() && blocks == MatchingBlocks(Pair()) && matchingBlocks == Some(blocks)
    {
      if matchingBlocks.Some? {
        return matchingBlocks.value;
      }
      hide Collapse, Opcodes, Counts, Index, Blocks, SortBlocks;
      var found := Decompose();
      SortedIsBlocks(Pair(), found);
      blocks := CollapseBlocks(SortBlocks(found));
      blocks := blocks + [Match(|a|, |b|, 0)];
      matchingBlocks := Some(blocks);
    }

    /** Decomposes the whole pair with an explicit queue of windows. */
    method Decompose() returns (found: seq<Match>)
      requires Valid() && matchingBlocks.None?
      modifies this`b2j
      ensures Valid() && multiset(found) == multiset(Blocks(Pair(), Whole(Pair())))
    {
      hide Longest, MatchingBlocks, Opcodes, Counts, Index, Blocks, Pending, Load, Common;
      var p := Pair();
      var queue := [Whole(p)];
      found := [];
      QueueStart(p);
      while queue != []
        invariant Valid() && Pair() == p
        invariant forall w :: w in queue ==> Within(p, w)
        invariant multiset(found) + Pending(p, queue) == multiset(Blocks(p, Whole(p)))
        decreases Load(queue)
      {
        var w := queue[|queue| - 1];
        QueuePop(p, queue);
        queue := queue[..|queue| - 1];
        var m := FindLongestMatch(w);
        BlocksSplit(p, w);
        if m.size > 0 {
          found := found + [m];
          if w.alo < m.aStart && w.blo < m.bStart {
            PushWindow(p, queue, LeftOf(w, m));
            queue := queue + [LeftOf(w, m)];
          }
          if m.aStart + m.size < w.ahi && m.bStart + m.size < w.bhi {
            PushWindow(p, queue, RightOf(w, m));
            queue := queue + [RightOf(w, m)];
          }
        }
      }
      NothingPending(p);
    }

    method GetOpcodes() returns (codes: seq<OpCode>)
      requires Valid()
      modifies this`b2j, this`matchingBlocks, this`opcodes
      ensures Valid() && codes == Opcodes(Pair()) && opcodes == Some(codes)
    {
      if opcodes.Some? {
        return opcodes.value;
      }
      hide MatchingBlocks, Counts, Index, Codes;
      var blocks := GetMatchingBlocks();
      codes := ReadCodes(blocks);
      opcodes := Some(codes);
    }

    /** Walks the blocks, filling the gaps before them. */
    static method ReadCodes(blocks: seq<Match>) returns (codes: seq<OpCode>)
      ensures codes == Codes(blocks, 0, 0)
    {
      hide Codes, Gap, Same;
      codes := [];
      var i: nat, j: nat := 0, 0;
      assert blocks[0..] == blocks;
      for n := 0 to |blocks|
        invariant codes + Codes(blocks[n..], i, j) == Codes(blocks, 0, 0)
      {
        var m := blocks[n];
        CodesNext(codes, blocks, n, i, j);
        codes := codes + Gap(i, m.aStart, j, m.bStart) + Same(m);
        i, j := m.aStart + m.size, m.bStart + m.size;
      }
      NoCodes(codes, blocks[|blocks|..], i, j);
    }

    method GetRatio() returns (r: real)
      requires Valid()
      modifies this`b2j, this`matchingBlocks
      ensures Valid() && r == Ratio(Pair())
    {
      hide MatchingBlocks, Opcodes, Counts, Index;
      var blocks := GetMatchingBlocks();
      var matches := 0;
      assert blocks[0..] == blocks;
      for n := 0 to |blocks|
        invariant matches + Total(blocks[n..]) == Total(blocks)
      {
        assert blocks[n..][0] == blocks[n] && blocks[n..][1..] == blocks[n + 1..];
        matches := matches + blocks[n].size;
      }
      r := CalculateRatio(matches, |a| + |b|);
    }

    method GetQuickRatio() returns (r: real)
      requires Valid()
      modifies this`fullbcount
      ensures Valid() && r == QuickRatio(Pair())
    {
      hide MatchingBlocks, Opcodes, Index, CalculateRatio;
      if fullbcount.None? {
        var counts := CountAll(b);
        fullbcount := Some(counts);
      }
      var matches := CountCommon(a, b, fullbcount.value);
      r := CalculateRatio(matches, |a| + |b|);
    }

    /** Takes each element of `a` out of the counts of `b` while there are any. */
    static method CountCommon(a: seq<T>, ghost b: seq<T>, full: map<T, nat>) returns (matches: nat)
      requires full == Counts(b)
      ensures matches == |multiset(a) * multiset(b)|
    {
      hide Available;
      var avail: map<T, int> := map[];
      matches := 0;
      NoneTaken(b);
      for i := 0 to |a|
        invariant Available(avail, a[..i], b)
        invariant matches == |multiset(a[..i]) * multiset(b)|
      {
        var elt := a[i];
        var numb: int := if elt in avail then avail[elt] else if elt in full then full[elt] else 0;
        assert a[..i + 1] == a[..i] + [elt];
        Take(avail, a[..i], b, elt);
        IntersectionStep(multiset(a[..i]), multiset(b), elt);
        avail := avail[elt := numb - 1];
        if numb > 0 {
          matches := matches + 1;
        }
      }
      assert a[..|a|] == a;
    }

    static method CountAll(b: seq<T>) returns (counts: map<T, nat>)
      ensures counts == Counts(b)
    {
      counts := map[];
      for i := 0 to |b|
        invariant counts == Counts(b[..i])
      {
        assert b[..i + 1] == b[..i] + [b[i]];
        counts := counts[b[i] := (if b[i] in counts then counts[b[i]] else 0) + 1];
      }
      assert b[..|b|] == b;
    }

    method GetRealQuickRatio() returns (r: real)
      ensures r == RealQuickRatio(Pair())
    {
      r := CalculateRatio(if |a| <= |b| then |a| else |b|, |a| + |b|);
    }
  }

  lemma CodesNext(done: seq<OpCode>, blocks: seq<Match>, n: nat, i: nat, j: nat)
    requires n < |blocks|
    ensures var m := blocks[n];
      done + Codes(blocks[n..], i, j)
      == done + Gap(i, m.aStart, j, m.bStart) + Same(m) + Codes(blocks[n + 1..], m.aStart + m.size, m.bStart + m.size)
  {
    assert blocks[n..][0] == blocks[n] && blocks[n..][1..] == blocks[n + 1..];
    hide Gap, Same;
  }

  lemma NoCodes(done: seq<OpCode>, rest: seq<Match>, i: nat, j: nat)
    requires rest == []
    ensures done + Codes(rest, i, j) == done
  {
  }

  ghost predicate Indexed<T(!new)>(index: map<T, seq<nat>>, b: seq<T>) {
    && (forall x :: x in index <==> x in b)
    && (forall x :: x in index ==> index[x] == Positions(b, x))
  }

  lemma NothingIndexed<T(!new)>()
    ensures Indexed<T>(map[], [])
  {
  }

  lemma AllIndexed<T(!new)>(index: map<T, seq<nat>>, b: seq<T>)
    requires Indexed(index, b[..|b|])
    ensures forall x :: x in index <==> x in b
    ensures forall x :: x in index ==> index[x] == Positions(b, x)
  {
    assert b[..|b|] == b;
  }

  lemma PositionsNext<T>(b: seq<T>, i: nat, x: T)
    requires i < |b|
    ensures Positions(b[..i + 1], x) == Positions(b[..i], x) + if b[i] == x then [i] else []
  {
    assert b[..i + 1][..i] == b[..i];
  }

  lemma IndexNext<T(!new)>(index: map<T, seq<nat>>, b: seq<T>, i: nat)
    requires i < |b| && Indexed(index, b[..i])
    ensures Indexed(index[b[i] := (if b[i] in index then index[b[i]] else []) + [i]], b[..i + 1])
  {
    var next := index[b[i] := (if b[i] in index then index[b[i]] else []) + [i]];
    var now := b[..i + 1];
    assert now == b[..i] + [b[i]];
    NoPositions(b[..i], b[i]);
    hide Positions;
    assert forall x :: x in now <==> x in b[..i] || x == b[i];
    hide Indexed;
    forall x ensures x in next <==> x in now {}
    forall x | x in next ensures next[x] == Positions(now, x) {
      PositionsNext(b, i, x);
      IndexedAt(index, b[..i], x);
    }
    NowIndexed(next, now);
  }

  lemma IndexedAt<T(!new)>(index: map<T, seq<nat>>, b: seq<T>, x: T)
    requires Indexed(index, b)
    ensures x in index <==> x in b
    ensures x in index ==> index[x] == Positions(b, x)
  {
  }

  lemma NowIndexed<T(!new)>(index: map<T, seq<nat>>, b: seq<T>)
    requires forall x :: x in index <==> x in b
    requires forall x :: x in index ==> index[x] == Positions(b, x)
    ensures Indexed(index, b)
  {
  }

  lemma NoPositions<T>(b: seq<T>, x: T)
    ensures x !in b ==> Positions(b, x) == []
  {
  }

  lemma RowsStart<T>(p: Inputs<T>, w: Window)
    requires Within(p, w)
    ensures RunsOf(p, w, w.alo, map[], w.bhi) && Rows(p, w, w.alo) == Match(w.alo, w.blo, 0)
  {
  }

  lemma IndexLookup<T>(p: Inputs<T>, x: T)
    ensures (if x in Index(p) then Index(p)[x] else []) == RowPositions(p, x)
  {
  }

  lemma RowsNext<T>(p: Inputs<T>, w: Window, i: nat)
    requires Within(p, w) && w.alo <= i < w.ahi
    ensures Rows(p, w, i + 1) == Row(p, w, i, w.bhi, Rows(p, w, i))
  {
  }

  lemma RowsCommon<T>(p: Inputs<T>, w: Window)
    requires Within(p, w)
    ensures Common(p, w, Rows(p, w, w.ahi))
  {
    RowsLead(p, w, w.ahi);
  }

  lemma QueueStart<T>(p: Inputs<T>)
    ensures Pending(p, [Whole(p)]) == multiset(Blocks(p, Whole(p)))
  {
    PushWindow(p, [], Whole(p));
    assert [] + [Whole(p)] == [Whole(p)];
  }

  lemma QueuePop<T>(p: Inputs<T>, queue: seq<Window>)
    requires queue != [] && forall w :: w in queue ==> Within(p, w)
    ensures var w := queue[|queue| - 1];
      && Pending(p, queue) == Pending(p, queue[..|queue| - 1]) + multiset(Blocks(p, w))
      && Load(queue) == Load(queue[..|queue| - 1]) + 2 * (w.ahi - w.alo) + 1
  {
  }

  lemma NothingPending<T>(p: Inputs<T>)
    ensures Pending(p, []) == multiset{}
  {
  }

  /** A window's blocks are its longest match and those of its two sides. */
  lemma BlocksSplit<T>(p: Inputs<T>, w: Window)
    requires Within(p, w)
    ensures var m := Longest(p, w);
      && (m.size == 0 ==> Blocks(p, w) == [])
      && (m.size > 0 ==>
            && Within(p, LeftOf(w, m)) && Within(p, RightOf(w, m))
            && w.alo <= m.aStart && m.aStart + m.size <= w.ahi
            && multiset(Blocks(p, w)) == multiset{m}
               + (if w.alo < m.aStart && w.blo < m.bStart then multiset(Blocks(p, LeftOf(w, m))) else multiset{})
               + (if m.aStart + m.size < w.ahi && m.bStart + m.size < w.bhi then multiset(Blocks(p, RightOf(w, m)))
                   else multiset{}))
  {
    hide Longest;
  }

  /** What is left of the counts of `b` after taking `taken` out, for the elements taken. */
  ghost predicate Available<T(!new)>(avail: map<T, int>, taken: seq<T>, b: seq<T>) {
    && (forall x :: x in avail <==> x in taken)
    && (forall x :: x in avail ==> avail[x] + multiset(taken)[x] == multiset(b)[x])
  }

  lemma NoneTaken<T(!new)>(b: seq<T>)
    ensures Available(map[], [], b)
  {
  }

  lemma Take<T(!new)>(avail: map<T, int>, taken: seq<T>, b: seq<T>, e: T)
    requires Available(avail, taken, b)
    ensures var numb := if e in avail then avail[e] else if e in Counts(b) then Counts(b)[e] else 0;
      && numb + multiset(taken)[e] == multiset(b)[e]
      && Available(avail[e := numb - 1], taken + [e], b)
  {
    ElemsMultiset(taken, e);
  }

  lemma IntersectionStep<T>(x: multiset<T>, y: multiset<T>, e: T)
    ensures |(x + multiset{e}) * y| == |x * y| + (if x[e] < y[e] then 1 else 0)
  {
    if x[e] < y[e] {
      assert (x + multiset{e}) * y == x * y + multiset{e};
    } else {
      assert (x + multiset{e}) * y == x * y;
    }
  }
}
