/** The matching-block decomposition, the opcodes read off it, and the similarity ratios. */
module Decomposition {
  import opened Seqs
  import opened Matching

  // ----- blocks -----

  function Whole<T>(p: Inputs<T>): Window {
    Window(0, |p.a|, 0, |p.b|)
  }

  /** The longest match of the window between the blocks to its left and to its right. */
  function Blocks<T(==)>(p: Inputs<T>, w: Window): seq<Match>
    requires Within(p, w)
    decreases w.ahi - w.alo
  {
    var m := Longest(p, w);
    if m.size == 0 then []
    else LeftBlocks(p, w, m) + [m] + RightBlocks(p, w, m)
  }

  function LeftOf(w: Window, m: Match): Window {
    Window(w.alo, m.aStart, w.blo, m.bStart)
  }

  function RightOf(w: Window, m: Match): Window {
    Window(m.aStart + m.size, w.ahi, m.bStart + m.size, w.bhi)
  }

  function LeftBlocks<T(==)>(p: Inputs<T>, w: Window, m: Match): seq<Match>
    requires Common(p, w, m) && m.size > 0
    decreases w.ahi - w.alo, 0
  {
    if w.alo < m.aStart && w.blo < m.bStart then Blocks(p, LeftOf(w, m)) else []
  }

  function RightBlocks<T(==)>(p: Inputs<T>, w: Window, m: Match): seq<Match>
    requires Common(p, w, m) && m.size > 0
    decreases w.ahi - w.alo, 0
  {
    if m.aStart + m.size < w.ahi && m.bStart + m.size < w.bhi then Blocks(p, RightOf(w, m)) else []
  }

  ghost predicate NoShare<T(!new)>(p: Inputs<T>, i: int, i2: int, j: int, j2: int)
    requires 0 <= i && i2 <= |p.a| && 0 <= j && j2 <= |p.b|
  {
    forall x, y :: i <= x < i2 && j <= y < j2 ==> p.a[x] != p.b[y]
  }

  ghost predicate BlockOk<T>(p: Inputs<T>, m: Match) {
    m.size > 0 && Common(p, Whole(p), m)
  }

  /** The gap before a block: when `strict`, its two sides share no element. */
  ghost predicate GapOk<T(!new)>(p: Inputs<T>, i: nat, i2: nat, j: nat, j2: nat, strict: bool) {
    i <= i2 <= |p.a| && j <= j2 <= |p.b| && (strict ==> NoShare(p, i, i2, j, j2))
  }

  /** The blocks lie in order between (i, j) and (i2, j2) and do not overlap. */
  ghost predicate Decomposes<T(!new)>(p: Inputs<T>, ms: seq<Match>, i: nat, j: nat, i2: nat, j2: nat, strict: bool)
    decreases |ms|
  {
    if ms == [] then GapOk(p, i, i2, j, j2, strict)
    else
      && BlockOk(p, ms[0])
      && GapOk(p, i, ms[0].aStart, j, ms[0].bStart, strict)
      && Decomposes(p, ms[1..], ms[0].aStart + ms[0].size, ms[0].bStart + ms[0].size, i2, j2, strict)
  }

  lemma {:induction false} DecomposesJoin<T(!new)>(p: Inputs<T>, left: seq<Match>, m: Match, right: seq<Match>,
      i: nat, j: nat, i2: nat, j2: nat, strict: bool)
    requires Decomposes(p, left, i, j, m.aStart, m.bStart, strict) && BlockOk(p, m)
    requires Decomposes(p, right, m.aStart + m.size, m.bStart + m.size, i2, j2, strict)
    ensures Decomposes(p, left + [m] + right, i, j, i2, j2, strict)
    decreases |left|
  {
    hide BlockOk, GapOk;
    var all := left + [m] + right;
    if left == [] {
      assert all[0] == m && all[1..] == right;
    } else {
      var l := left[0];
      DecomposesJoin(p, left[1..], m, right, l.aStart + l.size, l.bStart + l.size, i2, j2, strict);
      assert all[0] == l && all[1..] == left[1..] + [m] + right;
    }
  }

  lemma EmptyGap<T(!new)>(p: Inputs<T>, i: nat, i2: nat, j: nat, j2: nat, strict: bool)
    requires i <= i2 <= |p.a| && j <= j2 <= |p.b| && (i == i2 || j == j2)
    ensures GapOk(p, i, i2, j, j2, strict)
  {
  }

  /** A window without a match shares nothing, unless popular elements were dropped. */
  lemma NoMatchNoShare<T(!new)>(p: Inputs<T>, w: Window, strict: bool)
    requires Within(p, w) && Longest(p, w).size == 0 && (strict ==> NonePopular(p))
    ensures GapOk(p, w.alo, w.ahi, w.blo, w.bhi, strict)
  {
    if strict {
      forall x, y | w.alo <= x < w.ahi && w.blo <= y < w.bhi ensures p.a[x] != p.b[y] {
        if p.a[x] == p.b[y] {
          assert p.a[x..x + 1] == [p.a[x]] && p.b[y..y + 1] == [p.b[y]];
          LongestIsOptimal(p, w, Match(x, y, 1));
        }
      }
    }
  }

  lemma {:induction false} BlocksDecompose<T(!new)>(p: Inputs<T>, w: Window, strict: bool)
    requires Within(p, w) && (strict ==> NonePopular(p))
    ensures Decomposes(p, Blocks(p, w), w.alo, w.blo, w.ahi, w.bhi, strict)
    decreases w.ahi - w.alo
  {
    hide NonePopular, GapOk, Longest;
    var m := Longest(p, w);
    if m.size == 0 {
      NoMatchNoShare(p, w, strict);
    } else {
      if w.alo < m.aStart && w.blo < m.bStart {
        BlocksDecompose(p, LeftOf(w, m), strict);
      } else {
        EmptyGap(p, w.alo, m.aStart, w.blo, m.bStart, strict);
      }
      if m.aStart + m.size < w.ahi && m.bStart + m.size < w.bhi {
        BlocksDecompose(p, RightOf(w, m), strict);
      } else {
        EmptyGap(p, m.aStart + m.size, w.ahi, m.bStart + m.size, w.bhi, strict);
      }
      DecomposesJoin(p, LeftBlocks(p, w, m), m, RightBlocks(p, w, m), w.alo, w.blo, w.ahi, w.bhi, strict);
    }
  }

  // ----- sorting and collapsing -----

  /** Merges runs of adjacent blocks; `cur` is the block being grown, empty at first. */
  function Collapse(ms: seq<Match>, cur: Match): seq<Match>
    decreases |ms|
  {
    if ms == [] then (if cur.size > 0 then [cur] else [])
    else if Touches(cur, ms[0]) then Collapse(ms[1..], Match(cur.aStart, cur.bStart, cur.size + ms[0].size))
    else (if cur.size > 0 then [cur] else []) + Collapse(ms[1..], ms[0])
  }

  predicate Touches(x: Match, y: Match) {
    x.aStart + x.size == y.aStart && x.bStart + x.size == y.bStart
  }

  ghost predicate NonAdjacent(ms: seq<Match>) {
    forall n :: 0 <= n < |ms| - 1 ==> !Touches(ms[n], ms[n + 1])
  }

  function MatchingBlocks<T(==)>(p: Inputs<T>): (ms: seq<Match>)
    ensures ms != []
  {
    Collapse(Blocks(p, Whole(p)), Match(0, 0, 0)) + [Match(|p.a|, |p.b|, 0)]
  }

  lemma JoinTouching<T>(p: Inputs<T>, x: Match, y: Match)
    requires BlockOk(p, x) && BlockOk(p, y) && Touches(x, y)
    ensures BlockOk(p, Match(x.aStart, x.bStart, x.size + y.size))
  {
    var i, j, k := x.aStart, x.bStart, x.size + y.size;
    assert p.a[i..i + k] == p.a[i..i + x.size] + p.a[i + x.size..i + k];
    assert p.b[j..j + k] == p.b[j..j + x.size] + p.b[j + x.size..j + k];
  }

  lemma NonAdjacentCons(m: Match, ms: seq<Match>)
    requires NonAdjacent(ms) && (ms != [] ==> !Touches(m, ms[0]))
    ensures NonAdjacent([m] + ms)
  {
  }

  lemma DecomposesCons<T(!new)>(p: Inputs<T>, m: Match, rest: seq<Match>, i2: nat, j2: nat, strict: bool)
    requires BlockOk(p, m) && Decomposes(p, rest, m.aStart + m.size, m.bStart + m.size, i2, j2, strict)
    ensures Decomposes(p, [m] + rest, m.aStart, m.bStart, i2, j2, strict)
  {
    BlockSize(p, m);
    EmptyGap(p, m.aStart, m.aStart, m.bStart, m.bStart, strict);
    assert ([m] + rest)[1..] == rest;
  }

  lemma DecomposesUncons<T(!new)>(p: Inputs<T>, ms: seq<Match>, i: nat, j: nat, i2: nat, j2: nat, strict: bool)
    requires ms != [] && Decomposes(p, ms, i, j, i2, j2, strict)
    ensures BlockOk(p, ms[0]) && GapOk(p, i, ms[0].aStart, j, ms[0].bStart, strict)
    ensures Decomposes(p, ms[1..], ms[0].aStart + ms[0].size, ms[0].bStart + ms[0].size, i2, j2, strict)
  {
  }

  lemma CollapseCases(ms: seq<Match>, cur: Match)
    requires cur.size > 0
    ensures ms == [] ==> Collapse(ms, cur) == [cur] + []
    ensures ms != [] && Touches(cur, ms[0]) ==>
      Collapse(ms, cur) == Collapse(ms[1..], Match(cur.aStart, cur.bStart, cur.size + ms[0].size))
    ensures ms != [] && !Touches(cur, ms[0]) ==> Collapse(ms, cur) == [cur] + Collapse(ms[1..], ms[0])
  {
  }

  /** Collapsing keeps the decomposition and leaves no two blocks adjacent. */
  lemma {:induction false} CollapseKeeps<T(!new)>(p: Inputs<T>, ms: seq<Match>, cur: Match, i2: nat, j2: nat,
      strict: bool)
    requires BlockOk(p, cur) && Decomposes(p, ms, cur.aStart + cur.size, cur.bStart + cur.size, i2, j2, strict)
    ensures var r := Collapse(ms, cur);
      && r != [] && r[0].aStart == cur.aStart && r[0].bStart == cur.bStart
      && Decomposes(p, r, cur.aStart, cur.bStart, i2, j2, strict) && NonAdjacent(r)
    decreases |ms|
  {
    hide BlockOk, GapOk, NonAdjacent, Decomposes, Collapse;
    BlockSize(p, cur);
    CollapseCases(ms, cur);
    if ms == [] {
      DecomposesCons(p, cur, [], i2, j2, strict);
      NoneNonAdjacent();
      NonAdjacentCons(cur, []);
    } else {
      DecomposesUncons(p, ms, cur.aStart + cur.size, cur.bStart + cur.size, i2, j2, strict);
      if Touches(cur, ms[0]) {
        JoinTouching(p, cur, ms[0]);
        CollapseKeeps(p, ms[1..], Match(cur.aStart, cur.bStart, cur.size + ms[0].size), i2, j2, strict);
      } else {
        var rest := Collapse(ms[1..], ms[0]);
        CollapseKeeps(p, ms[1..], ms[0], i2, j2, strict);
        Widen(p, rest, cur.aStart + cur.size, cur.bStart + cur.size, i2, j2, strict);
        DecomposesCons(p, cur, rest, i2, j2, strict);
        NonAdjacentCons(cur, rest);
      }
    }
  }

  lemma BlockSize<T>(p: Inputs<T>, m: Match)
    requires BlockOk(p, m)
    ensures m.size > 0 && m.aStart + m.size <= |p.a| && m.bStart + m.size <= |p.b|
  {
  }

  /** A decomposition that starts at its first block also starts at the gap before it. */
  lemma Widen<T(!new)>(p: Inputs<T>, ms: seq<Match>, i: nat, j: nat, i2: nat, j2: nat, strict: bool)
    requires ms != [] && Decomposes(p, ms, ms[0].aStart, ms[0].bStart, i2, j2, strict)
    requires GapOk(p, i, ms[0].aStart, j, ms[0].bStart, strict)
    ensures Decomposes(p, ms, i, j, i2, j2, strict)
  {
  }

  /** The blocks before the sentinel: ordered, non-overlapping, non-adjacent, genuine, and
      with no popular element every gap's sides are disjoint. */
  lemma CollapsedBlocks<T(!new)>(p: Inputs<T>, strict: bool)
    requires strict ==> NonePopular(p)
    ensures var ms := Collapse(Blocks(p, Whole(p)), Match(0, 0, 0));
      Decomposes(p, ms, 0, 0, |p.a|, |p.b|, strict) && NonAdjacent(ms)
  {
    hide NonePopular, BlockOk, GapOk, NonAdjacent, Blocks;
    var all := Blocks(p, Whole(p));
    BlocksDecompose(p, Whole(p), strict);
    if all == [] {
      NoneNonAdjacent();
    } else {
      CollapseKeeps(p, all[1..], all[0], |p.a|, |p.b|, strict);
      assert Collapse(all, Match(0, 0, 0)) == Collapse(all[1..], all[0]) by { BlockSize(p, all[0]); }
      Widen(p, Collapse(all[1..], all[0]), 0, 0, |p.a|, |p.b|, strict);
    }
  }

  lemma NoneNonAdjacent()
    ensures NonAdjacent([])
  {
  }

  // ----- opcodes -----

  datatype OpTag = Equal | Delete | Insert | Replace
  datatype OpCode = OpCode(tag: OpTag, i1: nat, i2: nat, j1: nat, j2: nat)

  function Gap(i: nat, i2: nat, j: nat, j2: nat): seq<OpCode> {
    if i < i2 && j < j2 then [OpCode(Replace, i, i2, j, j2)]
    else if i < i2 then [OpCode(Delete, i, i2, j, j2)]
    else if j < j2 then [OpCode(Insert, i, i2, j, j2)]
    else []
  }

  function Same(m: Match): seq<OpCode> {
    if m.size > 0 then [OpCode(Equal, m.aStart, m.aStart + m.size, m.bStart, m.bStart + m.size)] else []
  }

  function Codes(ms: seq<Match>, i: nat, j: nat): seq<OpCode>
    decreases |ms|
  {
    if ms == [] then []
    else Gap(i, ms[0].aStart, j, ms[0].bStart) + Same(ms[0]) + Codes(ms[1..], ms[0].aStart + ms[0].size,
        ms[0].bStart + ms[0].size)
  }

  function Opcodes<T(==)>(p: Inputs<T>): seq<OpCode> {
    Codes(MatchingBlocks(p), 0, 0)
  }

  /** A segment does what its tag says; a strict Replace shares no element. */
  ghost predicate SegmentOk<T(!new)>(p: Inputs<T>, c: OpCode, strict: bool) {
    && c.i1 <= c.i2 <= |p.a| && c.j1 <= c.j2 <= |p.b|
    && match c.tag {
         case Equal => c.i1 < c.i2 && p.a[c.i1..c.i2] == p.b[c.j1..c.j2]
         case Delete => c.i1 < c.i2 && c.j1 == c.j2
         case Insert => c.i1 == c.i2 && c.j1 < c.j2
         case Replace => c.i1 < c.i2 && c.j1 < c.j2 && (strict ==> NoShare(p, c.i1, c.i2, c.j1, c.j2))
       }
  }

  /** The segments cover both sequences from (i, j) on, end to end. */
  ghost predicate Tiles<T(!new)>(p: Inputs<T>, cs: seq<OpCode>, i: nat, j: nat, strict: bool)
    decreases |cs|
  {
    if cs == [] then i == |p.a| && j == |p.b|
    else cs[0].i1 == i && cs[0].j1 == j && SegmentOk(p, cs[0], strict) && Tiles(p, cs[1..], cs[0].i2, cs[0].j2, strict)
  }

  /** Equal segments and others take turns. */
  ghost predicate TakeTurns(cs: seq<OpCode>) {
    forall n :: 0 <= n < |cs| - 1 ==> (cs[n].tag.Equal? <==> !cs[n + 1].tag.Equal?)
  }

  lemma GapTiles<T(!new)>(p: Inputs<T>, i: nat, i2: nat, j: nat, j2: nat, rest: seq<OpCode>, strict: bool)
    requires GapOk(p, i, i2, j, j2, strict) && Tiles(p, rest, i2, j2, strict)
    ensures Tiles(p, Gap(i, i2, j, j2) + rest, i, j, strict)
  {
    var g := Gap(i, i2, j, j2);
    if g == [] {
      assert g + rest == rest;
    } else {
      assert (g + rest)[0] == g[0] && (g + rest)[1..] == rest;
    }
  }

  lemma SameTiles<T(!new)>(p: Inputs<T>, m: Match, rest: seq<OpCode>, strict: bool)
    requires BlockOk(p, m) && Tiles(p, rest, m.aStart + m.size, m.bStart + m.size, strict)
    ensures Tiles(p, Same(m) + rest, m.aStart, m.bStart, strict)
  {
    assert (Same(m) + rest)[0] == Same(m)[0] && (Same(m) + rest)[1..] == rest;
  }

  /** With the sentinel at the end, the codes of a decomposition tile both sequences. */
  lemma {:induction false} CodesTile<T(!new)>(p: Inputs<T>, ms: seq<Match>, i: nat, j: nat, strict: bool)
    requires Decomposes(p, ms, i, j, |p.a|, |p.b|, strict)
    ensures Tiles(p, Codes(ms + [Match(|p.a|, |p.b|, 0)], i, j), i, j, strict)
    decreases |ms|
  {
    hide Tiles, GapOk, BlockOk, Gap, Same;
    var end := Match(|p.a|, |p.b|, 0);
    var all := ms + [end];
    if ms == [] {
      assert all[0] == end && all[1..] == [];
      NothingTiles(p, strict);
      GapTiles(p, i, |p.a|, j, |p.b|, [], strict);
      assert Same(end) == [] by { EndIsEmpty(end); }
      assert Codes(all, i, j) == Gap(i, |p.a|, j, |p.b|) + [];
    } else {
      var m := ms[0];
      assert all[0] == m && all[1..] == ms[1..] + [end];
      CodesTile(p, ms[1..], m.aStart + m.size, m.bStart + m.size, strict);
      var rest := Codes(all[1..], m.aStart + m.size, m.bStart + m.size);
      SameTiles(p, m, rest, strict);
      GapTiles(p, i, m.aStart, j, m.bStart, Same(m) + rest, strict);
      assert Codes(all, i, j) == Gap(i, m.aStart, j, m.bStart) + (Same(m) + rest);
    }
  }

  lemma EndIsEmpty(m: Match)
    requires m.size == 0
    ensures Same(m) == []
  {
  }

  lemma NothingTiles<T(!new)>(p: Inputs<T>, strict: bool)
    ensures Tiles(p, [], |p.a|, |p.b|, strict)
  {
  }

  lemma TurnsCons(c: OpCode, rest: seq<OpCode>)
    requires TakeTurns(rest) && (rest == [] || (c.tag.Equal? <==> !rest[0].tag.Equal?))
    ensures TakeTurns([c] + rest)
  {
  }

  lemma GapTakesTurns(i: nat, m: Match, j: nat, rest: seq<OpCode>)
    requires TakeTurns(rest) && (rest == [] || !rest[0].tag.Equal?)
    ensures var cs := Gap(i, m.aStart, j, m.bStart) + Same(m) + rest;
      && (m.size > 0 || rest == [] ==> TakeTurns(cs))
      && (cs != [] && cs[0].tag.Equal? && i <= m.aStart && j <= m.bStart
        ==> m.size > 0 && i == m.aStart && j == m.bStart)
  {
    var g, s := Gap(i, m.aStart, j, m.bStart), Same(m);
    if s != [] {
      TurnsCons(s[0], rest);
      assert s + rest == [s[0]] + rest;
    } else {
      assert s + rest == rest;
    }
    if g != [] && (s != [] || rest == []) {
      TurnsCons(g[0], s + rest);
      assert g + s + rest == [g[0]] + (s + rest);
    } else if g == [] {
      assert g + s + rest == s + rest;
    }
  }

  lemma DecomposesHead<T(!new)>(p: Inputs<T>, ms: seq<Match>, i: nat, j: nat, i2: nat, j2: nat, strict: bool)
    requires Decomposes(p, ms, i, j, i2, j2, strict)
    ensures ms == [] ==> i <= i2 && j <= j2
    ensures ms != [] ==>
      && ms[0].size > 0 && i <= ms[0].aStart && j <= ms[0].bStart
      && Decomposes(p, ms[1..], ms[0].aStart + ms[0].size, ms[0].bStart + ms[0].size, i2, j2, strict)
  {
  }

  lemma CodesEmpty(i: nat, j: nat, end: Match)
    ensures Codes([end], i, j) == Gap(i, end.aStart, j, end.bStart) + Same(end) + []
  {
    assert [end][1..] == [];
  }

  /** Codes start with an Equal segment only where a block starts. */
  lemma {:induction false} CodesTakeTurns<T(!new)>(p: Inputs<T>, ms: seq<Match>, i: nat, j: nat, strict: bool)
    requires Decomposes(p, ms, i, j, |p.a|, |p.b|, strict) && NonAdjacent(ms)
    ensures var cs := Codes(ms + [Match(|p.a|, |p.b|, 0)], i, j);
      && TakeTurns(cs)
      && (cs != [] && cs[0].tag.Equal? ==> ms != [] && i == ms[0].aStart && j == ms[0].bStart)
    decreases |ms|
  {
    hide TakeTurns, NonAdjacent, Decomposes, Gap, Same;
    var end := Match(|p.a|, |p.b|, 0);
    var all := ms + [end];
    DecomposesHead(p, ms, i, j, |p.a|, |p.b|, strict);
    if ms == [] {
      assert all == [end];
      CodesEmpty(i, j, end);
      NoTurns();
      GapTakesTurns(i, end, j, []);
    } else {
      var m := ms[0];
      assert all[0] == m && all[1..] == ms[1..] + [end];
      NonAdjacentTail(ms);
      CodesTakeTurns(p, ms[1..], m.aStart + m.size, m.bStart + m.size, strict);
      GapTakesTurns(i, m, j, Codes(all[1..], m.aStart + m.size, m.bStart + m.size));
    }
  }

  lemma NoTurns()
    ensures TakeTurns([])
  {
  }

  lemma NonAdjacentTail(ms: seq<Match>)
    requires NonAdjacent(ms) && ms != []
    ensures NonAdjacent(ms[1..]) && (|ms| > 1 ==> !Touches(ms[0], ms[1]))
  {
    forall n | 0 <= n < |ms[1..]| - 1 ensures !Touches(ms[1..][n], ms[1..][n + 1]) {
      assert !Touches(ms[n + 1], ms[n + 2]);
    }
  }

  /** The opcodes tile both sequences and take turns; with no popular element, the sides of
      a Replace segment share nothing. */
  lemma OpcodesTile<T(!new)>(p: Inputs<T>, strict: bool)
    requires strict ==> NonePopular(p)
    ensures Tiles(p, Opcodes(p), 0, 0, strict) && TakeTurns(Opcodes(p))
  {
    hide NonePopular, Tiles, TakeTurns, Decomposes, NonAdjacent, Codes, Collapse, Blocks;
    CollapsedBlocks(p, strict);
    var ms := Collapse(Blocks(p, Whole(p)), Match(0, 0, 0));
    CodesTile(p, ms, 0, 0, strict);
    CodesTakeTurns(p, ms, 0, 0, strict);
  }

  // ----- similarity -----

  function Total(ms: seq<Match>): nat {
    if ms == [] then 0 else ms[0].size + Total(ms[1..])
  }

  /** Twice the matches over the total; two empty sequences are alike. */
  function CalculateRatio(matches: nat, total: nat): real {
    if total == 0 then 1.0 else 2.0 * matches as real / total as real
  }

  function Ratio<T(==)>(p: Inputs<T>): real {
    CalculateRatio(Total(MatchingBlocks(p)), |p.a| + |p.b|)
  }

  /** Counts the multiset intersection. */
  function QuickRatio<T(==)>(p: Inputs<T>): real {
    CalculateRatio(|multiset(p.a) * multiset(p.b)|, |p.a| + |p.b|)
  }

  function RealQuickRatio<T>(p: Inputs<T>): real {
    CalculateRatio(if |p.a| <= |p.b| then |p.a| else |p.b|, |p.a| + |p.b|)
  }

  lemma {:induction false} TotalAppend(x: seq<Match>, y: seq<Match>)
    ensures Total(x + y) == Total(x) + Total(y)
  {
    if x == [] {
      assert x + y == y;
    } else {
      assert (x + y)[0] == x[0] && (x + y)[1..] == x[1..] + y;
      TotalAppend(x[1..], y);
    }
  }

  lemma SubsetSize<T>(x: multiset<T>, y: multiset<T>)
    requires x <= y
    ensures |x| <= |y|
  {
    assert y == x + (y - x);
  }

  lemma GapBounds<T(!new)>(p: Inputs<T>, i: nat, i2: nat, j: nat, j2: nat, strict: bool)
    requires GapOk(p, i, i2, j, j2, strict)
    ensures i <= i2 <= |p.a| && j <= j2 <= |p.b|
  {
  }

  lemma FitsBoth<T>(c: multiset<T>, x: multiset<T>, y: multiset<T>, a: multiset<T>, b: multiset<T>)
    requires c + x <= a && c + y <= b
    ensures |c| + |x * y| <= |a * b|
  {
    var both := c + x * y;
    assert both <= a * b;
    assert |both| == |c| + |x * y|;
    SubsetSize(both, a * b);
  }

  lemma BlockSame<T>(p: Inputs<T>, m: Match)
    requires BlockOk(p, m)
    ensures m.aStart + m.size <= |p.a| && m.bStart + m.size <= |p.b|
    ensures p.a[m.aStart..m.aStart + m.size] == p.b[m.bStart..m.bStart + m.size]
  {
  }

  lemma SidesFit<T>(s: seq<T>, t: seq<T>, i: nat, k: nat, k': nat, j: nat, l: nat, l': nat)
    requires i <= k <= k' <= |s| && j <= l <= l' <= |t| && s[k..k'] == t[l..l']
    ensures k' - k + |multiset(s[k'..]) * multiset(t[l'..])| <= |multiset(s[i..]) * multiset(t[j..])|
  {
    PartOfRest(s, i, k, k');
    PartOfRest(t, j, l, l');
    FitsBoth(multiset(s[k..k']), multiset(s[k'..]), multiset(t[l'..]), multiset(s[i..]), multiset(t[j..]));
  }

  /** A block's elements come off both sides at once. */
  lemma OneBlockWithin<T>(p: Inputs<T>, m: Match, i: nat, j: nat)
    requires BlockOk(p, m) && i <= m.aStart && j <= m.bStart
    ensures m.aStart + m.size <= |p.a| && m.bStart + m.size <= |p.b|
    ensures m.size + |multiset(p.a[m.aStart + m.size..]) * multiset(p.b[m.bStart + m.size..])|
         <= |multiset(p.a[i..]) * multiset(p.b[j..])|
  {
    hide BlockOk;
    BlockSame(p, m);
    SidesFit(p.a, p.b, i, m.aStart, m.aStart + m.size, j, m.bStart, m.bStart + m.size);
  }

  /** Each block pairs off equal elements, so the blocks fit into the multiset intersection. */
  lemma {:induction false} TotalWithinBoth<T(!new)>(p: Inputs<T>, ms: seq<Match>, i: nat, j: nat, strict: bool)
    requires Decomposes(p, ms, i, j, |p.a|, |p.b|, strict)
    ensures i <= |p.a| && j <= |p.b|
    ensures Total(ms) <= |multiset(p.a[i..]) * multiset(p.b[j..])|
    decreases |ms|
  {
    hide BlockOk, GapOk;
    if ms == [] {
      GapBounds(p, i, |p.a|, j, |p.b|, strict);
    } else {
      var m := ms[0];
      TotalWithinBoth(p, ms[1..], m.aStart + m.size, m.bStart + m.size, strict);
      GapBounds(p, i, m.aStart, j, m.bStart, strict);
      OneBlockWithin(p, m, i, j);
    }
  }

  lemma PartOfRest<T>(s: seq<T>, i: nat, k: nat, k': nat)
    requires i <= k <= k' <= |s|
    ensures multiset(s[k..k']) + multiset(s[k'..]) <= multiset(s[i..])
  {
    assert s[i..] == s[i..k] + s[k..k'] + s[k'..];
  }

  lemma RatioMonotone(x: nat, y: nat, total: nat)
    requires x <= y
    ensures CalculateRatio(x, total) <= CalculateRatio(y, total)
  {
    if total > 0 {
      var t := total as real;
      assert 2.0 * x as real <= 2.0 * y as real;
      Divided(2.0 * x as real, 2.0 * y as real, t);
    }
  }

  lemma Divided(x: real, y: real, t: real)
    requires x <= y && t > 0.0
    ensures x / t <= y / t
  {
  }

  lemma TotalWithinIntersection<T(!new)>(p: Inputs<T>)
    ensures Total(MatchingBlocks(p)) <= |multiset(p.a) * multiset(p.b)|
  {
    hide Collapse, Blocks, Decomposes, NonAdjacent;
    var ms := Collapse(Blocks(p, Whole(p)), Match(0, 0, 0));
    CollapsedBlocks(p, false);
    TotalWithinBoth(p, ms, 0, 0, false);
    assert p.a[0..] == p.a && p.b[0..] == p.b;
    TotalAppend(ms, [Match(|p.a|, |p.b|, 0)]);
  }

  /** The cheap ratios bound the exact one from above. */
  lemma RatioBounds<T(!new)>(p: Inputs<T>)
    ensures Ratio(p) <= QuickRatio(p) <= RealQuickRatio(p) <= 1.0
  {
    hide MatchingBlocks, CalculateRatio;
    var both, total := multiset(p.a) * multiset(p.b), |p.a| + |p.b|;
    var least := if |p.a| <= |p.b| then |p.a| else |p.b|;
    TotalWithinIntersection(p);
    RatioMonotone(Total(MatchingBlocks(p)), |both|, total);
    SubsetSize(both, multiset(p.a));
    SubsetSize(both, multiset(p.b));
    RatioMonotone(|both|, least, total);
    AtMostOne(least, total);
  }

  lemma AtMostOne(matches: nat, total: nat)
    requires 2 * matches <= total
    ensures CalculateRatio(matches, total) <= 1.0
  {
    if total > 0 {
      Divided(2.0 * matches as real, total as real, total as real);
    }
  }
}
