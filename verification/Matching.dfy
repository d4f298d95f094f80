/** What the Ratcliff/Obershelp matcher computes: the longest match of a window, the
    decomposition into matching blocks, the opcodes, and the similarity ratios. */
module Matching {
  import opened Seqs

  /** The two sequences, and whether popular elements of a long `b` are dropped. */
  datatype Inputs<T> = Inputs(a: seq<T>, b: seq<T>, autojunk: bool)

  datatype Match = Match(aStart: nat, bStart: nat, size: nat)

  datatype Window = Window(alo: nat, ahi: nat, blo: nat, bhi: nat)

  ghost predicate Within<T>(p: Inputs<T>, w: Window) {
    w.alo <= w.ahi <= |p.a| && w.blo <= w.bhi <= |p.b|
  }

  predicate Popular<T(==)>(p: Inputs<T>, x: T) {
    p.autojunk && |p.b| >= 200 && multiset(p.b)[x] > |p.b| / 100 + 1
  }

  ghost predicate NonePopular<T(!new)>(p: Inputs<T>) {
    forall x :: !Popular(p, x)
  }

  // ----- the longest match of a window -----

  /** The length of the run of equal unpopular elements that ends before (i, j). */
  function Run<T(==)>(p: Inputs<T>, w: Window, i: nat, j: nat): (k: nat)
    requires Within(p, w) && i <= w.ahi && j <= w.bhi
    ensures k <= i && k <= j && (k > 0 ==> w.alo + k <= i && w.blo + k <= j)
    decreases i
  {
    if w.alo < i && w.blo < j && p.a[i - 1] == p.b[j - 1] && !Popular(p, p.a[i - 1])
    then Run(p, w, i - 1, j - 1) + 1 else 0
  }

  /** A strictly longer run ending before (i, j) replaces the best match. */
  function Better(best: Match, i: nat, j: nat, k: nat): Match
    requires k <= i && k <= j
  {
    if k > best.size then Match(i - k, j - k, k) else best
  }

  /** The best match after the columns of row `i` up to `j`. */
  function Row<T(==)>(p: Inputs<T>, w: Window, i: nat, j: nat, best: Match): Match
    requires Within(p, w) && i < w.ahi && w.blo <= j <= w.bhi
    decreases j
  {
    if j == w.blo then best else Better(Row(p, w, i, j - 1, best), i + 1, j, Run(p, w, i + 1, j))
  }

  /** The best match after the rows up to `i`. */
  function Rows<T(==)>(p: Inputs<T>, w: Window, i: nat): Match
    requires Within(p, w) && w.alo <= i <= w.ahi
    decreases i
  {
    if i == w.alo then Match(w.alo, w.blo, 0) else Row(p, w, i - 1, w.bhi, Rows(p, w, i - 1))
  }

  /** A genuine common block of the window. */
  ghost predicate Common<T>(p: Inputs<T>, w: Window, m: Match) {
    && Within(p, w)
    && w.alo <= m.aStart && m.aStart + m.size <= w.ahi
    && w.blo <= m.bStart && m.bStart + m.size <= w.bhi
    && p.a[m.aStart..m.aStart + m.size] == p.b[m.bStart..m.bStart + m.size]
  }

  lemma LeftIsCommon<T>(p: Inputs<T>, w: Window, m: Match)
    requires Common(p, w, m) && m.aStart > w.alo && m.bStart > w.blo && p.a[m.aStart - 1] == p.b[m.bStart - 1]
    ensures Common(p, w, Match(m.aStart - 1, m.bStart - 1, m.size + 1))
  {
    SliceLeft(p.a, m.aStart, m.aStart + m.size);
    SliceLeft(p.b, m.bStart, m.bStart + m.size);
  }

  lemma RightIsCommon<T>(p: Inputs<T>, w: Window, m: Match)
    requires Common(p, w, m) && m.aStart + m.size < w.ahi && m.bStart + m.size < w.bhi
    requires p.a[m.aStart + m.size] == p.b[m.bStart + m.size]
    ensures Common(p, w, Match(m.aStart, m.bStart, m.size + 1))
  {
    SliceRight(p.a, m.aStart, m.aStart + m.size);
    SliceRight(p.b, m.bStart, m.bStart + m.size);
  }

  lemma SliceLeft<T>(s: seq<T>, i: nat, k: nat)
    requires 0 < i <= k <= |s|
    ensures s[i - 1..k] == [s[i - 1]] + s[i..k]
  {
  }

  lemma SliceRight<T>(s: seq<T>, i: nat, k: nat)
    requires i <= k < |s|
    ensures s[i..k + 1] == s[i..k] + [s[k]]
  {
  }

  /** A common block loses its last pair. */
  lemma DropLast<T>(p: Inputs<T>, w: Window, m: Match)
    requires Common(p, w, m) && m.size > 0
    ensures Common(p, w, Match(m.aStart, m.bStart, m.size - 1))
    ensures p.a[m.aStart + m.size - 1] == p.b[m.bStart + m.size - 1]
  {
    SliceRight(p.a, m.aStart, m.aStart + m.size - 1);
    SliceRight(p.b, m.bStart, m.bStart + m.size - 1);
    var x, y := p.a[m.aStart..m.aStart + m.size], p.b[m.bStart..m.bStart + m.size];
    assert x[..m.size - 1] == p.a[m.aStart..m.aStart + m.size - 1] && x[m.size - 1] == p.a[m.aStart + m.size - 1];
    assert y[..m.size - 1] == p.b[m.bStart..m.bStart + m.size - 1] && y[m.size - 1] == p.b[m.bStart + m.size - 1];
  }

  lemma CommonBounds<T>(p: Inputs<T>, w: Window, m: Match)
    requires Common(p, w, m)
    ensures Within(p, w)
    ensures w.alo <= m.aStart && m.aStart + m.size <= w.ahi && w.blo <= m.bStart && m.bStart + m.size <= w.bhi
  {
  }

  function GrowLeft<T(==)>(p: Inputs<T>, w: Window, m: Match): (r: Match)
    requires Common(p, w, m)
    ensures Common(p, w, r)
    decreases m.aStart
  {
    if m.aStart > w.alo && m.bStart > w.blo && p.a[m.aStart - 1] == p.b[m.bStart - 1] then
      LeftIsCommon(p, w, m);
      GrowLeft(p, w, Match(m.aStart - 1, m.bStart - 1, m.size + 1))
    else m
  }

  function GrowRight<T(==)>(p: Inputs<T>, w: Window, m: Match): (r: Match)
    requires Common(p, w, m)
    ensures Common(p, w, r) && r.aStart == m.aStart && r.bStart == m.bStart && r.size >= m.size
    decreases w.ahi - m.size
  {
    if m.aStart + m.size < w.ahi && m.bStart + m.size < w.bhi && p.a[m.aStart + m.size] == p.b[m.bStart + m.size] then
      RightIsCommon(p, w, m);
      GrowRight(p, w, Match(m.aStart, m.bStart, m.size + 1))
    else m
  }

  lemma EmptyCommon<T>(p: Inputs<T>, w: Window, i: nat, j: nat)
    requires Within(p, w) && w.alo <= i <= w.ahi && w.blo <= j <= w.bhi
    ensures Common(p, w, Match(i, j, 0))
  {
  }

  lemma {:induction false} RunIsCommon<T>(p: Inputs<T>, w: Window, i: nat, j: nat)
    requires Within(p, w) && i <= w.ahi && j <= w.bhi && w.alo <= i && w.blo <= j
    ensures var k := Run(p, w, i, j); Common(p, w, Match(i - k, j - k, k))
    decreases i
  {
    hide Common, Popular;
    var k := Run(p, w, i, j);
    if k > 0 {
      RunIsCommon(p, w, i - 1, j - 1);
      RightIsCommon(p, w, Match(i - k, j - k, k - 1));
    } else {
      EmptyCommon(p, w, i, j);
    }
  }

  predicate LexLe(i: int, j: int, i': int, j': int) {
    i < i' || (i == i' && j <= j')
  }

  /** Of the end points scanned up to (i, j), row by row, `best` is the first longest. */
  ghost predicate Leads<T>(p: Inputs<T>, w: Window, best: Match, i: nat, j: nat)
    requires Within(p, w)
  {
    && Common(p, w, best)
    && (best.size == 0 ==> best == Match(w.alo, w.blo, 0))
    && (best.size > 0 ==> LexLe(best.aStart + best.size, best.bStart + best.size, i, j))
    && forall i': nat, j': nat :: i' <= w.ahi && j' <= w.bhi && LexLe(i', j', i, j) ==> Beaten(p, w, best, i', j')
  }

  ghost predicate Beaten<T>(p: Inputs<T>, w: Window, best: Match, i: nat, j: nat)
    requires Within(p, w) && i <= w.ahi && j <= w.bhi
  {
    && Run(p, w, i, j) <= best.size
    && (Run(p, w, i, j) == best.size > 0 ==> LexLe(best.aStart + best.size, best.bStart + best.size, i, j))
  }

  lemma NewRowLeads<T>(p: Inputs<T>, w: Window, i: nat, best: Match)
    requires Within(p, w) && w.alo <= i < w.ahi && Leads(p, w, best, i, w.bhi)
    ensures Leads(p, w, best, i + 1, w.blo)
  {
    hide Common, Popular;
    forall i': nat, j': nat | i' <= w.ahi && j' <= w.bhi && LexLe(i', j', i + 1, w.blo)
        ensures Beaten(p, w, best, i', j') {
      if i' == i + 1 {
        assert Run(p, w, i', j') == 0;
      } else {
        assert LexLe(i', j', i, w.bhi);
      }
    }
  }

  lemma NextBeaten<T>(p: Inputs<T>, w: Window, i: nat, j: nat, best: Match, i': nat, j': nat)
    requires Within(p, w) && i <= w.ahi && j <= w.bhi && i' <= w.ahi && j' <= w.bhi && LexLe(i', j', i, j)
    requires Beaten(p, w, best, i', j') || (i' == i && j' == j)
    requires best.size > 0 ==> LexLe(best.aStart + best.size, best.bStart + best.size, i, j)
    ensures Beaten(p, w, Better(best, i, j, Run(p, w, i, j)), i', j')
  {
    hide Run;
  }

  lemma NextLeads<T>(p: Inputs<T>, w: Window, i: nat, j: nat, best: Match)
    requires Within(p, w) && w.alo <= i <= w.ahi && w.blo < j <= w.bhi && Leads(p, w, best, i, j - 1)
    ensures Leads(p, w, Better(best, i, j, Run(p, w, i, j)), i, j)
  {
    hide Common, Run, Beaten;
    RunIsCommon(p, w, i, j);
    var after := Better(best, i, j, Run(p, w, i, j));
    forall i': nat, j': nat | i' <= w.ahi && j' <= w.bhi && LexLe(i', j', i, j) ensures Beaten(p, w, after, i', j') {
      NextBeaten(p, w, i, j, best, i', j');
    }
  }

  lemma {:induction false} RowLeads<T>(p: Inputs<T>, w: Window, i: nat, j: nat, best: Match)
    requires Within(p, w) && w.alo <= i < w.ahi && w.blo <= j <= w.bhi && Leads(p, w, best, i, w.bhi)
    ensures Leads(p, w, Row(p, w, i, j, best), i + 1, j)
    decreases j
  {
    hide Leads;
    if j == w.blo {
      NewRowLeads(p, w, i, best);
    } else {
      RowLeads(p, w, i, j - 1, best);
      NextLeads(p, w, i + 1, j, Row(p, w, i, j - 1, best));
    }
  }

  lemma StartLeads<T>(p: Inputs<T>, w: Window)
    requires Within(p, w)
    ensures Leads(p, w, Match(w.alo, w.blo, 0), w.alo, w.bhi)
  {
    EmptyCommon(p, w, w.alo, w.blo);
    hide Common, Popular;
  }

  lemma {:induction false} RowsLead<T>(p: Inputs<T>, w: Window, i: nat)
    requires Within(p, w) && w.alo <= i <= w.ahi
    ensures Leads(p, w, Rows(p, w, i), i, w.bhi)
    decreases i
  {
    hide Leads, Row;
    if i == w.alo {
      StartLeads(p, w);
    } else {
      RowsLead(p, w, i - 1);
      RowLeads(p, w, i - 1, w.bhi, Rows(p, w, i - 1));
    }
  }

  /** The longest match: the first longest unpopular run, grown at both ends. */
  function Longest<T(==)>(p: Inputs<T>, w: Window): (m: Match)
    requires Within(p, w)
    ensures Common(p, w, m)
  {
    RowsLead(p, w, w.ahi);
    GrowRight(p, w, GrowLeft(p, w, Rows(p, w, w.ahi)))
  }

  lemma {:induction false} GrowLeftStops<T>(p: Inputs<T>, w: Window, m: Match)
    requires Common(p, w, m)
    ensures
      var r := GrowLeft(p, w, m); !(r.aStart > w.alo && r.bStart > w.blo && p.a[r.aStart - 1] == p.b[r.bStart - 1])
    ensures var r := GrowLeft(p, w, m); r.size >= m.size
    decreases m.aStart
  {
    hide Common;
    CommonBounds(p, w, m);
    if m.aStart > w.alo && m.bStart > w.blo && p.a[m.aStart - 1] == p.b[m.bStart - 1] {
      LeftIsCommon(p, w, m);
      GrowLeftStops(p, w, Match(m.aStart - 1, m.bStart - 1, m.size + 1));
    }
  }

  lemma {:induction false} GrowRightStops<T>(p: Inputs<T>, w: Window, m: Match)
    requires Common(p, w, m)
    ensures var r := GrowRight(p, w, m);
      !(r.aStart + r.size < w.ahi && r.bStart + r.size < w.bhi && p.a[r.aStart + r.size] == p.b[r.bStart + r.size])
    decreases w.ahi - m.size
  {
    hide Common;
    CommonBounds(p, w, m);
    if m.aStart + m.size < w.ahi && m.bStart + m.size < w.bhi && p.a[m.aStart + m.size] == p.b[m.bStart + m.size] {
      RightIsCommon(p, w, m);
      GrowRightStops(p, w, Match(m.aStart, m.bStart, m.size + 1));
    }
  }

  /** The longest match is genuine and cannot be extended inside the window, popular
      elements or not. */
  lemma LongestIsMaximal<T>(p: Inputs<T>, w: Window)
    requires Within(p, w)
    ensures var m := Longest(p, w);
      && Common(p, w, m)
      && !(m.aStart > w.alo && m.bStart > w.blo && p.a[m.aStart - 1] == p.b[m.bStart - 1])
      && !(m.aStart + m.size < w.ahi && m.bStart + m.size < w.bhi && p.a[m.aStart + m.size] == p.b[m.bStart + m.size])
  {
    RowsLead(p, w, w.ahi);
    var m := Rows(p, w, w.ahi);
    GrowLeftStops(p, w, m);
    hide Common, Rows, Leads, GrowLeft, GrowRight;
    GrowRightStops(p, w, GrowLeft(p, w, m));
  }

  /** A common block of unpopular elements is part of the run that ends where it ends. */
  lemma {:induction false} CommonIsRun<T(!new)>(p: Inputs<T>, w: Window, m: Match)
    requires NonePopular(p) && Common(p, w, m)
    ensures Run(p, w, m.aStart + m.size, m.bStart + m.size) >= m.size
    decreases m.size
  {
    if m.size > 0 {
      DropLast(p, w, m);
      CommonIsRun(p, w, Match(m.aStart, m.bStart, m.size - 1));
    }
  }

  lemma RowsBeatAll<T(!new)>(p: Inputs<T>, w: Window, m: Match)
    requires NonePopular(p) && Common(p, w, m)
    ensures var best := Rows(p, w, w.ahi);
      && m.size <= best.size
      && (m.size == best.size ==> LexLe(best.aStart, best.bStart, m.aStart, m.bStart))
  {
    var best := Rows(p, w, w.ahi);
    RowsLead(p, w, w.ahi);
    CommonIsRun(p, w, m);
    hide Run, Rows, NonePopular;
    assert Beaten(p, w, best, m.aStart + m.size, m.bStart + m.size);
  }

  /** With no popular element, growing finds nothing more. */
  lemma NothingToGrow<T(!new)>(p: Inputs<T>, w: Window)
    requires NonePopular(p) && Within(p, w)
    ensures Longest(p, w) == Rows(p, w, w.ahi)
  {
    RowsLead(p, w, w.ahi);
    var best := Rows(p, w, w.ahi);
    NoLeft(p, w, best);
    NoRight(p, w, best);
    hide Rows, NonePopular, Leads;
  }

  lemma NoLeft<T(!new)>(p: Inputs<T>, w: Window, best: Match)
    requires NonePopular(p) && Common(p, w, best) && best == Rows(p, w, w.ahi)
    ensures GrowLeft(p, w, best) == best
  {
    hide Rows, NonePopular, Common;
    CommonBounds(p, w, best);
    if best.aStart > w.alo && best.bStart > w.blo && p.a[best.aStart - 1] == p.b[best.bStart - 1] {
      LeftIsCommon(p, w, best);
      RowsBeatAll(p, w, Match(best.aStart - 1, best.bStart - 1, best.size + 1));
    }
  }

  lemma NoRight<T(!new)>(p: Inputs<T>, w: Window, best: Match)
    requires NonePopular(p) && Common(p, w, best) && best == Rows(p, w, w.ahi)
    ensures GrowRight(p, w, best) == best
  {
    hide Rows, NonePopular, Common;
    CommonBounds(p, w, best);
    if best.aStart + best.size < w.ahi && best.bStart + best.size < w.bhi
       && p.a[best.aStart + best.size] == p.b[best.bStart + best.size] {
      RightIsCommon(p, w, best);
      RowsBeatAll(p, w, Match(best.aStart, best.bStart, best.size + 1));
    }
  }

  /** With no popular element, no common block of the window is longer, and of the longest
      ones it starts first in `a`, then first in `b`. */
  lemma LongestIsOptimal<T(!new)>(p: Inputs<T>, w: Window, m: Match)
    requires NonePopular(p) && Common(p, w, m)
    ensures var best := Longest(p, w);
      && m.size <= best.size
      && (m.size == best.size ==> LexLe(best.aStart, best.bStart, m.aStart, m.bStart))
  {
    NothingToGrow(p, w);
    RowsBeatAll(p, w, m);
  }
}
