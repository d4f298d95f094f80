/** The greedy shortest-edit-script diff: it always converges, its transcript spells both
    inputs, and no transcript that does so has fewer edits. */
module Myers {
  import opened Seqs
  import opened EditScript

  // ----- furthest reaching points -----

  /** Follows the snake of equal pairs from (x, x - k); returns where it ends. */
  function Slide<T(==)>(a: seq<T>, b: seq<T>, x: int, k: int): (r: int)
    ensures x <= r
    decreases |a| - x
  {
    if 0 <= x < |a| && 0 <= x - k < |b| && a[x] == b[x - k] then Slide(a, b, x + 1, k) else x
  }

  predicate OnLevel(d: int, k: int) {
    -d <= k <= d && (d - k) % 2 == 0
  }

  /** Whether diagonal `k` is entered from above (an insert) rather than from the left. */
  predicate FromAbove(d: nat, k: int, left: int, right: int) {
    k + d == 0 || (k != d && left < right)
  }

  /** Where the snake on diagonal `k` starts after `d` edits. */
  function Start<T(==)>(a: seq<T>, b: seq<T>, d: nat, k: int): int
    decreases d, 0
  {
    if d == 0 then 0
    else
      var left, right := Far(a, b, d - 1, k - 1), Far(a, b, d - 1, k + 1);
      if FromAbove(d, k, left, right) then right else left + 1
  }

  /** The furthest x on diagonal `k` that the search reaches with `d` edits; it may lie
      beyond either end of the grid. Diagonals the level does not visit have -1. */
  function Far<T(==)>(a: seq<T>, b: seq<T>, d: nat, k: int): (x: int)
    ensures OnLevel(d, k) ==> 0 <= x && 0 <= x - k
    ensures !OnLevel(d, k) ==> x == -1
    decreases d, 1
  {
    if OnLevel(d, k) then Slide(a, b, Start(a, b, d, k), k) else -1
  }

  lemma StartOnGrid<T>(a: seq<T>, b: seq<T>, d: nat, k: int)
    requires OnLevel(d, k)
    ensures 0 <= Start(a, b, d, k) && 0 <= Start(a, b, d, k) - k
    ensures Far(a, b, d, k) == Slide(a, b, Start(a, b, d, k), k)
  {
  }

  lemma {:induction false} SlideStops<T>(a: seq<T>, b: seq<T>, x: int, k: int)
    ensures var r := Slide(a, b, x, k);
      && !(0 <= r < |a| && 0 <= r - k < |b| && a[r] == b[r - k])
      && (r > x ==> 0 <= x && r <= |a| && 0 <= x - k && r - k <= |b|)
      && forall i :: x <= i < r ==> 0 <= i < |a| && 0 <= i - k < |b| && a[i] == b[i - k]
    decreases |a| - x
  {
    if 0 <= x < |a| && 0 <= x - k < |b| && a[x] == b[x - k] {
      SlideStops(a, b, x + 1, k);
    }
  }

  /** One more edit reaches at least one step beyond either neighbouring diagonal. */
  lemma FarSteps<T>(a: seq<T>, b: seq<T>, d: nat, k: int)
    requires d > 0 && OnLevel(d, k)
    ensures Far(a, b, d, k) >= Far(a, b, d - 1, k - 1) + 1
    ensures Far(a, b, d, k) >= Far(a, b, d - 1, k + 1)
  {
    StartOnGrid(a, b, d, k);
    hide Far;
  }

  lemma FarStops<T>(a: seq<T>, b: seq<T>, d: nat, k: int)
    requires OnLevel(d, k)
    ensures var r := Far(a, b, d, k); !(r < |a| && r - k < |b| && a[r] == b[r - k])
  {
    StartOnGrid(a, b, d, k);
    SlideStops(a, b, Start(a, b, d, k), k);
    hide Start, Slide, Far;
  }

  /** Taking the last operation off a transcript of two prefixes. */
  lemma TakeLast<T>(a: seq<T>, b: seq<T>, ops: seq<Op<T>>, x: nat, y: nat) returns (front: seq<Op<T>>, op: Op<T>)
    requires x <= |a| && y <= |b| && Spells(ops, a[..x], b[..y]) && ops != []
    ensures ops == front + [op]
    ensures Edits(ops) == Edits(front) + if op.Keep? then 0 else 1
    ensures var x', y' := if op.Insert? then x else x - 1, if op.Delete? then y else y - 1;
      && 0 <= x' && 0 <= y' && Spells(front, a[..x'], b[..y'])
      && (op.Keep? ==> a[x'] == b[y'])
  {
    front, op := ops[..|ops| - 1], ops[|ops| - 1];
    assert ops == front + [op];
    ScriptAppend(front, [op]);
    ScriptOne(op);
    hide Old, New, Edits;
    if !op.Insert? { CutLast(Old(front), op.value, a, x); }
    if !op.Delete? { CutLast(New(front), op.value, b, y); }
  }

  lemma CutLast<T>(front: seq<T>, last: T, s: seq<T>, n: nat)
    requires n <= |s| && front + [last] == s[..n]
    ensures n > 0 && front == s[..n - 1] && last == s[n - 1]
  {
    assert |front| == n - 1;
    assert front == (front + [last])[..n - 1];
    assert (front + [last])[n - 1] == last;
  }

  lemma NothingReached<T>(a: seq<T>, b: seq<T>, x: nat, y: nat)
    requires x <= |a| && y <= |b| && Spells<T>([], a[..x], b[..y])
    ensures OnLevel(Edits<T>([]), x - y) && x <= Far(a, b, Edits<T>([]), x - y)
  {
  }

  /** No transcript gets further along a diagonal than the search with as many edits. */
  lemma {:induction false} NoneReachesFurther<T>(a: seq<T>, b: seq<T>, ops: seq<Op<T>>, x: nat, y: nat)
    requires x <= |a| && y <= |b| && Spells(ops, a[..x], b[..y])
    ensures OnLevel(Edits(ops), x - y) && x <= Far(a, b, Edits(ops), x - y)
    decreases |ops|
  {
    hide Far, Spells, Edits;
    if ops == [] {
      NothingReached(a, b, x, y);
    } else {
      var front, op := TakeLast(a, b, ops, x, y);
      var x', y' := if op.Insert? then x else x - 1, if op.Delete? then y else y - 1;
      NoneReachesFurther(a, b, front, x', y');
      if op.Keep? {
        FarStops(a, b, Edits(ops), x - y);
      } else {
        FarSteps(a, b, Edits(ops), x - y);
      }
    }
  }

  function Min(x: int, y: int): int { if x <= y then x else y }

  /** How far a point lies outside the grid. */
  function Excess<T>(a: seq<T>, b: seq<T>, x: int, k: int): int {
    (x - Min(x, |a|)) + (x - k - Min(x - k, |b|))
  }

  /** A transcript reaching the clipped point (x, x - k) with at most `c` edits. */
  ghost predicate Reaches<T>(a: seq<T>, b: seq<T>, x: int, k: int, c: int, ops: seq<Op<T>>) {
    0 <= x && 0 <= x - k && Spells(ops, a[..Min(x, |a|)], b[..Min(x - k, |b|)]) && Edits(ops) <= c
  }

  lemma SnakeIsCommon<T>(a: seq<T>, b: seq<T>, x: int, r: int, k: int)
    requires 0 <= x <= r <= |a| && 0 <= x - k && r - k <= |b| && forall i :: x <= i < r ==> a[i] == b[i - k]
    ensures a[x..r] == b[x - k..r - k] && a[..x] + a[x..r] == a[..r] && b[..x - k] + b[x - k..r - k] == b[..r - k]
  {
    forall t | 0 <= t < r - x ensures a[x..r][t] == b[x - k..r - k][t] { assert a[x + t] == b[x + t - k]; }
  }

  lemma SlideScript<T>(a: seq<T>, b: seq<T>, x: int, k: int, c: int, ops: seq<Op<T>>) returns (ops': seq<Op<T>>)
    requires Reaches(a, b, x, k, c - Excess(a, b, x, k), ops)
    ensures Reaches(a, b, Slide(a, b, x, k), k, c - Excess(a, b, Slide(a, b, x, k), k), ops')
  {
    hide Slide, Old, New, Edits;
    var r := Slide(a, b, x, k);
    SlideStops(a, b, x, k);
    ops' := ops;
    if r > x {
      var snake := a[x..r];
      SnakeIsCommon(a, b, x, r, k);
      KeepAllSpells(snake);
      ScriptAppend(ops, KeepAll(snake));
      ops' := ops + KeepAll(snake);
    }
  }

  lemma TakeMore<T>(s: seq<T>, i: nat)
    requires i < |s|
    ensures s[..i + 1] == s[..i] + [s[i]]
  {
  }

  lemma DropLess<T>(s: seq<T>, i: nat)
    requires 0 < i <= |s|
    ensures s[i - 1..] == [s[i - 1]] + s[i..]
  {
  }

  lemma InsertScript<T>(a: seq<T>, b: seq<T>, x: int, k: int, c: int, ops: seq<Op<T>>) returns (ops': seq<Op<T>>)
    requires Reaches(a, b, x, k, c - Excess(a, b, x, k), ops)
    ensures Reaches(a, b, x, k - 1, c + 1 - Excess(a, b, x, k - 1), ops')
  {
    hide Old, New, Edits;
    ops' := ops;
    var y := x - k;
    if y < |b| {
      ops' := ops + [Insert(b[y])];
      ScriptAppend(ops, [Insert(b[y])]);
      ScriptOne(Insert(b[y]));
      TakeMore(b, y);
    }
  }

  lemma DeleteScript<T>(a: seq<T>, b: seq<T>, x: int, k: int, c: int, ops: seq<Op<T>>) returns (ops': seq<Op<T>>)
    requires Reaches(a, b, x, k, c - Excess(a, b, x, k), ops)
    ensures Reaches(a, b, x + 1, k + 1, c + 1 - Excess(a, b, x + 1, k + 1), ops')
  {
    hide Old, New, Edits;
    ops' := ops;
    if x < |a| {
      ops' := ops + [Delete(a[x])];
      ScriptAppend(ops, [Delete(a[x])]);
      ScriptOne(Delete(a[x]));
      TakeMore(a, x);
    }
  }

  /** Every point of the search, clipped to the grid, is reached by a real transcript, which
      saves one edit for each step the point lies outside. */
  lemma {:induction false} FarIsReached<T>(a: seq<T>, b: seq<T>, d: nat, k: int) returns (ops: seq<Op<T>>)
    requires OnLevel(d, k)
    ensures Reaches(a, b, Far(a, b, d, k), k, d - Excess(a, b, Far(a, b, d, k), k), ops)
    decreases d
  {
    hide Reaches, Slide, Far, Excess;
    StartOnGrid(a, b, d, k);
    if d == 0 {
      StartReached(a, b);
      ops := SlideScript(a, b, 0, 0, 0, []);
    } else {
      var left, right := Far(a, b, d - 1, k - 1), Far(a, b, d - 1, k + 1);
      if FromAbove(d, k, left, right) {
        ops := FarIsReached(a, b, d - 1, k + 1);
        ops := InsertScript(a, b, right, k + 1, d - 1, ops);
        ops := SlideScript(a, b, right, k, d, ops);
      } else {
        ops := FarIsReached(a, b, d - 1, k - 1);
        ops := DeleteScript(a, b, left, k - 1, d - 1, ops);
        ops := SlideScript(a, b, left + 1, k, d, ops);
      }
    }
  }

  lemma StartReached<T>(a: seq<T>, b: seq<T>)
    ensures Reaches<T>(a, b, 0, 0, 0 - Excess(a, b, 0, 0), [])
  {
  }

  /** The point covers both inputs: the search stops here. */
  predicate Done<T(==)>(a: seq<T>, b: seq<T>, d: nat, k: int) {
    OnLevel(d, k) && Far(a, b, d, k) >= |a| && Far(a, b, d, k) - k >= |b|
  }

  /** No level before `d` had a point that covers both inputs. */
  ghost predicate NotBefore<T>(a: seq<T>, b: seq<T>, d: nat) {
    forall d': nat, k :: d' < d ==> !Done(a, b, d', k)
  }

  lemma ScriptIsDone<T>(a: seq<T>, b: seq<T>, ops: seq<Op<T>>)
    requires Spells(ops, a, b)
    ensures Done(a, b, Edits(ops), |a| - |b|)
  {
    assert a[..|a|] == a && b[..|b|] == b;
    hide Spells, Far, Edits;
    NoneReachesFurther(a, b, ops, |a|, |b|);
  }

  /** A transcript with fewer than `d` edits would have ended the search earlier. */
  lemma NoneCheaper<T>(a: seq<T>, b: seq<T>, d: nat, ops: seq<Op<T>>)
    requires NotBefore(a, b, d) && Spells(ops, a, b)
    ensures Edits(ops) >= d
  {
    ScriptIsDone(a, b, ops);
    hide Done, Spells, Edits;
  }

  lemma CornerFacts<T>(a: seq<T>, b: seq<T>, x: int, k: int)
    requires x >= |a| && x - k >= |b|
    ensures Min(x, |a|) == |a| && Min(x - k, |b|) == |b|
    ensures 0 <= Excess(a, b, x, k) && (Excess(a, b, x, k) == 0 <==> x == |a| && x - k == |b|)
  {
  }

  /** The first point covering both inputs is exactly the corner, never beyond it. */
  lemma FirstDoneIsCorner<T>(a: seq<T>, b: seq<T>, d: nat, k: int)
    requires Done(a, b, d, k) && NotBefore(a, b, d)
    ensures k == |a| - |b| && Far(a, b, d, k) == |a|
  {
    var ops := FarIsReached(a, b, d, k);
    assert a[..|a|] == a && b[..|b|] == b;
    CornerFacts(a, b, Far(a, b, d, k), k);
    hide Far, Edits, Old, New, NotBefore, Excess;
    NoneCheaper(a, b, d, ops);
  }

  /** The search is done at the latest when everything is deleted and inserted. */
  lemma Converges<T>(a: seq<T>, b: seq<T>)
    ensures !NotBefore(a, b, |a| + |b| + 1)
  {
    var ops := Deletes(a) + Inserts(b);
    DeletesSpell(a);
    InsertsSpell(b);
    ScriptAppend(Deletes(a), Inserts(b));
    if NotBefore(a, b, |a| + |b| + 1) {
      NoneCheaper(a, b, |a| + |b| + 1, ops);
    }
  }

  // ----- the search -----

  /** The row holds the furthest points of the previous level, diagonal k at k + offset. */
  ghost predicate Row<T>(a: seq<T>, b: seq<T>, v: seq<int>, offset: nat, d: nat) {
    && |v| == 2 * offset + 1
    && (d == 0 ==> forall i :: 0 <= i < |v| ==> v[i] == 0)
    && (d > 0 ==> forall i :: 0 <= i < |v| && OnLevel(d - 1, i - offset) ==> v[i] == Far(a, b, d - 1, i - offset))
  }

  ghost predicate Traced<T>(a: seq<T>, b: seq<T>, trace: seq<seq<int>>, offset: nat) {
    forall d: nat :: d < |trace| ==> Row(a, b, trace[d], offset, d)
  }

  /** A shortest transcript from `a` to `b`. */
  ghost predicate Shortest<T(!new)>(ops: seq<Op<T>>, a: seq<T>, b: seq<T>) {
    Spells(ops, a, b) && forall other :: Spells(other, a, b) ==> Edits(ops) <= Edits(other)
  }

  lemma OneSided<T(!new)>(a: seq<T>, b: seq<T>)
    requires a == [] || b == []
    ensures Shortest(if a == [] then Inserts(b) else Deletes(a), a, b)
  {
    var ops := if a == [] then Inserts(b) else Deletes(a);
    DeletesSpell(a);
    InsertsSpell(b);
    forall other | Spells(other, a, b) ensures Edits(ops) <= Edits(other) {
      ScriptCounts(other);
      KeepsBounded(other);
    }
  }

  lemma {:induction false} KeepsBounded<T>(ops: seq<Op<T>>)
    ensures Keeps(ops) <= |Old(ops)| && Keeps(ops) <= |New(ops)|
  {
    if ops != [] {
      KeepsBounded(ops[1..]);
    }
  }

  method MapDeletes<T>(a: seq<T>) returns (ops: seq<Op<T>>)
    ensures ops == Deletes(a)
  {
    ops := [];
    for i := 0 to |a|
      invariant ops + Deletes(a[i..]) == Deletes(a)
    {
      assert a[i..][0] == a[i] && a[i..][1..] == a[i + 1..];
      ops := ops + [Delete(a[i])];
    }
  }

  method MapInserts<T>(b: seq<T>) returns (ops: seq<Op<T>>)
    ensures ops == Inserts(b)
  {
    ops := [];
    for i := 0 to |b|
      invariant ops + Inserts(b[i..]) == Inserts(b)
    {
      assert b[i..][0] == b[i] && b[i..][1..] == b[i + 1..];
      ops := ops + [Insert(b[i])];
    }
  }

  /** The greedy search. Falling out of the outer loop is impossible. */
  method MyersDiff<T(==, !new)>(a: seq<T>, b: seq<T>) returns (ops: seq<Op<T>>)
    ensures Shortest(ops, a, b)
  {
    var n, m := |a|, |b|;
    if n == 0 {
      ops := MapInserts(b);
      OneSided(a, b);
      return;
    }
    if m == 0 {
      ops := MapDeletes(a);
      OneSided(a, b);
      return;
    }
    var offset := n + m;
    var v := new int[2 * offset + 1](i => 0);
    var trace: seq<seq<int>> := [];
    for d := 0 to n + m + 1
      invariant |trace| == d && Traced(a, b, trace, offset)
      invariant Row(a, b, v[..], offset, d) && v.Length == 2 * offset + 1
      invariant NotBefore(a, b, d)
    {
      trace := trace + [v[..]];
      var found := SearchLevel(a, b, v, d, offset);
      if found {
        ops := Backtrack(a, b, trace, offset, d);
        forall other | Spells(other, a, b) ensures Edits(ops) <= Edits(other) { NoneCheaper(a, b, d, other); }
        return;
      }
    }
    Converges(a, b);
    assert false;
  }

  /** One level: every diagonal of the level's parity in turn, until the corner is reached. */
  method SearchLevel<T(==)>(a: seq<T>, b: seq<T>, v: array<int>, d: nat, offset: nat) returns (found: bool)
    requires v.Length == 2 * offset + 1 && Row(a, b, v[..], offset, d) && NotBefore(a, b, d)
    requires d <= offset == |a| + |b| && offset >= 2
    modifies v
    ensures found ==> OnLevel(d, |a| - |b|) && Far(a, b, d, |a| - |b|) == |a|
    ensures !found ==> NotBefore(a, b, d + 1) && Row(a, b, v[..], offset, d + 1)
  {
    hide Far, Row, Slide, NotBefore, Done, Start, Later, Settled;
    ghost var row := v[..];
    var k: int := 0 - d;
    LevelStart(a, b, row, offset, d);
    while k <= d
      invariant 0 - d <= k <= d + 2 && (d - k) % 2 == 0
      invariant Later(row, v[..], offset, d, k)
      invariant Settled(a, b, v[..], offset, d, k)
      decreases d - k
    {
      var idx := k + offset;
      Untouched(row, v[..], offset, d, k);
      var x := if k + d == 0 || (k != d && v[idx - 1] < v[idx + 1]) then v[idx + 1] else v[idx - 1] + 1;
      StartIsFar(a, b, row, offset, d, k);
      StartOnGrid(a, b, d, k);
      x := FollowSnake(a, b, x, k);
      DoneHere(a, b, d, k);
      if x >= |a| && x - k >= |b| {
        v[idx] := x;
        FirstDoneIsCorner(a, b, d, k);
        return true;
      }
      LevelNext(a, b, row, v[..], offset, d, k);
      v[idx] := x;
      k := k + 2;
    }
    LevelDone(a, b, v[..], offset, d);
    found := false;
  }

  lemma LevelStart<T>(a: seq<T>, b: seq<T>, row: seq<int>, offset: nat, d: nat)
    requires |row| == 2 * offset + 1
    ensures Later(row, row, offset, d, 0 - d) && Settled(a, b, row, offset, d, 0 - d)
  {
  }

  lemma LevelNext<T>(a: seq<T>, b: seq<T>, row: seq<int>, v: seq<int>, offset: nat, d: nat, k: int)
    requires OnLevel(d, k) && d <= offset && Later(row, v, offset, d, k) && Settled(a, b, v, offset, d, k)
        && !Done(a, b, d, k)
    ensures var v' := v[k + offset := Far(a, b, d, k)];
      Later(row, v', offset, d, k + 2) && Settled(a, b, v', offset, d, k + 2)
  {
    hide Far, Done;
  }

  /** Diagonals not yet visited on this level still hold the previous level. */
  ghost predicate Later(row: seq<int>, v: seq<int>, offset: nat, d: nat, k: int) {
    |v| == |row| == 2 * offset + 1
    && forall i :: 0 <= i < |v| && !(OnLevel(d, i - offset) && i - offset < k) ==> v[i] == row[i]
  }

  /** Diagonals visited on this level hold its furthest points, none of which is the corner. */
  ghost predicate Settled<T>(a: seq<T>, b: seq<T>, v: seq<int>, offset: nat, d: nat, k: int) {
    |v| == 2 * offset + 1
    && forall i :: 0 <= i < |v| && OnLevel(d, i - offset) && i - offset < k ==>
         v[i] == Far(a, b, d, i - offset) && !Done(a, b, d, i - offset)
  }

  lemma Untouched(row: seq<int>, v: seq<int>, offset: nat, d: nat, k: int)
    requires Later(row, v, offset, d, k) && OnLevel(d, k) && d <= offset && offset >= 2
    ensures 0 <= k + offset < |v|
    ensures d > 0 && k + d > 0 ==> v[k + offset - 1] == row[k + offset - 1]
    ensures k < d || d == 0 ==> k + offset + 1 < |v| && v[k + offset + 1] == row[k + offset + 1]
  {
  }

  lemma DoneHere<T>(a: seq<T>, b: seq<T>, d: nat, k: int)
    requires OnLevel(d, k)
    ensures Done(a, b, d, k) <==> Far(a, b, d, k) >= |a| && Far(a, b, d, k) - k >= |b|
  {
  }

  method FollowSnake<T(==)>(a: seq<T>, b: seq<T>, start: int, k: int) returns (x: int)
    requires 0 <= start && 0 <= start - k
    ensures x == Slide(a, b, start, k)
  {
    x := start;
    var y := start - k;
    while x < |a| && y < |b| && a[x] == b[y]
      invariant y == x - k && 0 <= x && 0 <= y
      invariant Slide(a, b, x, k) == Slide(a, b, start, k)
      decreases |a| - x
    {
      x := x + 1;
      y := y + 1;
    }
  }

  /** The predecessor that both searches pick from a row. */
  lemma StartIsFar<T>(a: seq<T>, b: seq<T>, v: seq<int>, offset: nat, d: nat, k: int)
    requires Row(a, b, v, offset, d) && OnLevel(d, k) && d <= offset && offset >= 2
    ensures var idx := k + offset;
      && (if k + d == 0 || (k != d && v[idx - 1] < v[idx + 1]) then v[idx + 1] else v[idx - 1] + 1) == Start(a, b, d, k)
  {
    hide Far;
    if d > 0 {
      assert k + d > 0 ==> OnLevel(d - 1, (k + offset - 1) - offset);
      assert k < d ==> OnLevel(d - 1, (k + offset + 1) - offset);
      if k + d > 0 { assert v[k + offset - 1] == Far(a, b, d - 1, k - 1); }
      if k < d { assert v[k + offset + 1] == Far(a, b, d - 1, k + 1); }
    }
  }

  lemma LevelDone<T>(a: seq<T>, b: seq<T>, v: seq<int>, offset: nat, d: nat)
    requires NotBefore(a, b, d) && d <= offset && Settled(a, b, v, offset, d, d + 2)
    ensures NotBefore(a, b, d + 1) && Row(a, b, v, offset, d + 1)
  {
    hide Far, Done;
    forall k ensures !Done(a, b, d, k) {
      if OnLevel(d, k) {
        assert v[k + offset] == Far(a, b, d, (k + offset) - offset);
      } else {
        OffLevel(a, b, d, k);
      }
    }
  }

  lemma OffLevel<T>(a: seq<T>, b: seq<T>, d: nat, k: int)
    requires !OnLevel(d, k)
    ensures !Done(a, b, d, k)
  {
  }

  /** What is left of both inputs, and the edits spent on it, read from its end. */
  ghost predicate Rest<T>(ops: seq<Op<T>>, a: seq<T>, b: seq<T>, x: int, y: int, edits: int) {
    0 <= x <= |a| && 0 <= y <= |b| && Spells(Reversed(ops), a[x..], b[y..]) && Edits(Reversed(ops)) == edits
  }

  lemma RestMore<T>(ops: seq<Op<T>>, a: seq<T>, b: seq<T>, x: int, y: int, edits: int, op: Op<T>)
    requires Rest(ops, a, b, x, y, edits)
    requires var x', y' := if op.Insert? then x else x - 1, if op.Delete? then y else y - 1;
      && 0 <= x' && 0 <= y' && (!op.Insert? ==> a[x'] == op.value) && (!op.Delete? ==> b[y'] == op.value)
    ensures Rest(ops + [op], a, b, if op.Insert? then x else x - 1, if op.Delete? then y else y - 1,
                 if op.Keep? then edits else edits + 1)
  {
    hide Old, New, Edits, Reversed;
    PushReversed(ops, op);
    if !op.Insert? { DropLess(a, x); }
    if !op.Delete? { DropLess(b, y); }
  }

  lemma NothingRest<T>(a: seq<T>, b: seq<T>)
    ensures Rest<T>([], a, b, |a|, |b|, 0)
  {
  }

  lemma AllRest<T>(ops: seq<Op<T>>, a: seq<T>, b: seq<T>, edits: int)
    requires Rest(ops, a, b, 0, 0, edits)
    ensures Spells(Reversed(ops), a, b) && Edits(Reversed(ops)) == edits
  {
    assert a[0..] == a && b[0..] == b;
  }

  lemma SnakeKeeps<T>(a: seq<T>, b: seq<T>, start: int, k: int, x: int)
    requires 0 <= start < x <= Slide(a, b, start, k)
    ensures 0 < x <= |a| && 0 < x - k <= |b| && a[x - 1] == b[x - 1 - k] && start - k >= 0
  {
    SlideStops(a, b, start, k);
    hide Slide;
    assert a[x - 1] == b[(x - 1) - k];
  }

  method KeepSnake<T(==)>(a: seq<T>, b: seq<T>, ops0: seq<Op<T>>, x0: int, y0: int, prevX: int, prevY: int,
      ghost start: int, ghost edits: nat)
      returns (ops: seq<Op<T>>, x: int, y: int)
    requires Rest(ops0, a, b, x0, y0, edits) && 0 <= start && 0 <= start - (x0 - y0)
        && x0 == Slide(a, b, start, x0 - y0)
    requires start == prevX || start - (x0 - y0) == prevY
    requires prevX <= start && prevY <= start - (x0 - y0)
    ensures x == start && x - y == x0 - y0 && Rest(ops, a, b, x, y, edits)
  {
    hide Slide, Rest;
    ops, x, y := ops0, x0, y0;
    ghost var k := x0 - y0;
    while x > prevX && y > prevY
      invariant x - y == k && start <= x <= Slide(a, b, start, k) && Rest(ops, a, b, x, y, edits)
      decreases x - start
    {
      SnakeKeeps(a, b, start, k, x);
      RestMore(ops, a, b, x, y, edits, Keep(a[x - 1]));
      ops := ops + [Keep(a[x - 1])];
      x := x - 1;
      y := y - 1;
    }
  }

  /** Walks the traces back from the corner; one edit per level. */
  method Backtrack<T(==)>(a: seq<T>, b: seq<T>, trace: seq<seq<int>>, offset: nat, endD: nat) returns (ops: seq<Op<T>>)
    requires |trace| == endD + 1 && Traced(a, b, trace, offset) && endD <= offset == |a| + |b| && offset >= 2
    requires OnLevel(endD, |a| - |b|) && Far(a, b, endD, |a| - |b|) == |a|
    ensures Spells(ops, a, b) && Edits(ops) == endD
  {
    hide Rest, Slide, Far, Spells, Start, Row, Traced, OnLevel, Reversed, Edits;
    ops := [];
    var x, y := |a|, |b|;
    NothingRest(a, b);
    var d := endD;
    while d >= 0
      invariant -1 <= d <= endD && 0 <= x <= |a| && 0 <= y <= |b|
      invariant d >= 0 ==> OnLevel(d, x - y) && x == Far(a, b, d, x - y)
      invariant d == -1 ==> x == y == 0
      invariant Rest(ops, a, b, x, y, endD - (if d >= 0 then d else 0))
      decreases d
    {
      var v := trace[d];
      var k := x - y;
      var idx := k + offset;
      TraceRow(a, b, trace, offset, d, k);
      StartOnGrid(a, b, d, k);
      PrevIsFar(a, b, v, offset, d, k);
      var prevK := if k + d == 0 || (k != d && v[idx - 1] < v[idx + 1]) then k + 1 else k - 1;
      var prevX := v[prevK + offset];
      var prevY := prevX - prevK;
      ops, x, y := KeepSnake(a, b, ops, x, y, prevX, prevY, Start(a, b, d, k), endD - d);
      if d > 0 {
        if x == prevX {
          RestMore(ops, a, b, x, y, endD - d, Insert(b[y - 1]));
          ops := ops + [Insert(b[y - 1])];
          y := y - 1;
        } else {
          RestMore(ops, a, b, x, y, endD - d, Delete(a[x - 1]));
          ops := ops + [Delete(a[x - 1])];
          x := x - 1;
        }
      }
      d := d - 1;
    }
    AllRest(ops, a, b, endD);
    ops := Reverse(ops);
  }

  lemma TraceRow<T>(a: seq<T>, b: seq<T>, trace: seq<seq<int>>, offset: nat, d: nat, k: int)
    requires Traced(a, b, trace, offset) && d < |trace| && OnLevel(d, k) && d <= offset
    ensures Row(a, b, trace[d], offset, d) && |trace[d]| == 2 * offset + 1
    ensures 0 <= k + offset <= 2 * offset
    ensures k + d != 0 && k != d ==> 1 <= k + offset < 2 * offset
  {
    assert Row(a, b, trace[d], offset, d);
  }

  /** Where the previous level left off, and how the snake's start follows from it. */
  lemma PrevIsFar<T>(a: seq<T>, b: seq<T>, v: seq<int>, offset: nat, d: nat, k: int)
    requires Row(a, b, v, offset, d) && OnLevel(d, k) && d <= offset && offset >= 2
    ensures var idx := k + offset;
      var prevK := if k + d == 0 || (k != d && v[idx - 1] < v[idx + 1]) then k + 1 else k - 1;
      && 0 <= prevK + offset < |v|
      && (d == 0 ==> v[prevK + offset] == 0 && prevK == 1 && Start(a, b, d, k) == 0)
      && (d > 0 ==>
            && OnLevel(d - 1, prevK) && v[prevK + offset] == Far(a, b, d - 1, prevK) >= 0
            && v[prevK + offset] - prevK >= 0)
      && (d > 0 && prevK == k + 1 ==> Start(a, b, d, k) == v[prevK + offset])
      && (d > 0 && prevK == k - 1 ==> Start(a, b, d, k) == v[prevK + offset] + 1)
  {
    StartIsFar(a, b, v, offset, d, k);
    hide Slide;
    if d > 0 {
      assert k + d > 0 ==> OnLevel(d - 1, (k + offset - 1) - offset);
      assert k < d ==> OnLevel(d - 1, (k + offset + 1) - offset);
    }
  }

  function Reversed<T>(s: seq<T>): (r: seq<T>) {
    if s == [] then [] else [s[|s| - 1]] + Reversed(s[..|s| - 1])
  }

  method Reverse<T>(s: seq<T>) returns (r: seq<T>)
    ensures r == Reversed(s)
  {
    r := [];
    assert s[..|s|] == s;
    for i := |s| downto 0
      invariant r + Reversed(s[..i]) == Reversed(s)
    {
      assert s[..i + 1][..i] == s[..i];
      r := r + [s[i]];
    }
  }

  lemma PushReversed<T>(ops: seq<Op<T>>, op: Op<T>)
    ensures Old(Reversed(ops + [op])) == Old([op]) + Old(Reversed(ops))
    ensures New(Reversed(ops + [op])) == New([op]) + New(Reversed(ops))
    ensures Edits(Reversed(ops + [op])) == Edits([op]) + Edits(Reversed(ops))
    ensures Old([op]) == (if op.Insert? then [] else [op.value])
    ensures New([op]) == (if op.Delete? then [] else [op.value])
    ensures Edits([op]) == (if op.Keep? then 0 else 1)
  {
    assert (ops + [op])[..|ops|] == ops;
    ScriptAppend([op], Reversed(ops));
    ScriptOne(op);
  }
}
