/** Straight-line tests over the terrain: collinearity of three positions
    with the program's truncating integer division, the error-term walk
    that lists the cells between two positions, and the walkability test
    built from it. */
module Walk {
  import opened Vec
  import opened Terrain

  /** C++ integer division, which truncates towards zero. */
  function TDiv(a: int, b: int): int
    requires b != 0
  {
    if (a < 0) == (b < 0) then AbsInt(a) / AbsInt(b) else -(AbsInt(a) / AbsInt(b))
  }

  /** C++ remainder, whose sign follows the dividend. */
  function TMod(a: int, b: int): int
    requires b != 0
  {
    a - b * TDiv(a, b)
  }

  /** Truncated division and remainder split the dividend, the remainder is
      smaller than the divisor and is never of the opposite sign to a. */
  lemma TDivModSpec(a: int, b: int)
    requires b != 0
    ensures a == b * TDiv(a, b) + TMod(a, b)
    ensures AbsInt(TMod(a, b)) < AbsInt(b)
    ensures a >= 0 ==> TMod(a, b) >= 0
    ensures a < 0 ==> TMod(a, b) <= 0
  {
    if a >= 0 {
      TModOfNat(a, b);
    } else {
      TModOfNat(-a, b);
      TModNegated(a, b);
    }
  }

  /** On a non-negative dividend the truncated remainder is the Euclidean one. */
  lemma TModOfNat(a: nat, b: int)
    requires b != 0
    ensures TMod(a, b) == a % AbsInt(b)
  {
    var B, q := AbsInt(b), a / AbsInt(b);
    assert a == B * q + a % B;
    if b < 0 {
      NegMul(B, q);
      assert TDiv(a, b) == -q;
    }
  }

  /** Negating the dividend negates the truncated remainder. */
  lemma TModNegated(a: int, b: int)
    requires b != 0
    ensures TMod(-a, b) == -TMod(a, b)
  {
    assert TDiv(-a, b) == if a == 0 then 0 else -TDiv(a, b);
    NegMul(b, TDiv(a, b));
  }

  /** Negating one factor negates the product. */
  lemma NegMul(x: int, y: int)
    ensures (-x) * y == -(x * y) && x * (-y) == -(x * y) && (-x) * (-y) == x * y
  {
  }

  /** Truncation and Dafny's Euclidean division disagree on negative dividends. */
  lemma TruncationDiffersFromEuclid()
    ensures TDiv(-1, 2) == 0 && -1 / 2 == -1
    ensures TMod(-1, 2) == -1 && -1 % 2 == 1
  {
  }

  /** Whether c continues the line through a and b, as the path smoother
      decides it: same floor, and the x offsets of b and c from a have the
      same truncated quotient and remainder by their y offsets. A zero y
      offset of c against a nonzero one of b divides by zero in the
      program; the model answers false there. */
  function InLine(a: Pos3, b: Pos3, c: Pos3): (r: bool)
    ensures r ==> a.z == b.z == c.z
    ensures a.z == b.z == c.z && b == c ==> r
  {
    if a.z != b.z || b.z != c.z then false
    else
      var ab, ac := Sub3(a, b), Sub3(a, c);
      if ab.y == 0 then ac.y == 0
      else if ac.y == 0 then false
      else TDiv(ab.x, ab.y) == TDiv(ac.x, ac.y) && TMod(ab.x, ab.y) == TMod(ac.x, ac.y)
  }

  lemma InLineNeedsOneFloor(a: Pos3, b: Pos3, c: Pos3)
    ensures InLine(a, b, c) ==> a.z == b.z == c.z
  {
  }

  /** Three positions on one row are in line; a row and a non-row are not. */
  lemma InLineOnRow(a: Pos3, b: Pos3, c: Pos3)
    requires a.z == b.z == c.z && a.y == b.y
    ensures InLine(a, b, c) <==> a.y == c.y
  {
  }

  /** When b and c lie on the same row below or above a, the test holds
      exactly when they are the same position. */
  lemma {:induction false} InLineSameRow(a: Pos3, b: Pos3, c: Pos3)
    requires a.z == b.z == c.z && b.y == c.y && a.y != b.y
    ensures InLine(a, b, c) <==> b == c
  {
    var ab, ac := Sub3(a, b), Sub3(a, c);
    if InLine(a, b, c) {
      TDivModSpec(ab.x, ab.y);
      TDivModSpec(ac.x, ac.y);
      assert ab.x == ac.x;
    }
  }

  /** The test is not invariant under scaling: offsets (1, 2) and (2, 4)
      point along the same ray but are not in line. */
  lemma InLineNotScaleInvariant()
    ensures !InLine(Pos3(0, 0, 0), Pos3(-1, -2, 0), Pos3(-2, -4, 0))
    ensures InLine(Pos3(0, 0, 0), Pos3(-1, -2, 0), Pos3(-1, -2, 0))
  {
  }

  /** The cells an error-term walk visits: n cells starting at cur; after
      each cell it steps in x while the error is positive (lowering it by
      xLoss) and in y otherwise (raising it by yGain). */
  function WalkLoop(cur: Pos2, n: nat, err: int, inc: Pos2, xLoss: int, yGain: int): seq<Pos2>
    decreases n
  {
    if n == 0 then []
    else if err > 0 then [cur] + WalkLoop(Pos2(cur.x + inc.x, cur.y), n - 1, err - xLoss, inc, xLoss, yGain)
    else [cur] + WalkLoop(Pos2(cur.x, cur.y + inc.y), n - 1, err + yGain, inc, xLoss, yGain)
  }

  /** The unit steps of a walk: towards the end in each coordinate, -1 where
      the end is not greater. */
  function Inc(start: Pos2, end: Pos2): Pos2 {
    Pos2(if end.x > start.x then 1 else -1, if end.y > start.y then 1 else -1)
  }

  /** The cells test_walk checks, with the y step raising the error by twice
      the x distance, which is what the walk needs to end at `end`. */
  function WalkCells(start: Pos2, end: Pos2): seq<Pos2> {
    var d := Abs(Sub(end, start));
    WalkLoop(start, 1 + d.x + d.y, d.x - d.y, Inc(start, end), 2 * d.y, 2 * d.x)
  }

  /** The cells test_walk checks as the program writes it: the y step raises
      the error by twice the y distance. */
  function WalkCellsAsWritten(start: Pos2, end: Pos2): seq<Pos2> {
    var d := Abs(Sub(end, start));
    WalkLoop(start, 1 + d.x + d.y, d.x - d.y, Inc(start, end), 2 * d.y, 2 * d.y)
  }

  /** As written, the walk from (0,0) to (3,1) leaves row 1 and ends at
      (2,2) instead of its end cell; the corrected walk ends at (3,1). */
  lemma WalkAsWrittenOvershoots()
    ensures WalkCellsAsWritten(Pos2(0, 0), Pos2(3, 1)) == [Pos2(0, 0), Pos2(1, 0), Pos2(1, 1), Pos2(2, 1), Pos2(2, 2)]
    ensures WalkCells(Pos2(0, 0), Pos2(3, 1)) == [Pos2(0, 0), Pos2(1, 0), Pos2(1, 1), Pos2(2, 1), Pos2(3, 1)]
  {
    var inc := Pos2(1, 1);
    assert Inc(Pos2(0, 0), Pos2(3, 1)) == inc && Abs(Sub(Pos2(3, 1), Pos2(0, 0))) == Pos2(3, 1);
    assert WalkLoop(Pos2(2, 2), 1, 2, inc, 2, 2) == [Pos2(2, 2)];
    assert WalkLoop(Pos2(2, 1), 2, 0, inc, 2, 2) == [Pos2(2, 1), Pos2(2, 2)];
    assert WalkLoop(Pos2(1, 1), 3, 2, inc, 2, 2) == [Pos2(1, 1), Pos2(2, 1), Pos2(2, 2)];
    assert WalkLoop(Pos2(1, 0), 4, 0, inc, 2, 2) == [Pos2(1, 0), Pos2(1, 1), Pos2(2, 1), Pos2(2, 2)];
    assert WalkLoop(Pos2(3, 1), 1, 2, inc, 2, 6) == [Pos2(3, 1)];
    assert WalkLoop(Pos2(2, 1), 2, 4, inc, 2, 6) == [Pos2(2, 1), Pos2(3, 1)];
    assert WalkLoop(Pos2(1, 1), 3, 6, inc, 2, 6) == [Pos2(1, 1), Pos2(2, 1), Pos2(3, 1)];
    assert WalkLoop(Pos2(1, 0), 4, 0, inc, 2, 6) == [Pos2(1, 0), Pos2(1, 1), Pos2(2, 1), Pos2(3, 1)];
  }

  /** x moved a unit steps in the direction of sign s (1 or -1). */
  function Shift(x: int, a: nat, s: int): int {
    if s > 0 then x + a else x - a
  }

  /** Every walk has n cells, starts at cur and moves one unit step in x or
      in y from each cell to the next. */
  lemma {:induction false} WalkLoopSteps(cur: Pos2, n: nat, err: int, inc: Pos2, xLoss: int, yGain: int)
    ensures var r := WalkLoop(cur, n, err, inc, xLoss, yGain);
      && |r| == n
      && (n > 0 ==> r[0] == cur)
      && (forall k :: 0 <= k < n - 1 ==>
            r[k + 1] == Pos2(r[k].x + inc.x, r[k].y) || r[k + 1] == Pos2(r[k].x, r[k].y + inc.y))
    decreases n
  {
    if n > 0 {
      var next := if err > 0 then Pos2(cur.x + inc.x, cur.y) else Pos2(cur.x, cur.y + inc.y);
      var err' := if err > 0 then err - xLoss else err + yGain;
      WalkLoopSteps(next, n - 1, err', inc, xLoss, yGain);
      var rest := WalkLoop(next, n - 1, err', inc, xLoss, yGain);
      var r := WalkLoop(cur, n, err, inc, xLoss, yGain);
      assert r == [cur] + rest;
      forall k | 0 <= k < n - 1
        ensures r[k + 1] == Pos2(r[k].x + inc.x, r[k].y) || r[k + 1] == Pos2(r[k].x, r[k].y + inc.y)
      {
        if k > 0 {
          assert r[k] == rest[k - 1] && r[k + 1] == rest[k];
        }
      }
    }
  }

  /** The walk from cur with a steps in x and b in y still to make has
      1 + a + b cells and ends a along x and b along y from cur. */
  predicate EndsAt(cur: Pos2, a: nat, b: nat, err: int, inc: Pos2, xLoss: int, yGain: int) {
    var r := WalkLoop(cur, 1 + a + b, err, inc, xLoss, yGain);
    |r| == 1 + a + b && r[a + b] == Pos2(Shift(cur.x, a, inc.x), Shift(cur.y, b, inc.y))
  }

  /** The error term after a steps in x and b in y are left: positive when
      only x steps remain, not positive when only y steps remain, and one
      step in either axis leaves the error of the remaining steps. */
  lemma ErrorTerm(a: nat, b: nat, dx: nat, dy: nat, err: int)
    requires a <= dx && b <= dy
    requires err == dx - dy + 2 * (Times(a, dy) - Times(b, dx))
    ensures a == 0 && b > 0 ==> err <= 0
    ensures a > 0 && b == 0 ==> err > 0
    ensures a > 0 ==> err - 2 * dy == dx - dy + 2 * (Times(a - 1, dy) - Times(b, dx))
    ensures b > 0 ==> err + 2 * dx == dx - dy + 2 * (Times(a, dy) - Times(b - 1, dx))
  {
    if a > 0 {
      assert Times(a, dy) == Times(a - 1, dy) + dy;
    }
    if b > 0 {
      assert Times(b, dx) == Times(b - 1, dx) + dx;
    }
  }

  /** A walk with a steps in x and b in y left to make (out of dx and dy
      in all), whose error is what the steps already made leave, ends at
      the cell a steps along x and b along y from cur. */
  lemma {:induction false} WalkLoopReachesEnd(cur: Pos2, a: nat, b: nat, dx: nat, dy: nat, inc: Pos2, err: int)
    requires a <= dx && b <= dy
    requires (inc.x == 1 || inc.x == -1) && (inc.y == 1 || inc.y == -1)
    requires err == dx - dy + 2 * (Times(a, dy) - Times(b, dx))
    ensures EndsAt(cur, a, b, err, inc, 2 * dy, 2 * dx)
    decreases a + b
  {
    ErrorTerm(a, b, dx, dy, err);
    if a == 0 && b == 0 {
      assert WalkLoop(cur, 1, err, inc, 2 * dy, 2 * dx) == [cur];
    } else if err > 0 {
      WalkLoopReachesEnd(Pos2(cur.x + inc.x, cur.y), a - 1, b, dx, dy, inc, err - 2 * dy);
      WalkLoopStepX(cur, a, b, err, inc, 2 * dy, 2 * dx);
    } else {
      WalkLoopReachesEnd(Pos2(cur.x, cur.y + inc.y), a, b - 1, dx, dy, inc, err + 2 * dx);
      WalkLoopStepY(cur, a, b, err, inc, 2 * dy, 2 * dx);
    }
  }

  /** A step in x: if the rest of the walk ends a - 1 steps along x and b
      along y from the next cell, the walk ends a and b steps from cur. */
  lemma WalkLoopStepX(cur: Pos2, a: nat, b: nat, err: int, inc: Pos2, xLoss: int, yGain: int)
    requires a > 0 && err > 0 && (inc.x == 1 || inc.x == -1)
    requires EndsAt(Pos2(cur.x + inc.x, cur.y), a - 1, b, err - xLoss, inc, xLoss, yGain)
    ensures EndsAt(cur, a, b, err, inc, xLoss, yGain)
  {
    var rest := WalkLoop(Pos2(cur.x + inc.x, cur.y), a + b, err - xLoss, inc, xLoss, yGain);
    var r := WalkLoop(cur, 1 + a + b, err, inc, xLoss, yGain);
    assert r == [cur] + rest;
    assert r[a + b] == rest[a - 1 + b];
  }

  /** A step in y: the mirror image of WalkLoopStepX. */
  lemma WalkLoopStepY(cur: Pos2, a: nat, b: nat, err: int, inc: Pos2, xLoss: int, yGain: int)
    requires b > 0 && err <= 0 && (inc.y == 1 || inc.y == -1)
    requires EndsAt(Pos2(cur.x, cur.y + inc.y), a, b - 1, err + yGain, inc, xLoss, yGain)
    ensures EndsAt(cur, a, b, err, inc, xLoss, yGain)
  {
    var rest := WalkLoop(Pos2(cur.x, cur.y + inc.y), a + b, err + yGain, inc, xLoss, yGain);
    var r := WalkLoop(cur, 1 + a + b, err, inc, xLoss, yGain);
    assert r == [cur] + rest;
    assert r[a + b] == rest[a + b - 1];
  }

  /** The walk checks 1 + |dx| + |dy| cells, starting at start, ending at end,
      each one unit step in x or in y towards the end from the one before. */
  lemma WalkCellsSpec(start: Pos2, end: Pos2)
    ensures var r := WalkCells(start, end);
      && |r| == 1 + AbsInt(end.x - start.x) + AbsInt(end.y - start.y)
      && r[0] == start && r[|r| - 1] == end
      && (forall k :: 0 <= k < |r| - 1 ==>
            r[k + 1] == Add(r[k], Pos2(Inc(start, end).x, 0)) || r[k + 1] == Add(r[k], Pos2(0, Inc(start, end).y)))
  {
    var d := Abs(Sub(end, start));
    var inc := Inc(start, end);
    assert d.x == AbsInt(end.x - start.x) && d.y == AbsInt(end.y - start.y);
    WalkLoopSpec(start, d.x, d.y, inc);
    var r := WalkCells(start, end);
    assert Shift(start.x, d.x, inc.x) == end.x && Shift(start.y, d.y, inc.y) == end.y;
    forall k | 0 <= k < |r| - 1
      ensures r[k + 1] == Add(r[k], Pos2(inc.x, 0)) || r[k + 1] == Add(r[k], Pos2(0, inc.y))
    {
      assert r[k + 1] == Pos2(r[k].x + inc.x, r[k].y) || r[k + 1] == Pos2(r[k].x, r[k].y + inc.y);
    }
  }

  lemma TimesCommutes(a: int, b: int)
    ensures Times(a, b) == Times(b, a)
  {
    TimesIsProduct(a, b);
    TimesIsProduct(b, a);
  }

  /** The walk with dx steps in x and dy in y and the error term kept
      ends dx along x and dy along y from where it starts. */
  lemma WalkLoopSpec(start: Pos2, dx: nat, dy: nat, inc: Pos2)
    requires (inc.x == 1 || inc.x == -1) && (inc.y == 1 || inc.y == -1)
    ensures var r := WalkLoop(start, 1 + dx + dy, dx - dy, inc, 2 * dy, 2 * dx);
      && |r| == 1 + dx + dy && r[0] == start
      && r[dx + dy] == Pos2(Shift(start.x, dx, inc.x), Shift(start.y, dy, inc.y))
      && (forall k :: 0 <= k < |r| - 1 ==>
            r[k + 1] == Pos2(r[k].x + inc.x, r[k].y) || r[k + 1] == Pos2(r[k].x, r[k].y + inc.y))
  {
    TimesCommutes(dx, dy);
    WalkLoopReachesEnd(start, dx, dy, dx, dy, inc, dx - dy);
    WalkLoopSteps(start, 1 + dx + dy, dx - dy, inc, 2 * dy, 2 * dx);
  }

  /** A walk whose error never falls to zero moves only in x. */
  lemma {:induction false} WalkLoopAlongRow(cur: Pos2, n: nat, err: int, inc: Pos2, yGain: int)
    requires err > 0
    ensures var r := WalkLoop(cur, n, err, inc, 0, yGain);
      |r| == n && forall k :: 0 <= k < n ==> r[k] == Pos2(cur.x + k * inc.x, cur.y)
    decreases n
  {
    if n > 0 {
      WalkLoopAlongRow(Pos2(cur.x + inc.x, cur.y), n - 1, err, inc, yGain);
      var r := WalkLoop(cur, n, err, inc, 0, yGain);
      forall k | 1 <= k < n
        ensures r[k] == Pos2(cur.x + k * inc.x, cur.y)
      {
        assert (k - 1) * inc.x + inc.x == k * inc.x;
      }
    }
  }

  /** A walk whose error stays at or below zero moves only in y. */
  lemma {:induction false} WalkLoopAlongColumn(cur: Pos2, n: nat, err: int, inc: Pos2, xLoss: int)
    requires err <= 0
    ensures var r := WalkLoop(cur, n, err, inc, xLoss, 0);
      |r| == n && forall k :: 0 <= k < n ==> r[k] == Pos2(cur.x, cur.y + k * inc.y)
    decreases n
  {
    if n > 0 {
      WalkLoopAlongColumn(Pos2(cur.x, cur.y + inc.y), n - 1, err, inc, xLoss);
      var r := WalkLoop(cur, n, err, inc, xLoss, 0);
      forall k | 1 <= k < n
        ensures r[k] == Pos2(cur.x, cur.y + k * inc.y)
      {
        assert (k - 1) * inc.y + inc.y == k * inc.y;
      }
    }
  }

  /** A cell is flat towards every listed direction. */
  ghost predicate CellFlat(m: Map, cell: Pos2, z: int, dirs: seq<Dir>)
    reads m, m.grid
    requires m.TilesValid()
  {
    forall j :: 0 <= j < |dirs| ==> m.IsFlat(Lift(cell, z), dirs[j])
  }

  /** Every cell of the walk is flat towards every listed direction. */
  ghost predicate AllFlat(m: Map, cells: seq<Pos2>, z: int, dirs: seq<Dir>)
    reads m, m.grid
    requires m.TilesValid()
  {
    forall i :: 0 <= i < |cells| ==> CellFlat(m, cells[i], z, dirs)
  }

  /** The error-term walk of test_walk: true iff every cell from start to end
      is flat towards every direction in toCheck. */
  method TestWalk(m: Map, start: Pos2, end: Pos2, z: int, toCheck: seq<Dir>) returns (ok: bool)
    requires m.TilesValid()
    ensures ok == AllFlat(m, WalkCells(start, end), z, toCheck)
  {
    var d := Abs(Sub(end, start));
    var cur := start;
    var n: nat := 1 + d.x + d.y;
    var inc := Inc(start, end);
    var error := d.x - d.y;
    d := Scale(d, 2);
    ghost var all := WalkCells(start, end);
    ghost var done: nat := 0;
    WalkLoopSteps(start, n, error, inc, d.y, d.x);
    while n > 0
      invariant done + n == |all|
      invariant all[done..] == WalkLoop(cur, n, error, inc, d.y, d.x)
      invariant forall i :: 0 <= i < done ==> CellFlat(m, all[i], z, toCheck)
      decreases n
    {
      ghost var rest := WalkLoop(cur, n, error, inc, d.y, d.x);
      assert all[done] == rest[0] == cur;
      var k := 0;
      while k < |toCheck|
        invariant 0 <= k <= |toCheck|
        invariant forall j :: 0 <= j < k ==> m.IsFlat(Lift(cur, z), toCheck[j])
      {
        if !m.IsFlat(Lift(cur, z), toCheck[k]) {
          assert !CellFlat(m, all[done], z, toCheck);
          return false;
        }
        assert m.IsFlat(Lift(cur, z), toCheck[k]);
        k := k + 1;
      }
      if error > 0 {
        cur := Pos2(cur.x + inc.x, cur.y);
        error := error - d.y;
      } else {
        cur := Pos2(cur.x, cur.y + inc.y);
        error := error + d.x;
      }
      assert rest == [rest[0]] + WalkLoop(cur, n - 1, error, inc, d.y, d.x);
      assert all[done + 1..] == all[done..][1..];
      n := n - 1;
      done := done + 1;
    }
    return true;
  }

  /** One call of test_walk made by is_walkable: the lane from `from` to `to`
      and the directions checked on it. */
  datatype Lane = Lane(from: Pos2, to: Pos2, check: seq<Dir>)

  /** The lanes is_walkable tests between two cells more than one step apart,
      with a direction's offset given by shift: a straight walk stops one
      cell short of the end; a slanted one tests the two lanes flanking it. */
  function Lanes(start: Pos2, end: Pos2, shift: Dir -> Pos2): seq<Lane> {
    var dirs := Dirs(Sub(end, start));
    if |dirs| == 1 then [Lane(start, Sub(end, shift(dirs[0])), dirs)]
    else if |dirs| == 2 then
      [Lane(Add(start, shift(dirs[0])), Sub(end, shift(dirs[1])), [Flip(dirs[0]), dirs[1]]),
       Lane(Add(start, shift(dirs[1])), Sub(end, shift(dirs[0])), [Flip(dirs[1]), dirs[0]])]
    else []
  }

  /** The program adds a direction to a position through the scalar operator:
      the direction's enum value is added to both coordinates. */
  function OrdinalShift(d: Dir): Pos2 {
    Pos2(Ord(d), Ord(d))
  }

  /** The offset is_walkable evidently means: the direction's unit vector. */
  function UnitShift(d: Dir): Pos2 {
    Unit(d)
  }

  /** As written, the Eastward lane from (0,0) to (5,0) runs to (3,-2) and
      tests (1,-1), off the row between the two ends; with unit offsets it
      runs to (4,0). */
  lemma LanesAsWrittenLeaveTheRow()
    ensures Lanes(Pos2(0, 0), Pos2(5, 0), OrdinalShift) == [Lane(Pos2(0, 0), Pos2(3, -2), [East])]
    ensures Pos2(1, -1) in WalkCellsAsWritten(Pos2(0, 0), Pos2(3, -2))
    ensures Lanes(Pos2(0, 0), Pos2(5, 0), UnitShift) == [Lane(Pos2(0, 0), Pos2(4, 0), [East])]
  {
    EastLanes();
    OffRowWalk();
  }

  /** The lanes of the Eastward walk from (0,0) to (5,0), with either offset. */
  lemma EastLanes()
    ensures Lanes(Pos2(0, 0), Pos2(5, 0), OrdinalShift) == [Lane(Pos2(0, 0), Pos2(3, -2), [East])]
    ensures Lanes(Pos2(0, 0), Pos2(5, 0), UnitShift) == [Lane(Pos2(0, 0), Pos2(4, 0), [East])]
  {
    assert Sub(Pos2(5, 0), Pos2(0, 0)) == Pos2(5, 0);
    assert Dirs(Pos2(5, 0)) == [East];
    assert OrdinalShift(East) == Pos2(2, 2) && UnitShift(East) == Pos2(1, 0);
  }

  /** The as-written walk from (0,0) to (3,-2) passes (1,-1). */
  lemma OffRowWalk()
    ensures Pos2(1, -1) in WalkCellsAsWritten(Pos2(0, 0), Pos2(3, -2))
  {
    var inc := Pos2(1, -1);
    assert Inc(Pos2(0, 0), Pos2(3, -2)) == inc && Abs(Sub(Pos2(3, -2), Pos2(0, 0))) == Pos2(3, 2);
    assert WalkLoop(Pos2(3, -2), 1, -3, inc, 4, 4) == [Pos2(3, -2)];
    assert WalkLoop(Pos2(2, -2), 2, 1, inc, 4, 4) == [Pos2(2, -2), Pos2(3, -2)];
    assert WalkLoop(Pos2(2, -1), 3, -3, inc, 4, 4) == [Pos2(2, -1), Pos2(2, -2), Pos2(3, -2)];
    assert WalkLoop(Pos2(1, -1), 4, 1, inc, 4, 4) == [Pos2(1, -1), Pos2(2, -1), Pos2(2, -2), Pos2(3, -2)];
    assert WalkLoop(Pos2(1, 0), 5, -3, inc, 4, 4) == [Pos2(1, 0), Pos2(1, -1), Pos2(2, -1), Pos2(2, -2), Pos2(3, -2)];
    var w := WalkCellsAsWritten(Pos2(0, 0), Pos2(3, -2));
    assert w == [Pos2(0, 0)] + WalkLoop(Pos2(1, 0), 5, -3, inc, 4, 4);
    assert w[2] == Pos2(1, -1);
  }

  /** A re-parenting the program makes and the corrected test refuses:
      (2,0), (3,2), (2,5) are not in line, and as written the one lane of
      the Southward walk from (2,0) to (2,5) runs to (1,4) without visiting
      (2,3); with unit offsets it runs down the column through (2,3). */
  lemma SouthLaneAsWrittenLeavesTheColumn(z: int)
    ensures !InLine(Pos3(2, 0, z), Pos3(3, 2, z), Pos3(2, 5, z))
    ensures Lanes(Pos2(2, 0), Pos2(2, 5), OrdinalShift) == [Lane(Pos2(2, 0), Pos2(1, 4), [South])]
    ensures WalkCellsAsWritten(Pos2(2, 0), Pos2(1, 4)) ==
      [Pos2(2, 0), Pos2(2, 1), Pos2(1, 1), Pos2(1, 2), Pos2(0, 2), Pos2(0, 3)]
    ensures Lanes(Pos2(2, 0), Pos2(2, 5), UnitShift) == [Lane(Pos2(2, 0), Pos2(2, 4), [South])]
    ensures Pos2(2, 3) in WalkCells(Pos2(2, 0), Pos2(2, 4))
  {
    NotInLineSouth(z);
    SouthLanes();
    SouthWalkAsWritten();
    SouthWalk();
  }

  lemma NotInLineSouth(z: int)
    ensures !InLine(Pos3(2, 0, z), Pos3(3, 2, z), Pos3(2, 5, z))
  {
    assert TDiv(-1, -2) == 0 && TMod(-1, -2) == -1 && TMod(0, -5) == 0;
  }

  /** The corrected walk down column 2 from (2,0) to (2,4) visits (2,3). */
  lemma SouthWalk()
    ensures Pos2(2, 3) in WalkCells(Pos2(2, 0), Pos2(2, 4))
  {
    StraightCells(Pos2(2, 0), South, 5);
    assert Along(Pos2(2, 0), 4, South) == Pos2(2, 4) && Along(Pos2(2, 0), 3, South) == Pos2(2, 3);
  }

  /** The lanes of the Southward walk from (2,0) to (2,5), with either offset. */
  lemma SouthLanes()
    ensures Lanes(Pos2(2, 0), Pos2(2, 5), OrdinalShift) == [Lane(Pos2(2, 0), Pos2(1, 4), [South])]
    ensures Lanes(Pos2(2, 0), Pos2(2, 5), UnitShift) == [Lane(Pos2(2, 0), Pos2(2, 4), [South])]
  {
    assert Sub(Pos2(2, 5), Pos2(2, 0)) == Pos2(0, 5);
    assert Dirs(Pos2(0, 5)) == [South];
    assert OrdinalShift(South) == Pos2(1, 1) && UnitShift(South) == Pos2(0, 1);
  }

  /** The as-written walk from (2,0) to (1,4) zigzags away from column 2. */
  lemma SouthWalkAsWritten()
    ensures WalkCellsAsWritten(Pos2(2, 0), Pos2(1, 4)) ==
      [Pos2(2, 0), Pos2(2, 1), Pos2(1, 1), Pos2(1, 2), Pos2(0, 2), Pos2(0, 3)]
  {
    var inc := Pos2(-1, 1);
    assert Inc(Pos2(2, 0), Pos2(1, 4)) == inc && Abs(Sub(Pos2(1, 4), Pos2(2, 0))) == Pos2(1, 4);
    assert WalkLoop(Pos2(0, 3), 1, 5, inc, 8, 8) == [Pos2(0, 3)];
    assert WalkLoop(Pos2(0, 2), 2, -3, inc, 8, 8) == [Pos2(0, 2), Pos2(0, 3)];
    assert WalkLoop(Pos2(1, 2), 3, 5, inc, 8, 8) == [Pos2(1, 2), Pos2(0, 2), Pos2(0, 3)];
    assert WalkLoop(Pos2(1, 1), 4, -3, inc, 8, 8) == [Pos2(1, 1), Pos2(1, 2), Pos2(0, 2), Pos2(0, 3)];
    assert WalkLoop(Pos2(2, 1), 5, 5, inc, 8, 8) == [Pos2(2, 1), Pos2(1, 1), Pos2(1, 2), Pos2(0, 2), Pos2(0, 3)];
    var w := WalkCellsAsWritten(Pos2(2, 0), Pos2(1, 4));
    assert w == [Pos2(2, 0)] + WalkLoop(Pos2(2, 1), 5, 5, inc, 8, 8);
  }

  ghost predicate LanesFlat(m: Map, lanes: seq<Lane>, z: int, cells: (Pos2, Pos2) -> seq<Pos2>)
    reads m, m.grid
    requires m.TilesValid()
  {
    forall i :: 0 <= i < |lanes| ==> AllFlat(m, cells(lanes[i].from, lanes[i].to), z, lanes[i].check)
  }

  /** One lane is flat on its own; two lanes are flat iff the first is and
      then the second. */
  lemma LanesFlatByLane(m: Map, lanes: seq<Lane>, z: int)
    requires m.TilesValid() && (|lanes| == 1 || |lanes| == 2)
    ensures |lanes| == 1 ==>
      (LanesFlat(m, lanes, z, WalkCells) <==> AllFlat(m, WalkCells(lanes[0].from, lanes[0].to), z, lanes[0].check))
    ensures |lanes| == 2 ==>
      (LanesFlat(m, lanes, z, WalkCells) <==>
        AllFlat(m, WalkCells(lanes[0].from, lanes[0].to), z, lanes[0].check)
        && AllFlat(m, WalkCells(lanes[1].from, lanes[1].to), z, lanes[1].check))
  {
  }

  /** is_walkable as the program writes it: ordinal offsets and the
      as-written walk. */
  ghost predicate IsWalkableAsWritten(m: Map, start: Pos3, end: Pos3)
    reads m, m.grid
    requires m.TilesValid()
    ensures IsWalkableAsWritten(m, start, end) ==> start.z == end.z && start != end
    ensures IsWalkableAsWritten(m, start, end) ==> AbsInt(end.x - start.x) > 1 || AbsInt(end.y - start.y) > 1
  {
    var diff := Flat(Sub3(end, start));
    start.z == end.z
    && !(AbsInt(diff.x) <= 1 && AbsInt(diff.y) <= 1)
    && LanesFlat(m, Lanes(Flat(start), Flat(end), OrdinalShift), end.z, WalkCellsAsWritten)
  }

  /** is_walkable with unit offsets and the corrected walk: the two cells
      are on one floor, more than one step apart, and every lane is flat. */
  ghost predicate IsWalkable(m: Map, start: Pos3, end: Pos3)
    reads m, m.grid
    requires m.TilesValid()
  {
    var diff := Flat(Sub3(end, start));
    start.z == end.z
    && !(AbsInt(diff.x) <= 1 && AbsInt(diff.y) <= 1)
    && LanesFlat(m, Lanes(Flat(start), Flat(end), UnitShift), end.z, WalkCells)
  }

  /** is_walkable, computed by test_walk over each lane, with unit offsets
      and the corrected walk. */
  method Walkable(m: Map, start: Pos3, end: Pos3) returns (ok: bool)
    requires m.TilesValid()
    ensures ok == IsWalkable(m, start, end)
  {
    var diff := Flat(Sub3(end, start));
    if start.z != end.z || (AbsInt(diff.x) <= 1 && AbsInt(diff.y) <= 1) {
      assert !IsWalkable(m, start, end);
      return false;
    }
    var lanes := Lanes(Flat(start), Flat(end), UnitShift);
    assert diff == Sub(Flat(end), Flat(start));
    assert IsWalkable(m, start, end) == LanesFlat(m, lanes, end.z, WalkCells);
    ok := TestLanes(m, lanes, end.z);
  }

  /** The test_walk calls of is_walkable: the one lane of a straight walk,
      or the two lanes of a slanted one, the second tested only when the
      first passes. */
  method TestLanes(m: Map, lanes: seq<Lane>, z: int) returns (ok: bool)
    requires m.TilesValid() && (|lanes| == 1 || |lanes| == 2)
    ensures ok == LanesFlat(m, lanes, z, WalkCells)
  {
    LanesFlatByLane(m, lanes, z);
    ok := TestWalk(m, lanes[0].from, lanes[0].to, z, lanes[0].check);
    if ok && |lanes| == 2 {
      ok := TestWalk(m, lanes[1].from, lanes[1].to, z, lanes[1].check);
    }
  }

  /** The cell k steps from s towards d. */
  function Along(s: Pos2, k: int, d: Dir): Pos2 {
    match d
    case North => Pos2(s.x, s.y - k)
    case South => Pos2(s.x, s.y + k)
    case East => Pos2(s.x + k, s.y)
    case West => Pos2(s.x - k, s.y)
  }

  /** A straight walk from s to len >= 2 cells towards d is tested as one
      lane that stops one cell short of the end and checks d. */
  lemma StraightLane(s: Pos2, d: Dir, len: int)
    requires len >= 2
    ensures Lanes(s, Along(s, len, d), UnitShift) == [Lane(s, Along(s, len - 1, d), [d])]
  {
    var diff := Sub(Along(s, len, d), s);
    assert Dirs(diff) == [d];
    assert Sub(Along(s, len, d), UnitShift(d)) == Along(s, len - 1, d);
  }

  /** The walk from s to the cell len - 1 steps towards d visits the len
      cells s, s + d, s + 2d, ... in order. */
  lemma StraightCells(s: Pos2, d: Dir, len: int)
    requires len >= 1
    ensures var cells := WalkCells(s, Along(s, len - 1, d));
      |cells| == len && forall k :: 0 <= k < len ==> cells[k] == Along(s, k, d)
  {
    var last := Along(s, len - 1, d);
    var inc := Inc(s, last);
    if IsHorizontal(d) {
      assert Abs(Sub(last, s)) == Pos2(len - 1, 0);
      if d == East {
        assert len - 1 > 0 ==> inc.x == 1;
      }
      if len - 1 > 0 {
        WalkLoopAlongRow(s, len, len - 1, inc, 2 * (len - 1));
      }
    } else {
      assert Abs(Sub(last, s)) == Pos2(0, len - 1);
      WalkLoopAlongColumn(s, len, 0 - (len - 1), inc, 2 * (len - 1));
      if d == South {
        assert len - 1 > 0 ==> inc.y == 1;
      }
    }
  }

  /** A straight walk of len >= 2 cells from start towards d is walkable iff
      every edge from start up to the end, all on start's floor, is flat
      towards d. */
  lemma {:induction false} StraightWalkable(m: Map, start: Pos3, d: Dir, len: int)
    requires m.TilesValid() && len >= 2
    ensures IsWalkable(m, start, Lift(Along(Flat(start), len, d), start.z)) <==>
      forall k :: 0 <= k < len ==> m.IsFlat(Lift(Along(Flat(start), k, d), start.z), d)
  {
    var s := Flat(start);
    var end := Lift(Along(s, len, d), start.z);
    assert Flat(end) == Along(s, len, d);
    StraightLane(s, d, len);
    StraightCells(s, d, len);
    var cells := WalkCells(s, Along(s, len - 1, d));
    var diff := Flat(Sub3(end, start));
    assert AbsInt(diff.x) > 1 || AbsInt(diff.y) > 1;
    var lanes := Lanes(s, Flat(end), UnitShift);
    assert |lanes| == 1 && lanes[0] == Lane(s, Along(s, len - 1, d), [d]);
    LanesFlatByLane(m, lanes, end.z);
    assert IsWalkable(m, start, end) <==> AllFlat(m, cells, start.z, [d]);
    if AllFlat(m, cells, start.z, [d]) {
      forall k | 0 <= k < len
        ensures m.IsFlat(Lift(Along(s, k, d), start.z), d)
      {
        assert CellFlat(m, cells[k], start.z, [d]);
        CellFlatOne(m, cells[k], start.z, d);
      }
    } else {
      var i :| 0 <= i < |cells| && !CellFlat(m, cells[i], start.z, [d]);
      CellFlatOne(m, cells[i], start.z, d);
      assert cells[i] == Along(s, i, d);
    }
  }

  /** A cell is flat towards the one listed direction d iff its edge
      towards d is flat. */
  lemma CellFlatOne(m: Map, cell: Pos2, z: int, d: Dir)
    requires m.TilesValid()
    ensures CellFlat(m, cell, z, [d]) <==> m.IsFlat(Lift(cell, z), d)
  {
    assert [d][0] == d;
  }

  /** test_area: after ordering the corners, every cell of the rectangle is
      flat towards the East except in the last column, and towards the South
      except in the last row. */
  ghost predicate AreaFlat(m: Map, lo: Pos2, hi: Pos2, height: int)
    reads m, m.grid
    requires m.TilesValid()
  {
    forall x :: lo.x <= x <= hi.x ==> ColumnFlat(m, lo, hi, x, height)
  }

  /** Every cell of column x of the rectangle from lo to hi passes. */
  ghost predicate ColumnFlat(m: Map, lo: Pos2, hi: Pos2, x: int, height: int)
    reads m, m.grid
    requires m.TilesValid()
  {
    forall y :: lo.y <= y <= hi.y ==> AreaCellFlat(m, hi, x, y, height)
  }

  /** Cell (x, y) of an area whose far corner is hi is flat towards the
      East unless it is in the last column, and towards the South unless
      it is in the last row. */
  ghost predicate AreaCellFlat(m: Map, hi: Pos2, x: int, y: int, height: int)
    reads m, m.grid
    requires m.TilesValid()
  {
    (x < hi.x ==> m.IsFlat(Pos3(x, y, height), East))
    && (y < hi.y ==> m.IsFlat(Pos3(x, y, height), South))
  }

  method TestArea(m: Map, corner1: Pos2, corner2: Pos2, height: int) returns (ok: bool)
    requires m.TilesValid()
    ensures ok == AreaFlat(m, Min(corner1, corner2), Max(corner1, corner2), height)
  {
    var c1, c2 := corner1, corner2;
    if c1.x > c2.x {
      c1, c2 := Pos2(c2.x, c1.y), Pos2(c1.x, c2.y);
    }
    if c1.y > c2.y {
      c1, c2 := Pos2(c1.x, c2.y), Pos2(c2.x, c1.y);
    }
    assert c1 == Min(corner1, corner2) && c2 == Max(corner1, corner2);
    var x := c1.x;
    while x <= c2.x
      invariant c1.x <= x <= c2.x + 1
      invariant forall x' :: c1.x <= x' < x ==> ColumnFlat(m, c1, c2, x', height)
      decreases c2.x + 1 - x
    {
      var column := TestColumn(m, c1, c2, x, height);
      if !column {
        return false;
      }
      x := x + 1;
    }
    return true;
  }

  /** The inner loop of test_area: column x of the rectangle. */
  method TestColumn(m: Map, lo: Pos2, hi: Pos2, x: int, height: int) returns (ok: bool)
    requires m.TilesValid()
    ensures ok == ColumnFlat(m, lo, hi, x, height)
  {
    var y := lo.y;
    while y <= hi.y
      invariant lo.y <= y && (lo.y <= hi.y ==> y <= hi.y + 1)
      invariant forall y' :: lo.y <= y' < y ==> AreaCellFlat(m, hi, x, y', height)
      decreases hi.y + 1 - y
    {
      if x < hi.x && !m.IsFlat(Pos3(x, y, height), East) {
        assert !AreaCellFlat(m, hi, x, y, height);
        return false;
      }
      if y < hi.y && !m.IsFlat(Pos3(x, y, height), South) {
        assert !AreaCellFlat(m, hi, x, y, height);
        return false;
      }
      assert AreaCellFlat(m, hi, x, y, height);
      y := y + 1;
    }
    return true;
  }

  /** A single cell is always an open area; the corners may be given in
      either order. */
  lemma AreaOfOneCell(m: Map, c: Pos2, height: int)
    requires m.TilesValid()
    ensures AreaFlat(m, c, c, height)
  {
  }
}
