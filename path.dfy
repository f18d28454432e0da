/** The movement-cost search: path settings and nodes, the edges a node
    relaxes, and the label-correcting search that fills a path grid.
    Costs and the radius are counted in tenths of a tile. */
module Paths {
  import opened Vec
  import opened Grids
  import opened Wrappers
  import opened Terrain

  /** Costs of the kinds of step, in tenths of a tile. */
  datatype Settings = Settings(ortho: nat, diag: nat, step: nat, climb: nat, drop: nat)

  /** One tile per orthogonal, diagonal or climbing step; stepping over
      low cover and dropping a floor are free. */
  const DefaultSettings := Settings(10, 10, 0, 10, 0)

  /** The settings of the monolithic map, whose orthogonal cost is a
      constant one tile and whose other costs are chosen. */
  function FixedOrthoSettings(diag: nat, step: nat, climb: nat, drop: nat): (s: Settings)
    ensures s.ortho == DefaultSettings.ortho
    ensures s.diag == diag && s.step == step && s.climb == climb && s.drop == drop
  {
    Settings(10, diag, step, climb, drop)
  }

  lemma FixedOrthoHasDefaults()
    ensures FixedOrthoSettings(10, 0, 10, 0) == DefaultSettings
  {
  }

  /** A bound on the cost of any single step. */
  function MaxStep(s: Settings): nat {
    s.ortho + s.diag + s.step + s.climb + s.drop
  }

  /** The states of a path node; CLOSED is declared but never assigned. */
  datatype State = Open | Closed | Accessable | Inaccessable

  /** The parent of a node no step has reached: on floor -1. */
  const Sentinel: Pos3 := Pos3(0, 0, -1)

  /** A path node; an infinite distance is None. */
  datatype Node = Node(pos: Pos3, state: State, parent: Pos3, dist: Option<nat>)

  const Fresh := Node(Pos3(0, 0, 0), Open, Sentinel, None)

  /** The node of the split map's header: plane positions and a path
      segment, which no search computes. */
  datatype PlaneNode = PlaneNode(pos: Pos2, state: State, parent: Pos2, dist: Option<nat>, segment: int)

  const PlaneFresh := PlaneNode(Pos2(0, 0), Open, Pos2(0, -1), None, 0)

  /** Both kinds of fresh node are open, unreached, and have a parent one
      below the lowest coordinate: the floor for the three-component node,
      the row for the plane node. */
  lemma FreshNodesUnreached()
    ensures Fresh.state == Open && Fresh.dist == None && Fresh.parent.z == -1
    ensures PlaneFresh.state == Open && PlaneFresh.dist == None && PlaneFresh.parent.y == -1
    ensures PlaneFresh.segment == 0
  {
  }

  /** A step to a neighbouring node and its cost. */
  datatype Edge = Edge(to: Pos3, cost: nat)

  // ----- The rectangle the search covers -----

  /** The radius rounded up to whole tiles. */
  function RadiusTiles(radius: nat): (r: nat)
    ensures 10 * r >= radius && 10 * r < radius + 10
  {
    (radius + 9) / 10
  }

  /** The lower corner: start minus the radius, but not below (0,0). */
  function TopLeft(pos: Pos3, radius: nat): Pos2 {
    var ri := RadiusTiles(radius);
    Max(Sub(Flat(pos), Pos2(ri, ri)), Pos2(0, 0))
  }

  /** The upper corner: start plus the radius, or the map's size when that
      is larger in a coordinate. */
  function BotRite(pos: Pos3, radius: nat, mapSize: Pos2): Pos2 {
    var ri := RadiusTiles(radius);
    Max(Add(Flat(pos), Pos2(ri, ri)), mapSize)
  }

  function BoxSize(pos: Pos3, radius: nat, mapSize: Pos2): Pos2 {
    Sub(BotRite(pos, radius, mapSize), TopLeft(pos, radius))
  }

  /** The path grid never reaches below (0,0), has a non-negative size,
      and covers every map cell within the rounded-up radius of the start
      in each coordinate. */
  lemma BoxCoversReach(pos: Pos3, radius: nat, mapSize: Pos2, q: Pos2)
    requires mapSize.x >= 0 && mapSize.y >= 0
    ensures BoxSize(pos, radius, mapSize).x >= 0 && BoxSize(pos, radius, mapSize).y >= 0
    ensures TopLeft(pos, radius).x >= 0 && TopLeft(pos, radius).y >= 0
    ensures InBox2(mapSize, Pos2(0, 0), q)
      && AbsInt(q.x - pos.x) <= RadiusTiles(radius) && AbsInt(q.y - pos.y) <= RadiusTiles(radius)
      ==> InBox2(BoxSize(pos, radius, mapSize), TopLeft(pos, radius), q)
  {
  }

  // ----- The edges a node relaxes -----

  /** The offsets the search examines, row by row from the North-West;
      the centre yields no edge. */
  const Offsets: seq<Pos2> := [
    Pos2(-1, -1), Pos2(0, -1), Pos2(1, -1),
    Pos2(-1, 0), Pos2(0, 0), Pos2(1, 0),
    Pos2(-1, 1), Pos2(0, 1), Pos2(1, 1)]

  /** The edge towards cur + off, if any: out of the path grid none; into
      a column with no tile at a floor above 0, a drop one floor down for an
      orthogonal step only; otherwise an orthogonal step that is blocked
      climbs through a climbable wall, one that is open but not flat steps
      over cover, and a diagonal step needs its four inner edges flat. */
  function Candidate(m: Map, s: Settings, size: Pos2, offset: Pos2, cur: Pos3, off: Pos2): Option<Edge>
    reads m, m.grid
    requires m.TilesValid()
  {
    var pos0 := Add3(Lift(off, 0), cur);
    var dirs := Dirs(off);
    if off == Pos2(0, 0) || !InBox3(size, offset, pos0) then None
    else if pos0.z > 0 && !m.HasTile(pos0) then
      if |dirs| == 1 then Some(DropEdge(m, s, cur, pos0, dirs[0])) else None
    else if |dirs| == 1 then OrthoEdge(m, s, cur, pos0, dirs[0])
    else DiagEdge(m, s, cur, pos0, dirs[0], dirs[1])
  }

  /** Dropping into the column beside cur lands one floor lower. */
  function DropEdge(m: Map, s: Settings, cur: Pos3, pos0: Pos3, d: Dir): Edge
    reads m, m.grid
    requires m.TilesValid()
  {
    Edge(Pos3(pos0.x, pos0.y, pos0.z - 1), s.drop + (if m.HasCover(cur, d) then s.step else 0))
  }

  function OrthoEdge(m: Map, s: Settings, cur: Pos3, pos0: Pos3, d: Dir): Option<Edge>
    reads m, m.grid
    requires m.TilesValid()
  {
    if m.IsBlocked(cur, d) then
      if m.GetWall(cur, d) == Climbable then Some(Edge(Pos3(pos0.x, pos0.y, pos0.z + 1), s.climb)) else None
    else if !m.IsFlat(cur, d) then Some(Edge(pos0, s.step))
    else Some(Edge(pos0, s.ortho))
  }

  function DiagEdge(m: Map, s: Settings, cur: Pos3, pos0: Pos3, d0: Dir, d1: Dir): Option<Edge>
    reads m, m.grid
    requires m.TilesValid()
  {
    if m.IsFlat(cur, d0) && m.IsFlat(cur, d1) && m.IsFlat(pos0, Flip(d0)) && m.IsFlat(pos0, Flip(d1)) then
      Some(Edge(pos0, s.diag))
    else None
  }

  function EdgesOf(m: Map, s: Settings, size: Pos2, offset: Pos2, cur: Pos3, offs: seq<Pos2>): seq<Edge>
    reads m, m.grid
    requires m.TilesValid()
  {
    if offs == [] then []
    else
      var rest := EdgesOf(m, s, size, offset, cur, offs[1..]);
      match Candidate(m, s, size, offset, cur, offs[0])
      case None => rest
      case Some(e) => [e] + rest
  }

  /** The edges of a node, in the order the search relaxes them. */
  function Edges(m: Map, s: Settings, size: Pos2, offset: Pos2, cur: Pos3): seq<Edge>
    reads m, m.grid
    requires m.TilesValid()
  {
    EdgesOf(m, s, size, offset, cur, Offsets)
  }

  lemma EdgesOfAppend(m: Map, s: Settings, size: Pos2, offset: Pos2, cur: Pos3, offs: seq<Pos2>, o: Pos2)
    requires m.TilesValid()
    ensures EdgesOf(m, s, size, offset, cur, offs + [o])
      == EdgesOf(m, s, size, offset, cur, offs) + EdgesOf(m, s, size, offset, cur, [o])
  {
    if offs != [] {
      assert (offs + [o])[1..] == offs[1..] + [o];
      EdgesOfAppend(m, s, size, offset, cur, offs[1..], o);
    }
  }

  /** Every edge comes from one of the offsets. */
  lemma {:induction false} EdgeFromOffset(m: Map, s: Settings, size: Pos2, offset: Pos2, cur: Pos3, offs: seq<Pos2>, e: Edge)
    requires m.TilesValid()
    requires e in EdgesOf(m, s, size, offset, cur, offs)
    ensures exists i :: 0 <= i < |offs| && Candidate(m, s, size, offset, cur, offs[i]) == Some(e)
  {
    var c := Candidate(m, s, size, offset, cur, offs[0]);
    if c == Some(e) {
      assert Candidate(m, s, size, offset, cur, offs[0]) == Some(e);
    } else {
      EdgeFromOffset(m, s, size, offset, cur, offs[1..], e);
      var i :| 0 <= i < |offs[1..]| && Candidate(m, s, size, offset, cur, offs[1..][i]) == Some(e);
      assert offs[i + 1] == offs[1..][i];
    }
  }

  /** An edge leads to one of the eight plane neighbours, at most one floor
      up or down, costs at most one of each kind of step and lands in the
      path grid unless it climbs above the top floor. */
  lemma CandidateShape(m: Map, s: Settings, size: Pos2, offset: Pos2, cur: Pos3, off: Pos2)
    requires m.TilesValid()
    ensures var c := Candidate(m, s, size, offset, cur, off);
      c.Some? ==>
        Flat(c.value.to) == Add(Flat(cur), off) && off != Pos2(0, 0)
        && cur.z - 1 <= c.value.to.z <= cur.z + 1
        && c.value.cost <= MaxStep(s)
        && InBox2(size, offset, Flat(c.value.to))
        && (InBox3(size, offset, cur) && c.value.to.z <= cur.z ==> InBox3(size, offset, c.value.to))
  {
  }

  /** A diagonal step needs all four edges inside its 2x2 block flat: the
      two leaving cur and the two entering the target. */
  lemma DiagonalNeedsFlatBlock(m: Map, s: Settings, size: Pos2, offset: Pos2, cur: Pos3, off: Pos2)
    requires m.TilesValid() && AbsInt(off.x) == 1 && AbsInt(off.y) == 1
    ensures var c := Candidate(m, s, size, offset, cur, off);
      var pos0 := Add3(Lift(off, 0), cur);
      var dirs := Dirs(off);
      c.Some? <==> (InBox3(size, offset, pos0) && (pos0.z == 0 || m.HasTile(pos0))
        && m.IsFlat(cur, dirs[0]) && m.IsFlat(cur, dirs[1])
        && m.IsFlat(pos0, Flip(dirs[0])) && m.IsFlat(pos0, Flip(dirs[1])))
    ensures var c := Candidate(m, s, size, offset, cur, off);
      c.Some? ==> c.value == Edge(Add3(Lift(off, 0), cur), s.diag)
  {
  }

  /** A step that changes floor is orthogonal: down one floor when the
      target column has no tile at cur's floor above 0, up one floor when
      the wall towards it is climbable and the step is blocked. */
  lemma FloorChanges(m: Map, s: Settings, size: Pos2, offset: Pos2, cur: Pos3, off: Pos2)
    requires m.TilesValid()
    ensures var c := Candidate(m, s, size, offset, cur, off);
      var pos0 := Add3(Lift(off, 0), cur);
      c.Some? && c.value.to.z == cur.z - 1 ==>
        |Dirs(off)| == 1 && pos0.z > 0 && !m.HasTile(pos0)
        && c.value.cost == s.drop + (if m.HasCover(cur, Dirs(off)[0]) then s.step else 0)
    ensures var c := Candidate(m, s, size, offset, cur, off);
      var pos0 := Add3(Lift(off, 0), cur);
      c.Some? && c.value.to.z == cur.z + 1 ==>
        |Dirs(off)| == 1 && m.IsBlocked(cur, Dirs(off)[0])
        && m.GetWall(cur, Dirs(off)[0]) == Climbable && c.value.cost == s.climb
  {
  }

  /** An orthogonal step on one floor is never blocked; it costs the cover
      step when the edge is not flat and the orthogonal cost when it is. */
  lemma OrthogonalSameFloor(m: Map, s: Settings, size: Pos2, offset: Pos2, cur: Pos3, d: Dir)
    requires m.TilesValid()
    ensures var c := Candidate(m, s, size, offset, cur, Unit(d));
      c.Some? && c.value.to.z == cur.z ==>
        !m.IsBlocked(cur, d) && c.value.to == Step3(cur, d)
        && c.value.cost == (if m.IsFlat(cur, d) then s.ortho else s.step)
  {
    DirsOfUnit(d);
  }

  /** The offset at a row-major position of the 3x3 block. */
  lemma OffsetAt(x: int, y: int)
    requires -1 <= x <= 1 && -1 <= y <= 1
    ensures 3 * (y + 1) + (x + 1) < |Offsets| && Offsets[3 * (y + 1) + (x + 1)] == Pos2(x, y)
  {
  }

  /** Taking one more offset adds the edge of that offset, if any. */
  lemma EdgesOfNextOffset(m: Map, s: Settings, size: Pos2, offset: Pos2, cur: Pos3, offs: seq<Pos2>, k: nat, edges: seq<Edge>, e: Option<Edge>)
    requires m.TilesValid() && k < |offs|
    requires edges == EdgesOf(m, s, size, offset, cur, offs[..k])
    requires e == Candidate(m, s, size, offset, cur, offs[k])
    ensures (if e.Some? then edges + [e.value] else edges) == EdgesOf(m, s, size, offset, cur, offs[..k + 1])
  {
    assert offs[..k + 1] == offs[..k] + [offs[k]];
    EdgesOfAppend(m, s, size, offset, cur, offs[..k], offs[k]);
    assert [offs[k]][1..] == [];
  }

  /** The first scan over a step's directions: an orthogonal step is
      blocked by a blocked edge and crosses cover at an open edge that is not
      flat; a diagonal one is blocked by either edge not being flat. */
  method ScanFromCur(m: Map, cur: Pos3, dirs: seq<Dir>) returns (blocked: bool, cover: bool)
    requires m.TilesValid() && 1 <= |dirs| <= 2
    ensures |dirs| == 1 ==> blocked == m.IsBlocked(cur, dirs[0])
    ensures |dirs| == 2 ==> blocked == (!m.IsFlat(cur, dirs[0]) || !m.IsFlat(cur, dirs[1]))
    ensures cover == (|dirs| == 1 && !blocked && !m.IsFlat(cur, dirs[0]))
  {
    blocked, cover := false, false;
    var i := 0;
    while i < |dirs| && !blocked
      invariant 0 <= i <= |dirs|
      invariant |dirs| == 1 ==> blocked == (i == 1 && m.IsBlocked(cur, dirs[0]))
      invariant |dirs| == 2 ==> blocked == exists j :: 0 <= j < i && !m.IsFlat(cur, dirs[j])
      invariant cover == (|dirs| == 1 && i == 1 && !blocked && !m.IsFlat(cur, dirs[0]))
    {
      if m.IsBlocked(cur, dirs[i]) {
        assert !m.IsFlat(cur, dirs[i]);
        blocked := true;
      } else if !m.IsFlat(cur, dirs[i]) {
        if |dirs| == 2 {
          blocked := true;
        } else {
          cover := true;
        }
      }
      i := i + 1;
    }
  }

  /** The corner check of a diagonal step: blocked iff an edge entering
      the target from inside the 2x2 block is not flat. */
  method ScanIntoTarget(m: Map, pos0: Pos3, dirs: seq<Dir>) returns (blocked: bool)
    requires m.TilesValid()
    ensures blocked == exists j :: 0 <= j < |dirs| && !m.IsFlat(pos0, Flip(dirs[j]))
  {
    blocked := false;
    var k := 0;
    while k < |dirs| && !blocked
      invariant 0 <= k <= |dirs|
      invariant blocked == exists j :: 0 <= j < k && !m.IsFlat(pos0, Flip(dirs[j]))
    {
      if !m.IsFlat(pos0, Flip(dirs[k])) {
        blocked := true;
      }
      k := k + 1;
    }
  }

  /** The edge of a step that stays on cur's floor or climbs: the scan of
      the step's directions, then the edge it allows. */
  method LevelEdge(m: Map, s: Settings, cur: Pos3, pos0: Pos3, dirs: seq<Dir>) returns (e: Option<Edge>)
    requires m.TilesValid() && 1 <= |dirs| <= 2
    ensures |dirs| == 1 ==> e == OrthoEdge(m, s, cur, pos0, dirs[0])
    ensures |dirs| == 2 ==> e == DiagEdge(m, s, cur, pos0, dirs[0], dirs[1])
  {
    var blocked, cover := ScanFromCur(m, cur, dirs);
    if |dirs| == 1 {
      e := OrthoLevel(m, s, cur, pos0, dirs[0], blocked, cover);
    } else {
      e := DiagLevel(m, s, cur, pos0, dirs, blocked);
    }
  }

  /** A one-direction step after the scan: climb or nothing when blocked,
      the cover step cost when not flat, the orthogonal cost otherwise. */
  method OrthoLevel(m: Map, s: Settings, cur: Pos3, pos0: Pos3, d: Dir, blocked: bool, cover: bool)
    returns (e: Option<Edge>)
    requires m.TilesValid()
    requires blocked == m.IsBlocked(cur, d) && cover == (!blocked && !m.IsFlat(cur, d))
    ensures e == OrthoEdge(m, s, cur, pos0, d)
  {
    if blocked {
      if m.GetWall(cur, d) == Climbable {
        return Some(Edge(Pos3(pos0.x, pos0.y, pos0.z + 1), s.climb));
      }
      return None;
    }
    if cover {
      e := Some(Edge(pos0, s.step));
    } else {
      e := Some(Edge(pos0, s.ortho));
    }
  }

  /** A diagonal step after the scan from cur: blocked unless the edges
      entering the target are flat too, the diagonal cost otherwise. */
  method DiagLevel(m: Map, s: Settings, cur: Pos3, pos0: Pos3, dirs: seq<Dir>, blocked: bool)
    returns (e: Option<Edge>)
    requires m.TilesValid() && |dirs| == 2
    requires blocked == (!m.IsFlat(cur, dirs[0]) || !m.IsFlat(cur, dirs[1]))
    ensures e == DiagEdge(m, s, cur, pos0, dirs[0], dirs[1])
  {
    var stop := blocked;
    if !stop {
      stop := ScanIntoTarget(m, pos0, dirs);
      assert stop == (!m.IsFlat(pos0, Flip(dirs[0])) || !m.IsFlat(pos0, Flip(dirs[1])));
    }
    if stop {
      return None;
    }
    e := Some(Edge(pos0, s.diag));
  }

  /** The edge the search builds for one offset, following the program's
      loops over the step's directions. */
  method StepEdge(m: Map, s: Settings, size: Pos2, offset: Pos2, cur: Pos3, off: Pos2) returns (e: Option<Edge>)
    requires m.TilesValid()
    ensures e == Candidate(m, s, size, offset, cur, off)
  {
    if off == Pos2(0, 0) {
      return None;
    }
    var pos0 := Add3(Lift(off, 0), cur);
    if !InBox3(size, offset, pos0) {
      return None;
    }
    var dirs := Dirs(off);
    if pos0.z > 0 && !m.HasTile(pos0) {
      if |dirs| == 1 {
        var cost := s.drop;
        if m.HasCover(cur, dirs[0]) {
          cost := cost + s.step;
        }
        return Some(Edge(Pos3(pos0.x, pos0.y, pos0.z - 1), cost));
      }
      return None;
    }
    e := LevelEdge(m, s, cur, pos0, dirs);
  }

  /** The neighbour list of the search: the nested loops over the 3x3
      block yield exactly the edges of cur, in order. */
  method CollectEdges(m: Map, s: Settings, size: Pos2, offset: Pos2, cur: Pos3) returns (edges: seq<Edge>)
    requires m.TilesValid()
    ensures edges == Edges(m, s, size, offset, cur)
  {
    edges := [];
    for y := -1 to 2
      invariant edges == EdgesOf(m, s, size, offset, cur, Offsets[..3 * (y + 1)])
    {
      for x := -1 to 2
        invariant edges == EdgesOf(m, s, size, offset, cur, Offsets[..3 * (y + 1) + (x + 1)])
      {
        var e := StepEdge(m, s, size, offset, cur, Pos2(x, y));
        OffsetAt(x, y);
        EdgesOfNextOffset(m, s, size, offset, cur, Offsets, 3 * (y + 1) + (x + 1), edges, e);
        if e.Some? {
          edges := edges + [e.value];
        }
      }
    }
    assert Offsets[..9] == Offsets;
  }

  /** Every edge of a node leads to a different plane position inside
      the path grid and costs at most MaxStep. */
  lemma EdgeShape(m: Map, s: Settings, size: Pos2, offset: Pos2, cur: Pos3, e: Edge)
    requires m.TilesValid() && e in Edges(m, s, size, offset, cur)
    ensures e.cost <= MaxStep(s) && Flat(e.to) != Flat(cur) && e.to != cur
    ensures InBox2(size, offset, Flat(e.to)) && cur.z - 1 <= e.to.z <= cur.z + 1
  {
    EdgeFromOffset(m, s, size, offset, cur, Offsets, e);
    var i :| 0 <= i < |Offsets| && Candidate(m, s, size, offset, cur, Offsets[i]) == Some(e);
    CandidateShape(m, s, size, offset, cur, Offsets[i]);
  }
}
