/** The terrain: a layered grid of tiles whose walls are stored per cell and
    per direction, together with the registry of units standing on it. */
module Terrain {
  import opened Vec
  import opened Grids
  import opened Wrappers

  /** The state of one side of a cell. `Clear` is the program's `Wall::None`.
      `Cover` is set only by the map editor and generator: no wall test singles
      it out, so it blocks nothing and gives no cover, but a side holding it is
      not flat. */
  datatype Wall = Clear | Cover | Blocking | InnerCover | OuterCover | Climbable

  /** The four walls of a tile, one per direction. */
  datatype Walls = Walls(north: Wall, south: Wall, east: Wall, west: Wall) {
    function Of(d: Dir): Wall {
      match d
      case North => north
      case South => south
      case East => east
      case West => west
    }

    function With(d: Dir, w: Wall): (r: Walls)
      ensures r.Of(d) == w
      ensures forall e :: e != d ==> r.Of(e) == Of(e)
    {
      match d
      case North => this.(north := w)
      case South => this.(south := w)
      case East => this.(east := w)
      case West => this.(west := w)
    }
  }

  datatype Tile = Tile(walls: Walls)

  /** The tile every read outside the stored columns returns: no walls. */
  const EmptyTile := Tile(Walls(Clear, Clear, Clear, Clear))

  /** A registered unit: where it stands and the name it was constructed with. */
  datatype Placed = Placed(pos: Pos3, name: string)

  /** The decimal spelling of a natural number, as a string stream prints it. */
  function NatToString(n: nat): (s: string)
    ensures |s| >= 1
    ensures (|s| == 1) == (n < 10)
    decreases n
  {
    if n < 10 then [Digit(n)] else NatToString(n / 10) + [Digit(n % 10)]
  }

  function Digit(n: nat): char
    requires n < 10
  {
    "0123456789"[n]
  }

  lemma {:induction false} NatToStringInjective(a: nat, b: nat)
    requires NatToString(a) == NatToString(b)
    ensures a == b
    decreases a
  {
    var s := NatToString(a);
    if a >= 10 {
      assert b >= 10;
      assert s[|s| - 1] == Digit(a % 10) == Digit(b % 10);
      assert a % 10 == b % 10;
      assert s[..|s| - 1] == NatToString(a / 10) == NatToString(b / 10);
      NatToStringInjective(a / 10, b / 10);
    } else {
      assert Digit(a) == s[0] == Digit(b);
    }
  }

  lemma SuffixedNamesDistinct(name: string, i: nat, j: nat)
    requires name + NatToString(i) == name + NatToString(j)
    ensures i == j
  {
    assert (name + NatToString(i))[|name|..] == NatToString(i);
    assert (name + NatToString(j))[|name|..] == NatToString(j);
    NatToStringInjective(i, j);
  }

  lemma StrictSubsetSmaller<T>(a: set<T>, b: set<T>)
    requires a < b
    ensures |a| < |b|
  {
    var x :| x in b && x !in a;
    assert b == a + (b - a);
    assert x in b - a;
  }

  /** The registered names of the form name + decimal(j) with j >= i. */
  ghost function TakenFrom(keys: set<string>, name: string, i: nat): set<string> {
    set k | k in keys && exists j: nat :: j >= i && k == name + NatToString(j)
  }

  /** chosen is name + decimal(i) for the smallest i whose suffixed name is free. */
  ghost predicate FirstFreeSuffix(taken: map<string, nat>, name: string, chosen: string) {
    exists i: nat :: chosen == name + NatToString(i) && chosen !in taken
      && forall j: nat :: j < i ==> name + NatToString(j) in taken
  }

  /** The name a new unit is registered under: the requested name if it is
      free, otherwise the name followed by the smallest decimal suffix i such
      that the suffixed name is free. */
  method FreshName(taken: map<string, nat>, name: string) returns (chosen: string)
    ensures chosen !in taken
    ensures name !in taken ==> chosen == name
    ensures name in taken ==> FirstFreeSuffix(taken, name, chosen)
  {
    chosen := name;
    if name in taken {
      var i: nat := 0;
      while true
        invariant forall j: nat :: j < i ==> name + NatToString(j) in taken
        decreases |TakenFrom(taken.Keys, name, i)|
      {
        var candidate := name + NatToString(i);
        if candidate !in taken {
          chosen := candidate;
          assert FirstFreeSuffix(taken, name, chosen) by {
            assert chosen == name + NatToString(i);
          }
          return;
        }
        ghost var before := TakenFrom(taken.Keys, name, i);
        ghost var after := TakenFrom(taken.Keys, name, i + 1);
        assert candidate in before;
        if candidate in after {
          var j: nat :| j >= i + 1 && candidate == name + NatToString(j);
          SuffixedNamesDistinct(name, i, j);
        }
        assert after < before;
        StrictSubsetSmaller(after, before);
        i := i + 1;
      }
    }
  }

  class Map {
    var grid: Grid<Tile>
    var unitGrid: Grid<Option<nat>>
    var units: seq<Placed>
    var unitMap: map<string, nat>

    /** The tile grid alone is well formed. */
    ghost predicate TilesValid()
      reads this, grid
    {
      grid.Valid() && grid.offset == Pos2(0, 0) && grid.def == EmptyTile
    }

    ghost predicate Valid()
      reads this, grid, unitGrid
    {
      && TilesValid() && unitGrid.Valid()
      && unitGrid.offset == Pos2(0, 0)
      && grid.size == unitGrid.size
      && unitGrid.def == None
      && (forall n :: n in unitMap ==> unitMap[n] < |units|)
      && (forall p :: unitGrid.Get(p).Some? ==> unitGrid.Get(p).value < |units|)
    }

    /** An empty map of size zero. */
    constructor ()
      ensures Valid() && fresh(grid) && fresh(unitGrid)
      ensures grid.size == Pos2(0, 0) && units == [] && unitMap == map[]
    {
      grid := new Grid(Pos2(0, 0), EmptyTile, Pos2(0, 0));
      unitGrid := new Grid(Pos2(0, 0), None, Pos2(0, 0));
      units := [];
      unitMap := map[];
    }

    /** Replaces both grids by empty ones of the given size; the unit list
        and the name registry are kept. */
    method Reset(size: Pos2)
      requires Valid()
      requires size.x >= 0 && size.y >= 0
      modifies this
      ensures Valid() && fresh(grid) && fresh(unitGrid)
      ensures grid.size == size
      ensures forall p :: GetTile(p) == EmptyTile && GetUnitAt(p) == None
      ensures units == old(units) && unitMap == old(unitMap)
    {
      grid := new Grid(size, EmptyTile, Pos2(0, 0));
      unitGrid := new Grid(size, None, Pos2(0, 0));
    }

    function Size(): Pos2
      reads this, grid
    {
      grid.size
    }

    predicate InBounds(p: Pos2)
      reads this, grid
    {
      grid.InBounds2(p)
    }

    /** The stack of tiles of an in-bounds column. */
    function GetTiles(p: Pos2): seq<Tile>
      reads this, grid
      requires TilesValid() && InBounds(p)
    {
      grid.Column(p)
    }

    /** Whether a tile exists at p: the column is in bounds and taller than p.z.
        The program compares the signed floor with an unsigned size, so a
        negative floor never has a tile. */
    function HasTile(p: Pos3): (r: bool)
      reads this, grid
      requires TilesValid()
      ensures p.z < 0 || !InBounds(Flat(p)) ==> !r
      ensures !r ==> GetTile(p) == EmptyTile
    {
      InBounds(Flat(p)) && 0 <= p.z < |GetTiles(Flat(p))|
    }

    function GetTile(p: Pos3): Tile
      reads this, grid
      requires TilesValid()
    {
      grid.Get(p)
    }

    function GetWall(p: Pos3, d: Dir): (w: Wall)
      reads this, grid
      requires TilesValid()
      ensures !HasTile(p) ==> w == Clear
    {
      GetTile(p).walls.Of(d)
    }

    /** Writes one wall of the tile at p, growing its column so that the tile
        exists. The wall on the other side of the edge is not touched. */
    method SetWall(p: Pos3, d: Dir, w: Wall)
      requires Valid() && grid.InBounds3(p)
      modifies grid
      ensures Valid()
      ensures GetWall(p, d) == w && HasTile(p)
      ensures forall e :: e != d ==> GetWall(p, e) == old(GetWall(p, e))
      ensures forall q :: q != p ==> GetTile(q) == old(GetTile(q))
      ensures forall q :: old(HasTile(q)) ==> HasTile(q)
    {
      var t := grid.GetMut(p);
      grid.Set(p, Tile(t.walls.With(d, w)));
      forall q | old(HasTile(q))
        ensures HasTile(q)
      {
        CellIndexInRange(grid.size, grid.offset, Flat(q));
      }
    }

    /** Movement from p towards d is blocked: by p's own wall, by the map
        edge, or by the neighbour's facing wall. */
    predicate IsBlocked(p: Pos3, d: Dir)
      reads this, grid
      requires TilesValid()
      ensures !InBounds(Flat(Step3(p, d))) ==> IsBlocked(p, d)
      ensures !HasTile(p) && !HasTile(Step3(p, d)) && InBounds(Flat(Step3(p, d))) ==> !IsBlocked(p, d)
    {
      GetWall(p, d) == Blocking
      || !InBounds(Flat(Step3(p, d)))
      || GetWall(Step3(p, d), Flip(d)) == Blocking
    }

    /** The edge from p towards d has no wall on either side and stays on the map. */
    predicate IsFlat(p: Pos3, d: Dir)
      reads this, grid
      requires TilesValid()
      ensures IsFlat(p, d) ==> !IsBlocked(p, d) && !HasCover(p, d)
      ensures !HasTile(p) && !HasTile(Step3(p, d)) && InBounds(Flat(Step3(p, d))) ==> IsFlat(p, d)
    {
      GetWall(p, d) == Clear
      && InBounds(Flat(Step3(p, d)))
      && GetWall(Step3(p, d), Flip(d)) == Clear
    }

    /** p is covered towards d: its own wall blocks or is inner cover, or the
        neighbour's facing wall blocks or is outer cover. */
    predicate HasCover(p: Pos3, d: Dir)
      reads this, grid
      requires TilesValid()
      ensures IsBlocked(p, d) && InBounds(Flat(Step3(p, d))) ==> HasCover(p, d)
      ensures !InBounds(Flat(Step3(p, d))) ==> (HasCover(p, d) <==> GetWall(p, d) == Blocking || GetWall(p, d) == InnerCover)
    {
      GetWall(p, d) == Blocking || GetWall(p, d) == InnerCover
      || (InBounds(Flat(Step3(p, d)))
          && (GetWall(Step3(p, d), Flip(d)) == Blocking || GetWall(Step3(p, d), Flip(d)) == OuterCover))
    }

    function GetUnitAt(p: Pos3): (u: Option<nat>)
      reads this, grid, unitGrid
      requires Valid()
      ensures u.Some? ==> u.value < |units|
    {
      unitGrid.Get(p)
    }

    function GetUnit(name: string): (u: Option<nat>)
      reads this
      ensures u.Some? <==> name in unitMap
      ensures u.Some? ==> u == Some(unitMap[name])
    {
      if name in unitMap then Some(unitMap[name]) else None
    }

    /** Registers a unit at pos under the requested name, or, if that name is
        taken, under the name followed by the smallest free decimal suffix.
        The unit itself keeps the requested name. */
    method CreateUnit(pos: Pos3, name: string) returns (chosen: string)
      requires Valid() && unitGrid.InBounds3(pos)
      modifies this, unitGrid
      ensures Valid() && grid == old(grid) && unitGrid == old(unitGrid)
      ensures chosen !in old(unitMap)
      ensures name !in old(unitMap) ==> chosen == name
      ensures name in old(unitMap) ==> FirstFreeSuffix(old(unitMap), name, chosen)
      ensures units == old(units) + [Placed(pos, name)]
      ensures unitMap == old(unitMap)[chosen := |old(units)|]
      ensures GetUnitAt(pos) == Some(|old(units)|)
      ensures forall q :: q != pos ==> GetUnitAt(q) == old(GetUnitAt(q))
    {
      chosen := FreshName(unitMap, name);
      units := units + [Placed(pos, name)];
      unitMap := unitMap[chosen := |units| - 1];
      unitGrid.Set(pos, Some(|units| - 1));
    }

    /** Moves the unit registered at unit u's position to pos: that cell is
        emptied, the unit's position updated and pos made to hold it. */
    method Move(u: nat, pos: Pos3)
      requires Valid() && u < |units|
      requires unitGrid.InBounds3(units[u].pos) && unitGrid.InBounds3(pos)
      requires GetUnitAt(units[u].pos).Some?
      modifies this, unitGrid
      ensures Valid() && grid == old(grid) && unitGrid == old(unitGrid)
      ensures unitMap == old(unitMap) && |units| == old(|units|)
      ensures var k := old(GetUnitAt(units[u].pos)).value;
        && units == old(units)[k := old(units)[k].(pos := pos)]
        && GetUnitAt(pos) == Some(k)
        && (old(units[u].pos) != pos ==> GetUnitAt(old(units[u].pos)) == None)
        && forall q :: q != pos && q != old(units[u].pos) ==> GetUnitAt(q) == old(GetUnitAt(q))
    {
      var from := units[u].pos;
      var found := unitGrid.GetMut(from);
      var k := found.value;
      unitGrid.Set(from, None);
      units := units[k := units[k].(pos := pos)];
      unitGrid.Set(pos, Some(k));
    }
  }

  /** An edge is blocked seen from either side. */
  lemma BlockedSymmetric(m: Map, p: Pos3, d: Dir)
    requires m.TilesValid() && m.InBounds(Flat(p)) && m.InBounds(Flat(Step3(p, d)))
    ensures m.IsBlocked(p, d) == m.IsBlocked(Step3(p, d), Flip(d))
  {
    StepBack(p, d);
    FlipInvolution(d);
  }

  /** An edge is flat seen from either side. */
  lemma FlatSymmetric(m: Map, p: Pos3, d: Dir)
    requires m.TilesValid() && m.InBounds(Flat(p)) && m.InBounds(Flat(Step3(p, d)))
    ensures m.IsFlat(p, d) == m.IsFlat(Step3(p, d), Flip(d))
  {
    StepBack(p, d);
    FlipInvolution(d);
  }
}
