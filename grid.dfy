/** A rectangle of columns, each column a stack of cells indexed by floor,
    with a coordinate offset. Reads outside the rectangle, or above the top
    of a column, give the grid's default value. */
module Grids {
  import opened Vec

  /** The highest floor index a grid accepts. */
  const MaxHeight: int := 255

  /** Whether a plane position lies in the rectangle [offset, offset + size). */
  predicate InBox2(size: Pos2, offset: Pos2, p: Pos2) {
    offset.x <= p.x < size.x + offset.x && offset.y <= p.y < size.y + offset.y
  }

  /** In the rectangle, and on a floor between 0 and MaxHeight. */
  predicate InBox3(size: Pos2, offset: Pos2, p: Pos3) {
    InBox2(size, offset, Flat(p)) && 0 <= p.z <= MaxHeight
  }

  /** The index of the column of an in-bounds position. */
  function CellIndex(size: Pos2, offset: Pos2, p: Pos2): int {
    Idx(Sub(p, offset), size.x)
  }

  lemma CellIndexInRange(size: Pos2, offset: Pos2, p: Pos2)
    ensures InBox2(size, offset, p) ==> 0 <= CellIndex(size, offset, p) < Times(size.y, size.x)
  {
    if InBox2(size, offset, p) {
      CellIndexInBox(size, offset, p);
    }
  }

  lemma CellIndexInBox(size: Pos2, offset: Pos2, p: Pos2)
    requires InBox2(size, offset, p)
    ensures 0 <= CellIndex(size, offset, p) < Times(size.y, size.x)
  {
    var dx, dy := p.x - offset.x, p.y - offset.y;
    TimesIsProduct(dy, size.x);
    TimesIsProduct(size.y, size.x);
    assert 0 <= dy * size.x <= (size.y - 1) * size.x by {
      MulMono(dy, size.y - 1, size.x);
    }
    assert (size.y - 1) * size.x + size.x == size.x * size.y;
  }

  lemma MulMono(a: int, b: int, c: int)
    requires 0 <= a <= b && 0 <= c
    ensures 0 <= a * c <= b * c
  {
  }

  /** Distinct in-bounds columns have distinct indices. */
  lemma CellIndexInjective(size: Pos2, offset: Pos2, p: Pos2, q: Pos2)
    requires InBox2(size, offset, p) && InBox2(size, offset, q)
    requires CellIndex(size, offset, p) == CellIndex(size, offset, q)
    ensures p == q
  {
    var py, qy := p.y - offset.y, q.y - offset.y;
    if py < qy {
      TimesGap(py, qy, size.x);
    } else if qy < py {
      TimesGap(qy, py, size.x);
    }
  }

  /** A column made at least n cells high by padding it with d. */
  function Pad<T>(col: seq<T>, n: int, d: T): (r: seq<T>)
    ensures |r| == MaxInt(|col|, n)
    ensures r[..|col|] == col
    ensures forall i :: |col| <= i < |r| ==> r[i] == d
  {
    if |col| >= n then col else col + seq(n - |col|, _ => d)
  }

  /** Cell z of column k, as every read sees it: d above the top of the column. */
  function CellOf<T>(cells: seq<seq<T>>, d: T, k: int, z: int): T
    requires 0 <= k < |cells|
  {
    if 0 <= z < |cells[k]| then cells[k][z] else d
  }

  /** A read of a grid's columns as a value: d outside the rectangle, outside
      the floor range, or above the top of the column. */
  function Lookup<T>(cells: seq<seq<T>>, size: Pos2, offset: Pos2, d: T, p: Pos3): T {
    var k := CellIndex(size, offset, Flat(p));
    if InBox3(size, offset, p) && 0 <= k < |cells| then CellOf(cells, d, k, p.z) else d
  }

  class Grid<T> {
    const size: Pos2
    const offset: Pos2
    const def: T
    var cells: seq<seq<T>>

    ghost predicate Valid()
      reads this
    {
      size.x >= 0 && size.y >= 0 && |cells| == Times(size.y, size.x)
    }

    predicate InBounds2(p: Pos2) {
      InBox2(size, offset, p)
    }

    predicate InBounds3(p: Pos3) {
      InBox3(size, offset, p)
    }

    function Index(p: Pos2): int {
      CellIndex(size, offset, p)
    }

    /** The cell k of floor z, as every read sees it: the default above the
        top of the column. */
    function At(k: int, z: int): T
      reads this
      requires Valid() && 0 <= k < |cells|
    {
      CellOf(cells, def, k, z)
    }

    /** The read-only column lookup; the program asserts the position is in bounds. */
    function Column(p: Pos2): (col: seq<T>)
      reads this
      requires Valid() && InBounds2(p)
      ensures 0 <= Index(p) < |cells| && col == cells[Index(p)]
    {
      CellIndexInRange(size, offset, p);
      cells[Index(p)]
    }

    /** The read-only cell lookup. */
    function Get(p: Pos3): (v: T)
      reads this
      requires Valid()
      ensures !InBounds3(p) ==> v == def
      ensures InBounds3(p) ==> 0 <= Index(Flat(p)) < |cells| && v == At(Index(Flat(p)), p.z)
      ensures InBounds3(p) && p.z >= |Column(Flat(p))| ==> v == def
    {
      CellIndexInRange(size, offset, Flat(p));
      Lookup(cells, size, offset, def, p)
    }

    constructor (size: Pos2, def: T, offset: Pos2)
      requires size.x >= 0 && size.y >= 0
      ensures Valid()
      ensures this.size == size && this.def == def && this.offset == offset
      ensures |cells| == size.x * size.y && forall k :: 0 <= k < |cells| ==> cells[k] == []
      ensures forall p :: Get(p) == def
    {
      this.size := size;
      this.def := def;
      this.offset := offset;
      TimesIsProduct(size.y, size.x);
      cells := seq(size.x * size.y, _ => []);
    }

    /** The writable cell lookup: grows the column with default cells until
        it reaches floor p.z, and leaves every read unchanged. */
    method GetMut(p: Pos3) returns (v: T)
      requires Valid() && InBounds3(p)
      modifies this
      ensures Valid()
      ensures v == Get(p)
      ensures 0 <= Index(Flat(p)) < |cells|
      ensures cells == old(cells)[Index(Flat(p)) := Pad(old(cells)[Index(Flat(p))], p.z + 1, def)]
      ensures |cells[Index(Flat(p))]| > p.z
      ensures forall k, z :: 0 <= k < |cells| ==> At(k, z) == old(At(k, z))
      ensures forall q :: Get(q) == old(Get(q))
    {
      CellIndexInRange(size, offset, Flat(p));
      var k := Index(Flat(p));
      ghost var col0 := cells[k];
      while |cells[k]| <= p.z
        invariant |cells| == old(|cells|)
        invariant |col0| <= |cells[k]| <= MaxInt(|col0|, p.z + 1)
        invariant cells == old(cells)[k := Pad(col0, |cells[k]|, def)]
        decreases p.z + 1 - |cells[k]|
      {
        assert Pad(col0, |cells[k]| + 1, def) == cells[k] + [def];
        cells := cells[k := cells[k] + [def]];
      }
      assert cells[k] == Pad(col0, p.z + 1, def);
      v := cells[k][p.z];
      forall q
        ensures Get(q) == old(Get(q))
      {
        if InBounds3(q) {
          CellIndexInRange(size, offset, Flat(q));
        }
      }
    }

    /** Overwrites one cell; every other read is unchanged. */
    method Set(p: Pos3, v: T)
      requires Valid() && InBounds3(p)
      modifies this
      ensures Valid()
      ensures 0 <= Index(Flat(p)) < |cells|
      ensures cells == old(cells)[Index(Flat(p)) := Pad(old(cells)[Index(Flat(p))], p.z + 1, def)[p.z := v]]
      ensures forall k, z :: 0 <= k < |cells| && (k != Index(Flat(p)) || z != p.z) ==> At(k, z) == old(At(k, z))
      ensures Get(p) == v
      ensures forall q :: q != p ==> Get(q) == old(Get(q))
    {
      var _ := GetMut(p);
      var k := Index(Flat(p));
      cells := cells[k := cells[k][p.z := v]];
      forall q | q != p
        ensures Get(q) == old(Get(q))
      {
        if InBounds3(q) {
          CellIndexInRange(size, offset, Flat(q));
          if Index(Flat(q)) == k {
            CellIndexInjective(size, offset, Flat(p), Flat(q));
          }
        }
      }
    }
  }
}
