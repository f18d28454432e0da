/** A unit on the map: its type, side and position, its action points and
    stamina, and the movement budget derived from them. The movement radius
    is kept in tenths of a tile, the unit of path costs, where the program
    keeps a float; mov times half the segments is always a whole number of
    tenths. */
module Units {
  import opened Vec
  import opened Grids

  datatype Side = NoSide | You | Enemy

  datatype UnitType = UnitType(name: string, mov: int, aim: int, hp: int)

  /** The number of movement segments: one per action point, and one more
      while the unit has stamina left. */
  function MoveSegments(ap: int, stamina: int): (n: int)
    ensures stamina > 0 ==> n == ap + 1
    ensures stamina <= 0 ==> n == ap
  {
    ap + (if stamina > 0 then 1 else 0)
  }

  /** The movement radius in tenths of a tile: mov tiles for every two segments. */
  function MoveRadius(mov: int, segments: int): (r: int)
    ensures 2 * r == mov * segments * 10
  {
    mov * segments * 5
  }

  /** A unit with nonnegative mov reaches at least as far with more action
      points, and exactly half a segment's worth further per extra point. */
  lemma {:induction false} MoveRadiusGrows(mov: int, stamina: int, a: int, b: int)
    requires mov >= 0 && a <= b
    ensures MoveRadius(mov, MoveSegments(a, stamina)) <= MoveRadius(mov, MoveSegments(b, stamina))
    ensures MoveRadius(mov, MoveSegments(b, stamina)) - MoveRadius(mov, MoveSegments(a, stamina)) == mov * (b - a) * 5
  {
    var sa, sb := MoveSegments(a, stamina), MoveSegments(b, stamina);
    assert sb - sa == b - a;
    assert mov * sb * 5 - mov * sa * 5 == mov * (sb - sa) * 5;
    MulMono(0, mov, (b - a) * 5);
  }

  class Unit {
    const kind: UnitType
    const side: Side
    var pos: Pos2
    var hp: int
    var ap: int
    var stamina: int
    var moveSegments: int
    var moveRadius: int
    var weapons: seq<nat>
    var fov: Grid<bool>

    /** The movement budget agrees with the current action points and stamina. */
    ghost predicate MoveCurrent()
      reads this
    {
      moveSegments == MoveSegments(ap, stamina) && moveRadius == MoveRadius(kind.mov, moveSegments)
    }

    /** A new unit: full hit points, no action points, three stamina, no
      movement budget yet, no weapons and an empty view. */
    constructor (t: UnitType, side: Side, pos: Pos2)
      ensures kind == t && this.side == side && this.pos == pos && hp == t.hp
      ensures ap == 0 && stamina == 3 && moveSegments == 0 && moveRadius == 0 && weapons == []
      ensures fresh(fov) && fov.Valid() && fov.size == Pos2(0, 0) && fov.offset == Pos2(0, 0) && !fov.def
    {
      kind := t;
      this.side := side;
      this.pos := pos;
      hp := t.hp;
      ap := 0;
      stamina := 3;
      moveSegments := 0;
      moveRadius := 0;
      weapons := [];
      fov := new Grid(Pos2(0, 0), false, Pos2(0, 0));
    }

    /** update_move: recomputes the movement budget from the action points
      and stamina. */
    method UpdateMove()
      modifies this
      ensures MoveCurrent()
      ensures ap == old(ap) && stamina == old(stamina) && pos == old(pos) && hp == old(hp)
      ensures weapons == old(weapons) && fov == old(fov)
    {
      moveSegments := MoveSegments(ap, stamina);
      moveRadius := MoveRadius(kind.mov, moveSegments);
    }

    method SetAp(amount: int)
      modifies this
      ensures ap == amount && MoveCurrent()
      ensures stamina == old(stamina) && pos == old(pos) && hp == old(hp)
      ensures weapons == old(weapons) && fov == old(fov)
    {
      ap := amount;
      UpdateMove();
    }

    method ModifyAp(amount: int)
      modifies this
      ensures ap == old(ap) + amount && MoveCurrent()
      ensures stamina == old(stamina) && pos == old(pos) && hp == old(hp)
      ensures weapons == old(weapons) && fov == old(fov)
    {
      SetAp(ap + amount);
    }

    /** Spends stamina without recomputing the movement budget: the budget
      stays as it was, and so stays current only while the stamina keeps
      its sign. */
    method UseStamina(amount: int)
      modifies this
      ensures stamina == old(stamina) - amount
      ensures ap == old(ap) && moveSegments == old(moveSegments) && moveRadius == old(moveRadius)
      ensures pos == old(pos) && hp == old(hp) && weapons == old(weapons) && fov == old(fov)
      ensures old(MoveCurrent()) && (old(stamina) > 0 <==> stamina > 0) ==> MoveCurrent()
      ensures old(MoveCurrent()) && old(stamina) > 0 && stamina <= 0 ==> moveSegments == MoveSegments(ap, stamina) + 1
    {
      stamina := stamina - amount;
    }

    method SetPos(p: Pos2)
      modifies this
      ensures pos == p
      ensures ap == old(ap) && stamina == old(stamina) && hp == old(hp)
      ensures moveSegments == old(moveSegments) && moveRadius == old(moveRadius)
      ensures weapons == old(weapons) && fov == old(fov)
    {
      pos := p;
    }

    /** Appends a weapon, given by its index among the game's weapons. */
    method AddWeapon(w: nat)
      modifies this
      ensures weapons == old(weapons) + [w]
      ensures pos == old(pos) && ap == old(ap) && stamina == old(stamina) && hp == old(hp)
      ensures moveSegments == old(moveSegments) && moveRadius == old(moveRadius) && fov == old(fov)
    {
      weapons := weapons + [w];
    }

    /** Stores a copy of g as the unit's view: the program takes the grid
        by value, so later writes to g do not reach the unit. */
    method SetFov(g: Grid<bool>)
      requires g.Valid()
      modifies this
      ensures fresh(fov) && fov.Valid() && fov.size == g.size && fov.offset == g.offset && fov.def == g.def
      ensures fov.cells == g.cells && forall q :: fov.Get(q) == g.Get(q)
      ensures pos == old(pos) && ap == old(ap) && stamina == old(stamina) && hp == old(hp)
      ensures moveSegments == old(moveSegments) && moveRadius == old(moveRadius) && weapons == old(weapons)
    {
      var copy := new Grid<bool>(g.size, g.def, g.offset);
      copy.cells := g.cells;
      fov := copy;
    }

    /** Whether the stored view marks p, read on floor 0: visible only
      inside the view's rectangle. */
    function CanSee(p: Pos2): (v: bool)
      reads this, fov
      requires fov.Valid() && !fov.def
      ensures v ==> fov.InBounds2(p)
    {
      fov.Get(Lift(p, 0))
    }
  }
}
