/** Precise permissive field of view by shadowcasting on one floor: each
    quadrant is swept ring by ring (x + y = i), keeping a list of active
    fields, each bounded by a steep and a shallow line whose ends are moved
    onto the corners of blocking squares (bumps). Slopes are compared with
    an exact integer cross product. */
module Fov {
  import opened Vec
  import opened Grids
  import opened Wrappers
  import opened Terrain

  // ----- Lines -----

  /** A line through two lattice points. */
  datatype Line = Line(near: Pos2, far: Pos2) {
    /** Which side of the line p lies on, as an integer cross product: zero
        on the line, positive below it, negative above it. */
    function RelativeSlope(p: Pos2): (r: int)
      ensures p == near || p == far ==> r == 0
    {
      (far.y - near.y) * (far.x - p.x) - (far.y - p.y) * (far.x - near.x)
    }

    predicate IsBelow(p: Pos2) {
      RelativeSlope(p) > 0
    }

    predicate IsBelowOrHas(p: Pos2) {
      RelativeSlope(p) >= 0
    }

    predicate IsAbove(p: Pos2) {
      RelativeSlope(p) < 0
    }

    predicate IsAboveOrHas(p: Pos2) {
      RelativeSlope(p) <= 0
    }

    predicate Contains(p: Pos2) {
      RelativeSlope(p) == 0
    }
  }

  /** The slope is the cross product of far - p with far - near. */
  lemma SlopeIsCross(l: Line, p: Pos2)
    ensures l.RelativeSlope(p) == Cross(Sub(l.far, p), Sub(l.far, l.near))
  {
  }

  /** Every point is on exactly one side of a line or on it, and the
      inclusive tests are the unions of the strict ones with the line. */
  lemma LineTrichotomy(l: Line, p: Pos2)
    ensures (if l.IsBelow(p) then 1 else 0) + (if l.Contains(p) then 1 else 0) + (if l.IsAbove(p) then 1 else 0) == 1
    ensures l.IsBelowOrHas(p) == (l.IsBelow(p) || l.Contains(p))
    ensures l.IsAboveOrHas(p) == (l.IsAbove(p) || l.Contains(p))
  {
  }

  // ----- Bumps -----

  /** A corner a line was moved onto, linked to the bump made before it on
      the same side of the same field. A bump list is modelled as an
      append-only arena and a link as an index into it. */
  datatype Bump = Bump(loc: Pos2, parent: Option<nat>)

  /** A bump list: every link points to an earlier bump, so chains end. */
  ghost predicate Arena(bs: seq<Bump>) {
    forall i :: 0 <= i < |bs| && bs[i].parent.Some? ==> bs[i].parent.value < i
  }

  /** h is null or a bump of bs. */
  predicate HeadIn(bs: seq<Bump>, h: Option<nat>) {
    h.None? || h.value < |bs|
  }

  function Rank(h: Option<nat>): nat {
    if h.None? then 0 else h.value + 1
  }

  /** The locations along the chain that starts at h. */
  ghost function ChainLocs(bs: seq<Bump>, h: Option<nat>): seq<Pos2>
    requires Arena(bs) && HeadIn(bs, h)
    decreases Rank(h)
  {
    if h.None? then [] else [bs[h.value].loc] + ChainLocs(bs, bs[h.value].parent)
  }

  /** A view region: the steep and the shallow bounding lines, with the
      heads of their bump chains. */
  datatype Field = Field(steep: Line, shallow: Line, steepBump: Option<nat>, shallowBump: Option<nat>)

  /** For the shallow line, a bump above it pulls its near end; for the
      steep line, a bump below it. */
  predicate Pulls(line: Line, loc: Pos2, shallow: bool) {
    if shallow then line.IsAbove(loc) else line.IsBelow(loc)
  }

  /** The line after walking the chain at h, moving the near end onto each
      bump that pulls the line as it stands at that point. */
  function Rescan(line: Line, bs: seq<Bump>, h: Option<nat>, shallow: bool): Line
    requires Arena(bs) && HeadIn(bs, h)
    decreases Rank(h)
  {
    if h.None? then line
    else
      var b := bs[h.value];
      Rescan(if Pulls(line, b.loc, shallow) then line.(near := b.loc) else line, bs, b.parent, shallow)
  }

  /** A rescan keeps the far end, and leaves the near end where it was or
      on one of the chain's bumps. */
  lemma {:induction false} RescanEnds(line: Line, bs: seq<Bump>, h: Option<nat>, shallow: bool)
    requires Arena(bs) && HeadIn(bs, h)
    ensures var r := Rescan(line, bs, h, shallow);
      r.far == line.far && (r.near == line.near || r.near in ChainLocs(bs, h))
    decreases Rank(h)
  {
    if h.Some? {
      var b := bs[h.value];
      var l2 := if Pulls(line, b.loc, shallow) then line.(near := b.loc) else line;
      RescanEnds(l2, bs, b.parent, shallow);
    }
  }

  /** Appending a bump whose link is null or into the arena keeps it an arena. */
  lemma ArenaAppend(bs: seq<Bump>, b: Bump)
    requires Arena(bs) && HeadIn(bs, b.parent)
    ensures Arena(bs + [b]) && HeadIn(bs + [b], Some(|bs|))
  {
  }

  /** The field with its shallow line's far end moved to pos, the chain
      head set to the new bump (number n of the shallow list), and the
      steep chain walked to move the near end onto steep bumps above it. */
  function ShallowBumped(pos: Pos2, f: Field, steepBumps: seq<Bump>, n: nat): Field
    requires Arena(steepBumps) && HeadIn(steepBumps, f.steepBump)
  {
    f.(shallow := Rescan(f.shallow.(far := pos), steepBumps, f.steepBump, true), shallowBump := Some(n))
  }

  /** The mirror image for the steep line. */
  function SteepBumped(pos: Pos2, f: Field, shallowBumps: seq<Bump>, n: nat): Field
    requires Arena(shallowBumps) && HeadIn(shallowBumps, f.shallowBump)
  {
    f.(steep := Rescan(f.steep.(far := pos), shallowBumps, f.shallowBump, false), steepBump := Some(n))
  }

  /** add_shallow_bump: the shallow line's far end moves to pos, a bump at pos
      is pushed onto the shallow chain, and the steep chain is walked to
      move the shallow line's near end onto steep bumps above it. */
  method AddShallowBump(pos: Pos2, f: Field, bumps: seq<Bump>, steepBumps: seq<Bump>)
    returns (f2: Field, bumps2: seq<Bump>)
    requires Arena(bumps) && HeadIn(bumps, f.shallowBump)
    requires Arena(steepBumps) && HeadIn(steepBumps, f.steepBump)
    ensures bumps2 == bumps + [Bump(pos, f.shallowBump)] && Arena(bumps2)
    ensures f2 == ShallowBumped(pos, f, steepBumps, |bumps|)
    ensures f2.steep == f.steep && f2.steepBump == f.steepBump && f2.shallow.far == pos
    ensures f2.shallow.near == f.shallow.near || f2.shallow.near in ChainLocs(steepBumps, f.steepBump)
  {
    var line := f.shallow.(far := pos);
    bumps2 := bumps + [Bump(pos, f.shallowBump)];
    ArenaAppend(bumps, Bump(pos, f.shallowBump));
    var h := f.steepBump;
    while h.Some?
      invariant HeadIn(steepBumps, h)
      invariant Rescan(line, steepBumps, h, true) == Rescan(f.shallow.(far := pos), steepBumps, f.steepBump, true)
      decreases Rank(h)
    {
      var b := steepBumps[h.value];
      if line.IsAbove(b.loc) {
        line := line.(near := b.loc);
      }
      h := b.parent;
    }
    f2 := f.(shallow := line, shallowBump := Some(|bumps|));
    RescanEnds(f.shallow.(far := pos), steepBumps, f.steepBump, true);
  }

  /** add_steep_bump, the mirror image: the steep line's far end moves to
      pos, and the shallow chain is walked to move its near end onto
      shallow bumps below it. */
  method AddSteepBump(pos: Pos2, f: Field, bumps: seq<Bump>, shallowBumps: seq<Bump>)
    returns (f2: Field, bumps2: seq<Bump>)
    requires Arena(bumps) && HeadIn(bumps, f.steepBump)
    requires Arena(shallowBumps) && HeadIn(shallowBumps, f.shallowBump)
    ensures bumps2 == bumps + [Bump(pos, f.steepBump)] && Arena(bumps2)
    ensures f2 == SteepBumped(pos, f, shallowBumps, |bumps|)
    ensures f2.shallow == f.shallow && f2.shallowBump == f.shallowBump && f2.steep.far == pos
    ensures f2.steep.near == f.steep.near || f2.steep.near in ChainLocs(shallowBumps, f.shallowBump)
  {
    var line := f.steep.(far := pos);
    bumps2 := bumps + [Bump(pos, f.steepBump)];
    ArenaAppend(bumps, Bump(pos, f.steepBump));
    var h := f.shallowBump;
    while h.Some?
      invariant HeadIn(shallowBumps, h)
      invariant Rescan(line, shallowBumps, h, false) == Rescan(f.steep.(far := pos), shallowBumps, f.shallowBump, false)
      decreases Rank(h)
    {
      var b := shallowBumps[h.value];
      if line.IsBelow(b.loc) {
        line := line.(near := b.loc);
      }
      h := b.parent;
    }
    f2 := f.(steep := line, steepBump := Some(|bumps|));
    RescanEnds(f.steep.(far := pos), shallowBumps, f.shallowBump, false);
  }

  /** A field has closed up: its shallow line runs through both ends of its
      steep line and through one of the two corners next to the origin. */
  predicate Collapsed(f: Field) {
    f.shallow.Contains(f.steep.near) && f.shallow.Contains(f.steep.far)
    && (f.shallow.Contains(Pos2(0, 1)) || f.shallow.Contains(Pos2(1, 0)))
  }

  /** check_field: erases the field at cur exactly when it has collapsed;
      the returned position is cur either way (after an erase it names the
      next field). */
  method CheckField(fields: seq<Field>, cur: nat) returns (fields2: seq<Field>, cur2: nat)
    requires cur < |fields|
    ensures cur2 == cur
    ensures Collapsed(fields[cur]) ==> fields2 == fields[..cur] + fields[cur + 1..]
    ensures !Collapsed(fields[cur]) ==> fields2 == fields
    ensures |fields2| < |fields| <==> Collapsed(fields[cur])
  {
    cur2 := cur;
    if Collapsed(fields[cur]) {
      fields2 := fields[..cur] + fields[cur + 1..];
    } else {
      fields2 := fields;
    }
  }

  // ----- The sweep state -----

  /** The state a sweep carries from square to square: the active fields,
      the position of the current field, and the two bump lists. */
  datatype SweepState = SweepState(fields: seq<Field>, cur: nat, steep: seq<Bump>, shallow: seq<Bump>)

  /** Every field's chain heads are null or bumps of the two arenas. */
  ghost predicate FieldsIn(fields: seq<Field>, steep: seq<Bump>, shallow: seq<Bump>) {
    forall k :: 0 <= k < |fields| ==> HeadIn(steep, fields[k].steepBump) && HeadIn(shallow, fields[k].shallowBump)
  }

  /** The bookkeeping of a sweep: both bump lists are arenas holding every
      field's chains, and the current field is one of the list or its end. */
  ghost predicate SweepInv(fields: seq<Field>, cur: nat, steep: seq<Bump>, shallow: seq<Bump>) {
    Arena(steep) && Arena(shallow) && FieldsIn(fields, steep, shallow) && cur <= |fields|
  }

  ghost predicate Good(s: SweepState) {
    SweepInv(s.fields, s.cur, s.steep, s.shallow)
  }

  /** Heads into an arena stay heads into any extension of it. */
  lemma FieldsGrow(fields: seq<Field>, steep: seq<Bump>, shallow: seq<Bump>, steep2: seq<Bump>, shallow2: seq<Bump>)
    requires FieldsIn(fields, steep, shallow) && |steep| <= |steep2| && |shallow| <= |shallow2|
    ensures FieldsIn(fields, steep2, shallow2)
  {
  }

  /** fields2 is fields with the field at c replaced by none, one or two
      fields: the fields before c and after it are kept in order. */
  ghost predicate Spliced(fields: seq<Field>, c: nat, fields2: seq<Field>) {
    c < |fields| && |fields| - 1 <= |fields2| <= |fields| + 1
    && fields2[..c] == fields[..c]
    && fields2[c + |fields2| - |fields| + 1..] == fields[c + 1..]
  }

  /** The field list with the field at c replaced by the fields of mid. */
  function Splice(fields: seq<Field>, c: nat, mid: seq<Field>): seq<Field>
    requires c < |fields|
  {
    fields[..c] + mid + fields[c + 1..]
  }

  /** Replacing a field by at most two fields whose heads are in the arenas
      keeps every head in the arenas and keeps the other fields in order. */
  lemma SpliceKeeps(fields: seq<Field>, c: nat, mid: seq<Field>, steep: seq<Bump>, shallow: seq<Bump>)
    requires c < |fields| && |mid| <= 2
    requires FieldsIn(fields, steep, shallow) && FieldsIn(mid, steep, shallow)
    ensures FieldsIn(Splice(fields, c, mid), steep, shallow) && Spliced(fields, c, Splice(fields, c, mid))
  {
    var r := Splice(fields, c, mid);
    forall k | 0 <= k < |r|
      ensures HeadIn(steep, r[k].steepBump) && HeadIn(shallow, r[k].shallowBump)
    {
      if k < c {
        assert r[k] == fields[k];
      } else if k < c + |mid| {
        assert r[k] == mid[k - c];
      } else {
        assert r[k] == fields[k - |mid| + 1];
      }
    }
    assert r[..c] == fields[..c];
    assert r[c + |mid|..] == fields[c + 1..];
  }

  /** A field that has not collapsed, or nothing: what check_field leaves. */
  function Kept(f: Field): (r: seq<Field>)
    ensures |r| <= 1 && (r == [] <==> Collapsed(f))
  {
    if Collapsed(f) then [] else [f]
  }

  /** The shallow side of the current field is bumped at tl and the field
      is then checked for collapse; the position stays. */
  function ShallowSide(tl: Pos2, s: SweepState): SweepState
    requires Good(s) && s.cur < |s.fields|
  {
    var f := s.fields[s.cur];
    s.(fields := Splice(s.fields, s.cur, Kept(ShallowBumped(tl, f, s.steep, |s.shallow|))),
       shallow := s.shallow + [Bump(tl, f.shallowBump)])
  }

  /** The steep side of the current field is bumped at br; no check follows. */
  function SteepSide(br: Pos2, s: SweepState): SweepState
    requires Good(s) && s.cur < |s.fields|
  {
    var f := s.fields[s.cur];
    s.(fields := Splice(s.fields, s.cur, [SteepBumped(br, f, s.shallow, |s.steep|)]),
       steep := s.steep + [Bump(br, f.steepBump)])
  }

  /** The current field is split: a copy placed before it, the shallower
      part, gets the steep bump at br; the original, the steeper part, gets
      the shallow bump at tl. Each is erased if it has collapsed, and the
      position names the original or what follows it. */
  function SplitState(tl: Pos2, br: Pos2, s: SweepState): SweepState
    requires Good(s) && s.cur < |s.fields|
  {
    var f := s.fields[s.cur];
    var steep2 := s.steep + [Bump(br, f.steepBump)];
    ArenaAppend(s.steep, Bump(br, f.steepBump));
    var copy := SteepBumped(br, f, s.shallow, |s.steep|);
    var orig := ShallowBumped(tl, f, steep2, |s.shallow|);
    SweepState(Splice(s.fields, s.cur, Kept(copy) + Kept(orig)), s.cur + |Kept(copy)|,
               steep2, s.shallow + [Bump(tl, f.shallowBump)])
  }

  /** What a blocking square dest does to the current field: erases it when
      the square lies beyond both of its lines, bumps the shallow side when
      it lies beyond that line only, the steep side when it lies beyond that
      one only, and splits the field otherwise. */
  function Resolved(dest: Pos2, s: SweepState): SweepState
    requires Good(s) && s.cur < |s.fields|
  {
    var tl, br := TopLeftOf(dest), BottomRightOf(dest);
    var f := s.fields[s.cur];
    if f.shallow.IsAbove(br) && f.steep.IsBelow(tl) then s.(fields := Splice(s.fields, s.cur, []))
    else if f.shallow.IsAbove(br) then ShallowSide(tl, s)
    else if f.steep.IsBelow(tl) then SteepSide(br, s)
    else SplitState(tl, br, s)
  }

  /** Each of the four outcomes keeps the sweep's bookkeeping, only appends
      to the bump lists, changes only the current field and leaves the
      position on it or one past it. */
  lemma ResolvedKeeps(dest: Pos2, s: SweepState)
    requires Good(s) && s.cur < |s.fields|
    ensures var r := Resolved(dest, s);
      Good(r) && s.steep <= r.steep && s.shallow <= r.shallow
      && Spliced(s.fields, s.cur, r.fields) && s.cur <= r.cur <= s.cur + 1
  {
    var tl, br := TopLeftOf(dest), BottomRightOf(dest);
    var f := s.fields[s.cur];
    var r := Resolved(dest, s);
    assert HeadIn(s.steep, f.steepBump) && HeadIn(s.shallow, f.shallowBump);
    FieldsGrow(s.fields, s.steep, s.shallow, r.steep, r.shallow);
    if f.shallow.IsAbove(br) && f.steep.IsBelow(tl) {
      SpliceKeeps(s.fields, s.cur, [], r.steep, r.shallow);
    } else if f.shallow.IsAbove(br) {
      ArenaAppend(s.shallow, Bump(tl, f.shallowBump));
      SpliceKeeps(s.fields, s.cur, Kept(ShallowBumped(tl, f, s.steep, |s.shallow|)), r.steep, r.shallow);
    } else if f.steep.IsBelow(tl) {
      ArenaAppend(s.steep, Bump(br, f.steepBump));
      SpliceKeeps(s.fields, s.cur, [SteepBumped(br, f, s.shallow, |s.steep|)], r.steep, r.shallow);
    } else {
      ArenaAppend(s.steep, Bump(br, f.steepBump));
      ArenaAppend(s.shallow, Bump(tl, f.shallowBump));
      var copy := SteepBumped(br, f, s.shallow, |s.steep|);
      var orig := ShallowBumped(tl, f, r.steep, |s.shallow|);
      SpliceKeeps(s.fields, s.cur, Kept(copy) + Kept(orig), r.steep, r.shallow);
    }
  }

  // ----- Visiting a square -----

  /** One quadrant's sweep: the viewer, the quadrant's sign vector, and
      the extent of the sweep. */
  datatype Sweep = Sweep(source: Pos3, quadrant: Pos2, extent: Pos2)

  /** The map position of the quadrant-local position pos. */
  function Adjusted(st: Sweep, pos: Pos2): Pos2 {
    Add(Mul(pos, st.quadrant), Flat(st.source))
  }

  /** The fov grid cell of the quadrant-local position pos, on the viewer's floor. */
  function CellOfSweep(st: Sweep, pos: Pos2): Pos3 {
    Lift(Adjusted(st, pos), st.source.z)
  }

  /** The axis a quadrant leaves to its neighbour: the y axis in the
      quadrants whose signs agree, the x axis in the others. */
  predicate OnSharedAxis(quadrant: Pos2, pos: Pos2) {
    (quadrant.x * quadrant.y == 1 && pos.x == 0 && pos.y != 0)
    || (quadrant.x * quadrant.y == -1 && pos.y == 0 && pos.x != 0)
  }

  /** Some direction from pos back towards the origin is blocked. The
      quadrant-local position itself, not its map position, is looked up. */
  ghost predicate LooksBlocked(m: Map, z: int, pos: Pos2)
    reads m, m.grid
    requires m.TilesValid()
  {
    exists d :: d in Dirs(Neg(pos)) && m.IsBlocked(Lift(pos, z), d)
  }

  /** The quadrant-local positions that look blocked on floor z. */
  ghost function BlockedSquares(m: Map, z: int): iset<Pos2>
    reads m, m.grid
    requires m.TilesValid()
  {
    iset p | LooksBlocked(m, z, p)
  }

  /** act_is_blocked: marks the square visible, unless it lies on the
      shared axis, and tells whether it blocks the view. ok is false when
      the mark falls outside the fov grid, where the program asserts. */
  method ActIsBlocked(m: Map, st: Sweep, grid: Grid<bool>, pos: Pos2) returns (ok: bool, blocked: bool)
    requires m.TilesValid() && grid.Valid()
    modifies grid
    ensures grid.Valid()
    ensures ok == (OnSharedAxis(st.quadrant, pos) || grid.InBounds3(CellOfSweep(st, pos)))
    ensures ok && !OnSharedAxis(st.quadrant, pos) ==> grid.Get(CellOfSweep(st, pos))
    ensures forall q :: q != CellOfSweep(st, pos) ==> grid.Get(q) == old(grid.Get(q))
    ensures OnSharedAxis(st.quadrant, pos) ==> grid.Get(CellOfSweep(st, pos)) == old(grid.Get(CellOfSweep(st, pos)))
    ensures ok ==> (blocked <==> LooksBlocked(m, st.source.z, pos))
  {
    ok, blocked := true, false;
    if !OnSharedAxis(st.quadrant, pos) {
      if !grid.InBounds3(CellOfSweep(st, pos)) {
        ok := false;
        return;
      }
      grid.Set(CellOfSweep(st, pos), true);
    }
    var dirs := Dirs(Neg(pos));
    for k := 0 to |dirs|
      invariant !blocked
      invariant forall i :: 0 <= i < k ==> !m.IsBlocked(Lift(pos, st.source.z), dirs[i])
    {
      if m.IsBlocked(Lift(pos, st.source.z), dirs[k]) {
        blocked := true;
        return;
      }
    }
  }

  /** The first field from c on whose steep line does not pass below or
      through br. */
  function Skip(fields: seq<Field>, c: nat, br: Pos2): (k: nat)
    requires c <= |fields|
    ensures c <= k <= |fields|
    ensures forall i :: c <= i < k ==> fields[i].steep.IsBelowOrHas(br)
    ensures k < |fields| ==> !fields[k].steep.IsBelowOrHas(br)
    decreases |fields| - c
  {
    if c == |fields| || !fields[c].steep.IsBelowOrHas(br) then c else Skip(fields, c + 1, br)
  }

  /** The corners of square dest that the lines are tested against. */
  function TopLeftOf(dest: Pos2): Pos2 {
    Pos2(dest.x, dest.y + 1)
  }

  function BottomRightOf(dest: Pos2): Pos2 {
    Pos2(dest.x + 1, dest.y)
  }

  /** The field at k exists and its shallow line passes below the square's
      top-left corner. */
  predicate Admits(fields: seq<Field>, k: nat, dest: Pos2) {
    k < |fields| && !fields[k].shallow.IsAboveOrHas(TopLeftOf(dest))
  }

  /** Visiting dest from state s marks dest: the field the skip stops at
      admits it and it is off the shared axis. */
  predicate Marks(st: Sweep, s: SweepState, dest: Pos2)
    requires s.cur <= |s.fields|
  {
    Admits(s.fields, Skip(s.fields, s.cur, BottomRightOf(dest)), dest) && !OnSharedAxis(st.quadrant, dest)
  }

  /** The state after visiting dest: the current field moves past the
      fields whose steep line passes below or through the square; a
      blocking square that the field there admits resolves that field. */
  ghost function Visited(blocked: iset<Pos2>, st: Sweep, dest: Pos2, s: SweepState): (r: SweepState)
    requires Good(s)
    ensures Good(r)
  {
    var k := Skip(s.fields, s.cur, BottomRightOf(dest));
    if Admits(s.fields, k, dest) && dest in blocked then
      ResolvedKeeps(dest, s.(cur := k));
      Resolved(dest, s.(cur := k))
    else
      s.(cur := k)
  }

  /** The square grows the shallow side of the field at c: a shallow bump
      at the square's top-left corner, then the collapse check. */
  method BumpShallow(tl: Pos2, fields: seq<Field>, c: nat, steep: seq<Bump>, shallow: seq<Bump>)
    returns (fields2: seq<Field>, cur2: nat, shallow2: seq<Bump>)
    requires SweepInv(fields, c, steep, shallow) && c < |fields|
    ensures SweepState(fields2, cur2, steep, shallow2) == ShallowSide(tl, SweepState(fields, c, steep, shallow))
    ensures SweepInv(fields2, cur2, steep, shallow2) && shallow <= shallow2
    ensures Spliced(fields, c, fields2) && |fields2| <= |fields| && cur2 == c
  {
    var f2;
    f2, shallow2 := AddShallowBump(tl, fields[c], shallow, steep);
    var fs := fields[c := f2];
    fields2, cur2 := CheckField(fs, c);
    assert fs[..c] == fields[..c] && fs[c + 1..] == fields[c + 1..];
    assert fields2 == Splice(fields, c, Kept(f2));
    ghost var s := SweepState(fields, c, steep, shallow);
    ShallowSideKeeps(tl, s);
  }

  /** The shallow side keeps the bookkeeping and splices only the current field. */
  lemma ShallowSideKeeps(tl: Pos2, s: SweepState)
    requires Good(s) && s.cur < |s.fields|
    ensures var r := ShallowSide(tl, s);
      Good(r) && s.shallow <= r.shallow && Spliced(s.fields, s.cur, r.fields) && r.cur == s.cur
  {
    var f := s.fields[s.cur];
    var r := ShallowSide(tl, s);
    assert HeadIn(s.steep, f.steepBump) && HeadIn(s.shallow, f.shallowBump);
    FieldsGrow(s.fields, s.steep, s.shallow, r.steep, r.shallow);
    ArenaAppend(s.shallow, Bump(tl, f.shallowBump));
    SpliceKeeps(s.fields, s.cur, Kept(ShallowBumped(tl, f, s.steep, |s.shallow|)), r.steep, r.shallow);
  }

  /** The square lies inside the field at c: a copy of the field, the
      shallower part, is inserted before it and gets a steep bump at the
      square's bottom-right corner; the original, the steeper part, gets
      a shallow bump at its top-left corner. Each is then checked for
      collapse; the check of the copy only matters for its erase. */
  method Split(tl: Pos2, br: Pos2, fields: seq<Field>, c: nat, steep: seq<Bump>, shallow: seq<Bump>)
    returns (fields2: seq<Field>, cur2: nat, steep2: seq<Bump>, shallow2: seq<Bump>)
    requires SweepInv(fields, c, steep, shallow) && c < |fields|
    ensures SweepState(fields2, cur2, steep2, shallow2) == SplitState(tl, br, SweepState(fields, c, steep, shallow))
    ensures SweepInv(fields2, cur2, steep2, shallow2) && steep <= steep2 && shallow <= shallow2
    ensures Spliced(fields, c, fields2) && c <= cur2 <= c + 1
  {
    var f := fields[c];
    var copy;
    copy, steep2 := AddSteepBump(br, f, steep, shallow);
    FieldsGrow(fields, steep, shallow, steep2, shallow);
    var fs := fields[..c] + [copy] + fields[c..];
    InsertKeeps(fields, c, copy, steep2, shallow);
    var fs1, _ := CheckField(fs, c);
    var k := c + 1;
    if |fs1| < |fs| {
      k := c;
      assert fs1 == fields;
    }
    assert fs1 == fields[..c] + Kept(copy) + fields[c..];
    fields2, cur2, shallow2 := BumpShallow(tl, fs1, k, steep2, shallow);
    SplitSplices(fields, c, Kept(copy), Kept(ShallowBumped(tl, f, steep2, |shallow|)), fs1, k);
    ResolvedSplitKeeps(tl, br, SweepState(fields, c, steep, shallow));
  }

  /** Inserting a field whose heads are in the arenas before the field at c
      keeps every head in the arenas and moves that field to c + 1. */
  lemma InsertKeeps(fields: seq<Field>, c: nat, copy: Field, steep: seq<Bump>, shallow: seq<Bump>)
    requires c < |fields| && FieldsIn(fields, steep, shallow)
    requires HeadIn(steep, copy.steepBump) && HeadIn(shallow, copy.shallowBump)
    ensures var fs := fields[..c] + [copy] + fields[c..];
      FieldsIn(fs, steep, shallow) && fs[c + 1] == fields[c]
  {
    var fs := fields[..c] + [copy] + fields[c..];
    forall k | 0 <= k < |fs|
      ensures HeadIn(steep, fs[k].steepBump) && HeadIn(shallow, fs[k].shallowBump)
    {
      if k < c {
        assert fs[k] == fields[k];
      } else if k > c {
        assert fs[k] == fields[k - 1];
      }
    }
  }

  /** Replacing the field at k of fields with copy inserted before c (k is
      c plus the length of that insertion) splices both into fields at c. */
  lemma SplitSplices(fields: seq<Field>, c: nat, copy: seq<Field>, orig: seq<Field>, fs: seq<Field>, k: nat)
    requires c < |fields| && fs == fields[..c] + copy + fields[c..] && k == c + |copy|
    ensures k < |fs| && fs[..k] + orig + fs[k + 1..] == Splice(fields, c, copy + orig)
  {
    assert fs[..k] == fields[..c] + copy;
    assert fs[k + 1..] == fields[c + 1..];
  }

  /** The split keeps the bookkeeping and splices only the current field. */
  lemma ResolvedSplitKeeps(tl: Pos2, br: Pos2, s: SweepState)
    requires Good(s) && s.cur < |s.fields|
    ensures var r := SplitState(tl, br, s);
      Good(r) && s.steep <= r.steep && s.shallow <= r.shallow
      && Spliced(s.fields, s.cur, r.fields) && s.cur <= r.cur <= s.cur + 1
  {
    var f := s.fields[s.cur];
    var r := SplitState(tl, br, s);
    assert HeadIn(s.steep, f.steepBump) && HeadIn(s.shallow, f.shallowBump);
    FieldsGrow(s.fields, s.steep, s.shallow, r.steep, r.shallow);
    ArenaAppend(s.steep, Bump(br, f.steepBump));
    ArenaAppend(s.shallow, Bump(tl, f.shallowBump));
    var copy := SteepBumped(br, f, s.shallow, |s.steep|);
    var orig := ShallowBumped(tl, f, r.steep, |s.shallow|);
    SpliceKeeps(s.fields, s.cur, Kept(copy) + Kept(orig), r.steep, r.shallow);
  }

  /** What a blocking square does to the field at c (resolve's four
      branches of visit_square). */
  method Resolve(dest: Pos2, fields: seq<Field>, c: nat, steep: seq<Bump>, shallow: seq<Bump>)
    returns (fields2: seq<Field>, cur2: nat, steep2: seq<Bump>, shallow2: seq<Bump>)
    requires SweepInv(fields, c, steep, shallow) && c < |fields|
    ensures SweepState(fields2, cur2, steep2, shallow2) == Resolved(dest, SweepState(fields, c, steep, shallow))
    ensures SweepInv(fields2, cur2, steep2, shallow2) && steep <= steep2 && shallow <= shallow2
    ensures Spliced(fields, c, fields2) && c <= cur2 <= c + 1
  {
    var tl, br := TopLeftOf(dest), BottomRightOf(dest);
    var f := fields[c];
    steep2, shallow2, cur2 := steep, shallow, c;
    if f.shallow.IsAbove(br) && f.steep.IsBelow(tl) {
      fields2 := fields[..c] + fields[c + 1..];
    } else if f.shallow.IsAbove(br) {
      fields2, cur2, shallow2 := BumpShallow(tl, fields, c, steep, shallow);
    } else if f.steep.IsBelow(tl) {
      var f2;
      f2, steep2 := AddSteepBump(br, f, steep, shallow);
      fields2 := fields[c := f2];
      assert fields2 == Splice(fields, c, [f2]);
    } else {
      fields2, cur2, steep2, shallow2 := Split(tl, br, fields, c, steep, shallow);
    }
    ResolvedKeeps(dest, SweepState(fields, c, steep, shallow));
  }

  /** visit_square: moves the current field past those whose steep line
      passes below or through the square; stops if none is left or the
      square lies above the shallow line; otherwise marks the square, and
      when it blocks, narrows, splits or erases the field. The field list
      is the sweep's own list (the program passes a copy, whose end the
      iterator is then compared with). ok is false when the mark falls
      outside the fov grid. */
  method VisitSquare(m: Map, st: Sweep, grid: Grid<bool>, dest: Pos2,
                     fields: seq<Field>, cur: nat, steep: seq<Bump>, shallow: seq<Bump>)
    returns (ok: bool, fields2: seq<Field>, cur2: nat, steep2: seq<Bump>, shallow2: seq<Bump>)
    requires m.TilesValid() && grid.Valid() && SweepInv(fields, cur, steep, shallow)
    modifies grid
    ensures grid.Valid()
    ensures ok == (!Marks(st, SweepState(fields, cur, steep, shallow), dest) || grid.InBounds3(CellOfSweep(st, dest)))
    ensures ok ==> SweepState(fields2, cur2, steep2, shallow2) == Visited(BlockedSquares(m, st.source.z), st, dest, SweepState(fields, cur, steep, shallow))
    ensures ok && Marks(st, SweepState(fields, cur, steep, shallow), dest) ==> grid.Get(CellOfSweep(st, dest))
    ensures forall q :: grid.Get(q) != old(grid.Get(q)) ==>
      q == CellOfSweep(st, dest) && grid.Get(q) && Marks(st, SweepState(fields, cur, steep, shallow), dest)
  {
    var tl, br := TopLeftOf(dest), BottomRightOf(dest);
    var c := cur;
    while c < |fields| && fields[c].steep.IsBelowOrHas(br)
      invariant cur <= c <= |fields|
      invariant Skip(fields, c, br) == Skip(fields, cur, br)
      decreases |fields| - c
    {
      c := c + 1;
    }
    ok, fields2, cur2, steep2, shallow2 := true, fields, c, steep, shallow;
    if c == |fields| {
      return;
    }
    if fields[c].shallow.IsAboveOrHas(tl) {
      return;
    }
    var blocked;
    ok, blocked := ActIsBlocked(m, st, grid, dest);
    if !ok || !blocked {
      return;
    }
    fields2, cur2, steep2, shallow2 := Resolve(dest, fields, c, steep, shallow);
  }

  /** A square the field at the skip does not admit only moves the
      current field. */
  lemma VisitedPasses(blocked: iset<Pos2>, st: Sweep, dest: Pos2, s: SweepState)
    requires Good(s)
    requires !Admits(s.fields, Skip(s.fields, s.cur, BottomRightOf(dest)), dest) || dest !in blocked
    ensures Visited(blocked, st, dest, s) == s.(cur := Skip(s.fields, s.cur, BottomRightOf(dest)))
  {
  }

  /** A blocking square the field at the skip admits resolves that field. */
  lemma VisitedBlocks(blocked: iset<Pos2>, st: Sweep, dest: Pos2, s: SweepState)
    requires Good(s)
    requires Admits(s.fields, Skip(s.fields, s.cur, BottomRightOf(dest)), dest) && dest in blocked
    ensures Visited(blocked, st, dest, s) == Resolved(dest, s.(cur := Skip(s.fields, s.cur, BottomRightOf(dest))))
  {
  }

  /** What visiting a square does, as the rings below use it: the state
      after the visit, and whether the square was marked. The rings are
      defined for any such step. */
  type Visit = (Pos2, SweepState) -> (SweepState, bool)

  /** A step that visits and marks as Visited and Marks do, given the
      squares that look blocked. */
  ghost function VisitOf(blocked: iset<Pos2>, st: Sweep): Visit {
    (dest: Pos2, s: SweepState) => if Good(s) then (Visited(blocked, st, dest, s), Marks(st, s, dest)) else (s, false)
  }

  /** visit never marks a square on the axis the quadrant leaves to its
      neighbour. */
  ghost predicate MarksOffAxis(visit: Visit, st: Sweep) {
    forall dest, s :: visit(dest, s).1 ==> !OnSharedAxis(st.quadrant, dest)
  }

  /** visit steps and marks a state with the invariant as Visited and Marks do. */
  ghost predicate StepsAs(visit: Visit, blocked: iset<Pos2>, st: Sweep) {
    forall dest, s {:trigger Visited(blocked, st, dest, s)} :: Good(s) ==>
      visit(dest, s) == (Visited(blocked, st, dest, s), Marks(st, s, dest))
  }

  /** The step of a sweep over the given blocked squares: a step that
      agrees with Visited on every state with the invariant, which are
      the only states a sweep reaches. Only that agreement is known about
      it, so a proof about a sweep unfolds a visit only where it needs to. */
  ghost function StepOf(blocked: iset<Pos2>, st: Sweep): (visit: Visit)
    ensures StepsAs(visit, blocked, st) && MarksOffAxis(visit, st)
  {
    assert StepsAs(VisitOf(blocked, st), blocked, st) && MarksOffAxis(VisitOf(blocked, st), st);
    var visit :| StepsAs(visit, blocked, st) && MarksOffAxis(visit, st); visit
  }

  /** A step as Visited and Marks, at one square and state. */
  lemma StepAt(visit: Visit, blocked: iset<Pos2>, st: Sweep, dest: Pos2, s: SweepState)
    requires StepsAs(visit, blocked, st) && Good(s)
    ensures visit(dest, s) == (Visited(blocked, st, dest, s), Marks(st, s, dest))
  {
  }

  // ----- Sweeping a ring -----

  /** Ring i holds the squares (i - j, j) for j from RingStart to RingEnd. */
  function RingStart(st: Sweep, i: int): int {
    MaxInt(0, i - st.extent.x)
  }

  function RingEnd(st: Sweep, i: int): int {
    MinInt(i, st.extent.y)
  }

  /** The state before row j of ring i is visited, the ring having started
      from s: each earlier square of the ring is visited while a current
      field is left. */
  ghost function RingBefore(visit: Visit, st: Sweep, i: int, j: int, s: SweepState): (r: SweepState)
    decreases j - RingStart(st, i)
  {
    if j <= RingStart(st, i) then s
    else
      var p := RingBefore(visit, st, i, j - 1, s);
      if j - 1 <= RingEnd(st, i) && p.cur < |p.fields| then visit(Pos2(i - (j - 1), j - 1), p).0 else p
  }

  /** Square (i - j, j) of ring i is visited and marked. */
  ghost predicate MarkedAt(visit: Visit, st: Sweep, i: int, j: int, s: SweepState)
  {
    var p := RingBefore(visit, st, i, j, s);
    RingStart(st, i) <= j <= RingEnd(st, i) && p.cur < |p.fields| && visit(Pos2(i - j, j), p).1
  }

  /** The squares of ring i above row j that are marked. */
  ghost function RingMarksBefore(visit: Visit, st: Sweep, i: int, j: int, s: SweepState): set<Pos2>
    decreases j - RingStart(st, i)
  {
    if j <= RingStart(st, i) then {}
    else
      RingMarksBefore(visit, st, i, j - 1, s)
      + if MarkedAt(visit, st, i, j - 1, s) then {Pos2(i - (j - 1), j - 1)} else {}
  }

  /** The state after ring i, and the squares it marks. */
  ghost function Ring(visit: Visit, st: Sweep, i: int, s: SweepState): SweepState
  {
    RingBefore(visit, st, i, RingEnd(st, i) + 1, s)
  }

  ghost function RingMarked(visit: Visit, st: Sweep, i: int, s: SweepState): set<Pos2>
  {
    RingMarksBefore(visit, st, i, RingEnd(st, i) + 1, s)
  }

  /** A square a ring marks is not on the quadrant's shared axis, when
      its step never marks one there. */
  lemma RingMarkedOffAxis(visit: Visit, st: Sweep, i: int, s: SweepState, d: Pos2)
    requires MarksOffAxis(visit, st) && d in RingMarked(visit, st, i, s)
    ensures !OnSharedAxis(st.quadrant, d)
  {
    RingMarksIn(visit, st, i, RingEnd(st, i) + 1, s, d);
    assert visit(Pos2(i - d.y, d.y), RingBefore(visit, st, i, d.y, s)).1;
  }

  /** Once the ring has passed its end or run out of fields, nothing
      further is visited or marked. */
  lemma {:induction false} RingStalled(visit: Visit, st: Sweep, i: int, j: int, k: int, s: SweepState)
    requires RingStart(st, i) <= j <= k
    requires j > RingEnd(st, i) || RingBefore(visit, st, i, j, s).cur >= |RingBefore(visit, st, i, j, s).fields|
    ensures RingBefore(visit, st, i, k, s) == RingBefore(visit, st, i, j, s)
    ensures RingMarksBefore(visit, st, i, k, s) == RingMarksBefore(visit, st, i, j, s)
    decreases k - j
  {
    if k > j {
      RingStalled(visit, st, i, j, k - 1, s);
    }
  }

  /** The marked squares only grow along a ring. */
  lemma {:induction false} RingMarksGrow(visit: Visit, st: Sweep, i: int, j: int, k: int, s: SweepState)
    requires j <= k
    ensures RingMarksBefore(visit, st, i, j, s) <= RingMarksBefore(visit, st, i, k, s)
    decreases k - j
  {
    if k > j {
      RingMarksGrow(visit, st, i, j, k - 1, s);
    }
  }

  /** A marked square of ring i above row j lies on the ring, in a row
      visited before j, on the quadrant's side of the origin, and its row
      marks it. */
  lemma {:induction false} RingMarksIn(visit: Visit, st: Sweep, i: int, j: int, s: SweepState, d: Pos2)
    requires d in RingMarksBefore(visit, st, i, j, s)
    ensures d.x + d.y == i && RingStart(st, i) <= d.y < j && d.y <= RingEnd(st, i)
    ensures d.x >= 0 && MarkedAt(visit, st, i, d.y, s)
    decreases j - RingStart(st, i)
  {
    if d !in RingMarksBefore(visit, st, i, j - 1, s) {
      assert MarkedAt(visit, st, i, j - 1, s) && d == Pos2(i - (j - 1), j - 1);
    } else {
      RingMarksIn(visit, st, i, j - 1, s, d);
    }
  }

  /** A square its row marks is among the ring's marked squares. */
  lemma RingMarkedAt(visit: Visit, st: Sweep, i: int, j: int, s: SweepState)
    requires MarkedAt(visit, st, i, j, s)
    ensures Pos2(i - j, j) in RingMarked(visit, st, i, s)
  {
    assert Pos2(i - j, j) in RingMarksBefore(visit, st, i, j + 1, s);
    RingMarksGrow(visit, st, i, j + 1, RingEnd(st, i) + 1, s);
  }

  /** Visiting row j of ring i: the state is stepped by the visit, and the
      row's square is marked when the state before it marks it. */
  lemma RingNext(visit: Visit, st: Sweep, i: int, j: int, s: SweepState)
    requires RingStart(st, i) <= j <= RingEnd(st, i)
    requires RingBefore(visit, st, i, j, s).cur < |RingBefore(visit, st, i, j, s).fields|
    ensures RingBefore(visit, st, i, j + 1, s) == visit(Pos2(i - j, j), RingBefore(visit, st, i, j, s)).0
    ensures RingMarksBefore(visit, st, i, j + 1, s) == RingMarksBefore(visit, st, i, j, s)
      + if visit(Pos2(i - j, j), RingBefore(visit, st, i, j, s)).1 then {Pos2(i - j, j)} else {}
    ensures RingMarksBefore(visit, st, i, j + 1, s) <= RingMarked(visit, st, i, s)
  {
    RingMarksGrow(visit, st, i, j + 1, RingEnd(st, i) + 1, s);
  }

  /** The cells of the marked squares are in the fov grid and set. */
  ghost predicate Shows(grid: Grid<bool>, st: Sweep, marks: set<Pos2>)
    reads grid
    requires grid.Valid()
  {
    forall d :: d in marks ==> grid.InBounds3(CellOfSweep(st, d)) && grid.Get(CellOfSweep(st, d))
  }

  /** The fov grid differs from the columns base only in set cells of
      marked squares. */
  ghost predicate SetSince(grid: Grid<bool>, base: seq<seq<bool>>, st: Sweep, marks: set<Pos2>)
    reads grid
    requires grid.Valid()
  {
    forall q :: grid.Get(q) != Lookup(base, grid.size, grid.offset, grid.def, q) ==>
      grid.Get(q) && exists d :: d in marks && q == CellOfSweep(st, d)
  }

  lemma SetSinceGrows(grid: Grid<bool>, base: seq<seq<bool>>, st: Sweep, marks: set<Pos2>, more: set<Pos2>)
    requires grid.Valid() && marks <= more && SetSince(grid, base, st, marks)
    ensures SetSince(grid, base, st, more)
  {
    forall q | grid.Get(q) != Lookup(base, grid.size, grid.offset, grid.def, q)
      ensures exists d :: d in more && q == CellOfSweep(st, d)
    {
      var d :| d in marks && q == CellOfSweep(st, d);
    }
  }

  /** Ring i has been swept up to row j from s0, reaching s: the cells of
      the squares marked before and by those rows are set, and no others. */
  ghost predicate RingSweptTo(grid: Grid<bool>, base: seq<seq<bool>>, st: Sweep, visit: Visit, i: int, j: int,
                              marks: set<Pos2>, s0: SweepState, s: SweepState)
    reads grid
    requires grid.Valid()
  {
    Good(s) && s == RingBefore(visit, st, i, j, s0)
    && Shows(grid, st, marks + RingMarksBefore(visit, st, i, j, s0))
    && SetSince(grid, base, st, marks + RingMarksBefore(visit, st, i, j, s0))
  }

  /** Ring i from s0 has a mark outside the grid, and only cells of marked
      squares are set. */
  ghost predicate RingStoppedBy(grid: Grid<bool>, base: seq<seq<bool>>, st: Sweep, visit: Visit, i: int,
                                marks: set<Pos2>, s0: SweepState)
    reads grid
    requires grid.Valid()
  {
    (exists d :: d in RingMarked(visit, st, i, s0) && !grid.InBounds3(CellOfSweep(st, d)))
    && SetSince(grid, base, st, marks + RingMarked(visit, st, i, s0))
  }

  /** Before its first row, a ring has reached its starting state and
      marked nothing. */
  lemma RingBegins(grid: Grid<bool>, base: seq<seq<bool>>, st: Sweep, visit: Visit, i: int, marks: set<Pos2>, s0: SweepState)
    requires grid.Valid() && Good(s0) && Shows(grid, st, marks) && SetSince(grid, base, st, marks)
    ensures RingSweptTo(grid, base, st, visit, i, RingStart(st, i), marks, s0, s0)
  {
    assert marks + RingMarksBefore(visit, st, i, RingStart(st, i), s0) == marks;
  }

  /** A mark of row j outside the grid is a mark of the ring outside it. */
  lemma RingStops(grid: Grid<bool>, base: seq<seq<bool>>, st: Sweep, visit: Visit, i: int, j: int,
                  marks: set<Pos2>, s0: SweepState)
    requires grid.Valid() && j <= RingEnd(st, i) && Pos2(i - j, j) in RingMarksBefore(visit, st, i, j + 1, s0)
    requires !grid.InBounds3(CellOfSweep(st, Pos2(i - j, j)))
    requires SetSince(grid, base, st, marks + RingMarksBefore(visit, st, i, j + 1, s0))
    ensures RingStoppedBy(grid, base, st, visit, i, marks, s0)
  {
    RingMarksGrow(visit, st, i, j + 1, RingEnd(st, i) + 1, s0);
    UnionGrows(marks, RingMarksBefore(visit, st, i, j + 1, s0), RingMarked(visit, st, i, s0));
    SetSinceGrows(grid, base, st, marks + RingMarksBefore(visit, st, i, j + 1, s0), marks + RingMarked(visit, st, i, s0));
  }

  /** A ring run to its end or out of fields at row j has reached its
      final state, and the cells of all its marks are shown; a ring that
      stopped has a mark outside the grid. */
  lemma RingEnds(grid: Grid<bool>, base: seq<seq<bool>>, st: Sweep, visit: Visit, i: int, j: int, ok: bool,
                 marks: set<Pos2>, s0: SweepState, s: SweepState)
    requires grid.Valid() && RingStart(st, i) <= j && (j <= RingEnd(st, i) + 1 || j == RingStart(st, i))
    requires ok ==> RingSweptTo(grid, base, st, visit, i, j, marks, s0, s) && (j > RingEnd(st, i) || s.cur >= |s.fields|)
    requires !ok ==> RingStoppedBy(grid, base, st, visit, i, marks, s0)
    ensures ok ==> Good(s) && s == Ring(visit, st, i, s0)
    ensures ok <==> forall d :: d in RingMarked(visit, st, i, s0) ==> grid.InBounds3(CellOfSweep(st, d))
    ensures ok ==> Shows(grid, st, marks + RingMarked(visit, st, i, s0))
    ensures SetSince(grid, base, st, marks + RingMarked(visit, st, i, s0))
  {
    if ok {
      RingStalled(visit, st, i, j, MaxInt(j, RingEnd(st, i) + 1), s0);
    }
  }

  lemma UnionAssoc(a: set<Pos2>, b: set<Pos2>, c: set<Pos2>)
    ensures a + b + c == a + (b + c)
  {
  }

  lemma UnionGrows(a: set<Pos2>, b: set<Pos2>, c: set<Pos2>)
    requires b <= c
    ensures a + b <= a + c
  {
  }

  /** Square (i - j, j) of ring i, visited by visit_square from the state
      the ring has reached before row j: the state moves on to the ring's
      state after row j, and the square's cell is set when the square is
      marked. ok is false exactly when the square is marked and its cell
      lies outside the grid. */
  method RingSquare(m: Map, st: Sweep, grid: Grid<bool>, i: int, j: int, ghost visit: Visit,
                    ghost base: seq<seq<bool>>, ghost marks: set<Pos2>, ghost s0: SweepState,
                    fields: seq<Field>, cur: nat, steep: seq<Bump>, shallow: seq<Bump>)
    returns (ok: bool, fields2: seq<Field>, cur2: nat, steep2: seq<Bump>, shallow2: seq<Bump>)
    requires m.TilesValid() && grid.Valid() && SweepInv(fields, cur, steep, shallow)
    requires StepsAs(visit, BlockedSquares(m, st.source.z), st)
    requires RingStart(st, i) <= j <= RingEnd(st, i) && cur < |fields|
    requires SweepState(fields, cur, steep, shallow) == RingBefore(visit, st, i, j, s0)
    requires Shows(grid, st, marks + RingMarksBefore(visit, st, i, j, s0))
    requires SetSince(grid, base, st, marks + RingMarksBefore(visit, st, i, j, s0))
    modifies grid
    ensures grid.Valid() && m.TilesValid() && BlockedSquares(m, st.source.z) == old(BlockedSquares(m, st.source.z))
    ensures ok ==> SweepInv(fields2, cur2, steep2, shallow2)
    ensures ok ==> SweepState(fields2, cur2, steep2, shallow2) == RingBefore(visit, st, i, j + 1, s0)
    ensures ok ==> Shows(grid, st, marks + RingMarksBefore(visit, st, i, j + 1, s0))
    ensures !ok ==> Pos2(i - j, j) in RingMarksBefore(visit, st, i, j + 1, s0) && !grid.InBounds3(CellOfSweep(st, Pos2(i - j, j)))
    ensures SetSince(grid, base, st, marks + RingMarksBefore(visit, st, i, j + 1, s0))
  {
    var dest := Pos2(i - j, j);
    ghost var s := SweepState(fields, cur, steep, shallow);
    ghost var added := if Marks(st, s, dest) then {dest} else {};
    RingNext(visit, st, i, j, s0);
    assert visit(dest, s) == (Visited(BlockedSquares(m, st.source.z), st, dest, s), Marks(st, s, dest));
    UnionAssoc(marks, RingMarksBefore(visit, st, i, j, s0), added);
    ghost var mid := grid.cells;
    AsCells(grid, base, st, marks + RingMarksBefore(visit, st, i, j, s0));
    ok, fields2, cur2, steep2, shallow2 := VisitSquare(m, st, grid, dest, fields, cur, steep, shallow);
    assert ok ==> Good(SweepState(fields2, cur2, steep2, shallow2));
    MarkStep(grid, mid, base, st, marks + RingMarksBefore(visit, st, i, j, s0), dest, added);
  }

  /** Shows, read from the columns cells in place of the grid's own. */
  ghost predicate ShownIn(cells: seq<seq<bool>>, grid: Grid<bool>, st: Sweep, marks: set<Pos2>) {
    forall d :: d in marks ==> grid.InBounds3(CellOfSweep(st, d)) && Lookup(cells, grid.size, grid.offset, grid.def, CellOfSweep(st, d))
  }

  /** The cells of the marked squares all lie in the grid. */
  ghost predicate CellsIn(grid: Grid<bool>, st: Sweep, marks: set<Pos2>) {
    forall d :: d in marks ==> grid.InBounds3(CellOfSweep(st, d))
  }

  /** SetSince, read from the columns cells in place of the grid's own. */
  ghost predicate SetIn(cells: seq<seq<bool>>, grid: Grid<bool>, base: seq<seq<bool>>, st: Sweep, marks: set<Pos2>) {
    forall q :: Lookup(cells, grid.size, grid.offset, grid.def, q) != Lookup(base, grid.size, grid.offset, grid.def, q) ==>
      Lookup(cells, grid.size, grid.offset, grid.def, q) && exists d :: d in marks && q == CellOfSweep(st, d)
  }

  lemma AsCells(grid: Grid<bool>, base: seq<seq<bool>>, st: Sweep, marks: set<Pos2>)
    requires grid.Valid() && Shows(grid, st, marks) && SetSince(grid, base, st, marks)
    ensures forall q :: grid.Get(q) == Lookup(grid.cells, grid.size, grid.offset, grid.def, q)
    ensures ShownIn(grid.cells, grid, st, marks) && SetIn(grid.cells, grid, base, st, marks)
  {
    forall q ensures grid.Get(q) == Lookup(grid.cells, grid.size, grid.offset, grid.def, q) {
    }
  }

  /** A step that sets at most the cell of dest, marked when it is in
      added, keeps SetSince for the marks with added, and Shows when the
      cells of added are set. */
  lemma MarkStep(grid: Grid<bool>, mid: seq<seq<bool>>, base: seq<seq<bool>>, st: Sweep, marks: set<Pos2>,
                 dest: Pos2, added: set<Pos2>)
    requires grid.Valid() && SetIn(mid, grid, base, st, marks) && added <= {dest}
    requires forall q :: grid.Get(q) != Lookup(mid, grid.size, grid.offset, grid.def, q) ==>
      q == CellOfSweep(st, dest) && grid.Get(q) && dest in added
    ensures SetSince(grid, base, st, marks + added)
    ensures ShownIn(mid, grid, st, marks) && (forall d :: d in added ==> grid.InBounds3(CellOfSweep(st, d)) && grid.Get(CellOfSweep(st, d))) ==>
      Shows(grid, st, marks + added)
  {
    forall q | grid.Get(q) != Lookup(base, grid.size, grid.offset, grid.def, q)
      ensures grid.Get(q) && exists d :: d in marks + added && q == CellOfSweep(st, d)
    {
      if grid.Get(q) == Lookup(mid, grid.size, grid.offset, grid.def, q) {
        var d :| d in marks && q == CellOfSweep(st, d);
      }
    }
    if ShownIn(mid, grid, st, marks) && forall d :: d in added ==> grid.InBounds3(CellOfSweep(st, d)) && grid.Get(CellOfSweep(st, d)) {
      forall d | d in marks + added
        ensures grid.InBounds3(CellOfSweep(st, d)) && grid.Get(CellOfSweep(st, d))
      {
        if d !in added {
          var q := CellOfSweep(st, d);
          if !grid.Get(q) {
            assert Lookup(mid, grid.size, grid.offset, grid.def, q);
          }
        }
      }
    }
  }

  /** One ring x + y = i of the sweep: the squares (i - j, j) for j from
      max(0, i - extent.x) to min(i, extent.y), while a current field is
      left. It stops exactly when a mark falls outside the grid; otherwise
      the new state is the ring's state and the cells of the ring's marked
      squares are set. Only cells of marked squares are ever set. */
  method SweepRing(m: Map, st: Sweep, grid: Grid<bool>, i: int, ghost visit: Visit,
                   ghost base: seq<seq<bool>>, ghost marks: set<Pos2>,
                   fields: seq<Field>, cur: nat, steep: seq<Bump>, shallow: seq<Bump>)
    returns (ok: bool, fields2: seq<Field>, cur2: nat, steep2: seq<Bump>, shallow2: seq<Bump>)
    requires m.TilesValid() && grid.Valid() && SweepInv(fields, cur, steep, shallow)
    requires StepsAs(visit, BlockedSquares(m, st.source.z), st)
    requires Shows(grid, st, marks) && SetSince(grid, base, st, marks)
    modifies grid
    ensures grid.Valid()
    ensures ok ==> SweepInv(fields2, cur2, steep2, shallow2)
    ensures ok ==> SweepState(fields2, cur2, steep2, shallow2) == Ring(visit, st, i, SweepState(fields, cur, steep, shallow))
    ensures ok <==> forall d :: d in RingMarked(visit, st, i, SweepState(fields, cur, steep, shallow)) ==>
      grid.InBounds3(CellOfSweep(st, d))
    ensures ok ==> Shows(grid, st, marks + RingMarked(visit, st, i, SweepState(fields, cur, steep, shallow)))
    ensures SetSince(grid, base, st, marks + RingMarked(visit, st, i, SweepState(fields, cur, steep, shallow)))
  {
    ghost var s0 := SweepState(fields, cur, steep, shallow);
    ok, fields2, cur2, steep2, shallow2 := true, fields, cur, steep, shallow;
    var j := MaxInt(0, i - st.extent.x);
    var maxJ := MinInt(i, st.extent.y);
    RingBegins(grid, base, st, visit, i, marks, s0);
    while ok && j <= maxJ && cur2 < |fields2|
      invariant grid.Valid() && RingStart(st, i) <= j && (j <= RingEnd(st, i) + 1 || j == RingStart(st, i))
      invariant m.TilesValid() && BlockedSquares(m, st.source.z) == old(BlockedSquares(m, st.source.z))
      invariant ok ==> RingSweptTo(grid, base, st, visit, i, j, marks, s0, SweepState(fields2, cur2, steep2, shallow2))
      invariant !ok ==> RingStoppedBy(grid, base, st, visit, i, marks, s0)
      decreases maxJ + 1 - j
    {
      ok, fields2, cur2, steep2, shallow2 := RingSquare(m, st, grid, i, j, visit, base, marks, s0, fields2, cur2, steep2, shallow2);
      if !ok {
        RingStops(grid, base, st, visit, i, j, marks, s0);
      }
      j := j + 1;
    }
    RingEnds(grid, base, st, visit, i, j, ok, marks, s0, SweepState(fields2, cur2, steep2, shallow2));
  }

  // ----- Sweeping a quadrant -----

  /** The extent of a quadrant's sweep: the viewer's position moved by the
      radius towards the quadrant, one further on the positive axes. The
      program starts from the viewer's absolute position, so the extent is
      not relative to the viewer. */
  function Extent(source: Pos3, quadrant: Pos2, radius: int): Pos2 {
    var e := Add(Flat(source), Scale(quadrant, radius));
    Pos2(if quadrant.x == 1 then e.x + 1 else e.x, if quadrant.y == 1 then e.y + 1 else e.y)
  }

  function QuadrantOf(source: Pos3, quadrant: Pos2, radius: int): Sweep {
    Sweep(source, quadrant, Extent(source, quadrant, radius))
  }

  /** The single field a sweep starts with. */
  function InitialField(extent: Pos2): Field {
    Field(Line(Pos2(1, 0), Pos2(0, extent.y)), Line(Pos2(0, 1), Pos2(extent.x, 0)), None, None)
  }

  function Initial(st: Sweep): (s: SweepState)
    ensures Good(s)
  {
    SweepState([InitialField(st.extent)], 0, [], [])
  }

  /** The state before ring i: each earlier ring is swept while a field is
      left, and the next ring starts from the first field. */
  ghost function SweepBefore(visit: Visit, st: Sweep, i: int): (r: SweepState)
    ensures r.cur == 0
    decreases i
  {
    if i <= 0 then Initial(st)
    else
      var p := SweepBefore(visit, st, i - 1);
      if |p.fields| == 0 then p else Ring(visit, st, i - 1, p).(cur := 0)
  }

  /** The squares the rings before ring i mark. */
  ghost function SweepMarksBefore(visit: Visit, st: Sweep, i: int): set<Pos2>
    decreases i
  {
    if i <= 0 then {}
    else
      var p := SweepBefore(visit, st, i - 1);
      SweepMarksBefore(visit, st, i - 1) + if |p.fields| == 0 then {} else RingMarked(visit, st, i - 1, p)
  }

  /** The squares a quadrant's sweep marks visible: those of the rings
      below extent.x + extent.y. */
  ghost function QuadrantMarks(blocked: iset<Pos2>, source: Pos3, quadrant: Pos2, radius: int): set<Pos2>
  {
    var st := QuadrantOf(source, quadrant, radius);
    SweepMarksBefore(StepOf(blocked, st), st, st.extent.x + st.extent.y)
  }

  /** Sweeping ring i from a state with a field left. */
  lemma SweepNext(visit: Visit, st: Sweep, i: int)
    requires 0 <= i && |SweepBefore(visit, st, i).fields| > 0
    ensures SweepBefore(visit, st, i + 1) == Ring(visit, st, i, SweepBefore(visit, st, i)).(cur := 0)
    ensures SweepMarksBefore(visit, st, i + 1) == SweepMarksBefore(visit, st, i) + RingMarked(visit, st, i, SweepBefore(visit, st, i))
  {
  }

  /** Once no field is left, no later ring changes or marks anything. */
  lemma {:induction false} SweepStalled(visit: Visit, st: Sweep, i: int, k: int)
    requires 0 <= i <= k && |SweepBefore(visit, st, i).fields| == 0
    ensures SweepBefore(visit, st, k) == SweepBefore(visit, st, i)
    ensures SweepMarksBefore(visit, st, k) == SweepMarksBefore(visit, st, i)
    decreases k - i
  {
    if k > i {
      SweepStalled(visit, st, i, k - 1);
    }
  }

  /** The marked squares only grow along a sweep. */
  lemma {:induction false} SweepMarksGrow(visit: Visit, st: Sweep, i: int, k: int)
    requires i <= k
    ensures SweepMarksBefore(visit, st, i) <= SweepMarksBefore(visit, st, k)
    decreases k - i
  {
    if k > i {
      SweepMarksGrow(visit, st, i, k - 1);
    }
  }

  /** The sweep has reached ring i in state s: s is the state the rings
      before i leave, the cells of their marks are shown, and only those
      cells are set since base. */
  ghost predicate SweptTo(grid: Grid<bool>, base: seq<seq<bool>>, st: Sweep, visit: Visit, i: int, s: SweepState)
    reads grid
    requires grid.Valid()
  {
    Good(s) && s == SweepBefore(visit, st, i)
    && Shows(grid, st, SweepMarksBefore(visit, st, i)) && SetSince(grid, base, st, SweepMarksBefore(visit, st, i))
  }

  /** Before ring 0 the sweep holds the initial field, has marked nothing
      and has set no cell. */
  lemma SweepStart(grid: Grid<bool>, st: Sweep, visit: Visit)
    requires grid.Valid()
    ensures SweptTo(grid, grid.cells, st, visit, 0, SweepState([InitialField(st.extent)], 0, [], []))
  {
    assert SweepMarksBefore(visit, st, 0) == {};
  }

  /** The sweep of n rings has a mark outside the grid, and only cells of
      its marks are set since base. */
  ghost predicate StoppedBy(grid: Grid<bool>, base: seq<seq<bool>>, st: Sweep, visit: Visit, n: int)
    reads grid
    requires grid.Valid()
  {
    (exists d :: d in SweepMarksBefore(visit, st, n) && !grid.InBounds3(CellOfSweep(st, d)))
    && SetSince(grid, base, st, SweepMarksBefore(visit, st, n))
  }

  /** A sweep stopped in ring i by a mark outside the grid: that mark is
      one the whole sweep makes, and only cells of its marks are set. */
  lemma SweepStops(grid: Grid<bool>, base: seq<seq<bool>>, st: Sweep, visit: Visit, i: int, n: int)
    requires grid.Valid() && 0 <= i < n
    requires exists d :: d in SweepMarksBefore(visit, st, i + 1) && !grid.InBounds3(CellOfSweep(st, d))
    requires SetSince(grid, base, st, SweepMarksBefore(visit, st, i + 1))
    ensures exists d :: d in SweepMarksBefore(visit, st, n) && !grid.InBounds3(CellOfSweep(st, d))
    ensures SetSince(grid, base, st, SweepMarksBefore(visit, st, n))
  {
    SweepMarksGrow(visit, st, i + 1, n);
    SetSinceGrows(grid, base, st, SweepMarksBefore(visit, st, i + 1), SweepMarksBefore(visit, st, n));
  }

  /** How a sweep ends: run through ring n or out of fields before ring
      i, it has made all its marks and their cells are shown; stopped by
      a mark outside the grid, it has not. Either way only cells of its
      marks are set. */
  lemma SweepEnds(grid: Grid<bool>, base: seq<seq<bool>>, st: Sweep, visit: Visit, i: int, n: int, ok: bool, s: SweepState)
    requires grid.Valid() && 0 <= i && (i <= n || i == 0)
    requires ok ==> SweptTo(grid, base, st, visit, i, s) && (i >= n || |s.fields| == 0)
    requires !ok ==> StoppedBy(grid, base, st, visit, n)
    ensures ok <==> CellsIn(grid, st, SweepMarksBefore(visit, st, n))
    ensures ok ==> Shows(grid, st, SweepMarksBefore(visit, st, n))
    ensures SetSince(grid, base, st, SweepMarksBefore(visit, st, n))
  {
    if ok && i < n {
      SweepStalled(visit, st, i, n);
    }
  }

  /** A square marked before ring i lies in the quadrant, on a ring below
      i, and that ring, swept from a state with a field left, marks it. */
  lemma {:induction false} SweepMarksIn(visit: Visit, st: Sweep, i: int, d: Pos2)
    requires d in SweepMarksBefore(visit, st, i)
    ensures d.x >= 0 && d.y >= 0 && d.x + d.y < i
    ensures |SweepBefore(visit, st, d.x + d.y).fields| > 0
    ensures d in RingMarked(visit, st, d.x + d.y, SweepBefore(visit, st, d.x + d.y))
    decreases i
  {
    if d in SweepMarksBefore(visit, st, i - 1) {
      SweepMarksIn(visit, st, i - 1, d);
    } else {
      var p := SweepBefore(visit, st, i - 1);
      assert |p.fields| > 0 && d in RingMarked(visit, st, i - 1, p);
      RingMarksIn(visit, st, i - 1, RingEnd(st, i - 1) + 1, p, d);
      assert d.x + d.y == i - 1;
    }
  }

  /** A square marked by a ring below n is marked before ring n. */
  lemma SweepMarkedAt(visit: Visit, st: Sweep, i: int, n: int, d: Pos2)
    requires 0 <= i < n && |SweepBefore(visit, st, i).fields| > 0
    requires d in RingMarked(visit, st, i, SweepBefore(visit, st, i))
    ensures d in SweepMarksBefore(visit, st, n)
  {
    assert d in SweepMarksBefore(visit, st, i + 1);
    SweepMarksGrow(visit, st, i + 1, n);
  }

  /** A ring with no square left to visit marks nothing and changes nothing. */
  lemma RingIdle(visit: Visit, st: Sweep, i: int, s: SweepState)
    requires s.cur >= |s.fields| || RingStart(st, i) > RingEnd(st, i)
    ensures Ring(visit, st, i, s) == s && RingMarked(visit, st, i, s) == {}
  {
    if RingStart(st, i) <= RingEnd(st, i) + 1 {
      RingStalled(visit, st, i, RingStart(st, i), RingEnd(st, i) + 1, s);
    }
  }

  /** Ring 0 from the initial field: the viewer's square (0, 0) lies on
      the steep line's near end, so the current field moves past the only
      field and nothing is marked. */
  lemma RingZero(blocked: iset<Pos2>, st: Sweep)
    requires st.extent.x >= 0 && st.extent.y >= 0
    ensures Ring(StepOf(blocked, st), st, 0, Initial(st)) == Initial(st).(cur := 1)
    ensures RingMarked(StepOf(blocked, st), st, 0, Initial(st)) == {}
  {
    var s := Initial(st);
    assert RingStart(st, 0) == 0 && RingEnd(st, 0) == 0;
    assert s.fields[0].steep.Contains(BottomRightOf(Pos2(0, 0)));
    assert Skip(s.fields, 0, BottomRightOf(Pos2(0, 0))) == 1;
    VisitedPasses(blocked, st, Pos2(0, 0), s);
    assert RingBefore(StepOf(blocked, st), st, 0, 1, s) == s.(cur := 1);
    assert !MarkedAt(StepOf(blocked, st), st, 0, 0, s);
    assert RingMarksBefore(StepOf(blocked, st), st, 0, 1, s) == RingMarksBefore(StepOf(blocked, st), st, 0, 0, s) == {};
  }

  /** The initial field admits square (1, 0): its steep line passes above
      the square's bottom-right corner and its shallow line below the
      top-left one. */
  lemma InitialAdmitsEast(extent: Pos2)
    requires extent.x >= 1 && extent.y >= 1
    ensures !InitialField(extent).steep.IsBelowOrHas(BottomRightOf(Pos2(1, 0)))
    ensures !InitialField(extent).shallow.IsAboveOrHas(TopLeftOf(Pos2(1, 0)))
  {
    assert InitialField(extent).steep.RelativeSlope(Pos2(2, 0)) == -extent.y;
    assert InitialField(extent).shallow.RelativeSlope(Pos2(1, 1)) == 1;
  }

  /** Ring 1 starts from the initial field. */
  lemma SweepOne(blocked: iset<Pos2>, st: Sweep)
    requires st.extent.x >= 0 && st.extent.y >= 0
    ensures SweepBefore(StepOf(blocked, st), st, 1) == Initial(st)
  {
    RingZero(blocked, st);
  }

  /** In the first quadrant, the square east of the viewer is marked by
      ring 1 whenever the extent reaches one square along both axes. */
  lemma EastMarked(blocked: iset<Pos2>, st: Sweep)
    requires st.quadrant == Pos2(1, 1) && st.extent.x >= 1 && st.extent.y >= 1
    ensures Pos2(1, 0) in SweepMarksBefore(StepOf(blocked, st), st, st.extent.x + st.extent.y)
  {
    EastInRingOne(blocked, st);
    SweepMarkedAt(StepOf(blocked, st), st, 1, st.extent.x + st.extent.y, Pos2(1, 0));
  }

  /** Ring 1 starts with a field and marks (1, 0). */
  lemma EastInRingOne(blocked: iset<Pos2>, st: Sweep)
    requires st.quadrant == Pos2(1, 1) && st.extent.x >= 1 && st.extent.y >= 1
    ensures |SweepBefore(StepOf(blocked, st), st, 1).fields| > 0
    ensures Pos2(1, 0) in RingMarked(StepOf(blocked, st), st, 1, SweepBefore(StepOf(blocked, st), st, 1))
  {
    var s, visit := Initial(st), StepOf(blocked, st);
    SweepOne(blocked, st);
    InitialMarksEast(st);
    StepAt(visit, blocked, st, Pos2(1, 0), s);
    MarkedFirst(visit, st, 1, s);
    RingMarkedAt(visit, st, 1, 0, s);
  }

  /** In the first quadrant, the initial field marks (1, 0). */
  lemma InitialMarksEast(st: Sweep)
    requires st.quadrant == Pos2(1, 1) && st.extent.x >= 1 && st.extent.y >= 1
    ensures Marks(st, Initial(st), Pos2(1, 0))
  {
    InitialAdmitsEast(st.extent);
    assert Skip(Initial(st).fields, 0, BottomRightOf(Pos2(1, 0))) == 0;
  }

  /** The first row of a ring is visited from the ring's starting state. */
  lemma MarkedFirst(visit: Visit, st: Sweep, i: int, s: SweepState)
    requires RingStart(st, i) <= RingEnd(st, i) && s.cur < |s.fields|
    requires visit(Pos2(i - RingStart(st, i), RingStart(st, i)), s).1
    ensures MarkedAt(visit, st, i, RingStart(st, i), s)
  {
  }

  /** The initial field after square (1, 0) has blocked its shallow side:
      the shallow line runs flat through (0, 1) and (1, 1). */
  function ShadedField(extent: Pos2): Field {
    InitialField(extent).(shallow := Line(Pos2(0, 1), Pos2(1, 1)), shallowBump := Some(0))
  }

  function ShadedState(extent: Pos2): (s: SweepState)
    ensures Good(s)
  {
    SweepState([ShadedField(extent)], 0, [], [Bump(Pos2(1, 1), None)])
  }

  /** A blocking square beyond the shallow line only bumps the shallow side. */
  lemma ResolvedShallowOnly(dest: Pos2, s: SweepState)
    requires Good(s) && s.cur < |s.fields|
    requires s.fields[s.cur].shallow.IsAbove(BottomRightOf(dest)) && !s.fields[s.cur].steep.IsBelow(TopLeftOf(dest))
    ensures Resolved(dest, s) == ShallowSide(TopLeftOf(dest), s)
  {
  }

  /** The shaded field has not collapsed: its shallow line passes above
      the steep line's near end. */
  lemma ShadedKept(extent: Pos2)
    ensures Kept(ShadedField(extent)) == [ShadedField(extent)]
  {
    assert ShadedField(extent).shallow.RelativeSlope(Pos2(1, 0)) == -1;
  }

  /** The shallow bump at (1, 1) of the initial field gives the shaded field. */
  lemma ShadedBump(extent: Pos2)
    ensures ShallowSide(Pos2(1, 1), SweepState([InitialField(extent)], 0, [], [])) == ShadedState(extent)
  {
    var f0 := InitialField(extent);
    assert ShallowBumped(Pos2(1, 1), f0, [], 0) == ShadedField(extent);
    ShadedKept(extent);
    assert Splice([f0], 0, [ShadedField(extent)]) == [ShadedField(extent)];
  }

  /** The initial field admits (1, 0), and resolving it as a blocking
      square bumps the shallow side flat. */
  lemma EastResolves(st: Sweep)
    requires st.extent.x >= 3 && st.extent.y >= 1
    ensures Skip(Initial(st).fields, 0, BottomRightOf(Pos2(1, 0))) == 0
    ensures Admits(Initial(st).fields, 0, Pos2(1, 0))
    ensures Resolved(Pos2(1, 0), Initial(st)) == ShadedState(st.extent)
  {
    var f0 := InitialField(st.extent);
    InitialAdmitsEast(st.extent);
    assert f0.shallow.RelativeSlope(Pos2(2, 0)) == 2 - st.extent.x;
    assert f0.steep.RelativeSlope(Pos2(1, 1)) == -1;
    ResolvedShallowOnly(Pos2(1, 0), Initial(st));
    ShadedBump(st.extent);
  }

  /** A blocking (1, 0) bumps the initial field's shallow side flat. */
  lemma EastBlocks(blocked: iset<Pos2>, st: Sweep)
    requires st.extent.x >= 3 && st.extent.y >= 1
    requires Pos2(1, 0) in blocked
    ensures Visited(blocked, st, Pos2(1, 0), Initial(st)) == ShadedState(st.extent)
  {
    EastResolves(st);
    VisitedBlocks(blocked, st, Pos2(1, 0), Initial(st));
    assert Initial(st).(cur := 0) == Initial(st);
  }

  /** An open (1, 0) leaves the initial field in place. */
  lemma EastPasses(blocked: iset<Pos2>, st: Sweep)
    requires st.extent.x >= 3 && st.extent.y >= 1
    requires Pos2(1, 0) !in blocked
    ensures Visited(blocked, st, Pos2(1, 0), Initial(st)) == Initial(st)
  {
    VisitedPasses(blocked, st, Pos2(1, 0), Initial(st));
    InitialAdmitsEast(st.extent);
    assert Skip(Initial(st).fields, 0, BottomRightOf(Pos2(1, 0))) == 0;
  }

  /** The open square (0, 1) leaves either field of ring 1 in place. */
  lemma NorthPasses(blocked: iset<Pos2>, st: Sweep, s1: SweepState)
    requires st.extent.x >= 3 && st.extent.y >= 1
    requires Pos2(0, 1) !in blocked
    requires s1 == Initial(st) || s1 == ShadedState(st.extent)
    ensures Visited(blocked, st, Pos2(0, 1), s1) == s1
  {
    assert s1.fields[0].steep.RelativeSlope(Pos2(1, 1)) == -1;
    assert Skip(s1.fields, 0, BottomRightOf(Pos2(0, 1))) == 0;
    VisitedPasses(blocked, st, Pos2(0, 1), s1);
  }

  /** Ring 1 of the first quadrant with square (0, 1) open: the initial
      field is kept when (1, 0) is open, and has its shallow side bumped
      flat when (1, 0) blocks. */
  lemma RingOne(blocked: iset<Pos2>, st: Sweep)
    requires st.quadrant == Pos2(1, 1) && st.extent.x >= 3 && st.extent.y >= 1
    requires Pos2(0, 1) !in blocked
    ensures Ring(StepOf(blocked, st), st, 1, Initial(st)) ==
      if Pos2(1, 0) in blocked then ShadedState(st.extent) else Initial(st)
  {
    var s := Initial(st);
    assert RingStart(st, 1) == 0 && RingEnd(st, 1) == 1;
    var s1 := Visited(blocked, st, Pos2(1, 0), s);
    assert RingBefore(StepOf(blocked, st), st, 1, 1, s) == s1;
    if Pos2(1, 0) in blocked {
      EastBlocks(blocked, st);
    } else {
      EastPasses(blocked, st);
    }
    NorthPasses(blocked, st, s1);
    assert RingBefore(StepOf(blocked, st), st, 1, 2, s) == Visited(blocked, st, Pos2(0, 1), s1);
  }

  /** Square (2, 0) is marked from the initial field. */
  lemma SecondEastOpen(st: Sweep)
    requires st.quadrant == Pos2(1, 1) && st.extent.x >= 3 && st.extent.y >= 1
    ensures Marks(st, Initial(st), Pos2(2, 0))
  {
    var f0 := InitialField(st.extent);
    assert !f0.steep.IsBelowOrHas(Pos2(3, 0)) by {
      assert f0.steep.RelativeSlope(Pos2(3, 0)) == -2 * st.extent.y;
    }
    assert Skip([f0], 0, BottomRightOf(Pos2(2, 0))) == 0;
    assert f0.shallow.RelativeSlope(Pos2(2, 1)) == 2;
  }

  /** The shaded field's shallow line passes through the top-left corner
      of (2, 0), so the square is not marked. */
  lemma SecondEastShaded(st: Sweep)
    requires st.quadrant == Pos2(1, 1) && st.extent.x >= 3 && st.extent.y >= 1
    ensures !Marks(st, ShadedState(st.extent), Pos2(2, 0))
  {
    var f1 := ShadedField(st.extent);
    assert !f1.steep.IsBelowOrHas(Pos2(3, 0)) by {
      assert f1.steep.RelativeSlope(Pos2(3, 0)) == -2 * st.extent.y;
    }
    assert Skip([f1], 0, BottomRightOf(Pos2(2, 0))) == 0;
    assert f1.shallow.RelativeSlope(Pos2(2, 1)) == 0;
  }

  /** Ring 2 of the first quadrant marks (2, 0) from the initial field, and
      does not from the field a blocking (1, 0) has shaded. */
  lemma RingTwo(blocked: iset<Pos2>, st: Sweep)
    requires st.quadrant == Pos2(1, 1) && st.extent.x >= 3 && st.extent.y >= 1
    ensures Pos2(2, 0) in RingMarked(StepOf(blocked, st), st, 2, Initial(st))
    ensures Pos2(2, 0) !in RingMarked(StepOf(blocked, st), st, 2, ShadedState(st.extent))
  {
    RingTwoOpen(blocked, st);
    RingTwoShaded(blocked, st);
  }

  lemma RingTwoOpen(blocked: iset<Pos2>, st: Sweep)
    requires st.quadrant == Pos2(1, 1) && st.extent.x >= 3 && st.extent.y >= 1
    ensures Pos2(2, 0) in RingMarked(StepOf(blocked, st), st, 2, Initial(st))
  {
    var visit, s := StepOf(blocked, st), Initial(st);
    assert RingStart(st, 2) == 0 && RingEnd(st, 2) >= 1;
    SecondEastOpen(st);
    StepAt(visit, blocked, st, Pos2(2, 0), s);
    assert MarkedAt(visit, st, 2, 0, s);
    RingMarkedAt(visit, st, 2, 0, s);
  }

  lemma RingTwoShaded(blocked: iset<Pos2>, st: Sweep)
    requires st.quadrant == Pos2(1, 1) && st.extent.x >= 3 && st.extent.y >= 1
    ensures Pos2(2, 0) !in RingMarked(StepOf(blocked, st), st, 2, ShadedState(st.extent))
  {
    var visit, sh := StepOf(blocked, st), ShadedState(st.extent);
    assert RingStart(st, 2) == 0;
    SecondEastShaded(st);
    StepAt(visit, blocked, st, Pos2(2, 0), sh);
    if Pos2(2, 0) in RingMarked(visit, st, 2, sh) {
      RingMarksIn(visit, st, 2, RingEnd(st, 2) + 1, sh, Pos2(2, 0));
      assert false;
    }
  }

  /** Occlusion in the first quadrant, with square (0, 1) open and an
      extent of at least three squares east: the sweep marks (2, 0) exactly
      when (1, 0) does not block, because a blocking (1, 0) bumps the
      shallow line flat onto the row above (2, 0). */
  lemma EastShadow(blocked: iset<Pos2>, st: Sweep)
    requires st.quadrant == Pos2(1, 1) && st.extent.x >= 3 && st.extent.y >= 1
    requires Pos2(0, 1) !in blocked
    ensures Pos2(2, 0) in SweepMarksBefore(StepOf(blocked, st), st, st.extent.x + st.extent.y) <==> Pos2(1, 0) !in blocked
  {
    var n := st.extent.x + st.extent.y;
    SweepOne(blocked, st);
    RingOne(blocked, st);
    var s2 := SweepBefore(StepOf(blocked, st), st, 2);
    assert s2 == if Pos2(1, 0) in blocked then ShadedState(st.extent) else Initial(st);
    RingTwo(blocked, st);
    if Pos2(2, 0) in SweepMarksBefore(StepOf(blocked, st), st, n) {
      SweepMarksIn(StepOf(blocked, st), st, n, Pos2(2, 0));
    }
    if Pos2(1, 0) !in blocked {
      SweepMarkedAt(StepOf(blocked, st), st, 2, n, Pos2(2, 0));
    }
  }

  /** The start of a quadrant's sweep: the extent, the initial field, and
      in the first quadrant the viewer's own square, marked before the
      rings. */
  method StartQuadrant(m: Map, source: Pos3, quadrant: Pos2, radius: int, grid: Grid<bool>)
    returns (ok: bool, st: Sweep)
    requires m.TilesValid() && grid.Valid()
    modifies grid
    ensures grid.Valid() && st == QuadrantOf(source, quadrant, radius)
    ensures m.TilesValid() && BlockedSquares(m, source.z) == old(BlockedSquares(m, source.z))
    ensures ok == (quadrant != Pos2(1, 1) || grid.InBounds3(source))
    ensures forall q :: grid.Get(q) != old(grid.Get(q)) ==> q == source && grid.Get(q) && quadrant == Pos2(1, 1)
    ensures ok && quadrant == Pos2(1, 1) ==> grid.Get(source)
    ensures SetOnlyAt(grid, old(grid.cells), grid.cells, source, quadrant == Pos2(1, 1))
  {
    st := QuadrantOf(source, quadrant, radius);
    ok := true;
    assert CellOfSweep(st, Pos2(0, 0)) == source;
    if quadrant == Pos2(1, 1) {
      var blocked;
      ok, blocked := ActIsBlocked(m, st, grid, Pos2(0, 0));
    }
    forall q | Lookup(grid.cells, grid.size, grid.offset, grid.def, q) != Lookup(old(grid.cells), grid.size, grid.offset, grid.def, q)
      ensures Lookup(grid.cells, grid.size, grid.offset, grid.def, q) && q == source && quadrant == Pos2(1, 1)
    {
      assert grid.Get(q) != old(grid.Get(q));
    }
  }

  /** Ring i of a quadrant's sweep, from the state the sweep has reached
      before it, after which the current field returns to the first field.
      It stops exactly when a mark of the ring falls outside the grid;
      otherwise the new state is the sweep's state before ring i + 1. */
  method SweepNextRing(m: Map, st: Sweep, grid: Grid<bool>, i: int, ghost n: int, ghost visit: Visit, ghost base: seq<seq<bool>>,
                       fields: seq<Field>, cur: nat, steep: seq<Bump>, shallow: seq<Bump>)
    returns (ok: bool, fields2: seq<Field>, cur2: nat, steep2: seq<Bump>, shallow2: seq<Bump>)
    requires m.TilesValid() && grid.Valid() && StepsAs(visit, BlockedSquares(m, st.source.z), st)
    requires 0 <= i < n && |fields| > 0 && SweptTo(grid, base, st, visit, i, SweepState(fields, cur, steep, shallow))
    modifies grid
    ensures grid.Valid() && m.TilesValid() && BlockedSquares(m, st.source.z) == old(BlockedSquares(m, st.source.z))
    ensures ok ==> SweptTo(grid, base, st, visit, i + 1, SweepState(fields2, cur2, steep2, shallow2))
    ensures !ok ==> StoppedBy(grid, base, st, visit, n)
  {
    SweepNext(visit, st, i);
    ok, fields2, cur2, steep2, shallow2 := SweepRing(m, st, grid, i, visit, base, SweepMarksBefore(visit, st, i), fields, cur, steep, shallow);
    cur2 := 0;
    if !ok {
      SweepStops(grid, base, st, visit, i, n);
    }
  }

  /** The rings of a quadrant's sweep from the initial field, each ring
      starting again from the first field, while a field is left. It
      stops exactly when a mark falls outside the grid; otherwise the
      cells of the sweep's marked squares are set. Only cells of marked
      squares are ever set. */
  method SweepQuadrant(m: Map, st: Sweep, grid: Grid<bool>, ghost visit: Visit) returns (ok: bool)
    requires m.TilesValid() && grid.Valid()
    requires StepsAs(visit, BlockedSquares(m, st.source.z), st)
    modifies grid
    ensures grid.Valid() && m.TilesValid() && BlockedSquares(m, st.source.z) == old(BlockedSquares(m, st.source.z))
    ensures ok <==> CellsIn(grid, st, SweepMarksBefore(visit, st, st.extent.x + st.extent.y))
    ensures ok ==> Shows(grid, st, SweepMarksBefore(visit, st, st.extent.x + st.extent.y))
    ensures SetSince(grid, old(grid.cells), st, SweepMarksBefore(visit, st, st.extent.x + st.extent.y))
  {
    var n := st.extent.x + st.extent.y;
    ghost var base := grid.cells;
    ok := true;
    var fields, cur, steep, shallow := [InitialField(st.extent)], 0, [], [];
    SweepStart(grid, st, visit);
    var i := 0;
    while ok && i < n && |fields| > 0
      invariant grid.Valid() && 0 <= i && (i <= n || i == 0)
      invariant m.TilesValid() && BlockedSquares(m, st.source.z) == old(BlockedSquares(m, st.source.z))
      invariant ok ==> SweptTo(grid, base, st, visit, i, SweepState(fields, cur, steep, shallow))
      invariant !ok ==> StoppedBy(grid, base, st, visit, n)
      decreases n - i
    {
      ok, fields, cur, steep, shallow := SweepNextRing(m, st, grid, i, n, visit, base, fields, cur, steep, shallow);
      i := i + 1;
    }
    SweepEnds(grid, base, st, visit, i, n, ok, SweepState(fields, cur, steep, shallow));
  }

  /** calc_fov_quadrant with the current field returned to the first field
      after every ring, as the shadowcasting algorithm intends. It stops
      exactly when a mark falls outside the grid; otherwise the squares it
      marks are the viewer's own (first quadrant) and the quadrant's
      marked squares, and it changes no other cell. */
  method CalcQuadrant(m: Map, source: Pos3, quadrant: Pos2, radius: int, grid: Grid<bool>) returns (ok: bool)
    requires m.TilesValid() && grid.Valid()
    modifies grid
    ensures grid.Valid()
    ensures ok <==>
      (quadrant == Pos2(1, 1) ==> grid.InBounds3(source))
      && forall d :: d in QuadrantMarks(BlockedSquares(m, source.z), source, quadrant, radius) ==>
           grid.InBounds3(CellOfSweep(QuadrantOf(source, quadrant, radius), d))
    ensures ok && quadrant == Pos2(1, 1) ==> grid.Get(source)
    ensures ok ==> forall d :: d in QuadrantMarks(BlockedSquares(m, source.z), source, quadrant, radius) ==>
      grid.Get(CellOfSweep(QuadrantOf(source, quadrant, radius), d))
    ensures forall q :: grid.Get(q) != Lookup(old(grid.cells), grid.size, grid.offset, grid.def, q) ==>
      grid.Get(q) &&
      ((q == source && quadrant == Pos2(1, 1))
       || exists d :: d in QuadrantMarks(BlockedSquares(m, source.z), source, quadrant, radius) && q == CellOfSweep(QuadrantOf(source, quadrant, radius), d))
  {
    var st;
    ghost var before := grid.cells;
    ok, st := StartQuadrant(m, source, quadrant, radius, grid);
    if !ok {
      SetOnlyAtReads(grid, before, source, quadrant == Pos2(1, 1));
      return;
    }
    ghost var started := grid.cells;
    assert quadrant == Pos2(1, 1) ==> grid.InBounds3(source) && Lookup(started, grid.size, grid.offset, grid.def, source);
    ghost var visit := StepOf(BlockedSquares(m, source.z), st);
    ok := SweepQuadrant(m, st, grid, visit);
    assert QuadrantMarks(BlockedSquares(m, source.z), source, quadrant, radius) == SweepMarksBefore(visit, st, st.extent.x + st.extent.y);
    QuadrantEnds(grid, before, started, BlockedSquares(m, source.z), source, quadrant, radius, ok);
  }

  /** The columns after differ from the columns before at most in a set
      cell at p, and only when first holds. */
  ghost predicate SetOnlyAt(grid: Grid<bool>, before: seq<seq<bool>>, after: seq<seq<bool>>, p: Pos3, first: bool) {
    forall q :: Lookup(after, grid.size, grid.offset, grid.def, q) != Lookup(before, grid.size, grid.offset, grid.def, q) ==>
      Lookup(after, grid.size, grid.offset, grid.def, q) && q == p && first
  }

  /** SetOnlyAt, read through the grid's lookup. */
  lemma SetOnlyAtReads(grid: Grid<bool>, before: seq<seq<bool>>, p: Pos3, first: bool)
    requires grid.Valid() && SetOnlyAt(grid, before, grid.cells, p, first)
    ensures forall q :: grid.Get(q) != Lookup(before, grid.size, grid.offset, grid.def, q) ==>
      grid.Get(q) && q == p && first
  {
  }

  /** A set viewer's cell followed by a quadrant's sweep: ok tells
      whether every marked square's cell lies in the grid, those cells and
      the viewer's own (first quadrant) are set when it holds, and the grid
      differs from the columns before only in such set cells. */
  lemma QuadrantEnds(grid: Grid<bool>, before: seq<seq<bool>>, mid: seq<seq<bool>>, blocked: iset<Pos2>,
                     source: Pos3, quadrant: Pos2, radius: int, ok: bool)
    requires grid.Valid() && SetOnlyAt(grid, before, mid, source, quadrant == Pos2(1, 1))
    requires quadrant == Pos2(1, 1) ==> grid.InBounds3(source) && Lookup(mid, grid.size, grid.offset, grid.def, source)
    requires ok <==> CellsIn(grid, QuadrantOf(source, quadrant, radius), QuadrantMarks(blocked, source, quadrant, radius))
    requires ok ==> Shows(grid, QuadrantOf(source, quadrant, radius), QuadrantMarks(blocked, source, quadrant, radius))
    requires SetSince(grid, mid, QuadrantOf(source, quadrant, radius), QuadrantMarks(blocked, source, quadrant, radius))
    ensures ok <==>
      (quadrant == Pos2(1, 1) ==> grid.InBounds3(source))
      && forall d :: d in QuadrantMarks(blocked, source, quadrant, radius) ==>
           grid.InBounds3(CellOfSweep(QuadrantOf(source, quadrant, radius), d))
    ensures ok && quadrant == Pos2(1, 1) ==> grid.Get(source)
    ensures ok ==> forall d :: d in QuadrantMarks(blocked, source, quadrant, radius) ==>
      grid.Get(CellOfSweep(QuadrantOf(source, quadrant, radius), d))
    ensures forall q :: grid.Get(q) != Lookup(before, grid.size, grid.offset, grid.def, q) ==>
      grid.Get(q) &&
      ((q == source && quadrant == Pos2(1, 1))
       || exists d :: d in QuadrantMarks(blocked, source, quadrant, radius) && q == CellOfSweep(QuadrantOf(source, quadrant, radius), d))
  {
  }

  /** calc_fov_quadrant as written: the current field is never returned to
      the first field. The first square visited, (0, 0), moves it past the
      only field, so no later square is visited and the sweep changes no
      cell but the viewer's own. */
  method CalcQuadrantAsWritten(m: Map, source: Pos3, quadrant: Pos2, radius: int, grid: Grid<bool>) returns (ok: bool)
    requires m.TilesValid() && grid.Valid()
    modifies grid
    ensures grid.Valid()
    ensures ok == (quadrant != Pos2(1, 1) || grid.InBounds3(source))
    ensures forall q :: grid.Get(q) != old(grid.Get(q)) ==> q == source && grid.Get(q)
    ensures ok && quadrant == Pos2(1, 1) ==> grid.Get(source)
  {
    var st;
    ok, st := StartQuadrant(m, source, quadrant, radius, grid);
    if !ok {
      return;
    }
    var f0 := InitialField(st.extent);
    var fields, cur, steep, shallow := [f0], 0, [], [];
    var i := 0;
    while i < st.extent.x + st.extent.y && |fields| > 0
      invariant grid.Valid() && Good(SweepState(fields, cur, steep, shallow)) && ok
      invariant forall q :: grid.Get(q) != old(grid.Get(q)) ==> q == source && grid.Get(q)
      invariant quadrant == Pos2(1, 1) ==> grid.Get(source)
      invariant fields == [f0] && steep == [] && shallow == []
      invariant cur == 1 || (cur == 0 && (i == 0 || st.extent.x < 0 || st.extent.y < 0))
      decreases st.extent.x + st.extent.y - i
    {
      ghost var si := SweepState(fields, cur, steep, shallow);
      if i == 0 && cur == 0 && st.extent.x >= 0 && st.extent.y >= 0 {
        RingZero(BlockedSquares(m, source.z), st);
      } else {
        RingIdle(StepOf(BlockedSquares(m, source.z), st), st, i, si);
      }
      ok, fields, cur, steep, shallow := SweepRing(m, st, grid, i, StepOf(BlockedSquares(m, source.z), st), grid.cells, {}, fields, cur, steep, shallow);
      i := i + 1;
    }
  }

  // ----- The field of view -----

  /** The quadrants in the order they are swept. */
  const Quadrants: seq<Pos2> := [Pos2(1, 1), Pos2(-1, 1), Pos2(-1, -1), Pos2(1, -1)]

  /** The corners of the fov grid: the viewer's position less the radius,
      clamped at zero, and the viewer's position plus the radius, raised to
      at least the map size (the program takes the larger of the two, so
      the grid always reaches the map's far edges). */
  function FovTopLeft(pos: Pos3, radius: int): Pos2 {
    Max(Sub(Flat(pos), Pos2(radius, radius)), Pos2(0, 0))
  }

  function FovBotRite(size: Pos2, pos: Pos3, radius: int): Pos2 {
    Max(Add(Flat(pos), Pos2(radius, radius)), size)
  }

  /** q is visible from pos, given the squares that look blocked: the
      viewer's own square, or the cell of a
      square that one of the four quadrant sweeps marks. */
  ghost predicate Visible(blocked: iset<Pos2>, pos: Pos3, radius: int, q: Pos3)
  {
    q == pos
    || exists k, d :: 0 <= k < 4 && d in QuadrantMarks(blocked, pos, Quadrants[k], radius)
         && q == CellOfSweep(QuadrantOf(pos, Quadrants[k], radius), d)
  }

  /** Every square quadrant k marks has its cell in the box of the given
      size and top left corner. */
  ghost predicate QuadrantFits(blocked: iset<Pos2>, pos: Pos3, radius: int, size: Pos2, tl: Pos2, k: int)
    requires 0 <= k < 4
  {
    forall d :: d in QuadrantMarks(blocked, pos, Quadrants[k], radius) ==>
      InBox3(size, tl, CellOfSweep(QuadrantOf(pos, Quadrants[k], radius), d))
  }

  /** The viewer's cell and the cell of every square any quadrant marks lie
      in the box: the condition under which no sweep meets a mark outside
      the fov grid. */
  ghost predicate MarksFit(blocked: iset<Pos2>, pos: Pos3, radius: int, size: Pos2, tl: Pos2) {
    InBox3(size, tl, pos) && forall k :: 0 <= k < 4 ==> QuadrantFits(blocked, pos, radius, size, tl, k)
  }

  /** A grid of false cells covering the fov box; ok is false when the box
      has a negative side, where the grid constructor asserts. */
  method NewFovGrid(m: Map, pos: Pos3, radius: int) returns (ok: bool, grid: Grid<bool>)
    requires m.TilesValid()
    ensures fresh(grid) && grid.Valid() && grid.def == false && grid.offset == FovTopLeft(pos, radius)
    ensures var size := Sub(FovBotRite(m.Size(), pos, radius), FovTopLeft(pos, radius));
      ok == (size.x >= 0 && size.y >= 0) && (ok ==> grid.size == size)
    ensures forall q :: !grid.Get(q)
  {
    var tl := FovTopLeft(pos, radius);
    var size := Sub(FovBotRite(m.Size(), pos, radius), tl);
    ok := size.x >= 0 && size.y >= 0;
    if ok {
      grid := new Grid(size, false, tl);
    } else {
      grid := new Grid(Pos2(0, 0), false, tl);
    }
  }

  /** Fov::calc on the viewer's floor, with the corrected quadrant sweep:
      it stops exactly when the box is malformed or a mark falls outside
      the grid; every marked cell is visible, and, when it does not stop,
      exactly the visible cells are marked. */
  method Calc(m: Map, pos: Pos3, radius: int) returns (ok: bool, grid: Grid<bool>)
    requires m.TilesValid()
    ensures fresh(grid) && grid.Valid() && grid.offset == FovTopLeft(pos, radius)
    ensures var size := Sub(FovBotRite(m.Size(), pos, radius), FovTopLeft(pos, radius));
      ok <==> size.x >= 0 && size.y >= 0 && MarksFit(BlockedSquares(m, pos.z), pos, radius, size, FovTopLeft(pos, radius))
    ensures ok ==> grid.size == Sub(FovBotRite(m.Size(), pos, radius), FovTopLeft(pos, radius))
    ensures forall q :: grid.Get(q) ==> Visible(BlockedSquares(m, pos.z), pos, radius, q)
    ensures ok ==> forall q :: Visible(BlockedSquares(m, pos.z), pos, radius, q) ==> grid.Get(q)
  {
    ghost var blocked := BlockedSquares(m, pos.z);
    ok, grid := NewFovGrid(m, pos, radius);
    if !ok {
      return;
    }
    forall q
      ensures !Lookup(grid.cells, grid.size, grid.offset, false, q)
    {
      assert !grid.Get(q);
    }
    for k := 0 to 4
      invariant grid.Valid() && grid.size == Sub(FovBotRite(m.Size(), pos, radius), FovTopLeft(pos, radius))
      invariant grid.offset == FovTopLeft(pos, radius) && grid.def == false && blocked == BlockedSquares(m, pos.z)
      invariant ok && Swept(grid.cells, grid.size, grid.offset, blocked, pos, radius, k)
      invariant OnlyVisible(grid.cells, grid.size, grid.offset, blocked, pos, radius)
    {
      ghost var before := grid.cells;
      ok := CalcQuadrant(m, pos, Quadrants[k], radius, grid);
      SweepKeepsVisible(grid, before, blocked, pos, radius, k);
      if !ok {
        assert !(Quadrants[k] == Pos2(1, 1) ==> grid.InBounds3(pos))
          || !QuadrantFits(blocked, pos, radius, grid.size, grid.offset, k);
        return;
      }
      SweepStep(grid, before, blocked, pos, radius, k);
    }
    SweptAll(grid, blocked, pos, radius);
  }

  /** The columns of a fov grid over the box of the given size and corner
      after the first k quadrant sweeps: the viewer's cell is in the box and
      set, and every square those sweeps mark has its cell in the box, set. */
  ghost predicate Swept(cells: seq<seq<bool>>, size: Pos2, tl: Pos2, blocked: iset<Pos2>, pos: Pos3, radius: int, k: int)
    requires 0 <= k <= 4
  {
    (k > 0 ==> Lookup(cells, size, tl, false, pos) && InBox3(size, tl, pos))
    && (forall k' :: 0 <= k' < k ==> QuadrantFits(blocked, pos, radius, size, tl, k'))
    && forall k', d :: 0 <= k' < k && d in QuadrantMarks(blocked, pos, Quadrants[k'], radius) ==>
         Lookup(cells, size, tl, false, CellOfSweep(QuadrantOf(pos, Quadrants[k'], radius), d))
  }

  /** Only visible cells of the columns are set. */
  ghost predicate OnlyVisible(cells: seq<seq<bool>>, size: Pos2, tl: Pos2, blocked: iset<Pos2>, pos: Pos3, radius: int) {
    forall q :: Lookup(cells, size, tl, false, q) ==> Visible(blocked, pos, radius, q)
  }

  /** The cells quadrant k's sweep newly sets are visible. */
  lemma SweepKeepsVisible(grid: Grid<bool>, before: seq<seq<bool>>, blocked: iset<Pos2>, pos: Pos3, radius: int, k: int)
    requires grid.Valid() && grid.def == false && 0 <= k < 4
    requires OnlyVisible(before, grid.size, grid.offset, blocked, pos, radius)
    requires forall q :: grid.Get(q) != Lookup(before, grid.size, grid.offset, grid.def, q) ==>
      grid.Get(q) &&
      ((q == pos && Quadrants[k] == Pos2(1, 1))
       || exists d :: d in QuadrantMarks(blocked, pos, Quadrants[k], radius) && q == CellOfSweep(QuadrantOf(pos, Quadrants[k], radius), d))
    ensures OnlyVisible(grid.cells, grid.size, grid.offset, blocked, pos, radius)
    ensures forall q :: grid.Get(q) ==> Visible(blocked, pos, radius, q)
  {
    forall q | grid.Get(q)
      ensures Visible(blocked, pos, radius, q)
    {
      if !Lookup(before, grid.size, grid.offset, grid.def, q) && q != pos {
        var d :| d in QuadrantMarks(blocked, pos, Quadrants[k], radius)
          && q == CellOfSweep(QuadrantOf(pos, Quadrants[k], radius), d);
      }
    }
    forall q | Lookup(grid.cells, grid.size, grid.offset, false, q)
      ensures Visible(blocked, pos, radius, q)
    {
      assert grid.Get(q);
    }
  }

  /** A quadrant sweep that meets no mark outside the grid, and only sets
      cells, extends the first k sweeps to the first k + 1. */
  lemma SweepStep(grid: Grid<bool>, before: seq<seq<bool>>, blocked: iset<Pos2>, pos: Pos3, radius: int, k: int)
    requires grid.Valid() && grid.def == false && 0 <= k < 4
    requires Swept(before, grid.size, grid.offset, blocked, pos, radius, k)
    requires (Quadrants[k] == Pos2(1, 1) ==> grid.InBounds3(pos))
      && forall d :: d in QuadrantMarks(blocked, pos, Quadrants[k], radius) ==>
           grid.InBounds3(CellOfSweep(QuadrantOf(pos, Quadrants[k], radius), d))
    requires Quadrants[k] == Pos2(1, 1) ==> grid.Get(pos)
    requires forall d :: d in QuadrantMarks(blocked, pos, Quadrants[k], radius) ==>
      grid.Get(CellOfSweep(QuadrantOf(pos, Quadrants[k], radius), d))
    requires forall q :: grid.Get(q) != Lookup(before, grid.size, grid.offset, grid.def, q) ==> grid.Get(q)
    ensures Swept(grid.cells, grid.size, grid.offset, blocked, pos, radius, k + 1)
  {
    assert QuadrantFits(blocked, pos, radius, grid.size, grid.offset, k);
    assert grid.Get(pos);
    forall k', d | 0 <= k' < k + 1 && d in QuadrantMarks(blocked, pos, Quadrants[k'], radius)
      ensures Lookup(grid.cells, grid.size, grid.offset, false, CellOfSweep(QuadrantOf(pos, Quadrants[k'], radius), d))
    {
      assert grid.Get(CellOfSweep(QuadrantOf(pos, Quadrants[k'], radius), d));
    }
  }

  /** After all four sweeps every mark fits and every visible cell is set. */
  lemma SweptAll(grid: Grid<bool>, blocked: iset<Pos2>, pos: Pos3, radius: int)
    requires grid.Valid() && grid.def == false && Swept(grid.cells, grid.size, grid.offset, blocked, pos, radius, 4)
    ensures MarksFit(blocked, pos, radius, grid.size, grid.offset)
    ensures forall q :: Visible(blocked, pos, radius, q) ==> grid.Get(q)
  {
    forall q | Visible(blocked, pos, radius, q)
      ensures grid.Get(q)
    {
      if q != pos {
        var k, d :| 0 <= k < 4 && d in QuadrantMarks(blocked, pos, Quadrants[k], radius)
          && q == CellOfSweep(QuadrantOf(pos, Quadrants[k], radius), d);
        assert Lookup(grid.cells, grid.size, grid.offset, false, q);
      }
    }
  }

  /** Fov::calc on the viewer's floor as written: it stops exactly when the
      viewer stands outside the fov grid or the box is malformed, and
      otherwise the viewer's own square is the only square it marks. */
  method CalcAsWritten(m: Map, pos: Pos3, radius: int) returns (ok: bool, grid: Grid<bool>)
    requires m.TilesValid()
    ensures fresh(grid) && grid.Valid() && grid.offset == FovTopLeft(pos, radius)
    ensures var size := Sub(FovBotRite(m.Size(), pos, radius), FovTopLeft(pos, radius));
      ok == (size.x >= 0 && size.y >= 0 && InBox3(size, FovTopLeft(pos, radius), pos))
    ensures ok ==> forall q :: grid.Get(q) <==> q == pos
  {
    ok, grid := NewFovGrid(m, pos, radius);
    if !ok {
      return;
    }
    for k := 0 to 4
      invariant grid.Valid() && grid.size == Sub(FovBotRite(m.Size(), pos, radius), FovTopLeft(pos, radius))
      invariant grid.offset == FovTopLeft(pos, radius)
      invariant k > 0 ==> grid.Get(pos)
      invariant k > 0 ==> grid.InBounds3(pos)
      invariant forall q :: grid.Get(q) ==> q == pos
    {
      ok := CalcQuadrantAsWritten(m, pos, Quadrants[k], radius, grid);
      if !ok {
        return;
      }
    }
  }

  /** The square east of the viewer is visible whenever the first
      quadrant's extent reaches one square along both axes. */
  lemma EastOfViewer(blocked: iset<Pos2>, pos: Pos3, radius: int)
    requires var e := Extent(pos, Pos2(1, 1), radius); e.x >= 1 && e.y >= 1
    ensures Visible(blocked, pos, radius, Pos3(pos.x + 1, pos.y, pos.z))
  {
    var st := QuadrantOf(pos, Quadrants[0], radius);
    EastMarked(blocked, st);
    assert CellOfSweep(st, Pos2(1, 0)) == Pos3(pos.x + 1, pos.y, pos.z);
  }

  /** Every square a quadrant's sweep marks lies in the quadrant, below
      the ring extent.x + extent.y, and off the axis it leaves to its
      neighbour. */
  lemma QuadrantMarksIn(blocked: iset<Pos2>, pos: Pos3, quadrant: Pos2, radius: int, d: Pos2)
    requires d in QuadrantMarks(blocked, pos, quadrant, radius)
    ensures var e := Extent(pos, quadrant, radius);
      d.x >= 0 && d.y >= 0 && d.x + d.y < e.x + e.y && !OnSharedAxis(quadrant, d)
  {
    var st := QuadrantOf(pos, quadrant, radius);
    SweepMarksOffAxis(StepOf(blocked, st), st, st.extent.x + st.extent.y, d);
  }

  /** A sweep whose steps never mark the shared axis marks only squares of
      the quadrant below ring n and off that axis. */
  lemma SweepMarksOffAxis(visit: Visit, st: Sweep, n: int, d: Pos2)
    requires MarksOffAxis(visit, st) && d in SweepMarksBefore(visit, st, n)
    ensures d.x >= 0 && d.y >= 0 && d.x + d.y < n && !OnSharedAxis(st.quadrant, d)
  {
    SweepMarksIn(visit, st, n, d);
    RingMarkedOffAxis(visit, st, d.x + d.y, SweepBefore(visit, st, d.x + d.y), d);
  }

  /** The only quadrant square whose cell lies two squares east of the
      viewer is (2, 0) of the first quadrant: the west quadrants would need
      a negative x, and in the south-east quadrant (2, 0) lies on the shared
      axis. */
  lemma EastCellOnlyFirst(pos: Pos3, k: int, radius: int, d: Pos2)
    requires 0 <= k < 4 && d.x >= 0 && d.y >= 0 && !OnSharedAxis(Quadrants[k], d)
    requires CellOfSweep(QuadrantOf(pos, Quadrants[k], radius), d) == Pos3(pos.x + 2, pos.y, pos.z)
    ensures k == 0 && d == Pos2(2, 0)
  {
  }

  /** With (0, 1) and (1, 0) open, the cell two squares east of the viewer is visible. */
  lemma EastSeen(blocked: iset<Pos2>, pos: Pos3, radius: int)
    requires var e := Extent(pos, Pos2(1, 1), radius); e.x >= 3 && e.y >= 1
    requires Pos2(0, 1) !in blocked && Pos2(1, 0) !in blocked
    ensures Visible(blocked, pos, radius, Pos3(pos.x + 2, pos.y, pos.z))
  {
    var st := QuadrantOf(pos, Quadrants[0], radius);
    EastShadow(blocked, st);
    assert CellOfSweep(st, Pos2(2, 0)) == Pos3(pos.x + 2, pos.y, pos.z);
  }

  /** With (0, 1) open and (1, 0) blocking, no square a quadrant marks has
      the cell two squares east of the viewer. */
  lemma EastShaded(blocked: iset<Pos2>, pos: Pos3, radius: int, k: int, d: Pos2)
    requires var e := Extent(pos, Pos2(1, 1), radius); e.x >= 3 && e.y >= 1
    requires Pos2(0, 1) !in blocked && Pos2(1, 0) in blocked
    requires 0 <= k < 4 && d in QuadrantMarks(blocked, pos, Quadrants[k], radius)
    ensures CellOfSweep(QuadrantOf(pos, Quadrants[k], radius), d) != Pos3(pos.x + 2, pos.y, pos.z)
  {
    QuadrantMarksIn(blocked, pos, Quadrants[k], radius, d);
    if CellOfSweep(QuadrantOf(pos, Quadrants[k], radius), d) == Pos3(pos.x + 2, pos.y, pos.z) {
      EastCellOnlyFirst(pos, k, radius, d);
      EastShadow(blocked, QuadrantOf(pos, Quadrants[0], radius));
      assert false;
    }
  }

  /** With (0, 1) open and (1, 0) blocking, the cell two squares east of
      the viewer is not visible. */
  lemma EastHidden(blocked: iset<Pos2>, pos: Pos3, radius: int)
    requires var e := Extent(pos, Pos2(1, 1), radius); e.x >= 3 && e.y >= 1
    requires Pos2(0, 1) !in blocked && Pos2(1, 0) in blocked
    ensures !Visible(blocked, pos, radius, Pos3(pos.x + 2, pos.y, pos.z))
  {
    forall k, d | 0 <= k < 4 && d in QuadrantMarks(blocked, pos, Quadrants[k], radius)
      ensures CellOfSweep(QuadrantOf(pos, Quadrants[k], radius), d) != Pos3(pos.x + 2, pos.y, pos.z)
    {
      EastShaded(blocked, pos, radius, k, d);
    }
  }

  /** Occlusion in the field of view: with quadrant square (0, 1) open and
      the first quadrant reaching three squares east, the cell two squares
      east of the viewer is visible exactly when quadrant square (1, 0),
      the first quadrant's square between them, does not look blocked. No
      other quadrant can mark that cell. */
  lemma CalcEastShadow(blocked: iset<Pos2>, pos: Pos3, radius: int)
    requires var e := Extent(pos, Pos2(1, 1), radius); e.x >= 3 && e.y >= 1
    requires Pos2(0, 1) !in blocked
    ensures Visible(blocked, pos, radius, Pos3(pos.x + 2, pos.y, pos.z)) <==> Pos2(1, 0) !in blocked
  {
    if Pos2(1, 0) in blocked {
      EastHidden(blocked, pos, radius);
    } else {
      EastSeen(blocked, pos, radius);
    }
  }
}
