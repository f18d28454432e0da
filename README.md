# spence grid core in Dafny

A model of the integer grid geometry behind the spence tactics game, with
proofs about it. It covers:

- **Lattice primitives** (`Vec`). These are the four compass directions, `flip`, the unit vector of a direction, `dirs()` (which splits a displacement into at most two directions, the longer axis first) and component-wise `Pos2`/`Pos3` arithmetic. `Pos3 ==` ignores the floor, and `Same3` keeps that quirk.
- **The layered grid** (`Grids.Grid`). It is a rectangle of column stacks at an offset. Reads outside the rectangle or above a column return the default. The mutable `get` pads one column in place, and `set` writes one cell.
- **Terrain and the unit registry** (`Terrain.Map`). This covers tiles with four walls, `has_tile`, `get_wall`, `set_wall` (one side only), `is_blocked`, `is_flat` and `has_cover`. It also covers `create_unit` (its search for a free name), `get_unit` and `move`.
- **Shadowcasting field of view** (`Fov`).
  - Sight lines are compared by an exact integer cross product.
  - Each field keeps its two bump chains in an append-only arena. Bumps are held by index, so chains cannot loop.
  - The active-field list is changed by insert and erase, and squares are visited in rings `x + y = i`, four quadrants per view.
  - `Fov.Calc` and `Fov.CalcQuadrant` return the current field to the first field at the start of each ring, as shadowcasting intends. As written the program never does, so it marks only the viewer's cell; `Fov.CalcQuadrantAsWritten` and `Fov.CalcAsWritten` model that (first Findings row).
- **Movement-cost search** (`Paths`, `Search`, `Reach`).
  - `Paths` computes the neighbour edges of a node: the drop, climb, orthogonal, cover and diagonal (no corner cutting) rules.
  - `Search` runs `Path::calc` / `Map::calc_pathmap` as a label-correcting worklist that may pop in any order. The proofs hold for every pop order. The worklist holds positions, not the program's node pointers (see the Search.Drain line under "## Left out").
  - `Reach` states what a finished search means over walks: distances are least costs, and a node is accessible exactly when a walk within the radius reaches it.
- **Path reconstruction** (`Route`). `Path::to` returns the reversed parent chain. `Map::to` also re-parents nodes to shortcut corners along straight walkable lines.
- **Straight-line walkability** (`Walk`). This covers `in_line` with C++ truncating division, the error-term `test_walk`, `is_walkable` over one or two lanes, and `test_area`.
- **Small state objects**. These are `Units.Unit` (the action-point, stamina and move-budget setters) and `Ui.UI` (the entry list and its read-and-clear changed flag).

Costs and radii are natural numbers in tenths of a tile, so the default settings are 10/10/0/10/0. An infinite distance is `None`. Units are held by their index in the registry.

## Model

| member | source | states |
|---|---|---|
| Vec.Ord | core/map/Vec.h:11 | each direction's enum value lies in 0..3 |
| Vec.OrdInjective | core/map/Vec.h:11 | distinct directions have distinct enum values |
| Vec.Flip | core/map/Vec.h:12-20 | flip never returns its argument and keeps the axis (horizontal stays horizontal) |
| Vec.FlipInvolution | core/map/Vec.h:12-20 | flipping twice gives the direction back, and the unit vector of the flipped direction is the negated unit vector |
| Vec.Unit | core/map/Vec.h:40-47 | the unit vector has one nonzero component of size 1: y = -1 iff North, y = 1 iff South, x = 1 iff East, x = -1 iff West |
| Vec.CrossAntisymmetric | core/map/Vec.h:73-75 | cross(a, b) = -cross(b, a), and cross(a, a) = 0 |
| Vec.Abs | core/map/Vec.h:106-108 | both components of abs are non-negative |
| Vec.Max | core/map/Vec.h:113-115 | each component is the larger of the two inputs' components |
| Vec.Min | core/map/Vec.h:116-118 | each component is the smaller of the two inputs' components |
| Vec.Dirs | core/map/Vec.h:127-135 | one direction per nonzero component: South iff y > 0, North iff y < 0, East iff x > 0, West iff x < 0. With two, there is one of each axis, and the horizontal one comes first iff abs(x) > abs(y) |
| Vec.DirsOfUnit | core/map/Vec.h:127-135 | dirs of a direction's unit vector is exactly that direction |
| Vec.Step3 | core/map/Vec.h:422-425 | adding a direction to a Pos3 moves the plane position by its unit vector and keeps the floor |
| Vec.StepBack | core/map/Vec.h:40-47 | a step towards d followed by a step towards flip(d) returns to the start |
| Vec.IdxIsRowMajor | core/map/Vec.h:207-209 | idx(width) is x + y * width |
| Vec.Same3IgnoresFloor | core/map/Vec.h:413-416 | Pos3 == holds between positions that differ only in z, although they are distinct values |
| Grids.CellIndexInRange | core/map/Grid.h:30-33 | an in-bounds plane position maps to a cell index in [0, size.x * size.y) |
| Grids.CellIndexInBox | core/map/Grid.h:34-41 | the same bound, for callers that already know the position is in bounds |
| Grids.CellIndexInjective | core/map/Grid.h:30-33 | two in-bounds positions with the same cell index are equal |
| Grids.Pad | core/map/Grid.h:37-39 | padding a column keeps its entries, grows it to at least n and fills the new entries with the default |
| Grids.Grid.Column | core/map/Grid.h:30-33 | the column of an in-bounds position is the cell at its index |
| Grids.Grid.Get | core/map/Grid.h:42-49 | a read outside the rectangle, or at or above the column's height, returns the default. Otherwise it returns the stored entry |
| Grids.Grid.constructor | core/map/Grid.h:14-17 | a non-negative size gives size.x * size.y empty columns, and every read returns the default |
| Grids.Grid.GetMut | core/map/Grid.h:34-41 | requires in bounds. It pads only that column until its height exceeds z, and leaves every read unchanged |
| Grids.Grid.Set | core/map/Grid.h:54-56 | after set(p, v), p reads v, every other position reads as before, and only p's column changes |
| Terrain.Walls.With | core/map/Map.h:44-46 | replacing wall d changes wall d and keeps the other three |
| Terrain.NatToString | core/map/Map.cpp:52-58 | the decimal numeral is non-empty and is one digit exactly below 10 |
| Terrain.NatToStringInjective | core/map/Map.cpp:52-58 | distinct numbers have distinct numerals |
| Terrain.SuffixedNamesDistinct | core/map/Map.cpp:52-58 | name + i and name + j are equal only when i = j |
| Terrain.FreshName | core/map/Map.cpp:46-65 | the chosen name was not taken. It is the name itself when that is free, and otherwise the name followed by the smallest free suffix |
| Terrain.Map.constructor | core/map/Map.cpp:6 | a new map has a 0 x 0 grid and no units |
| Terrain.Map.Reset | core/map/Map.cpp:12-16 | after reset, the grids have the new size, every tile is empty and no cell holds a unit |
| Terrain.Map.GetWall | core/map/Map.h:40-42 | where there is no tile, every wall reads Clear (the default tile) |
| Terrain.Map.SetWall | core/map/Map.h:44-46 | afterwards the wall reads w and the tile exists. The other walls of that tile, every other tile and the neighbour's mirrored wall are unchanged |
| Terrain.Map.GetUnitAt | core/map/Map.h:57-59 | a unit found at a cell is a registered unit |
| Terrain.Map.GetUnit | core/map/Map.cpp:67-73 | the lookup finds a unit iff the name is registered, and it returns that unit |
| Terrain.Map.CreateUnit | core/map/Map.cpp:46-65 | the name is chosen as FreshName chooses it. The unit is appended and registered under that name and placed at pos. No other cell changes |
| Terrain.Map.Move | core/map/Map.cpp:75-81 | requires a unit at the old position. Afterwards pos holds it, its position is pos, and the old cell is empty unless it is pos. Other cells and the registry are unchanged |
| Terrain.Map.HasTile | core/map/Map.h:30-34 | false off the map and on a negative floor (the signed floor is compared with an unsigned size). Where it is false, get_tile reads the empty tile |
| Terrain.Map.IsBlocked | core/map/Map.cpp:18-24 | the map edge blocks. An edge inside the map between two cells without tiles is not blocked |
| Terrain.Map.IsFlat | core/map/Map.cpp:26-32 | a flat edge is neither blocked nor a source of cover. An edge inside the map between two cells without tiles is flat |
| Terrain.Map.HasCover | core/map/Map.cpp:34-44 | a blocked edge inside the map gives cover. At the map edge only the cell's own Blocking or InnerCover wall does |
| Terrain.BlockedSymmetric | core/map/Map.cpp:18-24 | between two in-bounds neighbours, is_blocked(p, d) = is_blocked(p + d, flip d) |
| Terrain.FlatSymmetric | core/map/Map.cpp:26-32 | between two in-bounds neighbours, is_flat(p, d) = is_flat(p + d, flip d) |
| Units.MoveSegments | core/Unit.h:84-85 | the segments are ap + 1 with stamina left, and ap without |
| Units.MoveRadius | core/Unit.h:86 | the radius in tenths is mov * segments * 10 / 2 |
| Units.MoveRadiusGrows | core/Unit.h:84-87 | more action points never shrink the radius. Each extra point adds mov * 5 tenths |
| Units.Unit.constructor | core/Unit.h:23 | a new unit has the type's hp, 0 ap, 3 stamina, no move segments, radius 0, no weapons and an empty view |
| Units.Unit.UpdateMove | core/Unit.h:84-87 | the segments and radius are recomputed from ap and stamina. Nothing else changes |
| Units.Unit.SetAp | core/Unit.h:64-67 | ap is set and the move budget recomputed. Nothing else changes |
| Units.Unit.ModifyAp | core/Unit.h:61-63 | ap grows by the amount and the move budget is recomputed |
| Units.Unit.UseStamina | core/Unit.h:50-52 | stamina drops by the amount and the move budget is left stale. It stays current only while stamina stays on the same side of zero |
| Units.Unit.SetPos | core/Unit.h:36-38 | only the position changes |
| Units.Unit.AddWeapon | core/Unit.h:69-71 | the weapon is appended after the earlier ones, and nothing else changes |
| Units.Unit.SetFov | core/Unit.h:76-78 | the unit stores a fresh copy of the grid (same box, default and cells, so every read agrees), since set_fov takes it by value; later writes to the caller's grid do not reach the unit. Nothing else changes |
| Units.Unit.CanSee | core/Unit.h:79-81 | a visible position lies inside the view's rectangle |
| Ui.UI.constructor | core/UI.h:27-28 | a new UI has no entries and an unset changed flag |
| Ui.UI.Clear | core/UI.cpp:4-7 | no entries are left, and the flag is set |
| Ui.UI.SetEntry | core/UI.cpp:9-18 | the size becomes max(old size, index + 1) and entry index holds the new text and action. Other existing entries are unchanged, padding entries are blank, and the flag is set |
| Ui.UI.HasChanged | core/UI.cpp:39-43 | returns the flag and clears it. The entries are unchanged |
| Ui.UI.NumEntries | core/UI.cpp:20-22 | the number of entries. has_action is false at every index from it on |
| Ui.UI.GetText | core/UI.cpp:24-27 | requires the index in the list, as the program asserts. The text and get_action's action are the two parts of that entry |
| Ui.UI.GetAction | core/UI.cpp:29-32 | requires the index in the list, as the program asserts. The action is something other than None iff has_action holds there |
| Ui.UI.HasAction | core/UI.cpp:34-36 | true only for an index inside the list |
| Ui.UI.SetHasChanged | core/UI.cpp:45-47 | sets the flag and leaves the entries |
| Ui.ReadChangedTwice | core/UI.cpp:39-43 | a second has_changed with no change in between returns false |
| Ui.SetThenRead | core/UI.cpp:9-18 | after set_entry, has_changed returns true once and then false, and the entry is readable |
| Fov.Line.RelativeSlope | core/map/Fov.cpp:15-17 | the slope is 0 at near and at far, so both ends lie on the line |
| Fov.SlopeIsCross | core/map/Fov.cpp:15-17 | the slope is the cross product of far - p with far - near |
| Fov.LineTrichotomy | core/map/Fov.cpp:18-22 | exactly one of is_below, contains and is_above holds. The "or has" tests are the strict test or contains |
| Fov.RescanEnds | core/map/Fov.cpp:43-47 | rescanning a chain keeps far. It leaves near as it was or sets it to a bump location of that chain |
| Fov.ArenaAppend | core/map/Fov.cpp:41-42 | a new bump whose parent is an existing head keeps the arena acyclic and becomes a valid head |
| Fov.AddShallowBump | core/map/Fov.cpp:39-48 | shallow.far becomes pos. A bump whose parent is the old shallow head is appended and becomes the head. The steep line and chain are unchanged. shallow.near is unchanged or a steep-chain bump location |
| Fov.AddSteepBump | core/map/Fov.cpp:50-59 | the mirror image of AddShallowBump, with the steep and shallow roles swapped |
| Fov.CheckField | core/map/Fov.cpp:62-69 | the field is erased iff the shallow line contains both steep ends and (0, 1) or (1, 0). Otherwise the list is unchanged. The position stays the same |
| Fov.ActIsBlocked | core/map/Fov.cpp:71-83 | marks pos * quadrant + source visible, except on the excluded axis, and changes no other cell. It answers whether some direction of dirs(-pos) is blocked at the quadrant-local pos. It fails where the mark falls outside the grid |
| Fov.Skip | core/map/Fov.cpp:89-91 | the current field advances past exactly the fields whose steep line is below or has bottom_right |
| Fov.FieldsGrow | core/map/Fov.cpp:41-42 | fields whose chains lie in the arena still do after bumps are appended |
| Fov.ShallowSideKeeps | core/map/Fov.cpp:98-100 | the shallow bump and its collapse check keep the chains in the arenas, only append shallow bumps and replace only the current field |
| Fov.BumpShallow | core/map/Fov.cpp:98-100 | the new state is the current field bumped at top_left and checked for collapse, the bump appended to the shallow chain. The invariant holds and the position stays |
| Fov.InsertKeeps | core/map/Fov.cpp:105 | inserting a copy before the current field keeps every chain in the arenas and moves the original one place on |
| Fov.ResolvedSplitKeeps | core/map/Fov.cpp:104-110 | the split keeps the chains in the arenas, only appends bumps, replaces only the current field and advances the position by at most one |
| Fov.Split | core/map/Fov.cpp:103-110 | the new state is the split: a copy inserted before the current field gets the steep bump at bottom_right, the original gets the shallow bump at top_left, and each is erased if it collapsed. The position names the original or what follows it, and the invariant holds |
| Fov.ResolvedKeeps | core/map/Fov.cpp:96-110 | each of the four outcomes keeps the chains in the arenas, only appends bumps, replaces only the current field and leaves the position on it or one past it |
| Fov.Resolve | core/map/Fov.cpp:96-110 | the new state is the erase when the square lies beyond both lines, the shallow bump when beyond the shallow line only, the steep bump when beyond the steep line only, and the split otherwise. The invariant holds |
| Fov.Visited | core/map/Fov.cpp:85-111 | the state after a visit keeps the sweep invariant |
| Fov.VisitedPasses | core/map/Fov.cpp:89-94 | a square the field at the skip does not admit, or one that does not look blocked, only moves the current field |
| Fov.VisitedBlocks | core/map/Fov.cpp:89-110 | a square that looks blocked and is admitted by the field at the skip resolves that field |
| Fov.VisitSquare | core/map/Fov.cpp:85-111 | it fails exactly when the square is admitted, off the shared axis and its cell lies outside the grid. Otherwise the new state is Visited's, and the cell of a marked square (admitted and off the shared axis) is set. Only that cell can change |
| Fov.StepOf | core/map/Fov.cpp:85-111 | the step of a sweep visits as Visited does and never marks the shared axis |
| Fov.RingMarkedOffAxis | core/map/Fov.cpp:73-74 | a ring never marks a square on the axis the quadrant leaves to its neighbour |
| Fov.RingStalled | core/map/Fov.cpp:132 | once the ring's rows run out or no current field is left, later rows change and mark nothing |
| Fov.RingMarksGrow | core/map/Fov.cpp:132-135 | the marked squares only grow along a ring |
| Fov.RingMarksIn | core/map/Fov.cpp:130-135 | every square ring i marks lies on the ring (x + y = i), in a row between start_j and max_j, with x >= 0, and its own row's visit marks it |
| Fov.RingMarkedAt | core/map/Fov.cpp:133-134 | a square its row's visit marks is among the ring's marks |
| Fov.RingNext | core/map/Fov.cpp:132-134 | visiting row j of a ring steps the state by visit_square and adds the row's square to the marks exactly when the visit marks it |
| Fov.RingBegins | core/map/Fov.cpp:130-132 | before its first row a ring has marked nothing and holds its starting state |
| Fov.RingStops | core/map/Fov.cpp:134 | a mark of a row that falls outside the grid is a mark of the ring outside it |
| Fov.RingEnds | core/map/Fov.cpp:132-135 | a ring run to its end or out of fields has reached the ring's state and shown all its marks; a ring stopped by a mark outside the grid has such a mark. Either way only cells of its marks are set |
| Fov.SetSinceGrows | core/map/Fov.cpp:75 | a grid changed only in cells of some marks is changed only in cells of any larger set of marks |
| Fov.RingSquare | core/map/Fov.cpp:133-134 | visiting square (i - j, j) moves the state to the ring's state after row j and shows its cell when marked. It fails exactly when the square is marked and its cell lies outside the grid |
| Fov.SweepRing | core/map/Fov.cpp:130-135 | ring x + y = i from start_j to max_j while a current field is left. It fails exactly when some square the ring marks lies outside the grid. Otherwise the new state is the ring's and every marked square's cell is set. Only cells of the ring's marked squares change |
| Fov.Initial | core/map/Fov.cpp:120-122 | the single initial field keeps the sweep invariant |
| Fov.SweepNext | core/map/Fov.cpp:129-136 | with a field left, ring i is swept from the state before it, the current field returns to the first field, and the ring's marks join the sweep's |
| Fov.SweepStalled | core/map/Fov.cpp:129 | once no field is left, later rings change and mark nothing |
| Fov.SweepMarksGrow | core/map/Fov.cpp:129-136 | the marked squares only grow along the sweep |
| Fov.SweepStart | core/map/Fov.cpp:119-123 | before ring 0 the sweep holds the initial field, has marked nothing and has set no cell |
| Fov.SweepStops | core/map/Fov.cpp:129-136 | a mark outside the grid in ring i is a mark of the whole sweep outside it |
| Fov.SweepEnds | core/map/Fov.cpp:129-136 | a sweep run through all rings or out of fields shows all its marks; one stopped has a mark outside the grid. Either way only cells of its marks are set |
| Fov.SweepMarksIn | core/map/Fov.cpp:129-135 | a square marked before ring i lies in the quadrant on a ring below i, that ring starts with a field left, and it marks the square |
| Fov.SweepMarkedAt | core/map/Fov.cpp:129-135 | a square marked by a ring below n is among the sweep's marks before ring n |
| Fov.RingIdle | core/map/Fov.cpp:132 | a ring with no row or no current field marks and changes nothing |
| Fov.RingZero | core/map/Fov.cpp:129-135 | ring 0 passes the viewer's square (0, 0) on the steep line's near end: the current field moves past the only field and nothing is marked |
| Fov.InitialAdmitsEast | core/map/Fov.cpp:120-122 | the initial field admits square (1, 0) |
| Fov.SweepOne | core/map/Fov.cpp:129-136 | ring 1 starts from the initial field |
| Fov.EastInRingOne | core/map/Fov.cpp:129-135 | in the first quadrant, ring 1 starts with a field and marks (1, 0) |
| Fov.EastMarked | core/map/Fov.cpp:129-135 | in the first quadrant, once the extent reaches one square along both axes, the sweep marks (1, 0) whatever looks blocked |
| Fov.ResolvedShallowOnly | core/map/Fov.cpp:98-100 | a blocking square beyond the shallow line only, and not beyond the steep line, only bumps the shallow side |
| Fov.ShadedKept | core/map/Fov.cpp:62-69 | the initial field with its shallow line bumped flat does not collapse |
| Fov.ShadedBump | core/map/Fov.cpp:39-48 | the shallow bump at (1, 1) of the initial field lays the shallow line flat through (0, 1) and (1, 1) |
| Fov.EastResolves | core/map/Fov.cpp:89-100 | the initial field admits (1, 0), and resolving it as a blocking square bumps the shallow side flat |
| Fov.EastBlocks | core/map/Fov.cpp:85-100 | a (1, 0) that looks blocked bumps the initial field's shallow side flat |
| Fov.EastPasses | core/map/Fov.cpp:85-94 | a (1, 0) that does not look blocked leaves the initial field in place |
| Fov.NorthPasses | core/map/Fov.cpp:85-94 | a (0, 1) that does not look blocked leaves either field of ring 1 in place |
| Fov.RingOne | core/map/Fov.cpp:129-135 | with (0, 1) not looking blocked, ring 1 ends with the initial field when (1, 0) does not look blocked, and with its shallow side bumped flat when it does |
| Fov.SecondEastOpen | core/map/Fov.cpp:89-94 | the initial field marks (2, 0) |
| Fov.SecondEastShaded | core/map/Fov.cpp:93 | the field with the flat shallow line does not mark (2, 0): the line passes through the square's top-left corner |
| Fov.RingTwo | core/map/Fov.cpp:129-135 | ring 2 marks (2, 0) from the initial field and not from the field that a blocking (1, 0) has shaded |
| Fov.RingTwoOpen | core/map/Fov.cpp:129-135 | ring 2 marks (2, 0) from the initial field |
| Fov.RingTwoShaded | core/map/Fov.cpp:129-135 | ring 2 does not mark (2, 0) from the shaded field |
| Fov.EastShadow | core/map/Fov.cpp:113-137 | occlusion: in the first quadrant with (0, 1) not looking blocked and an extent of at least three squares east, the sweep marks (2, 0) iff (1, 0) does not look blocked |
| Fov.StartQuadrant | core/map/Fov.cpp:114-127 | computes the absolute extent. The first quadrant sets the viewer's cell and fails iff it lies outside the grid; no other cell changes |
| Fov.SweepNextRing | core/map/Fov.cpp:129-136 | ring i of the sweep, after which the current field returns to the first field: it fails only with a mark outside the grid, and otherwise reaches the sweep's state before ring i + 1 |
| Fov.SweepQuadrant | core/map/Fov.cpp:129-136 | the rings while a field is left. It fails iff some square the sweep marks lies outside the grid; otherwise every marked square's cell is set. Only cells of marked squares change |
| Fov.QuadrantEnds | core/map/Fov.cpp:125-136 | after the viewer's cell and then the sweep's cells are set, the quadrant succeeds iff the viewer's cell (first quadrant) and every marked square's cell lie in the grid. On success those cells are set. Every changed cell is set and is the viewer's or a marked square's |
| Fov.CalcQuadrant | core/map/Fov.cpp:113-137 | with the current field reset each ring: it fails iff the viewer's cell (first quadrant) or a marked square's cell lies outside the grid. Otherwise those cells are set. Every changed cell is set and is the viewer's or a marked square's |
| Fov.CalcQuadrantAsWritten | core/map/Fov.cpp:113-137 | as written, only the viewer's own square can change |
| Fov.QuadrantMarksIn | core/map/Fov.cpp:129-135 | every square a quadrant marks lies in the quadrant, below ring extent.x + extent.y, and off the shared axis |
| Fov.SweepMarksOffAxis | core/map/Fov.cpp:72-75 | a sweep whose steps never mark the shared axis marks only squares of the quadrant below ring n, off that axis |
| Fov.NewFovGrid | core/map/Fov.cpp:141-143 | the box runs from (pos - r) clamped at 0 to max(pos + r, map size). Every cell reads false, and the grid is made only when both sides are non-negative |
| Fov.Calc | core/map/Fov.cpp:140-153 | with the current field reset each ring (first Findings row): it fails exactly when the fov box has a negative side, or the viewer's cell or the cell of some square a quadrant marks lies outside the box (`MarksFit`). Every set cell is visible (the viewer's or one a quadrant marks). When it does not fail, every visible cell is set |
| Fov.CalcAsWritten | core/map/Fov.cpp:140-153 | as written, it succeeds iff the box is well formed and holds the viewer, and then the viewer's square is the only visible one |
| Fov.EastOfViewer | core/map/Fov.cpp:113-153 | the cell east of the viewer is visible whenever the first quadrant reaches one square along both axes |
| Fov.EastCellOnlyFirst | core/map/Fov.cpp:72-74 | only square (2, 0) of the first quadrant has the cell two east of the viewer: the west quadrants need x < 0, and in the fourth quadrant it is on the shared axis |
| Fov.EastSeen | core/map/Fov.cpp:113-153 | with quadrant squares (0, 1) and (1, 0) not looking blocked, the cell two east of the viewer is visible |
| Fov.EastShaded | core/map/Fov.cpp:113-153 | with (0, 1) not looking blocked and (1, 0) looking blocked, no quadrant marks a square whose cell is two east of the viewer |
| Fov.EastHidden | core/map/Fov.cpp:113-153 | with (0, 1) not looking blocked and (1, 0) looking blocked, the cell two east of the viewer is not visible |
| Fov.CalcEastShadow | core/map/Fov.cpp:113-153 | occlusion in Fov::calc: with (0, 1) not looking blocked and the first quadrant reaching three squares east, the cell two east of the viewer is visible iff quadrant square (1, 0) does not look blocked |
| Paths.FixedOrthoSettings | core/Map.h:36-42 | the orthogonal cost is fixed at the default, and the other costs are as given |
| Paths.FixedOrthoHasDefaults | core/map/Path.h:6-12 | the default settings are ortho 10, diag 10, step 0, climb 10, drop 0 (tenths) |
| Paths.FreshNodesUnreached | core/map/Path.h:14-21 | a fresh node is OPEN with infinite distance and the sentinel parent. The plane node's segment is 0 |
| Paths.RadiusTiles | core/map/Path.cpp:12 | the radius in whole tiles is the ceiling of the radius in tenths |
| Paths.BoxCoversReach | core/map/Path.cpp:13-15 | the path grid's box has non-negative sides, a non-negative corner, and covers every in-map cell within the radius |
| Paths.EdgeFromOffset | core/map/Path.cpp:34-38 | every edge comes from one of the eight neighbour offsets |
| Paths.CandidateShape | core/map/Path.cpp:34-88 | a candidate leads to the plane neighbour at the offset, at most one floor up or down, costs at most one step of any kind and lands inside the path grid |
| Paths.DiagonalNeedsFlatBlock | core/map/Path.cpp:50-72 | a diagonal step exists iff the target is in the grid and standing, and all four edges of its 2x2 block are flat. It then costs diag |
| Paths.FloorChanges | core/map/Path.cpp:40-79 | a drop is orthogonal into a column with no tile at z > 0 and costs drop plus step when there is cover. A climb is an orthogonal blocked step through a Climbable wall and costs climb |
| Paths.OrthogonalSameFloor | core/map/Path.cpp:80-83 | an orthogonal step on one floor is not blocked. It costs ortho when flat and step when there is cover |
| Paths.ScanFromCur | core/map/Path.cpp:50-63 | the scan from the current node sets blocked and cover exactly as the blocked and flat tests decide |
| Paths.ScanIntoTarget | core/map/Path.cpp:64-72 | the corner check blocks iff some flipped direction is not flat at the target |
| Paths.LevelEdge | core/map/Path.cpp:50-86 | a same-floor step yields the orthogonal or the diagonal edge |
| Paths.OrthoLevel | core/map/Path.cpp:73-86 | computes the orthogonal edge or climb |
| Paths.DiagLevel | core/map/Path.cpp:64-86 | computes the diagonal edge |
| Paths.StepEdge | core/map/Path.cpp:36-87 | one offset's neighbour is exactly its candidate edge |
| Paths.CollectEdges | core/map/Path.cpp:33-88 | the neighbour loop collects exactly the candidate edges in row-major offset order |
| Paths.EdgeShape | core/map/Path.cpp:34-88 | every edge leads to a different plane position inside the grid, within one floor, at a cost of at most the largest step |
| Search.InitKeeps | core/map/Path.cpp:16-20 | the start alone in the worklist, at distance 0, satisfies the search invariant |
| Search.PopKeeps | core/map/Path.cpp:22-32 | popping any worklist node and classifying it by its distance keeps the invariant |
| Search.RelaxKeeps | core/map/Path.cpp:89-99 | relaxing an edge only on a strictly smaller cost keeps the invariant. The target's parent is then the popped node |
| Search.PotDrops | core/map/Path.cpp:93-97 | lowering a distance strictly lowers the termination measure |
| Search.SearchedWhenDone | core/map/Path.cpp:22 | an empty worklist with the invariant means the search is finished |
| Search.PathMap.Empty | core/map/Path.h:23-35 | the default path map has an empty grid |
| Search.PathMap.constructor | core/map/Path.h:23-35 | a path map holds its source and grid |
| Search.PathMap.CanAccess | core/map/Path.cpp:104-107 | true iff the position is in the grid and ACCESSABLE. The nodes are unchanged |
| Search.Relax | core/map/Path.cpp:89-99 | it fails exactly when the edge's target lies outside the grid, and then changes nothing. Otherwise the target ends within the node's distance plus the cost, and distances never grow. A push strictly lowers the measure |
| Search.Expand | core/map/Path.cpp:89-99 | relaxes every edge of the popped node and keeps the invariant. When it fails, the popped node is accessible and has an edge leading outside the grid |
| Search.Take | core/map/Path.cpp:22-32 | the popped node becomes ACCESSABLE iff its distance is within the radius, and otherwise INACCESSABLE |
| Search.Calc | core/map/Path.cpp:11-102 | the search terminates over the radius box. It fails exactly when start lies outside the box, or some accessible node of the path grid it returns has an edge leading outside it (a climb above the top floor). Otherwise every reachable node's edges are relaxed and states are final |
| Search.StartGrid | core/map/Path.cpp:12-20 | the fresh path grid covers the radius box, holds start at distance 0 with no parent, and the search invariant holds for the worklist [start] |
| Search.Drain | core/map/Path.cpp:22-100 | the loop terminates. When it fails, some accessible node has an edge leading outside the grid. Otherwise, when the worklist is empty, every reachable node's edges are relaxed and states are final |
| Search.SearchedNotStuck | core/map/Path.cpp:89-99 | after a finished search no accessible node has an edge leading outside the grid |
| Reach.FinalStates | core/map/Path.cpp:25-32 | after the search, OPEN iff unreached, ACCESSABLE iff reached within the radius, and INACCESSABLE iff reached beyond it. CLOSED never occurs |
| Reach.StepReached | core/map/Path.cpp:89-99 | from an accessible node, each edge's target is reached within its distance plus the cost |
| Reach.WalkBound | core/map/Path.cpp:11-102 | every walk from the start that leaves only from nodes within the radius ends at a node whose distance is at most the walk's cost |
| Reach.ParentWalk | core/map/Path.cpp:96 | a node's parent chain is a walk from the start through accessible nodes, no prefix costing more than the distance where it ends |
| Reach.ParentWalkCheapest | core/map/Path.cpp:96 | the parent chain respects the radius and costs exactly the node's distance |
| Reach.Cheapest | core/map/Path.cpp:11-102 | a node's distance is the least cost of a walk from the start that respects the radius, and an unreached node has no such walk |
| Reach.AccessibleIff | core/map/Path.cpp:11-102 | a node is ACCESSABLE iff some walk of cost at most the radius reaches it |
| Route.SearchedChained | core/map/Path.cpp:93-96 | after the search, each non-start reached node's parent ranks strictly below it, so parent chains end at the start |
| Route.Chain | core/map/Path.cpp:126-128 | the chain collected from a node starts at that node |
| Route.ChainEnd | core/map/Path.cpp:126-128 | the collected chain ends at the search's start |
| Route.ChainsShrink | core/Map.cpp:375-378 | after rewriting, every node of a chain was on the original chain |
| Route.RewriteKeeps | core/Map.cpp:375-378 | re-parenting prev to a walkable node further along its chain, past a node cur not in line with the two, keeps chains finite and every rewrite recorded |
| Route.Reverse | core/map/Path.cpp:129 | the reversal has the same length and mirrored positions |
| Route.Collect | core/map/Path.cpp:125-128 | the collect loop returns exactly the parent chain from dest |
| Route.PlainTo | core/map/Path.cpp:109-131 | [dest] when dest.z = -1, [sentinel, dest] when dest's parent is the sentinel, and otherwise the reversed parent chain |
| Route.PlainStep | core/map/Path.cpp:115-122 | one turn of the read-only loop keeps prev behind cur on dest's chain |
| Route.To | core/Map.cpp:367-393 | the same three cases as Path::to, over the rewritten parents. Every rewrite points further along the original chain, is walkable, skips a node of that chain not in line with the two ends, and keeps chains finite |
| Route.Straighten | core/Map.cpp:372-386 | the rewriting loop keeps the chains. It re-parents only to walkable nodes further along the chain, past a node not in line with the two |
| Route.Shortcut | core/Map.cpp:375-384 | one turn of the rewriting loop, by cases. In line: nothing changes and cur moves to next. Not in line and walkable: only prev's parent changes, to next, and cur moves to next. Otherwise nothing changes, prev moves to its parent, and cur moves to next when that parent equals cur (ignoring z). Each turn lowers cur's rank, or keeps cur and lowers prev's |
| Route.MovePrev | core/Map.cpp:379-381 | prev moves to its parent, and cur to next when that parent equals cur (ignoring z). The new prev stays behind the new cur |
| Route.CutOut | core/Map.cpp:375-377 | only prev's parent changes, to next; next keeps its distance and prev is behind next |
| Route.PathShape | core/map/Path.cpp:125-129 | the path runs from the start to dest, and each node's parent is the node before it |
| Route.ParentEdge | core/map/Path.cpp:93-96 | a reached node's parent has an edge to it |
| Route.PlainPathFollowsEdges | core/map/Path.cpp:109-131 | consecutive nodes of the returned path are joined by search edges |
| Route.ShortcutPath | core/Map.cpp:367-393 | the returned path runs from the start to dest through nodes of the original chain. Each step is an original parent link or walkable |
| Walk.TDivModSpec | core/Map.cpp:458 | C++ division: a = b * (a / b) + a % b, abs(a % b) < abs(b), and the remainder has a's sign |
| Walk.TruncationDiffersFromEuclid | core/Map.cpp:458 | -1 / 2 is 0 and -1 % 2 is -1 in C++, unlike Euclidean division |
| Walk.InLine | core/Map.cpp:452-459 | in line only on one floor, and on one floor a is in line with b and b itself |
| Walk.IsWalkableAsWritten | core/Map.cpp:394-405 | as written, is_walkable holds only on one floor, between cells more than one step apart in x or in y |
| Walk.InLineNeedsOneFloor | core/Map.cpp:453 | in_line is false across floors |
| Walk.InLineOnRow | core/Map.cpp:457 | when a and b share a row, in_line holds iff c is on it too |
| Walk.InLineSameRow | core/Map.cpp:455-458 | for b and c on one row off a's row, in_line holds iff b = c |
| Walk.InLineNotScaleInvariant | core/Map.cpp:455-458 | equal offsets are in line. Offsets (1, 2) and (2, 4) are not |
| Walk.WalkAsWrittenOvershoots | core/Map.cpp:446-448 | as written, the walk from (0, 0) to (3, 1) ends at (2, 2). The corrected walk ends at (3, 1) |
| Walk.WalkLoopSteps | core/Map.cpp:438-449 | each walked cell is one unit step in x or in y from the one before |
| Walk.WalkLoopReachesEnd | core/Map.cpp:438-449 | with the error term kept, a steps in x and b in y end a along x and b along y |
| Walk.WalkCellsSpec | core/Map.cpp:431-451 | the walk checks 1 + abs(dx) + abs(dy) cells from start to end, each one unit step towards the end |
| Walk.TestWalk | core/Map.cpp:431-451 | true iff every walked cell is flat towards every listed direction |
| Walk.LanesAsWrittenLeaveTheRow | core/Map.cpp:398-400 | as written, the eastward lane from (0, 0) to (5, 0) runs to (3, -2) and tests (1, -1). With unit offsets it runs to (4, 0) |
| Walk.SouthLaneAsWrittenLeavesTheColumn | core/Map.cpp:375-376 | (2, 0), (3, 2), (2, 5) are not in line. As written, the one lane from (2, 0) to (2, 5) runs to (1, 4) and visits (2, 0), (2, 1), (1, 1), (1, 2), (0, 2), (0, 3), never (2, 3). With unit offsets the lane runs to (2, 4) and visits (2, 3) |
| Walk.Walkable | core/Map.cpp:394-405 | false across floors and for neighbours. Otherwise it is true iff every lane (one straight, or two flanking a diagonal) is flat |
| Walk.TestLanes | core/Map.cpp:399-405 | true iff every lane is flat; the second of two lanes is tested only when the first passes |
| Walk.StraightWalkable | core/Map.cpp:398-400 | a straight line of len >= 2 is walkable iff every edge along it on that floor is flat towards its direction |
| Walk.TestArea | core/Map.cpp:460-470 | after ordering the corners: true iff every cell is flat East except in the last column, and flat South except in the last row |
| Walk.TestColumn | core/Map.cpp:464-467 | true iff every cell of column x between the corners is flat East unless in the last column and flat South unless in the last row |
| Walk.AreaOfOneCell | core/Map.cpp:460-470 | a single cell is always an open area |

## Left out

- **The extra passes of `Fov::calc` (core/map/Fov.cpp:161-178).** Both work on the viewer's floor and change nothing, so `Fov.Calc` omits them. The re-run of calc_fov_quadrant for quadrants whose diagonal neighbour is off the map sets the same cells again, because a sweep reads the map and the viewer, not the grid. The final scan sets only cells that are already set.
- **Multi-floor field of view in the twin (core/Map.cpp:235-261).** The passes over lower and upper floors are not modelled. The lower-floor pass re-runs the sweeps with the source moved to each lower floor. The upper-floor loop tests `has_tile(pos)` at the fixed viewer, so its exit does not depend on z.
- **The twin field of view in core/Map.cpp:86-227.** It has the same algorithm on `Pos3`, with the floor carried through. The single `Fov` module models both on the viewer's floor. Its `act_is_blocked` reads `is_blocked` on the viewer's floor, and the model does too.
- **Where act_is_blocked looks.** It tests the walls at the quadrant-local position, not at the square's map position (core/map/Fov.cpp:78). The model keeps this: `BlockedSquares` holds the quadrant-local positions that look blocked, and every occlusion lemma is stated over them.
- **visit_square's active_fields argument.** It takes the list by value while `cur_field` points into the caller's list, which is undefined behaviour. The model uses one shared list.
- **Aborting assertions.** A grid assertion that fails is modelled as `ok = false` and an early return. This covers the field of view marking a square outside its box, a fov box with a negative side, a search whose start lies outside its box and a climb above floor 255 in the search.
- Search.StartGrid: requires start in the box, because the program's first `path_grid.get(start)` asserts it. `Search.Calc` tests this first and fails when it does not hold.
- **Floating point.** Radii and costs are floats in the program. The model uses tenths of a tile as natural numbers, so `radius_i` is a ceiling over tenths.
- **Heap order.** The priority queue and its keys that change after they are pushed are not modelled. The worklist pops in any order, and every proved property holds for all orders. CLOSED is never assigned, as in the program.
- **Segment banding.** `segment` and `num_segments` are never computed by either search. Only the field's default 0 is stated.
- **Pointers.** Bumps, units and path-node parents are held by index or position, not by address. The registry's `&units.back()` aliasing into a growing vector is not modelled.
- Search.Drain: the program's queue holds `PathNode*` pointers into the columns of `path_grid` (core/map/Path.cpp:19-20, 97; core/Map.cpp:280, 357), and every neighbour is read through the mutable `get`, which grows its column with `push_back` (core/map/Grid.h:37-39). A relaxation onto a higher floor of a column that already holds a queued node can move that column's storage and leave the queued pointer dangling; popping it then reads freed memory. The model queues positions, so it assumes every queued node stays valid, and `Search.Calc`, `Reach.FinalStates` and `Reach.Cheapest` describe the program only on runs where no queued column is regrown.
- Walk.InLine: when the b offset has a nonzero y and the c offset has y = 0, the program divides by zero (undefined behaviour). The model answers false there.
- Walk.TestWalk: walks with the corrected error term (`error += d.x` on a y-step), not the program's `error += d.y` (core/Map.cpp:447, second Findings row). The two visit different cells, so the program's test_walk can pass where this one fails, and the reverse.
- Walk.TestLanes: tests its lanes with the corrected `TestWalk`, not the program's walk.
- Walk.Walkable: uses unit offsets and the corrected walk (second and third Findings rows), not the program's ordinal offsets and `error += d.y`. They differ on concrete inputs. With a Blocking South wall on (2, 3) and nothing else, the program's lane from (2, 0) to (1, 4) visits (2, 0), (2, 1), (1, 1), (1, 2), (0, 2) and (0, 3) and never tests (2, 3), while `Walkable` from (2, 0) to (2, 5) tests (2, 0) to (2, 4) and fails. `Walk.SouthLaneAsWrittenLeavesTheColumn` proves these cells. `IsWalkableAsWritten` states the program's version. Only its floor and distance conditions are proved about it.
- Route.To: re-parents by the corrected `Walk.IsWalkable`, not the program's is_walkable, so on the input above (prev (2, 0), cur (3, 2), next (2, 5)) the program re-parents prev to next through the wall and the model does not.
- Route.To: the program reads dest through the mutable `get`, which asserts that dest lies in the box and pads its column. The model requires dest in the box and reads it without padding.
- Route.Straighten: "walkable" means the corrected `Walk.IsWalkable`, not the program's is_walkable (see Walk.Walkable above).
- Route.Straighten: its contract bounds the rewrites the loop may make (`Reparented`) but does not say which ones it makes: a loop that rewrote nothing would meet it too. The rewrite of each turn is stated by `Route.Shortcut`, one ensures per branch.
- Route.To: like Straighten, it states which rewrites are allowed and the path returned over them, not which rewrites happen. That is stated per turn by `Route.Shortcut`.
- Route.Shortcut: decides each re-parenting by the corrected `Walk.Walkable`, so it re-parents where the program does not, and the reverse.
- Route.CutOut: requires the corrected `Walk.IsWalkable`; the program cuts out on its own is_walkable.
- Route.RewriteKeeps: requires the corrected `Walk.IsWalkable`, so re-parentings the program makes under its own is_walkable are outside the lemma.
- Route.ShortcutPath: the steps it calls walkable are walkable by the corrected `Walk.IsWalkable`, not by the program's is_walkable.
- Terrain.Map.HasTile: a negative z compares signed with unsigned in the program, so the model answers false.
- Units.Unit.CanSee: `Grid.h` as seen from core/Unit.h is not part of this model. The unit's view is modelled with the layered grid and read on floor 0.
- **Rendering, input and scripting.** SFML rendering, the event loop, the scripting bindings, map generation in the game driver and the float helpers of `Vec.h` are outside the core and are left out.
- **UI callbacks.** They are modelled as a tagged action value. `get_callback` in core/UI.h is represented by `GetAction` as in core/UI.cpp.

## Findings

| source | as written | input that shows it | evidently intended | confidence | as-written member | corrected member |
|---|---|---|---|---|---|---|
| core/map/Fov.cpp:128-135 | `cur_field` is set once before the ring loop and never returned to the first field. Visiting (0, 0) moves it past the only field, so every later ring stops at once | any quadrant with extent >= 1 in both axes: only the viewer's square is ever marked | reset the current field to the first active field at the start of each ring | high (not executed) | Fov.CalcQuadrantAsWritten | Fov.CalcQuadrant |
| core/Map.cpp:447 | the y-step of test_walk adds `d.y` to the error term | walk from (0, 0) to (3, 1) visits (2, 2) and ends there instead of at (3, 1) | add `d.x`, as in Bresenham's error-term walk | high (not executed) | Walk.WalkAsWrittenOvershoots | Walk.WalkCellsSpec |
| core/Map.cpp:398-404 | `pos + dir` and `pos - dir` resolve to the scalar `operator+(Vector2, double)` (core/map/Vec.h:234-236), adding the direction's enum value to both coordinates | the eastward line (0, 0) to (5, 0) tests the lane to (3, -2), including cell (1, -1) | offset by the direction's unit vector | high (not executed) | Walk.LanesAsWrittenLeaveTheRow | Walk.StraightWalkable |
