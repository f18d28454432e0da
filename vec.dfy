/** Integer lattice primitives: the four directions and the integer
    two- and three-component positions with their component-wise arithmetic. */
module Vec {

  /** The four compass directions, in the order of their enum values. */
  datatype Dir = North | South | East | West

  /** The integer value of a direction (North = 0, South = 1, East = 2, West = 3).
      C++ converts a `Dir` to this integer wherever it is used as a number. */
  function Ord(d: Dir): (n: int)
    ensures 0 <= n <= 3
  {
    match d
    case North => 0
    case South => 1
    case East => 2
    case West => 3
  }

  lemma OrdInjective(d: Dir, e: Dir)
    ensures Ord(d) == Ord(e) ==> d == e
  {
  }

  predicate IsHorizontal(d: Dir) {
    d == East || d == West
  }

  /** The opposite direction. */
  function Flip(d: Dir): (r: Dir)
    ensures r != d
    ensures IsHorizontal(r) == IsHorizontal(d)
  {
    match d
    case North => South
    case South => North
    case East => West
    case West => East
  }

  lemma FlipInvolution(d: Dir)
    ensures Flip(Flip(d)) == d
    ensures Unit(Flip(d)) == Neg(Unit(d))
  {
  }

  datatype Pos2 = Pos2(x: int, y: int)
  datatype Pos3 = Pos3(x: int, y: int, z: int)

  /** The unit vector of a direction; y grows towards the South. */
  function Unit(d: Dir): (v: Pos2)
    ensures AbsInt(v.x) + AbsInt(v.y) == 1
    ensures (v.y == -1 <==> d == North) && (v.y == 1 <==> d == South)
    ensures (v.x == 1 <==> d == East) && (v.x == -1 <==> d == West)
  {
    match d
    case North => Pos2(0, -1)
    case South => Pos2(0, 1)
    case East => Pos2(1, 0)
    case West => Pos2(-1, 0)
  }

  function AbsInt(n: int): nat {
    if n < 0 then -n else n
  }

  function MaxInt(a: int, b: int): int {
    if a < b then b else a
  }

  function MinInt(a: int, b: int): int {
    if a < b then a else b
  }

  function Add(a: Pos2, b: Pos2): Pos2 {
    Pos2(a.x + b.x, a.y + b.y)
  }

  function Sub(a: Pos2, b: Pos2): Pos2 {
    Pos2(a.x - b.x, a.y - b.y)
  }

  /** Component-wise product. */
  function Mul(a: Pos2, b: Pos2): Pos2 {
    Pos2(a.x * b.x, a.y * b.y)
  }

  function Scale(a: Pos2, k: int): Pos2 {
    Pos2(a.x * k, a.y * k)
  }

  /** Adding a scalar adds it to both components. */
  function AddScalar(a: Pos2, k: int): Pos2 {
    Pos2(a.x + k, a.y + k)
  }

  function Neg(a: Pos2): Pos2 {
    Pos2(-a.x, -a.y)
  }

  /** The z component of the cross product of two plane vectors. */
  function Cross(a: Pos2, b: Pos2): int {
    a.x * b.y - b.x * a.y
  }

  lemma CrossAntisymmetric(a: Pos2, b: Pos2)
    ensures Cross(a, b) == -Cross(b, a)
    ensures Cross(a, a) == 0
  {
  }

  function Abs(a: Pos2): (r: Pos2)
    ensures r.x >= 0 && r.y >= 0
  {
    Pos2(AbsInt(a.x), AbsInt(a.y))
  }

  function Max(a: Pos2, b: Pos2): (r: Pos2)
    ensures r.x >= a.x && r.x >= b.x && (r.x == a.x || r.x == b.x)
    ensures r.y >= a.y && r.y >= b.y && (r.y == a.y || r.y == b.y)
  {
    Pos2(MaxInt(a.x, b.x), MaxInt(a.y, b.y))
  }

  function Min(a: Pos2, b: Pos2): (r: Pos2)
    ensures r.x <= a.x && r.x <= b.x && (r.x == a.x || r.x == b.x)
    ensures r.y <= a.y && r.y <= b.y && (r.y == a.y || r.y == b.y)
  {
    Pos2(MinInt(a.x, b.x), MinInt(a.y, b.y))
  }

  /** Row-major index of a position in a grid of the given width. */
  function Idx(p: Pos2, width: int): int {
    p.x + Times(p.y, width)
  }

  /** The index is x + y * width. */
  lemma IdxIsRowMajor(p: Pos2, width: int)
    ensures Idx(p, width) == p.x + p.y * width
  {
    TimesIsProduct(p.y, width);
  }

  /** n * k, as n copies of k added up (taken away when n is negative);
      TimesIsProduct shows the two agree. Written as a sum, a product
      stays linear arithmetic wherever its value is not needed. */
  function Times(n: int, k: int): (r: int)
    ensures n >= 0 && k >= 0 ==> r >= 0
    decreases if n < 0 then -n else n
  {
    if n == 0 then 0 else if n > 0 then Times(n - 1, k) + k else Times(n + 1, k) - k
  }

  lemma {:induction false} TimesIsProduct(n: int, k: int)
    ensures Times(n, k) == n * k
    decreases if n < 0 then -n else n
  {
    if n > 0 {
      TimesIsProduct(n - 1, k);
    } else if n < 0 {
      TimesIsProduct(n + 1, k);
    }
  }

  lemma TimesSucc(n: int, k: int)
    ensures Times(n + 1, k) == Times(n, k) + k
  {
  }

  /** For k >= 0, rows further down start at least a whole row later. */
  lemma {:induction false} TimesGap(a: int, b: int, k: int)
    requires a < b && k >= 0
    ensures Times(a, k) + k <= Times(b, k)
    decreases b - a
  {
    TimesSucc(b - 1, k);
    if a < b - 1 {
      TimesGap(a, b - 1, k);
    }
  }

  /** The directions of the nonzero components of a displacement: the vertical
      one first, unless |x| > |y|, in which case the horizontal one comes first. */
  function Dirs(p: Pos2): (r: seq<Dir>)
    ensures |r| == (if p.x != 0 then 1 else 0) + (if p.y != 0 then 1 else 0)
    ensures South in r <==> p.y > 0
    ensures North in r <==> p.y < 0
    ensures East in r <==> p.x > 0
    ensures West in r <==> p.x < 0
    ensures |r| == 2 ==> IsHorizontal(r[0]) != IsHorizontal(r[1])
    ensures |r| == 2 ==> (IsHorizontal(r[0]) <==> AbsInt(p.x) > AbsInt(p.y))
  {
    var vertical := if p.y > 0 then [South] else if p.y < 0 then [North] else [];
    var horizontal := if p.x > 0 then [East] else if p.x < 0 then [West] else [];
    var res := vertical + horizontal;
    if |res| == 2 && AbsInt(p.x) > AbsInt(p.y) then [res[1], res[0]] else res
  }

  lemma DirsOfUnit(d: Dir)
    ensures Dirs(Unit(d)) == [d]
  {
  }

  /** The plane part of a three-component position. */
  function Flat(p: Pos3): Pos2 {
    Pos2(p.x, p.y)
  }

  function Lift(p: Pos2, z: int): Pos3 {
    Pos3(p.x, p.y, z)
  }

  function Add3(a: Pos3, b: Pos3): Pos3 {
    Pos3(a.x + b.x, a.y + b.y, a.z + b.z)
  }

  function Sub3(a: Pos3, b: Pos3): Pos3 {
    Pos3(a.x - b.x, a.y - b.y, a.z - b.z)
  }

  /** The neighbour of a position one step in a direction, on the same floor. */
  function Step3(p: Pos3, d: Dir): (q: Pos3)
    ensures q.z == p.z && Flat(q) == Add(Flat(p), Unit(d))
  {
    Add3(Lift(Unit(d), 0), p)
  }

  lemma StepBack(p: Pos3, d: Dir)
    ensures Step3(Step3(p, d), Flip(d)) == p
  {
  }

  /** Equality of three-component positions as the program defines it: only
      x and y are compared, so positions on different floors can be equal. */
  predicate Same3(a: Pos3, b: Pos3) {
    a.x == b.x && a.y == b.y
  }

  lemma Same3IgnoresFloor(a: Pos3, z: int)
    ensures Same3(a, Pos3(a.x, a.y, z))
    ensures z != a.z ==> Pos3(a.x, a.y, z) != a
  {
  }
}
