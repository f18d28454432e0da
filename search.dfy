/** The label-correcting search over a path grid, and what its result
    means: the distance of every node within the radius is the cost of the
    cheapest walk to it, and every reached node's parent chain leads back
    to the start. A path grid is read as a value, a Board. */
module Search {
  import opened Vec
  import opened Grids
  import opened Wrappers
  import opened Terrain
  import opened Paths

  /** The columns of a path grid with its size and offset. */
  datatype Board = Board(cells: seq<seq<Node>>, size: Pos2, offset: Pos2)

  /** The node every read of the grid sees at p. */
  function NodeAt(b: Board, p: Pos3): Node {
    Lookup(b.cells, b.size, b.offset, Fresh, p)
  }

  /** p carries a finite distance of at most d. */
  predicate Reached(b: Board, p: Pos3, d: int) {
    NodeAt(b, p).dist.Some? && NodeAt(b, p).dist.value <= d
  }

  /** The edges of u in the path grid b covers. */
  function BoardEdges(m: Map, s: Settings, b: Board, u: Pos3): seq<Edge>
    reads m, m.grid
    requires m.TilesValid()
  {
    Edges(m, s, b.size, b.offset, u)
  }

  // ----- The invariants of the search -----

  /** A node without a distance was never touched. */
  ghost predicate NoneFresh(b: Board) {
    forall p :: NodeAt(b, p).dist.None? ==> NodeAt(b, p) == Fresh
  }

  /** CLOSED is never assigned. */
  ghost predicate NeverClosed(b: Board) {
    forall p :: NodeAt(b, p).state != Closed
  }

  /** A reached node records its own position. */
  ghost predicate Located(b: Board) {
    forall p :: NodeAt(b, p).dist.Some? ==> NodeAt(b, p).pos == p
  }

  /** A reached node that is not waiting in the worklist has been
      classified by its distance. */
  ghost predicate Settled(b: Board, radius: nat, work: seq<Pos3>) {
    forall p :: NodeAt(b, p).dist.Some? && p !in work ==>
      NodeAt(b, p).state == (if NodeAt(b, p).dist.value <= radius then Accessable else Inaccessable)
  }

  /** An accessible node lies within the radius. */
  ghost predicate AccessWithin(b: Board, radius: nat) {
    forall p :: NodeAt(b, p).state == Accessable ==> Reached(b, p, radius)
  }

  /** Every distance is below cap. */
  ghost predicate Bounded(b: Board, cap: nat) {
    forall p :: NodeAt(b, p).dist.Some? ==> NodeAt(b, p).dist.value < cap
  }

  /** Every node in the worklist has been reached. */
  ghost predicate WorkReached(b: Board, work: seq<Pos3>) {
    forall i :: 0 <= i < |work| ==> NodeAt(b, work[i]).dist.Some?
  }

  /** Every reached node has a stamp older than the clock. */
  ghost predicate Stamped(b: Board, stamp: map<Pos3, nat>, clock: nat) {
    forall p :: NodeAt(b, p).dist.Some? ==> p in stamp && stamp[p] < clock
  }

  /** All edges of u lead to nodes reached within u's distance plus the
      edge's cost. */
  ghost predicate EdgesReached(m: Map, s: Settings, b: Board, u: Pos3)
    reads m, m.grid
    requires m.TilesValid()
  {
    NodeAt(b, u).dist.Some?
    && forall e :: e in BoardEdges(m, s, b, u) ==> Reached(b, e.to, NodeAt(b, u).dist.value + e.cost)
  }

  /** Every accessible node that is not waiting in the worklist, except
      the one being expanded, has all its edges relaxed. */
  ghost predicate Relaxed(m: Map, s: Settings, b: Board, work: seq<Pos3>, except: Option<Pos3>)
    reads m, m.grid
    requires m.TilesValid()
  {
    forall u {:trigger EdgesReached(m, s, b, u)} :: NodeAt(b, u).state == Accessable && u !in work && except != Some(u) ==> EdgesReached(m, s, b, u)
  }

  /** (d1, s1) comes before (d2, s2): a smaller distance, or the same
      distance and an older stamp. */
  predicate RankBelow(d1: nat, s1: nat, d2: nat, s2: nat) {
    d1 < d2 || (d1 == d2 && s1 < s2)
  }

  /** v's parent is an accessible node with an edge to v whose cost keeps
      within v's distance, and the parent ranks below v. */
  ghost predicate ParentOk(m: Map, s: Settings, b: Board, stamp: map<Pos3, nat>, v: Pos3)
    reads m, m.grid
    requires m.TilesValid()
  {
    var n := NodeAt(b, v);
    var u := n.parent;
    var pn := NodeAt(b, u);
    var es := BoardEdges(m, s, b, u);
    n.dist.Some? && pn.state == Accessable && pn.dist.Some? && u in stamp && v in stamp
    && (exists i :: 0 <= i < |es| && es[i].to == v && pn.dist.value + es[i].cost <= n.dist.value)
    && RankBelow(pn.dist.value, stamp[u], n.dist.value, stamp[v])
  }

  /** The start has distance 0 and no parent; every other reached node
      has a proper parent. */
  ghost predicate Parents(m: Map, s: Settings, b: Board, start: Pos3, stamp: map<Pos3, nat>)
    reads m, m.grid
    requires m.TilesValid()
  {
    NodeAt(b, start).dist == Some(0) && NodeAt(b, start).parent == Sentinel
    && forall v {:trigger ParentOk(m, s, b, stamp, v)} :: NodeAt(b, v).dist.Some? && v != start ==> ParentOk(m, s, b, stamp, v)
  }

  // ----- The potential that bounds the search -----

  /** A node's share of the potential: its distance, or cap when unreached. */
  function Weight(n: Node, cap: nat): nat {
    if n.dist.Some? then n.dist.value else cap
  }

  /** The weights of a column's floors 0 to MaxHeight. */
  function ColumnWeights(cells: seq<seq<Node>>, k: int, cap: nat): (w: seq<nat>)
    requires 0 <= k < |cells|
    ensures |w| == MaxHeight + 1
    ensures forall z :: 0 <= z < |w| ==> w[z] == Weight(CellOf(cells, Fresh, k, z), cap)
  {
    seq(MaxHeight + 1, z requires 0 <= z => Weight(CellOf(cells, Fresh, k, z), cap))
  }

  function Sum(xs: seq<nat>): nat {
    if xs == [] then 0 else xs[0] + Sum(xs[1..])
  }

  lemma {:induction false} SumLe(a: seq<nat>, b: seq<nat>)
    requires |a| == |b| && forall i :: 0 <= i < |a| ==> b[i] <= a[i]
    ensures Sum(b) <= Sum(a)
  {
    if a != [] {
      SumLe(a[1..], b[1..]);
    }
  }

  lemma {:induction false} SumLt(a: seq<nat>, b: seq<nat>, i0: nat)
    requires |a| == |b| && i0 < |a| && b[i0] < a[i0]
    requires forall i :: 0 <= i < |a| ==> b[i] <= a[i]
    ensures Sum(b) < Sum(a)
  {
    if i0 == 0 {
      SumLe(a[1..], b[1..]);
    } else {
      SumLt(a[1..], b[1..], i0 - 1);
    }
  }

  /** The potentials of the columns. */
  function ColumnPots(cells: seq<seq<Node>>, cap: nat): (w: seq<nat>)
    ensures |w| == |cells|
    ensures forall k :: 0 <= k < |w| ==> w[k] == Sum(ColumnWeights(cells, k, cap))
  {
    seq(|cells|, k requires 0 <= k < |cells| => Sum(ColumnWeights(cells, k, cap)))
  }

  /** The sum of the weights of every cell on every floor of the grid. */
  function Pot(cells: seq<seq<Node>>, cap: nat): nat {
    Sum(ColumnPots(cells, cap))
  }

  /** No cell's weight grew. */
  ghost predicate WeightsLe(c1: seq<seq<Node>>, c2: seq<seq<Node>>, cap: nat) {
    |c1| == |c2|
    && forall k, z :: 0 <= k < |c1| && 0 <= z <= MaxHeight ==>
      Weight(CellOf(c2, Fresh, k, z), cap) <= Weight(CellOf(c1, Fresh, k, z), cap)
  }

  lemma ColumnsLe(c1: seq<seq<Node>>, c2: seq<seq<Node>>, cap: nat)
    requires WeightsLe(c1, c2, cap)
    ensures forall k :: 0 <= k < |c1| ==> ColumnPots(c2, cap)[k] <= ColumnPots(c1, cap)[k]
  {
    forall k | 0 <= k < |c1|
      ensures ColumnPots(c2, cap)[k] <= ColumnPots(c1, cap)[k]
    {
      SumLe(ColumnWeights(c1, k, cap), ColumnWeights(c2, k, cap));
    }
  }

  /** Lowering one cell's weight and keeping every other cell lowers the
      potential. */
  lemma PotDrops(c1: seq<seq<Node>>, c2: seq<seq<Node>>, k0: nat, z0: nat, cap: nat)
    requires |c1| == |c2| && k0 < |c1| && z0 <= MaxHeight
    requires forall k, z :: 0 <= k < |c1| && (k != k0 || z != z0) ==> CellOf(c2, Fresh, k, z) == CellOf(c1, Fresh, k, z)
    requires Weight(CellOf(c2, Fresh, k0, z0), cap) < Weight(CellOf(c1, Fresh, k0, z0), cap)
    ensures Pot(c2, cap) < Pot(c1, cap)
  {
    ColumnsLe(c1, c2, cap);
    SumLt(ColumnWeights(c1, k0, cap), ColumnWeights(c2, k0, cap), z0);
    SumLt(ColumnPots(c1, cap), ColumnPots(c2, cap), k0);
  }

  /** Changing one cell without changing its weight keeps the potential. */
  lemma PotKeeps(c1: seq<seq<Node>>, c2: seq<seq<Node>>, k0: nat, z0: nat, cap: nat)
    requires |c1| == |c2| && k0 < |c1|
    requires forall k, z :: 0 <= k < |c1| && (k != k0 || z != z0) ==> CellOf(c2, Fresh, k, z) == CellOf(c1, Fresh, k, z)
    requires Weight(CellOf(c2, Fresh, k0, z0), cap) == Weight(CellOf(c1, Fresh, k0, z0), cap)
    ensures Pot(c2, cap) == Pot(c1, cap)
  {
    ColumnsLe(c1, c2, cap);
    ColumnsLe(c2, c1, cap);
    SumLe(ColumnPots(c1, cap), ColumnPots(c2, cap));
    SumLe(ColumnPots(c2, cap), ColumnPots(c1, cap));
  }

  // ----- One relaxation -----

  /** The invariant of the search; except names the node being expanded,
      whose edges are not yet all relaxed. */
  ghost predicate SearchInv(m: Map, s: Settings, radius: nat, start: Pos3, b: Board, work: seq<Pos3>,
                            stamp: map<Pos3, nat>, clock: nat, except: Option<Pos3>)
    reads m, m.grid
    requires m.TilesValid()
  {
    NoneFresh(b) && NeverClosed(b) && Located(b) && Settled(b, radius, work) && AccessWithin(b, radius)
    && Bounded(b, radius + MaxStep(s) + 1) && WorkReached(b, work) && Stamped(b, stamp, clock)
    && Relaxed(m, s, b, work, except) && Parents(m, s, b, start, stamp)
  }

  /** b2 reads like b1 everywhere except perhaps at v. */
  ghost predicate AgreeExcept(b1: Board, b2: Board, v: Pos3) {
    b2.size == b1.size && b2.offset == b1.offset
    && forall p :: p != v ==> NodeAt(b2, p) == NodeAt(b1, p)
  }

  /** No distance was lost or grew from b1 to b2. */
  ghost predicate DistsLe(b1: Board, b2: Board) {
    forall p :: NodeAt(b1, p).dist.Some? ==>
      NodeAt(b2, p).dist.Some? && NodeAt(b2, p).dist.value <= NodeAt(b1, p).dist.value
  }

  /** The node a relaxation of v from u leaves: v's state is kept. */
  function Relaxation(old_: Node, v: Pos3, u: Pos3, alt: nat): Node {
    Node(v, old_.state, u, Some(alt))
  }

  /** The relaxation improves on v's distance. */
  predicate Improves(n: Node, alt: nat) {
    n.dist.None? || alt < n.dist.value
  }

  /** The facts about one relaxation step b1 -> b2 of v from u along edge j. */
  ghost predicate RelaxStep(m: Map, s: Settings, b1: Board, b2: Board, u: Pos3, j: nat, alt: nat)
    reads m, m.grid
    requires m.TilesValid()
  {
    var es := BoardEdges(m, s, b1, u);
    j < |es| && u != es[j].to
    && NodeAt(b1, u).dist.Some? && alt == NodeAt(b1, u).dist.value + es[j].cost
    && Improves(NodeAt(b1, es[j].to), alt)
    && AgreeExcept(b1, b2, es[j].to)
    && NodeAt(b2, es[j].to) == Relaxation(NodeAt(b1, es[j].to), es[j].to, u, alt)
  }

  lemma RelaxDistsLe(b1: Board, b2: Board, v: Pos3, alt: nat)
    requires AgreeExcept(b1, b2, v) && Improves(NodeAt(b1, v), alt) && NodeAt(b2, v).dist == Some(alt)
    ensures DistsLe(b1, b2)
  {
  }

  lemma RelaxPlain(b1: Board, b2: Board, v: Pos3, u: Pos3, alt: nat, radius: nat, cap: nat, work: seq<Pos3>)
    requires AgreeExcept(b1, b2, v) && Improves(NodeAt(b1, v), alt)
    requires NodeAt(b2, v) == Relaxation(NodeAt(b1, v), v, u, alt) && alt < cap
    requires NoneFresh(b1) && NeverClosed(b1) && Located(b1) && Settled(b1, radius, work)
    requires AccessWithin(b1, radius) && Bounded(b1, cap) && WorkReached(b1, work)
    ensures NoneFresh(b2) && NeverClosed(b2) && Located(b2) && Settled(b2, radius, work + [v])
    ensures AccessWithin(b2, radius) && Bounded(b2, cap) && WorkReached(b2, work + [v])
  {
    forall p | NodeAt(b2, p).dist.None?
      ensures NodeAt(b2, p) == Fresh
    {
      assert p != v;
    }
    forall p | NodeAt(b2, p).state == Accessable
      ensures Reached(b2, p, radius)
    {
      if p == v {
        assert NodeAt(b1, p).state == Accessable;
      }
    }
    forall p | NodeAt(b2, p).dist.Some? && p !in work + [v]
      ensures NodeAt(b2, p).state == (if NodeAt(b2, p).dist.value <= radius then Accessable else Inaccessable)
    {
      assert p != v && p !in work;
    }
    forall i | 0 <= i < |work + [v]|
      ensures NodeAt(b2, (work + [v])[i]).dist.Some?
    {
      if i < |work| {
        assert (work + [v])[i] == work[i];
      }
    }
  }

  lemma RelaxStamped(b1: Board, b2: Board, v: Pos3, alt: nat, stamp: map<Pos3, nat>, clock: nat)
    requires AgreeExcept(b1, b2, v) && NodeAt(b2, v).dist == Some(alt)
    requires Stamped(b1, stamp, clock)
    ensures Stamped(b2, stamp[v := clock], clock + 1)
  {
    forall p | NodeAt(b2, p).dist.Some?
      ensures p in stamp[v := clock] && stamp[v := clock][p] < clock + 1
    {
      if p != v {
        assert NodeAt(b1, p).dist.Some?;
      }
    }
  }

  /** Relaxing never undoes the relaxed edges of another node. */
  lemma RelaxKeepsRelaxed(m: Map, s: Settings, b1: Board, b2: Board, v: Pos3, u: Pos3, work: seq<Pos3>)
    requires m.TilesValid()
    requires AgreeExcept(b1, b2, v) && DistsLe(b1, b2)
    requires Relaxed(m, s, b1, work, Some(u))
    ensures Relaxed(m, s, b2, work + [v], Some(u))
  {
    forall w | NodeAt(b2, w).state == Accessable && w !in work + [v] && Some(u) != Some(w)
      ensures EdgesReached(m, s, b2, w)
    {
      assert w != v && w !in work;
      assert EdgesReached(m, s, b1, w);
      assert BoardEdges(m, s, b2, w) == BoardEdges(m, s, b1, w);
      forall e | e in BoardEdges(m, s, b2, w)
        ensures Reached(b2, e.to, NodeAt(b2, w).dist.value + e.cost)
      {
        assert Reached(b1, e.to, NodeAt(b1, w).dist.value + e.cost);
      }
    }
  }

  /** A relaxation gives v a proper parent, u, and leaves every other
      node's parent proper. */
  lemma RelaxKeepsParents(m: Map, s: Settings, b1: Board, b2: Board, u: Pos3, j: nat, alt: nat,
                          start: Pos3, stamp: map<Pos3, nat>, clock: nat)
    requires m.TilesValid()
    requires RelaxStep(m, s, b1, b2, u, j, alt)
    requires Parents(m, s, b1, start, stamp) && Stamped(b1, stamp, clock)
    requires NodeAt(b1, u).state == Accessable
    ensures Parents(m, s, b2, start, stamp[BoardEdges(m, s, b1, u)[j].to := clock])
  {
    var es := BoardEdges(m, s, b1, u);
    var v := es[j].to;
    var st2 := stamp[v := clock];
    assert v != start;
    forall w | NodeAt(b2, w).dist.Some? && w != start
      ensures ParentOk(m, s, b2, st2, w)
    {
      if w == v {
        assert NodeAt(b2, u) == NodeAt(b1, u);
        assert BoardEdges(m, s, b2, u) == es;
        assert es[j].to == v && NodeAt(b2, u).dist.value + es[j].cost <= NodeAt(b2, v).dist.value;
      } else {
        assert NodeAt(b2, w) == NodeAt(b1, w);
        assert ParentOk(m, s, b1, stamp, w);
        var pw := NodeAt(b1, w).parent;
        var ew := BoardEdges(m, s, b1, pw);
        assert BoardEdges(m, s, b2, pw) == ew;
        var i :| 0 <= i < |ew| && ew[i].to == w && NodeAt(b1, pw).dist.value + ew[i].cost <= NodeAt(b1, w).dist.value;
        if pw == v {
          assert NodeAt(b2, pw).dist.value + ew[i].cost <= NodeAt(b2, w).dist.value;
        } else {
          assert NodeAt(b2, pw) == NodeAt(b1, pw);
        }
      }
    }
  }

  /** One relaxation keeps the invariant, lowers no distance it should
      not, and leaves the edge's target reached within alt. */
  lemma RelaxKeeps(m: Map, s: Settings, radius: nat, start: Pos3, b1: Board, b2: Board, u: Pos3, j: nat,
                   alt: nat, work: seq<Pos3>, stamp: map<Pos3, nat>, clock: nat)
    requires m.TilesValid()
    requires SearchInv(m, s, radius, start, b1, work, stamp, clock, Some(u))
    requires RelaxStep(m, s, b1, b2, u, j, alt)
    requires NodeAt(b1, u).state == Accessable
    ensures var v := BoardEdges(m, s, b1, u)[j].to;
      SearchInv(m, s, radius, start, b2, work + [v], stamp[v := clock], clock + 1, Some(u))
      && DistsLe(b1, b2) && Reached(b2, v, alt)
  {
    var es := BoardEdges(m, s, b1, u);
    var v := es[j].to;
    EdgeShape(m, s, b1.size, b1.offset, u, es[j]);
    assert Reached(b1, u, radius);
    RelaxDistsLe(b1, b2, v, alt);
    RelaxPlain(b1, b2, v, u, alt, radius, radius + MaxStep(s) + 1, work);
    RelaxStamped(b1, b2, v, alt, stamp, clock);
    RelaxKeepsRelaxed(m, s, b1, b2, v, u, work);
    RelaxKeepsParents(m, s, b1, b2, u, j, alt, start, stamp, clock);
  }

  // ----- Taking a node from the worklist -----

  /** The state a node taken from the worklist gets. */
  function Classify(n: Node, radius: nat): Node
    requires n.dist.Some?
  {
    n.(state := if n.dist.value <= radius then Accessable else Inaccessable)
  }

  lemma PopPlain(b1: Board, b2: Board, work: seq<Pos3>, i: nat, radius: nat)
    requires i < |work| && AgreeExcept(b1, b2, work[i])
    requires NodeAt(b1, work[i]).dist.Some? && NodeAt(b2, work[i]) == Classify(NodeAt(b1, work[i]), radius)
    requires NoneFresh(b1) && NeverClosed(b1) && Located(b1) && Settled(b1, radius, work)
    requires AccessWithin(b1, radius) && WorkReached(b1, work)
    ensures var rest := work[..i] + work[i + 1..];
      NoneFresh(b2) && NeverClosed(b2) && Located(b2) && Settled(b2, radius, rest)
      && AccessWithin(b2, radius) && WorkReached(b2, rest)
    ensures forall p :: NodeAt(b2, p).dist == NodeAt(b1, p).dist
  {
    var u := work[i];
    var rest := work[..i] + work[i + 1..];
    assert work == work[..i] + [u] + work[i + 1..];
    forall p | NodeAt(b2, p).dist.Some? && p !in rest
      ensures NodeAt(b2, p).state == (if NodeAt(b2, p).dist.value <= radius then Accessable else Inaccessable)
    {
      if p != u {
        assert p !in work;
      }
    }
    forall k | 0 <= k < |rest|
      ensures NodeAt(b2, rest[k]).dist.Some?
    {
      if k < i {
        assert rest[k] == work[k];
      } else {
        assert rest[k] == work[k + 1];
      }
    }
  }

  lemma PopKeepsRelaxed(m: Map, s: Settings, b1: Board, b2: Board, work: seq<Pos3>, i: nat)
    requires m.TilesValid() && i < |work| && AgreeExcept(b1, b2, work[i])
    requires forall p :: NodeAt(b2, p).dist == NodeAt(b1, p).dist
    requires Relaxed(m, s, b1, work, None)
    ensures Relaxed(m, s, b2, work[..i] + work[i + 1..], Some(work[i]))
  {
    var u := work[i];
    var rest := work[..i] + work[i + 1..];
    assert work == work[..i] + [u] + work[i + 1..];
    forall w | NodeAt(b2, w).state == Accessable && w !in rest && Some(u) != Some(w)
      ensures EdgesReached(m, s, b2, w)
    {
      assert w !in work;
      assert EdgesReached(m, s, b1, w);
      assert BoardEdges(m, s, b2, w) == BoardEdges(m, s, b1, w);
      forall e | e in BoardEdges(m, s, b2, w)
        ensures Reached(b2, e.to, NodeAt(b2, w).dist.value + e.cost)
      {
        assert Reached(b1, e.to, NodeAt(b1, w).dist.value + e.cost);
      }
    }
  }

  lemma PopKeepsParents(m: Map, s: Settings, b1: Board, b2: Board, u: Pos3, radius: nat, start: Pos3, stamp: map<Pos3, nat>)
    requires m.TilesValid() && AgreeExcept(b1, b2, u)
    requires NodeAt(b1, u).dist.Some? && NodeAt(b2, u) == Classify(NodeAt(b1, u), radius)
    requires AccessWithin(b1, radius) && Parents(m, s, b1, start, stamp)
    ensures Parents(m, s, b2, start, stamp)
  {
    forall w | NodeAt(b2, w).dist.Some? && w != start
      ensures ParentOk(m, s, b2, stamp, w)
    {
      assert NodeAt(b1, w).dist.Some?;
      assert ParentOk(m, s, b1, stamp, w);
      var pw := NodeAt(b1, w).parent;
      assert NodeAt(b2, w).parent == pw;
      var ew := BoardEdges(m, s, b1, pw);
      assert BoardEdges(m, s, b2, pw) == ew;
      var i :| 0 <= i < |ew| && ew[i].to == w && NodeAt(b1, pw).dist.value + ew[i].cost <= NodeAt(b1, w).dist.value;
      if pw == u {
        assert Reached(b1, u, radius);
      }
      assert NodeAt(b2, pw).dist.value + ew[i].cost <= NodeAt(b2, w).dist.value;
    }
  }

  /** Taking work[i] and classifying it keeps the invariant, with work[i]
      as the node being expanded. */
  lemma PopKeeps(m: Map, s: Settings, radius: nat, start: Pos3, b1: Board, b2: Board, work: seq<Pos3>, i: nat,
                 stamp: map<Pos3, nat>, clock: nat)
    requires m.TilesValid()
    requires SearchInv(m, s, radius, start, b1, work, stamp, clock, None)
    requires i < |work| && AgreeExcept(b1, b2, work[i])
    requires NodeAt(b1, work[i]).dist.Some? && NodeAt(b2, work[i]) == Classify(NodeAt(b1, work[i]), radius)
    ensures SearchInv(m, s, radius, start, b2, work[..i] + work[i + 1..], stamp, clock, Some(work[i]))
  {
    PopPlain(b1, b2, work, i, radius);
    PopKeepsRelaxed(m, s, b1, b2, work, i);
    PopKeepsParents(m, s, b1, b2, work[i], radius, start, stamp);
  }

  /** Once the expanded node is relaxed, or was not accessible, the
      invariant no longer needs an exception. */
  lemma Release(m: Map, s: Settings, radius: nat, start: Pos3, b: Board, work: seq<Pos3>,
                stamp: map<Pos3, nat>, clock: nat, u: Pos3)
    requires m.TilesValid()
    requires SearchInv(m, s, radius, start, b, work, stamp, clock, Some(u))
    requires NodeAt(b, u).state != Accessable || EdgesReached(m, s, b, u)
    ensures SearchInv(m, s, radius, start, b, work, stamp, clock, None)
  {
  }

  /** The grid right after the start is written: only the start reached,
      at distance 0, and waiting in the worklist. */
  lemma InitKeeps(m: Map, s: Settings, radius: nat, start: Pos3, b: Board)
    requires m.TilesValid()
    requires forall p :: p != start ==> NodeAt(b, p) == Fresh
    requires NodeAt(b, start) == Node(start, Open, Sentinel, Some(0))
    ensures SearchInv(m, s, radius, start, b, [start], map[start := 0], 1, None)
  {
  }

  /** What the finished search leaves: no node waits, every reached node
      is classified by its distance, every accessible node has all its
      edges relaxed, and every reached node but the start has a proper
      parent. */
  ghost predicate Searched(m: Map, s: Settings, radius: nat, start: Pos3, b: Board, stamp: map<Pos3, nat>)
    reads m, m.grid
    requires m.TilesValid()
  {
    NoneFresh(b) && NeverClosed(b) && Located(b) && Settled(b, radius, []) && AccessWithin(b, radius)
    && Relaxed(m, s, b, [], None) && Parents(m, s, b, start, stamp)
    && forall p :: NodeAt(b, p).dist.Some? ==> p in stamp
  }

  /** Some edge of u leads outside the box the path grid b covers: above
      its top floor, since every edge stays on its plane. */
  ghost predicate Escapes(m: Map, s: Settings, b: Board, u: Pos3)
    reads m, m.grid
    requires m.TilesValid()
  {
    exists e :: e in BoardEdges(m, s, b, u) && !InBox3(b.size, b.offset, e.to)
  }

  /** Some accessible node of b has an edge that escapes it, the case the
      edge loop of calc asserts against. */
  ghost predicate Stuck(m: Map, s: Settings, b: Board)
    reads m, m.grid
    requires m.TilesValid()
  {
    exists u :: NodeAt(b, u).state == Accessable && Escapes(m, s, b, u)
  }

  /** A finished search has no escaping edge: every edge of an accessible
      node reached its target, and no node outside the box is reached. */
  lemma SearchedNotStuck(m: Map, s: Settings, radius: nat, start: Pos3, b: Board, stamp: map<Pos3, nat>)
    requires m.TilesValid() && Searched(m, s, radius, start, b, stamp)
    ensures !Stuck(m, s, b)
  {
    forall u | NodeAt(b, u).state == Accessable
      ensures !Escapes(m, s, b, u)
    {
      assert EdgesReached(m, s, b, u);
      forall e | e in BoardEdges(m, s, b, u)
        ensures InBox3(b.size, b.offset, e.to)
      {
        assert Reached(b, e.to, NodeAt(b, u).dist.value + e.cost);
      }
    }
  }

  lemma SearchedWhenDone(m: Map, s: Settings, radius: nat, start: Pos3, b: Board, stamp: map<Pos3, nat>, clock: nat)
    requires m.TilesValid()
    requires SearchInv(m, s, radius, start, b, [], stamp, clock, None)
    ensures Searched(m, s, radius, start, b, stamp)
  {
  }

  /** The result of a search: the start, the path grid, and, for the proofs,
      the order in which nodes last got their parents. */
  class PathMap {
    var source: Pos3
    var grid: Grid<Node>
    ghost var stamp: map<Pos3, nat>

    /** The default path map: source (0,0,0) and an empty grid. */
    constructor Empty()
      ensures source == Pos3(0, 0, 0) && fresh(grid)
      ensures grid.size == Pos2(0, 0) && grid.offset == Pos2(0, 0) && grid.def == Fresh && grid.cells == []
      ensures Valid()
    {
      source := Pos3(0, 0, 0);
      grid := new Grid<Node>(Pos2(0, 0), Fresh, Pos2(0, 0));
      stamp := map[];
    }

    constructor (source: Pos3, grid: Grid<Node>, ghost stamp: map<Pos3, nat>)
      ensures this.source == source && this.grid == grid && this.stamp == stamp
    {
      this.source := source;
      this.grid := grid;
      this.stamp := stamp;
    }

    ghost predicate Valid()
      reads this, grid
    {
      grid.Valid() && grid.def == Fresh
    }

    /** The path grid as a value. */
    function Nodes(): Board
      reads this, grid
    {
      Board(grid.cells, grid.size, grid.offset)
    }

    /** can_access: inside the path grid and accessible. The read goes
        through the grid's writable lookup, which may grow the column but
        changes no read. */
    method CanAccess(p: Pos3) returns (r: bool)
      requires Valid()
      modifies grid
      ensures Valid() && grid.size == old(grid.size) && grid.offset == old(grid.offset)
      ensures r == (InBox3(grid.size, grid.offset, p) && NodeAt(Nodes(), p).state == Accessable)
      ensures forall q :: NodeAt(Nodes(), q) == old(NodeAt(Nodes(), q))
    {
      if !grid.InBounds3(p) {
        return false;
      }
      var n := grid.GetMut(p);
      r := n.state == Accessable;
      forall q
        ensures NodeAt(Nodes(), q) == old(NodeAt(Nodes(), q))
      {
        assert grid.Get(q) == old(grid.Get(q));
      }
    }
  }

  /** The path grid of a grid object, read as a value. */
  function BoardOf(g: Grid<Node>): Board
    reads g
  {
    Board(g.cells, g.size, g.offset)
  }

  /** Writes one node of a path grid, seen as a change of the board. */
  method Put(grid: Grid<Node>, p: Pos3, v: Node)
    requires grid.Valid() && grid.def == Fresh && grid.InBounds3(p)
    modifies grid
    ensures grid.Valid() && |grid.cells| == old(|grid.cells|)
    ensures AgreeExcept(old(BoardOf(grid)), BoardOf(grid), p) && NodeAt(BoardOf(grid), p) == v
    ensures 0 <= grid.Index(Flat(p)) < |grid.cells| && 0 <= p.z <= MaxHeight
    ensures CellOf(grid.cells, Fresh, grid.Index(Flat(p)), p.z) == v
    ensures CellOf(old(grid.cells), Fresh, grid.Index(Flat(p)), p.z) == old(NodeAt(BoardOf(grid), p))
    ensures forall k, z :: 0 <= k < |grid.cells| && (k != grid.Index(Flat(p)) || z != p.z) ==>
      CellOf(grid.cells, Fresh, k, z) == CellOf(old(grid.cells), Fresh, k, z)
  {
    ghost var n0 := grid.Get(p);
    grid.Set(p, v);
    forall q | q != p
      ensures NodeAt(BoardOf(grid), q) == old(NodeAt(BoardOf(grid), q))
    {
      assert grid.Get(q) == old(grid.Get(q));
    }
  }

  /** The bound of every distance the search records. */
  function Cap(radius: nat, s: Settings): nat {
    radius + MaxStep(s) + 1
  }

  /** One relaxation of the edge j of u, as in the edge loop of calc. ok
      is false when the edge leads above the top floor of the grid. */
  method Relax(m: Map, s: Settings, radius: nat, start: Pos3, grid: Grid<Node>, u: Pos3,
               edges: seq<Edge>, j: nat, work: seq<Pos3>, ghost stamp: map<Pos3, nat>, ghost clock: nat)
    returns (ok: bool, work2: seq<Pos3>, ghost stamp2: map<Pos3, nat>, ghost clock2: nat)
    requires m.TilesValid() && grid.Valid() && grid.def == Fresh
    requires edges == BoardEdges(m, s, BoardOf(grid), u) && j < |edges|
    requires SearchInv(m, s, radius, start, BoardOf(grid), work, stamp, clock, Some(u))
    requires NodeAt(BoardOf(grid), u).state == Accessable
    modifies grid
    ensures grid.Valid() && |grid.cells| == old(|grid.cells|)
    ensures ok == grid.InBounds3(edges[j].to)
    ensures !ok ==> grid.cells == old(grid.cells)
    ensures ok ==> SearchInv(m, s, radius, start, BoardOf(grid), work2, stamp2, clock2, Some(u))
    ensures ok ==> DistsLe(old(BoardOf(grid)), BoardOf(grid))
    ensures ok ==> NodeAt(BoardOf(grid), u) == old(NodeAt(BoardOf(grid), u))
    ensures ok ==> Reached(BoardOf(grid), edges[j].to, NodeAt(BoardOf(grid), u).dist.value + edges[j].cost)
    ensures ok ==> |work2| >= |work|
    ensures ok && |work2| > |work| ==> Pot(grid.cells, Cap(radius, s)) < Pot(old(grid.cells), Cap(radius, s))
    ensures ok && |work2| == |work| ==> grid.cells == old(grid.cells)
  {
    var e := edges[j];
    work2, stamp2, clock2 := work, stamp, clock;
    if !grid.InBounds3(e.to) {
      return false, work2, stamp2, clock2;
    }
    ok := true;
    EdgeShape(m, s, grid.size, grid.offset, u, e);
    var n := grid.Get(u);
    var nb := grid.Get(e.to);
    ghost var b1, c1 := BoardOf(grid), grid.cells;
    assert n == NodeAt(b1, u) && nb == NodeAt(b1, e.to);
    var alt := n.dist.value + e.cost;
    if nb.state != Closed && Improves(nb, alt) {
      Put(grid, e.to, Relaxation(nb, e.to, u, alt));
      ghost var b2 := BoardOf(grid);
      assert BoardEdges(m, s, b1, u)[j].to == e.to;
      RelaxKeeps(m, s, radius, start, b1, b2, u, j, alt, work, stamp, clock);
      assert NodeAt(b2, u) == n;
      assert Reached(b2, e.to, alt);
      assert Reached(b1, u, radius);
      ghost var cap := Cap(radius, s);
      assert Weight(Relaxation(nb, e.to, u, alt), cap) < Weight(nb, cap);
      PotDrops(c1, grid.cells, grid.Index(Flat(e.to)), e.to.z, cap);
      assert Pot(grid.cells, cap) < Pot(c1, cap);
      work2, stamp2, clock2 := work + [e.to], stamp[e.to := clock], clock + 1;
      assert SearchInv(m, s, radius, start, b2, work2, stamp2, clock2, Some(u));
    } else {
      assert Reached(b1, e.to, alt);
      assert BoardOf(grid) == b1;
    }
  }

  /** A relaxation along edge j keeps the edges before it reached. */
  lemma ReachedKept(b1: Board, b2: Board, edges: seq<Edge>, j: nat, d: nat)
    requires j < |edges| && DistsLe(b1, b2)
    requires forall k :: 0 <= k < j ==> Reached(b1, edges[k].to, d + edges[k].cost)
    requires Reached(b2, edges[j].to, d + edges[j].cost)
    ensures forall k :: 0 <= k < j + 1 ==> Reached(b2, edges[k].to, d + edges[k].cost)
  {
    forall k | 0 <= k < j
      ensures Reached(b2, edges[k].to, d + edges[k].cost)
    {
      assert Reached(b1, edges[k].to, d + edges[k].cost);
    }
  }

  /** Once every edge of u is relaxed, u's edges are all reached. */
  lemma AllEdgesReached(m: Map, s: Settings, b: Board, u: Pos3, edges: seq<Edge>)
    requires m.TilesValid() && edges == BoardEdges(m, s, b, u) && NodeAt(b, u).dist.Some?
    requires forall k :: 0 <= k < |edges| ==> Reached(b, edges[k].to, NodeAt(b, u).dist.value + edges[k].cost)
    ensures EdgesReached(m, s, b, u)
  {
    forall e | e in edges
      ensures Reached(b, e.to, NodeAt(b, u).dist.value + e.cost)
    {
      var k :| 0 <= k < |edges| && edges[k] == e;
    }
  }

  /** Relaxes every edge of the accessible node u in turn. */
  method Expand(m: Map, s: Settings, radius: nat, start: Pos3, grid: Grid<Node>, u: Pos3,
                work: seq<Pos3>, ghost stamp: map<Pos3, nat>, ghost clock: nat)
    returns (ok: bool, work2: seq<Pos3>, ghost stamp2: map<Pos3, nat>, ghost clock2: nat)
    requires m.TilesValid() && grid.Valid() && grid.def == Fresh
    requires SearchInv(m, s, radius, start, BoardOf(grid), work, stamp, clock, Some(u))
    requires NodeAt(BoardOf(grid), u).state == Accessable
    modifies grid
    ensures grid.Valid() && |grid.cells| == old(|grid.cells|)
    ensures ok ==> SearchInv(m, s, radius, start, BoardOf(grid), work2, stamp2, clock2, None)
    ensures !ok ==> NodeAt(BoardOf(grid), u).state == Accessable && Escapes(m, s, BoardOf(grid), u)
    ensures ok ==> |work2| >= |work|
    ensures ok && |work2| > |work| ==> Pot(grid.cells, Cap(radius, s)) < Pot(old(grid.cells), Cap(radius, s))
    ensures ok && |work2| == |work| ==> grid.cells == old(grid.cells)
  {
    var edges := CollectEdges(m, s, grid.size, grid.offset, u);
    ghost var n := NodeAt(BoardOf(grid), u);
    work2, stamp2, clock2 := work, stamp, clock;
    for j := 0 to |edges|
      invariant grid.Valid() && |grid.cells| == old(|grid.cells|)
      invariant SearchInv(m, s, radius, start, BoardOf(grid), work2, stamp2, clock2, Some(u))
      invariant NodeAt(BoardOf(grid), u) == n && n.state == Accessable
      invariant forall k :: 0 <= k < j ==> Reached(BoardOf(grid), edges[k].to, n.dist.value + edges[k].cost)
      invariant |work2| >= |work|
      invariant |work2| > |work| ==> Pot(grid.cells, Cap(radius, s)) < Pot(old(grid.cells), Cap(radius, s))
      invariant |work2| == |work| ==> grid.cells == old(grid.cells)
    {
      ghost var b1, c1, w1 := BoardOf(grid), grid.cells, work2;
      var ok1;
      ok1, work2, stamp2, clock2 := Relax(m, s, radius, start, grid, u, edges, j, work2, stamp2, clock2);
      if !ok1 {
        assert edges[j] in BoardEdges(m, s, BoardOf(grid), u);
        return false, work2, stamp2, clock2;
      }
      ReachedKept(b1, BoardOf(grid), edges, j, n.dist.value);
      if |work2| > |w1| {
        assert Pot(grid.cells, Cap(radius, s)) < Pot(c1, Cap(radius, s));
      }
    }
    ok := true;
    AllEdgesReached(m, s, BoardOf(grid), u, edges);
    Release(m, s, radius, start, BoardOf(grid), work2, stamp2, clock2, u);
  }

  /** Takes some node from the worklist and classifies it by its distance. */
  method Take(m: Map, s: Settings, radius: nat, start: Pos3, grid: Grid<Node>,
              work: seq<Pos3>, ghost stamp: map<Pos3, nat>, ghost clock: nat)
    returns (u: Pos3, node: Node, work2: seq<Pos3>)
    requires m.TilesValid() && grid.Valid() && grid.def == Fresh && work != []
    requires SearchInv(m, s, radius, start, BoardOf(grid), work, stamp, clock, None)
    modifies grid
    ensures grid.Valid() && |grid.cells| == old(|grid.cells|)
    ensures SearchInv(m, s, radius, start, BoardOf(grid), work2, stamp, clock, Some(u))
    ensures |work2| == |work| - 1 && Pot(grid.cells, Cap(radius, s)) == Pot(old(grid.cells), Cap(radius, s))
    ensures NodeAt(BoardOf(grid), u) == node && node.dist.Some?
    ensures node.state == Accessable <==> node.dist.value <= radius
  {
    var i :| 0 <= i < |work|;
    u := work[i];
    var n := grid.Get(u);
    ghost var b0, c0 := BoardOf(grid), grid.cells;
    assert n == NodeAt(b0, u) && n.dist.Some?;
    node := Classify(n, radius);
    Put(grid, u, node);
    work2 := work[..i] + work[i + 1..];
    PopKeeps(m, s, radius, start, b0, BoardOf(grid), work, i, stamp, clock);
    PotKeeps(c0, grid.cells, grid.Index(Flat(u)), u.z, Cap(radius, s));
  }

  /** The main loop of calc: pop worklist entries until none is left,
      expanding each accessible one. ok is false when an edge leads above
      the top floor of the grid; otherwise every reachable node's edges are
      relaxed and every state is final. */
  method Drain(m: Map, s: Settings, radius: nat, start: Pos3, grid: Grid<Node>,
               work: seq<Pos3>, ghost stamp: map<Pos3, nat>, ghost clock: nat)
    returns (ok: bool, ghost stamp2: map<Pos3, nat>)
    requires m.TilesValid() && grid.Valid() && grid.def == Fresh
    requires SearchInv(m, s, radius, start, BoardOf(grid), work, stamp, clock, None)
    modifies grid
    ensures grid.Valid()
    ensures ok ==> Searched(m, s, radius, start, BoardOf(grid), stamp2)
    ensures !ok ==> Stuck(m, s, BoardOf(grid))
  {
    var work2 := work;
    stamp2 := stamp;
    ghost var clock2 := clock;
    while work2 != []
      invariant grid.Valid() && grid.def == Fresh
      invariant SearchInv(m, s, radius, start, BoardOf(grid), work2, stamp2, clock2, None)
      decreases Pot(grid.cells, Cap(radius, s)), |work2|
    {
      var u, node;
      u, node, work2 := Take(m, s, radius, start, grid, work2, stamp2, clock2);
      if node.state == Accessable {
        var expanded;
        expanded, work2, stamp2, clock2 := Expand(m, s, radius, start, grid, u, work2, stamp2, clock2);
        if !expanded {
          return false, stamp2;
        }
      } else {
        Release(m, s, radius, start, BoardOf(grid), work2, stamp2, clock2, u);
      }
    }
    SearchedWhenDone(m, s, radius, start, BoardOf(grid), stamp2, clock2);
    ok := true;
  }

  /** The start of calc: a fresh path grid over the box around start whose
      only touched node is start itself, at distance 0 with no parent, and
      a worklist holding start. */
  method StartGrid(m: Map, start: Pos3, radius: nat, s: Settings) returns (grid: Grid<Node>)
    requires m.TilesValid()
    requires InBox3(BoxSize(start, radius, m.Size()), TopLeft(start, radius), start)
    ensures fresh(grid) && grid.Valid() && grid.def == Fresh
    ensures grid.size == BoxSize(start, radius, m.Size()) && grid.offset == TopLeft(start, radius)
    ensures SearchInv(m, s, radius, start, BoardOf(grid), [start], map[start := 0], 1, None)
  {
    BoxCoversReach(start, radius, m.Size(), Flat(start));
    grid := new Grid<Node>(BoxSize(start, radius, m.Size()), Fresh, TopLeft(start, radius));
    Put(grid, start, Node(start, Open, Sentinel, Some(0)));
    InitKeeps(m, s, radius, start, BoardOf(grid));
  }

  /** calc / calc_pathmap: a label-correcting search from start over the
      path grid of the box around it, taking worklist entries in any order.
      ok is false exactly when start lies outside the box or the search
      met an edge leading above the top floor of the grid, both of which
      the program asserts against; in the second case pm holds the path
      grid as the search left it. */
  method Calc(m: Map, start: Pos3, radius: nat, s: Settings) returns (ok: bool, pm: PathMap)
    requires m.TilesValid()
    ensures fresh(pm) && fresh(pm.grid) && pm.Valid()
    ensures InBox3(BoxSize(start, radius, m.Size()), TopLeft(start, radius), start) ==>
      pm.source == start && pm.grid.size == BoxSize(start, radius, m.Size()) && pm.grid.offset == TopLeft(start, radius)
    ensures ok <==> InBox3(BoxSize(start, radius, m.Size()), TopLeft(start, radius), start) && !Stuck(m, s, pm.Nodes())
    ensures ok ==> Searched(m, s, radius, start, pm.Nodes(), pm.stamp)
  {
    if !InBox3(BoxSize(start, radius, m.Size()), TopLeft(start, radius), start) {
      ok := false;
      pm := new PathMap.Empty();
      return;
    }
    var grid := StartGrid(m, start, radius, s);
    ghost var stamp;
    ok, stamp := Drain(m, s, radius, start, grid, [start], map[start := 0], 1);
    pm := new PathMap(start, grid, stamp);
    if ok {
      SearchedNotStuck(m, s, radius, start, pm.Nodes(), stamp);
    }
  }
}
