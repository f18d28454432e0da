/** What a finished search means, stated over walks: a node's distance
    is the cost of the cheapest walk to it that only leaves from nodes
    within the radius, a node is accessible exactly when such a walk of
    cost at most the radius reaches it, and every parent chain is such a
    walk back to the start. */
module Reach {
  import opened Vec
  import opened Grids
  import opened Wrappers
  import opened Terrain
  import opened Paths
  import opened Search

  /** w is a walk along the edges of the path grid, costs[i] being the
      cost of the step from w[i] to w[i + 1]. */
  ghost predicate IsWalk(m: Map, s: Settings, b: Board, w: seq<Pos3>, costs: seq<nat>)
    reads m, m.grid
    requires m.TilesValid()
  {
    |w| == |costs| + 1
    && forall i {:trigger costs[i]} :: 0 <= i < |costs| ==> Edge(w[i + 1], costs[i]) in BoardEdges(m, s, b, w[i])
  }

  /** A walk from start to v. */
  ghost predicate WalkFrom(m: Map, s: Settings, b: Board, start: Pos3, w: seq<Pos3>, costs: seq<nat>, v: Pos3)
    reads m, m.grid
    requires m.TilesValid()
  {
    IsWalk(m, s, b, w, costs) && w[0] == start && w[|w| - 1] == v
  }

  /** The cost of a walk. */
  function Total(costs: seq<nat>): nat {
    if costs == [] then 0 else Total(costs[..|costs| - 1]) + costs[|costs| - 1]
  }

  /** Every step of the walk leaves from a node the walk reaches within the
      radius: the search expands no other node. */
  ghost predicate Respects(costs: seq<nat>, radius: nat) {
    forall i :: 0 <= i < |costs| ==> Total(costs[..i]) <= radius
  }

  /** Dropping the last step of a walk leaves a walk. */
  lemma WalkPrefix(m: Map, s: Settings, b: Board, w: seq<Pos3>, costs: seq<nat>, radius: nat)
    requires m.TilesValid() && IsWalk(m, s, b, w, costs) && costs != []
    ensures IsWalk(m, s, b, w[..|costs|], costs[..|costs| - 1])
    ensures Respects(costs, radius) ==> Respects(costs[..|costs| - 1], radius)
  {
    var n := |costs| - 1;
    var w1, c1 := w[..n + 1], costs[..n];
    forall i | 0 <= i < |c1|
      ensures Edge(w1[i + 1], c1[i]) in BoardEdges(m, s, b, w1[i])
    {
      assert Edge(w[i + 1], costs[i]) in BoardEdges(m, s, b, w[i]);
    }
    if Respects(costs, radius) {
      forall i | 0 <= i < |c1|
        ensures Total(c1[..i]) <= radius
      {
        assert c1[..i] == costs[..i];
      }
    }
  }

  /** Adding a step along an edge of its last node extends a walk. */
  lemma WalkExtend(m: Map, s: Settings, b: Board, w: seq<Pos3>, costs: seq<nat>, e: Edge)
    requires m.TilesValid() && IsWalk(m, s, b, w, costs) && e in BoardEdges(m, s, b, w[|w| - 1])
    ensures IsWalk(m, s, b, w + [e.to], costs + [e.cost])
  {
    var w2, c2 := w + [e.to], costs + [e.cost];
    forall i | 0 <= i < |c2|
      ensures Edge(w2[i + 1], c2[i]) in BoardEdges(m, s, b, w2[i])
    {
      if i < |costs| {
        assert w2[i] == w[i] && w2[i + 1] == w[i + 1] && c2[i] == costs[i];
      } else {
        assert w2[i] == w[|w| - 1] && Edge(w2[i + 1], c2[i]) == e;
      }
    }
  }

  /** The prefix costs of an extended walk. */
  lemma TotalExtend(costs: seq<nat>, c: nat, i: nat)
    requires i <= |costs| + 1
    ensures i <= |costs| ==> (costs + [c])[..i] == costs[..i]
    ensures i == |costs| + 1 ==> Total((costs + [c])[..i]) == Total(costs) + c
  {
    if i == |costs| + 1 {
      assert (costs + [c])[..i] == costs + [c];
      assert (costs + [c])[..|costs|] == costs;
    }
  }

  /** The states a finished search leaves: OPEN exactly on the unreached
      nodes, ACCESSABLE exactly within the radius, INACCESSABLE beyond it. */
  lemma FinalStates(m: Map, s: Settings, radius: nat, start: Pos3, b: Board, stamp: map<Pos3, nat>, p: Pos3)
    requires m.TilesValid() && Searched(m, s, radius, start, b, stamp)
    ensures NodeAt(b, p).state == Open <==> NodeAt(b, p).dist.None?
    ensures NodeAt(b, p).state == Accessable <==> Reached(b, p, radius)
    ensures NodeAt(b, p).state == Inaccessable <==> NodeAt(b, p).dist.Some? && NodeAt(b, p).dist.value > radius
  {
  }

  /** The last step of a walk: from a node reached within the radius,
      the edge's target is reached within the node's distance plus the
      edge's cost. */
  lemma StepReached(m: Map, s: Settings, radius: nat, start: Pos3, b: Board, stamp: map<Pos3, nat>,
                    u: Pos3, e: Edge, d: nat)
    requires m.TilesValid() && Searched(m, s, radius, start, b, stamp)
    requires Reached(b, u, d) && d <= radius && e in BoardEdges(m, s, b, u)
    ensures Reached(b, e.to, d + e.cost)
  {
    assert NodeAt(b, u).state == Accessable;
    assert EdgesReached(m, s, b, u);
  }

  /** Every walk from the start that respects the radius ends at a node
      whose distance is at most the walk's cost. */
  lemma {:induction false} WalkBound(m: Map, s: Settings, radius: nat, start: Pos3, b: Board,
                                     stamp: map<Pos3, nat>, w: seq<Pos3>, costs: seq<nat>, v: Pos3)
    requires m.TilesValid() && Searched(m, s, radius, start, b, stamp)
    requires WalkFrom(m, s, b, start, w, costs, v) && Respects(costs, radius)
    ensures Reached(b, v, Total(costs))
    decreases |costs|
  {
    if costs != [] {
      var n := |costs| - 1;
      WalkPrefix(m, s, b, w, costs, radius);
      WalkBound(m, s, radius, start, b, stamp, w[..n + 1], costs[..n], w[n]);
      assert Edge(w[n + 1], costs[n]) in BoardEdges(m, s, b, w[n]);
      StepReached(m, s, radius, start, b, stamp, w[n], Edge(v, costs[n]), Total(costs[..n]));
    }
  }

  /** The parent chain of a reached node is a walk from the start whose
      intermediate nodes are accessible and whose prefixes cost no more
      than the distances of the nodes they end at. */
  lemma {:induction false} ParentWalk(m: Map, s: Settings, radius: nat, start: Pos3, b: Board,
                                      stamp: map<Pos3, nat>, v: Pos3)
    returns (w: seq<Pos3>, costs: seq<nat>)
    requires m.TilesValid() && Searched(m, s, radius, start, b, stamp) && NodeAt(b, v).dist.Some?
    ensures WalkFrom(m, s, b, start, w, costs, v)
    ensures forall i :: 0 <= i < |w| ==>
      NodeAt(b, w[i]).dist.Some? && Total(costs[..i]) <= NodeAt(b, w[i]).dist.value
    ensures forall i :: 0 <= i < |costs| ==> NodeAt(b, w[i]).state == Accessable
    decreases NodeAt(b, v).dist.value, stamp[v]
  {
    if v == start {
      w, costs := [start], [];
      assert costs[..0] == [];
    } else {
      assert ParentOk(m, s, b, stamp, v);
      var u := NodeAt(b, v).parent;
      var es := BoardEdges(m, s, b, u);
      var j :| 0 <= j < |es| && es[j].to == v && NodeAt(b, u).dist.value + es[j].cost <= NodeAt(b, v).dist.value;
      var w1, c1 := ParentWalk(m, s, radius, start, b, stamp, u);
      w, costs := w1 + [v], c1 + [es[j].cost];
      ParentExtend(m, s, b, start, w1, c1, u, es[j]);
    }
  }

  /** A parent chain to u extended by an edge of u to a node whose distance
      covers u's distance plus the edge's cost is a parent chain to that node. */
  lemma ParentExtend(m: Map, s: Settings, b: Board, start: Pos3, w: seq<Pos3>, costs: seq<nat>, u: Pos3, e: Edge)
    requires m.TilesValid() && WalkFrom(m, s, b, start, w, costs, u)
    requires forall i :: 0 <= i < |w| ==>
      NodeAt(b, w[i]).dist.Some? && Total(costs[..i]) <= NodeAt(b, w[i]).dist.value
    requires forall i :: 0 <= i < |costs| ==> NodeAt(b, w[i]).state == Accessable
    requires e in BoardEdges(m, s, b, u) && NodeAt(b, u).state == Accessable
    requires NodeAt(b, e.to).dist.Some? && NodeAt(b, u).dist.value + e.cost <= NodeAt(b, e.to).dist.value
    ensures WalkFrom(m, s, b, start, w + [e.to], costs + [e.cost], e.to)
    ensures forall i :: 0 <= i < |w| + 1 ==>
      NodeAt(b, (w + [e.to])[i]).dist.Some? && Total((costs + [e.cost])[..i]) <= NodeAt(b, (w + [e.to])[i]).dist.value
    ensures forall i :: 0 <= i < |costs| + 1 ==> NodeAt(b, (w + [e.to])[i]).state == Accessable
  {
    var w2, c2 := w + [e.to], costs + [e.cost];
    WalkExtend(m, s, b, w, costs, e);
    forall i | 0 <= i < |w2|
      ensures NodeAt(b, w2[i]).dist.Some? && Total(c2[..i]) <= NodeAt(b, w2[i]).dist.value
    {
      TotalExtend(costs, e.cost, i);
      if i == |w| {
        assert costs[..|costs|] == costs;
      } else {
        assert w2[i] == w[i];
      }
    }
    forall i | 0 <= i < |c2|
      ensures NodeAt(b, w2[i]).state == Accessable
    {
      if i < |costs| {
        assert w2[i] == w[i];
      }
    }
  }

  /** The parent chain of a reached node respects the radius and costs
      exactly the node's distance. */
  lemma ParentWalkCheapest(m: Map, s: Settings, radius: nat, start: Pos3, b: Board,
                           stamp: map<Pos3, nat>, v: Pos3)
    returns (w: seq<Pos3>, costs: seq<nat>)
    requires m.TilesValid() && Searched(m, s, radius, start, b, stamp) && NodeAt(b, v).dist.Some?
    ensures WalkFrom(m, s, b, start, w, costs, v) && Respects(costs, radius)
    ensures Total(costs) == NodeAt(b, v).dist.value
  {
    w, costs := ParentWalk(m, s, radius, start, b, stamp, v);
    forall i | 0 <= i < |costs|
      ensures Total(costs[..i]) <= radius
    {
      assert NodeAt(b, w[i]).state == Accessable;
      assert Total(costs[..i]) <= NodeAt(b, w[i]).dist.value;
    }
    assert costs[..|costs|] == costs;
    WalkBound(m, s, radius, start, b, stamp, w, costs, v);
  }

  /** The distance of a reached node is the least cost of a walk from the
      start that respects the radius; an unreached node has no such walk. */
  lemma Cheapest(m: Map, s: Settings, radius: nat, start: Pos3, b: Board, stamp: map<Pos3, nat>, v: Pos3)
    requires m.TilesValid() && Searched(m, s, radius, start, b, stamp)
    ensures NodeAt(b, v).dist.Some? ==> exists w, costs ::
      WalkFrom(m, s, b, start, w, costs, v) && Respects(costs, radius) && Total(costs) == NodeAt(b, v).dist.value
    ensures forall w, costs :: WalkFrom(m, s, b, start, w, costs, v) && Respects(costs, radius) ==>
      NodeAt(b, v).dist.Some? && NodeAt(b, v).dist.value <= Total(costs)
  {
    if NodeAt(b, v).dist.Some? {
      var w, costs := ParentWalkCheapest(m, s, radius, start, b, stamp, v);
    }
    forall w, costs | WalkFrom(m, s, b, start, w, costs, v) && Respects(costs, radius)
      ensures NodeAt(b, v).dist.Some? && NodeAt(b, v).dist.value <= Total(costs)
    {
      WalkBound(m, s, radius, start, b, stamp, w, costs, v);
    }
  }

  /** A node is accessible exactly when a walk from the start of cost at
      most the radius reaches it, every step leaving within the radius. */
  lemma AccessibleIff(m: Map, s: Settings, radius: nat, start: Pos3, b: Board, stamp: map<Pos3, nat>, v: Pos3)
    requires m.TilesValid() && Searched(m, s, radius, start, b, stamp)
    ensures NodeAt(b, v).state == Accessable <==> exists w, costs ::
      WalkFrom(m, s, b, start, w, costs, v) && Respects(costs, radius) && Total(costs) <= radius
  {
    if NodeAt(b, v).state == Accessable {
      var w, costs := ParentWalkCheapest(m, s, radius, start, b, stamp, v);
    }
    if exists w, costs :: WalkFrom(m, s, b, start, w, costs, v) && Respects(costs, radius) && Total(costs) <= radius {
      var w, costs :| WalkFrom(m, s, b, start, w, costs, v) && Respects(costs, radius) && Total(costs) <= radius;
      WalkBound(m, s, radius, start, b, stamp, w, costs, v);
    }
  }
}
