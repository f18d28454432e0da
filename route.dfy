/** Path reconstruction from a path grid: following parent pointers back
    to the start, and the variant that rewrites parents to take straight
    shortcuts. A position with z = -1 ends a chain (the sentinel). */
module Route {
  import opened Vec
  import opened Grids
  import opened Wrappers
  import opened Terrain
  import opened Walk
  import opened Paths
  import opened Search

  /** v's parent is a real position, reached, and of lower rank. */
  ghost predicate ParentBelow(b: Board, stamp: map<Pos3, nat>, v: Pos3) {
    var n := NodeAt(b, v);
    var p := n.parent;
    n.dist.Some? && p.z != -1 && NodeAt(b, p).dist.Some? && p in stamp && v in stamp
    && RankBelow(NodeAt(b, p).dist.value, stamp[p], n.dist.value, stamp[v])
  }

  /** The parent pointers of a path grid form chains that end at the
      start: the start's parent and every unreached node's parent is a
      sentinel, every other reached node's parent ranks below it. */
  ghost predicate Chained(b: Board, stamp: map<Pos3, nat>, start: Pos3) {
    NodeAt(b, start).dist.Some? && NodeAt(b, start).parent.z == -1
    && (forall v :: NodeAt(b, v).dist.Some? ==> v in stamp)
    && (forall v :: NodeAt(b, v).dist.None? ==> NodeAt(b, v).parent.z == -1)
    && (forall v {:trigger ParentBelow(b, stamp, v)} :: NodeAt(b, v).dist.Some? && v != start ==> ParentBelow(b, stamp, v))
  }

  /** A finished search leaves chained parents. */
  lemma SearchedChained(m: Map, s: Settings, radius: nat, start: Pos3, b: Board, stamp: map<Pos3, nat>)
    requires m.TilesValid() && Searched(m, s, radius, start, b, stamp)
    ensures Chained(b, stamp, start)
  {
    forall v | NodeAt(b, v).dist.Some? && v != start
      ensures ParentBelow(b, stamp, v)
    {
      assert ParentOk(m, s, b, stamp, v);
      ParentInBox(b, NodeAt(b, v).parent);
    }
  }

  /** Only positions inside the grid can be reached. */
  lemma ParentInBox(b: Board, p: Pos3)
    requires NodeAt(b, p).dist.Some?
    ensures InBox3(b.size, b.offset, p) && p.z != -1
  {
  }

  /** The parent chain of a reached node: the node, its parent, and so on
      up to the node whose parent is the sentinel. */
  ghost function Chain(b: Board, stamp: map<Pos3, nat>, start: Pos3, v: Pos3): (c: seq<Pos3>)
    requires Chained(b, stamp, start) && NodeAt(b, v).dist.Some?
    ensures |c| >= 1 && c[0] == v
    decreases NodeAt(b, v).dist.value, stamp[v]
  {
    var p := NodeAt(b, v).parent;
    if p.z == -1 then [v]
    else
      assert v != start && ParentBelow(b, stamp, v);
      [v] + Chain(b, stamp, start, p)
  }

  /** Every chain ends at the start. */
  lemma {:induction false} ChainEnd(b: Board, stamp: map<Pos3, nat>, start: Pos3, v: Pos3)
    requires Chained(b, stamp, start) && NodeAt(b, v).dist.Some?
    ensures var c := Chain(b, stamp, start, v); c[|c| - 1] == start
    decreases NodeAt(b, v).dist.value, stamp[v]
  {
    var p := NodeAt(b, v).parent;
    assert v != start ==> ParentBelow(b, stamp, v);
    if p.z != -1 {
      ChainEnd(b, stamp, start, p);
    }
  }

  /** A node in a chain has its own chain inside it, and ranks no higher
      than the chain's first node; strictly lower when it is another node. */
  lemma {:induction false} ChainSuffix(b: Board, stamp: map<Pos3, nat>, start: Pos3, v: Pos3, u: Pos3)
    requires Chained(b, stamp, start) && NodeAt(b, v).dist.Some?
    requires u in Chain(b, stamp, start, v)
    ensures NodeAt(b, u).dist.Some? && u in stamp && v in stamp
    ensures forall x :: x in Chain(b, stamp, start, u) ==> x in Chain(b, stamp, start, v)
    ensures u != v ==> RankBelow(NodeAt(b, u).dist.value, stamp[u], NodeAt(b, v).dist.value, stamp[v])
    decreases NodeAt(b, v).dist.value, stamp[v]
  {
    var p := NodeAt(b, v).parent;
    if u != v {
      assert p.z != -1;
      assert v != start && ParentBelow(b, stamp, v);
      ChainSuffix(b, stamp, start, p, u);
    }
  }

  /** One step down a chain. */
  lemma ChainStep(b: Board, stamp: map<Pos3, nat>, start: Pos3, v: Pos3)
    requires Chained(b, stamp, start) && NodeAt(b, v).dist.Some? && v != start
    ensures ParentBelow(b, stamp, v)
    ensures Chain(b, stamp, start, v) == [v] + Chain(b, stamp, start, NodeAt(b, v).parent)
  {
    assert ParentBelow(b, stamp, v);
  }

  /** The chain of the start is the start alone. */
  lemma ChainOfStart(b: Board, stamp: map<Pos3, nat>, start: Pos3)
    requires Chained(b, stamp, start)
    ensures Chain(b, stamp, start, start) == [start]
  {
  }

  // ----- Rewriting parents -----

  /** b is b0 with some parents rewritten: every other field is kept, and
      a rewritten parent is a farther node of the original chain, reached
      from the node by a straight walk. */
  ghost predicate Reparented(m: Map, b0: Board, b: Board, stamp: map<Pos3, nat>, start: Pos3)
    reads m, m.grid
    requires m.TilesValid() && Chained(b0, stamp, start)
  {
    b.size == b0.size && b.offset == b0.offset
    && (forall v :: NodeAt(b, v) == NodeAt(b0, v).(parent := NodeAt(b, v).parent))
    && forall v {:trigger RewriteOk(m, b0, b, stamp, start, v)} :: RewriteOk(m, b0, b, stamp, start, v)
  }

  /** v's parent in b is its parent in b0, or a farther node of v's
      original chain reached from v by a straight walk, which skips a node
      c of that chain with which v and the new parent are not in line. */
  ghost predicate RewriteOk(m: Map, b0: Board, b: Board, stamp: map<Pos3, nat>, start: Pos3, v: Pos3)
    reads m, m.grid
    requires m.TilesValid() && Chained(b0, stamp, start)
  {
    NodeAt(b, v).parent != NodeAt(b0, v).parent ==>
      NodeAt(b0, v).dist.Some? && v != start && NodeAt(b, v).parent != v
      && NodeAt(b, v).parent in Chain(b0, stamp, start, v) && IsWalkable(m, v, NodeAt(b, v).parent)
      && exists c :: c in Chain(b0, stamp, start, v) && c != v && !InLine(v, c, NodeAt(b, v).parent)
  }

  /** Under rewritten parents every chain keeps to nodes of the original
      chain. */
  lemma {:induction false} ChainsShrink(m: Map, b0: Board, b: Board, stamp: map<Pos3, nat>, start: Pos3, v: Pos3)
    requires m.TilesValid() && Chained(b0, stamp, start) && Chained(b, stamp, start)
    requires Reparented(m, b0, b, stamp, start) && NodeAt(b, v).dist.Some?
    ensures NodeAt(b0, v).dist.Some?
    ensures forall x :: x in Chain(b, stamp, start, v) ==> x in Chain(b0, stamp, start, v)
    decreases NodeAt(b, v).dist.value, stamp[v]
  {
    assert NodeAt(b, v).dist == NodeAt(b0, v).dist;
    if v != start {
      ChainStep(b, stamp, start, v);
      var p := NodeAt(b, v).parent;
      ChainsShrink(m, b0, b, stamp, start, p);
      if p == NodeAt(b0, v).parent {
        ChainStep(b0, stamp, start, v);
      } else {
        assert RewriteOk(m, b0, b, stamp, start, v);
        ChainSuffix(b0, stamp, start, v, p);
      }
    } else {
      ChainOfStart(b, stamp, start);
    }
  }

  /** Rewriting the parent of prev to a farther node next of its chain,
      reached from prev by a straight walk and not in line with prev and
      cur, keeps the chains and the record of rewrites. */
  lemma RewriteKeeps(m: Map, b0: Board, b1: Board, b2: Board, stamp: map<Pos3, nat>, start: Pos3,
                     prev: Pos3, cur: Pos3, next: Pos3)
    requires m.TilesValid() && Chained(b0, stamp, start) && Chained(b1, stamp, start)
    requires Reparented(m, b0, b1, stamp, start)
    requires NodeAt(b1, prev).dist.Some? && prev != start
    requires next in Chain(b1, stamp, start, prev) && next != prev && IsWalkable(m, prev, next)
    requires cur in Chain(b1, stamp, start, prev) && cur != prev && !InLine(prev, cur, next)
    requires AgreeExcept(b1, b2, prev) && NodeAt(b2, prev) == NodeAt(b1, prev).(parent := next)
    ensures Chained(b2, stamp, start) && Reparented(m, b0, b2, stamp, start)
  {
    ChainSuffix(b1, stamp, start, prev, next);
    ChainsShrink(m, b0, b1, stamp, start, prev);
    assert cur in Chain(b0, stamp, start, prev);
    assert ParentBelow(b2, stamp, prev);
    forall v | NodeAt(b2, v).dist.Some? && v != start
      ensures ParentBelow(b2, stamp, v)
    {
      if v != prev {
        assert ParentBelow(b1, stamp, v);
      }
    }
    forall v
      ensures RewriteOk(m, b0, b2, stamp, start, v)
    {
      if v != prev {
        assert RewriteOk(m, b0, b1, stamp, start, v);
      }
    }
  }

  // ----- The steps of the reconstruction loops -----

  /** The loops of `to` keep cur a proper ancestor of prev. */
  ghost predicate Behind(b: Board, stamp: map<Pos3, nat>, start: Pos3, prev: Pos3, cur: Pos3) {
    Chained(b, stamp, start) && NodeAt(b, prev).dist.Some? && prev != start
    && ParentBelow(b, stamp, prev) && cur in Chain(b, stamp, start, NodeAt(b, prev).parent)
    && NodeAt(b, cur).dist.Some? && cur in stamp
  }

  /** Moving cur on to its parent next keeps it a proper ancestor of prev,
      lowers its rank, and next is a farther node of prev's chain. */
  lemma AdvanceCur(b: Board, stamp: map<Pos3, nat>, start: Pos3, prev: Pos3, cur: Pos3)
    requires Behind(b, stamp, start, prev, cur) && cur != start
    ensures NodeAt(b, cur).dist.Some? && ParentBelow(b, stamp, cur) && cur != prev
    ensures var next := NodeAt(b, cur).parent;
      Behind(b, stamp, start, prev, next) && next in Chain(b, stamp, start, prev) && next != prev
  {
    var p := NodeAt(b, prev).parent;
    ChainSuffix(b, stamp, start, p, cur);
    ChainStep(b, stamp, start, cur);
    var next := NodeAt(b, cur).parent;
    assert next in Chain(b, stamp, start, cur);
    ChainStep(b, stamp, start, prev);
    ChainSuffix(b, stamp, start, p, next);
  }

  /** Moving prev on to its parent keeps cur, or cur's parent when the
      program's comparison (which ignores z) finds the two equal, a proper
      ancestor of it. */
  lemma AdvancePrev(b: Board, stamp: map<Pos3, nat>, start: Pos3, prev: Pos3, cur: Pos3)
    requires Behind(b, stamp, start, prev, cur) && cur != start
    ensures var p := NodeAt(b, prev).parent;
      NodeAt(b, cur).dist.Some? && ParentBelow(b, stamp, cur)
      && (Same3(p, cur) ==> Behind(b, stamp, start, p, NodeAt(b, cur).parent))
      && (!Same3(p, cur) ==> Behind(b, stamp, start, p, cur))
  {
    var p := NodeAt(b, prev).parent;
    ChainSuffix(b, stamp, start, p, cur);
    ChainStep(b, stamp, start, cur);
    var next := NodeAt(b, cur).parent;
    if p == start {
      ChainOfStart(b, stamp, start);
      assert false;
    }
    ChainStep(b, stamp, start, p);
    if p != cur {
      assert cur in Chain(b, stamp, start, NodeAt(b, p).parent);
      ChainSuffix(b, stamp, start, NodeAt(b, p).parent, cur);
      assert next in Chain(b, stamp, start, cur);
    }
  }

  /** A node whose parent is real is reached, is not the start, and has
      its parent as a proper ancestor. */
  lemma StartBehind(b: Board, stamp: map<Pos3, nat>, start: Pos3, dest: Pos3)
    requires Chained(b, stamp, start) && NodeAt(b, dest).parent.z != -1
    ensures NodeAt(b, dest).dist.Some? && dest != start
    ensures Behind(b, stamp, start, dest, NodeAt(b, dest).parent)
  {
    assert NodeAt(b, dest).dist.Some? && dest != start;
    assert ParentBelow(b, stamp, dest);
    var p := NodeAt(b, dest).parent;
    assert Chain(b, stamp, start, p)[0] == p;
  }

  /** The sequence reversed. */
  function Reverse<T>(s: seq<T>): (r: seq<T>)
    ensures |r| == |s| && forall i :: 0 <= i < |s| ==> r[i] == s[|s| - 1 - i]
  {
    if s == [] then [] else Reverse(s[1..]) + [s[0]]
  }

  /** The final loop of `to`: the chain of dest, collected by following
      parents until the sentinel. */
  method Collect(pm: PathMap, dest: Pos3) returns (path: seq<Pos3>)
    requires pm.Valid() && Chained(pm.Nodes(), pm.stamp, pm.source) && NodeAt(pm.Nodes(), dest).dist.Some?
    ensures path == Chain(pm.Nodes(), pm.stamp, pm.source, dest)
  {
    ghost var b, st, start := pm.Nodes(), pm.stamp, pm.source;
    ghost var all := Chain(b, st, start, dest);
    path := [];
    var pos := dest;
    while pos.z != -1
      invariant pos.z != -1 ==> NodeAt(b, pos).dist.Some? && path + Chain(b, st, start, pos) == all
      invariant pos.z == -1 ==> path == all
      decreases |all| - |path|
    {
      var n := pm.grid.Get(pos);
      assert n == NodeAt(b, pos);
      if pos != start {
        ChainStep(b, st, start, pos);
      } else {
        ChainOfStart(b, st, start);
      }
      path := path + [pos];
      pos := n.parent;
      assert pos.z != -1 ==> path + Chain(b, st, start, pos) == all;
    }
  }

  /** Path::to: the parent chain of dest, start first. Its loop over prev,
      cur and next reads the grid and writes nothing, so it does not
      change the result. */
  method PlainTo(pm: PathMap, dest: Pos3) returns (path: seq<Pos3>)
    requires pm.Valid() && Chained(pm.Nodes(), pm.stamp, pm.source)
    requires dest.z == -1 || InBox3(pm.grid.size, pm.grid.offset, dest)
    ensures dest.z == -1 ==> path == [dest]
    ensures dest.z != -1 && NodeAt(pm.Nodes(), dest).parent.z == -1 ==> path == [NodeAt(pm.Nodes(), dest).parent, dest]
    ensures dest.z != -1 && NodeAt(pm.Nodes(), dest).parent.z != -1 ==>
      NodeAt(pm.Nodes(), dest).dist.Some? && path == Reverse(Chain(pm.Nodes(), pm.stamp, pm.source, dest))
  {
    if dest.z == -1 {
      return [dest];
    }
    ghost var b, st, start := pm.Nodes(), pm.stamp, pm.source;
    var prev := dest;
    var cur := pm.grid.Get(dest).parent;
    if cur.z == -1 {
      return [cur, prev];
    }
    assert cur == NodeAt(b, dest).parent;
    StartBehind(b, st, start, dest);
    while true
      invariant Behind(b, st, start, prev, cur)
      decreases NodeAt(b, cur).dist.value, st[cur], NodeAt(b, prev).dist.value, st[prev]
    {
      var next := pm.grid.Get(cur).parent;
      if next.z == -1 {
        break;
      }
      prev, cur := PlainStep(pm, prev, cur, next);
    }
    path := Collect(pm, dest);
    path := Reverse(path);
  }

  /** One pass of the loop of Path::to, with next the parent of cur. */
  method PlainStep(pm: PathMap, prev: Pos3, cur: Pos3, next: Pos3) returns (prev2: Pos3, cur2: Pos3)
    requires pm.Valid() && Behind(pm.Nodes(), pm.stamp, pm.source, prev, cur)
    requires next == pm.grid.Get(cur).parent && next.z != -1
    ensures Behind(pm.Nodes(), pm.stamp, pm.source, prev2, cur2)
    ensures var b := pm.Nodes();
      RankBelow(NodeAt(b, cur2).dist.value, pm.stamp[cur2], NodeAt(b, cur).dist.value, pm.stamp[cur])
      || (cur2 == cur && RankBelow(NodeAt(b, prev2).dist.value, pm.stamp[prev2], NodeAt(b, prev).dist.value, pm.stamp[prev]))
  {
    ghost var b, st, start := pm.Nodes(), pm.stamp, pm.source;
    assert next == NodeAt(b, cur).parent;
    assert cur != start;
    if !InLine(prev, cur, next) {
      prev2, cur2 := MovePrev(pm, prev, cur, next);
    } else {
      AdvanceCur(b, st, start, prev, cur);
      prev2, cur2 := prev, next;
    }
  }

  /** Map::to: like Path::to, but where prev, cur and next are not in line
      and next can be walked to straight from prev, prev's parent is
      rewritten to next, cutting cur out of the chain. The path returned is
      the rewritten chain of dest, start first. */
  method To(m: Map, pm: PathMap, dest: Pos3) returns (path: seq<Pos3>)
    requires m.TilesValid() && pm.Valid() && Chained(pm.Nodes(), pm.stamp, pm.source)
    requires dest.z == -1 || InBox3(pm.grid.size, pm.grid.offset, dest)
    modifies pm.grid
    ensures pm.Valid() && Chained(pm.Nodes(), pm.stamp, pm.source)
    ensures Reparented(m, old(pm.Nodes()), pm.Nodes(), pm.stamp, pm.source)
    ensures dest.z == -1 ==> path == [dest]
    ensures dest.z != -1 && old(NodeAt(pm.Nodes(), dest)).parent.z == -1 ==>
      path == [old(NodeAt(pm.Nodes(), dest)).parent, dest]
    ensures dest.z != -1 && old(NodeAt(pm.Nodes(), dest)).parent.z != -1 ==>
      NodeAt(pm.Nodes(), dest).dist.Some? && path == Reverse(Chain(pm.Nodes(), pm.stamp, pm.source, dest))
  {
    ghost var b0, st, start := pm.Nodes(), pm.stamp, pm.source;
    NoRewrite(m, b0, st, start);
    if dest.z == -1 {
      return [dest];
    }
    var prev := dest;
    var cur := pm.grid.Get(dest).parent;
    if cur.z == -1 {
      return [cur, prev];
    }
    assert cur == NodeAt(b0, dest).parent;
    StartBehind(b0, st, start, dest);
    Straighten(m, pm, prev, cur, b0);
    path := Collect(pm, dest);
    path := Reverse(path);
  }

  /** The loop of Map::to, from prev and cur on. */
  method Straighten(m: Map, pm: PathMap, prev0: Pos3, cur0: Pos3, ghost b0: Board)
    requires m.TilesValid() && pm.Valid() && Chained(b0, pm.stamp, pm.source)
    requires Reparented(m, b0, pm.Nodes(), pm.stamp, pm.source) && Behind(pm.Nodes(), pm.stamp, pm.source, prev0, cur0)
    modifies pm.grid
    ensures pm.Valid() && Chained(pm.Nodes(), pm.stamp, pm.source) && Reparented(m, b0, pm.Nodes(), pm.stamp, pm.source)
  {
    ghost var st, start := pm.stamp, pm.source;
    var prev, cur := prev0, cur0;
    assert NodeAt(b0, cur).dist.Some? && NodeAt(b0, prev).dist.Some?;
    while true
      invariant pm.Valid() && Reparented(m, b0, pm.Nodes(), st, start)
      invariant Behind(pm.Nodes(), st, start, prev, cur)
      invariant NodeAt(b0, cur).dist.Some? && NodeAt(b0, prev).dist.Some?
      decreases NodeAt(b0, cur).dist.value, st[cur], NodeAt(b0, prev).dist.value, st[prev]
    {
      var next := pm.grid.Get(cur).parent;
      if next.z == -1 {
        break;
      }
      assert cur != start && next == NodeAt(pm.Nodes(), cur).parent;
      prev, cur := Shortcut(m, pm, prev, cur, next, b0);
    }
  }

  /** One pass of the loop of Map::to, with next the parent of cur. */
  method Shortcut(m: Map, pm: PathMap, prev: Pos3, cur: Pos3, next: Pos3, ghost b0: Board)
    returns (prev2: Pos3, cur2: Pos3)
    requires m.TilesValid() && pm.Valid() && Chained(b0, pm.stamp, pm.source)
    requires Reparented(m, b0, pm.Nodes(), pm.stamp, pm.source) && Behind(pm.Nodes(), pm.stamp, pm.source, prev, cur)
    requires cur != pm.source && next == NodeAt(pm.Nodes(), cur).parent
    modifies pm.grid
    ensures pm.Valid() && Reparented(m, b0, pm.Nodes(), pm.stamp, pm.source)
    ensures Behind(pm.Nodes(), pm.stamp, pm.source, prev2, cur2)
    ensures NodeAt(b0, cur).dist.Some? && NodeAt(b0, prev).dist.Some?
    ensures NodeAt(b0, cur2).dist.Some? && NodeAt(b0, prev2).dist.Some?
    ensures RankBelow(NodeAt(b0, cur2).dist.value, pm.stamp[cur2], NodeAt(b0, cur).dist.value, pm.stamp[cur])
      || (cur2 == cur && RankBelow(NodeAt(b0, prev2).dist.value, pm.stamp[prev2], NodeAt(b0, prev).dist.value, pm.stamp[prev]))
    ensures InLine(prev, cur, next) ==> unchanged(pm.grid) && prev2 == prev && cur2 == next
    ensures !InLine(prev, cur, next) && IsWalkable(m, prev, next) ==>
      prev2 == prev && cur2 == next && Rewritten(old(pm.Nodes()), pm.Nodes(), prev, next)
    ensures !InLine(prev, cur, next) && !IsWalkable(m, prev, next) ==>
      unchanged(pm.grid) && prev2 == NodeAt(pm.Nodes(), prev).parent && cur2 == (if Same3(prev2, cur) then next else cur)
  {
    ghost var b, st, start := pm.Nodes(), pm.stamp, pm.source;
    DistKept(m, b0, b, st, start, prev);
    DistKept(m, b0, b, st, start, cur);
    DistKept(m, b0, b, st, start, next);
    if InLine(prev, cur, next) {
      AdvanceCur(b, st, start, prev, cur);
      return prev, next;
    }
    var walkable := Walkable(m, prev, next);
    if walkable {
      CutOut(m, pm, prev, cur, next, b0);
      prev2, cur2 := prev, next;
    } else {
      prev2, cur2 := MovePrev(pm, prev, cur, next);
      DistKept(m, b0, b, st, start, prev2);
    }
  }

  /** A rewriting of parents keeps every distance. */
  lemma DistKept(m: Map, b0: Board, b: Board, stamp: map<Pos3, nat>, start: Pos3, v: Pos3)
    requires m.TilesValid() && Chained(b0, stamp, start) && Reparented(m, b0, b, stamp, start)
    ensures NodeAt(b, v).dist == NodeAt(b0, v).dist
  {
  }

  /** The pass that moves prev on to its parent. */
  method MovePrev(pm: PathMap, prev: Pos3, cur: Pos3, next: Pos3) returns (prev2: Pos3, cur2: Pos3)
    requires pm.Valid() && Behind(pm.Nodes(), pm.stamp, pm.source, prev, cur)
    requires cur != pm.source && next == NodeAt(pm.Nodes(), cur).parent
    ensures prev2 == NodeAt(pm.Nodes(), prev).parent && cur2 == (if Same3(prev2, cur) then next else cur)
    ensures Behind(pm.Nodes(), pm.stamp, pm.source, prev2, cur2)
    ensures var b := pm.Nodes();
      RankBelow(NodeAt(b, cur2).dist.value, pm.stamp[cur2], NodeAt(b, cur).dist.value, pm.stamp[cur])
      || (cur2 == cur && RankBelow(NodeAt(b, prev2).dist.value, pm.stamp[prev2], NodeAt(b, prev).dist.value, pm.stamp[prev]))
  {
    ghost var b, st, start := pm.Nodes(), pm.stamp, pm.source;
    AdvancePrev(b, st, start, prev, cur);
    var p := pm.grid.Get(prev).parent;
    assert p == NodeAt(b, prev).parent;
    if Same3(p, cur) {
      prev2, cur2 := p, next;
    } else {
      prev2, cur2 := p, cur;
    }
  }

  /** b2 is b1 with the parent of prev, and nothing else, set to next. */
  ghost predicate Rewritten(b1: Board, b2: Board, prev: Pos3, next: Pos3) {
    NodeAt(b2, prev) == NodeAt(b1, prev).(parent := next)
    && forall v :: v != prev ==> NodeAt(b2, v) == NodeAt(b1, v)
  }

  /** The pass that rewrites prev's parent to next, cutting cur out. */
  method CutOut(m: Map, pm: PathMap, prev: Pos3, cur: Pos3, next: Pos3, ghost b0: Board)
    requires m.TilesValid() && pm.Valid() && Chained(b0, pm.stamp, pm.source)
    requires Reparented(m, b0, pm.Nodes(), pm.stamp, pm.source) && Behind(pm.Nodes(), pm.stamp, pm.source, prev, cur)
    requires cur != pm.source && next == NodeAt(pm.Nodes(), cur).parent
    requires !InLine(prev, cur, next) && IsWalkable(m, prev, next)
    modifies pm.grid
    ensures Rewritten(old(pm.Nodes()), pm.Nodes(), prev, next)
    ensures pm.Valid() && Reparented(m, b0, pm.Nodes(), pm.stamp, pm.source)
    ensures Behind(pm.Nodes(), pm.stamp, pm.source, prev, next)
    ensures NodeAt(old(pm.Nodes()), next).dist == NodeAt(pm.Nodes(), next).dist
    ensures RankBelow(NodeAt(old(pm.Nodes()), next).dist.value, pm.stamp[next],
                      NodeAt(old(pm.Nodes()), cur).dist.value, pm.stamp[cur])
  {
    ghost var b, st, start := pm.Nodes(), pm.stamp, pm.source;
    AdvanceCur(b, st, start, prev, cur);
    var n := pm.grid.Get(prev);
    ParentInBox(b, prev);
    Put(pm.grid, prev, n.(parent := next));
    RewriteKeeps(m, b0, b, pm.Nodes(), st, start, prev, cur, next);
    assert Behind(pm.Nodes(), st, start, prev, next);
  }

  /** An unchanged grid is a rewriting of itself. */
  lemma NoRewrite(m: Map, b: Board, stamp: map<Pos3, nat>, start: Pos3)
    requires m.TilesValid() && Chained(b, stamp, start)
    ensures Reparented(m, b, b, stamp, start)
  {
    forall v
      ensures RewriteOk(m, b, b, stamp, start, v)
    {
    }
  }

  // ----- What the paths are -----

  /** Every node of a chain but the last has the next as its parent, is
      reached and is not the start. */
  lemma {:induction false} ChainAt(b: Board, stamp: map<Pos3, nat>, start: Pos3, v: Pos3, k: int)
    requires Chained(b, stamp, start) && NodeAt(b, v).dist.Some?
    requires 0 <= k < |Chain(b, stamp, start, v)| - 1
    ensures var c := Chain(b, stamp, start, v);
      NodeAt(b, c[k]).parent == c[k + 1] && NodeAt(b, c[k]).dist.Some? && c[k] != start
    decreases k
  {
    var p := NodeAt(b, v).parent;
    assert p.z != -1;
    assert v != start ==> ParentBelow(b, stamp, v);
    assert v != start;
    var c := Chain(b, stamp, start, v);
    assert c == [v] + Chain(b, stamp, start, p);
    if k > 0 {
      ChainAt(b, stamp, start, p, k - 1);
    }
  }

  /** Node i > 0 of a reconstructed path is reached, is not the start, and
      has the node before it as its parent. */
  lemma PathAt(b: Board, stamp: map<Pos3, nat>, start: Pos3, dest: Pos3, i: int)
    requires Chained(b, stamp, start) && NodeAt(b, dest).dist.Some?
    requires 0 < i < |Chain(b, stamp, start, dest)|
    ensures var r := Reverse(Chain(b, stamp, start, dest));
      NodeAt(b, r[i]).parent == r[i - 1] && NodeAt(b, r[i]).dist.Some? && r[i] != start
  {
    var c := Chain(b, stamp, start, dest);
    var r := Reverse(c);
    var k := |c| - 1 - i;
    assert r[i] == c[k] && r[i - 1] == c[k + 1];
    ChainAt(b, stamp, start, dest, k);
  }

  /** A reconstructed path runs from the start to dest, each node's parent
      being the node before it. */
  lemma PathShape(b: Board, stamp: map<Pos3, nat>, start: Pos3, dest: Pos3)
    requires Chained(b, stamp, start) && NodeAt(b, dest).dist.Some?
    ensures var r := Reverse(Chain(b, stamp, start, dest));
      r[0] == start && r[|r| - 1] == dest
      && forall i :: 0 < i < |r| ==>
        NodeAt(b, r[i]).parent == r[i - 1] && NodeAt(b, r[i]).dist.Some? && r[i] != start
  {
    ChainEnd(b, stamp, start, dest);
    var c := Chain(b, stamp, start, dest);
    var r := Reverse(c);
    assert r[0] == c[|c| - 1] == start;
    assert r[|r| - 1] == c[0] == dest;
    forall i | 0 < i < |r|
      ensures NodeAt(b, r[i]).parent == r[i - 1] && NodeAt(b, r[i]).dist.Some? && r[i] != start
    {
      PathAt(b, stamp, start, dest, i);
    }
  }

  /** v is the target of an edge of the path grid leaving u. */
  ghost predicate EdgeTo(m: Map, s: Settings, b: Board, u: Pos3, v: Pos3)
    reads m, m.grid
    requires m.TilesValid()
  {
    exists e :: e in BoardEdges(m, s, b, u) && e.to == v
  }

  /** After a finished search, a reached node other than the start is
      the target of an edge of its parent. */
  lemma ParentEdge(m: Map, s: Settings, radius: nat, start: Pos3, b: Board, stamp: map<Pos3, nat>, v: Pos3)
    requires m.TilesValid() && Searched(m, s, radius, start, b, stamp)
    requires NodeAt(b, v).dist.Some? && v != start
    ensures EdgeTo(m, s, b, NodeAt(b, v).parent, v)
  {
    assert ParentOk(m, s, b, stamp, v);
    var es := BoardEdges(m, s, b, NodeAt(b, v).parent);
    var j :| 0 <= j < |es| && es[j].to == v && NodeAt(b, NodeAt(b, v).parent).dist.value + es[j].cost <= NodeAt(b, v).dist.value;
    assert es[j] in es;
  }

  /** After a finished search, each step of the path Path::to returns is
      an edge of the path grid: the path is a walk from the start. */
  lemma PlainPathFollowsEdges(m: Map, s: Settings, radius: nat, start: Pos3, b: Board,
                              stamp: map<Pos3, nat>, dest: Pos3)
    requires m.TilesValid() && Searched(m, s, radius, start, b, stamp) && NodeAt(b, dest).dist.Some?
    ensures Chained(b, stamp, start)
    ensures var r := Reverse(Chain(b, stamp, start, dest));
      forall i :: 0 < i < |r| ==> EdgeTo(m, s, b, r[i - 1], r[i])
  {
    SearchedChained(m, s, radius, start, b, stamp);
    var r := Reverse(Chain(b, stamp, start, dest));
    forall i | 0 < i < |r|
      ensures EdgeTo(m, s, b, r[i - 1], r[i])
    {
      PathAt(b, stamp, start, dest, i);
      ParentEdge(m, s, radius, start, b, stamp, r[i]);
    }
  }

  /** The path Map::to returns keeps to nodes of dest's original chain,
      and each step either follows an original parent link or is a
      straight walk. */
  lemma ShortcutPath(m: Map, b0: Board, b: Board, stamp: map<Pos3, nat>, start: Pos3, dest: Pos3)
    requires m.TilesValid() && Chained(b0, stamp, start) && Chained(b, stamp, start)
    requires Reparented(m, b0, b, stamp, start) && NodeAt(b, dest).dist.Some?
    ensures var r := Reverse(Chain(b, stamp, start, dest));
      r[0] == start && r[|r| - 1] == dest
      && (forall i :: 0 <= i < |r| ==> r[i] in Chain(b0, stamp, start, dest))
      && forall i :: 0 < i < |r| ==> r[i - 1] == NodeAt(b0, r[i]).parent || IsWalkable(m, r[i], r[i - 1])
  {
    ChainEnd(b, stamp, start, dest);
    ShortcutPathInChain(m, b0, b, stamp, start, dest);
    ShortcutPathSteps(m, b0, b, stamp, start, dest);
  }

  /** Every node of the path Map::to returns is on dest's original chain. */
  lemma ShortcutPathInChain(m: Map, b0: Board, b: Board, stamp: map<Pos3, nat>, start: Pos3, dest: Pos3)
    requires m.TilesValid() && Chained(b0, stamp, start) && Chained(b, stamp, start)
    requires Reparented(m, b0, b, stamp, start) && NodeAt(b, dest).dist.Some?
    ensures var r := Reverse(Chain(b, stamp, start, dest));
      forall i :: 0 <= i < |r| ==> r[i] in Chain(b0, stamp, start, dest)
  {
    ChainsShrink(m, b0, b, stamp, start, dest);
    ReverseKeepsMembers(Chain(b, stamp, start, dest), Chain(b0, stamp, start, dest));
  }

  /** Every element of the reverse of s is in t when every element of s is. */
  lemma ReverseKeepsMembers<T>(s: seq<T>, t: seq<T>)
    requires forall x :: x in s ==> x in t
    ensures var r := Reverse(s); forall i :: 0 <= i < |r| ==> r[i] in t
  {
    var r := Reverse(s);
    forall i | 0 <= i < |r|
      ensures r[i] in t
    {
      assert r[i] == s[|s| - 1 - i];
    }
  }

  /** Every step of the path Map::to returns is an original parent link
      or a straight walk. */
  lemma ShortcutPathSteps(m: Map, b0: Board, b: Board, stamp: map<Pos3, nat>, start: Pos3, dest: Pos3)
    requires m.TilesValid() && Chained(b0, stamp, start) && Chained(b, stamp, start)
    requires Reparented(m, b0, b, stamp, start) && NodeAt(b, dest).dist.Some?
    ensures var r := Reverse(Chain(b, stamp, start, dest));
      forall i :: 0 < i < |r| ==> r[i - 1] == NodeAt(b0, r[i]).parent || IsWalkable(m, r[i], r[i - 1])
  {
    var r := Reverse(Chain(b, stamp, start, dest));
    forall i | 0 < i < |r|
      ensures r[i - 1] == NodeAt(b0, r[i]).parent || IsWalkable(m, r[i], r[i - 1])
    {
      ShortcutStep(m, b0, b, stamp, start, dest, i);
    }
  }

  /** One step of the path Map::to returns: an original parent link or a
      straight walk. */
  lemma ShortcutStep(m: Map, b0: Board, b: Board, stamp: map<Pos3, nat>, start: Pos3, dest: Pos3, i: int)
    requires m.TilesValid() && Chained(b0, stamp, start) && Chained(b, stamp, start)
    requires Reparented(m, b0, b, stamp, start) && NodeAt(b, dest).dist.Some?
    requires 0 < i < |Chain(b, stamp, start, dest)|
    ensures var r := Reverse(Chain(b, stamp, start, dest));
      r[i - 1] == NodeAt(b0, r[i]).parent || IsWalkable(m, r[i], r[i - 1])
  {
    PathAt(b, stamp, start, dest, i);
    var r := Reverse(Chain(b, stamp, start, dest));
    assert NodeAt(b, r[i]).parent == r[i - 1];
    assert RewriteOk(m, b0, b, stamp, start, r[i]);
  }
}
