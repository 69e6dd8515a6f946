/**
 * The breadth-first layout of imported flows. Nodes are placed in rows, one
 * row per breadth-first level from the start node; the nodes the search never
 * reaches share one final row, in index order. Every row is centred on x = 0.
 */
module AutoLayout {
  import opened Base
  import opened FlowTypes

  const NODE_W: int := 280
  const NODE_H: int := 150
  const GAP_X: int := 60
  const GAP_Y: int := 80

  // ---------------------------------------------------------------------
  // Geometry

  /** `totalW` of a row of `m` nodes. */
  function RowWidth(m: int): int
  {
    m * NODE_W + (m - 1) * GAP_X
  }

  /** `startX = -totalW / 2`: the width is always even, so the halving is exact. */
  function RowStartX(m: int): (x: int)
    ensures 2 * x == -RowWidth(m)
  {
    RowWidthClosed(m);
    HalfOfDouble(30 - 170 * m);
    -RowWidth(m) / 2
  }

  lemma HalfOfDouble(k: int)
    ensures (2 * k) / 2 == k
  {
  }

  /** `totalW = 340m - 60`. */
  lemma RowWidthClosed(m: int)
    ensures RowWidth(m) == 340 * m - 60
  {
    assert m * NODE_W == 280 * m;
    assert (m - 1) * GAP_X == 60 * m - 60;
  }

  /** The position of the node at place `i` of row `li`, a row of `m` nodes. */
  function Slot(m: int, li: int, i: int): Position
  {
    Position(RowStartX(m) + i * (NODE_W + GAP_X), li * (NODE_H + GAP_Y))
  }

  /** In closed form: `x = 30 - 170m + 340i`, `y = 230li`. */
  lemma SlotFormula(m: int, li: int, i: int)
    ensures Slot(m, li, i) == Position(30 - 170 * m + 340 * i, 230 * li)
  {
  }

  /** A row is symmetric about x = 0: its nodes' centres mirror each other, and so do its two outer edges. */
  lemma RowCentred(m: int, li: int, i: int)
    requires 0 <= i < m
    ensures Slot(m, li, i).x + NODE_W / 2 == -(Slot(m, li, m - 1 - i).x + NODE_W / 2)
    ensures Slot(m, li, 0).x == -(Slot(m, li, m - 1).x + NODE_W)
  {
  }

  /** Neighbouring places of a row are one node width and one gap apart, so nodes never overlap. */
  lemma RowSpacing(m: int, li: int, i: int)
    ensures Slot(m, li, i + 1).x - Slot(m, li, i).x == NODE_W + GAP_X
    ensures Slot(m, li + 1, i).y - Slot(m, li, i).y == NODE_H + GAP_Y
  {
  }

  // ---------------------------------------------------------------------
  // Rows as lists of node indices

  /** `adjacency` for `n` nodes: one neighbour list per node, every neighbour a node index. */
  predicate AdjOk(n: nat, adj: seq<seq<nat>>)
  {
    |adj| == n && forall u, k :: 0 <= u < n && 0 <= k < |adj[u]| ==> adj[u][k] < n
  }

  /** `v` occurs in one of the first `m` rows. */
  predicate InFirst(rows: seq<seq<nat>>, m: nat, v: nat)
    requires m <= |rows|
  {
    exists k :: 0 <= k < m && v in rows[k]
  }

  /** No index occurs twice, within a row or across rows. */
  predicate Disjoint(rows: seq<seq<nat>>)
  {
    forall k1, i1, k2, i2 ::
      0 <= k1 < |rows| && 0 <= i1 < |rows[k1]| && 0 <= k2 < |rows| && 0 <= i2 < |rows[k2]| && rows[k1][i1] == rows[k2][i2]
      ==> k1 == k2 && i1 == i2
  }

  /** `v` is a neighbour of some node of `us`. */
  predicate HasPred(adj: seq<seq<nat>>, us: seq<nat>, v: nat)
  {
    exists j :: 0 <= j < |us| && us[j] < |adj| && v in adj[us[j]]
  }

  /** Every node of a row after the first is a neighbour of a node of the row before. */
  predicate Preds(adj: seq<seq<nat>>, rows: seq<seq<nat>>)
  {
    forall k, i :: 1 <= k < |rows| && 0 <= i < |rows[k]| ==> HasPred(adj, rows[k - 1], rows[k][i])
  }

  function Min(a: nat, b: nat): nat
  {
    if a <= b then a else b
  }

  /** Every neighbour of a node in one of the first `m` rows, say row `k`, is in row `k + 1` or earlier. */
  predicate Closed(adj: seq<seq<nat>>, rows: seq<seq<nat>>, m: nat)
    requires m <= |rows|
  {
    forall k, i, w :: 0 <= k < m && 0 <= i < |rows[k]| && rows[k][i] < |adj| && w in adj[rows[k][i]]
      ==> InFirst(rows, Min(k + 2, |rows|), w)
  }

  /**
   * The breadth-first levels from `start`: the first is `[start]`, each later
   * one is reached from the one before, every neighbour of a level lies at
   * most one level further, and no node is listed twice. The order within a
   * level is not fixed here; `BfsFrom` fixes it.
   */
  predicate BfsLayers(adj: seq<seq<nat>>, start: nat, levels: seq<seq<nat>>)
  {
    && |levels| > 0 && levels[0] == [start]
    && (forall k :: 0 <= k < |levels| ==> |levels[k]| > 0)
    && Preds(adj, levels) && Closed(adj, levels, |levels|) && Disjoint(levels)
  }

  /** Strictly increasing. */
  predicate Ascending(s: seq<nat>)
  {
    forall i, j :: 0 <= i < j < |s| ==> s[i] < s[j]
  }

  /** `[0, 1, ..., n - 1]` */
  function Range(n: nat): (r: seq<nat>)
    ensures |r| == n && forall i :: 0 <= i < n ==> r[i] == i
  {
    seq(n, i => i)
  }

  // ---------------------------------------------------------------------
  // One breadth-first step as a function of the queue

  /** The elements of a list. */
  function Elems(s: seq<nat>): set<nat>
  {
    set x | x in s
  }

  /** The neighbour lists of `us`, one after the other. */
  function NeighborsOf(adj: seq<seq<nat>>, us: seq<nat>): seq<nat>
    requires forall j :: 0 <= j < |us| ==> us[j] < |adj|
  {
    if us == [] then [] else NeighborsOf(adj, us[..|us| - 1]) + adj[us[|us| - 1]]
  }

  /** The elements of `xs` that are not in `vis`, each at its first occurrence: what the search pushes. */
  function Scan(xs: seq<nat>, vis: set<nat>): seq<nat>
  {
    if xs == [] then []
    else
      var s := Scan(xs[..|xs| - 1], vis);
      var x := xs[|xs| - 1];
      if x in vis || x in s then s else s + [x]
  }

  lemma ScanSnoc(xs: seq<nat>, x: nat, vis: set<nat>)
    ensures Scan(xs + [x], vis) == if x in vis || x in Scan(xs, vis) then Scan(xs, vis) else Scan(xs, vis) + [x]
  {
    assert (xs + [x])[..|xs|] == xs;
  }

  lemma {:induction false} ScanOnlyNew(xs: seq<nat>, vis: set<nat>, x: nat)
    requires x in Scan(xs, vis)
    ensures x in xs && x !in vis
  {
    if x !in xs[..|xs| - 1] || x in Scan(xs[..|xs| - 1], vis) {
      if x in Scan(xs[..|xs| - 1], vis) {
        ScanOnlyNew(xs[..|xs| - 1], vis, x);
      }
    }
  }

  lemma {:induction false} ScanAllNew(xs: seq<nat>, vis: set<nat>, x: nat)
    requires x in xs && x !in vis
    ensures x in Scan(xs, vis)
  {
    var init := xs[..|xs| - 1];
    if x in init {
      ScanAllNew(init, vis, x);
    }
  }

  lemma {:induction false} ScanDistinct(xs: seq<nat>, vis: set<nat>)
    ensures forall i, j :: 0 <= i < j < |Scan(xs, vis)| ==> Scan(xs, vis)[i] != Scan(xs, vis)[j]
  {
    if xs != [] {
      ScanDistinct(xs[..|xs| - 1], vis);
    }
  }

  lemma {:induction false} NeighborsFrom(adj: seq<seq<nat>>, us: seq<nat>, w: nat)
    requires forall j :: 0 <= j < |us| ==> us[j] < |adj|
    requires w in NeighborsOf(adj, us)
    ensures HasPred(adj, us, w)
  {
    var init := us[..|us| - 1];
    if w !in adj[us[|us| - 1]] {
      NeighborsFrom(adj, init, w);
      var j :| 0 <= j < |init| && init[j] < |adj| && w in adj[init[j]];
      assert us[j] == init[j];
    }
  }

  lemma {:induction false} NeighborsHas(adj: seq<seq<nat>>, us: seq<nat>, j: nat, w: nat)
    requires forall j :: 0 <= j < |us| ==> us[j] < |adj|
    requires j < |us| && w in adj[us[j]]
    ensures w in NeighborsOf(adj, us)
  {
    var init := us[..|us| - 1];
    if j < |us| - 1 {
      assert init[j] == us[j];
      NeighborsHas(adj, init, j, w);
    }
  }

  lemma NeighborsBound(n: nat, adj: seq<seq<nat>>, us: seq<nat>, w: nat)
    requires AdjOk(n, adj) && (forall j :: 0 <= j < |us| ==> us[j] < n)
    requires w in NeighborsOf(adj, us)
    ensures w < n
  {
    NeighborsFrom(adj, us, w);
  }

  lemma NeighborsSnoc(adj: seq<seq<nat>>, us: seq<nat>, u: nat)
    requires (forall j :: 0 <= j < |us| ==> us[j] < |adj|) && u < |adj|
    ensures NeighborsOf(adj, us + [u]) == NeighborsOf(adj, us) + adj[u]
  {
    assert (us + [u])[..|us|] == us;
  }

  lemma ElemsSnoc(s: seq<nat>, x: nat)
    ensures Elems(s + [x]) == Elems(s) + {x}
  {
  }

  /** Distinct elements: as many as the list is long. */
  lemma {:induction false} ElemsCard(s: seq<nat>)
    requires forall i, j :: 0 <= i < j < |s| ==> s[i] != s[j]
    ensures |Elems(s)| == |s|
  {
    if s != [] {
      var init := s[..|s| - 1];
      ElemsCard(init);
      assert s == init + [s[|s| - 1]];
      ElemsSnoc(init, s[|s| - 1]);
    }
  }

  /** A set of indices below `n` has at most `n` elements. */
  lemma {:induction false} CardBound(vis: set<nat>, n: nat)
    requires forall v :: v in vis ==> v < n
    ensures |vis| <= n
  {
    if n > 0 {
      CardBound(vis - {n - 1}, n - 1);
    } else {
      assert vis == {};
    }
  }

  // ---------------------------------------------------------------------
  // The search

  /** One round of the outer loop: every queued node is shifted into the level and its new neighbours pushed. */
  method ExpandLevel(n: nat, adj: seq<seq<nat>>, queue: seq<nat>, visited: set<nat>)
    returns (level: seq<nat>, next: seq<nat>, visitedOut: set<nat>)
    requires AdjOk(n, adj) && forall j :: 0 <= j < |queue| ==> queue[j] < n
    ensures level == queue
    ensures next == Scan(NeighborsOf(adj, queue), visited)
    ensures visitedOut == visited + Elems(next)
  {
    level := [];
    next := queue;
    visitedOut := visited;
    var size := |next|;
    for i := 0 to size
      invariant level == queue[..i]
      invariant next == queue[i..] + Scan(NeighborsOf(adj, queue[..i]), visited)
      invariant visitedOut == visited + Elems(Scan(NeighborsOf(adj, queue[..i]), visited))
    {
      var cur := next[0];
      next := next[1..];
      level := level + [cur];
      assert queue[i..][1..] == queue[i + 1..];
      next, visitedOut := PushNeighbors(adj[cur], next, visitedOut, queue[i + 1..], NeighborsOf(adj, queue[..i]), visited);
      assert queue[..i + 1] == queue[..i] + [cur];
      NeighborsSnoc(adj, queue[..i], cur);
    }
    assert queue[..size] == queue;
  }

  /**
   * The inner loop over `adjacency.get(cur)`: each neighbour not yet visited
   * is marked and pushed. Before it, the queue ends with what the neighbours
   * `seen` so far pushed; after it, with what `seen + ns` pushes.
   */
  method PushNeighbors(ns: seq<nat>, queue: seq<nat>, visited: set<nat>,
                       ghost waiting: seq<nat>, ghost seen: seq<nat>, ghost visited0: set<nat>)
    returns (next: seq<nat>, visitedOut: set<nat>)
    requires queue == waiting + Scan(seen, visited0)
    requires visited == visited0 + Elems(Scan(seen, visited0))
    ensures next == waiting + Scan(seen + ns, visited0)
    ensures visitedOut == visited0 + Elems(Scan(seen + ns, visited0))
  {
    next, visitedOut := queue, visited;
    assert seen + ns[..0] == seen;
    for k := 0 to |ns|
      invariant next == waiting + Scan(seen + ns[..k], visited0)
      invariant visitedOut == visited0 + Elems(Scan(seen + ns[..k], visited0))
    {
      assert seen + ns[..k + 1] == (seen + ns[..k]) + [ns[k]];
      next, visitedOut := PushNeighbor(ns[k], next, visitedOut, waiting, seen + ns[..k], visited0);
    }
    assert ns[..|ns|] == ns;
  }

  /** One pass of the inner loop: an unvisited neighbour is marked and pushed, any other is skipped. */
  method PushNeighbor(neighbor: nat, queue: seq<nat>, visited: set<nat>,
                      ghost waiting: seq<nat>, ghost seen: seq<nat>, ghost visited0: set<nat>)
    returns (next: seq<nat>, visitedOut: set<nat>)
    requires queue == waiting + Scan(seen, visited0)
    requires visited == visited0 + Elems(Scan(seen, visited0))
    ensures next == waiting + Scan(seen + [neighbor], visited0)
    ensures visitedOut == visited0 + Elems(Scan(seen + [neighbor], visited0))
  {
    ScanSnoc(seen, neighbor, visited0);
    next, visitedOut := queue, visited;
    if neighbor !in visited {
      ElemsSnoc(Scan(seen, visited0), neighbor);
      visitedOut := visited + {neighbor};
      next := queue + [neighbor];
    }
  }

  /** The visited set holds exactly the nodes listed in the rows. */
  ghost predicate Tracks(visited: set<nat>, rows: seq<seq<nat>>)
  {
    forall v :: v in visited <==> InFirst(rows, |rows|, v)
  }

  ghost predicate Below(n: nat, visited: set<nat>)
  {
    forall v :: v in visited ==> v < n
  }

  predicate Indices(n: nat, s: seq<nat>)
  {
    forall j :: 0 <= j < |s| ==> s[j] < n
  }

  /** What the outer loop keeps: the finished levels and the queue form breadth-first layers so far. */
  ghost predicate BfsInv(n: nat, adj: seq<seq<nat>>, start: nat, levels: seq<seq<nat>>, queue: seq<nat>, visited: set<nat>)
  {
    BfsShape(n, adj, start, levels, queue, visited) && BfsOrder(adj, levels, queue)
  }

  /** The rows so far start at `start`, list each visited node once and nothing else. */
  ghost predicate BfsShape(n: nat, adj: seq<seq<nat>>, start: nat, levels: seq<seq<nat>>, queue: seq<nat>, visited: set<nat>)
  {
    var rows := levels + [queue];
    && AdjOk(n, adj) && start < n
    && rows[0] == [start]
    && Indices(n, queue)
    && (forall k :: 0 <= k < |levels| ==> |levels[k]| > 0)
    && Disjoint(rows) && Tracks(visited, rows) && Below(n, visited)
  }

  /** Each row is reached from the one before, and each finished level's neighbours are at most one row further. */
  ghost predicate BfsOrder(adj: seq<seq<nat>>, levels: seq<seq<nat>>, queue: seq<nat>)
  {
    Preds(adj, levels + [queue]) && Closed(adj, levels + [queue], |levels|)
  }

  lemma BfsInit(n: nat, adj: seq<seq<nat>>, start: nat)
    requires AdjOk(n, adj) && start < n
    ensures BfsInv(n, adj, start, [], [start], {start})
  {
    var rows: seq<seq<nat>> := [[start]];
    forall v
      ensures v in {start} <==> InFirst(rows, 1, v)
    {
      if v == start {
        assert v in rows[0];
      }
    }
  }

  /** The rows gain the new queue: an old row keeps its place, and a node seen before is in an old row. */
  lemma InFirstGrow(rows: seq<seq<nat>>, next: seq<nat>, m: nat, v: nat)
    requires m <= |rows| && InFirst(rows, m, v)
    ensures InFirst(rows + [next], m, v)
  {
    var k :| 0 <= k < m && v in rows[k];
    assert (rows + [next])[k] == rows[k];
  }

  /** Every node pushed while scanning the queue's neighbours has a predecessor in the queue. */
  lemma NextHasPreds(adj: seq<seq<nat>>, queue: seq<nat>, next: seq<nat>)
    requires forall j :: 0 <= j < |queue| ==> queue[j] < |adj|
    requires forall v :: v in next ==> v in NeighborsOf(adj, queue)
    ensures forall i :: 0 <= i < |next| ==> HasPred(adj, queue, next[i])
  {
    forall i | 0 <= i < |next|
      ensures HasPred(adj, queue, next[i])
    {
      NeighborsFrom(adj, queue, next[i]);
    }
  }

  lemma BfsStepPreds(adj: seq<seq<nat>>, rows: seq<seq<nat>>, queue: seq<nat>, next: seq<nat>)
    requires |rows| > 0 && rows[|rows| - 1] == queue
    requires Preds(adj, rows)
    requires forall i :: 0 <= i < |next| ==> HasPred(adj, queue, next[i])
    ensures Preds(adj, rows + [next])
  {
    var rows' := rows + [next];
    forall k, i | 1 <= k < |rows'| && 0 <= i < |rows'[k]|
      ensures HasPred(adj, rows'[k - 1], rows'[k][i])
    {
      if k == |rows| {
        assert rows'[k] == next && rows'[k - 1] == queue;
      } else {
        assert rows'[k] == rows[k] && rows'[k - 1] == rows[k - 1];
      }
    }
  }

  lemma BfsStepClosed(adj: seq<seq<nat>>, levels: seq<seq<nat>>, queue: seq<nat>, next: seq<nat>, visited: set<nat>)
    requires (forall j :: 0 <= j < |queue| ==> queue[j] < |adj|)
    requires Closed(adj, levels + [queue], |levels|)
    requires Tracks(visited, levels + [queue])
    requires forall w :: w in NeighborsOf(adj, queue) ==> w in visited || w in next
    ensures Closed(adj, levels + [queue] + [next], |levels| + 1)
  {
    var rows := levels + [queue];
    var rows' := rows + [next];
    forall k, i, w | 0 <= k < |levels| + 1 && 0 <= i < |rows'[k]| && rows'[k][i] < |adj| && w in adj[rows'[k][i]]
      ensures InFirst(rows', Min(k + 2, |rows'|), w)
    {
      assert rows'[k] == rows[k];
      if k < |levels| {
        InFirstGrow(rows, next, k + 2, w);
      } else {
        NeighborsHas(adj, queue, i, w);
        if w in visited {
          InFirstGrow(rows, next, |rows|, w);
        } else {
          assert w in rows'[|rows|];
        }
      }
    }
  }

  lemma BfsStepDisjoint(rows: seq<seq<nat>>, next: seq<nat>, visited: set<nat>)
    requires Disjoint(rows)
    requires Tracks(visited, rows)
    requires forall v :: v in next ==> v !in visited
    requires forall i, j :: 0 <= i < j < |next| ==> next[i] != next[j]
    ensures Disjoint(rows + [next])
  {
    var rows' := rows + [next];
    forall k1, i1, k2, i2 |
      0 <= k1 < |rows'| && 0 <= i1 < |rows'[k1]| && 0 <= k2 < |rows'| && 0 <= i2 < |rows'[k2]| && rows'[k1][i1] == rows'[k2][i2]
      ensures k1 == k2 && i1 == i2
    {
      if k1 < |rows| && k2 < |rows| {
        assert rows'[k1] == rows[k1] && rows'[k2] == rows[k2];
      } else if k1 < |rows| {
        OldNotNew(rows, next, visited, k1, i1, i2);
      } else if k2 < |rows| {
        OldNotNew(rows, next, visited, k2, i2, i1);
      } else {
        assert rows'[k1] == next && rows'[k2] == next;
      }
    }
  }

  lemma OldNotNew(rows: seq<seq<nat>>, next: seq<nat>, visited: set<nat>, k: nat, i: nat, j: nat)
    requires Tracks(visited, rows)
    requires forall v :: v in next ==> v !in visited
    requires k < |rows| && i < |rows[k]| && j < |next|
    ensures rows[k][i] != next[j]
  {
    assert rows[k][i] in rows[k];
    assert InFirst(rows, |rows|, rows[k][i]);
  }

  lemma BfsStepVisited(rows: seq<seq<nat>>, next: seq<nat>, visited: set<nat>, visitedOut: set<nat>)
    requires Tracks(visited, rows)
    requires visitedOut == visited + Elems(next)
    ensures Tracks(visitedOut, rows + [next])
  {
    var rows' := rows + [next];
    forall v
      ensures v in visitedOut <==> InFirst(rows', |rows'|, v)
    {
      if v in visited {
        InFirstGrow(rows, next, |rows|, v);
      }
      if InFirst(rows', |rows'|, v) {
        var k :| 0 <= k < |rows'| && v in rows'[k];
        if k < |rows| {
          assert rows'[k] == rows[k];
        }
      }
      if v in next {
        assert v in rows'[|rows|];
      }
    }
  }

  /** What one round pushes: new neighbours of the queue, each once, and all of them. */
  lemma ExpandFacts(n: nat, adj: seq<seq<nat>>, queue: seq<nat>, visited: set<nat>, next: seq<nat>)
    requires AdjOk(n, adj) && forall j :: 0 <= j < |queue| ==> queue[j] < n
    requires next == Scan(NeighborsOf(adj, queue), visited)
    ensures forall v :: v in next ==> v in NeighborsOf(adj, queue) && v !in visited && v < n
    ensures forall w :: w in NeighborsOf(adj, queue) ==> w in visited || w in next
    ensures forall i, j :: 0 <= i < j < |next| ==> next[i] != next[j]
    ensures Indices(n, next)
  {
    var ns := NeighborsOf(adj, queue);
    forall v | v in next
      ensures v in ns && v !in visited && v < n
    {
      ScanOnlyNew(ns, visited, v);
      NeighborsBound(n, adj, queue, v);
    }
    forall j | 0 <= j < |next|
      ensures next[j] < n
    {
      assert next[j] in next;
    }
    forall w | w in ns
      ensures w in visited || w in next
    {
      if w !in visited {
        ScanAllNew(ns, visited, w);
      }
    }
    ScanDistinct(ns, visited);
  }

  /** One round of the outer loop keeps the invariant. */
  lemma BfsStep(n: nat, adj: seq<seq<nat>>, start: nat, levels: seq<seq<nat>>, queue: seq<nat>, visited: set<nat>,
                next: seq<nat>, visitedOut: set<nat>)
    requires BfsInv(n, adj, start, levels, queue, visited) && |queue| > 0
    requires next == Scan(NeighborsOf(adj, queue), visited)
    requires visitedOut == visited + Elems(next)
    ensures BfsInv(n, adj, start, levels + [queue], next, visitedOut)
  {
    BfsStepOrder(n, adj, start, levels, queue, visited, next);
    BfsStepShape(n, adj, start, levels, queue, visited, next, visitedOut);
  }

  lemma BfsStepOrder(n: nat, adj: seq<seq<nat>>, start: nat, levels: seq<seq<nat>>, queue: seq<nat>, visited: set<nat>,
                     next: seq<nat>)
    requires BfsInv(n, adj, start, levels, queue, visited) && |queue| > 0
    requires next == Scan(NeighborsOf(adj, queue), visited)
    ensures BfsOrder(adj, levels + [queue], next)
  {
    var rows := levels + [queue];
    assert queue == rows[|rows| - 1];
    ExpandFacts(n, adj, queue, visited, next);
    NextHasPreds(adj, queue, next);
    BfsStepPreds(adj, rows, queue, next);
    BfsStepClosed(adj, levels, queue, next, visited);
  }

  lemma BfsStepShape(n: nat, adj: seq<seq<nat>>, start: nat, levels: seq<seq<nat>>, queue: seq<nat>, visited: set<nat>,
                     next: seq<nat>, visitedOut: set<nat>)
    requires BfsShape(n, adj, start, levels, queue, visited) && |queue| > 0
    requires next == Scan(NeighborsOf(adj, queue), visited)
    requires visitedOut == visited + Elems(next)
    ensures BfsShape(n, adj, start, levels + [queue], next, visitedOut)
  {
    var rows := levels + [queue];
    ExpandFacts(n, adj, queue, visited, next);
    BfsStepDisjoint(rows, next, visited);
    BfsStepVisited(rows, next, visited, visitedOut);
    assert (rows + [next])[0] == rows[0];
  }

  /** The pushed nodes are new, so the visited set grows by exactly their number. */
  lemma StepCard(visited: set<nat>, next: seq<nat>, visitedOut: set<nat>)
    requires forall v :: v in next ==> v !in visited
    requires forall i, j :: 0 <= i < j < |next| ==> next[i] != next[j]
    requires visitedOut == visited + Elems(next)
    ensures |visitedOut| == |visited| + |next|
  {
    ElemsCard(next);
    assert visited * Elems(next) == {};
  }

  /** When the queue runs dry, the finished levels are the breadth-first layers. */
  lemma BfsDone(n: nat, adj: seq<seq<nat>>, start: nat, levels: seq<seq<nat>>, visited: set<nat>)
    requires BfsInv(n, adj, start, levels, [], visited)
    ensures BfsLayers(adj, start, levels)
    ensures forall v :: v in visited <==> InFirst(levels, |levels|, v)
  {
    var rows := levels + [[]];
    assert |levels| > 0;
    forall k | 0 <= k < |levels|
      ensures levels[k] == rows[k]
    {
    }
    forall k, i, w | 0 <= k < |levels| && 0 <= i < |levels[k]| && levels[k][i] < |adj| && w in adj[levels[k][i]]
      ensures InFirst(levels, Min(k + 2, |levels|), w)
    {
      assert InFirst(rows, Min(k + 2, |rows|), w);
      var k' :| 0 <= k' < Min(k + 2, |rows|) && w in rows[k'];
      assert k' < |levels|;
    }
    forall v
      ensures v in visited <==> InFirst(levels, |levels|, v)
    {
      if v in visited {
        var k :| 0 <= k < |rows| && v in rows[k];
      }
    }
  }

  /**
   * The levels the search takes from a queue and a visited set: the queue
   * itself, then the levels of what its neighbours push, in push order. This
   * fixes every level and the order of the nodes within it.
   */
  function BfsFrom(n: nat, adj: seq<seq<nat>>, queue: seq<nat>, visited: set<nat>): seq<seq<nat>>
    requires AdjOk(n, adj) && Indices(n, queue) && Below(n, visited)
    decreases n - |visited| + |queue|
  {
    if queue == [] then []
    else
      var next := Scan(NeighborsOf(adj, queue), visited);
      ExpandFacts(n, adj, queue, visited, next);
      StepCard(visited, next, visited + Elems(next));
      CardBound(visited, n);
      CardBound(visited + Elems(next), n);
      [queue] + BfsFrom(n, adj, next, visited + Elems(next))
  }

  /** One level of `BfsFrom`: the queue, then the levels of what it pushes, and a smaller measure for the rest. */
  lemma BfsFromStep(n: nat, adj: seq<seq<nat>>, queue: seq<nat>, visited: set<nat>)
    requires AdjOk(n, adj) && Indices(n, queue) && Below(n, visited) && |queue| > 0
    ensures var next := Scan(NeighborsOf(adj, queue), visited);
      var visitedOut := visited + Elems(next);
      && Indices(n, next) && Below(n, visitedOut)
      && 0 <= n - |visitedOut| + |next| < n - |visited| + |queue|
      && BfsFrom(n, adj, queue, visited) == [queue] + BfsFrom(n, adj, next, visitedOut)
  {
    var next := Scan(NeighborsOf(adj, queue), visited);
    var visitedOut := visited + Elems(next);
    ExpandFacts(n, adj, queue, visited, next);
    StepCard(visited, next, visitedOut);
    CardBound(visitedOut, n);
  }

  /** The levels still to come, appended to the finished ones, form breadth-first layers. */
  lemma {:induction false} BfsFromInv(n: nat, adj: seq<seq<nat>>, start: nat, levels: seq<seq<nat>>, queue: seq<nat>, visited: set<nat>)
    requires BfsInv(n, adj, start, levels, queue, visited)
    ensures BfsLayers(adj, start, levels + BfsFrom(n, adj, queue, visited))
    decreases n - |visited| + |queue|
  {
    if queue == [] {
      BfsDone(n, adj, start, levels, visited);
      assert levels + BfsFrom(n, adj, queue, visited) == levels;
    } else {
      var next := Scan(NeighborsOf(adj, queue), visited);
      var visitedOut := visited + Elems(next);
      BfsFromStep(n, adj, queue, visited);
      BfsStep(n, adj, start, levels, queue, visited, next, visitedOut);
      BfsFromInv(n, adj, start, levels + [queue], next, visitedOut);
      ShiftHead(levels, queue, BfsFrom(n, adj, next, visitedOut), BfsFrom(n, adj, queue, visited));
    }
  }

  /** The levels the search takes from `start` are the breadth-first layers from `start`. */
  lemma BfsFromLayers(n: nat, adj: seq<seq<nat>>, start: nat)
    requires AdjOk(n, adj) && start < n
    ensures BfsLayers(adj, start, BfsFrom(n, adj, [start], {start}))
  {
    BfsInit(n, adj, start);
    BfsFromInv(n, adj, start, [], [start], {start});
    assert [] + BfsFrom(n, adj, [start], {start}) == BfsFrom(n, adj, [start], {start});
  }

  /** Node 0 pointing at 1 and then 2: the second level is `[1, 2]`, in push order, and not `[2, 1]`. */
  lemma BfsOrderExample()
    ensures BfsFrom(3, [[1, 2], [], []], [0], {0}) == [[0], [1, 2]]
  {
    var adj: seq<seq<nat>> := [[1, 2], [], []];
    ExampleFirstPush();
    assert {0} + Elems([1, 2]) == {0, 1, 2};
    BfsFromStep(3, adj, [0], {0});
    ExampleSecondPush();
    BfsFromStep(3, adj, [1, 2], {0, 1, 2});
  }

  lemma ExampleFirstPush()
    ensures Scan(NeighborsOf([[1, 2], [], []], [0]), {0}) == [1, 2]
  {
    var adj: seq<seq<nat>> := [[1, 2], [], []];
    assert NeighborsOf(adj, [0]) == [1, 2] by {
      assert [0][..0] == [];
    }
    assert [1, 2][..1] == [1];
    assert [1][..0] == [];
  }

  lemma ExampleSecondPush()
    ensures Scan(NeighborsOf([[1, 2], [], []], [1, 2]), {0, 1, 2}) == []
  {
    var adj: seq<seq<nat>> := [[1, 2], [], []];
    assert [1, 2][..1] == [1];
    assert [1][..0] == [];
    assert NeighborsOf(adj, [1, 2]) == [];
  }

  /** The breadth-first part of `autoLayout`: the levels pushed by the search from `start`. */
  method Bfs(n: nat, adj: seq<seq<nat>>, start: nat) returns (levels: seq<seq<nat>>, visited: set<nat>)
    requires AdjOk(n, adj) && start < n
    ensures levels == BfsFrom(n, adj, [start], {start})
    ensures BfsLayers(adj, start, levels)
    ensures forall v :: v in visited <==> InFirst(levels, |levels|, v)
    ensures forall v :: v in visited ==> v < n
  {
    levels := [];
    var queue := [start];
    visited := {start};
    BfsInit(n, adj, start);
    while |queue| > 0
      invariant BfsInv(n, adj, start, levels, queue, visited)
      invariant levels + BfsFrom(n, adj, queue, visited) == BfsFrom(n, adj, [start], {start})
      invariant |visited| <= n
      decreases n - |visited| + |queue|
    {
      assert forall j :: 0 <= j < |queue| ==> queue[j] in (levels + [queue])[|levels|];
      var level, next, visitedOut := ExpandLevel(n, adj, queue, visited);
      BfsStep(n, adj, start, levels, queue, visited, next, visitedOut);
      ExpandFacts(n, adj, queue, visited, next);
      StepCard(visited, next, visitedOut);
      BfsFromStep(n, adj, queue, visited);
      ShiftHead(levels, level, BfsFrom(n, adj, next, visitedOut), BfsFrom(n, adj, queue, visited));
      levels := levels + [level];
      queue := next;
      visited := visitedOut;
      CardBound(visited, n);
    }
    BfsDone(n, adj, start, levels, visited);
    assert levels + BfsFrom(n, adj, queue, visited) == levels;
  }

  /** The indices below `n` that are not in `visited`, in ascending order. */
  function Unvisited(n: nat, visited: set<nat>): seq<nat>
  {
    if n == 0 then [] else Unvisited(n - 1, visited) + if n - 1 in visited then [] else [n - 1]
  }

  lemma {:induction false} UnvisitedHas(n: nat, visited: set<nat>, v: nat)
    ensures v in Unvisited(n, visited) <==> v < n && v !in visited
  {
    if n > 0 {
      UnvisitedHas(n - 1, visited, v);
    }
  }

  lemma {:induction false} UnvisitedAscending(n: nat, visited: set<nat>)
    ensures forall j :: 0 <= j < |Unvisited(n, visited)| ==> Unvisited(n, visited)[j] < n
    ensures Ascending(Unvisited(n, visited))
  {
    if n > 0 {
      UnvisitedAscending(n - 1, visited);
    }
  }

  lemma {:induction false} UnvisitedAll(n: nat)
    ensures Unvisited(n, {}) == Range(n)
  {
    if n > 0 {
      UnvisitedAll(n - 1);
    }
  }

  /** The final row holds each index below `n` outside `visited`, once and in ascending order. */
  lemma UnvisitedFacts(n: nat, visited: set<nat>)
    ensures forall v: nat :: v in Unvisited(n, visited) <==> v < n && v !in visited
    ensures forall j :: 0 <= j < |Unvisited(n, visited)| ==> Unvisited(n, visited)[j] < n
    ensures Ascending(Unvisited(n, visited))
    ensures visited == {} ==> Unvisited(n, visited) == Range(n)
  {
    forall v: nat
      ensures v in Unvisited(n, visited) <==> v < n && v !in visited
    {
      UnvisitedHas(n, visited, v);
    }
    UnvisitedAscending(n, visited);
    if visited == {} {
      UnvisitedAll(n);
    }
  }

  /** The final row: every index the search did not visit, in ascending order. */
  method UnreachableRow(n: nat, visited: set<nat>) returns (row: seq<nat>)
    ensures row == Unvisited(n, visited)
    ensures forall v: nat :: v in row <==> v < n && v !in visited
    ensures Ascending(row)
    ensures visited == {} ==> row == Range(n)
  {
    row := [];
    for i := 0 to n
      invariant row == Unvisited(i, visited)
    {
      if i !in visited {
        row := row + [i];
      }
    }
    UnvisitedFacts(n, visited);
  }

  /**
   * The rows of `autoLayout`: the first `reached` are the breadth-first levels
   * (none when `startIndex` is not a node index), and a last row of the
   * unreached indices follows when there are any.
   */
  ghost predicate LayoutRows(n: nat, adj: seq<seq<nat>>, startIndex: int, levels: seq<seq<nat>>, reached: nat)
  {
    && reached <= |levels|
    && (reached == 0 <==> !(0 <= startIndex < n))
    && (reached > 0 ==> BfsLayers(adj, startIndex as nat, levels[..reached]))
    && (reached < |levels| ==>
          reached == |levels| - 1 && |levels[reached]| > 0 && Ascending(levels[reached])
          && forall v: nat :: v in levels[reached] <==> v < n && !InFirst(levels, reached, v))
  }

  /** Every index in `[0, n)` is in exactly one row, at exactly one place. */
  ghost predicate Partition(n: nat, levels: seq<seq<nat>>)
  {
    Disjoint(levels) && forall v: nat :: v < n <==> InFirst(levels, |levels|, v)
  }

  lemma InFirstPrefix(levels: seq<seq<nat>>, m: nat, v: nat)
    requires m <= |levels|
    ensures InFirst(levels[..m], m, v) <==> InFirst(levels, m, v)
  {
    if InFirst(levels, m, v) {
      var k :| 0 <= k < m && v in levels[k];
      assert levels[..m][k] == levels[k];
    }
  }

  lemma RowsPartition(n: nat, bfs: seq<seq<nat>>, visited: set<nat>, row: seq<nat>)
    requires Disjoint(bfs) && (forall v :: v in visited <==> InFirst(bfs, |bfs|, v)) && (forall v :: v in visited ==> v < n)
    requires (forall v: nat :: v in row <==> v < n && v !in visited) && Ascending(row)
    ensures Partition(n, if |row| > 0 then bfs + [row] else bfs)
  {
    var levels := if |row| > 0 then bfs + [row] else bfs;
    if |row| > 0 {
      forall i, j | 0 <= i < |row| && 0 <= j < |row| && row[i] == row[j]
        ensures i == j
      {
      }
      BfsStepDisjoint(bfs, row, visited);
    }
    forall v: nat
      ensures v < n <==> InFirst(levels, |levels|, v)
    {
      if v < n && v !in visited {
        assert v in levels[|levels| - 1];
      }
      if v in visited {
        InFirstGrow(bfs, row, |bfs|, v);
      }
      if InFirst(levels, |levels|, v) {
        var k :| 0 <= k < |levels| && v in levels[k];
        if k < |bfs| {
          assert levels[k] == bfs[k];
        }
      }
    }
  }

  /** The last row of the unreached indices, when there is one, completes the breadth-first levels. */
  lemma LastRow(n: nat, bfs: seq<seq<nat>>, visited: set<nat>, row: seq<nat>)
    requires forall v :: v in visited <==> InFirst(bfs, |bfs|, v)
    requires (forall v: nat :: v in row <==> v < n && v !in visited) && Ascending(row) && |row| > 0
    ensures (bfs + [row])[..|bfs|] == bfs && (bfs + [row])[|bfs|] == row
    ensures forall v: nat :: v in row <==> v < n && !InFirst(bfs + [row], |bfs|, v)
  {
    var levels := bfs + [row];
    assert levels[..|bfs|] == bfs;
    forall v: nat
      ensures InFirst(bfs, |bfs|, v) <==> InFirst(levels, |bfs|, v)
    {
      InFirstPrefix(levels, |bfs|, v);
    }
  }

  lemma RowsLayout(n: nat, adj: seq<seq<nat>>, startIndex: int, bfs: seq<seq<nat>>, visited: set<nat>, row: seq<nat>)
    requires 0 <= startIndex < n ==> BfsLayers(adj, startIndex as nat, bfs)
    requires !(0 <= startIndex < n) ==> bfs == []
    requires forall v :: v in visited <==> InFirst(bfs, |bfs|, v)
    requires (forall v: nat :: v in row <==> v < n && v !in visited) && Ascending(row)
    ensures LayoutRows(n, adj, startIndex, if |row| > 0 then bfs + [row] else bfs, |bfs|)
  {
    if |row| > 0 {
      LastRow(n, bfs, visited, row);
    } else {
      assert bfs[..|bfs|] == bfs;
    }
  }

  /** The nodes listed in some row. */
  ghost function Reached(levels: seq<seq<nat>>): set<nat>
  {
    set k, i | 0 <= k < |levels| && 0 <= i < |levels[k]| :: levels[k][i]
  }

  lemma ReachedMeaning(levels: seq<seq<nat>>, v: nat)
    ensures v in Reached(levels) <==> InFirst(levels, |levels|, v)
  {
    if InFirst(levels, |levels|, v) {
      var k :| 0 <= k < |levels| && v in levels[k];
      var i :| 0 <= i < |levels[k]| && levels[k][i] == v;
    }
  }

  /**
   * The rows of `autoLayout`, each in the order it is placed: the levels the
   * search takes from the start (none when the start is not a node index),
   * then the indices it never reached, when there are any.
   */
  ghost function LayoutLevels(n: nat, adj: seq<seq<nat>>, startIndex: int): seq<seq<nat>>
    requires AdjOk(n, adj)
  {
    var bfs := if 0 <= startIndex < n then BfsFrom(n, adj, [startIndex as nat], {startIndex as nat}) else [];
    var row := Unvisited(n, Reached(bfs));
    if |row| > 0 then bfs + [row] else bfs
  }

  /** A set that holds exactly the listed nodes is the set of reached nodes. */
  lemma VisitedIsReached(levels: seq<seq<nat>>, visited: set<nat>)
    requires forall v :: v in visited <==> InFirst(levels, |levels|, v)
    ensures visited == Reached(levels)
  {
    forall v: nat
      ensures v in visited <==> v in Reached(levels)
    {
      ReachedMeaning(levels, v);
    }
  }

  /** The rows `autoLayout` builds before it assigns positions. */
  method ComputeLevels(n: nat, startIndex: int, adj: seq<seq<nat>>) returns (levels: seq<seq<nat>>, reached: nat)
    requires AdjOk(n, adj)
    ensures levels == LayoutLevels(n, adj, startIndex)
    ensures LayoutRows(n, adj, startIndex, levels, reached)
    ensures Partition(n, levels)
    ensures !(0 <= startIndex < n) ==> levels == if n == 0 then [] else [Range(n)]
  {
    var visited: set<nat> := {};
    levels := [];
    if 0 <= startIndex < n {
      levels, visited := Bfs(n, adj, startIndex);
    }
    reached := |levels|;
    VisitedIsReached(levels, visited);
    var unreachable := UnreachableRow(n, visited);
    RowsPartition(n, levels, visited, unreachable);
    RowsLayout(n, adj, startIndex, levels, visited, unreachable);
    if |unreachable| > 0 {
      levels := levels + [unreachable];
    }
  }

  /** The position loop: node `levels[li][i]` gets place `i` of row `li`. */
  method PlaceLevels(levels: seq<seq<nat>>, positions: array<Option<Position>>)
    requires Disjoint(levels)
    requires forall k, i :: 0 <= k < |levels| && 0 <= i < |levels[k]| ==> levels[k][i] < positions.Length
    modifies positions
    ensures forall k, i :: 0 <= k < |levels| && 0 <= i < |levels[k]| ==>
      positions[levels[k][i]] == Some(Slot(|levels[k]|, k, i))
    ensures forall v :: 0 <= v < positions.Length && !InFirst(levels, |levels|, v) ==> positions[v] == old(positions[v])
  {
    for li := 0 to |levels|
      invariant forall k, i :: 0 <= k < li && 0 <= i < |levels[k]| ==> positions[levels[k][i]] == Some(Slot(|levels[k]|, k, i))
      invariant forall v :: 0 <= v < positions.Length && !InFirst(levels, li, v) ==> positions[v] == old(positions[v])
    {
      var row := levels[li];
      var totalW := RowWidth(|row|);
      var startX := -totalW / 2;
      for i := 0 to |row|
        invariant forall k, i' :: 0 <= k < li && 0 <= i' < |levels[k]| ==> positions[levels[k][i']] == Some(Slot(|levels[k]|, k, i'))
        invariant forall i' :: 0 <= i' < i ==> positions[row[i']] == Some(Slot(|row|, li, i'))
        invariant forall v :: 0 <= v < positions.Length && !InFirst(levels, li, v) && v !in row[..i] ==> positions[v] == old(positions[v])
      {
        positions[row[i]] := Some(Position(startX + i * (NODE_W + GAP_X), li * (NODE_H + GAP_Y)));
      }
      assert row[..|row|] == row;
      forall v | InFirst(levels, li, v)
        ensures InFirst(levels, li + 1, v)
      {
        var k :| 0 <= k < li && v in levels[k];
      }
      forall v | v in row
        ensures InFirst(levels, li + 1, v)
      {
        assert v in levels[li];
      }
    }
  }

  /**
   * `autoLayout(nodeCount, startIndex, adjacency)`. The ghost `levels` are
   * the rows the layout uses; every index receives the place of its row.
   */
  method Layout(n: nat, startIndex: int, adj: seq<seq<nat>>) returns (positions: array<Option<Position>>, ghost levels: seq<seq<nat>>)
    requires AdjOk(n, adj)
    ensures fresh(positions) && positions.Length == n
    ensures forall k, i :: 0 <= k < |levels| && 0 <= i < |levels[k]| ==> levels[k][i] < n
    ensures levels == LayoutLevels(n, adj, startIndex)
    ensures Partition(n, levels) && exists reached :: LayoutRows(n, adj, startIndex, levels, reached)
    ensures forall v :: 0 <= v < n ==> positions[v].Some?
    ensures forall k, i :: 0 <= k < |levels| && 0 <= i < |levels[k]| ==> positions[levels[k][i]] == Some(Slot(|levels[k]|, k, i))
  {
    positions := new Option<Position>[n](_ => None);
    var rows, reached := ComputeLevels(n, startIndex, adj);
    levels := rows;
    forall k, i | 0 <= k < |rows| && 0 <= i < |rows[k]|
      ensures rows[k][i] < n
    {
      assert InFirst(rows, |rows|, rows[k][i]);
    }
    PlaceLevels(rows, positions);
    forall v | 0 <= v < n
      ensures positions[v].Some?
    {
      assert InFirst(rows, |rows|, v);
      var k :| 0 <= k < |rows| && v in rows[k];
      var i :| 0 <= i < |rows[k]| && rows[k][i] == v;
    }
  }
}
