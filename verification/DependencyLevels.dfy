/** `CsrGraph::dependency_levels`, and the order in which the call graph is analysed. */
module DependencyLevels {
  import opened Digraph
  import opened CsrGraph
  import L = Levels

  /** The vectors hold the state `s`. */
  ghost predicate Carries(level: array<u32>, expanding: array<bool>, s: L.State)
    reads level, expanding
  {
    level[..] == s.level && expanding[..] == s.expanding
  }

  /** The invariant of the search loop, over the vectors and the state they hold. */
  ghost predicate Sane(c: CsrGraph, r: Closure, settled: seq<bool>, s: L.State, work: seq<(u32, u32)>) {
    && c.Valid() && |settled| == c.NumNodes() && IsClosure(L.Unsettled(c.Graph(), settled), r)
    && L.Inv(c.Graph(), r, settled, s) && L.Ready(c.Graph(), settled, s)
    && Cursors(c.offsets, work, s.work, s.done)
  }

  /** Take the next edge off the top node v, descending unless its head is handled already. */
  method Descend(off: seq<u32>, w: u32, settled: seq<bool>, level: array<u32>, expanding: array<bool>,
                 work: seq<(u32, u32)>, ghost g: Graph, ghost s: L.State) returns (work': seq<(u32, u32)>)
    requires Carries(level, expanding, s) && L.Ready(g, settled, s) && Cursors(off, work, s.work, s.done)
    requires work != [] && |off| == |g| + 1 && work[|work| - 1].1 < U32_MAX
    requires s.done[work[|work| - 1].0] < |g[work[|work| - 1].0]|
             && w == g[work[|work| - 1].0][s.done[work[|work| - 1].0]]
    modifies expanding
    ensures Carries(level, expanding, L.Turn(g, settled, s))
    ensures Cursors(off, work', L.Turn(g, settled, s).work, L.Turn(g, settled, s).done)
  {
    var (v, cursor) := work[|work| - 1];
    MovedCursor(off, work, s.work, s.done);
    work' := work[|work| - 1 := (v, cursor + 1)];
    var skip := settled[w] || level[w] != L.UNLEVELED || expanding[w];
    if !skip {
      PushedCursor(off, work', s.work, s.done[v := s.done[v] + 1], w);
      expanding[w] := true;
      work' := work' + [(w, off[w])];
    }
  }

  /** Level the fully scanned top node and take it off the path. */
  method Finish(c: CsrGraph, settled: seq<bool>, level: array<u32>, expanding: array<bool>,
                work: seq<(u32, u32)>, ghost s: L.State) returns (work': seq<(u32, u32)>)
    requires c.Valid() && Carries(level, expanding, s) && L.Ready(c.Graph(), settled, s)
    requires Cursors(c.offsets, work, s.work, s.done) && work != []
    requires s.done[work[|work| - 1].0] == |c.Graph()[work[|work| - 1].0]|
    requires L.LevelAfter(c.Graph()[work[|work| - 1].0], settled, s.level) < U32_MAX
    modifies level, expanding
    ensures Carries(level, expanding, L.Turn(c.Graph(), settled, s))
    ensures Cursors(c.offsets, work', L.Turn(c.Graph(), settled, s).work, L.Turn(c.Graph(), settled, s).done)
  {
    var v := work[|work| - 1].0;
    PoppedCursor(c.offsets, work, s.work, s.done);
    var l := L.LevelAfter(c.Neighbors(v), settled, level[..]);
    level[v] := l;
    expanding[v] := false;
    work' := work[..|work| - 1];
  }

  /** The three measures of the search: fresh nodes, the length of the path, edges left at its top. */
  ghost predicate Advances(g: Graph, s: L.State, t: L.State)
    requires |s.level| == |s.expanding| && |t.level| == |t.expanding|
    requires |s.done| == |t.done| == |g|
    requires (forall i :: 0 <= i < |s.work| ==> s.work[i] < |g|) && forall i :: 0 <= i < |t.work| ==> t.work[i] < |g|
  {
    var before, after := |L.Fresh(s.level, s.expanding)|, |L.Fresh(t.level, t.expanding)|;
    || after < before
    || (after == before && |t.work| < |s.work|)
    || (after == before && |t.work| == |s.work| && L.Left(g, t) < L.Left(g, s))
  }

  lemma TopLevel(g: Graph, r: Closure, settled: seq<bool>, s: L.State, v: nat)
    requires L.Inv(g, r, settled, s) && s.work != [] && v == s.work[|s.work| - 1]
    ensures L.Ready(g, settled, s) && L.LevelAfter(g[v], settled, s.level) < U32_MAX
  {
    L.InvReady(g, r, settled, s);
  }

  /** What a turn keeps, told of the states. */
  lemma TurnFacts(c: CsrGraph, r: Closure, settled: seq<bool>, s: L.State, t: L.State, work: seq<(u32, u32)>,
                  work': seq<(u32, u32)>)
    requires Sane(c, r, settled, s, work) && s.work != [] && t == L.Turn(c.Graph(), settled, s)
    requires Cursors(c.offsets, work', t.work, t.done)
    ensures Sane(c, r, settled, t, work') && L.Keeps(s, t) && Advances(c.Graph(), s, t)
  {
    var g := c.Graph();
    L.InvReady(g, r, settled, s);
    L.TurnInv(g, r, settled, s);
    L.TurnAdvances(g, settled, s);
    L.TurnKeeps(g, settled, s);
  }

  /** One turn of the search loop. */
  method Turn(c: CsrGraph, settled: seq<bool>, level: array<u32>, expanding: array<bool>, work: seq<(u32, u32)>,
              ghost r: Closure, ghost s: L.State)
    returns (work': seq<(u32, u32)>, ghost t: L.State)
    requires Carries(level, expanding, s) && Sane(c, r, settled, s, work) && work != []
    modifies level, expanding
    ensures Carries(level, expanding, t) && Sane(c, r, settled, t, work')
    ensures L.Keeps(s, t) && Advances(c.Graph(), s, t)
  {
    ghost var g := c.Graph();
    var (v, cursor) := work[|work| - 1];
    TopEdge(c, work, s.work, s.done);
    TopLevel(g, r, settled, s, v);
    if cursor < c.offsets[v + 1] {
      work' := Descend(c.offsets, c.adj[cursor], settled, level, expanding, work, g, s);
    } else {
      work' := Finish(c, settled, level, expanding, work, s);
    }
    t := L.Turn(g, settled, s);
    TurnFacts(c, r, settled, s, t, work, work');
  }

  lemma KeepsOn(s: L.State, t: L.State, u: L.State)
    requires L.Keeps(s, t) && L.Keeps(t, u)
    ensures L.Keeps(s, u)
  {
  }

  /** Turns until the path is empty again. */
  method Search(c: CsrGraph, start: u32, settled: seq<bool>, level: array<u32>, expanding: array<bool>,
                ghost r: Closure, ghost s: L.State)
    returns (ghost t: L.State)
    requires c.Valid() && start < c.NumNodes()
    requires Carries(level, expanding, s) && Sane(c, r, settled, s, [(start, c.offsets[start])])
    modifies level, expanding
    ensures Carries(level, expanding, t) && Sane(c, r, settled, t, []) && L.Keeps(s, t)
  {
    var work: seq<(u32, u32)> := [(start, c.offsets[start])];
    t := s;
    while work != []
      invariant Carries(level, expanding, t) && Sane(c, r, settled, t, work) && L.Keeps(s, t)
      decreases |L.Fresh(t.level, t.expanding)|, |t.work|, L.Left(c.Graph(), t)
    {
      ghost var before := t;
      work, t := Turn(c, settled, level, expanding, work, r, t);
      KeepsOn(s, before, t);
    }
  }

  /** Level `start` and everything it needs, unless that was done already. */
  method LevelFrom(c: CsrGraph, start: u32, settled: seq<bool>, level: array<u32>, expanding: array<bool>,
                   ghost r: Closure, ghost s: L.State) returns (ghost t: L.State)
    requires Carries(level, expanding, s) && Sane(c, r, settled, s, []) && start < c.NumNodes()
    modifies level, expanding
    ensures Carries(level, expanding, t) && Sane(c, r, settled, t, [])
    ensures L.Keeps(s, t) && (settled[start] || t.level[start] != L.UNLEVELED)
  {
    if settled[start] || level[start] != L.UNLEVELED {
      return s;
    }
    StartSane(c, r, settled, s, start);
    expanding[start] := true;
    t := Search(c, start, settled, level, expanding, r, L.Push(s, start));
    KeepsOn(s, L.Push(s, start), t);
    NothingExpanding(c, r, settled, t);
  }

  /** Without work no node is being expanded. */
  lemma NothingExpanding(c: CsrGraph, r: Closure, settled: seq<bool>, s: L.State)
    requires Sane(c, r, settled, s, [])
    ensures forall v :: 0 <= v < |s.expanding| ==> !s.expanding[v]
  {
    assert L.OnPath(c.NumNodes(), settled, s.level, s.expanding, s.work, s.at);
  }

  lemma StartSane(c: CsrGraph, r: Closure, settled: seq<bool>, s: L.State, start: u32)
    requires Sane(c, r, settled, s, []) && start < c.NumNodes()
    requires !settled[start] && s.level[start] == L.UNLEVELED
    ensures L.Keeps(s, L.Push(s, start)) && L.Push(s, start).expanding[start]
    ensures Sane(c, r, settled, L.Push(s, start), [(start, c.offsets[start])])
  {
    NothingExpanding(c, r, settled, s);
    L.PushInv(c.Graph(), r, settled, s, start);
    L.InvReady(c.Graph(), r, settled, L.Push(s, start));
    FirstCursor(c, s.done, start);
  }

  /** A fresh node is scanned from its first edge. */
  lemma FirstCursor(c: CsrGraph, done: seq<nat>, start: u32)
    requires c.Valid() && |done| == c.NumNodes() && start < c.NumNodes() && done[start] == 0
    ensures Cursors(c.offsets, [(start, c.offsets[start])], [start], done)
  {
  }

  ghost predicate LeveledBelow(start: nat, settled: seq<bool>, level: seq<nat>) {
    forall v :: 0 <= v < start && v < |settled| && v < |level| ==> settled[v] || level[v] != L.UNLEVELED
  }

  lemma LeveledNext(start: nat, settled: seq<bool>, s: L.State, t: L.State)
    requires LeveledBelow(start, settled, s.level) && L.Keeps(s, t) && start < |settled| == |t.level|
    requires settled[start] || t.level[start] != L.UNLEVELED
    ensures LeveledBelow(start + 1, settled, t.level)
  {
  }

  method LevelEach(c: CsrGraph, settled: seq<bool>, level: array<u32>, expanding: array<bool>, ghost r: Closure,
                   ghost s: L.State)
    returns (ghost t: L.State)
    requires Carries(level, expanding, s) && Sane(c, r, settled, s, [])
    modifies level, expanding
    ensures Carries(level, expanding, t) && Sane(c, r, settled, t, []) && LeveledBelow(c.NumNodes(), settled, t.level)
  {
    t := s;
    for start := 0 to c.NumNodes()
      invariant Carries(level, expanding, t) && Sane(c, r, settled, t, []) && LeveledBelow(start, settled, t.level)
    {
      ghost var before := t;
      t := LevelFrom(c, start, settled, level, expanding, r, t);
      LeveledNext(start, settled, before, t);
    }
  }

  lemma InitialSane(c: CsrGraph, r: Closure, settled: seq<bool>)
    requires c.Valid() && |settled| == c.NumNodes() && IsClosure(L.Unsettled(c.Graph(), settled), r)
    ensures Sane(c, r, settled, L.Initial(c.NumNodes()), [])
  {
    L.InitialInv(c.Graph(), r, settled);
    L.InvReady(c.Graph(), r, settled, L.Initial(c.NumNodes()));
  }

  method LevelNodes(c: CsrGraph, settled: seq<bool>) returns (level: array<u32>)
    requires c.Valid() && |settled| == c.NumNodes()
    ensures fresh(level) && L.IsLeveling(c.Graph(), settled, level[..])
  {
    level := new u32[c.NumNodes()](_ => L.UNLEVELED);
    var expanding := new bool[c.NumNodes()](_ => false);
    ghost var r := ClosureOf(L.Unsettled(c.Graph(), settled));
    InitialSane(c, r, settled);
    ghost var s := LevelEach(c, settled, level, expanding, r, L.Initial(c.NumNodes()));
    L.FinishedIsLeveling(c.Graph(), r, settled, s);
  }

  method Deepest(level: seq<u32>) returns (any: bool, deepest: u32)
    ensures forall v :: 0 <= v < |level| && level[v] != L.UNLEVELED ==> any && level[v] <= deepest
    ensures any ==> deepest != L.UNLEVELED && deepest in level
  {
    any, deepest := false, 0;
    for i := 0 to |level|
      invariant forall v :: 0 <= v < i && level[v] != L.UNLEVELED ==> any && level[v] <= deepest
      invariant any ==> deepest != L.UNLEVELED && deepest in level
    {
      if level[i] != L.UNLEVELED && (!any || deepest < level[i]) {
        any, deepest := true, level[i];
      }
    }
  }

  /** Each bucket holds the nodes of its level before `node`. */
  ghost predicate Bucketed(level: seq<u32>, node: nat, buckets: seq<seq<u32>>)
    requires node <= |level|
  {
    forall l :: 0 <= l < |buckets| ==> buckets[l] == L.NodesAt(level, node, l)
  }

  lemma BucketedNext(level: seq<u32>, node: nat, buckets: seq<seq<u32>>)
    requires node < |level| < U32_MAX && Bucketed(level, node, buckets)
    ensures level[node] == L.UNLEVELED && |buckets| <= L.UNLEVELED ==> Bucketed(level, node + 1, buckets)
    ensures level[node] < |buckets| ==>
      Bucketed(level, node + 1, buckets[level[node] := buckets[level[node]] + [node]])
  {
  }

  /** Put the node into the bucket of its level, if it has one. */
  method PutNode(level: seq<u32>, node: u32, buckets: array<seq<u32>>)
    requires node < |level| < U32_MAX && buckets.Length <= L.UNLEVELED && Bucketed(level, node, buckets[..])
    requires level[node] != L.UNLEVELED ==> level[node] < buckets.Length
    modifies buckets
    ensures Bucketed(level, node + 1, buckets[..])
  {
    BucketedNext(level, node, buckets[..]);
    if level[node] != L.UNLEVELED {
      ghost var was := buckets[..];
      buckets[level[node]] := buckets[level[node]] + [node];
      assert buckets[..] == was[level[node] := was[level[node]] + [node]];
    }
  }

  method FillBuckets(level: seq<u32>, deepest: u32) returns (levels: seq<seq<u32>>)
    requires |level| < U32_MAX && forall v :: 0 <= v < |level| && level[v] != L.UNLEVELED ==> level[v] <= deepest
    requires deepest < L.UNLEVELED
    ensures |levels| == deepest + 1 && Bucketed(level, |level|, levels)
  {
    var buckets := new seq<u32>[deepest + 1](_ => []);
    for node := 0 to |level|
      invariant Bucketed(level, node, buckets[..])
    {
      PutNode(level, node, buckets);
    }
    levels := buckets[..];
  }

  /** The nodes of each level, in node order. */
  method Group(level: seq<u32>) returns (levels: seq<seq<u32>>)
    requires |level| < U32_MAX
    ensures L.Groups(level, levels)
  {
    var any, deepest := Deepest(level);
    if !any {
      return [];
    }
    levels := FillBuckets(level, deepest);
    DeepestInhabited(level, deepest);
  }

  lemma DeepestInhabited(level: seq<nat>, deepest: nat)
    requires deepest in level
    ensures L.NodesAt(level, |level|, deepest) != []
  {
    var v: nat :| v < |level| && level[v] == deepest;
    assert v in L.NodesAt(level, |level|, deepest);
  }

  /**
   `level` numbers the unsettled nodes and `levels` lists them level by level.
   What the numbers mean is said by `Levels.IsLeveling`.
   */
  method Levels(c: CsrGraph, settled: seq<bool>) returns (levels: seq<seq<u32>>, ghost level: seq<nat>)
    requires c.Valid() && |settled| == c.NumNodes()
    ensures L.IsLeveling(c.Graph(), settled, level) && L.Groups(level, levels)
    ensures forall l :: 0 <= l < |levels| ==> levels[l] != []
    ensures forall v: nat, l :: v < c.NumNodes() && 0 <= l < |levels| ==>
      (v in levels[l] <==> !settled[v] && level[v] == l)
    ensures forall v: nat :: v < c.NumNodes() && !settled[v] ==> level[v] < |levels|
  {
    var numbers := LevelNodes(c, settled);
    level := numbers[..];
    levels := Group(numbers[..]);
    L.GroupsPartition(c.Graph(), settled, level, levels);
  }

  /** If v and w are both leveled, w comes first. */
  ghost predicate StrictlyEarlier(levels: seq<seq<u32>>, w: nat, v: nat) {
    forall l, m :: 0 <= l < |levels| && 0 <= m < |levels| && v in levels[l] && w in levels[m] ==> m < l
  }

  /**
   Cycle members are settled first, so that an analysis that walks the remaining
   nodes level by level has finished every other node that a node has an edge to.
   */
  method AnalysisOrder(numNodes: nat, edges: seq<(u32, u32)>)
    returns (c: CsrGraph, inCycle: seq<bool>, levels: seq<seq<u32>>)
    requires numNodes < U32_MAX && |edges| <= U32_MAX && Endpoints(edges, numNodes)
    ensures c.Valid() && c.NumNodes() == |inCycle| == numNodes
    ensures forall u: nat :: u < numNodes ==> c.Graph()[u] == Targets(edges, u)
    ensures forall v: nat :: v < numNodes ==> (inCycle[v] <==> OnCycle(c.Graph(), v))
    ensures forall v: nat, l :: v < numNodes && inCycle[v] && 0 <= l < |levels| ==> v !in levels[l]
    ensures forall v: nat :: v < numNodes && !inCycle[v] ==> exists l :: 0 <= l < |levels| && v in levels[l]
    ensures forall v: nat, w: nat :: Edge(c.Graph(), v, w) ==> StrictlyEarlier(levels, w, v)
  {
    c := CsrGraph.FromEdges(numNodes, edges);
    inCycle := NodesInCycles(c);
    ghost var level;
    levels, level := Levels(c, inCycle);
    L.SettledCyclesOrderEdges(c.Graph(), inCycle, level);
    forall v: nat | v < numNodes && !inCycle[v]
      ensures exists l :: 0 <= l < |levels| && v in levels[l]
    {
      assert v in levels[level[v]];
    }
  }
}
