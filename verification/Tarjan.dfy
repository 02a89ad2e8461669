/**
 The explicit-stack Tarjan search of `CsrGraph::nodes_in_cycles` as a transition
 system over values: what every step of the search keeps, and why the nodes
 popped together form one whole strongly connected component.

 The predicates name the parts of the state they speak about, so that a step is
 only ever asked about the parts it changes.
 */
module Tarjan {
  import opened Digraph

  const UNVISITED: nat := 0xFFFF_FFFF

  /**
   `idx` and `low` are the two Tarjan numbers, `on` marks the members of the
   component stack `stack` and `pos` says where they lie on it, `work` is the
   depth-first path, `done` counts the out-edges scanned per node, and `order`
   lists the nodes as they were visited, so that its length is the next index.
   */
  datatype State = State(
    idx: seq<nat>, low: seq<nat>, on: seq<bool>, pos: seq<nat>, done: seq<nat>,
    stack: seq<nat>, work: seq<nat>, order: seq<nat>)

  // ----- The invariant

  /** `order` and `idx` are inverse to each other. */
  ghost predicate Numbered(n: nat, idx: seq<nat>, order: seq<nat>) {
    && |idx| == n < UNVISITED
    && (forall k :: 0 <= k < |order| ==> order[k] < n && idx[order[k]] == k)
    && (forall v :: 0 <= v < n && idx[v] != UNVISITED ==> idx[v] < |order| && order[idx[v]] == v)
  }

  /** The component stack holds exactly the marked nodes, oldest first. */
  ghost predicate Stacked(n: nat, idx: seq<nat>, on: seq<bool>, pos: seq<nat>, stack: seq<nat>) {
    && |idx| == |on| == |pos| == n
    && (forall i :: 0 <= i < |stack| ==> stack[i] < n && on[stack[i]] && pos[stack[i]] == i)
    && (forall v :: 0 <= v < n && on[v] ==> idx[v] != UNVISITED && pos[v] < |stack| && stack[pos[v]] == v)
    && (forall i, j :: 0 <= i < j < |stack| ==> idx[stack[i]] < idx[stack[j]])
  }

  /** The depth-first path lies on the stack, oldest first. */
  ghost predicate Pathed(n: nat, idx: seq<nat>, on: seq<bool>, work: seq<nat>) {
    && |idx| == |on| == n
    && (forall i :: 0 <= i < |work| ==> work[i] < n && on[work[i]])
    && (forall i, j :: 0 <= i < j < |work| ==> idx[work[i]] < idx[work[j]])
  }

  /** Every edge scanned so far leads to a visited node. */
  ghost predicate Explored(g: Graph, idx: seq<nat>, done: seq<nat>) {
    && WellFormed(g) && |idx| == |done| == |g|
    && (forall v :: 0 <= v < |g| ==> done[v] <= |g[v]|)
    && (forall v :: 0 <= v < |g| && idx[v] == UNVISITED ==> done[v] == 0)
    && (forall v, k :: 0 <= v < |g| && 0 <= k < done[v] ==> idx[g[v][k]] != UNVISITED)
  }

  /** A popped node is fully scanned and has only popped successors. */
  ghost predicate Sealed(g: Graph, idx: seq<nat>, on: seq<bool>, done: seq<nat>) {
    && WellFormed(g) && |idx| == |on| == |done| == |g|
    && (forall v :: 0 <= v < |g| && idx[v] != UNVISITED && !on[v] ==> done[v] == |g[v]|)
    && (forall v, k :: 0 <= v < |g| && idx[v] != UNVISITED && !on[v] && 0 <= k < |g[v]| ==> !on[g[v][k]])
  }

  /** x is stacked at or above path node i and below path node i + 1. */
  ghost predicate InSegment(n: nat, idx: seq<nat>, on: seq<bool>, work: seq<nat>, i: int, x: int)
    requires Pathed(n, idx, on, work)
  {
    && 0 <= i < |work| && 0 <= x < n && on[x] && idx[work[i]] <= idx[x]
    && (i + 1 < |work| ==> idx[x] < idx[work[i + 1]])
  }

  /** Off the path, a stacked node is fully scanned. */
  ghost predicate OffPathScanned(g: Graph, idx: seq<nat>, on: seq<bool>, work: seq<nat>, done: seq<nat>)
    requires Pathed(|g|, idx, on, work) && |done| == |g|
  {
    forall i, x {:trigger InSegment(|g|, idx, on, work, i, x)} ::
      InSegment(|g|, idx, on, work, i, x) && x != work[i] ==> done[x] == |g[x]|
  }

  /** A node of the path reaches everything stacked above it. */
  ghost predicate Downward(r: Closure, idx: seq<nat>, on: seq<bool>, work: seq<nat>)
    requires Pathed(|r|, idx, on, work)
  {
    forall i, x: nat :: 0 <= i < |work| && x < |r| && on[x] && idx[work[i]] <= idx[x] ==> x in r[work[i]]
  }

  /** x reaches a node of the path at or below it. */
  ghost predicate Climbs(r: Closure, idx: seq<nat>, on: seq<bool>, work: seq<nat>, x: nat)
    requires Pathed(|r|, idx, on, work) && x < |r|
  {
    exists i :: 0 <= i < |work| && idx[work[i]] <= idx[x] && work[i] in r[x]
  }

  ghost predicate Upward(r: Closure, idx: seq<nat>, on: seq<bool>, work: seq<nat>)
    requires Pathed(|r|, idx, on, work)
  {
    forall x: nat {:trigger Climbs(r, idx, on, work, x)} :: x < |r| && on[x] ==> Climbs(r, idx, on, work, x)
  }

  /** The low number of v is the index of a stacked node that v reaches. */
  ghost predicate LowWitness(r: Closure, idx: seq<nat>, on: seq<bool>, order: seq<nat>, low: seq<nat>, v: nat) {
    && v < |idx| && |low| == |on| == |idx| == |r|
    && low[v] <= idx[v] && low[v] < |order| && order[low[v]] < |on| && on[order[low[v]]]
    && order[low[v]] in r[v]
  }

  ghost predicate LowWitnessed(r: Closure, idx: seq<nat>, on: seq<bool>, order: seq<nat>, low: seq<nat>, work: seq<nat>)
  {
    forall i {:trigger LowWitness(r, idx, on, order, low, work[i])} ::
      0 <= i < |work| ==> LowWitness(r, idx, on, order, low, work[i])
  }

  /** The low number of path node i bounds every scanned edge of its segment into the stack. */
  ghost predicate LowBounds(g: Graph, idx: seq<nat>, on: seq<bool>, work: seq<nat>, done: seq<nat>, low: seq<nat>)
    requires Pathed(|g|, idx, on, work) && Explored(g, idx, done) && |low| == |g|
  {
    forall i, x, k {:trigger InSegment(|g|, idx, on, work, i, x), g[x][k]} ::
      InSegment(|g|, idx, on, work, i, x) && 0 <= k < done[x] && on[g[x][k]] ==>
      low[work[i]] <= idx[g[x][k]]
  }

  ghost predicate Inv(g: Graph, r: Closure, s: State) {
    && |r| == |s.low| == |g|
    && Numbered(|g|, s.idx, s.order)
    && Stacked(|g|, s.idx, s.on, s.pos, s.stack)
    && Pathed(|g|, s.idx, s.on, s.work)
    && Explored(g, s.idx, s.done)
    && Sealed(g, s.idx, s.on, s.done)
    && OffPathScanned(g, s.idx, s.on, s.work, s.done)
    && Downward(r, s.idx, s.on, s.work)
    && Upward(r, s.idx, s.on, s.work)
    && LowWitnessed(r, s.idx, s.on, s.order, s.low, s.work)
    && LowBounds(g, s.idx, s.on, s.work, s.done, s.low)
  }

  // ----- The steps

  function Initial(n: nat): State {
    State(seq(n, _ => UNVISITED), seq(n, _ => 0), seq(n, _ => false), seq(n, _ => 0), seq(n, _ => 0), [], [], [])
  }

  function Visit(s: State, w: nat): State
    requires w < |s.idx| == |s.low| == |s.on| == |s.pos|
  {
    s.(idx := s.idx[w := |s.order|], low := s.low[w := |s.order|], on := s.on[w := true], pos := s.pos[w := |s.stack|],
       stack := s.stack + [w], work := s.work + [w], order := s.order + [w])
  }

  function Scan(s: State, v: nat): State
    requires v < |s.done|
  {
    s.(done := s.done[v := s.done[v] + 1])
  }

  function Min(a: nat, b: nat): nat { if a <= b then a else b }

  function Lower(s: State, v: nat, bound: nat): State
    requires v < |s.low|
  {
    s.(low := s.low[v := Min(s.low[v], bound)])
  }

  // ----- What each step keeps

  lemma InitialInv(g: Graph, r: Closure)
    requires WellFormed(g) && |r| == |g| < UNVISITED
    ensures Inv(g, r, Initial(|g|))
  {
  }

  /** While a node is unvisited, the next index stays below the sentinel. */
  lemma IndexFits(n: nat, idx: seq<nat>, order: seq<nat>, w: nat)
    requires Numbered(n, idx, order) && w < n && idx[w] == UNVISITED
    ensures |order| < n
  {
    DistinctWithin(order, Below(n));
    assert forall k :: 0 <= k < |order| ==> order[k] != w;
    DistinctWithin(order + [w], Below(n));
  }

  lemma VisitNumbered(n: nat, idx: seq<nat>, order: seq<nat>, w: nat)
    requires Numbered(n, idx, order) && w < n && idx[w] == UNVISITED
    ensures |order| < n && Numbered(n, idx[w := |order|], order + [w])
  {
    IndexFits(n, idx, order, w);
  }

  lemma VisitStacked(n: nat, idx: seq<nat>, on: seq<bool>, pos: seq<nat>, stack: seq<nat>, w: nat, next: nat)
    requires Stacked(n, idx, on, pos, stack) && w < n && !on[w] && next < UNVISITED
    requires forall x :: 0 <= x < n && on[x] ==> idx[x] < next
    ensures Stacked(n, idx[w := next], on[w := true], pos[w := |stack|], stack + [w])
  {
  }

  lemma VisitPathed(n: nat, idx: seq<nat>, on: seq<bool>, work: seq<nat>, w: nat, next: nat)
    requires Pathed(n, idx, on, work) && w < n && !on[w]
    requires forall x :: 0 <= x < n && on[x] ==> idx[x] < next
    ensures Pathed(n, idx[w := next], on[w := true], work + [w])
  {
  }

  lemma VisitExplored(g: Graph, idx: seq<nat>, on: seq<bool>, done: seq<nat>, w: nat, next: nat)
    requires Explored(g, idx, done) && Sealed(g, idx, on, done)
    requires w < |g| && idx[w] == UNVISITED && next < UNVISITED
    ensures Explored(g, idx[w := next], done) && Sealed(g, idx[w := next], on[w := true], done)
  {
  }

  lemma VisitSegments(g: Graph, idx: seq<nat>, on: seq<bool>, work: seq<nat>, done: seq<nat>, w: nat, next: nat)
    requires Pathed(|g|, idx, on, work) && |done| == |g| && OffPathScanned(g, idx, on, work, done)
    requires w < |g| && !on[w] && forall x :: 0 <= x < |g| && on[x] ==> idx[x] < next
    requires Pathed(|g|, idx[w := next], on[w := true], work + [w])
    ensures OffPathScanned(g, idx[w := next], on[w := true], work + [w], done)
  {
    var idx', on', work' := idx[w := next], on[w := true], work + [w];
    forall i, x | InSegment(|g|, idx', on', work', i, x) && x != work'[i]
      ensures done[x] == |g[x]|
    {
      if i < |work| {
        assert InSegment(|g|, idx, on, work, i, x);
      }
    }
  }

  /** The new node is reached from the whole path: by an edge from its parent, through the parent from below. */
  lemma VisitDownward(g: Graph, r: Closure, idx: seq<nat>, on: seq<bool>, work: seq<nat>, w: nat, next: nat)
    requires IsClosure(g, r) && Pathed(|r|, idx, on, work) && Downward(r, idx, on, work)
    requires w < |r| && !on[w] && forall x :: 0 <= x < |r| && on[x] ==> idx[x] < next
    requires work != [] ==> Edge(g, work[|work| - 1], w)
    requires Pathed(|r|, idx[w := next], on[w := true], work + [w])
    ensures Downward(r, idx[w := next], on[w := true], work + [w])
  {
    var idx', on', work' := idx[w := next], on[w := true], work + [w];
    ReachesRefl(g, w);
    forall i, x: nat | 0 <= i < |work'| && x < |r| && on'[x] && idx'[work'[i]] <= idx'[x]
      ensures x in r[work'[i]]
    {
      if i < |work| && x == w {
        var v := work[|work| - 1];
        assert v in r[work[i]];
        ReachesEdge(g, work[i], v, w);
      }
    }
  }

  /** Climbing depends only on the path and its indices, and outlives a longer path. */
  lemma ClimbsKept(r: Closure, idx: seq<nat>, on: seq<bool>, work: seq<nat>, idx': seq<nat>, on': seq<bool>,
                   work': seq<nat>, x: nat)
    requires Pathed(|r|, idx, on, work) && Pathed(|r|, idx', on', work') && x < |r| && Climbs(r, idx, on, work, x)
    requires work <= work' && idx'[x] == idx[x] && forall i :: 0 <= i < |work| ==> idx'[work[i]] == idx[work[i]]
    ensures Climbs(r, idx', on', work', x)
  {
    var i :| 0 <= i < |work| && idx[work[i]] <= idx[x] && work[i] in r[x];
    assert work'[i] == work[i];
  }

  lemma VisitUpward(r: Closure, idx: seq<nat>, on: seq<bool>, work: seq<nat>, w: nat, next: nat)
    requires Pathed(|r|, idx, on, work) && Upward(r, idx, on, work) && w < |r| && !on[w] && w in r[w]
    requires Pathed(|r|, idx[w := next], on[w := true], work + [w])
    ensures Upward(r, idx[w := next], on[w := true], work + [w])
  {
    var idx', on', work' := idx[w := next], on[w := true], work + [w];
    forall x: nat | x < |r| && on'[x]
      ensures Climbs(r, idx', on', work', x)
    {
      if x == w {
        assert work'[|work|] == w;
      } else {
        ClimbsKept(r, idx, on, work, idx', on', work', x);
      }
    }
  }

  lemma VisitLowWitnessed(r: Closure, idx: seq<nat>, on: seq<bool>, order: seq<nat>, low: seq<nat>, work: seq<nat>,
                          w: nat)
    requires Pathed(|r|, idx, on, work) && |low| == |r| && LowWitnessed(r, idx, on, order, low, work)
    requires w < |r| && !on[w] && w in r[w]
    ensures LowWitnessed(r, idx[w := |order|], on[w := true], order + [w], low[w := |order|], work + [w])
  {
    forall i | 0 <= i < |work + [w]|
      ensures LowWitness(r, idx[w := |order|], on[w := true], order + [w], low[w := |order|], (work + [w])[i])
    {
      if i < |work| {
        assert LowWitness(r, idx, on, order, low, work[i]);
      }
    }
  }

  lemma VisitLowBounds(g: Graph, r: Closure, idx: seq<nat>, on: seq<bool>, order: seq<nat>, low: seq<nat>,
                       work: seq<nat>, done: seq<nat>, w: nat)
    requires Pathed(|g|, idx, on, work) && Explored(g, idx, done) && |low| == |g|
             && LowBounds(g, idx, on, work, done, low)
    requires LowWitnessed(r, idx, on, order, low, work)
    requires w < |g| && idx[w] == UNVISITED && !on[w] && |order| < UNVISITED
    requires forall x :: 0 <= x < |g| && on[x] ==> idx[x] < |order|
    requires Pathed(|g|, idx[w := |order|], on[w := true], work + [w]) && Explored(g, idx[w := |order|], done)
    ensures LowBounds(g, idx[w := |order|], on[w := true], work + [w], done, low[w := |order|])
  {
    var idx', on', work', low' := idx[w := |order|], on[w := true], work + [w], low[w := |order|];
    forall i, x, k | InSegment(|g|, idx', on', work', i, x) && 0 <= k < done[x] && on'[g[x][k]]
      ensures low'[work'[i]] <= idx'[g[x][k]]
    {
      if i < |work| {
        assert InSegment(|g|, idx, on, work, i, x);
        assert LowWitness(r, idx, on, order, low, work[i]);
      }
    }
  }

  lemma VisitStep(g: Graph, r: Closure, s: State, w: nat)
    requires IsClosure(g, r) && Inv(g, r, s) && w < |g| && s.idx[w] == UNVISITED
    requires s.work != [] ==> Edge(g, s.work[|s.work| - 1], w)
    ensures |s.order| < |g| && Inv(g, r, Visit(s, w))
  {
    var n, next := |g|, |s.order|;
    ReachesRefl(g, w);
    assert forall x :: 0 <= x < n && s.on[x] ==> s.idx[x] < next;
    VisitNumbered(n, s.idx, s.order, w);
    VisitStacked(n, s.idx, s.on, s.pos, s.stack, w, next);
    VisitPathed(n, s.idx, s.on, s.work, w, next);
    VisitExplored(g, s.idx, s.on, s.done, w, next);
    VisitSegments(g, s.idx, s.on, s.work, s.done, w, next);
    VisitDownward(g, r, s.idx, s.on, s.work, w, next);
    VisitUpward(r, s.idx, s.on, s.work, w, next);
    VisitLowWitnessed(r, s.idx, s.on, s.order, s.low, s.work, w);
    VisitLowBounds(g, r, s.idx, s.on, s.order, s.low, s.work, s.done, w);
  }

  // ----- Counting an edge as scanned

  lemma ScanExplored(g: Graph, idx: seq<nat>, on: seq<bool>, done: seq<nat>, v: nat)
    requires Explored(g, idx, done) && Sealed(g, idx, on, done)
    requires v < |g| && on[v] && idx[v] != UNVISITED && done[v] < |g[v]| && idx[g[v][done[v]]] != UNVISITED
    ensures Explored(g, idx, done[v := done[v] + 1]) && Sealed(g, idx, on, done[v := done[v] + 1])
  {
  }

  lemma ScanSegments(g: Graph, idx: seq<nat>, on: seq<bool>, work: seq<nat>, done: seq<nat>, i: nat)
    requires Pathed(|g|, idx, on, work) && |done| == |g| && OffPathScanned(g, idx, on, work, done)
    requires i < |work| && done[work[i]] < |g[work[i]]|
    ensures OffPathScanned(g, idx, on, work, done[work[i] := done[work[i]] + 1])
  {
    forall j, x | InSegment(|g|, idx, on, work, j, x) && x != work[j]
      ensures done[work[i] := done[work[i]] + 1][x] == |g[x]|
    {
    }
  }

  lemma ScanLowBounds(g: Graph, idx: seq<nat>, on: seq<bool>, work: seq<nat>, done: seq<nat>, low: seq<nat>, i: nat)
    requires Pathed(|g|, idx, on, work) && Explored(g, idx, done) && |low| == |g|
             && LowBounds(g, idx, on, work, done, low)
    requires i < |work| && done[work[i]] < |g[work[i]]|
    requires var w := g[work[i]][done[work[i]]]; w < |g| && (on[w] ==> low[work[i]] <= idx[w])
    requires Explored(g, idx, done[work[i] := done[work[i]] + 1])
    ensures LowBounds(g, idx, on, work, done[work[i] := done[work[i]] + 1], low)
  {
    forall j, x, k | InSegment(|g|, idx, on, work, j, x) && 0 <= k < done[work[i] := done[work[i]] + 1][x]
      && on[g[x][k]]
      ensures low[work[j]] <= idx[g[x][k]]
    {
      if x == work[i] && i < j {
        assert false;
      }
    }
  }

  /** Any path node may count its next edge once the edge's head is visited and reflected in its low number. */
  lemma ScanStep(g: Graph, r: Closure, s: State, i: nat, v: nat)
    requires Inv(g, r, s) && i < |s.work| && v == s.work[i]
    requires s.done[v] < |g[v]| && s.idx[g[v][s.done[v]]] != UNVISITED
    requires s.on[g[v][s.done[v]]] ==> s.low[v] <= s.idx[g[v][s.done[v]]]
    ensures Inv(g, r, Scan(s, v))
  {
    assert s.on[v] && s.idx[v] != UNVISITED;
    ScanExplored(g, s.idx, s.on, s.done, v);
    ScanSegments(g, s.idx, s.on, s.work, s.done, i);
    ScanLowBounds(g, s.idx, s.on, s.work, s.done, s.low, i);
  }

  // ----- Lowering a low number

  lemma LowerWitnessed(r: Closure, idx: seq<nat>, on: seq<bool>, order: seq<nat>, low: seq<nat>, work: seq<nat>, v: nat,
                       bound: nat)
    requires LowWitnessed(r, idx, on, order, low, work) && |low| == |on| == |r| && v < |low|
    requires bound < |order| && order[bound] < |on| && on[order[bound]] && order[bound] in r[v]
    ensures LowWitnessed(r, idx, on, order, low[v := Min(low[v], bound)], work)
  {
    forall i | 0 <= i < |work|
      ensures LowWitness(r, idx, on, order, low[v := Min(low[v], bound)], work[i])
    {
      assert LowWitness(r, idx, on, order, low, work[i]);
    }
  }

  lemma LowerBounds(g: Graph, idx: seq<nat>, on: seq<bool>, work: seq<nat>, done: seq<nat>, low: seq<nat>, v: nat,
                    bound: nat)
    requires Pathed(|g|, idx, on, work) && Explored(g, idx, done) && |low| == |g|
             && LowBounds(g, idx, on, work, done, low)
    requires v < |low|
    ensures LowBounds(g, idx, on, work, done, low[v := Min(low[v], bound)])
  {
    forall i, x, k | InSegment(|g|, idx, on, work, i, x) && 0 <= k < done[x] && on[g[x][k]]
      ensures low[v := Min(low[v], bound)][work[i]] <= idx[g[x][k]]
    {
      assert low[work[i]] <= idx[g[x][k]];
    }
  }

  lemma LowerStep(g: Graph, r: Closure, s: State, v: nat, bound: nat)
    requires Inv(g, r, s) && v < |g|
    requires bound < |s.order| && s.on[s.order[bound]] && s.order[bound] in r[v]
    ensures Inv(g, r, Lower(s, v, bound))
  {
    LowerWitnessed(r, s.idx, s.on, s.order, s.low, s.work, v, bound);
    LowerBounds(g, s.idx, s.on, s.work, s.done, s.low, v, bound);
  }

  // ----- Leaving a finished node that is not the root of its component

  function PopPath(s: State): State
    requires s.work != []
  {
    s.(work := s.work[..|s.work| - 1])
  }

  /** A finished node that is not a root reaches a path node strictly below it. */
  lemma NonRootClimbs(g: Graph, r: Closure, s: State, v: nat) returns (i: nat)
    requires IsClosure(g, r) && Inv(g, r, s)
    requires s.work != [] && v == s.work[|s.work| - 1] && s.low[v] != s.idx[v]
    ensures i < |s.work| - 1 && s.work[i] in r[v] && s.idx[s.work[i]] < s.idx[v]
  {
    assert LowWitness(r, s.idx, s.on, s.order, s.low, v);
    var y := s.order[s.low[v]];
    assert Climbs(r, s.idx, s.on, s.work, y);
    i :| 0 <= i < |s.work| && s.idx[s.work[i]] <= s.idx[y] && s.work[i] in r[y];
    ReachesTrans(g, v, y, s.work[i]);
  }

  /** Whatever reaches v also reaches what v reaches. */
  lemma PassOn(g: Graph, r: Closure, v: nat, y: nat)
    requires IsClosure(g, r) && v < |r| && y in r[v]
    ensures forall x: nat {:trigger r[x]} :: x < |r| && v in r[x] ==> y in r[x]
  {
    forall x: nat | x < |r| && v in r[x]
      ensures y in r[x]
    {
      ReachesTrans(g, x, v, y);
    }
  }

  /** A node that climbs to the top of the path climbs lower when the top reaches work[i]. */
  lemma ClimbsBelow(r: Closure, idx: seq<nat>, on: seq<bool>, work: seq<nat>, i: nat, x: nat)
    requires Pathed(|r|, idx, on, work) && x < |r| && Climbs(r, idx, on, work, x) && i < |work| - 1
    requires work[|work| - 1] in r[x] ==> work[i] in r[x]
    ensures Climbs(r, idx, on, work[..|work| - 1], x)
  {
    var work' := work[..|work| - 1];
    var j :| 0 <= j < |work| && idx[work[j]] <= idx[x] && work[j] in r[x];
    var k := if j < |work'| then j else i;
    assert work'[k] == work[k];
  }

  lemma PopUpward(r: Closure, idx: seq<nat>, on: seq<bool>, work: seq<nat>, i: nat)
    requires Pathed(|r|, idx, on, work) && Upward(r, idx, on, work)
    requires i < |work| - 1
    requires forall x: nat {:trigger r[x]} :: x < |r| && work[|work| - 1] in r[x] ==> work[i] in r[x]
    ensures Pathed(|r|, idx, on, work[..|work| - 1]) && Upward(r, idx, on, work[..|work| - 1])
  {
    var work' := work[..|work| - 1];
    forall x: nat | x < |r| && on[x]
      ensures Climbs(r, idx, on, work', x)
    {
      assert Climbs(r, idx, on, work, x);
      ClimbsBelow(r, idx, on, work, i, x);
    }
  }

  lemma PopDownward(r: Closure, idx: seq<nat>, on: seq<bool>, work: seq<nat>)
    requires Pathed(|r|, idx, on, work) && Downward(r, idx, on, work) && work != []
    ensures Pathed(|r|, idx, on, work[..|work| - 1]) && Downward(r, idx, on, work[..|work| - 1])
  {
  }

  lemma PopSegments(g: Graph, idx: seq<nat>, on: seq<bool>, work: seq<nat>, done: seq<nat>)
    requires Pathed(|g|, idx, on, work) && |done| == |g| && OffPathScanned(g, idx, on, work, done)
    requires work != [] && done[work[|work| - 1]] == |g[work[|work| - 1]]|
    ensures Pathed(|g|, idx, on, work[..|work| - 1]) && OffPathScanned(g, idx, on, work[..|work| - 1], done)
  {
    var top := |work| - 1;
    forall i, x | InSegment(|g|, idx, on, work[..top], i, x) && x != work[..top][i]
      ensures done[x] == |g[x]|
    {
      assert InSegment(|g|, idx, on, work, i, x) || InSegment(|g|, idx, on, work, top, x);
    }
  }

  /** The parent takes over the finished node's segment, bounded by the lesser of the two low numbers. */
  lemma PopLowBounds(g: Graph, idx: seq<nat>, on: seq<bool>, work: seq<nat>, done: seq<nat>, low: seq<nat>)
    requires Pathed(|g|, idx, on, work) && Explored(g, idx, done) && |low| == |g|
             && LowBounds(g, idx, on, work, done, low)
    requires |work| > 1 && low[work[|work| - 2]] <= low[work[|work| - 1]]
    ensures Pathed(|g|, idx, on, work[..|work| - 1]) && LowBounds(g, idx, on, work[..|work| - 1], done, low)
  {
    var top := |work| - 1;
    forall i, x, k | InSegment(|g|, idx, on, work[..top], i, x) && 0 <= k < done[x] && on[g[x][k]]
      ensures low[work[..top][i]] <= idx[g[x][k]]
    {
      assert InSegment(|g|, idx, on, work, i, x) || (i == top - 1 && InSegment(|g|, idx, on, work, top, x));
    }
  }

  lemma PopLowWitnessed(r: Closure, idx: seq<nat>, on: seq<bool>, order: seq<nat>, low: seq<nat>, work: seq<nat>)
    requires work != [] && LowWitnessed(r, idx, on, order, low, work)
    ensures LowWitnessed(r, idx, on, order, low, work[..|work| - 1])
  {
    var work' := work[..|work| - 1];
    forall i | 0 <= i < |work'|
      ensures LowWitness(r, idx, on, order, low, work'[i])
    {
      assert LowWitness(r, idx, on, order, low, work[i]);
    }
  }

  /** The parent reaches whatever witnesses the finished node's low number. */
  lemma ParentWitness(g: Graph, r: Closure, s: State, v: nat, p: nat)
    requires IsClosure(g, r) && |r| == |g| && Pathed(|g|, s.idx, s.on, s.work) && Downward(r, s.idx, s.on, s.work)
    requires |s.work| > 1 && v == s.work[|s.work| - 1] && p == s.work[|s.work| - 2]
    requires LowWitness(r, s.idx, s.on, s.order, s.low, v)
    ensures s.order[s.low[v]] in r[p]
  {
    assert v in r[p];
    ReachesTrans(g, p, v, s.order[s.low[v]]);
  }

  /** Taking the finished top node off the path once its parent's low number is at most its own. */
  lemma PopFinished(g: Graph, r: Closure, s: State)
    requires Inv(g, r, s) && |s.work| > 1
    requires Pathed(|r|, s.idx, s.on, PopPath(s).work) && Upward(r, s.idx, s.on, PopPath(s).work)
    requires s.done[s.work[|s.work| - 1]] == |g[s.work[|s.work| - 1]]|
    requires s.low[s.work[|s.work| - 2]] <= s.low[s.work[|s.work| - 1]]
    ensures Inv(g, r, PopPath(s))
  {
    PopDownward(r, s.idx, s.on, s.work);
    PopSegments(g, s.idx, s.on, s.work, s.done);
    PopLowBounds(g, s.idx, s.on, s.work, s.done, s.low);
    PopLowWitnessed(r, s.idx, s.on, s.order, s.low, s.work);
  }

  /** Without a finished node that is no root the rest of the path is still climbed to. */
  lemma NonRootUpward(g: Graph, r: Closure, s: State, v: nat)
    requires IsClosure(g, r) && Inv(g, r, s)
    requires s.work != [] && v == s.work[|s.work| - 1] && s.low[v] != s.idx[v]
    ensures |s.work| > 1 && Pathed(|r|, s.idx, s.on, PopPath(s).work) && Upward(r, s.idx, s.on, PopPath(s).work)
  {
    var i := NonRootClimbs(g, r, s, v);
    PassOn(g, r, v, s.work[i]);
    PopUpward(r, s.idx, s.on, s.work, i);
  }

  /** The parent may take over the low number of a finished node. */
  lemma ParentLowers(g: Graph, r: Closure, s: State, v: nat, p: nat)
    requires IsClosure(g, r) && Inv(g, r, s)
    requires |s.work| > 1 && v == s.work[|s.work| - 1] && p == s.work[|s.work| - 2]
    ensures p < |g| && Inv(g, r, Lower(s, p, s.low[v]))
  {
    assert LowWitness(r, s.idx, s.on, s.order, s.low, v);
    ParentWitness(g, r, s, v, p);
    LowerStep(g, r, s, p, s.low[v]);
  }

  lemma PopNonRoot(g: Graph, r: Closure, s: State, v: nat, p: nat)
    requires IsClosure(g, r) && Inv(g, r, s)
    requires s.work != [] && v == s.work[|s.work| - 1] && s.done[v] == |g[v]| && s.low[v] != s.idx[v]
    requires |s.work| > 1 ==> p == s.work[|s.work| - 2]
    ensures |s.work| > 1 && p < |g| && Inv(g, r, PopPath(Lower(s, p, s.low[v])))
  {
    NonRootUpward(g, r, s, v);
    ParentLowers(g, r, s, v, p);
    PopFinished(g, r, Lower(s, p, s.low[v]));
  }

  // ----- Popping a whole component off the stack

  /** Unmark everything indexed at or above `bound`. */
  function CutOn(idx: seq<nat>, on: seq<bool>, bound: nat): seq<bool>
    requires |idx| == |on|
  {
    seq(|on|, x requires 0 <= x < |on| => on[x] && idx[x] < bound)
  }

  function PopComponent(s: State, v: nat): State
    requires |s.idx| == |s.on| == |s.pos| && v < |s.idx| && s.pos[v] <= |s.stack|
  {
    s.(on := CutOn(s.idx, s.on, s.idx[v]), stack := s.stack[..s.pos[v]])
  }

  lemma CutStacked(n: nat, idx: seq<nat>, on: seq<bool>, pos: seq<nat>, stack: seq<nat>, v: nat)
    requires Stacked(n, idx, on, pos, stack) && v < n && on[v]
    ensures Stacked(n, idx, CutOn(idx, on, idx[v]), pos, stack[..pos[v]])
  {
    var on' := CutOn(idx, on, idx[v]);
    forall x | 0 <= x < n && on'[x]
      ensures pos[x] < pos[v]
    {
      assert stack[pos[x]] == x && stack[pos[v]] == v;
    }
  }

  lemma CutSealed(g: Graph, idx: seq<nat>, on: seq<bool>, work: seq<nat>, done: seq<nat>, low: seq<nat>, v: nat)
    requires Pathed(|g|, idx, on, work) && Explored(g, idx, done) && Sealed(g, idx, on, done) && |low| == |g|
    requires OffPathScanned(g, idx, on, work, done) && LowBounds(g, idx, on, work, done, low)
    requires work != [] && v == work[|work| - 1] && done[v] == |g[v]| && low[v] == idx[v]
    ensures Sealed(g, idx, CutOn(idx, on, idx[v]), done)
  {
    var on', top := CutOn(idx, on, idx[v]), |work| - 1;
    forall x | 0 <= x < |g| && idx[x] != UNVISITED && !on'[x]
      ensures done[x] == |g[x]| && forall k :: 0 <= k < |g[x]| ==> !on'[g[x][k]]
    {
      if on[x] {
        assert InSegment(|g|, idx, on, work, top, x);
      }
    }
  }

  lemma CutSegments(g: Graph, idx: seq<nat>, on: seq<bool>, work: seq<nat>, done: seq<nat>)
    requires Pathed(|g|, idx, on, work) && |done| == |g| && work != [] && OffPathScanned(g, idx, on, work, done)
    ensures
      var on', work' := CutOn(idx, on, idx[work[|work| - 1]]), work[..|work| - 1];
      Pathed(|g|, idx, on', work') && OffPathScanned(g, idx, on', work', done)
  {
    var top := |work| - 1;
    var on', work' := CutOn(idx, on, idx[work[top]]), work[..top];
    forall i, x | InSegment(|g|, idx, on', work', i, x) && x != work'[i]
      ensures done[x] == |g[x]|
    {
      assert InSegment(|g|, idx, on, work, i, x);
    }
  }

  lemma CutDownward(r: Closure, idx: seq<nat>, on: seq<bool>, work: seq<nat>)
    requires Pathed(|r|, idx, on, work) && work != [] && Downward(r, idx, on, work)
    ensures
      var on', work' := CutOn(idx, on, idx[work[|work| - 1]]), work[..|work| - 1];
      Pathed(|r|, idx, on', work') && Downward(r, idx, on', work')
  {
  }

  /** What stays stacked lies below the root, and so does the path node it climbs to. */
  lemma CutUpward(r: Closure, idx: seq<nat>, on: seq<bool>, work: seq<nat>)
    requires Pathed(|r|, idx, on, work) && work != [] && Upward(r, idx, on, work)
    ensures
      var on', work' := CutOn(idx, on, idx[work[|work| - 1]]), work[..|work| - 1];
      Pathed(|r|, idx, on', work') && Upward(r, idx, on', work')
  {
    var top := |work| - 1;
    var on', work' := CutOn(idx, on, idx[work[top]]), work[..top];
    forall x: nat | x < |r| && on'[x]
      ensures Climbs(r, idx, on', work', x)
    {
      assert Climbs(r, idx, on, work, x);
      var i :| 0 <= i < |work| && idx[work[i]] <= idx[x] && work[i] in r[x];
      assert work'[i] == work[i];
    }
  }

  lemma CutLowWitnessed(n: nat, r: Closure, idx: seq<nat>, on: seq<bool>, order: seq<nat>, low: seq<nat>,
                        work: seq<nat>)
    requires |r| == |low| == n && Numbered(n, idx, order) && Pathed(n, idx, on, work)
    requires work != [] && LowWitnessed(r, idx, on, order, low, work)
    ensures LowWitnessed(r, idx, CutOn(idx, on, idx[work[|work| - 1]]), order, low, work[..|work| - 1])
  {
    var top := |work| - 1;
    var on', work' := CutOn(idx, on, idx[work[top]]), work[..top];
    forall i | 0 <= i < |work'|
      ensures LowWitness(r, idx, on', order, low, work'[i])
    {
      assert LowWitness(r, idx, on, order, low, work[i]);
    }
  }

  lemma CutLowBounds(g: Graph, idx: seq<nat>, on: seq<bool>, low: seq<nat>, work: seq<nat>, done: seq<nat>)
    requires |low| == |g| && Pathed(|g|, idx, on, work) && Explored(g, idx, done)
    requires work != [] && LowBounds(g, idx, on, work, done, low)
    requires Pathed(|g|, idx, CutOn(idx, on, idx[work[|work| - 1]]), work[..|work| - 1])
    ensures LowBounds(g, idx, CutOn(idx, on, idx[work[|work| - 1]]), work[..|work| - 1], done, low)
  {
    var top := |work| - 1;
    var on', work' := CutOn(idx, on, idx[work[top]]), work[..top];
    forall i, x, k | InSegment(|g|, idx, on', work', i, x) && 0 <= k < done[x] && on'[g[x][k]]
      ensures low[work'[i]] <= idx[g[x][k]]
    {
      assert InSegment(|g|, idx, on, work, i, x);
    }
  }

  /** v is a finished component root: the top of the path, fully scanned, with its own index as low number. */
  ghost predicate Root(g: Graph, s: State, v: nat) {
    && s.work != [] && v == s.work[|s.work| - 1]
    && v < |g| && |s.done| == |s.low| == |s.idx| == |g|
    && s.done[v] == |g[v]| && s.low[v] == s.idx[v]
  }

  lemma ParentLower(g: Graph, r: Closure, s: State, v: nat)
    requires Inv(g, r, s) && Root(g, s, v) && |s.work| > 1
    ensures s.low[s.work[|s.work| - 2]] <= s.low[v]
  {
    assert LowWitness(r, s.idx, s.on, s.order, s.low, s.work[|s.work| - 2]);
  }

  /** What popping the component keeps about the path. */
  lemma PopRootPath(g: Graph, r: Closure, s: State, v: nat)
    requires Inv(g, r, s) && Root(g, s, v)
    ensures
      var on', work' := CutOn(s.idx, s.on, s.idx[v]), PopPath(s).work;
      && Pathed(|g|, s.idx, on', work') && Upward(r, s.idx, on', work') && Downward(r, s.idx, on', work')
      && LowWitnessed(r, s.idx, on', s.order, s.low, work')
  {
    CutDownward(r, s.idx, s.on, s.work);
    CutUpward(r, s.idx, s.on, s.work);
    CutLowWitnessed(|g|, r, s.idx, s.on, s.order, s.low, s.work);
  }

  /** What popping the component keeps about scanned nodes. */
  lemma PopRootScanned(g: Graph, r: Closure, s: State, v: nat)
    requires Inv(g, r, s) && Root(g, s, v)
    requires Pathed(|g|, s.idx, CutOn(s.idx, s.on, s.idx[v]), PopPath(s).work)
    ensures
      var on', work' := CutOn(s.idx, s.on, s.idx[v]), PopPath(s).work;
      Sealed(g, s.idx, on', s.done) && OffPathScanned(g, s.idx, on', work', s.done)
      && LowBounds(g, s.idx, on', work', s.done, s.low)
  {
    CutSealed(g, s.idx, s.on, s.work, s.done, s.low, v);
    CutSegments(g, s.idx, s.on, s.work, s.done);
    CutLowBounds(g, s.idx, s.on, s.low, s.work, s.done);
  }

  lemma PopRoot(g: Graph, r: Closure, s: State, v: nat)
    requires Inv(g, r, s) && Root(g, s, v)
    ensures Inv(g, r, PopPath(PopComponent(s, v)))
  {
    CutStacked(|g|, s.idx, s.on, s.pos, s.stack, v);
    PopRootPath(g, r, s, v);
    PopRootScanned(g, r, s, v);
  }

  // ----- What is popped together is a strongly connected component

  /** The nodes popped with root v. */
  ghost function Component(n: nat, idx: seq<nat>, on: seq<bool>, v: nat): (c: set<nat>)
    requires |idx| == |on| == n && v < n
  {
    set x: nat | x in Below(n) && on[x] && idx[v] <= idx[x]
  }

  ghost function Popped(n: nat, idx: seq<nat>, on: seq<bool>): set<nat>
    requires |idx| == |on| == n
  {
    set x: nat | x in Below(n) && !on[x] && idx[x] != UNVISITED
  }

  lemma PoppedClosed(g: Graph, s: State)
    requires |s.idx| == |s.on| == |g| && Explored(g, s.idx, s.done) && Sealed(g, s.idx, s.on, s.done)
    ensures forall x, y :: x in Popped(|g|, s.idx, s.on) && Edge(g, x, y) ==> y in Popped(|g|, s.idx, s.on)
  {
  }

  lemma ComponentClosed(g: Graph, r: Closure, s: State, v: nat)
    requires Inv(g, r, s) && Root(g, s, v)
    ensures
      var c := Component(|g|, s.idx, s.on, v) + Popped(|g|, s.idx, s.on);
      forall x, y :: x in c && Edge(g, x, y) ==> y in c
  {
    var t := PopComponent(s, v);
    CutSealed(g, s.idx, s.on, s.work, s.done, s.low, v);
    PoppedClosed(g, t);
    assert Component(|g|, s.idx, s.on, v) + Popped(|g|, s.idx, s.on) == Popped(|g|, t.idx, t.on);
  }

  /** The popped nodes are exactly those that reach the root and are reached by it. */
  lemma ComponentIsStronglyConnected(g: Graph, r: Closure, s: State, v: nat)
    requires IsClosure(g, r) && Inv(g, r, s) && Root(g, s, v)
    ensures forall x :: x in Component(|g|, s.idx, s.on, v) <==> Reaches(g, v, x) && Reaches(g, x, v)
  {
    var c, popped := Component(|g|, s.idx, s.on, v), Popped(|g|, s.idx, s.on);
    ComponentClosed(g, r, s, v);
    PoppedClosed(g, s);
    forall x | x in c
      ensures Reaches(g, v, x) && Reaches(g, x, v)
    {
      assert x in r[v];
      assert Climbs(r, s.idx, s.on, s.work, x);
      var i :| 0 <= i < |s.work| && s.idx[s.work[i]] <= s.idx[x] && s.work[i] in r[x];
      ClosedSetConfines(g, c + popped, x, s.work[i]);
      assert i == |s.work| - 1;
    }
    forall x: nat | Reaches(g, v, x) && Reaches(g, x, v)
      ensures x in c
    {
      ClosedSetConfines(g, c + popped, v, x);
      if x in popped {
        ClosedSetConfines(g, popped, x, v);
      }
    }
  }

  /** Members of a larger component lie on cycles; a lone root does exactly when it is its own successor. */
  lemma ComponentCycles(g: Graph, r: Closure, s: State, v: nat)
    requires IsClosure(g, r) && Inv(g, r, s) && Root(g, s, v)
    ensures s.pos[v] < |s.stack| && s.stack[s.pos[v]] == v
    ensures s.stack[|s.stack| - 1] == v ==> (OnCycle(g, v) <==> Edge(g, v, v))
    ensures s.stack[|s.stack| - 1] != v ==>
      forall x: nat :: x < |g| && s.on[x] && s.idx[v] <= s.idx[x] ==> OnCycle(g, x)
  {
    ComponentIsStronglyConnected(g, r, s, v);
    var top := s.stack[|s.stack| - 1];
    var c := Component(|g|, s.idx, s.on, v);
    if top == v {
      LoneCycle(g, r, s, v);
    } else {
      assert v in c && top in c;
      forall x: nat | x < |g| && s.on[x] && s.idx[v] <= s.idx[x]
        ensures OnCycle(g, x)
      {
        assert x in c;
        var y := if x == v then top else v;
        ReachesTrans(g, x, v, y);
        ReachesTrans(g, y, v, x);
        MutualIsCycle(g, x, y);
      }
    }
  }

  lemma LoneCycle(g: Graph, r: Closure, s: State, v: nat)
    requires IsClosure(g, r) && Inv(g, r, s) && Root(g, s, v)
    requires s.pos[v] < |s.stack| && s.stack[s.pos[v]] == v && s.stack[|s.stack| - 1] == v
    ensures OnCycle(g, v) <==> Edge(g, v, v)
  {
    ComponentIsStronglyConnected(g, r, s, v);
    if OnCycle(g, v) {
      var w: nat :| Edge(g, v, w) && Reaches(g, w, v);
      ReachesRefl(g, v);
      ReachesEdge(g, v, v, w);
      assert w in Component(|g|, s.idx, s.on, v);
      assert s.stack[s.pos[w]] == w;
    }
    if Edge(g, v, v) {
      ReachesRefl(g, v);
    }
  }

  // ----- The answers found so far

  /** A popped node carries its final answer, any other node whether it has a self-loop. */
  ghost predicate Answers(g: Graph, idx: seq<nat>, on: seq<bool>, inCycle: seq<bool>) {
    && |inCycle| == |idx| == |on| == |g|
    && forall v: nat {:trigger inCycle[v]} :: v < |g| ==>
      (inCycle[v] <==> if idx[v] != UNVISITED && !on[v] then OnCycle(g, v) else Edge(g, v, v))
  }

  /** Popping root v: `inCycle'` marks the component when it has several members and is otherwise unchanged. */
  lemma PopAnswers(g: Graph, r: Closure, s: State, v: nat, inCycle: seq<bool>, inCycle': seq<bool>)
    requires IsClosure(g, r) && Inv(g, r, s) && Root(g, s, v)
    requires Answers(g, s.idx, s.on, inCycle) && |inCycle'| == |g|
    requires forall x :: 0 <= x < |g| ==>
      (inCycle'[x] <==> inCycle[x] || (s.stack[|s.stack| - 1] != v && s.on[x] && s.idx[v] <= s.idx[x]))
    ensures Answers(g, s.idx, CutOn(s.idx, s.on, s.idx[v]), inCycle')
  {
    ComponentCycles(g, r, s, v);
    forall x: nat | x < |g| && s.on[x] && s.idx[v] <= s.idx[x]
      ensures inCycle'[x] <==> OnCycle(g, x)
    {
      if s.stack[|s.stack| - 1] == v {
        assert s.stack[s.pos[x]] == x;
      }
    }
  }

  // ----- One turn of the search loop

  /** What a turn of the loop needs in order to index its vectors. */
  ghost predicate Ranged(g: Graph, s: State) {
    && WellFormed(g) && |g| < UNVISITED && |s.order| <= |g|
    && |s.idx| == |s.low| == |s.on| == |s.pos| == |s.done| == |g|
    && (forall i :: 0 <= i < |s.work| ==> s.work[i] < |g| && s.on[s.work[i]] && s.idx[s.work[i]] != UNVISITED)
    && (forall i, j :: 0 <= i < j < |s.work| ==> s.work[i] != s.work[j])
    && (forall v :: 0 <= v < |g| ==> s.done[v] <= |g[v]|)
    && (forall v :: 0 <= v < |g| && s.on[v] ==> s.pos[v] < |s.stack|)
  }

  lemma InvRanged(g: Graph, r: Closure, s: State)
    requires Inv(g, r, s)
    ensures Ranged(g, s)
  {
    DistinctWithin(s.order, Below(|g|));
  }

  /** Take the next edge off the top node v. */
  ghost function ScanTop(g: Graph, s: State): State
    requires Ranged(g, s) && s.work != [] && s.done[s.work[|s.work| - 1]] < |g[s.work[|s.work| - 1]]|
  {
    var v := s.work[|s.work| - 1];
    var w := g[v][s.done[v]];
    if s.idx[w] == UNVISITED then Scan(Visit(s, w), v)
    else if s.on[w] then Scan(Lower(s, v, s.idx[w]), v)
    else Scan(s, v)
  }

  /** Leave the fully scanned top node: pop its component if it is a root, then hand its low number on. */
  ghost function LeaveTop(g: Graph, s: State): State
    requires Ranged(g, s) && s.work != []
  {
    var v := s.work[|s.work| - 1];
    var t := PopPath(if s.low[v] == s.idx[v] then PopComponent(s, v) else s);
    if t.work == [] then t else Lower(t, t.work[|t.work| - 1], s.low[v])
  }

  ghost function Turn(g: Graph, s: State): State
    requires Ranged(g, s) && s.work != []
  {
    var v := s.work[|s.work| - 1];
    if s.done[v] < |g[v]| then ScanTop(g, s) else LeaveTop(g, s)
  }

  lemma ScanNewInv(g: Graph, r: Closure, s: State, i: nat, v: nat, w: nat)
    requires IsClosure(g, r) && Inv(g, r, s) && i == |s.work| - 1 && v == s.work[i]
    requires s.done[v] < |g[v]| && w == g[v][s.done[v]] && s.idx[w] == UNVISITED
    ensures Inv(g, r, Scan(Visit(s, w), v))
  {
    VisitStep(g, r, s, w);
    assert LowWitness(r, s.idx, s.on, s.order, s.low, s.work[i]);
    var t := Visit(s, w);
    assert t.work[i] == v && t.low[v] <= t.idx[w];
    ScanStep(g, r, t, i, v);
  }

  lemma TouchInv(g: Graph, r: Closure, s: State, i: nat, v: nat, w: nat)
    requires IsClosure(g, r) && Inv(g, r, s) && i < |s.work| && v == s.work[i]
    requires s.done[v] < |g[v]| && w == g[v][s.done[v]] && s.on[w]
    ensures Inv(g, r, Scan(Lower(s, v, s.idx[w]), v))
  {
    ReachesRefl(g, w);
    EdgeReaches(g, v, w, w);
    LowerStep(g, r, s, v, s.idx[w]);
    ScanStep(g, r, Lower(s, v, s.idx[w]), i, v);
  }

  lemma ScanTopInv(g: Graph, r: Closure, s: State)
    requires IsClosure(g, r) && Inv(g, r, s) && Ranged(g, s) && s.work != []
    requires s.done[s.work[|s.work| - 1]] < |g[s.work[|s.work| - 1]]|
    ensures Inv(g, r, ScanTop(g, s))
  {
    var top := |s.work| - 1;
    var v := s.work[top];
    var w := g[v][s.done[v]];
    if s.idx[w] == UNVISITED {
      ScanNewInv(g, r, s, top, v, w);
    } else if s.on[w] {
      TouchInv(g, r, s, top, v, w);
    } else {
      ScanStep(g, r, s, top, v);
    }
  }

  /** Handing a popped root's low number on changes nothing: the parent's is already smaller. */
  lemma LeaveRoot(g: Graph, s: State, v: nat)
    requires Ranged(g, s) && Root(g, s, v)
    requires |s.work| > 1 ==> s.low[s.work[|s.work| - 2]] <= s.low[v]
    ensures LeaveTop(g, s) == PopPath(PopComponent(s, v))
  {
    if |s.work| > 1 {
      var p := s.work[|s.work| - 2];
      assert s.low[p := s.low[p]] == s.low;
    }
  }

  lemma LeaveNonRoot(g: Graph, s: State, v: nat, p: nat)
    requires Ranged(g, s) && |s.work| > 1 && v == s.work[|s.work| - 1] && p == s.work[|s.work| - 2]
    requires s.low[v] != s.idx[v]
    ensures LeaveTop(g, s) == PopPath(Lower(s, p, s.low[v]))
  {
  }

  lemma LeaveTopInv(g: Graph, r: Closure, s: State)
    requires IsClosure(g, r) && Inv(g, r, s) && Ranged(g, s) && s.work != []
    requires s.done[s.work[|s.work| - 1]] == |g[s.work[|s.work| - 1]]|
    ensures Inv(g, r, LeaveTop(g, s))
  {
    var v := s.work[|s.work| - 1];
    if s.low[v] == s.idx[v] {
      PopRoot(g, r, s, v);
      if |s.work| > 1 {
        ParentLower(g, r, s, v);
      }
      LeaveRoot(g, s, v);
    } else {
      var p := if |s.work| > 1 then s.work[|s.work| - 2] else 0;
      PopNonRoot(g, r, s, v, p);
      LeaveNonRoot(g, s, v, p);
    }
  }

  /** Every turn keeps the invariant. */
  lemma TurnInv(g: Graph, r: Closure, s: State)
    requires IsClosure(g, r) && Inv(g, r, s) && Ranged(g, s) && s.work != []
    ensures Inv(g, r, Turn(g, s)) && Ranged(g, Turn(g, s))
  {
    if s.done[s.work[|s.work| - 1]] < |g[s.work[|s.work| - 1]]| {
      ScanTopInv(g, r, s);
    } else {
      LeaveTopInv(g, r, s);
    }
    InvRanged(g, r, Turn(g, s));
  }

  /** The vector of answers after a turn: popping a component of several members marks them all. */
  ghost predicate Marks(g: Graph, s: State, inCycle: seq<bool>, inCycle': seq<bool>)
    requires Ranged(g, s) && s.work != []
  {
    var v := s.work[|s.work| - 1];
    var pops := s.done[v] == |g[v]| && s.low[v] == s.idx[v] && s.stack != [] && s.stack[|s.stack| - 1] != v;
    && |inCycle| == |inCycle'| == |g|
    && forall x :: 0 <= x < |g| ==> (inCycle'[x] <==> inCycle[x] || (pops && s.on[x] && s.idx[v] <= s.idx[x]))
  }

  lemma TurnAnswers(g: Graph, r: Closure, s: State, inCycle: seq<bool>, inCycle': seq<bool>)
    requires IsClosure(g, r) && Inv(g, r, s) && Ranged(g, s) && s.work != []
    requires Answers(g, s.idx, s.on, inCycle) && Marks(g, s, inCycle, inCycle')
    ensures Answers(g, Turn(g, s).idx, Turn(g, s).on, inCycle')
  {
    var v := s.work[|s.work| - 1];
    if s.done[v] == |g[v]| && s.low[v] == s.idx[v] {
      PopMarks(g, r, s, v, inCycle, inCycle');
      TurnPops(g, s, v);
    } else {
      NothingMarked(g, s, inCycle, inCycle');
      TurnWithoutPop(g, s, inCycle);
    }
  }

  lemma NothingMarked(g: Graph, s: State, inCycle: seq<bool>, inCycle': seq<bool>)
    requires Ranged(g, s) && s.work != [] && Marks(g, s, inCycle, inCycle')
    requires var v := s.work[|s.work| - 1]; s.done[v] < |g[v]| || s.low[v] != s.idx[v]
    ensures inCycle' == inCycle
  {
  }

  lemma PopMarks(g: Graph, r: Closure, s: State, v: nat, inCycle: seq<bool>, inCycle': seq<bool>)
    requires IsClosure(g, r) && Inv(g, r, s) && Ranged(g, s) && s.work != [] && v == s.work[|s.work| - 1]
    requires s.done[v] == |g[v]| && s.low[v] == s.idx[v]
    requires Answers(g, s.idx, s.on, inCycle) && Marks(g, s, inCycle, inCycle')
    ensures Answers(g, s.idx, CutOn(s.idx, s.on, s.idx[v]), inCycle')
  {
    assert s.stack[s.pos[v]] == v;
    PopAnswers(g, r, s, v, inCycle, inCycle');
  }

  lemma TurnPops(g: Graph, s: State, v: nat)
    requires Ranged(g, s) && s.work != [] && v == s.work[|s.work| - 1]
    requires s.done[v] == |g[v]| && s.low[v] == s.idx[v]
    ensures Turn(g, s).idx == s.idx && Turn(g, s).on == CutOn(s.idx, s.on, s.idx[v])
  {
  }

  lemma TurnWithoutPop(g: Graph, s: State, inCycle: seq<bool>)
    requires Ranged(g, s) && s.work != [] && Answers(g, s.idx, s.on, inCycle)
    requires var v := s.work[|s.work| - 1]; s.done[v] < |g[v]| || s.low[v] != s.idx[v]
    requires forall v :: 0 <= v < |g| && s.on[v] ==> s.idx[v] != UNVISITED
    ensures Answers(g, Turn(g, s).idx, Turn(g, s).on, inCycle)
  {
  }

  /** The edges the top node still has to scan. */
  ghost function Left(g: Graph, s: State): int
    requires Ranged(g, s)
  {
    if s.work == [] then 0 else |g[s.work[|s.work| - 1]]| - s.done[s.work[|s.work| - 1]]
  }

  /** A turn visits a node, shortens the path, or scans one more edge of the top node; none un-visits a node. */
  lemma TurnAdvances(g: Graph, s: State)
    requires Ranged(g, s) && s.work != [] && Ranged(g, Turn(g, s))
    ensures
      var t := Turn(g, s);
      || |t.order| > |s.order|
      || (|t.order| == |s.order| && |t.work| < |s.work|)
      || (|t.order| == |s.order| && |t.work| == |s.work| && Left(g, t) < Left(g, s))
    ensures forall x :: 0 <= x < |g| && s.idx[x] != UNVISITED ==> Turn(g, s).idx[x] != UNVISITED
  {
  }

  /** With the path empty nothing is stacked, so every visited node has its final answer. */
  lemma DryPath(g: Graph, r: Closure, s: State)
    requires Inv(g, r, s) && s.work == []
    ensures forall v :: 0 <= v < |g| ==> !s.on[v]
  {
    forall v: nat | v < |g|
      ensures !s.on[v]
    {
      assert s.on[v] ==> Climbs(r, s.idx, s.on, s.work, v);
    }
  }
}
