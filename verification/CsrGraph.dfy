/** The compressed-sparse-row call graph of `src/csr_graph.rs`. */
module CsrGraph {
  import opened Digraph
  import T = Tarjan

  const U32_MAX: nat := 0xFFFF_FFFF
  type u32 = x: nat | x <= 0xFFFF_FFFF

  // ----- Specification of the counting sort

  /** The targets of the edges out of u, in input order. */
  ghost function Targets(edges: seq<(u32, u32)>, u: nat): seq<u32> {
    if edges == [] then []
    else
      var last := edges[|edges| - 1];
      var rest := Targets(edges[..|edges| - 1], u);
      if last.0 == u then rest + [last.1] else rest
  }

  ghost predicate Endpoints(edges: seq<(u32, u32)>, n: nat) {
    forall e :: e in edges ==> e.0 < n && e.1 < n
  }

  lemma TargetsSnoc(edges: seq<(u32, u32)>, k: nat, u: nat)
    requires k < |edges|
    ensures Targets(edges[..k + 1], u) ==
            Targets(edges[..k], u) + if edges[k].0 == u then [edges[k].1] else []
  {
    assert edges[..k + 1][..k] == edges[..k];
  }

  lemma {:induction false} TargetsGrow(edges: seq<(u32, u32)>, j: nat, k: nat, u: nat)
    requires j <= k <= |edges|
    ensures Targets(edges[..j], u) <= Targets(edges[..k], u)
    decreases k
  {
    if j < k {
      TargetsGrow(edges, j, k - 1, u);
      TargetsSnoc(edges, k - 1, u);
    }
  }

  /** How many of the edges leave a node below u. */
  ghost function SourcesBelow(edges: seq<(u32, u32)>, u: nat): nat {
    if edges == [] then 0
    else SourcesBelow(edges[..|edges| - 1], u) + if edges[|edges| - 1].0 < u then 1 else 0
  }

  lemma {:induction false} SourcesBelowStep(edges: seq<(u32, u32)>, u: nat)
    ensures SourcesBelow(edges, u + 1) == SourcesBelow(edges, u) + |Targets(edges, u)|
  {
    if edges != [] {
      SourcesBelowStep(edges[..|edges| - 1], u);
    }
  }

  lemma {:induction false} SourcesBelowEnds(edges: seq<(u32, u32)>, n: nat)
    requires Endpoints(edges, n)
    ensures SourcesBelow(edges, 0) == 0 && SourcesBelow(edges, n) == |edges|
  {
    if edges != [] {
      var front := edges[..|edges| - 1];
      assert forall e :: e in front ==> e in edges;
      SourcesBelowEnds(front, n);
      assert edges[|edges| - 1] in edges;
    }
  }

  lemma {:induction false} SourcesBelowMonotone(edges: seq<(u32, u32)>, u: nat, w: nat)
    requires u <= w
    ensures SourcesBelow(edges, u) <= SourcesBelow(edges, w) <= |edges|
  {
    if edges != [] {
      SourcesBelowMonotone(edges[..|edges| - 1], u, w);
    }
  }

  /** Block u starts after the edges of all smaller sources. */
  ghost predicate Layout(n: nat, edges: seq<(u32, u32)>, offsets: seq<nat>) {
    |offsets| == n + 1 && forall u :: 0 <= u <= n ==> offsets[u] == SourcesBelow(edges, u)
  }

  lemma LayoutFacts(n: nat, edges: seq<(u32, u32)>, offsets: seq<nat>)
    requires Layout(n, edges, offsets) && Endpoints(edges, n)
    ensures offsets[0] == 0 && offsets[n] == |edges|
    ensures forall u :: 0 <= u < n ==> offsets[u + 1] == offsets[u] + |Targets(edges, u)|
    ensures forall i, j :: 0 <= i <= j <= n ==> offsets[i] <= offsets[j]
  {
    SourcesBelowEnds(edges, n);
    forall u: nat | u < n
      ensures offsets[u + 1] == offsets[u] + |Targets(edges, u)|
    {
      SourcesBelowStep(edges, u);
    }
    forall i: nat, j: nat | i <= j <= n
      ensures offsets[i] <= offsets[j]
    {
      SourcesBelowMonotone(edges, i, j);
    }
  }

  /** Slot u + 1 counts the edges out of u among the first k. */
  ghost predicate Counted(n: nat, edges: seq<(u32, u32)>, counts: seq<nat>, k: nat) {
    && k <= |edges| && |counts| == n + 1 && counts[0] == 0
    && forall u: nat {:trigger Targets(edges[..k], u)} :: u < n ==> counts[u + 1] == |Targets(edges[..k], u)| <= k
  }

  lemma CountStep(n: nat, edges: seq<(u32, u32)>, counts: seq<nat>, k: nat)
    requires Counted(n, edges, counts, k) && k < |edges| && Endpoints(edges, n)
    ensures
      var u := edges[k].0;
      u < n && counts[u + 1] <= k && Counted(n, edges, counts[u + 1 := counts[u + 1] + 1], k + 1)
  {
    assert edges[k] in edges;
    var u := edges[k].0;
    assert |Targets(edges[..k], u)| <= k;
    var front := edges[..k + 1];
    forall w: nat | w < n
      ensures |Targets(front, w)| == counts[u + 1 := counts[u + 1] + 1][w + 1] <= k + 1
    {
      TargetsSnoc(edges, k, w);
      assert counts[w + 1] == |Targets(edges[..k], w)|;
    }
  }

  /** Block u begins with `ts`. */
  ghost predicate Filled(offsets: seq<nat>, nbr: seq<nat>, u: nat, ts: seq<nat>) {
    && u + 1 < |offsets| && offsets[u] + |ts| <= offsets[u + 1] <= |nbr|
    && nbr[offsets[u]..offsets[u] + |ts|] == ts
  }

  /** Every block holds the targets among the first k edges, and its cursor points past them. */
  ghost predicate Placed(n: nat, edges: seq<(u32, u32)>, offsets: seq<nat>, nbr: seq<nat>, cursor: seq<nat>, k: nat) {
    && k <= |edges| && |offsets| == n + 1 <= |cursor|
    && forall u: nat {:trigger Targets(edges[..k], u)} :: u < n ==>
      && cursor[u] == offsets[u] + |Targets(edges[..k], u)|
      && Filled(offsets, nbr, u, Targets(edges[..k], u))
  }

  /** Writing a slot outside what a block holds leaves the block as it was. */
  lemma FilledElsewhere(offsets: seq<nat>, nbr: seq<nat>, w: nat, ts: seq<nat>, slot: nat, v: nat)
    requires Filled(offsets, nbr, w, ts) && slot < |nbr|
    requires slot < offsets[w] || offsets[w] + |ts| <= slot
    ensures Filled(offsets, nbr[slot := v], w, ts)
  {
  }

  lemma FilledNext(offsets: seq<nat>, nbr: seq<nat>, u: nat, ts: seq<nat>, v: nat)
    requires Filled(offsets, nbr, u, ts) && offsets[u] + |ts| < offsets[u + 1]
    ensures Filled(offsets, nbr[offsets[u] + |ts| := v], u, ts + [v])
  {
  }

  /** Placing edge k brings block w up to date, whether it is the edge's own block or not. */
  lemma PlaceOne(n: nat, edges: seq<(u32, u32)>, offsets: seq<nat>, nbr: seq<nat>, k: nat, w: nat)
    requires |offsets| == n + 1 && (forall i, j :: 0 <= i <= j <= n ==> offsets[i] <= offsets[j])
    requires k < |edges| && edges[k].0 < n && w < n
    requires Filled(offsets, nbr, edges[k].0, Targets(edges[..k], edges[k].0))
    requires offsets[edges[k].0] + |Targets(edges[..k], edges[k].0)| < offsets[edges[k].0 + 1]
    requires Filled(offsets, nbr, w, Targets(edges[..k], w))
    ensures
      var slot := offsets[edges[k].0] + |Targets(edges[..k], edges[k].0)|;
      Filled(offsets, nbr[slot := edges[k].1], w, Targets(edges[..k + 1], w))
  {
    var (u, v) := edges[k];
    TargetsSnoc(edges, k, w);
    if w == u {
      FilledNext(offsets, nbr, u, Targets(edges[..k], u), v);
    } else {
      assert if w < u then offsets[w + 1] <= offsets[u] else offsets[u + 1] <= offsets[w];
      FilledElsewhere(offsets, nbr, w, Targets(edges[..k], w), offsets[u] + |Targets(edges[..k], u)|, v);
    }
  }

  lemma PlaceStep(n: nat, edges: seq<(u32, u32)>, offsets: seq<nat>, nbr: seq<nat>, cursor: seq<nat>, k: nat)
    requires |offsets| == n + 1 && (forall i, j :: 0 <= i <= j <= n ==> offsets[i] <= offsets[j])
    requires k < |edges| && edges[k].0 < n && Placed(n, edges, offsets, nbr, cursor, k)
    requires offsets[edges[k].0] + |Targets(edges[..k], edges[k].0)| < offsets[edges[k].0 + 1] <= |nbr|
    ensures
      var (u, v) := edges[k];
      && cursor[u] == offsets[u] + |Targets(edges[..k], u)|
      && Placed(n, edges, offsets, nbr[cursor[u] := v], cursor[u := cursor[u] + 1], k + 1)
  {
    var (u, v) := edges[k];
    assert cursor[u] == offsets[u] + |Targets(edges[..k], u)|;
    forall w: nat | w < n
      ensures cursor[u := cursor[u] + 1][w] == offsets[w] + |Targets(edges[..k + 1], w)|
      ensures Filled(offsets, nbr[cursor[u] := v], w, Targets(edges[..k + 1], w))
    {
      TargetsSnoc(edges, k, w);
      assert Filled(offsets, nbr, w, Targets(edges[..k], w));
      PlaceOne(n, edges, offsets, nbr, k, w);
    }
  }

  lemma RoomFor(n: nat, edges: seq<(u32, u32)>, offsets: seq<nat>, k: nat)
    requires Layout(n, edges, offsets) && Endpoints(edges, n) && k < |edges|
    ensures
      var u := edges[k].0;
      u < n && offsets[u] + |Targets(edges[..k], u)| < offsets[u + 1] <= |edges|
  {
    assert edges[k] in edges;
    var u := edges[k].0;
    LayoutFacts(n, edges, offsets);
    TargetsSnoc(edges, k, u);
    TargetsGrow(edges, k + 1, |edges|, u);
    assert edges[..|edges|] == edges;
  }

  lemma {:induction false} TargetsBounded(edges: seq<(u32, u32)>, n: nat, u: nat)
    requires Endpoints(edges, n)
    ensures forall t :: t in Targets(edges, u) ==> t < n
  {
    if edges != [] {
      var front := edges[..|edges| - 1];
      assert forall e :: e in front ==> e in edges;
      TargetsBounded(front, n, u);
      assert edges[|edges| - 1] in edges;
    }
  }

  // ----- The two flat arrays as a graph

  ghost predicate Tiled(offsets: seq<u32>, adj: seq<u32>) {
    && |offsets| > 0 && offsets[0] == 0 && offsets[|offsets| - 1] == |adj|
    && (forall i, j :: 0 <= i <= j < |offsets| ==> offsets[i] <= offsets[j])
    && (forall k :: 0 <= k < |adj| ==> adj[k] < |offsets| - 1)
  }

  ghost function Block(offsets: seq<u32>, adj: seq<u32>, v: nat): (b: seq<nat>)
    requires Tiled(offsets, adj) && v < |offsets| - 1
    ensures |b| == offsets[v + 1] - offsets[v]
    ensures forall k :: 0 <= k < |b| ==> offsets[v] + k < |adj| && b[k] == adj[offsets[v] + k] < |offsets| - 1
  {
    assert offsets[v] <= offsets[v + 1] <= offsets[|offsets| - 1];
    adj[offsets[v]..offsets[v + 1]]
  }

  ghost function Blocks(offsets: seq<u32>, adj: seq<u32>): (g: Graph)
    requires Tiled(offsets, adj)
    ensures |g| == |offsets| - 1 && WellFormed(g)
    ensures forall v :: 0 <= v < |g| ==> g[v] == Block(offsets, adj, v)
  {
    seq(|offsets| - 1, v requires 0 <= v < |offsets| - 1 => Block(offsets, adj, v))
  }

  /** The blocks of a finished counting sort tile the adjacency array and hold the targets in input order. */
  lemma SlotInRange(n: nat, edges: seq<(u32, u32)>, offsets: seq<nat>, nbr: seq<nat>, cursor: seq<nat>, k: nat)
    requires Layout(n, edges, offsets) && Endpoints(edges, n) && k < |nbr| == |edges|
    requires Placed(n, edges, offsets, nbr, cursor, |edges|)
    ensures nbr[k] < n
  {
    LayoutFacts(n, edges, offsets);
    var u := Owner(offsets, n, k);
    SortedBlock(n, edges, offsets, nbr, cursor, u);
    TargetsBounded(edges, n, u);
    var ts := Targets(edges, u);
    assert nbr[k] == nbr[offsets[u]..offsets[u + 1]][k - offsets[u]];
    assert ts[k - offsets[u]] in ts;
  }

  lemma SortedBlocks(n: nat, edges: seq<(u32, u32)>, offsets: seq<u32>, nbr: seq<u32>, cursor: seq<nat>)
    requires Layout(n, edges, offsets) && Endpoints(edges, n) && |nbr| == |edges|
    requires Placed(n, edges, offsets, nbr, cursor, |edges|)
    ensures Tiled(offsets, nbr)
    ensures forall u :: 0 <= u < n ==> Blocks(offsets, nbr)[u] == Targets(edges, u)
  {
    LayoutFacts(n, edges, offsets);
    forall k | 0 <= k < |nbr|
      ensures nbr[k] < n
    {
      SlotInRange(n, edges, offsets, nbr, cursor, k);
    }
    assert Tiled(offsets, nbr);
    forall u: nat | u < n
      ensures Block(offsets, nbr, u) == Targets(edges, u)
    {
      SortedBlock(n, edges, offsets, nbr, cursor, u);
    }
  }

  lemma SortedBlock(n: nat, edges: seq<(u32, u32)>, offsets: seq<nat>, nbr: seq<nat>, cursor: seq<nat>, u: nat)
    requires Layout(n, edges, offsets) && Endpoints(edges, n) && |nbr| == |edges|
    requires Placed(n, edges, offsets, nbr, cursor, |edges|) && u < n
    ensures offsets[u] <= offsets[u + 1] <= |nbr| && nbr[offsets[u]..offsets[u + 1]] == Targets(edges, u)
  {
    LayoutFacts(n, edges, offsets);
    assert edges[..|edges|] == edges;
    assert Filled(offsets, nbr, u, Targets(edges[..|edges|], u));
  }

  /** Every slot lies in the block of some node. */
  lemma {:induction false} Owner(offsets: seq<nat>, n: nat, k: nat) returns (u: nat)
    requires n < |offsets| && offsets[0] == 0 && k < offsets[n]
    ensures u < n && offsets[u] <= k < offsets[u + 1]
  {
    if k < offsets[n - 1] {
      u := Owner(offsets, n - 1, k);
    } else {
      u := n - 1;
    }
  }

  // ----- Building the arrays

  method CountSources(n: nat, edges: seq<(u32, u32)>, off: array<u32>)
    requires off.Length == n + 1 && |edges| <= U32_MAX && Endpoints(edges, n)
    requires forall i :: 0 <= i <= n ==> off[i] == 0
    modifies off
    ensures Counted(n, edges, off[..], |edges|)
  {
    for k := 0 to |edges|
      invariant Counted(n, edges, off[..], k)
    {
      CountStep(n, edges, off[..], k);
      var u := edges[k].0;
      off[u + 1] := off[u + 1] + 1;
    }
  }

  method PrefixSums(n: nat, edges: seq<(u32, u32)>, off: array<u32>)
    requires off.Length == n + 1 && |edges| <= U32_MAX && Endpoints(edges, n)
    requires Counted(n, edges, off[..], |edges|)
    modifies off
    ensures Layout(n, edges, off[..])
  {
    SourcesBelowEnds(edges, n);
    assert edges[..|edges|] == edges;
    assert forall u: nat :: u < n ==> off[u + 1] == off[..][u + 1] == |Targets(edges[..|edges|], u)|;
    for i := 0 to n
      invariant forall u :: 0 <= u <= i ==> off[u] == SourcesBelow(edges, u)
      invariant forall u :: i <= u < n ==> off[u + 1] == |Targets(edges, u)|
    {
      SourcesBelowStep(edges, i);
      SourcesBelowMonotone(edges, i + 1, n);
      off[i + 1] := off[i + 1] + off[i];
    }
  }

  /** Put the target of one edge into the next slot of its source. */
  method PlaceEdge(n: nat, edges: seq<(u32, u32)>, k: nat, ghost offsets: seq<nat>, nbr: array<u32>, cursor: array<u32>)
    requires cursor.Length == n + 1 && nbr.Length == |edges| <= U32_MAX && cursor != nbr && k < |edges|
    requires Endpoints(edges, n) && Layout(n, edges, offsets) && Placed(n, edges, offsets, nbr[..], cursor[..], k)
    modifies nbr, cursor
    ensures Placed(n, edges, offsets, nbr[..], cursor[..], k + 1)
  {
    LayoutFacts(n, edges, offsets);
    RoomFor(n, edges, offsets, k);
    PlaceStep(n, edges, offsets, nbr[..], cursor[..], k);
    var u, v := edges[k].0, edges[k].1;
    var slot := cursor[u];
    nbr[slot] := v;
    cursor[u] := slot + 1;
  }

  method Distribute(n: nat, edges: seq<(u32, u32)>, off: array<u32>, nbr: array<u32>) returns (ghost cursors: seq<nat>)
    requires off.Length == n + 1 && nbr.Length == |edges| <= U32_MAX && off != nbr
    requires Endpoints(edges, n) && Layout(n, edges, off[..])
    modifies nbr
    ensures Placed(n, edges, off[..], nbr[..], cursors, |edges|)
  {
    ghost var offsets := off[..];
    LayoutFacts(n, edges, offsets);
    var cursor := new u32[n + 1](i requires 0 <= i < off.Length reads off => off[i]);
    assert cursor[..] == offsets;
    for k := 0 to |edges|
      invariant off[..] == offsets
      invariant Placed(n, edges, offsets, nbr[..], cursor[..], k)
    {
      PlaceEdge(n, edges, k, offsets, nbr, cursor);
    }
    cursors := cursor[..];
  }

  /** A graph in two flat vectors, which nothing changes once they are built. */
  datatype CsrGraph = CsrGraph(offsets: seq<u32>, adj: seq<u32>) {

    ghost predicate Valid() {
      Tiled(offsets, adj) && |offsets| - 1 < U32_MAX
    }

    ghost function Graph(): Graph
      requires Valid()
    {
      Blocks(offsets, adj)
    }

    function NumNodes(): nat
      requires |offsets| > 0
    {
      |offsets| - 1
    }

    /** The out-neighbours of a node. */
    function Neighbors(v: u32): (ns: seq<u32>)
      requires Valid() && v < NumNodes()
      ensures ns == Graph()[v]
    {
      assert offsets[v] <= offsets[v + 1] <= offsets[NumNodes()];
      adj[offsets[v]..offsets[v + 1]]
    }

    /** A stable counting sort of the edges by source. */
    static method FromEdges(numNodes: nat, edges: seq<(u32, u32)>) returns (c: CsrGraph)
      requires numNodes < U32_MAX && |edges| <= U32_MAX && Endpoints(edges, numNodes)
      ensures c.Valid() && c.NumNodes() == numNodes
      ensures forall u: nat :: u < numNodes ==> c.Graph()[u] == Targets(edges, u)
    {
      var off := new u32[numNodes + 1](_ => 0);
      var nbr := new u32[|edges|](_ => 0);
      CountSources(numNodes, edges, off);
      PrefixSums(numNodes, edges, off);
      ghost var cursor := Distribute(numNodes, edges, off, nbr);
      SortedBlocks(numNodes, edges, off[..], nbr[..], cursor);
      c := CsrGraph(off[..], nbr[..]);
    }
  }

  // ----- The search vectors of `nodes_in_cycles`

  /** The work stack as the source keeps it: each path node with a cursor past the edges done. */
  ghost predicate Cursors(off: seq<u32>, work: seq<(u32, u32)>, path: seq<nat>, done: seq<nat>) {
    && |work| == |path| && |done| == |off| - 1
    && forall i :: 0 <= i < |work| ==> work[i].0 == path[i] < |done| && work[i].1 == off[work[i].0] + done[work[i].0]
  }

  ghost predicate Frames(off: seq<u32>, work: seq<(u32, u32)>, s: T.State) {
    Cursors(off, work, s.work, s.done)
  }

  /** The vectors hold the state `s`. */
  ghost predicate Holds(idx: array<u32>, low: array<u32>, on: array<bool>, scc: seq<u32>, next: u32, s: T.State)
    reads idx, low, on
  {
    && idx[..] == s.idx && low[..] == s.low && on[..] == s.on
    && scc == s.stack && next == |s.order|
  }

  /** The top cursor stands within its node's block exactly while edges are left, and on the next edge's head. */
  lemma TopEdge(c: CsrGraph, work: seq<(u32, u32)>, path: seq<nat>, done: seq<nat>)
    requires c.Valid() && Cursors(c.offsets, work, path, done) && work != []
    requires done[work[|work| - 1].0] <= |c.Graph()[work[|work| - 1].0]|
    ensures
      var (v, cursor) := work[|work| - 1];
      && v < c.NumNodes() && (cursor < c.offsets[v + 1] <==> done[v] < |c.Graph()[v]|)
      && (cursor < c.offsets[v + 1] ==>
        cursor < |c.adj| && c.Graph()[v][done[v]] == c.adj[cursor] < c.NumNodes())
  {
    var v := work[|work| - 1].0;
    assert c.Graph()[v] == Block(c.offsets, c.adj, v);
  }

  lemma MovedCursor(off: seq<u32>, work: seq<(u32, u32)>, path: seq<nat>, done: seq<nat>)
    requires Cursors(off, work, path, done) && work != [] && work[|work| - 1].1 < U32_MAX
    requires forall j, k :: 0 <= j < k < |path| ==> path[j] != path[k]
    ensures
      var (v, cursor) := work[|work| - 1];
      Cursors(off, work[|work| - 1 := (v, cursor + 1)], path, done[v := done[v] + 1])
  {
  }

  lemma PushedCursor(off: seq<u32>, work: seq<(u32, u32)>, path: seq<nat>, done: seq<nat>, w: u32)
    requires Cursors(off, work, path, done) && w + 1 < |off| && done[w] == 0
    ensures Cursors(off, work + [(w, off[w])], path + [w], done)
  {
  }

  lemma PoppedCursor(off: seq<u32>, work: seq<(u32, u32)>, path: seq<nat>, done: seq<nat>)
    requires Cursors(off, work, path, done) && work != []
    ensures Cursors(off, work[..|work| - 1], path[..|path| - 1], done)
  {
  }

  /** Number w and put it on the component stack. */
  method Discover(w: u32, idx: array<u32>, low: array<u32>, on: array<bool>,
                  scc: seq<u32>, next: u32, ghost s: T.State) returns (scc': seq<u32>, next': u32)
    requires Holds(idx, low, on, scc, next, s) && next < U32_MAX
    requires idx != low && w < idx.Length == low.Length == on.Length == |s.pos|
    modifies idx, low, on
    ensures Holds(idx, low, on, scc', next', T.Visit(s, w))
  {
    idx[w] := next;
    low[w] := next;
    next' := next + 1;
    scc' := scc + [w];
    on[w] := true;
  }

  /** Follow the edge v -> w taken off the top node. */
  method Follow(v: u32, w: u32, idx: array<u32>, low: array<u32>, on: array<bool>,
                scc: seq<u32>, next: u32, ghost g: Graph, ghost s: T.State) returns (scc': seq<u32>, next': u32)
    requires Holds(idx, low, on, scc, next, s) && idx != low
    requires T.Ranged(g, s) && s.work != [] && v == s.work[|s.work| - 1]
    requires s.done[v] < |g[v]| && w == g[v][s.done[v]] < |g|
    requires next < |g| || idx[w] != T.UNVISITED
    modifies idx, low, on
    ensures Holds(idx, low, on, scc', next', T.ScanTop(g, s))
  {
    if idx[w] == T.UNVISITED {
      scc', next' := Discover(w, idx, low, on, scc, next, s);
    } else {
      scc', next' := scc, next;
      if on[w] {
        var lv := T.Min(low[v], idx[w]);
        low[v] := lv;
      }
    }
  }

  /** Pop the component of root v off the component stack, marking it when it has several members. */
  method PopComponent(v: u32, on: array<bool>, inCycle: array<bool>, scc: seq<u32>,
                      ghost n: nat, ghost idx: seq<nat>, ghost pos: seq<nat>) returns (scc': seq<u32>)
    requires on != inCycle && on.Length == inCycle.Length == n && v < n && on[v]
    requires T.Stacked(n, idx, on[..], pos, scc)
    modifies on, inCycle
    ensures scc' == scc[..pos[v]] && on[..] == T.CutOn(idx, old(on[..]), idx[v])
    ensures forall x :: 0 <= x < n ==>
      (inCycle[x] <==> old(inCycle[x]) || (scc[|scc| - 1] != v && old(on[x]) && idx[v] <= idx[x]))
  {
    ghost var on0, m := on[..], |scc|;
    assert scc[pos[v]] == v;
    scc' := scc;
    if scc[|scc| - 1] == v {
      scc' := scc[..|scc| - 1];
      on[v] := false;
    } else {
      while true
        invariant pos[v] < |scc'| <= |scc| && scc' == scc[..|scc'|]
        invariant forall x :: 0 <= x < n ==> (on[x] <==> on0[x] && pos[x] < |scc'|)
        invariant forall x :: 0 <= x < n ==> (inCycle[x] <==> old(inCycle[x]) || (on0[x] && pos[x] >= |scc'|))
        decreases |scc'|
      {
        var w := scc'[|scc'| - 1];
        assert w == scc[|scc'| - 1];
        scc' := scc'[..|scc'| - 1];
        on[w] := false;
        inCycle[w] := true;
        if w == v {
          break;
        }
      }
    }
    forall x | 0 <= x < n && on0[x]
      ensures pos[x] < pos[v] <==> idx[x] < idx[v]
    {
      assert scc[pos[x]] == x;
    }
  }

  /** If the fully scanned top node v is a root, pop its component. */
  method PopIfRoot(v: u32, idx: array<u32>, low: array<u32>, on: array<bool>, inCycle: array<bool>,
                   scc: seq<u32>, next: u32, ghost g: Graph, ghost s: T.State) returns (scc': seq<u32>)
    requires Holds(idx, low, on, scc, next, s) && on != inCycle
    requires T.Ranged(g, s) && s.work != [] && v == s.work[|s.work| - 1] && inCycle.Length == |g|
    requires s.done[v] == |g[v]| && T.Stacked(|g|, s.idx, s.on, s.pos, s.stack)
    modifies on, inCycle
    ensures Holds(idx, low, on, scc', next, if s.low[v] == s.idx[v] then T.PopComponent(s, v) else s)
    ensures T.Marks(g, s, old(inCycle[..]), inCycle[..])
  {
    scc' := scc;
    assert scc[s.pos[v]] == v;
    if low[v] == idx[v] {
      scc' := PopComponent(v, on, inCycle, scc, |g|, s.idx, s.pos);
    }
  }

  /** Hand the low number of v on to its parent. */
  method PassLow(v: u32, parent: u32, low: array<u32>)
    requires v < low.Length && parent < low.Length
    modifies low
    ensures low[..] == old(low[..])[parent := T.Min(old(low[parent]), old(low[v]))]
  {
    var lp := T.Min(low[parent], low[v]);
    low[parent] := lp;
  }

  /** Where leaving the top node takes the vectors. */
  lemma LeaveParts(g: Graph, s: T.State)
    requires T.Ranged(g, s) && s.work != []
    ensures
      var v, t := s.work[|s.work| - 1], T.LeaveTop(g, s);
      var popped := if s.low[v] == s.idx[v] then T.PopComponent(s, v) else s;
      && t.idx == s.idx && t.on == popped.on && t.stack == popped.stack && t.order == s.order
      && (|s.work| <= 1 ==> t.low == s.low)
      && (|s.work| > 1 ==> var p := s.work[|s.work| - 2]; t.low == s.low[p := T.Min(s.low[p], s.low[v])])
  {
  }

  /** Leave the fully scanned top node v, whose parent on the path, if any, is `parent`. */
  method Leave(v: u32, hasParent: bool, parent: u32, idx: array<u32>, low: array<u32>, on: array<bool>,
               inCycle: array<bool>, scc: seq<u32>, next: u32, ghost g: Graph, ghost s: T.State)
    returns (scc': seq<u32>)
    requires Holds(idx, low, on, scc, next, s) && idx != low && on != inCycle
    requires T.Ranged(g, s) && s.work != [] && v == s.work[|s.work| - 1] && inCycle.Length == |g|
    requires hasParent == (|s.work| > 1) && (hasParent ==> parent == s.work[|s.work| - 2])
    requires s.done[v] == |g[v]| && T.Stacked(|g|, s.idx, s.on, s.pos, s.stack)
    modifies low, on, inCycle
    ensures Holds(idx, low, on, scc', next, T.LeaveTop(g, s))
    ensures T.Marks(g, s, old(inCycle[..]), inCycle[..])
  {
    LeaveParts(g, s);
    scc' := PopIfRoot(v, idx, low, on, inCycle, scc, next, g, s);
    if hasParent {
      PassLow(v, parent, low);
    }
  }

  /** The invariant of the search loop, over the vectors and the state they hold. */
  ghost predicate Sound(c: CsrGraph, r: Closure, s: T.State, work: seq<(u32, u32)>, inCycle: seq<bool>) {
    && c.Valid() && IsClosure(c.Graph(), r) && T.Inv(c.Graph(), r, s) && T.Ranged(c.Graph(), s)
    && Frames(c.offsets, work, s) && T.Answers(c.Graph(), s.idx, s.on, inCycle)
  }

  /** The state after a turn is sound again. */
  lemma TurnSound(c: CsrGraph, r: Closure, s: T.State, work: seq<(u32, u32)>, work': seq<(u32, u32)>,
                  inCycle: seq<bool>, inCycle': seq<bool>)
    requires Sound(c, r, s, work, inCycle) && s.work != []
    requires T.Marks(c.Graph(), s, inCycle, inCycle') && Frames(c.offsets, work', T.Turn(c.Graph(), s))
    ensures Sound(c, r, T.Turn(c.Graph(), s), work', inCycle')
  {
    T.TurnInv(c.Graph(), r, s);
    T.TurnAnswers(c.Graph(), r, s, inCycle, inCycle');
  }

  /** What one turn relies on: indices in range, and room for every node still to be visited. */
  ghost predicate Ready(g: Graph, s: T.State) {
    && T.Ranged(g, s) && T.Stacked(|g|, s.idx, s.on, s.pos, s.stack)
    && forall w :: 0 <= w < |g| && s.idx[w] == T.UNVISITED ==> s.done[w] == 0 && |s.order| < |g|
  }

  lemma SoundIsReady(g: Graph, r: Closure, s: T.State)
    requires T.Inv(g, r, s) && T.Ranged(g, s)
    ensures Ready(g, s)
  {
    forall w | 0 <= w < |g| && s.idx[w] == T.UNVISITED
      ensures |s.order| < |g|
    {
      T.IndexFits(|g|, s.idx, s.order, w);
    }
  }

  /** Where the work stack goes when the top node's edge to w is taken. */
  lemma FollowCursors(off: seq<u32>, work: seq<(u32, u32)>, path: seq<nat>, done: seq<nat>, w: u32)
    requires Cursors(off, work, path, done) && work != [] && work[|work| - 1].1 < U32_MAX
    requires forall j, k :: 0 <= j < k < |path| ==> path[j] != path[k]
    ensures
      var (v, cursor) := work[|work| - 1];
      var work', done' := work[|work| - 1 := (v, cursor + 1)], done[v := done[v] + 1];
      && Cursors(off, work', path, done')
      && (w + 1 < |off| && w != v && done[w] == 0 ==> Cursors(off, work' + [(w, off[w])], path + [w], done'))
  {
    var (v, cursor) := work[|work| - 1];
    MovedCursor(off, work, path, done);
    if w + 1 < |off| && w != v && done[w] == 0 {
      PushedCursor(off, work[|work| - 1 := (v, cursor + 1)], path, done[v := done[v] + 1], w);
    }
  }

  /** The work stack with the top cursor moved on, and the head of the edge on top if it is new. */
  function NextWork(off: seq<u32>, work: seq<(u32, u32)>, w: u32, isNew: bool): seq<(u32, u32)>
    requires work != [] && work[|work| - 1].1 < U32_MAX && w < |off|
  {
    var (v, cursor) := work[|work| - 1];
    var moved := work[|work| - 1 := (v, cursor + 1)];
    if isNew then moved + [(w, off[w])] else moved
  }

  /** Where taking an edge takes the work stack. */
  lemma ScanFrames(off: seq<u32>, work: seq<(u32, u32)>, g: Graph, s: T.State, w: u32)
    requires Ready(g, s) && Frames(off, work, s) && work != [] && |off| == |g| + 1 && work[|work| - 1].1 < U32_MAX
    requires s.done[work[|work| - 1].0] < |g[work[|work| - 1].0]|
             && w == g[work[|work| - 1].0][s.done[work[|work| - 1].0]] < |g|
    ensures Frames(off, NextWork(off, work, w, s.idx[w] == T.UNVISITED), T.ScanTop(g, s))
  {
    FollowCursors(off, work, s.work, s.done, w);
  }

  /** A turn that takes the next edge off the top node. */
  method TakeEdge(c: CsrGraph, idx: array<u32>, low: array<u32>, on: array<bool>,
                  scc: seq<u32>, work: seq<(u32, u32)>, next: u32, ghost g: Graph, ghost s: T.State)
    returns (scc': seq<u32>, work': seq<(u32, u32)>, next': u32)
    requires Holds(idx, low, on, scc, next, s) && idx != low
    requires Ready(g, s) && Frames(c.offsets, work, s) && work != [] && |c.offsets| == |g| + 1
    requires s.done[work[|work| - 1].0] < |g[work[|work| - 1].0]|
    requires work[|work| - 1].1 < |c.adj| <= U32_MAX
    requires g[work[|work| - 1].0][s.done[work[|work| - 1].0]] == c.adj[work[|work| - 1].1] < |g|
    modifies idx, low, on
    ensures Holds(idx, low, on, scc', next', T.ScanTop(g, s))
    ensures Frames(c.offsets, work', T.ScanTop(g, s))
  {
    var (v, cursor) := work[|work| - 1];
    var w := c.adj[cursor];
    ScanFrames(c.offsets, work, g, s, w);
    work' := NextWork(c.offsets, work, w, idx[w] == T.UNVISITED);
    assert idx[w] == T.UNVISITED ==> next < |g|;
    scc', next' := Follow(v, w, idx, low, on, scc, next, g, s);
  }

  /** A turn that leaves the fully scanned top node. */
  method Backtrack(c: CsrGraph, idx: array<u32>, low: array<u32>, on: array<bool>, inCycle: array<bool>,
                   scc: seq<u32>, work: seq<(u32, u32)>, next: u32, ghost g: Graph, ghost s: T.State)
    returns (scc': seq<u32>, work': seq<(u32, u32)>)
    requires Holds(idx, low, on, scc, next, s) && idx != low && on != inCycle
    requires Ready(g, s) && Frames(c.offsets, work, s) && work != [] && inCycle.Length == |g|
    requires s.done[work[|work| - 1].0] == |g[work[|work| - 1].0]|
    modifies low, on, inCycle
    ensures Holds(idx, low, on, scc', next, T.Turn(g, s)) && Frames(c.offsets, work', T.Turn(g, s))
    ensures T.Marks(g, s, old(inCycle[..]), inCycle[..])
  {
    var v := work[|work| - 1].0;
    PoppedCursor(c.offsets, work, s.work, s.done);
    work' := work[..|work| - 1];
    var parent := if work' == [] then v else work'[|work'| - 1].0;
    scc' := Leave(v, work' != [], parent, idx, low, on, inCycle, scc, next, g, s);
  }

  /** While edges are left a turn takes one, and marks nothing. */
  lemma ScanTurn(g: Graph, s: T.State, inCycle: seq<bool>)
    requires T.Ranged(g, s) && s.work != [] && |inCycle| == |g|
    requires s.done[s.work[|s.work| - 1]] < |g[s.work[|s.work| - 1]]|
    ensures T.Turn(g, s) == T.ScanTop(g, s) && T.Marks(g, s, inCycle, inCycle)
  {
  }

  /** One turn of the search loop. */
  method Turn(c: CsrGraph, idx: array<u32>, low: array<u32>, on: array<bool>, inCycle: array<bool>,
              scc: seq<u32>, work: seq<(u32, u32)>, next: u32, ghost s: T.State)
    returns (scc': seq<u32>, work': seq<(u32, u32)>, next': u32)
    requires Holds(idx, low, on, scc, next, s) && idx != low && on != inCycle
    requires c.Valid() && Ready(c.Graph(), s) && Frames(c.offsets, work, s)
    requires work != [] && inCycle.Length == c.NumNodes()
    modifies idx, low, on, inCycle
    ensures Holds(idx, low, on, scc', next', T.Turn(c.Graph(), s)) && Frames(c.offsets, work', T.Turn(c.Graph(), s))
    ensures T.Marks(c.Graph(), s, old(inCycle[..]), inCycle[..])
  {
    var (v, cursor) := work[|work| - 1];
    TopEdge(c, work, s.work, s.done);
    if cursor < c.offsets[v + 1] {
      ScanTurn(c.Graph(), s, inCycle[..]);
      scc', work', next' := TakeEdge(c, idx, low, on, scc, work, next, c.Graph(), s);
    } else {
      scc', work' := Backtrack(c, idx, low, on, inCycle, scc, work, next, c.Graph(), s);
      next' := next;
    }
  }

  /** The three measures of the search: nodes to be visited, the length of the path, edges left at its top. */
  ghost predicate Advances(g: Graph, s: T.State, t: T.State)
    requires T.Ranged(g, s) && T.Ranged(g, t)
  {
    || |t.order| > |s.order|
    || (|t.order| == |s.order| && |t.work| < |s.work|)
    || (|t.order| == |s.order| && |t.work| == |s.work| && T.Left(g, t) < T.Left(g, s))
  }

  /** A turn keeps the invariant and comes closer to the end. */
  method SoundTurn(c: CsrGraph, idx: array<u32>, low: array<u32>, on: array<bool>, inCycle: array<bool>,
                   scc: seq<u32>, work: seq<(u32, u32)>, next: u32, ghost r: Closure, ghost s: T.State)
    returns (scc': seq<u32>, work': seq<(u32, u32)>, next': u32, ghost t: T.State)
    requires Holds(idx, low, on, scc, next, s) && idx != low && on != inCycle
    requires Sound(c, r, s, work, inCycle[..]) && work != []
    modifies idx, low, on, inCycle
    ensures Holds(idx, low, on, scc', next', t) && Sound(c, r, t, work', inCycle[..])
    ensures Visits(s, t) && Advances(c.Graph(), s, t)
  {
    ghost var was := inCycle[..];
    SoundIsReady(c.Graph(), r, s);
    scc', work', next' := Turn(c, idx, low, on, inCycle, scc, work, next, s);
    TurnSound(c, r, s, work, work', was, inCycle[..]);
    T.TurnAdvances(c.Graph(), s);
    t := T.Turn(c.Graph(), s);
  }

  /** Turns until the path is empty again. */
  method Search(c: CsrGraph, start: u32, idx: array<u32>, low: array<u32>, on: array<bool>, inCycle: array<bool>,
                scc: seq<u32>, next: u32, ghost r: Closure, ghost s: T.State)
    returns (scc': seq<u32>, next': u32, ghost t: T.State)
    requires Holds(idx, low, on, scc, next, s) && idx != low && on != inCycle
    requires c.Valid() && start < c.NumNodes() && Sound(c, r, s, [(start, c.offsets[start])], inCycle[..])
    modifies idx, low, on, inCycle
    ensures Holds(idx, low, on, scc', next', t) && Sound(c, r, t, [], inCycle[..]) && Visits(s, t)
  {
    var work: seq<(u32, u32)> := [(start, c.offsets[start])];
    scc', next', t := scc, next, s;
    while work != []
      invariant Holds(idx, low, on, scc', next', t) && Sound(c, r, t, work, inCycle[..]) && Visits(s, t)
      decreases |c.Graph()| - |t.order|, |t.work|, T.Left(c.Graph(), t)
    {
      ghost var before := t;
      scc', work, next', t := SoundTurn(c, idx, low, on, inCycle, scc', work, next', r, t);
      VisitsOn(s, before, t);
    }
  }

  /** Search from `start` unless it was visited already. */
  method SearchFrom(c: CsrGraph, start: u32, idx: array<u32>, low: array<u32>, on: array<bool>, inCycle: array<bool>,
                    scc: seq<u32>, next: u32, ghost r: Closure, ghost s: T.State)
    returns (scc': seq<u32>, next': u32, ghost t: T.State)
    requires Holds(idx, low, on, scc, next, s) && idx != low && on != inCycle
    requires Sound(c, r, s, [], inCycle[..]) && start < c.NumNodes()
    modifies idx, low, on, inCycle
    ensures Holds(idx, low, on, scc', next', t) && Sound(c, r, t, [], inCycle[..])
    ensures Visits(s, t) && t.idx[start] != T.UNVISITED
  {
    if idx[start] != T.UNVISITED {
      return scc, next, s;
    }
    StartSound(c, r, s, start, inCycle[..]);
    scc', next' := Discover(start, idx, low, on, scc, next, s);
    scc', next', t := Search(c, start, idx, low, on, inCycle, scc', next', r, T.Visit(s, start));
    VisitsOn(s, T.Visit(s, start), t);
  }

  lemma VisitsOn(s: T.State, t: T.State, u: T.State)
    requires Visits(s, t) && Visits(t, u)
    ensures Visits(s, u)
  {
  }

  /** No visited node is forgotten. */
  ghost predicate Visits(s: T.State, t: T.State) {
    |s.idx| == |t.idx| && forall v :: 0 <= v < |s.idx| && s.idx[v] != T.UNVISITED ==> t.idx[v] != T.UNVISITED
  }

  lemma StartSound(c: CsrGraph, r: Closure, s: T.State, start: u32, inCycle: seq<bool>)
    requires Sound(c, r, s, [], inCycle) && start < c.NumNodes() && s.idx[start] == T.UNVISITED
    ensures |s.order| < c.NumNodes() && Visits(s, T.Visit(s, start)) && T.Visit(s, start).idx[start] != T.UNVISITED
    ensures Sound(c, r, T.Visit(s, start), [(start, c.offsets[start])], inCycle)
  {
    T.VisitStep(c.Graph(), r, s, start);
    T.InvRanged(c.Graph(), r, T.Visit(s, start));
  }

  // ----- The three results

  /** A self-loop is a cycle that the component search does not see. */
  method SelfLoops(c: CsrGraph) returns (inCycle: array<bool>)
    requires c.Valid()
    ensures fresh(inCycle) && inCycle.Length == c.NumNodes()
    ensures forall u: nat :: u < c.NumNodes() ==> (inCycle[u] <==> Edge(c.Graph(), u, u))
  {
    inCycle := new bool[c.NumNodes()](_ => false);
    for v := 0 to c.NumNodes()
      invariant forall u: nat :: u < c.NumNodes() ==> (inCycle[u] <==> u < v && Edge(c.Graph(), u, u))
    {
      if v in c.Neighbors(v) {
        inCycle[v] := true;
      }
    }
  }

  ghost predicate VisitedBelow(start: nat, idx: seq<nat>) {
    forall v :: 0 <= v < start && v < |idx| ==> idx[v] != T.UNVISITED
  }

  lemma VisitedNext(start: nat, s: T.State, t: T.State)
    requires VisitedBelow(start, s.idx) && Visits(s, t) && start < |t.idx| && t.idx[start] != T.UNVISITED
    ensures VisitedBelow(start + 1, t.idx)
  {
  }

  /** Search from every node not visited yet. */
  method SearchEach(c: CsrGraph, idx: array<u32>, low: array<u32>, on: array<bool>, inCycle: array<bool>,
                    ghost r: Closure)
    returns (ghost s: T.State)
    requires idx != low && on != inCycle
    requires c.Valid() && Holds(idx, low, on, [], 0, T.Initial(c.NumNodes()))
    requires Sound(c, r, T.Initial(c.NumNodes()), [], inCycle[..])
    modifies idx, low, on, inCycle
    ensures Sound(c, r, s, [], inCycle[..]) && VisitedBelow(c.NumNodes(), s.idx)
  {
    var scc: seq<u32>, next: u32 := [], 0;
    s := T.Initial(c.NumNodes());
    for start := 0 to c.NumNodes()
      invariant Holds(idx, low, on, scc, next, s) && Sound(c, r, s, [], inCycle[..]) && VisitedBelow(start, s.idx)
    {
      ghost var before := s;
      scc, next, s := SearchFrom(c, start, idx, low, on, inCycle, scc, next, r, s);
      VisitedNext(start, before, s);
    }
  }

  /** Whether each node lies on a cycle. */
  method NodesInCycles(c: CsrGraph) returns (result: seq<bool>)
    requires c.Valid()
    ensures |result| == c.NumNodes()
    ensures forall v: nat :: v < c.NumNodes() ==> (result[v] <==> OnCycle(c.Graph(), v))
  {
    var inCycle := SelfLoops(c);
    var idx := new u32[c.NumNodes()](_ => T.UNVISITED);
    var low := new u32[c.NumNodes()](_ => 0);
    var on := new bool[c.NumNodes()](_ => false);
    ghost var r := ClosureOf(c.Graph());
    InitialSound(c, r, inCycle[..]);
    ghost var s := SearchEach(c, idx, low, on, inCycle, r);
    FinalAnswers(c, r, s, inCycle[..]);
    result := inCycle[..];
  }

  lemma FinalAnswers(c: CsrGraph, r: Closure, s: T.State, inCycle: seq<bool>)
    requires Sound(c, r, s, [], inCycle) && forall v :: 0 <= v < c.NumNodes() ==> s.idx[v] != T.UNVISITED
    ensures forall v: nat :: v < c.NumNodes() ==> (inCycle[v] <==> OnCycle(c.Graph(), v))
  {
    T.DryPath(c.Graph(), r, s);
  }

  lemma InitialSound(c: CsrGraph, r: Closure, inCycle: seq<bool>)
    requires c.Valid() && IsClosure(c.Graph(), r) && |inCycle| == c.NumNodes()
    requires forall v: nat :: v < c.NumNodes() ==> (inCycle[v] <==> Edge(c.Graph(), v, v))
    ensures Sound(c, r, T.Initial(c.NumNodes()), [], inCycle)
  {
    T.InitialInv(c.Graph(), r);
    T.InvRanged(c.Graph(), r, T.Initial(c.NumNodes()));
  }
}
