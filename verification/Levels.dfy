/**
 The depth-first leveling of `CsrGraph::dependency_levels` as a transition system
 over values, and what the finished level numbers mean.
 */
module Levels {
  import opened Digraph

  const UNLEVELED: nat := 0xFFFF_FFFF

  // ----- The graph of unsettled nodes

  function Keep(succ: seq<nat>, settled: seq<bool>): (kept: seq<nat>)
    ensures forall w :: w in kept <==> w in succ && w < |settled| && !settled[w]
  {
    if succ == [] then []
    else
      var rest := Keep(succ[..|succ| - 1], settled);
      var w := succ[|succ| - 1];
      if w < |settled| && !settled[w] then rest + [w] else rest
  }

  /** The edges between unsettled nodes. */
  ghost function Unsettled(g: Graph, settled: seq<bool>): (u: Graph)
    requires WellFormed(g) && |settled| == |g|
    ensures |u| == |g| && WellFormed(u)
    ensures forall v: nat, w: nat :: Edge(u, v, w) <==> Edge(g, v, w) && !settled[v] && !settled[w]
  {
    var u := seq(|g|, (v: int) requires 0 <= v < |g| => if settled[v] then [] else Keep(g[v], settled));
    assert forall v, i :: 0 <= v < |u| && 0 <= i < |u[v]| ==> u[v][i] in u[v];
    u
  }

  // ----- The level of a node from the levels of its successors

  /** One past the deepest leveled unsettled successor, or zero. */
  function LevelAfter(succ: seq<nat>, settled: seq<bool>, level: seq<nat>): (l: nat)
    requires |settled| == |level|
    ensures forall w :: w in succ && w < |level| && !settled[w] && level[w] != UNLEVELED ==> level[w] < l
    ensures l == 0 || exists w :: w in succ && w < |level| && !settled[w] && level[w] != UNLEVELED && level[w] == l - 1
  {
    if succ == [] then 0
    else
      var rest := LevelAfter(succ[..|succ| - 1], settled, level);
      var w := succ[|succ| - 1];
      if w < |level| && !settled[w] && level[w] != UNLEVELED && rest <= level[w] then level[w] + 1 else rest
  }

  // ----- The state of the search

  /**
   `level` and `expanding` are the source's vectors, `work` the depth-first path
   and `at` where a node lies on it, `done` the out-edges scanned per node, and
   `finished` the nodes in the order they were leveled, `rank` its inverse.
   */
  datatype State = State(
    level: seq<nat>, expanding: seq<bool>, work: seq<nat>, at: seq<nat>, done: seq<nat>,
    finished: seq<nat>, rank: seq<nat>)

  ghost predicate Sized(n: nat, s: State) {
    n < UNLEVELED && |s.level| == |s.expanding| == |s.at| == |s.done| == |s.rank| == n
  }

  /** The path holds exactly the nodes being expanded, none of them settled or leveled. */
  ghost predicate OnPath(n: nat, settled: seq<bool>, level: seq<nat>, expanding: seq<bool>, work: seq<nat>,
                         at: seq<nat>)
  {
    && |settled| == |level| == |expanding| == |at| == n
    && (forall i :: 0 <= i < |work| ==> work[i] < n && expanding[work[i]] && at[work[i]] == i)
    && (forall v :: 0 <= v < n && expanding[v] ==>
      at[v] < |work| && work[at[v]] == v && !settled[v] && level[v] == UNLEVELED)
    && (forall v :: 0 <= v < n && settled[v] ==> level[v] == UNLEVELED)
  }

  /** The path is a path: every node on it reaches the later ones through unsettled nodes. */
  ghost predicate Linked(r: Closure, work: seq<nat>) {
    && (forall i :: 0 <= i < |work| ==> work[i] < |r|)
    && (forall i, j :: 0 <= i <= j < |work| ==> work[j] in r[work[i]])
  }

  ghost predicate Handled(settled: seq<bool>, level: seq<nat>, expanding: seq<bool>, w: nat) {
    w < |settled| && |settled| == |level| == |expanding| && (settled[w] || level[w] != UNLEVELED || expanding[w])
  }

  /** Every scanned edge leads to a node that is settled, leveled or on the path. */
  ghost predicate Explored(g: Graph, settled: seq<bool>, level: seq<nat>, expanding: seq<bool>, done: seq<nat>) {
    && |settled| == |level| == |expanding| == |done| == |g|
    && (forall v :: 0 <= v < |g| ==> done[v] <= |g[v]|)
    && (forall v :: 0 <= v < |g| && level[v] == UNLEVELED && !expanding[v] ==> done[v] == 0)
    && (forall v, k :: 0 <= v < |g| && 0 <= k < done[v] ==> Handled(settled, level, expanding, g[v][k]))
  }

  /** Levels stay below the number of leveled nodes, so none meets the sentinel. */
  ghost predicate Ranked(n: nat, level: seq<nat>, finished: seq<nat>, rank: seq<nat>) {
    && |level| == |rank| == n
    && (forall k :: 0 <= k < |finished| ==>
      finished[k] < n && rank[finished[k]] == k && level[finished[k]] != UNLEVELED)
    && (forall v :: 0 <= v < n && level[v] != UNLEVELED ==>
      rank[v] < |finished| && finished[rank[v]] == v && level[v] <= rank[v])
  }

  /** An unsettled successor is leveled strictly earlier, unless it reaches v through unsettled nodes. */
  ghost predicate Below(g: Graph, r: Closure, settled: seq<bool>, level: seq<nat>, v: nat)
    requires v < |g| == |level| == |settled| == |r|
  {
    forall w: nat :: w < |g| && w in g[v] && !settled[w] ==> (level[w] != UNLEVELED && level[w] < level[v]) || v in r[w]
  }

  /** A level above zero rests on an unsettled successor one level down. */
  ghost predicate Rests(g: Graph, settled: seq<bool>, level: seq<nat>, v: nat)
    requires v < |g| == |level| == |settled|
  {
    level[v] == 0 || exists w: nat ::
      w < |g| && w in g[v] && !settled[w] && level[w] != UNLEVELED && level[w] == level[v] - 1
  }

  ghost predicate Leveled(g: Graph, r: Closure, settled: seq<bool>, level: seq<nat>)
    requires |g| == |level| == |settled| == |r|
  {
    forall v: nat {:trigger Below(g, r, settled, level, v)} {:trigger Rests(g, settled, level, v)} ::
      v < |g| && level[v] != UNLEVELED ==> Below(g, r, settled, level, v) && Rests(g, settled, level, v)
  }

  ghost predicate Inv(g: Graph, r: Closure, settled: seq<bool>, s: State) {
    && WellFormed(g) && |settled| == |g| == |r| && Sized(|g|, s)
    && OnPath(|g|, settled, s.level, s.expanding, s.work, s.at)
    && Linked(r, s.work)
    && Explored(g, settled, s.level, s.expanding, s.done)
    && Ranked(|g|, s.level, s.finished, s.rank)
    && Leveled(g, r, settled, s.level)
  }

  // ----- The steps

  function Initial(n: nat): State {
    State(seq(n, _ => UNLEVELED), seq(n, _ => false), [], seq(n, _ => 0), seq(n, _ => 0), [], seq(n, _ => 0))
  }

  /** Put w on the path. */
  function Push(s: State, w: nat): State
    requires w < |s.expanding| == |s.at|
  {
    s.(expanding := s.expanding[w := true], work := s.work + [w], at := s.at[w := |s.work|])
  }

  function Scan(s: State, v: nat): State
    requires v < |s.done|
  {
    s.(done := s.done[v := s.done[v] + 1])
  }

  /** Give the fully scanned top node its level and take it off the path. */
  function Finish(s: State, v: nat, l: nat): State
    requires v < |s.level| == |s.expanding| == |s.rank| && s.work != []
  {
    s.(level := s.level[v := l], expanding := s.expanding[v := false], work := s.work[..|s.work| - 1],
       finished := s.finished + [v], rank := s.rank[v := |s.finished|])
  }

  // ----- What each step keeps

  lemma InitialInv(g: Graph, r: Closure, settled: seq<bool>)
    requires WellFormed(g) && |settled| == |g| == |r| < UNLEVELED
    ensures Inv(g, r, settled, Initial(|g|))
  {
  }

  lemma PushPath(n: nat, settled: seq<bool>, level: seq<nat>, expanding: seq<bool>, work: seq<nat>, at: seq<nat>,
                 w: nat)
    requires OnPath(n, settled, level, expanding, work, at) && w < n
    requires !settled[w] && level[w] == UNLEVELED && !expanding[w]
    ensures OnPath(n, settled, level, expanding[w := true], work + [w], at[w := |work|])
  {
  }

  lemma PushExplored(g: Graph, settled: seq<bool>, level: seq<nat>, expanding: seq<bool>, done: seq<nat>, w: nat)
    requires Explored(g, settled, level, expanding, done) && w < |g|
    ensures Explored(g, settled, level, expanding[w := true], done)
  {
    forall v, k | 0 <= v < |g| && 0 <= k < done[v]
      ensures Handled(settled, level, expanding[w := true], g[v][k])
    {
      assert Handled(settled, level, expanding, g[v][k]);
    }
  }

  lemma PushLinked(g: Graph, settled: seq<bool>, r: Closure, work: seq<nat>, w: nat)
    requires WellFormed(g) && |settled| == |g| && IsClosure(Unsettled(g, settled), r) && Linked(r, work) && w < |r|
    requires !settled[w] && (work != [] ==> Edge(g, work[|work| - 1], w) && !settled[work[|work| - 1]])
    ensures Linked(r, work + [w])
  {
    var u := Unsettled(g, settled);
    ReachesRefl(u, w);
    forall i | 0 <= i < |work|
      ensures w in r[work[i]]
    {
      ReachesEdge(u, work[i], work[|work| - 1], w);
    }
  }

  lemma TopUnsettled(n: nat, settled: seq<bool>, level: seq<nat>, expanding: seq<bool>, work: seq<nat>, at: seq<nat>)
    requires OnPath(n, settled, level, expanding, work, at) && work != []
    ensures work[|work| - 1] < n && !settled[work[|work| - 1]]
  {
  }

  lemma PushInv(g: Graph, r: Closure, settled: seq<bool>, s: State, w: nat)
    requires WellFormed(g) && |settled| == |g| && IsClosure(Unsettled(g, settled), r)
    requires Inv(g, r, settled, s) && w < |g| && !Handled(settled, s.level, s.expanding, w)
    requires s.work != [] ==> Edge(g, s.work[|s.work| - 1], w)
    ensures Inv(g, r, settled, Push(s, w))
  {
    PushPath(|g|, settled, s.level, s.expanding, s.work, s.at, w);
    PushExplored(g, settled, s.level, s.expanding, s.done, w);
    if s.work != [] {
      TopUnsettled(|g|, settled, s.level, s.expanding, s.work, s.at);
    }
    PushLinked(g, settled, r, s.work, w);
  }

  lemma ScanExplored(g: Graph, settled: seq<bool>, level: seq<nat>, expanding: seq<bool>, done: seq<nat>, v: nat)
    requires Explored(g, settled, level, expanding, done) && v < |g| && done[v] < |g[v]| && expanding[v]
    requires Handled(settled, level, expanding, g[v][done[v]])
    ensures Explored(g, settled, level, expanding, done[v := done[v] + 1])
  {
  }

  lemma ScanInv(g: Graph, r: Closure, settled: seq<bool>, s: State, v: nat)
    requires Inv(g, r, settled, s) && v < |g| && s.expanding[v] && s.done[v] < |g[v]|
    requires Handled(settled, s.level, s.expanding, g[v][s.done[v]])
    ensures Inv(g, r, settled, Scan(s, v))
  {
    ScanExplored(g, settled, s.level, s.expanding, s.done, v);
  }

  lemma FinishPath(n: nat, settled: seq<bool>, level: seq<nat>, expanding: seq<bool>, work: seq<nat>, at: seq<nat>,
                   v: nat, l: nat)
    requires OnPath(n, settled, level, expanding, work, at) && work != [] && v == work[|work| - 1]
    ensures OnPath(n, settled, level[v := l], expanding[v := false], work[..|work| - 1], at)
  {
  }

  lemma FinishExplored(g: Graph, settled: seq<bool>, level: seq<nat>, expanding: seq<bool>, done: seq<nat>, v: nat,
                       l: nat)
    requires Explored(g, settled, level, expanding, done) && v < |g| && l != UNLEVELED
    ensures Explored(g, settled, level[v := l], expanding[v := false], done)
  {
    forall x, k | 0 <= x < |g| && 0 <= k < done[x]
      ensures Handled(settled, level[v := l], expanding[v := false], g[x][k])
    {
      assert Handled(settled, level, expanding, g[x][k]);
    }
  }

  /** The new level is at most the number of nodes leveled before. */
  lemma FinishRanked(n: nat, level: seq<nat>, finished: seq<nat>, rank: seq<nat>, v: nat, l: nat)
    requires Ranked(n, level, finished, rank) && v < n < UNLEVELED && level[v] == UNLEVELED
    requires l == 0 || exists w: nat :: w < n && level[w] != UNLEVELED && level[w] == l - 1
    ensures l <= |finished| < n && Ranked(n, level[v := l], finished + [v], rank[v := |finished|])
  {
    assert forall k :: 0 <= k < |finished| ==> finished[k] != v;
    DistinctWithin(finished + [v], Digraph.Below(n));
  }

  /** A scanned successor of the top node is leveled below it or lies on the path, from where it reaches the top. */
  lemma FinishBelow(g: Graph, r: Closure, settled: seq<bool>, s: State, v: nat)
    requires |settled| == |g| == |r| && OnPath(|g|, settled, s.level, s.expanding, s.work, s.at) && Linked(r, s.work)
    requires Explored(g, settled, s.level, s.expanding, s.done)
    requires s.work != [] && v == s.work[|s.work| - 1] && s.done[v] == |g[v]|
    ensures Below(g, r, settled, s.level[v := LevelAfter(g[v], settled, s.level)], v)
  {
    forall w: nat | w < |g| && w in g[v] && !settled[w]
      ensures (s.level[w] != UNLEVELED && w != v && s.level[w] < LevelAfter(g[v], settled, s.level)) || v in r[w]
    {
      var k :| 0 <= k < |g[v]| && g[v][k] == w;
      assert Handled(settled, s.level, s.expanding, g[v][k]);
      if s.expanding[w] {
        assert s.work[s.at[w]] == w;
      }
    }
  }

  lemma FinishRests(g: Graph, settled: seq<bool>, level: seq<nat>, v: nat)
    requires |settled| == |g| == |level| && v < |g| && level[v] == UNLEVELED
    ensures Rests(g, settled, level[v := LevelAfter(g[v], settled, level)], v)
  {
    var l := LevelAfter(g[v], settled, level);
    if l > 0 {
      var w: nat :| w in g[v] && w < |level| && !settled[w] && level[w] != UNLEVELED && level[w] == l - 1;
      assert level[v := l][w] == l - 1;
    }
  }

  /** Leveling v leaves what was said about the nodes leveled before. */
  lemma FinishOthers(g: Graph, r: Closure, settled: seq<bool>, level: seq<nat>, v: nat, l: nat, x: nat)
    requires |settled| == |g| == |level| == |r| && v < |g| && x < |g| && x != v && level[v] == UNLEVELED
    requires Below(g, r, settled, level, x) && Rests(g, settled, level, x)
    ensures Below(g, r, settled, level[v := l], x) && Rests(g, settled, level[v := l], x)
  {
    if level[x] > 0 {
      var w: nat :| w < |g| && w in g[x] && !settled[w] && level[w] != UNLEVELED && level[w] == level[x] - 1;
      assert level[v := l][w] == level[x] - 1;
    }
  }

  lemma FinishLeveled(g: Graph, r: Closure, settled: seq<bool>, level: seq<nat>, v: nat, l: nat)
    requires |settled| == |g| == |level| == |r| && v < |g| && level[v] == UNLEVELED && Leveled(g, r, settled, level)
    requires Below(g, r, settled, level[v := l], v) && Rests(g, settled, level[v := l], v)
    ensures Leveled(g, r, settled, level[v := l])
  {
    var level' := level[v := l];
    forall x: nat | x < |g| && level'[x] != UNLEVELED
      ensures Below(g, r, settled, level', x) && Rests(g, settled, level', x)
    {
      if x != v {
        assert Below(g, r, settled, level, x) && Rests(g, settled, level, x);
        FinishOthers(g, r, settled, level, v, l, x);
      }
    }
  }

  lemma FinishInv(g: Graph, r: Closure, settled: seq<bool>, s: State, v: nat)
    requires Inv(g, r, settled, s) && s.work != [] && v == s.work[|s.work| - 1] && s.done[v] == |g[v]|
    ensures LevelAfter(g[v], settled, s.level) < |g|
    ensures Inv(g, r, settled, Finish(s, v, LevelAfter(g[v], settled, s.level)))
  {
    var l := LevelAfter(g[v], settled, s.level);
    FinishRanked(|g|, s.level, s.finished, s.rank, v, l);
    FinishPath(|g|, settled, s.level, s.expanding, s.work, s.at, v, l);
    FinishExplored(g, settled, s.level, s.expanding, s.done, v, l);
    FinishBelow(g, r, settled, s, v);
    FinishRests(g, settled, s.level, v);
    FinishLeveled(g, r, settled, s.level, v, l);
  }

  // ----- One turn of the search loop

  /** What a turn needs in order to index its vectors. */
  ghost predicate Ready(g: Graph, settled: seq<bool>, s: State) {
    && WellFormed(g) && |settled| == |g| && Sized(|g|, s)
    && (forall i :: 0 <= i < |s.work| ==> s.work[i] < |g| && s.at[s.work[i]] == i && s.expanding[s.work[i]])
    && (forall v :: 0 <= v < |g| ==> s.done[v] <= |g[v]|)
    && (forall v :: 0 <= v < |g| && s.level[v] == UNLEVELED && !s.expanding[v] ==> s.done[v] == 0)
  }

  ghost function Turn(g: Graph, settled: seq<bool>, s: State): State
    requires Ready(g, settled, s) && s.work != []
  {
    var v := s.work[|s.work| - 1];
    if s.done[v] == |g[v]| then Finish(s, v, LevelAfter(g[v], settled, s.level))
    else
      var w := g[v][s.done[v]];
      if Handled(settled, s.level, s.expanding, w) then Scan(s, v) else Scan(Push(s, w), v)
  }

  lemma InvReady(g: Graph, r: Closure, settled: seq<bool>, s: State)
    requires Inv(g, r, settled, s)
    ensures Ready(g, settled, s)
    ensures s.work != [] ==> LevelAfter(g[s.work[|s.work| - 1]], settled, s.level) < UNLEVELED
  {
    if s.work != [] {
      var v := s.work[|s.work| - 1];
      FinishRanked(|g|, s.level, s.finished, s.rank, v, LevelAfter(g[v], settled, s.level));
    }
  }

  lemma FollowInv(g: Graph, r: Closure, settled: seq<bool>, s: State, v: nat, w: nat)
    requires WellFormed(g) && |settled| == |g| && IsClosure(Unsettled(g, settled), r)
    requires Inv(g, r, settled, s) && s.work != [] && v == s.work[|s.work| - 1]
    requires s.done[v] < |g[v]| && w == g[v][s.done[v]] && !Handled(settled, s.level, s.expanding, w)
    ensures Inv(g, r, settled, Scan(Push(s, w), v))
  {
    assert Edge(g, v, w);
    PushInv(g, r, settled, s, w);
    var t := Push(s, w);
    assert t.expanding[v] && Handled(settled, t.level, t.expanding, w);
    ScanInv(g, r, settled, t, v);
  }

  lemma TurnInv(g: Graph, r: Closure, settled: seq<bool>, s: State)
    requires WellFormed(g) && |settled| == |g| && IsClosure(Unsettled(g, settled), r)
    requires Inv(g, r, settled, s) && Ready(g, settled, s) && s.work != []
    ensures Inv(g, r, settled, Turn(g, settled, s)) && Ready(g, settled, Turn(g, settled, s))
  {
    var v := s.work[|s.work| - 1];
    if s.done[v] == |g[v]| {
      FinishInv(g, r, settled, s, v);
    } else {
      var w := g[v][s.done[v]];
      if Handled(settled, s.level, s.expanding, w) {
        ScanInv(g, r, settled, s, v);
      } else {
        FollowInv(g, r, settled, s, v, w);
      }
    }
    InvReady(g, r, settled, Turn(g, settled, s));
  }

  ghost function Left(g: Graph, s: State): int
    requires |s.done| == |g| && forall i :: 0 <= i < |s.work| ==> s.work[i] < |g|
  {
    if s.work == [] then 0 else |g[s.work[|s.work| - 1]]| - s.done[s.work[|s.work| - 1]]
  }

  /** The nodes that were never put on the path. */
  ghost function Fresh(level: seq<nat>, expanding: seq<bool>): set<nat>
    requires |level| == |expanding|
  {
    set v: nat | v in Digraph.Below(|level|) && level[v] == UNLEVELED && !expanding[v]
  }

  /** No node loses its level, and one that leaves the path has one. */
  ghost predicate Keeps(s: State, t: State) {
    && |s.level| == |t.level| == |s.expanding| == |t.expanding|
    && forall v :: 0 <= v < |s.level| ==>
      && (s.level[v] != UNLEVELED ==> t.level[v] != UNLEVELED)
      && (s.expanding[v] ==> t.expanding[v] || t.level[v] != UNLEVELED)
  }

  lemma FinishFresh(level: seq<nat>, expanding: seq<bool>, v: nat, l: nat)
    requires |level| == |expanding| && v < |level| && expanding[v] && l != UNLEVELED
    ensures Fresh(level[v := l], expanding[v := false]) == Fresh(level, expanding)
  {
  }

  lemma PushFresh(level: seq<nat>, expanding: seq<bool>, w: nat)
    requires |level| == |expanding| && w < |level| && level[w] == UNLEVELED && !expanding[w]
    ensures |Fresh(level, expanding[w := true])| < |Fresh(level, expanding)|
  {
    assert Fresh(level, expanding[w := true]) == Fresh(level, expanding) - {w};
  }

  lemma TurnKeeps(g: Graph, settled: seq<bool>, s: State)
    requires Ready(g, settled, s) && s.work != []
    requires LevelAfter(g[s.work[|s.work| - 1]], settled, s.level) < UNLEVELED
    ensures Keeps(s, Turn(g, settled, s))
  {
  }

  /** A turn puts a fresh node on the path, shortens the path, or scans one more edge of the top node. */
  lemma TurnAdvances(g: Graph, settled: seq<bool>, s: State)
    requires Ready(g, settled, s) && s.work != [] && Ready(g, settled, Turn(g, settled, s))
    requires LevelAfter(g[s.work[|s.work| - 1]], settled, s.level) < UNLEVELED
    ensures
      var t := Turn(g, settled, s);
      || |Fresh(t.level, t.expanding)| < |Fresh(s.level, s.expanding)|
      || (Fresh(t.level, t.expanding) == Fresh(s.level, s.expanding) && |t.work| < |s.work|)
      || (Fresh(t.level, t.expanding) == Fresh(s.level, s.expanding) && |t.work| == |s.work| && Left(g, t) < Left(g, s))
  {
    var v := s.work[|s.work| - 1];
    if s.done[v] == |g[v]| {
      FinishFresh(s.level, s.expanding, v, LevelAfter(g[v], settled, s.level));
    } else if !Handled(settled, s.level, s.expanding, g[v][s.done[v]]) {
      PushFresh(s.level, s.expanding, g[v][s.done[v]]);
    }
  }

  // ----- What the finished levels mean

  ghost predicate IsLeveling(g: Graph, settled: seq<bool>, level: seq<nat>) {
    && WellFormed(g) && |settled| == |level| == |g|
    && (forall v :: 0 <= v < |g| ==> (settled[v] <==> level[v] == UNLEVELED))
    && (forall v: nat, w: nat :: Edge(Unsettled(g, settled), v, w) ==>
      level[w] < level[v] || Reaches(Unsettled(g, settled), w, v))
    && (forall v: nat :: v < |g| && !settled[v] ==>
      level[v] < |g| && (level[v] == 0 || StepsDown(g, settled, level, v)))
  }

  ghost predicate StepsDown(g: Graph, settled: seq<bool>, level: seq<nat>, v: nat)
    requires WellFormed(g) && |settled| == |level| == |g| && v < |g|
  {
    exists w: nat :: Edge(Unsettled(g, settled), v, w) && level[v] == level[w] + 1
  }

  lemma FinishedIsLeveling(g: Graph, r: Closure, settled: seq<bool>, s: State)
    requires WellFormed(g) && |settled| == |g| && IsClosure(Unsettled(g, settled), r)
    requires Inv(g, r, settled, s) && s.work == []
    requires forall v :: 0 <= v < |g| && !settled[v] ==> s.level[v] != UNLEVELED
    ensures IsLeveling(g, settled, s.level)
  {
    var u, level := Unsettled(g, settled), s.level;
    forall v: nat, w: nat | Edge(u, v, w)
      ensures level[w] < level[v] || Reaches(u, w, v)
    {
      assert Below(g, r, settled, level, v);
    }
    forall v: nat | v < |g| && !settled[v]
      ensures level[v] < |g| && (level[v] == 0 || StepsDown(g, settled, level, v))
    {
      assert Rests(g, settled, level, v);
      if level[v] > 0 {
        var w: nat :| w < |g| && w in g[v] && !settled[w] && level[w] != UNLEVELED && level[w] == level[v] - 1;
        assert Edge(u, v, w);
      }
      DistinctWithin(s.finished, Digraph.Below(|g|));
    }
  }

  lemma {:induction false} UnsettledPath(g: Graph, settled: seq<bool>, p: seq<nat>, a: nat, b: nat)
    requires WellFormed(g) && |settled| == |g| && IsPath(Unsettled(g, settled), p, a, b)
    ensures IsPath(g, p, a, b)
  {
    forall i | 0 <= i < |p| - 1
      ensures Edge(g, p[i], p[i + 1])
    {
      assert Edge(Unsettled(g, settled), p[i], p[i + 1]);
    }
  }

  lemma UnsettledCycle(g: Graph, settled: seq<bool>, v: nat, w: nat)
    requires WellFormed(g) && |settled| == |g|
    requires Edge(Unsettled(g, settled), v, w) && Reaches(Unsettled(g, settled), w, v)
    ensures OnCycle(g, v)
  {
    var p :| IsPath(Unsettled(g, settled), p, w, v);
    UnsettledPath(g, settled, p, w, v);
  }

  /** With every cycle member settled beforehand, every remaining edge points to a strictly earlier level. */
  lemma SettledCyclesOrderEdges(g: Graph, settled: seq<bool>, level: seq<nat>)
    requires IsLeveling(g, settled, level)
    requires forall v: nat :: v < |g| && OnCycle(g, v) ==> settled[v]
    ensures forall v: nat, w: nat :: Edge(g, v, w) && w < |g| && !settled[v] && !settled[w] ==> level[w] < level[v]
  {
    var u := Unsettled(g, settled);
    forall v: nat, w: nat | Edge(g, v, w) && w < |g| && !settled[v] && !settled[w]
      ensures level[w] < level[v]
    {
      assert Edge(u, v, w);
      if Reaches(u, w, v) {
        UnsettledCycle(g, settled, v, w);
      }
    }
  }

  ghost predicate Acyclic(g: Graph) {
    forall v: nat :: v < |g| ==> !OnCycle(g, v)
  }

  /** Without unsettled cycles a level is the length of the longest path through unsettled nodes. */
  lemma LevelIsLongestPath(g: Graph, settled: seq<bool>, level: seq<nat>, v: nat)
    requires IsLeveling(g, settled, level) && Acyclic(Unsettled(g, settled)) && v < |g| && !settled[v]
    ensures forall p, w :: IsPath(Unsettled(g, settled), p, v, w) ==> |p| - 1 <= level[v]
    ensures exists p, w :: IsPath(Unsettled(g, settled), p, v, w) && |p| - 1 == level[v]
  {
    var u := Unsettled(g, settled);
    forall p, w | IsPath(u, p, v, w)
      ensures |p| - 1 <= level[v]
    {
      PathBounded(g, settled, level, p, v, w);
    }
    var p, w := DeepestPath(g, settled, level, v);
  }

  lemma {:induction false} PathBounded(g: Graph, settled: seq<bool>, level: seq<nat>, p: seq<nat>, v: nat, w: nat)
    requires IsLeveling(g, settled, level) && Acyclic(Unsettled(g, settled)) && v < |g| && !settled[v]
    requires IsPath(Unsettled(g, settled), p, v, w)
    ensures |p| - 1 <= level[v]
    decreases |p|
  {
    var u := Unsettled(g, settled);
    if |p| > 1 {
      assert Edge(u, p[0], p[1]);
      forall i | 0 <= i < |p[1..]| - 1
        ensures Edge(u, p[1..][i], p[1..][i + 1])
      {
        assert Edge(u, p[i + 1], p[i + 2]);
      }
      PathBounded(g, settled, level, p[1..], p[1], w);
      assert !OnCycle(u, v);
    }
  }

  lemma {:induction false} DeepestPath(g: Graph, settled: seq<bool>, level: seq<nat>, v: nat)
    returns (p: seq<nat>, w: nat)
    requires IsLeveling(g, settled, level) && v < |g| && !settled[v]
    ensures IsPath(Unsettled(g, settled), p, v, w) && |p| - 1 == level[v]
    decreases level[v]
  {
    var u := Unsettled(g, settled);
    if level[v] == 0 {
      p, w := [v], v;
    } else {
      assert StepsDown(g, settled, level, v);
      var x: nat :| Edge(u, v, x) && level[v] == level[x] + 1;
      var q;
      q, w := DeepestPath(g, settled, level, x);
      p := [v] + q;
      forall i | 0 <= i < |p| - 1
        ensures Edge(u, p[i], p[i + 1])
      {
        if i > 0 {
          assert Edge(u, q[i - 1], q[i]);
        }
      }
    }
  }

  // ----- Grouping the nodes by level

  /** The nodes below n at level l, in ascending order. */
  ghost function NodesAt(level: seq<nat>, n: nat, l: nat): (nodes: seq<nat>)
    requires n <= |level|
    ensures forall v: nat :: v in nodes <==> v < n && level[v] == l
    ensures forall i, j :: 0 <= i < j < |nodes| ==> nodes[i] < nodes[j]
  {
    if n == 0 then []
    else
      var rest := NodesAt(level, n - 1, l);
      assert forall i :: 0 <= i < |rest| ==> rest[i] in rest;
      rest + if level[n - 1] == l then [n - 1] else []
  }

  /** `levels` lists the leveled nodes level by level and has no level beyond the deepest. */
  ghost predicate Groups(level: seq<nat>, levels: seq<seq<nat>>) {
    && (forall l :: 0 <= l < |levels| ==> levels[l] == NodesAt(level, |level|, l))
    && (forall v :: 0 <= v < |level| && level[v] != UNLEVELED ==> level[v] < |levels|)
    && |levels| <= UNLEVELED
    && (levels != [] ==> levels[|levels| - 1] != [])
  }

  /** No level is empty, and an unsettled node sits in its own level and in no other. */
  lemma GroupsPartition(g: Graph, settled: seq<bool>, level: seq<nat>, levels: seq<seq<nat>>)
    requires IsLeveling(g, settled, level) && Groups(level, levels)
    ensures forall l :: 0 <= l < |levels| ==> levels[l] != []
    ensures forall v: nat, l :: v < |g| && 0 <= l < |levels| ==> (v in levels[l] <==> !settled[v] && level[v] == l)
    ensures forall v: nat :: v < |g| && !settled[v] ==> level[v] < |levels|
  {
    forall v: nat, l: nat | v < |g| && l < |levels|
      ensures v in levels[l] <==> !settled[v] && level[v] == l
    {
      assert levels[l] == NodesAt(level, |level|, l);
    }
    if levels != [] {
      var top := levels[|levels| - 1][0];
      assert top in levels[|levels| - 1] && levels[|levels| - 1] == NodesAt(level, |level|, |levels| - 1);
      forall l: nat | l < |levels|
        ensures levels[l] != []
      {
        var v := NodeAtLevel(g, settled, level, top, l);
        assert v in levels[l];
      }
    }
  }

  /** Below a leveled node every smaller level is inhabited. */
  lemma {:induction false} NodeAtLevel(g: Graph, settled: seq<bool>, level: seq<nat>, v: nat, l: nat) returns (w: nat)
    requires IsLeveling(g, settled, level) && v < |g| && !settled[v] && l <= level[v]
    ensures w < |g| && !settled[w] && level[w] == l
    decreases level[v]
  {
    if level[v] == l {
      w := v;
    } else {
      assert StepsDown(g, settled, level, v);
      var x: nat :| Edge(Unsettled(g, settled), v, x) && level[v] == level[x] + 1;
      w := NodeAtLevel(g, settled, level, x, l);
    }
  }
}
