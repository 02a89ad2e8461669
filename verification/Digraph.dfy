/** Directed graphs over the nodes 0..|g|, given by successor lists, and the paths in them. */
module Digraph {

  type Graph = seq<seq<nat>>

  ghost predicate WellFormed(g: Graph) {
    forall v, i :: 0 <= v < |g| && 0 <= i < |g[v]| ==> g[v][i] < |g|
  }

  ghost predicate Edge(g: Graph, u: nat, v: nat) {
    u < |g| && v in g[u]
  }

  ghost predicate IsPath(g: Graph, p: seq<nat>, u: nat, v: nat) {
    && |p| > 0 && p[0] == u && p[|p| - 1] == v
    && forall i :: 0 <= i < |p| - 1 ==> Edge(g, p[i], p[i + 1])
  }

  /** A path of zero or more edges leads from u to v. */
  ghost predicate Reaches(g: Graph, u: nat, v: nat) {
    exists p :: IsPath(g, p, u, v)
  }

  /** A path of one or more edges leads from v back to v. */
  ghost predicate OnCycle(g: Graph, v: nat) {
    exists w :: Edge(g, v, w) && Reaches(g, w, v)
  }

  lemma ReachesRefl(g: Graph, v: nat)
    ensures Reaches(g, v, v)
  {
    assert IsPath(g, [v], v, v);
  }

  lemma ReachesTrans(g: Graph, u: nat, v: nat, w: nat)
    requires Reaches(g, u, v) && Reaches(g, v, w)
    ensures Reaches(g, u, w)
  {
    var p :| IsPath(g, p, u, v);
    var q :| IsPath(g, q, v, w);
    var r := p + q[1..];
    forall i | 0 <= i < |r| - 1
      ensures Edge(g, r[i], r[i + 1])
    {
      if i < |p| - 1 {
        assert Edge(g, p[i], p[i + 1]);
      } else {
        assert Edge(g, q[i - |p| + 1], q[i - |p| + 2]);
      }
    }
    assert IsPath(g, r, u, w);
  }

  lemma ReachesEdge(g: Graph, u: nat, v: nat, w: nat)
    requires Reaches(g, u, v) && Edge(g, v, w)
    ensures Reaches(g, u, w)
  {
    assert IsPath(g, [v, w], v, w);
    ReachesTrans(g, u, v, w);
  }

  lemma EdgeReaches(g: Graph, u: nat, v: nat, w: nat)
    requires Edge(g, u, v) && Reaches(g, v, w)
    ensures Reaches(g, u, w)
  {
    assert IsPath(g, [u, v], u, v);
    ReachesTrans(g, u, v, w);
  }

  /** No path leaves a set that is closed under successors. */
  lemma {:induction false} ClosedSetConfines(g: Graph, s: set<nat>, u: nat, v: nat)
    requires forall x, y :: x in s && Edge(g, x, y) ==> y in s
    requires u in s && Reaches(g, u, v)
    ensures v in s
  {
    var p :| IsPath(g, p, u, v);
    ClosedSetConfinesPath(g, s, p, u, v);
  }

  lemma {:induction false} ClosedSetConfinesPath(g: Graph, s: set<nat>, p: seq<nat>, u: nat, v: nat)
    requires forall x, y :: x in s && Edge(g, x, y) ==> y in s
    requires u in s && IsPath(g, p, u, v)
    ensures v in s
  {
    if |p| > 1 {
      var q := p[1..];
      assert Edge(g, p[0], p[1]);
      assert IsPath(g, q, q[0], v) by {
        forall i | 0 <= i < |q| - 1
          ensures Edge(g, q[i], q[i + 1])
        {
          assert Edge(g, p[i + 1], p[i + 2]);
        }
      }
      ClosedSetConfinesPath(g, s, q, q[0], v);
    }
  }

  lemma FirstEdge(g: Graph, u: nat, v: nat) returns (w: nat)
    requires Reaches(g, u, v) && u != v
    ensures Edge(g, u, w) && Reaches(g, w, v)
  {
    var p :| IsPath(g, p, u, v);
    w := p[1];
    assert Edge(g, p[0], p[1]);
    assert IsPath(g, p[1..], w, v) by {
      forall i | 0 <= i < |p[1..]| - 1
        ensures Edge(g, p[1..][i], p[1..][i + 1])
      {
        assert Edge(g, p[i + 1], p[i + 2]);
      }
    }
  }

  /** Two distinct nodes that reach each other lie on a cycle. */
  lemma MutualIsCycle(g: Graph, u: nat, v: nat)
    requires u != v && Reaches(g, u, v) && Reaches(g, v, u)
    ensures OnCycle(g, u)
  {
    var w := FirstEdge(g, u, v);
    ReachesTrans(g, w, v, u);
  }

  /** For every node the set of nodes it reaches. */
  type Closure = seq<set<nat>>

  ghost predicate IsClosure(g: Graph, r: Closure) {
    |r| == |g| && forall u: nat, v: nat :: u < |g| ==> (v in r[u] <==> Reaches(g, u, v))
  }

  ghost function ClosureOf(g: Graph): (r: Closure)
    requires WellFormed(g)
    ensures IsClosure(g, r)
  {
    var r := seq(|g|, (u: int) requires 0 <= u => set v: nat | v in Below(|g|) && Reaches(g, u, v));
    assert IsClosure(g, r) by {
      forall u: nat, v: nat | u < |g| && Reaches(g, u, v)
        ensures v in Below(|g|)
      {
        ClosedSetConfines(g, Below(|g|), u, v);
      }
    }
    r
  }

  /** The numbers below n. */
  ghost function Below(n: nat): (s: set<nat>)
    ensures |s| == n && forall x: nat :: x in s <==> x < n
  {
    if n == 0 then {} else Below(n - 1) + {n - 1}
  }

  /** A duplicate-free sequence is no longer than a set that holds its elements. */
  lemma {:induction false} DistinctWithin<T>(s: seq<T>, within: set<T>)
    requires forall i, j :: 0 <= i < j < |s| ==> s[i] != s[j]
    requires forall i :: 0 <= i < |s| ==> s[i] in within
    ensures |s| <= |within|
  {
    if |s| > 0 {
      var last := |s| - 1;
      DistinctWithin(s[..last], within - {s[last]});
    }
  }
}
