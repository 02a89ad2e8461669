/** Verdicts through re-exports: `propagate_re_export_safety` of `src/cache/merge.rs`. */
module ReExports {
  import opened Safety
  import opened Artifact

  /** For each name the last record that carries it. */
  ghost predicate IsIndex(index: map<string, nat>, ms: seq<CachedModule>) {
    && (forall i :: 0 <= i < |ms| ==> ms[i].name in index)
    && forall n :: n in index ==>
      index[n] < |ms| && ms[index[n]].name == n && forall k :: index[n] < k < |ms| ==> ms[k].name != n
  }

  method ModuleIndex(ms: seq<CachedModule>) returns (index: map<string, nat>)
    ensures IsIndex(index, ms)
  {
    index := map[];
    for i := 0 to |ms|
      invariant IsIndex(index, ms[..i])
    {
      index := index[ms[i].name := i];
    }
    assert ms[..|ms|] == ms;
  }

  // ----- One edge

  ghost function MergedEntry(fs: map<string, Info>, attr: string, incoming: Info): map<string, Info> {
    fs[attr := if attr in fs then Merged(fs[attr], incoming) else incoming]
  }

  method MergeFunctionSafetyEntry(fs: map<string, Info>, attr: string, incoming: Info)
    returns (fs': map<string, Info>, changed: bool)
    ensures fs' == MergedEntry(fs, attr, incoming) && changed == (fs' != fs)
  {
    if attr in fs {
      var merged;
      merged, changed := MergeRef(fs[attr], incoming);
      fs' := fs[attr := merged];
    } else {
      fs', changed := fs[attr := incoming], true;
    }
  }

  /** The edge connects two known modules and its source has a verdict. */
  ghost predicate Flows(ms: seq<CachedModule>, index: map<string, nat>, e: ReExport)
    requires IsIndex(index, ms)
  {
    && e.importedModule in index && e.exportedModule in index
    && e.importedAttr in ms[index[e.importedModule]].functionSafety
  }

  /** An index depends on the names of the records alone. */
  lemma SameNamesSameIndex(index: map<string, nat>, ms: seq<CachedModule>, r: seq<CachedModule>)
    requires IsIndex(index, ms) && |r| == |ms| && forall i :: 0 <= i < |ms| ==> r[i].name == ms[i].name
    ensures IsIndex(index, r)
  {
  }

  /** The modules after the destination of `e` took over what its source says. */
  ghost function Apply(ms: seq<CachedModule>, index: map<string, nat>, e: ReExport): (r: seq<CachedModule>)
    requires IsIndex(index, ms)
    ensures |r| == |ms| && IsIndex(index, r)
  {
    if Flows(ms, index, e) then
      var d := index[e.exportedModule];
      var info := ms[index[e.importedModule]].functionSafety[e.importedAttr];
      var r := ms[d := ms[d].(functionSafety := MergedEntry(ms[d].functionSafety, e.exportedAttr, info))];
      SameNamesSameIndex(index, ms, r);
      r
    else ms
  }

  method ApplyEdge(ms: seq<CachedModule>, index: map<string, nat>, e: ReExport)
    returns (ms': seq<CachedModule>, changed: bool)
    requires IsIndex(index, ms)
    ensures ms' == Apply(ms, index, e) && changed == (ms' != ms)
  {
    ms', changed := ms, false;
    if e.importedModule !in index || e.exportedModule !in index {
      return;
    }
    var src, dst := index[e.importedModule], index[e.exportedModule];
    if e.importedAttr !in ms[src].functionSafety {
      return;
    }
    var fs;
    fs, changed := MergeFunctionSafetyEntry(ms[dst].functionSafety, e.exportedAttr,
                                            ms[src].functionSafety[e.importedAttr]);
    ms' := ms[dst := ms[dst].(functionSafety := fs)];
    if changed {
      assert ms'[dst].functionSafety != ms[dst].functionSafety;
    }
  }

  // ----- What the modules say

  /** Record i says the fact about its function `attr`. */
  ghost predicate Known(ms: seq<CachedModule>, i: int, attr: string, f: Fact) {
    0 <= i < |ms| && attr in ms[i].functionSafety && Says(ms[i].functionSafety[attr], f)
  }

  /** The destination of `e` says whatever its source says. */
  ghost predicate Includes(ms: seq<CachedModule>, index: map<string, nat>, e: ReExport) {
    e.importedModule in index && e.exportedModule in index ==>
      forall f :: Known(ms, index[e.importedModule], e.importedAttr, f) ==>
        Known(ms, index[e.exportedModule], e.exportedAttr, f)
  }

  ghost predicate Stable(ms: seq<CachedModule>, index: map<string, nat>, edges: seq<ReExport>) {
    forall i :: 0 <= i < |edges| ==> Includes(ms, index, edges[i])
  }

  /** Following an edge adds what the source says to the destination, and changes nothing exactly when that
      was said before. */
  lemma ApplyFacts(ms: seq<CachedModule>, index: map<string, nat>, e: ReExport)
    requires IsIndex(index, ms)
    ensures forall i, a, f :: Known(Apply(ms, index, e), i, a, f) <==>
      Known(ms, i, a, f) || (Flows(ms, index, e) && i == index[e.exportedModule] && a == e.exportedAttr
                             && Known(ms, index[e.importedModule], e.importedAttr, f))
    ensures Apply(ms, index, e) == ms <==> Includes(ms, index, e)
  {
    if Flows(ms, index, e) {
      var d := index[e.exportedModule];
      var fs, info := ms[d].functionSafety, ms[index[e.importedModule]].functionSafety[e.importedAttr];
      if e.exportedAttr in fs {
        MergedFacts(fs[e.exportedAttr], info);
        var merged := Merged(fs[e.exportedAttr], info);
        if merged == fs[e.exportedAttr] {
          assert fs[e.exportedAttr := merged] == fs;
        } else {
          assert Apply(ms, index, e)[d].functionSafety[e.exportedAttr] == merged;
          var f :| Says(info, f) && !Says(fs[e.exportedAttr], f);
          assert Known(ms, index[e.importedModule], e.importedAttr, f) && !Known(ms, d, e.exportedAttr, f);
        }
      } else {
        assert Says(info, Present);
        assert !Known(ms, d, e.exportedAttr, Present) && Known(Apply(ms, index, e), d, e.exportedAttr, Present);
      }
    }
  }

  // ----- Any order of following edges

  /** The modules after following the edges of `order` one after the other. */
  ghost function Run(ms: seq<CachedModule>, index: map<string, nat>, order: seq<ReExport>): (r: seq<CachedModule>)
    requires IsIndex(index, ms)
    ensures IsIndex(index, r) && |r| == |ms|
  {
    if order == [] then ms else Apply(Run(ms, index, order[..|order| - 1]), index, order[|order| - 1])
  }

  ghost predicate Among(order: seq<ReExport>, edges: seq<ReExport>) {
    forall e :: e in order ==> e in edges
  }

  /** Whatever a run says is said in every stable state that says what the run started from. */
  lemma {:induction false} RunIsLeast(ms: seq<CachedModule>, index: map<string, nat>, edges: seq<ReExport>,
                                      order: seq<ReExport>, bound: seq<CachedModule>)
    requires IsIndex(index, ms) && Among(order, edges)
    requires Stable(bound, index, edges)
    requires forall i, a, f :: Known(ms, i, a, f) ==> Known(bound, i, a, f)
    ensures forall i, a, f :: Known(Run(ms, index, order), i, a, f) ==> Known(bound, i, a, f)
  {
    if order != [] {
      var front, e := order[..|order| - 1], order[|order| - 1];
      RunIsLeast(ms, index, edges, front, bound);
      ApplyFacts(Run(ms, index, front), index, e);
      assert e in edges && Includes(bound, index, e);
    }
  }

  /** A run never takes anything back. */
  lemma {:induction false} RunGrows(ms: seq<CachedModule>, index: map<string, nat>, order: seq<ReExport>)
    requires IsIndex(index, ms)
    ensures forall i, a, f :: Known(ms, i, a, f) ==> Known(Run(ms, index, order), i, a, f)
  {
    if order != [] {
      RunGrows(ms, index, order[..|order| - 1]);
      ApplyFacts(Run(ms, index, order[..|order| - 1]), index, order[|order| - 1]);
    }
  }

  lemma ApplyKeepsDistinct(ms: seq<CachedModule>, index: map<string, nat>, e: ReExport)
    requires IsIndex(index, ms) && forall i :: 0 <= i < |ms| ==> DistinctParams(ms[i])
    ensures forall i :: 0 <= i < |ms| ==> DistinctParams(Apply(ms, index, e)[i])
  {
    if Flows(ms, index, e) {
      var fs, info :=
        ms[index[e.exportedModule]].functionSafety, ms[index[e.importedModule]].functionSafety[e.importedAttr];
      assert DistinctParams(ms[index[e.exportedModule]]) && DistinctParams(ms[index[e.importedModule]]);
      if e.exportedAttr in fs {
        ExtendedKeepsDistinct(fs[e.exportedAttr].params, info.params);
      }
      assert DistinctIn(MergedEntry(fs, e.exportedAttr, info));
    }
  }

  /** No run over re-exports makes a function list a mutated parameter twice. */
  lemma {:induction false} RunKeepsDistinct(ms: seq<CachedModule>, index: map<string, nat>, order: seq<ReExport>)
    requires IsIndex(index, ms) && forall i :: 0 <= i < |ms| ==> DistinctParams(ms[i])
    ensures forall i :: 0 <= i < |ms| ==> DistinctParams(Run(ms, index, order)[i])
  {
    if order != [] {
      var front := order[..|order| - 1];
      RunKeepsDistinct(ms, index, front);
      ApplyKeepsDistinct(Run(ms, index, front), index, order[|order| - 1]);
    }
  }

  /** The records agree on which functions have verdicts, on the concerns and missing callees, and on the
      mutated names. */
  ghost predicate SameVerdicts(a: seq<CachedModule>, b: seq<CachedModule>) {
    && |a| == |b|
    && forall i :: 0 <= i < |a| ==>
      && a[i].functionSafety.Keys == b[i].functionSafety.Keys
      && forall n :: n in a[i].functionSafety ==> Agree(a[i].functionSafety[n], b[i].functionSafety[n])
  }

  ghost predicate Agree(a: Info, b: Info) {
    a.verdict == b.verdict && a.missing == b.missing && ParamNames(a.params) == ParamNames(b.params)
  }

  lemma SameFactsSameVerdicts(a: seq<CachedModule>, b: seq<CachedModule>)
    requires |a| == |b| && forall i, n, f :: Known(a, i, n, f) <==> Known(b, i, n, f)
    ensures SameVerdicts(a, b)
  {
    forall i, n | 0 <= i < |a|
      ensures n in a[i].functionSafety <==> n in b[i].functionSafety
      ensures n in a[i].functionSafety ==> Agree(a[i].functionSafety[n], b[i].functionSafety[n])
    {
      assert Known(a, i, n, Present) <==> Known(b, i, n, Present);
      if n in a[i].functionSafety {
        var x, y := a[i].functionSafety[n], b[i].functionSafety[n];
        forall f
          ensures Says(x, f) <==> Says(y, f)
        {
          assert Known(a, i, n, f) <==> Known(b, i, n, f);
        }
        SameFacts(x, y);
      }
    }
  }

  /** Two runs over the same edges that end stable end with the same verdicts, whatever order they follow
      the edges in. */
  lemma StableRunsAgree(ms: seq<CachedModule>, index: map<string, nat>, edges: seq<ReExport>, order: seq<ReExport>,
                        order': seq<ReExport>)
    requires IsIndex(index, ms) && Among(order, edges) && Among(order', edges)
    requires Stable(Run(ms, index, order), index, edges) && Stable(Run(ms, index, order'), index, edges)
    ensures SameVerdicts(Run(ms, index, order), Run(ms, index, order'))
  {
    RunGrows(ms, index, order);
    RunGrows(ms, index, order');
    RunIsLeast(ms, index, edges, order, Run(ms, index, order'));
    RunIsLeast(ms, index, edges, order', Run(ms, index, order));
    SameFactsSameVerdicts(Run(ms, index, order), Run(ms, index, order'));
  }

  // ----- There is only so much to say

  /** A bound on what can ever be said: the facts about known attributes, callees and parameters. */
  datatype Bound = Bound(attrs: set<string>, callees: set<string>, params: set<string>)

  ghost predicate Within(b: Bound, a: string, f: Fact) {
    a in b.attrs && match f
                    case Present => true
                    case Concern(which) => true
                    case Missing(callee) => callee in b.callees
                    case Mutates(param) => param in b.params
  }

  ghost predicate Bounded(ms: seq<CachedModule>, b: Bound) {
    forall i, a, f :: Known(ms, i, a, f) ==> Within(b, a, f)
  }

  ghost function Facts(b: Bound): set<Fact> {
    {Present} + (set x: bool, y: bool, z: bool :: Concern(FunctionSafety(x, y, z)))
    + (set c | c in b.callees :: Missing(c)) + (set p | p in b.params :: Mutates(p))
  }

  /** The facts within the bound that the modules do not say yet. */
  ghost function Unsaid(ms: seq<CachedModule>, b: Bound): set<(int, string, Fact)> {
    set i, a, f | 0 <= i < |ms| && a in b.attrs && f in Facts(b) && !Known(ms, i, a, f) :: (i, a, f)
  }

  lemma InFacts(b: Bound, a: string, f: Fact)
    requires Within(b, a, f)
    ensures f in Facts(b)
  {
    if f.Concern? {
      assert f == Concern(FunctionSafety(f.which.unsafeIfImported, f.which.unsafeMissingDep, f.which.hardUnsafe));
    }
  }

  /** An edge that changes anything leaves less unsaid. */
  lemma ChangeSaysMore(ms: seq<CachedModule>, index: map<string, nat>, e: ReExport, b: Bound)
    requires IsIndex(index, ms) && Bounded(ms, b) && e.exportedAttr in b.attrs
    ensures Bounded(Apply(ms, index, e), b)
    ensures Apply(ms, index, e) != ms ==> Unsaid(Apply(ms, index, e), b) < Unsaid(ms, b)
  {
    ApplyFacts(ms, index, e);
    var ms' := Apply(ms, index, e);
    forall i, a, f | Known(ms', i, a, f)
      ensures Within(b, a, f)
    {
      if !Known(ms, i, a, f) {
        assert Within(b, e.importedAttr, f);
      }
    }
    if ms' != ms {
      var d := index[e.exportedModule];
      var f :| Known(ms, index[e.importedModule], e.importedAttr, f) && !Known(ms, d, e.exportedAttr, f);
      assert Known(ms', d, e.exportedAttr, f);
      InFacts(b, e.exportedAttr, f);
      assert (d, e.exportedAttr, f) in Unsaid(ms, b) && (d, e.exportedAttr, f) !in Unsaid(ms', b);
      assert Unsaid(ms', b) <= Unsaid(ms, b);
    }
  }

  /** Every start is bounded. */
  lemma {:induction false} BoundOf(ms: seq<CachedModule>, edges: seq<ReExport>) returns (b: Bound)
    ensures Bounded(ms, b) && forall i :: 0 <= i < |edges| ==> edges[i].exportedAttr in b.attrs
  {
    b := Bound(
      (set i, n | 0 <= i < |ms| && n in ms[i].functionSafety :: n)
      + (set i | 0 <= i < |edges| :: edges[i].exportedAttr),
      set i, n, c | 0 <= i < |ms| && n in ms[i].functionSafety && c in ms[i].functionSafety[n].missing :: c,
      set i, n, k | 0 <= i < |ms| && n in ms[i].functionSafety && 0 <= k < |ms[i].functionSafety[n].params|
        :: ms[i].functionSafety[n].params[k].name);
  }

  // ----- The worklist

  /** The edges that read from a function. */
  ghost predicate IsDependents(dependents: map<(string, string), seq<nat>>, edges: seq<ReExport>) {
    && (forall k, x :: k in dependents && 0 <= x < |dependents[k]| ==>
          dependents[k][x] < |edges| && Source(edges[dependents[k][x]]) == k)
    && forall j :: 0 <= j < |edges| ==> Source(edges[j]) in dependents && j in dependents[Source(edges[j])]
  }

  function Source(e: ReExport): (string, string) {
    (e.importedModule, e.importedAttr)
  }

  method Dependents(edges: seq<ReExport>) returns (dependents: map<(string, string), seq<nat>>)
    ensures IsDependents(dependents, edges)
  {
    dependents := map[];
    for j: nat := 0 to |edges|
      invariant forall k, x :: k in dependents && 0 <= x < |dependents[k]| ==>
        dependents[k][x] < j && Source(edges[dependents[k][x]]) == k
      invariant forall i :: 0 <= i < j ==> Source(edges[i]) in dependents && i in dependents[Source(edges[i])]
    {
      var key := Source(edges[j]);
      var readers := if key in dependents then dependents[key] else [];
      dependents := dependents[key := readers + [j]];
    }
  }

  /** The worklist holds the queued edges, each once. */
  ghost predicate Queue(worklist: seq<nat>, queued: seq<bool>) {
    && (forall k :: 0 <= k < |worklist| ==> worklist[k] < |queued| && queued[worklist[k]])
    && (forall k, l :: 0 <= k < l < |worklist| ==> worklist[k] != worklist[l])
    && (forall i :: 0 <= i < |queued| && queued[i] ==> i in worklist)
  }

  /** Every edge that is not queued is settled. */
  ghost predicate SettledBut(ms: seq<CachedModule>, index: map<string, nat>, edges: seq<ReExport>, queued: seq<bool>) {
    |queued| == |edges| && forall i :: 0 <= i < |edges| && !queued[i] ==> Includes(ms, index, edges[i])
  }

  /** Following one edge unsettles only edges that read from its destination. */
  lemma OthersStay(ms: seq<CachedModule>, index: map<string, nat>, e: ReExport, other: ReExport)
    requires IsIndex(index, ms)
    requires other == e || (Includes(ms, index, other) && Source(other) != (e.exportedModule, e.exportedAttr))
    requires Source(e) != (e.exportedModule, e.exportedAttr) || other == e
    ensures Includes(Apply(ms, index, e), index, other)
  {
    ApplyFacts(ms, index, e);
  }

  /** Queue the edges of `deps` that are not queued yet. */
  method Enqueue(deps: seq<nat>, worklist: seq<nat>, queued: seq<bool>)
    returns (worklist': seq<nat>, queued': seq<bool>)
    requires Queue(worklist, queued) && forall x :: 0 <= x < |deps| ==> deps[x] < |queued|
    ensures Queue(worklist', queued') && |queued'| == |queued|
    ensures forall i :: 0 <= i < |queued| ==> (queued'[i] <==> queued[i] || i in deps)
  {
    worklist', queued' := worklist, queued;
    for k := 0 to |deps|
      invariant Queue(worklist', queued') && |queued'| == |queued|
      invariant forall i :: 0 <= i < |queued| ==> (queued'[i] <==> queued[i] || i in deps[..k])
    {
      var j := deps[k];
      assert deps[..k + 1] == deps[..k] + [j] && j in deps;
      if !queued'[j] {
        queued' := queued'[j := true];
        worklist' := worklist' + [j];
      }
    }
    assert deps[..|deps|] == deps;
  }

  /** The edge was followed and changed its destination: what is settled now is what does not read from there. */
  lemma StaysSettled(ms: seq<CachedModule>, index: map<string, nat>, edges: seq<ReExport>, i: nat, queued: seq<bool>,
                     dependents: map<(string, string), seq<nat>>, queued': seq<bool>)
    requires IsIndex(index, ms) && i < |edges| && |queued| == |edges| == |queued'| && IsDependents(dependents, edges)
    requires SettledBut(ms, index, edges, queued[i := true])
    requires var dst := (edges[i].exportedModule, edges[i].exportedAttr);
      forall j :: 0 <= j < |edges| ==> (queued'[j] <==> queued[j] || (dst in dependents && j in dependents[dst]))
    requires Apply(ms, index, edges[i]) != ms
    ensures SettledBut(Apply(ms, index, edges[i]), index, edges, queued')
  {
    var e := edges[i];
    ApplyFacts(ms, index, e);
    forall j | 0 <= j < |edges| && !queued'[j]
      ensures Includes(Apply(ms, index, e), index, edges[j])
    {
      OthersStay(ms, index, e, edges[j]);
    }
  }

  /** One turn of the worklist: follow the edge `i` just taken off it, and queue what reads from its destination. */
  method Follow(ms: seq<CachedModule>, index: map<string, nat>, edges: seq<ReExport>, i: nat, worklist: seq<nat>,
                queued: seq<bool>, dependents: map<(string, string), seq<nat>>)
    returns (ms': seq<CachedModule>, worklist': seq<nat>, queued': seq<bool>)
    requires IsIndex(index, ms) && i < |edges| && |queued| == |edges| && IsDependents(dependents, edges)
    requires Queue(worklist, queued) && SettledBut(ms, index, edges, queued[i := true])
    ensures ms' == Apply(ms, index, edges[i])
    ensures Queue(worklist', queued') && SettledBut(ms', index, edges, queued')
    ensures ms' == ms ==> worklist' == worklist
  {
    var changed;
    ms', changed := ApplyEdge(ms, index, edges[i]);
    worklist', queued' := worklist, queued;
    ApplyFacts(ms, index, edges[i]);
    if changed {
      var dst := (edges[i].exportedModule, edges[i].exportedAttr);
      if dst in dependents {
        worklist', queued' := Enqueue(dependents[dst], worklist, queued);
      }
      StaysSettled(ms, index, edges, i, queued, dependents, queued');
    }
  }

  lemma RunNext(start: seq<CachedModule>, index: map<string, nat>, order: seq<ReExport>, e: ReExport)
    requires IsIndex(index, start)
    ensures Run(start, index, order + [e]) == Apply(Run(start, index, order), index, e)
  {
    assert (order + [e])[..|order|] == order;
  }

  /** The last edge on the worklist, taken off it. */
  lemma PopQueue(worklist: seq<nat>, queued: seq<bool>)
    requires Queue(worklist, queued) && worklist != []
    ensures
      var i := worklist[|worklist| - 1];
      && i < |queued| && queued[i := false][i := true] == queued
      && Queue(worklist[..|worklist| - 1], queued[i := false])
  {
  }

  method AllQueued(n: nat) returns (worklist: seq<nat>, queued: seq<bool>)
    ensures Queue(worklist, queued) && queued == seq(n, _ => true)
  {
    queued := seq(n, _ => true);
    worklist := seq(n, (i: nat) => i);
    forall i | 0 <= i < n
      ensures i in worklist
    {
      assert worklist[i] == i;
    }
  }

  /** Follow edges until none is queued. The result is a run over the edges that ends stable. */
  method Propagate(start: seq<CachedModule>, edges: seq<ReExport>)
    returns (ms: seq<CachedModule>, ghost index: map<string, nat>, ghost order: seq<ReExport>)
    ensures IsIndex(index, start) && Among(order, edges)
    ensures ms == Run(start, index, order) && Stable(ms, index, edges)
  {
    var moduleIndex := ModuleIndex(start);
    index, order := moduleIndex, [];
    var dependents := Dependents(edges);
    var worklist, queued := AllQueued(|edges|);
    ms := start;
    ghost var b := BoundOf(ms, edges);
    while worklist != []
      invariant Among(order, edges) && ms == Run(start, index, order) && index == moduleIndex
      invariant Queue(worklist, queued) && SettledBut(ms, index, edges, queued)
      invariant Bounded(ms, b)
      decreases Unsaid(ms, b), |worklist|
    {
      var i := worklist[|worklist| - 1];
      PopQueue(worklist, queued);
      worklist := worklist[..|worklist| - 1];
      queued := queued[i := false];
      ChangeSaysMore(ms, index, edges[i], b);
      RunNext(start, index, order, edges[i]);
      order := order + [edges[i]];
      ms, worklist, queued := Follow(ms, moduleIndex, edges, i, worklist, queued, dependents);
    }
  }

  /** `end` is where a run over the edges leads once no edge would change anything any more. */
  ghost predicate Propagated(start: seq<CachedModule>, end: seq<CachedModule>, edges: seq<ReExport>) {
    exists index, order ::
      IsIndex(index, start) && Among(order, edges) && end == Run(start, index, order) && Stable(end, index, edges)
  }

  /** The record of a library, as far as re-exports go. */
  class LibraryCache {
    var modules: seq<CachedModule>
    var reExports: seq<ReExport>

    constructor (ms: seq<CachedModule>, edges: seq<ReExport>)
      ensures modules == ms && reExports == edges
    {
      modules, reExports := ms, edges;
    }

    /** The modules end as a run over the re-exports leaves them once no re-export would change them. */
    method PropagateReExportSafety()
      modifies this
      ensures reExports == old(reExports)
      ensures Propagated(old(modules), modules, reExports)
    {
      var edges := reExports;
      reExports := [];
      ghost var index, order;
      modules, index, order := Propagate(modules, edges);
      reExports := edges;
    }
  }
}
