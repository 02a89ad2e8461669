/** Packages an import runs first: `ImportGraph::implicit_parent_imports` of `src/imports.rs`. */
module Imports {
  import opened Wrappers
  import opened Names
  import opened Sequences

  /** p is a package that importing one of `targets` runs before the target itself. */
  ghost predicate ParentOfSome(p: string, targets: seq<string>) {
    exists t :: t in targets && IsParent(p, t)
  }

  /** p is a module of the graph that `from` did not run already. */
  ghost predicate Counts(p: string, from: string, nodes: set<string>) {
    p in nodes && p != from && !IsParent(p, from)
  }

  /** Whoever has seen a name has seen its parents. */
  ghost predicate ParentClosed(seen: set<string>) {
    forall p, q :: p in seen && IsParent(q, p) ==> q in seen
  }

  ghost predicate Collected(parents: seq<string>, seen: set<string>, from: string, nodes: set<string>) {
    && (forall i, j :: 0 <= i < j < |parents| ==> parents[i] != parents[j])
    && (forall p :: p in parents <==> p in seen && Counts(p, from, nodes))
  }

  /** The longest parent before `end` comes first. */
  lemma {:induction false} ParentOrder(name: string, end: nat)
    requires end <= |name| && ParentsBefore(name, end) != []
    ensures
      var first := ParentsBefore(name, end)[0];
      && IsParent(first, name) && |first| < end
      && forall p :: IsParent(p, name) && |p| < end ==> |p| <= |first|
  {
    if name[end - 1] != '.' {
      ParentOrder(name, end - 1);
    } else {
      assert ParentsBefore(name, end)[0] == name[..end - 1];
    }
  }

  /** A set closed under parents that holds one parent of the target holds all shorter ones: stopping early
      skips nothing. */
  lemma SeenRest(target: string, parent: string, seen: set<string>)
    requires ParentClosed(seen) && parent in seen && IsParent(parent, target)
    ensures forall p :: IsParent(p, target) && |p| <= |parent| ==> p in seen
  {
    forall p | IsParent(p, target) && |p| <= |parent|
      ensures p in seen
    {
      if |p| < |parent| {
        ParentsChain(p, parent, target);
      } else {
        assert p == parent;
      }
    }
  }

  lemma ParentsStayClosed(seen: set<string>, seen': set<string>, target: string)
    requires ParentClosed(seen) && forall p :: p in seen' <==> p in seen || IsParent(p, target)
    ensures ParentClosed(seen')
  {
    forall p, q | p in seen' && IsParent(q, p)
      ensures q in seen'
    {
      if IsParent(p, target) {
        ParentsNest(q, p, target);
      }
    }
  }

  /** Walk the parents of one target, stopping at the first that was seen before. */
  method WalkParents(target: string, from: string, nodes: set<string>, seen: set<string>, parents: seq<string>)
    returns (seen': set<string>, parents': seq<string>)
    requires ParentClosed(seen) && Collected(parents, seen, from, nodes)
    ensures ParentClosed(seen') && Collected(parents', seen', from, nodes)
    ensures forall p :: p in seen' <==> p in seen || IsParent(p, target)
  {
    seen', parents' := seen, parents;
    var iter := new ParentIter(target);
    while true
      invariant iter.Valid() && iter.s == target
      invariant forall p :: p in seen' <==> p in seen || (IsParent(p, target) && |p| >= iter.end)
      invariant Collected(parents', seen', from, nodes)
      decreases iter.end
    {
      ghost var end := iter.end;
      var next := iter.Next();
      if next.None? {
        assert forall p :: IsParent(p, target) && |p| < end ==> p in ParentsBefore(target, end);
        break;
      }
      var parent := next.value;
      ParentOrder(target, end);
      if parent in seen' {
        SeenRest(target, parent, seen);
        break;
      }
      seen' := seen' + {parent};
      if parent in nodes && parent != from && !IsAncestorOf(parent, from) {
        parents' := parents' + [parent];
      }
    }
    ParentsStayClosed(seen, seen', target);
  }

  /** The packages that importing `targets` runs first, each once. */
  method ParentsOfTargets(from: string, targets: seq<string>, nodes: set<string>) returns (parents: seq<string>)
    ensures forall i, j :: 0 <= i < j < |parents| ==> parents[i] != parents[j]
    ensures forall p :: p in parents <==> ParentOfSome(p, targets) && Counts(p, from, nodes)
  {
    var seen: set<string> := {};
    parents := [];
    for k := 0 to |targets|
      invariant ParentClosed(seen) && Collected(parents, seen, from, nodes)
      invariant forall p :: p in seen <==> ParentOfSome(p, targets[..k])
    {
      assert targets[..k + 1] == targets[..k] + [targets[k]];
      seen, parents := WalkParents(targets[k], from, nodes, seen, parents);
    }
    assert targets[..|targets|] == targets;
  }

  /** Per importing module the packages its imports run first; modules without any are left out. */
  method ImplicitParentImports(imports: map<string, seq<string>>) returns (implicit: map<string, seq<string>>)
    ensures forall from :: from in implicit ==> from in imports && implicit[from] != []
    ensures forall from, i, j :: from in implicit && 0 <= i < j < |implicit[from]| ==>
      implicit[from][i] != implicit[from][j]
    ensures forall from, p :: from in imports ==>
      ((from in implicit && p in implicit[from]) <==> ParentOfSome(p, imports[from]) && Counts(p, from, imports.Keys))
  {
    implicit := map[];
    var todo := imports.Keys;
    while todo != {}
      invariant todo <= imports.Keys
      invariant forall from :: from in implicit ==> from in imports && from !in todo && implicit[from] != []
      invariant forall from, i, j :: from in implicit && 0 <= i < j < |implicit[from]| ==>
        implicit[from][i] != implicit[from][j]
      invariant forall from, p :: from in imports && from !in todo ==>
        ((from in implicit && p in implicit[from]) <==> ParentOfSome(p, imports[from]) && Counts(p, from, imports.Keys))
      decreases todo
    {
      var from :| from in todo;
      var parents := ParentsOfTargets(from, imports[from], imports.Keys);
      if parents != [] {
        implicit := implicit[from := parents];
      }
      todo := todo - {from};
    }
  }

  // ----- The nearest known module

  /** The name itself when it is known, else its longest known parent. */
  function ResolveToKnownModule(name: string, known: set<string>): (r: Option<string>)
    ensures name in known ==> r == Some(name)
    ensures name !in known && r.Some? ==>
      IsParent(r.value, name) && r.value in known && forall p :: IsParent(p, name) && p in known ==> |p| <= |r.value|
    ensures r.None? ==> name !in known && Unqualified(name, known)
  {
    if name in known then Some(name)
    else
      match EnclosingModule(name, known)
      case None => None
      case Some(split) => Some(split.0)
  }

  // ----- The modules an analysis reaches

  /** What parsing a module gives: nothing to read, an error, or the names it imports. */
  datatype Parse = Skipped | Unparseable | Parsed(imports: seq<string>)

  /** The sources with the nodes of the graph and the children of stub packages, which need no import. */
  datatype Sources = Sources(parses: map<string, Parse>, stubChildren: map<string, seq<string>>, nodes: set<string>)

  ghost predicate Leads(s: Sources, m: string, n: string) {
    && n in s.nodes && m in s.parses && s.parses[m].Parsed?
    && (n in s.parses[m].imports || (m in s.stubChildren && n in s.stubChildren[m]))
  }

  ghost predicate LeadsNowhereElse(s: Sources, from: set<string>, within: set<string>) {
    forall m, n {:trigger Leads(s, m, n)} :: m in from && Leads(s, m, n) ==> n in within
  }

  /** Whatever is reached lies in every set that holds the seeds and leads nowhere else. */
  ghost predicate OnlyReachable(s: Sources, seeds: seq<string>, reached: set<string>) {
    forall y: set<string> {:trigger LeadsNowhereElse(s, y, y)} ::
      (forall x :: x in seeds ==> x in y) && LeadsNowhereElse(s, y, y) ==> reached <= y
  }

  /** The list holds the members of `of` that were parsed, or those that could not be, each once. */
  ghost predicate Lists(s: Sources, list: seq<string>, of: set<string>, parsed: bool) {
    && NoDup(list)
    && forall m :: m in list <==>
      m in of && m in s.parses && (if parsed then s.parses[m].Parsed? else s.parses[m].Unparseable?)
  }

  /** Add the new names a module leads to, to what is reached and to the next round. */
  method Discover(s: Sources, m: string, names: seq<string>, reached: set<string>, ghost seeds: seq<string>)
    returns (reached': set<string>, found: seq<string>)
    requires m in reached && OnlyReachable(s, seeds, reached)
    requires forall n {:trigger Leads(s, m, n)} :: Leads(s, m, n) <==> n in names && n in s.nodes
    ensures reached <= reached' <= reached + s.nodes && OnlyReachable(s, seeds, reached')
    ensures forall n {:trigger Leads(s, m, n)} :: Leads(s, m, n) ==> n in reached'
    ensures NoDup(found) && forall x :: x in found <==> x in reached' && x !in reached
  {
    reached', found := reached, [];
    for i := 0 to |names|
      invariant reached <= reached' <= reached + s.nodes && OnlyReachable(s, seeds, reached')
      invariant forall k :: 0 <= k < i && names[k] in s.nodes ==> names[k] in reached'
      invariant NoDup(found) && forall x :: x in found <==> x in reached' && x !in reached
    {
      var n := names[i];
      if n in s.nodes && n !in reached' {
        ReachesMore(s, seeds, reached', m, n);
        reached', found := reached' + {n}, found + [n];
      }
    }
  }

  lemma ReachesMore(s: Sources, seeds: seq<string>, reached: set<string>, m: string, n: string)
    requires OnlyReachable(s, seeds, reached) && m in reached && Leads(s, m, n)
    ensures OnlyReachable(s, seeds, reached + {n})
  {
  }

  /** What was read, what waits, and what was reached: the first two make up the third. */
  ghost predicate Frontier(s: Sources, seeds: seq<string>, done: set<string>, waiting: seq<string>,
                           reached: set<string>)
  {
    && NoDup(waiting) && (forall x :: x in reached <==> x in done || x in waiting)
    && (forall x :: x in waiting ==> x !in done)
    && LeadsNowhereElse(s, done, reached) && OnlyReachable(s, seeds, reached)
  }

  /** The first that waits is done; what it leads to and was not reached waits behind the others. */
  lemma Advance(s: Sources, seeds: seq<string>, done: set<string>, m: string, waiting: seq<string>, found: seq<string>,
                reached: set<string>, reached': set<string>)
    requires Frontier(s, seeds, done, [m] + waiting, reached) && reached <= reached'
             && OnlyReachable(s, seeds, reached')
    requires NoDup(found) && forall x :: x in found <==> x in reached' && x !in reached
    requires forall n {:trigger Leads(s, m, n)} :: Leads(s, m, n) ==> n in reached'
    ensures Frontier(s, seeds, done + {m}, waiting + found, reached')
  {
    var all := [m] + waiting;
    assert all[0] == m;
    forall i | 0 <= i < |waiting|
      ensures waiting[i] != m && waiting[i] in reached && waiting[i] !in done
    {
      assert all[i + 1] == waiting[i];
    }
    assert forall x :: x in all <==> x == m || x in waiting;
    forall i, j | 0 <= i < j < |waiting|
      ensures waiting[i] != waiting[j]
    {
      assert all[i + 1] == waiting[i] && all[j + 1] == waiting[j];
    }
    forall i, j | 0 <= i < j < |waiting + found|
      ensures (waiting + found)[i] != (waiting + found)[j]
    {
      if i < |waiting| <= j {
        assert found[j - |waiting|] in found && waiting[i] in reached;
      }
    }
  }

  lemma ListsMore(s: Sources, list: seq<string>, of: set<string>, m: string, parsed: bool)
    requires Lists(s, list, of, parsed) && m !in of
    ensures
      var fits := m in s.parses && if parsed then s.parses[m].Parsed? else s.parses[m].Unparseable?;
      Lists(s, if fits then list + [m] else list, of + {m}, parsed)
  {
  }

  lemma FirstWaits(s: Sources, seeds: seq<string>, done: set<string>, m: string, waiting: seq<string>,
                   reached: set<string>)
    requires Frontier(s, seeds, done, [m] + waiting, reached)
    ensures m in reached && m !in done && OnlyReachable(s, seeds, reached)
  {
    assert ([m] + waiting)[0] == m;
  }

  /** The new names one module leads to. */
  method Follow(s: Sources, m: string, reached: set<string>, ghost seeds: seq<string>)
    returns (reached': set<string>, found: seq<string>)
    requires m in reached && OnlyReachable(s, seeds, reached)
    ensures reached <= reached' <= reached + s.nodes && OnlyReachable(s, seeds, reached')
    ensures forall n {:trigger Leads(s, m, n)} :: Leads(s, m, n) ==> n in reached'
    ensures NoDup(found) && forall x :: x in found <==> x in reached' && x !in reached
  {
    reached', found := reached, [];
    if m in s.parses && s.parses[m].Parsed? {
      var names := s.parses[m].imports + if m in s.stubChildren then s.stubChildren[m] else [];
      reached', found := Discover(s, m, names, reached, seeds);
    }
  }

  /** Read one module that waits, and let what it leads to wait behind the others. */
  method ReadModule(s: Sources, m: string, reached: set<string>, successes: seq<string>, unparseable: seq<string>,
                    ghost waiting: seq<string>, ghost seeds: seq<string>, ghost done: set<string>)
    returns (found: seq<string>, reached': set<string>, successes': seq<string>, unparseable': seq<string>)
    requires Frontier(s, seeds, done, [m] + waiting, reached)
    requires Lists(s, successes, done, true) && Lists(s, unparseable, done, false)
    ensures Frontier(s, seeds, done + {m}, waiting + found, reached') && reached <= reached' <= reached + s.nodes
    ensures Lists(s, successes', done + {m}, true) && Lists(s, unparseable', done + {m}, false)
  {
    FirstWaits(s, seeds, done, m, waiting, reached);
    reached', found := Follow(s, m, reached, seeds);
    Advance(s, seeds, done, m, waiting, found, reached, reached');
    successes', unparseable' := Record(s, m, successes, unparseable, done);
  }

  method Record(s: Sources, m: string, successes: seq<string>, unparseable: seq<string>, ghost done: set<string>)
    returns (successes': seq<string>, unparseable': seq<string>)
    requires m !in done && Lists(s, successes, done, true) && Lists(s, unparseable, done, false)
    ensures Lists(s, successes', done + {m}, true) && Lists(s, unparseable', done + {m}, false)
  {
    successes', unparseable' := successes, unparseable;
    ListsMore(s, successes, done, m, true);
    ListsMore(s, unparseable, done, m, false);
    if m in s.parses && s.parses[m].Parsed? {
      successes' := successes + [m];
    } else if m in s.parses && s.parses[m].Unparseable? {
      unparseable' := unparseable + [m];
    }
  }

  /** The seeds, each once. */
  method FirstRound(seeds: seq<string>) returns (frontier: seq<string>, reached: set<string>)
    ensures (forall x :: x in reached <==> x in seeds) && (forall x :: x in frontier <==> x in reached)
            && NoDup(frontier)
  {
    reached, frontier := {}, [];
    for i := 0 to |seeds|
      invariant forall x :: x in reached <==> x in seeds[..i]
      invariant (forall x :: x in frontier <==> x in reached) && NoDup(frontier)
    {
      assert seeds[..i + 1] == seeds[..i] + [seeds[i]];
      if seeds[i] !in reached {
        reached, frontier := reached + {seeds[i]}, frontier + [seeds[i]];
      }
    }
    assert seeds[..|seeds|] == seeds;
  }

  /** Read all modules of a round; what they lead to makes up the next. */
  method ReadRound(s: Sources, frontier: seq<string>, reached: set<string>, successes: seq<string>,
                   unparseable: seq<string>, ghost seeds: seq<string>, ghost done: set<string>)
    returns (next: seq<string>, reached': set<string>, successes': seq<string>, unparseable': seq<string>,
             ghost done': set<string>)
    requires Frontier(s, seeds, done, frontier, reached)
    requires Lists(s, successes, done, true) && Lists(s, unparseable, done, false)
    ensures Frontier(s, seeds, done', next, reached') && reached <= reached' <= reached + s.nodes
    ensures Lists(s, successes', done', true) && Lists(s, unparseable', done', false)
    ensures done <= done' && forall k :: 0 <= k < |frontier| ==> frontier[k] in done'
  {
    reached', successes', unparseable', done' := reached, successes, unparseable, done;
    next := [];
    assert frontier[0..] + next == frontier;
    for k := 0 to |frontier|
      invariant Frontier(s, seeds, done', frontier[k..] + next, reached') && reached <= reached' <= reached + s.nodes
      invariant Lists(s, successes', done', true) && Lists(s, unparseable', done', false)
      invariant done <= done' && forall j :: 0 <= j < k ==> frontier[j] in done'
    {
      assert frontier[k..] + next == [frontier[k]] + (frontier[k + 1..] + next);
      var found;
      found, reached', successes', unparseable' :=
        ReadModule(s, frontier[k], reached', successes', unparseable', frontier[k + 1..] + next, seeds, done');
      assert frontier[k + 1..] + (next + found) == frontier[k + 1..] + next + found;
      next := next + found;
      done' := done' + {frontier[k]};
    }
    assert frontier[|frontier|..] + next == next;
  }

  /** Everything the seeds lead to, round by round; each module is read once. */
  method CollectImports(s: Sources, seeds: seq<string>)
    returns (reached: set<string>, successes: seq<string>, unparseable: seq<string>)
    ensures (forall x :: x in seeds ==> x in reached) && LeadsNowhereElse(s, reached, reached)
    ensures OnlyReachable(s, seeds, reached)
    ensures Lists(s, successes, reached, true) && Lists(s, unparseable, reached, false)
  {
    var frontier;
    frontier, reached := FirstRound(seeds);
    successes, unparseable := [], [];
    ghost var done: set<string>, universe := {}, reached + s.nodes;
    while frontier != []
      invariant Frontier(s, seeds, done, frontier, reached) && reached <= universe
      invariant forall x :: x in seeds ==> x in reached
      invariant Lists(s, successes, done, true) && Lists(s, unparseable, done, false)
      decreases universe - done
    {
      ghost var first := frontier[0];
      assert first in frontier && first in universe - done;
      frontier, reached, successes, unparseable, done :=
        ReadRound(s, frontier, reached, successes, unparseable, seeds, done);
    }
    assert reached == done;
  }
}
