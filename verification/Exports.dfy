/**
 What star imports bind: `expand_star_re_exports` of `src/exports.rs`, after the
 rebinding rule of The Python Language Reference, section 7.11.
 */
module Exports {
  import opened Wrappers
  import opened Names
  import opened Sorting

  datatype Attribute = Attribute(module_: string, attr: string)

  function AsModuleName(a: Attribute): string {
    if a.module_ == "" then a.attr else a.module_ + "." + a.attr
  }

  /** `from source import *`; a fallback star sits in an `except` handler. */
  datatype StarImport = StarImport(source: string, start: nat, isFallback: bool)

  datatype Edge = Edge(importer: string, star: StarImport)

  datatype Rank = Rank(isPrimary: bool, offset: nat)

  function RankOf(star: StarImport): Rank {
    Rank(!star.isFallback, star.start)
  }

  /** Any primary star outranks a fallback one, a later star an earlier one. */
  predicate RankLt(a: Rank, b: Rank) {
    (!a.isPrimary && b.isPrimary) || (a.isPrimary == b.isPrimary && a.offset < b.offset)
  }

  /** How a name came to be bound: without a star, or by the star of that rank. */
  datatype Binding = NonStar | Star(rank: Rank)

  type Members = map<Attribute, Binding>
  type ReExportMap = map<Attribute, (Attribute, nat)>

  /** The stars of a program, the declared `__all__` lists, and the modules. */
  datatype Program = Program(edges: seq<Edge>, all: map<string, seq<string>>, graph: set<string>)

  predicate Private(name: string) {
    name != "" && name[0] == '_'
  }

  // ----- What a star offers

  /** The star binds the name: its source lists it, or holds it and declares no list. */
  ghost predicate Provides(star: StarImport, name: string, all: map<string, seq<string>>, keys: set<Attribute>) {
    if star.source in all then name in all[star.source]
    else Attribute(star.source, name) in keys && !Private(name)
  }

  /** A provided name that does not stand for a submodule. */
  ghost predicate Offers(e: Edge, name: string, p: Program, keys: set<Attribute>) {
    Provides(e.star, name, p.all, keys) && AsModuleName(Attribute(e.star.source, name)) !in p.graph
  }

  /** Every name a star offers is bound in its importer. */
  ghost predicate Closed(keys: set<Attribute>, p: Program) {
    forall e, n :: e in p.edges && Offers(e, n, p, keys) ==> Attribute(e.importer, n) in keys
  }

  predicate StarCanReplace(members: Members, key: Attribute, rank: Rank) {
    if key !in members then true
    else match members[key]
         case NonStar => false
         case Star(bound) => RankLt(bound, rank)
  }

  // ----- The state of the expansion

  /** The star behind a binding. */
  ghost predicate BoundBy(key: Attribute, e: Edge, p: Program, members: Members, reExports: ReExportMap) {
    && e in p.edges && e.importer == key.module_ && Offers(e, key.attr, p, members.Keys)
    && key in members && members[key] == Star(RankOf(e.star))
    && key in reExports && reExports[key] == (Attribute(e.star.source, key.attr), e.star.start)
  }

  ghost predicate HasStar(key: Attribute, p: Program, members: Members, reExports: ReExportMap) {
    exists e :: BoundBy(key, e, p, members, reExports)
  }

  /** Bindings without a star stand, every other one is due to a star, and nothing else is re-exported. */
  ghost predicate Justified(seed: set<Attribute>, was: ReExportMap, p: Program, members: Members,
                            reExports: ReExportMap)
  {
    && seed <= members.Keys
    && (forall k :: k in seed ==> members[k] == NonStar)
    && (forall k {:trigger HasStar(k, p, members, reExports)} :: k in members && k !in seed ==>
      HasStar(k, p, members, reExports))
    && (forall k :: k in members && k !in seed ==> k in reExports)
    && (forall k :: k !in members || k in seed ==>
      (k in reExports <==> k in was) && (k in was ==> reExports[k] == was[k]))
  }

  /** The bound names lie in every closed set that holds the seed. */
  ghost predicate Derived(seed: set<Attribute>, p: Program, keys: set<Attribute>) {
    forall closed: set<Attribute> {:trigger Closed(closed, p)} :: seed <= closed && Closed(closed, p) ==> keys <= closed
  }

  lemma OffersGrows(e: Edge, name: string, p: Program, keys: set<Attribute>, more: set<Attribute>)
    requires Offers(e, name, p, keys) && keys <= more
    ensures Offers(e, name, p, more)
  {
  }

  lemma DerivedGrows(seed: set<Attribute>, p: Program, keys: set<Attribute>, e: Edge, name: string)
    requires Derived(seed, p, keys) && e in p.edges && Offers(e, name, p, keys)
    ensures Derived(seed, p, keys + {Attribute(e.importer, name)})
  {
    forall closed: set<Attribute> | seed <= closed && Closed(closed, p)
      ensures keys + {Attribute(e.importer, name)} <= closed
    {
      OffersGrows(e, name, p, keys, closed);
    }
  }

  /** A star rebinds a name: the invariant stays. */
  lemma RebindKeeps(seed: set<Attribute>, was: ReExportMap, p: Program, members: Members, reExports: ReExportMap,
                    e: Edge, name: string)
    requires Justified(seed, was, p, members, reExports)
    requires e in p.edges && Offers(e, name, p, members.Keys)
    requires StarCanReplace(members, Attribute(e.importer, name), RankOf(e.star))
    ensures
      var key := Attribute(e.importer, name);
      Justified(seed, was, p, members[key := Star(RankOf(e.star))],
                reExports[key := (Attribute(e.star.source, name), e.star.start)])
  {
    var key := Attribute(e.importer, name);
    var members', reExports' :=
      members[key := Star(RankOf(e.star))], reExports[key := (Attribute(e.star.source, name), e.star.start)];
    forall k | k in members' && k !in seed
      ensures HasStar(k, p, members', reExports')
    {
      if k == key {
        OffersGrows(e, name, p, members.Keys, members'.Keys);
        assert BoundBy(k, e, p, members', reExports');
      } else {
        assert HasStar(k, p, members, reExports);
        var b :| BoundBy(k, b, p, members, reExports);
        OffersGrows(b, k.attr, p, members.Keys, members'.Keys);
        assert BoundBy(k, b, p, members', reExports');
      }
    }
  }

  // ----- Ranks only rise

  /** The names a star may ever bind. */
  ghost function Universe(seed: set<Attribute>, p: Program): set<Attribute> {
    (set e, k | e in p.edges && k in seed :: Attribute(e.importer, k.attr))
    + (set e, m, n | e in p.edges && m in p.all && n in p.all[m] :: Attribute(e.importer, n)) + seed
  }

  /** The rebindings still possible. */
  ghost function Open(seed: set<Attribute>, p: Program, members: Members): set<(Attribute, Edge)> {
    set k, e | k in Universe(seed, p) && e in p.edges && StarCanReplace(members, k, RankOf(e.star)) :: (k, e)
  }

  lemma UniverseClosed(seed: set<Attribute>, p: Program)
    ensures Closed(Universe(seed, p), p)
  {
    var u := Universe(seed, p);
    forall e, n | e in p.edges && Offers(e, n, p, u)
      ensures Attribute(e.importer, n) in u
    {
      if e.star.source !in p.all {
        var k := Attribute(e.star.source, n);
        assert k in u;
        if k !in seed {
          if s, k' :| s in p.edges && k' in seed && k == Attribute(s.importer, k'.attr) {
            assert Attribute(e.importer, k'.attr) in u;
          } else {
            var s, m, n' :| s in p.edges && m in p.all && n' in p.all[m] && k == Attribute(s.importer, n');
            assert Attribute(e.importer, n') in u;
          }
        }
      }
    }
  }

  /** Each rebinding closes off at least itself. */
  lemma RebindCloses(seed: set<Attribute>, p: Program, members: Members, e: Edge, name: string)
    requires Derived(seed, p, members.Keys)
    requires e in p.edges && Offers(e, name, p, members.Keys)
    requires StarCanReplace(members, Attribute(e.importer, name), RankOf(e.star))
    ensures Open(seed, p, members[Attribute(e.importer, name) := Star(RankOf(e.star))]) < Open(seed, p, members)
  {
    var key := Attribute(e.importer, name);
    var members' := members[key := Star(RankOf(e.star))];
    UniverseClosed(seed, p);
    OffersGrows(e, name, p, members.Keys, Universe(seed, p));
    assert (key, e) in Open(seed, p, members) && (key, e) !in Open(seed, p, members');
    forall k, o | (k, o) in Open(seed, p, members')
      ensures (k, o) in Open(seed, p, members)
    {
    }
  }

  // ----- Passes over the stars

  ghost predicate State(seed: set<Attribute>, was: ReExportMap, p: Program, members: Members, reExports: ReExportMap) {
    Justified(seed, was, p, members, reExports) && Derived(seed, p, members.Keys)
  }

  /** Nothing the star offers among `names` can be rebound any more. */
  ghost predicate QuietOn(e: Edge, names: seq<string>, p: Program, members: Members) {
    forall n :: n in names && AsModuleName(Attribute(e.star.source, n)) !in p.graph ==>
      !StarCanReplace(members, Attribute(e.importer, n), RankOf(e.star))
  }

  ghost predicate Quiet(edges: seq<Edge>, p: Program, members: Members) {
    forall e, n :: e in edges && Offers(e, n, p, members.Keys) ==>
      !StarCanReplace(members, Attribute(e.importer, n), RankOf(e.star))
  }

  method StarBoundNames(star: StarImport, all: map<string, seq<string>>, members: Members) returns (names: seq<string>)
    ensures forall n :: n in names <==> Provides(star, n, all, members.Keys)
  {
    if star.source in all {
      return all[star.source];
    }
    names := [];
    var todo := members.Keys;
    while todo != {}
      invariant todo <= members.Keys
      invariant forall n :: n in names <==> Attribute(star.source, n) in members.Keys - todo && !Private(n)
      decreases todo
    {
      var key :| key in todo;
      todo := todo - {key};
      if key.module_ == star.source && !Private(key.attr) {
        names := names + [key.attr];
      }
    }
  }

  /** Bind the names of one star. */
  method BindNames(e: Edge, names: seq<string>, p: Program, members: Members, reExports: ReExportMap,
                   ghost seed: set<Attribute>, ghost was: ReExportMap)
    returns (members': Members, reExports': ReExportMap, changed: bool)
    requires State(seed, was, p, members, reExports) && e in p.edges
    requires forall n :: n in names ==> Provides(e.star, n, p.all, members.Keys)
    ensures State(seed, was, p, members', reExports')
    ensures if changed then Open(seed, p, members') < Open(seed, p, members)
            else members' == members && reExports' == reExports && QuietOn(e, names, p, members)
  {
    members', reExports', changed := members, reExports, false;
    var rank := RankOf(e.star);
    for i := 0 to |names|
      invariant State(seed, was, p, members', reExports') && members.Keys <= members'.Keys
      invariant if changed then Open(seed, p, members') < Open(seed, p, members)
                else members' == members && reExports' == reExports && QuietOn(e, names[..i], p, members)
    {
      var n := names[i];
      assert names[..i + 1] == names[..i] + [n];
      var key := Attribute(e.importer, n);
      if !StarCanReplace(members', key, rank) {
        continue;
      }
      var imported := Attribute(e.star.source, n);
      if AsModuleName(imported) in p.graph {
        continue;
      }
      assert Offers(e, n, p, members.Keys);
      OffersGrows(e, n, p, members.Keys, members'.Keys);
      RebindKeeps(seed, was, p, members', reExports', e, n);
      RebindCloses(seed, p, members', e, n);
      DerivedGrows(seed, p, members'.Keys, e, n);
      reExports' := reExports'[key := (imported, e.star.start)];
      members' := members'[key := Star(rank)];
      changed := true;
    }
    assert names[..|names|] == names;
  }

  /** Go over all stars once. */
  method Pass(p: Program, members: Members, reExports: ReExportMap, ghost seed: set<Attribute>, ghost was: ReExportMap)
    returns (members': Members, reExports': ReExportMap, changed: bool)
    requires State(seed, was, p, members, reExports)
    ensures State(seed, was, p, members', reExports')
    ensures if changed then Open(seed, p, members') < Open(seed, p, members)
            else members' == members && reExports' == reExports && Quiet(p.edges, p, members)
  {
    members', reExports', changed := members, reExports, false;
    for i := 0 to |p.edges|
      invariant State(seed, was, p, members', reExports')
      invariant if changed then Open(seed, p, members') < Open(seed, p, members)
                else members' == members && reExports' == reExports && Quiet(p.edges[..i], p, members)
    {
      var e := p.edges[i];
      assert p.edges[..i + 1] == p.edges[..i] + [e];
      var names := StarBoundNames(e.star, p.all, members');
      var more;
      members', reExports', more := BindNames(e, names, p, members', reExports', seed, was);
      changed := changed || more;
    }
    assert p.edges[..|p.edges|] == p.edges;
  }

  /** Where the expansion ends: nothing can be rebound. */
  ghost predicate Outcome(seed: set<Attribute>, was: ReExportMap, p: Program, members: Members, reExports: ReExportMap)
  {
    State(seed, was, p, members, reExports) && Quiet(p.edges, p, members)
  }

  /** Pass over the stars until a pass changes nothing. */
  method Expand(p: Program, start: Members, was: ReExportMap) returns (members: Members, reExports: ReExportMap)
    requires forall k :: k in start ==> start[k] == NonStar
    ensures Outcome(start.Keys, was, p, members, reExports)
  {
    members, reExports := start, was;
    while true
      invariant State(start.Keys, was, p, members, reExports)
      decreases Open(start.Keys, p, members)
    {
      var changed;
      members, reExports, changed := Pass(p, members, reExports, start.Keys, was);
      if !changed {
        break;
      }
    }
  }

  // ----- What the outcome means

  /** The bound names are the least set that holds the seed and whatever a star offers. */
  lemma NamesAreLeast(seed: set<Attribute>, was: ReExportMap, p: Program, members: Members, reExports: ReExportMap)
    requires Outcome(seed, was, p, members, reExports)
    ensures seed <= members.Keys && Closed(members.Keys, p)
    ensures forall closed: set<Attribute> :: seed <= closed && Closed(closed, p) ==> members.Keys <= closed
  {
  }

  ghost predicate HighestRank(e: Edge, key: Attribute, p: Program, members: Members) {
    forall o :: o in p.edges && o.importer == key.module_ && Offers(o, key.attr, p, members.Keys) ==>
      !RankLt(RankOf(e.star), RankOf(o.star))
  }

  /** Among the stars of its module that offer a name, one of the highest rank binds it, and a binding without
      a star stands. */
  lemma HighestRankBinds(seed: set<Attribute>, was: ReExportMap, p: Program, members: Members, reExports: ReExportMap,
                         key: Attribute)
    requires Outcome(seed, was, p, members, reExports) && key in members
    ensures key in seed <==> members[key] == NonStar
    ensures key !in seed ==> exists e :: BoundBy(key, e, p, members, reExports) && HighestRank(e, key, p, members)
  {
    if key !in seed {
      assert HasStar(key, p, members, reExports);
      var e :| BoundBy(key, e, p, members, reExports);
      forall o | o in p.edges && o.importer == key.module_ && Offers(o, key.attr, p, members.Keys)
        ensures !RankLt(RankOf(e.star), RankOf(o.star))
      {
        assert key == Attribute(o.importer, key.attr);
        assert !StarCanReplace(members, Attribute(o.importer, key.attr), RankOf(o.star));
      }
    }
  }

  /** What a star offers, told by lists and characters: the names its source lists, or its members that do not
      start with an underscore, except those that name a module. */
  lemma OffersPlainly(e: Edge, name: string, p: Program, keys: set<Attribute>)
    ensures Offers(e, name, p, keys) <==>
      && (e.star.source in p.all ==> name in p.all[e.star.source])
      && (e.star.source !in p.all ==> Attribute(e.star.source, name) in keys && !("_" <= name))
      && (if e.star.source == "" then name else e.star.source + "." + name) !in p.graph
  {
  }

  /** `o` runs no later than `e`, as far as it counts: a fallback star counts less than any other. */
  ghost predicate NoLater(o: StarImport, e: StarImport) {
    (e.isFallback ==> o.isFallback) && (e.isFallback == o.isFallback ==> o.start <= e.start)
  }

  /** A name without a binding of its own is re-exported from the star that offers it and runs last, a fallback one only
      when all that offer it are. */
  lemma LastStarBinds(seed: set<Attribute>, was: ReExportMap, p: Program, members: Members, reExports: ReExportMap,
                      key: Attribute)
    requires Outcome(seed, was, p, members, reExports) && key in members && key !in seed
    ensures exists e ::
      && e in p.edges && e.importer == key.module_ && Offers(e, key.attr, p, members.Keys)
      && key in reExports && reExports[key] == (Attribute(e.star.source, key.attr), e.star.start)
      && forall o :: o in p.edges && o.importer == key.module_ && Offers(o, key.attr, p, members.Keys) ==>
           NoLater(o.star, e.star)
  {
    HighestRankBinds(seed, was, p, members, reExports, key);
    var e :| BoundBy(key, e, p, members, reExports) && HighestRank(e, key, p, members);
    forall o | o in p.edges && o.importer == key.module_ && Offers(o, key.attr, p, members.Keys)
      ensures NoLater(o.star, e.star)
    {
    }
  }

  /** A name that was bound without a star keeps its re-export, or stays without one. */
  lemma OwnBindingStands(seed: set<Attribute>, was: ReExportMap, p: Program, members: Members, reExports: ReExportMap,
                         key: Attribute)
    requires Outcome(seed, was, p, members, reExports) && key in seed
    ensures key in reExports <==> key in was
    ensures key in was ==> reExports[key] == was[key]
  {
  }

  /** No two stars of a module have the same rank. */
  ghost predicate DistinctRanks(edges: seq<Edge>) {
    forall a, b :: a in edges && b in edges && a.importer == b.importer && RankOf(a.star) == RankOf(b.star) ==> a == b
  }

  ghost predicate SameProgram(p: Program, q: Program) {
    p.all == q.all && p.graph == q.graph && forall e :: e in p.edges <==> e in q.edges
  }

  lemma SameClosed(p: Program, q: Program, keys: set<Attribute>)
    requires SameProgram(p, q) && Closed(keys, p)
    ensures Closed(keys, q)
  {
    forall e, n | e in q.edges && Offers(e, n, q, keys)
      ensures Attribute(e.importer, n) in keys
    {
      assert Offers(e, n, p, keys);
    }
  }

  /** The order of the stars does not matter: names and ranks come out the same, and so do the re-exports when no
      two stars of a module share a rank. */
  lemma OrderDoesNotMatter(seed: set<Attribute>, was: ReExportMap, p: Program, q: Program, members: Members,
                           reExports: ReExportMap, members': Members, reExports': ReExportMap)
    requires SameProgram(p, q)
    requires Outcome(seed, was, p, members, reExports) && Outcome(seed, was, q, members', reExports')
    ensures members == members'
    ensures DistinctRanks(p.edges) ==> reExports == reExports'
  {
    NamesAreLeast(seed, was, p, members, reExports);
    NamesAreLeast(seed, was, q, members', reExports');
    SameClosed(q, p, members'.Keys);
    SameClosed(p, q, members.Keys);
    forall k | k in members
      ensures members[k] == members'[k]
    {
      SameBinding(seed, was, p, q, members, reExports, members', reExports', k);
    }
    if DistinctRanks(p.edges) {
      forall k
        ensures k in reExports <==> k in reExports'
        ensures k in reExports ==> reExports[k] == reExports'[k]
      {
        if k in members && k !in seed {
          assert HasStar(k, p, members, reExports) && HasStar(k, q, members', reExports');
          var e :| BoundBy(k, e, p, members, reExports);
          var f :| BoundBy(k, f, q, members', reExports');
          assert e == f;
        }
      }
      assert reExports.Keys == reExports'.Keys;
    }
  }

  lemma SameBinding(seed: set<Attribute>, was: ReExportMap, p: Program, q: Program, members: Members,
                    reExports: ReExportMap, members': Members, reExports': ReExportMap, key: Attribute)
    requires SameProgram(p, q) && members.Keys == members'.Keys && key in members
    requires Outcome(seed, was, p, members, reExports) && Outcome(seed, was, q, members', reExports')
    ensures members[key] == members'[key]
  {
    if key !in seed {
      assert HasStar(key, p, members, reExports);
      var e :| BoundBy(key, e, p, members, reExports);
      assert HasStar(key, q, members', reExports');
      var f :| BoundBy(key, f, q, members', reExports');
      assert Offers(f, key.attr, p, members.Keys) && Offers(e, key.attr, q, members'.Keys);
      assert key == Attribute(key.module_, key.attr);
      assert !StarCanReplace(members, Attribute(f.importer, key.attr), RankOf(f.star));
      assert !StarCanReplace(members', Attribute(e.importer, key.attr), RankOf(e.star));
    }
  }

  // ----- Seeding and the order of the stars

  function JoinDot(module_: string, attr: string): string {
    module_ + "." + attr
  }

  /** The attribute a qualified name stands for, split at its last dot. */
  ghost predicate SplitsLast(name: string, key: Attribute) {
    name == JoinDot(key.module_, key.attr) && '.' !in key.attr
  }

  /** The split is at the last dot of the name. */
  lemma AtLastDot(name: string, key: Attribute)
    requires SplitsLast(name, key)
    ensures |key.module_| < |name| && name[|key.module_|] == '.'
    ensures forall i :: |key.module_| < i < |name| ==> name[i] != '.'
    ensures key.module_ == name[..|key.module_|] && key.attr == name[|key.module_| + 1..]
  {
    forall i | |key.module_| < i < |name|
      ensures name[i] != '.'
    {
      assert name[i] == key.attr[i - |key.module_| - 1];
    }
  }

  lemma SplitLastUnique(name: string, a: Attribute, b: Attribute)
    requires SplitsLast(name, a) && SplitsLast(name, b)
    ensures a == b
  {
    AtLastDot(name, a);
    AtLastDot(name, b);
  }

  lemma NoDotNoSplit(name: string, key: Attribute)
    requires forall i :: 0 <= i < |name| ==> name[i] != '.'
    ensures !SplitsLast(name, key)
  {
    if SplitsLast(name, key) {
      AtLastDot(name, key);
    }
  }

  method RSplitOnce(name: string) returns (key: Option<Attribute>)
    ensures key.Some? ==> SplitsLast(name, key.value)
    ensures key.None? ==> forall k :: !SplitsLast(name, k)
  {
    var pos := RFindDot(name, |name|);
    if pos.None? {
      forall k
        ensures !SplitsLast(name, k)
      {
        NoDotNoSplit(name, k);
      }
      return None;
    }
    assert name == name[..pos.value] + "." + name[pos.value + 1..];
    return Some(Attribute(name[..pos.value], name[pos.value + 1..]));
  }

  /** A relevant module binds the attribute without a star: it is exported or re-exported. */
  ghost predicate BoundWithoutStar(key: Attribute, exports: set<string>, reExports: ReExportMap, relevant: set<string>)
  {
    key.module_ in relevant && ((exists name :: name in exports && SplitsLast(name, key)) || key in reExports)
  }

  method SeedStarMembers(exports: set<string>, reExports: ReExportMap, relevant: set<string>) returns (members: Members)
    ensures forall k :: k in members <==> BoundWithoutStar(k, exports, reExports, relevant)
    ensures forall k :: k in members ==> members[k] == NonStar
  {
    members := map[];
    var names := exports;
    while names != {}
      invariant names <= exports
      invariant forall k :: k in members <==>
        k.module_ in relevant && exists name :: name in exports - names && SplitsLast(name, k)
      invariant forall k :: k in members ==> members[k] == NonStar
      decreases names
    {
      var name :| name in names;
      names := names - {name};
      var key := RSplitOnce(name);
      if key.Some? {
        forall k | SplitsLast(name, k)
          ensures k == key.value
        {
          SplitLastUnique(name, k, key.value);
        }
        if key.value.module_ in relevant {
          members := members[key.value := NonStar];
        }
      }
    }
    assert exports - names == exports;
    var keys := reExports.Keys;
    while keys != {}
      invariant keys <= reExports.Keys
      invariant forall k :: k in members <==> BoundWithoutStar(k, exports, reExports, relevant) && (k in keys ==>
        exists name :: name in exports && SplitsLast(name, k))
      invariant forall k :: k in members ==> members[k] == NonStar
      decreases keys
    {
      var key :| key in keys;
      keys := keys - {key};
      if key.module_ in relevant {
        members := members[key := NonStar];
      }
    }
  }

  predicate ImporterLe(a: Edge, b: Edge) { StringLe(a.importer, b.importer) }
  predicate StartLe(a: Edge, b: Edge) { a.star.start <= b.star.start }
  predicate SourceLe(a: Edge, b: Edge) { StringLe(a.star.source, b.star.source) }

  function EdgeLe(): (Edge, Edge) -> bool {
    Then(ImporterLe, Then(StartLe, SourceLe))
  }

  /** By importer, then by position, then by source. */
  lemma EdgesPlainly(a: Edge, b: Edge)
    ensures EdgeLe()(a, b) <==>
      if a.importer != b.importer then StringLe(a.importer, b.importer)
      else if a.star.start != b.star.start then a.star.start < b.star.start
      else StringLe(a.star.source, b.star.source)
  {
    var rest := Then(StartLe, SourceLe);
    assert rest(a, b) == (StartLe(a, b) && (StartLe(b, a) ==> SourceLe(a, b)));
    assert EdgeLe()(a, b) == (ImporterLe(a, b) && (ImporterLe(b, a) ==> rest(a, b)));
    StringLeIsOrder();
    StringLeTotal(a.importer, b.importer);
  }

  lemma EdgeKeysArePreorders()
    ensures TotalPreorder(ImporterLe) && TotalPreorder(StartLe) && TotalPreorder(SourceLe)
  {
    StringLeIsOrder();
    forall a: Edge, b: Edge
      ensures ImporterLe(a, b) || ImporterLe(b, a)
      ensures SourceLe(a, b) || SourceLe(b, a)
    {
      StringLeTotal(a.importer, b.importer);
      StringLeTotal(a.star.source, b.star.source);
    }
    forall a: Edge, b: Edge, c: Edge
      ensures ImporterLe(a, b) && ImporterLe(b, c) ==> ImporterLe(a, c)
      ensures SourceLe(a, b) && SourceLe(b, c) ==> SourceLe(a, c)
    {
      assert InARow(a.importer, b.importer, c.importer) && InARow(a.star.source, b.star.source, c.star.source);
    }
  }

  lemma EdgeLeIsPreorder()
    ensures TotalPreorder(EdgeLe())
  {
    EdgeKeysArePreorders();
    ThenIsPreorder(StartLe, SourceLe);
    ThenIsPreorder(ImporterLe, Then(StartLe, SourceLe));
  }

  ghost predicate IsEdge(e: Edge, stars: map<string, seq<StarImport>>) {
    e.importer in stars && e.star in stars[e.importer]
  }

  /** The stars of all modules in one list, ordered by module and position. */
  method StarEdges(stars: map<string, seq<StarImport>>) returns (edges: seq<Edge>)
    ensures forall e :: e in edges <==> IsEdge(e, stars)
    ensures Sorted(edges, EdgeLe())
  {
    edges := [];
    var todo := stars.Keys;
    while todo != {}
      invariant todo <= stars.Keys
      invariant forall e :: e in edges <==> IsEdge(e, stars) && e.importer !in todo
      decreases todo
    {
      var m :| m in todo;
      todo := todo - {m};
      var more := seq(|stars[m]|, i requires 0 <= i < |stars[m]| => Edge(m, stars[m][i]));
      forall e: Edge
        ensures e in more <==> e.importer == m && e.star in stars[m]
      {
        if e.importer == m && e.star in stars[m] {
          var i :| 0 <= i < |stars[m]| && stars[m][i] == e.star;
          assert more[i] == e;
        }
      }
      edges := edges + more;
    }
    SameElements(Sort(edges, EdgeLe()), edges);
    EdgeLeIsPreorder();
    SortSorts(edges, EdgeLe());
    edges := Sort(edges, EdgeLe());
  }

  /** The modules a star touches. */
  ghost function Relevant(edges: seq<Edge>): set<string> {
    (set e | e in edges :: e.importer) + (set e | e in edges :: e.star.source)
  }

  /** What the expansion does to the re-exports of a program. */
  ghost predicate Expanded(stars: map<string, seq<StarImport>>, exports: set<string>, all: map<string, seq<string>>,
                           graph: set<string>, was: ReExportMap, reExports: ReExportMap)
  {
    exists p: Program, start: Members, members ::
      && p.all == all && p.graph == graph
      && (forall e :: e in p.edges <==> IsEdge(e, stars)) && Sorted(p.edges, EdgeLe())
      && (forall k :: k in start <==> BoundWithoutStar(k, exports, was, Relevant(p.edges)))
      && Outcome(start.Keys, was, p, members, reExports)
  }

  /** The exports of all modules of a program. */
  class Exports {
    const exports: set<string>
    const all: map<string, seq<string>>
    const starImports: map<string, seq<StarImport>>
    var reExports: ReExportMap

    constructor (exports: set<string>, all: map<string, seq<string>>, starImports: map<string, seq<StarImport>>,
                 reExports: ReExportMap)
      ensures this.exports == exports && this.all == all && this.starImports == starImports
              && this.reExports == reExports
    {
      this.exports, this.all, this.starImports, this.reExports := exports, all, starImports, reExports;
    }

    method ExpandStarReExports(graph: set<string>)
      modifies this
      ensures if starImports.Keys == {} then reExports == old(reExports)
              else Expanded(starImports, exports, all, graph, old(reExports), reExports)
    {
      if starImports.Keys == {} {
        return;
      }
      var edges := StarEdges(starImports);
      var relevant := (set e | e in edges :: e.importer) + (set e | e in edges :: e.star.source);
      var start := SeedStarMembers(exports, reExports, relevant);
      ghost var was := reExports;
      var p := Program(edges, all, graph);
      var members;
      members, reExports := Expand(p, start, reExports);
      assert Outcome(start.Keys, was, p, members, reExports);
    }
  }

  // ----- Following re-exports

  /** The attribute reached after k re-exports, if there are that many. */
  ghost function Follow(lookup: map<Attribute, Attribute>, start: Attribute, k: nat): Option<Attribute> {
    if k == 0 then Some(start)
    else
      var before := Follow(lookup, start, k - 1);
      if before.Some? && before.value in lookup then Some(lookup[before.value]) else None
  }

  /** Chains that stay among re-exported attributes never end. */
  lemma {:induction false} NeverEnds(lookup: map<Attribute, Attribute>, start: Attribute, within: set<Attribute>,
                                     k: nat)
    requires start in within && forall a :: a in within ==> a in lookup && lookup[a] in within
    ensures Follow(lookup, start, k).Some? && Follow(lookup, start, k).value in within
  {
    if k > 0 {
      NeverEnds(lookup, start, within, k - 1);
    }
  }

  /** Follow re-exports to the attribute that is none; the chain has no end exactly when it runs into a cycle. */
  method ResolveChain(start: Attribute, lookup: map<Attribute, Attribute>) returns (end: Option<Attribute>)
    ensures end.Some? ==> end.value !in lookup && exists k :: Follow(lookup, start, k) == end
    ensures end.None? ==> forall k :: Follow(lookup, start, k).Some? && Follow(lookup, start, k).value in lookup
  {
    var current := start;
    var seen: set<Attribute> := {};
    ghost var steps: nat := 0;
    while current in lookup
      invariant Follow(lookup, start, steps) == Some(current)
      invariant seen <= lookup.Keys && start in seen + {current}
      invariant forall a :: a in seen ==> lookup[a] in seen + {current}
      invariant current in seen ==> lookup[current] in seen
      decreases lookup.Keys - seen, current !in seen
    {
      var next := lookup[current];
      if next in seen {
        forall k: nat
          ensures Follow(lookup, start, k).Some? && Follow(lookup, start, k).value in lookup
        {
          NeverEnds(lookup, start, seen + {current}, k);
        }
        return None;
      }
      seen := seen + {current};
      current := next;
      steps := steps + 1;
    }
    return Some(current);
  }
}
