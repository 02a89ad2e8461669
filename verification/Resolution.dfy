/** Settling mutation candidates against merged verdicts: `apply_mutation_candidates` of `src/resolution.rs`. */
module Resolution {
  import opened Wrappers
  import opened Names
  import opened Effects
  import opened Safety

  const CONSTRUCTOR_METHODS: seq<string> := ["__new__", "__init__", "__post_init__"]

  lemma ThreeMethods()
    ensures forall m :: m in CONSTRUCTOR_METHODS <==> m == "__new__" || m == "__init__" || m == "__post_init__"
  {
    var a, b, c := "__new__", "__init__", "__post_init__";
    assert CONSTRUCTOR_METHODS == [a, b, c];
  }

  lemma AnyOfThree(methods: seq<string>, hits: string -> bool, a: string, b: string, c: string)
    requires forall m :: m in methods <==> m == a || m == b || m == c
    ensures (exists m :: m in methods && hits(m)) <==> hits(a) || hits(b) || hits(c)
  {
    assert a in methods && b in methods && c in methods;
  }

  /** A function: its module and its name within the module. */
  datatype Key = Key(module_: string, name: string)

  /** The merged verdicts of all functions. */
  type Table = map<Key, Info>

  datatype Site = ModuleScope(call: string) | Function(name: string)

  /** A call that passes imported objects to a callee its own library could not resolve. */
  datatype Candidate = Candidate(callee: string, argOffset: nat, importedArgs: ImportedArgs, site: Site, range: nat,
                                 fromMainGuard: bool)

  /** A candidate with the module it occurs in. */
  datatype Pair = Pair(module_: string, candidate: Candidate)

  datatype Emitted = Emitted(module_: string, metadata: string, range: nat)

  // ----- Looking names up

  /** The function a qualified name stands for: it belongs to the longest prefix that is a module. */
  function SplitKey(name: string, modules: set<string>): Option<Key> {
    match EnclosingModule(name, modules)
    case None => None
    case Some(split) => Some(Key(split.0, split.1))
  }

  /** What the table holds for a qualified name. */
  function LookupCallee(name: string, modules: set<string>, table: Table): Option<Info> {
    match SplitKey(name, modules)
    case None => None
    case Some(key) => if key in table then Some(table[key]) else None
  }

  /** The entry a constructor method of the class (or module) `callee` is held under. */
  function ConstructorKey(callee: string, constructor_: string, modules: set<string>): Option<Key> {
    if callee in modules then Some(Key(callee, constructor_))
    else
      match EnclosingModule(callee, modules)
      case None => None
      case Some(split) => Some(Key(split.0, if split.1 == "" then constructor_ else split.1 + "." + constructor_))
  }

  // ----- Which candidates are confirmed or discharged

  function Positions(params: seq<MutatedParam>): seq<(string, ParamPosition)> {
    seq(|params|, i requires 0 <= i < |params| => (params[i].name, params[i].position))
  }

  predicate Hit(key: Option<Key>, argOffset: nat, args: ImportedArgs, table: Table) {
    key.Some? && key.value in table && args.HitsAnyParam(Positions(table[key.value].params), argOffset)
  }

  /** An imported argument may reach a parameter mutated by the callee or by one of its constructor methods. */
  ghost predicate MutatesImported(c: Candidate, modules: set<string>, table: Table) {
    || Hit(SplitKey(c.callee, modules), c.argOffset, c.importedArgs, table)
    || HitsConstructor(c, modules, table)
  }

  ghost predicate HitsConstructor(c: Candidate, modules: set<string>, table: Table) {
    exists m :: m in CONSTRUCTOR_METHODS
      && Hit(ConstructorKey(c.callee, m, modules), c.argOffset + 1, c.importedArgs, table)
  }

  function Local(prefix: string, name: string): string {
    if prefix == "" then name else prefix + "." + name
  }

  /** Probe the constructor methods of the class at `module_` and `prefix`. */
  method ConstructorMutates(c: Candidate, modules: set<string>, table: Table, module_: string, prefix: string)
    returns (mutates: bool)
    requires if c.callee in modules then module_ == c.callee && prefix == ""
             else EnclosingModule(c.callee, modules) == Some((module_, prefix))
    ensures mutates == HitsConstructor(c, modules, table)
  {
    for i := 0 to |CONSTRUCTOR_METHODS|
      invariant forall k :: 0 <= k < i ==>
        !Hit(ConstructorKey(c.callee, CONSTRUCTOR_METHODS[k], modules), c.argOffset + 1, c.importedArgs, table)
    {
      var method_ := CONSTRUCTOR_METHODS[i];
      assert method_ in CONSTRUCTOR_METHODS;
      assert ConstructorKey(c.callee, method_, modules) == Some(Key(module_, Local(prefix, method_)));
      if Hit(Some(Key(module_, Local(prefix, method_))), c.argOffset + 1, c.importedArgs, table) {
        return true;
      }
    }
    return false;
  }

  /** Neither the callee nor a constructor is found for a name that is no module and has none. */
  lemma NoConstructors(c: Candidate, modules: set<string>, table: Table)
    requires EnclosingModule(c.callee, modules).None? && c.callee !in modules
    ensures !MutatesImported(c, modules, table)
  {
    assert forall m :: ConstructorKey(c.callee, m, modules) == None;
  }

  method CandidateMutates(c: Candidate, modules: set<string>, table: Table) returns (mutates: bool)
    ensures mutates == MutatesImported(c, modules, table)
  {
    var own := EnclosingModuleStr(c.callee, modules);
    if own.None? && c.callee !in modules {
      NoConstructors(c, modules, table);
      return false;
    }
    var key := if own.Some? then Some(Key(own.value.0, own.value.1)) else None;
    if Hit(key, c.argOffset, c.importedArgs, table) {
      return true;
    }
    var (ctorModule, ctorPrefix) := if c.callee in modules then (c.callee, "") else own.value;
    mutates := ConstructorMutates(c, modules, table, ctorModule, ctorPrefix);
  }

  /** A resolved callee that is not verified safe keeps blocking its caller; an unresolved one does not. */
  predicate CalleeResolvesUnsafe(callee: string, modules: set<string>, table: Table) {
    var info := LookupCallee(callee, modules, table);
    info.Some? && !info.value.verdict.IsSafe()
  }

  /** The function a candidate is charged to, if it does not sit at module scope. */
  function Charged(pair: Pair): Option<Key> {
    if pair.candidate.site.Function? then Some(Key(pair.module_, pair.candidate.site.name)) else None
  }

  /** The callees of the candidates of `pairs[..]` that are flagged and charged to `key`. */
  ghost function Settled(pairs: seq<Pair>, flags: seq<bool>, key: Key): set<string>
    requires |flags| == |pairs|
  {
    set i | 0 <= i < |pairs| && flags[i] && Charged(pairs[i]) == Some(key) :: pairs[i].candidate.callee
  }

  // ----- What one candidate does to its function

  /** The function after all of `callees` were dropped from what it waits for. */
  ghost function Dropped(info: Info, callees: set<string>): Info {
    if callees == {} then info
    else
      var missing := info.missing - callees;
      Info(if missing == {} then info.verdict.Without(UNSAFE_MISSING_DEP) else info.verdict, missing, info.params)
  }

  /** The function after candidates with these callees were confirmed against it. */
  ghost function Confirmed(info: Info, callees: set<string>): Info {
    if callees == {} then info else Dropped(info.(verdict := info.verdict.Insert(UNSAFE)), callees)
  }

  method ApplyConfirmed(pair: Pair, table: Table, errors: seq<Emitted>) returns (table': Table, errors': seq<Emitted>)
    ensures table'.Keys == table.Keys
    ensures forall key :: key in table ==>
      table'[key] == if Charged(pair) == Some(key) then Confirmed(table[key], {pair.candidate.callee}) else table[key]
    ensures errors' == errors + Emission(pair)
  {
    table', errors' := table, errors;
    match pair.candidate.site
    case ModuleScope(call) =>
      errors' := errors + [Emitted(pair.module_, call, pair.candidate.range)];
    case Function(name) =>
      var key := Key(pair.module_, name);
      if key in table {
        var info := table[key];
        info := info.(verdict := info.verdict.Insert(UNSAFE), missing := info.missing - {pair.candidate.callee});
        if info.missing == {} {
          info := info.(verdict := info.verdict.Without(UNSAFE_MISSING_DEP));
        }
        table' := table[key := info];
      }
  }

  method DischargeCandidate(pair: Pair, table: Table) returns (table': Table)
    ensures table'.Keys == table.Keys
    ensures forall key :: key in table ==>
      table'[key] == if Charged(pair) == Some(key) then Dropped(table[key], {pair.candidate.callee}) else table[key]
  {
    table' := table;
    if pair.candidate.site.ModuleScope? {
      return;
    }
    var key := Key(pair.module_, pair.candidate.site.name);
    if key !in table {
      return;
    }
    var info := table[key];
    info := info.(missing := info.missing - {pair.candidate.callee});
    table' := table[key := info];
    if !info.verdict.Has(UNSAFE_MISSING_DEP) || info.missing != {} {
      return;
    }
    table' := table[key := info.(verdict := info.verdict.Without(UNSAFE_MISSING_DEP))];
  }

  // ----- The two phases

  /** `MutatesImported` on one table, as a function of the candidate alone. */
  ghost function Mutation(modules: set<string>, table: Table): Candidate -> bool {
    c => MutatesImported(c, modules, table)
  }

  /** Whether a callee keeps blocking its callers, decided on the given state. */
  ghost function Blocking(modules: set<string>, table: Table): string -> bool {
    callee => CalleeResolvesUnsafe(callee, modules, table)
  }

  /** The error a confirmed candidate at module scope gives. */
  function Emission(pair: Pair): seq<Emitted> {
    match pair.candidate.site
    case ModuleScope(call) => [Emitted(pair.module_, call, pair.candidate.range)]
    case Function(_) => []
  }

  /** The errors of the confirmed candidates, in order. */
  ghost function Emissions(pairs: seq<Pair>, mutates: Candidate -> bool): seq<Emitted> {
    FlatMap(pairs, (p: Pair) => if mutates(p.candidate) then Emission(p) else [])
  }

  ghost function FlatMap<T, U>(s: seq<T>, f: T -> seq<U>): seq<U> {
    if s == [] then [] else FlatMap(s[..|s| - 1], f) + f(s[|s| - 1])
  }

  /** The callees of the confirmed candidates charged to `key`. */
  ghost function ConfirmedCallees(pairs: seq<Pair>, mutates: Candidate -> bool, key: Key): set<string> {
    set p | p in pairs && Charged(p) == Some(key) && mutates(p.candidate) :: p.candidate.callee
  }

  ghost function AfterConfirmation(pairs: seq<Pair>, mutates: Candidate -> bool, table: Table): Table {
    map key | key in table :: Confirmed(table[key], ConfirmedCallees(pairs, mutates, key))
  }

  /** The callees of the candidates charged to `key` that are neither confirmed nor blocked. */
  ghost function DischargedCallees(pairs: seq<Pair>, mutates: Candidate -> bool, blocked: string -> bool, key: Key)
    : set<string>
  {
    set p | p in pairs && Charged(p) == Some(key) && !mutates(p.candidate) && !blocked(p.candidate.callee) ::
      p.candidate.callee
  }

  ghost function AfterDischarge(pairs: seq<Pair>, mutates: Candidate -> bool, blocked: string -> bool, table: Table)
    : Table
  {
    map key | key in table :: Dropped(table[key], DischargedCallees(pairs, mutates, blocked, key))
  }

  /** The table after both phases; the second decides on what the first left. */
  ghost function AfterCandidates(pairs: seq<Pair>, modules: set<string>, table: Table): Table {
    var mutates := Mutation(modules, table);
    var mid := AfterConfirmation(pairs, mutates, table);
    AfterDischarge(pairs, mutates, Blocking(modules, mid), mid)
  }

  method ConfirmedFlags(pairs: seq<Pair>, modules: set<string>, table: Table, ghost mutates: Candidate -> bool)
    returns (flags: seq<bool>)
    requires forall c {:trigger MutatesImported(c, modules, table)} :: mutates(c) == MutatesImported(c, modules, table)
    ensures |flags| == |pairs|
    ensures forall i :: 0 <= i < |pairs| ==> flags[i] == mutates(pairs[i].candidate)
  {
    flags := [];
    for i := 0 to |pairs|
      invariant |flags| == i
      invariant forall k :: 0 <= k < i ==> flags[k] == mutates(pairs[k].candidate)
    {
      var flag := CandidateMutates(pairs[i].candidate, modules, table);
      flags := flags + [flag];
    }
  }

  method DischargeFlags(pairs: seq<Pair>, confirmed: seq<bool>, modules: set<string>, table: Table,
                        ghost blocked: string -> bool)
    returns (flags: seq<bool>)
    requires |confirmed| == |pairs|
    requires forall c {:trigger CalleeResolvesUnsafe(c, modules, table)} ::
      blocked(c) == CalleeResolvesUnsafe(c, modules, table)
    ensures |flags| == |pairs|
    ensures forall i :: 0 <= i < |pairs| ==>
      flags[i] == (!confirmed[i] && Charged(pairs[i]).Some? && !blocked(pairs[i].candidate.callee))
  {
    flags := [];
    for i := 0 to |pairs|
      invariant |flags| == i
      invariant forall k :: 0 <= k < i ==>
        flags[k] == (!confirmed[k] && Charged(pairs[k]).Some? && !blocked(pairs[k].candidate.callee))
    {
      flags := flags + [!confirmed[i] && pairs[i].candidate.site.Function?
                        && !CalleeResolvesUnsafe(pairs[i].candidate.callee, modules, table)];
    }
  }

  /** One more flagged candidate adds its callee to what its function settled. */
  lemma SettledStep(pairs: seq<Pair>, flags: seq<bool>, i: nat, key: Key)
    requires |flags| == |pairs| && i < |pairs|
    ensures Settled(pairs[..i + 1], flags[..i + 1], key) == Settled(pairs[..i], flags[..i], key)
      + if flags[i] && Charged(pairs[i]) == Some(key) then {pairs[i].candidate.callee} else {}
  {
    var now, before := Settled(pairs[..i + 1], flags[..i + 1], key), Settled(pairs[..i], flags[..i], key);
    forall c
      ensures c in now <==>
        c in before || (flags[i] && Charged(pairs[i]) == Some(key) && c == pairs[i].candidate.callee)
    {
      if c in before {
        var k :| 0 <= k < i && flags[k] && Charged(pairs[k]) == Some(key) && c == pairs[k].candidate.callee;
        assert pairs[..i + 1][k] == pairs[k] && flags[..i + 1][k] == flags[k];
      }
      if flags[i] && Charged(pairs[i]) == Some(key) && c == pairs[i].candidate.callee {
        assert pairs[..i + 1][i] == pairs[i] && flags[..i + 1][i] == flags[i];
      }
      if c in now {
        var k :| 0 <= k < i + 1 && flags[k] && Charged(pairs[k]) == Some(key) && c == pairs[k].candidate.callee;
        if k < i {
          assert pairs[..i][k] == pairs[k] && flags[..i][k] == flags[k];
        }
      }
    }
  }

  /** Dropping in two steps is dropping the union, and so is confirming. */
  lemma DropsAdd(info: Info, c: set<string>, d: set<string>)
    ensures Dropped(Dropped(info, c), d) == Dropped(info, c + d)
    ensures Confirmed(Confirmed(info, c), d) == Confirmed(info, c + d)
  {
    assert info.missing - c - d == info.missing - (c + d);
    if c == {} {
      assert c + d == d;
    }
    if d == {} {
      assert c + d == c;
    }
  }

  /** The table after the flagged candidates of `pairs` had `effect` on the functions they are charged to. */
  ghost predicate UpTo(table: Table, start: Table, pairs: seq<Pair>, flags: seq<bool>,
                       effect: (Info, set<string>) -> Info)
    requires |flags| == |pairs|
  {
    && table.Keys == start.Keys
    && forall key :: key in start ==> table[key] == effect(start[key], Settled(pairs, flags, key))
  }

  lemma UpToStep(start: Table, before: Table, after: Table, pairs: seq<Pair>, flags: seq<bool>, i: nat,
                 effect: (Info, set<string>) -> Info)
    requires |flags| == |pairs| && i < |pairs| && UpTo(before, start, pairs[..i], flags[..i], effect)
    requires forall info, c, d :: effect(effect(info, c), d) == effect(info, c + d)
    requires after.Keys == before.Keys
    requires forall key :: key in before ==>
      after[key] == if flags[i] && Charged(pairs[i]) == Some(key) then effect(before[key], {pairs[i].candidate.callee})
        else before[key]
    ensures UpTo(after, start, pairs[..i + 1], flags[..i + 1], effect)
  {
    forall key | key in start
      ensures after[key] == effect(start[key], Settled(pairs[..i + 1], flags[..i + 1], key))
    {
      SettledStep(pairs, flags, i, key);
      var settled := Settled(pairs[..i], flags[..i], key);
      assert settled + {} == settled;
    }
  }

  method ConfirmAll(pairs: seq<Pair>, flags: seq<bool>, table: Table, ghost mutates: Candidate -> bool)
    returns (table': Table, errors: seq<Emitted>)
    requires |flags| == |pairs|
    requires forall i :: 0 <= i < |pairs| ==> flags[i] == mutates(pairs[i].candidate)
    ensures UpTo(table', table, pairs, flags, Confirmed)
    ensures errors == Emissions(pairs, mutates)
  {
    forall info, c, d
      ensures Confirmed(Confirmed(info, c), d) == Confirmed(info, c + d)
    {
      DropsAdd(info, c, d);
    }
    table', errors := table, [];
    for i := 0 to |pairs|
      invariant UpTo(table', table, pairs[..i], flags[..i], Confirmed)
      invariant errors == Emissions(pairs[..i], mutates)
    {
      ghost var before := table';
      assert pairs[..i + 1][..i] == pairs[..i] && pairs[..i + 1][i] == pairs[i];
      if flags[i] {
        table', errors := ApplyConfirmed(pairs[i], table', errors);
      }
      UpToStep(table, before, table', pairs, flags, i, Confirmed);
    }
    assert pairs[..|pairs|] == pairs && flags[..|pairs|] == flags;
  }

  method DischargeAll(pairs: seq<Pair>, flags: seq<bool>, table: Table) returns (table': Table)
    requires |flags| == |pairs|
    ensures UpTo(table', table, pairs, flags, Dropped)
  {
    forall info, c, d
      ensures Dropped(Dropped(info, c), d) == Dropped(info, c + d)
    {
      DropsAdd(info, c, d);
    }
    table' := table;
    for i := 0 to |pairs|
      invariant UpTo(table', table, pairs[..i], flags[..i], Dropped)
    {
      ghost var before := table';
      if flags[i] {
        table' := DischargeCandidate(pairs[i], table');
      }
      UpToStep(table, before, table', pairs, flags, i, Dropped);
    }
    assert pairs[..|pairs|] == pairs && flags[..|pairs|] == flags;
  }

  /** A callee is settled for a function when some candidate of the function with that callee is flagged. */
  lemma FlagsSettle(pairs: seq<Pair>, flags: seq<bool>, flagged: Pair -> bool, key: Key, callee: string)
    requires |flags| == |pairs| && forall i :: 0 <= i < |pairs| ==> flags[i] == flagged(pairs[i])
    ensures callee in Settled(pairs, flags, key) <==>
      exists p :: p in pairs && Charged(p) == Some(key) && flagged(p) && p.candidate.callee == callee
  {
  }

  /** Confirm all candidates, deciding on one frozen state. */
  method Confirm(pairs: seq<Pair>, modules: set<string>, table: Table, ghost mutates: Candidate -> bool)
    returns (confirmed: seq<bool>, mid: Table, errors: seq<Emitted>)
    requires forall c {:trigger MutatesImported(c, modules, table)} :: mutates(c) == MutatesImported(c, modules, table)
    ensures |confirmed| == |pairs| && forall i :: 0 <= i < |pairs| ==> confirmed[i] == mutates(pairs[i].candidate)
    ensures mid == AfterConfirmation(pairs, mutates, table) && errors == Emissions(pairs, mutates)
  {
    confirmed := ConfirmedFlags(pairs, modules, table, mutates);
    mid, errors := ConfirmAll(pairs, confirmed, table, mutates);
    forall key | key in table
      ensures Settled(pairs, confirmed, key) == ConfirmedCallees(pairs, mutates, key)
    {
      forall c
        ensures c in Settled(pairs, confirmed, key) <==> c in ConfirmedCallees(pairs, mutates, key)
      {
        FlagsSettle(pairs, confirmed, (p: Pair) => mutates(p.candidate), key, c);
      }
    }
  }

  /** Discharge what was not confirmed and does not block, deciding on one frozen state. */
  method Discharge(pairs: seq<Pair>, confirmed: seq<bool>, modules: set<string>, mid: Table,
                   ghost mutates: Candidate -> bool, ghost blocked: string -> bool)
    returns (table: Table)
    requires |confirmed| == |pairs| && forall i :: 0 <= i < |pairs| ==> confirmed[i] == mutates(pairs[i].candidate)
    requires forall c {:trigger CalleeResolvesUnsafe(c, modules, mid)} ::
      blocked(c) == CalleeResolvesUnsafe(c, modules, mid)
    ensures table == AfterDischarge(pairs, mutates, blocked, mid)
  {
    var discharges := DischargeFlags(pairs, confirmed, modules, mid, blocked);
    table := DischargeAll(pairs, discharges, mid);
    forall key | key in mid
      ensures Settled(pairs, discharges, key) == DischargedCallees(pairs, mutates, blocked, key)
    {
      forall c
        ensures c in Settled(pairs, discharges, key) <==> c in DischargedCallees(pairs, mutates, blocked, key)
      {
        FlagsSettle(pairs, discharges,
                    (p: Pair) => Charged(p).Some? && !mutates(p.candidate) && !blocked(p.candidate.callee), key, c);
      }
    }
  }

  /** Confirm all candidates against one frozen state, then discharge all against the next. */
  method ApplyMutationCandidates(pairs: seq<Pair>, modules: set<string>, table: Table)
    returns (table': Table, errors: seq<Emitted>)
    ensures table' == AfterCandidates(pairs, modules, table)
    ensures errors == Emissions(pairs, Mutation(modules, table))
  {
    ghost var mutates := Mutation(modules, table);
    var confirmed, mid;
    confirmed, mid, errors := Confirm(pairs, modules, table, mutates);
    table' := Discharge(pairs, confirmed, modules, mid, mutates, Blocking(modules, mid));
  }

  // ----- What the two phases do

  /** The candidates may come in any order, and more than once: verdicts depend on their set, errors on
      their multiset. */
  lemma OrderFree(pairs: seq<Pair>, pairs': seq<Pair>, modules: set<string>, table: Table)
    ensures (forall p :: p in pairs <==> p in pairs') ==>
      AfterCandidates(pairs, modules, table) == AfterCandidates(pairs', modules, table)
    ensures multiset(pairs) == multiset(pairs') ==>
      multiset(Emissions(pairs, Mutation(modules, table))) == multiset(Emissions(pairs', Mutation(modules, table)))
  {
    var mutates := Mutation(modules, table);
    if forall p :: p in pairs <==> p in pairs' {
      PhasesOrderFree(pairs, pairs', mutates, Blocking(modules, AfterConfirmation(pairs, mutates, table)), table);
    }
    if multiset(pairs) == multiset(pairs') {
      FlatMapPermute(pairs, pairs', (p: Pair) => if mutates(p.candidate) then Emission(p) else []);
    }
  }

  lemma PhasesOrderFree(pairs: seq<Pair>, pairs': seq<Pair>, mutates: Candidate -> bool, blocked: string -> bool,
                        table: Table)
    requires forall p :: p in pairs <==> p in pairs'
    ensures AfterConfirmation(pairs, mutates, table) == AfterConfirmation(pairs', mutates, table)
    ensures forall mid :: AfterDischarge(pairs, mutates, blocked, mid) == AfterDischarge(pairs', mutates, blocked, mid)
  {
    assert forall key :: ConfirmedCallees(pairs, mutates, key) == ConfirmedCallees(pairs', mutates, key);
    assert forall key ::
      DischargedCallees(pairs, mutates, blocked, key) == DischargedCallees(pairs', mutates, blocked, key);
  }

  lemma FlatMapLast<T, U>(s: seq<T>, x: T, f: T -> seq<U>)
    ensures multiset(FlatMap(s + [x], f)) == multiset(FlatMap(s, f)) + multiset(f(x))
  {
    assert (s + [x])[..|s|] == s;
  }

  lemma SplitLast<T>(a: seq<T>, b: seq<T>)
    requires b != []
    ensures a + b == a + b[..|b| - 1] + [b[|b| - 1]]
  {
    assert b == b[..|b| - 1] + [b[|b| - 1]];
  }

  lemma {:induction false} FlatMapRemove<T, U>(a: seq<T>, x: T, b: seq<T>, f: T -> seq<U>)
    ensures multiset(FlatMap(a + [x] + b, f)) == multiset(FlatMap(a + b, f)) + multiset(f(x))
    decreases b
  {
    if b == [] {
      assert a + [x] + b == a + [x] && a + b == a;
      FlatMapLast(a, x, f);
    } else {
      var front, last := b[..|b| - 1], b[|b| - 1];
      FlatMapRemove(a, x, front, f);
      SplitLast(a, b);
      SplitLast(a + [x], b);
      FlatMapLast(a + [x] + front, last, f);
      FlatMapLast(a + front, last, f);
    }
  }

  lemma Cancel<T>(a: multiset<T>, b: multiset<T>, c: multiset<T>)
    requires a + c == b + c
    ensures a == b
  {
    assert a == (a + c) - c && b == (b + c) - c;
  }

  /** Two permutations stay permutations when the last of one is taken out of both. */
  lemma Peel<T>(s: seq<T>, t: seq<T>, i: nat)
    requires multiset(s) == multiset(t) && i < |t| && s != [] && s[|s| - 1] == t[i]
    ensures multiset(s[..|s| - 1]) == multiset(t[..i] + t[i + 1..])
  {
    assert s == s[..|s| - 1] + [s[|s| - 1]];
    assert t == t[..i] + ([t[i]] + t[i + 1..]);
    calc {
      multiset(t);
      multiset(t[..i] + ([t[i]] + t[i + 1..]));
      multiset(t[..i]) + multiset([t[i]] + t[i + 1..]);
      multiset(t[..i]) + (multiset([t[i]]) + multiset(t[i + 1..]));
      multiset(t[..i] + t[i + 1..]) + multiset{t[i]};
    }
    Cancel(multiset(s[..|s| - 1]), multiset(t[..i] + t[i + 1..]), multiset{t[i]});
  }

  lemma {:induction false} FlatMapPermute<T, U>(s: seq<T>, t: seq<T>, f: T -> seq<U>)
    requires multiset(s) == multiset(t)
    ensures multiset(FlatMap(s, f)) == multiset(FlatMap(t, f))
    decreases |s|
  {
    if s == [] {
      assert |multiset(t)| == 0;
      assert t == [];
    } else {
      assert s[|s| - 1] in multiset(t);
      var i :| 0 <= i < |t| && t[i] == s[|s| - 1];
      Peel(s, t, i);
      assert s == s[..|s| - 1] + [s[|s| - 1]] && t == t[..i] + [t[i]] + t[i + 1..];
      FlatMapLast(s[..|s| - 1], t[i], f);
      FlatMapRemove(t[..i], t[i], t[i + 1..], f);
      FlatMapPermute(s[..|s| - 1], t[..i] + t[i + 1..], f);
    }
  }

  /** Exactly what the two phases change: missing callees are only ever dropped, and concerns other than the missing
      dependency only ever added. */
  lemma PhasesExactly(pairs: seq<Pair>, mutates: Candidate -> bool, blocked: string -> bool, table: Table, key: Key)
    requires key in table
    ensures
      var before, after :=
        table[key], AfterDischarge(pairs, mutates, blocked, AfterConfirmation(pairs, mutates, table))[key];
      var confirmed := ConfirmedCallees(pairs, mutates, key);
      var settled := confirmed + DischargedCallees(pairs, mutates, blocked, key);
      && after.missing == before.missing - settled
      && after.params == before.params
      && after.verdict.unsafeIfImported == before.verdict.unsafeIfImported
      && (after.verdict.hardUnsafe <==> before.verdict.hardUnsafe || confirmed != {})
      && (after.verdict.unsafeMissingDep <==> before.verdict.unsafeMissingDep && (settled == {} || after.missing != {}))
  {
    var before := table[key];
    var c, d := ConfirmedCallees(pairs, mutates, key), DischargedCallees(pairs, mutates, blocked, key);
    assert before.missing - c - d == before.missing - (c + d);
    if c == {} {
      assert c + d == d;
      assert before.missing - c == before.missing;
    }
    if d == {} {
      assert c + d == c;
    }
  }

  /** A missing callee that a function without hard concerns dropped is harmless: one of the function's own unconfirmed
      candidates calls it, and it is unresolved or safe. */
  ghost predicate Harmless(pairs: seq<Pair>, modules: set<string>, start: Table, end: Table, key: Key, callee: string) {
    && (exists p :: p in pairs && Charged(p) == Some(key) && p.candidate.callee == callee
                    && !MutatesImported(p.candidate, modules, start))
    && var found := LookupCallee(callee, modules, end);
       found.Some? ==> found.value.verdict.IsSafe()
  }

  lemma DroppedIsHarmless(pairs: seq<Pair>, modules: set<string>, table: Table, key: Key, callee: string)
    requires key in table && callee in table[key].missing
    requires
      var after := AfterCandidates(pairs, modules, table)[key];
      !after.verdict.hardUnsafe && callee !in after.missing
    ensures Harmless(pairs, modules, table, AfterCandidates(pairs, modules, table), key, callee)
  {
    var mutates := Mutation(modules, table);
    var mid := AfterConfirmation(pairs, mutates, table);
    var blocked := Blocking(modules, mid);
    PhasesExactly(pairs, mutates, blocked, table, key);
    assert callee in DischargedCallees(pairs, mutates, blocked, key);
    assert !CalleeResolvesUnsafe(callee, modules, mid);
    SafeCalleeStays(pairs, modules, mutates, blocked, mid, callee);
  }

  /** Discharging leaves a callee that does not block verified safe, or unresolved. */
  lemma SafeCalleeStays(pairs: seq<Pair>, modules: set<string>, mutates: Candidate -> bool, blocked: string -> bool,
                        mid: Table, callee: string)
    requires !CalleeResolvesUnsafe(callee, modules, mid)
    ensures
      var found := LookupCallee(callee, modules, AfterDischarge(pairs, mutates, blocked, mid));
      found.Some? ==> found.value.verdict.IsSafe()
  {
    var target := SplitKey(callee, modules);
    if target.Some? && target.value in mid {
      SafeStays(mid[target.value], DischargedCallees(pairs, mutates, blocked, target.value));
    }
  }

  lemma SafeStays(info: Info, callees: set<string>)
    requires info.verdict.IsSafe()
    ensures Dropped(info, callees).verdict.IsSafe()
  {
  }
}
