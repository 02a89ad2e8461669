/**
 What settling mutation candidates does, told by the fields of candidates, records and names alone: the meaning of
 `apply_mutation_candidates` of `src/resolution.rs`.
 */
module CandidatesPlainly {
  import opened Wrappers
  import opened Names
  import opened Effects
  import opened Safety
  import opened Resolution

  // ----- Which candidates are confirmed

  /** An imported argument may reach one of the parameters the function at `key` mutates. */
  ghost predicate Reaches(key: Key, argOffset: nat, args: ImportedArgs, table: Table) {
    && key in table
    && exists i :: 0 <= i < |table[key].params|
                   && args.HitsParam(table[key].params[i].name, table[key].params[i].position, argOffset)
  }

  lemma HitReaches(key: Key, argOffset: nat, args: ImportedArgs, table: Table)
    ensures Hit(Some(key), argOffset, args, table) <==> Reaches(key, argOffset, args, table)
  {
    if key in table {
      var params := table[key].params;
      var positions := Positions(params);
      assert |positions| == |params| && forall i :: 0 <= i < |params| ==>
        positions[i] == (params[i].name, params[i].position);
      if i :| 0 <= i < |params| && args.HitsParam(params[i].name, params[i].position, argOffset) {
        assert args.HitsParam(positions[i].0, positions[i].1, argOffset);
      }
    }
  }

  /** The function itself, at the longest module prefix of its name. */
  ghost predicate ReachesCallee(c: Candidate, modules: set<string>, table: Table) {
    exists m, l :: SplitsAt(c.callee, modules, m, l) && Reaches(Key(m, l), c.argOffset, c.importedArgs, table)
  }

  /** A constructor method, one argument later: of the module with that name, else of the class. */
  ghost predicate ReachesConstructor(c: Candidate, modules: set<string>, table: Table, method_: string) {
    if c.callee in modules then Reaches(Key(c.callee, method_), c.argOffset + 1, c.importedArgs, table)
    else exists m, l :: SplitsAt(c.callee, modules, m, l) && ReachesMethod(m, l, c, table, method_)
  }

  ghost predicate ReachesMethod(m: string, l: string, c: Candidate, table: Table, method_: string) {
    exists name :: IsMethod(name, l, method_) && Reaches(Key(m, name), c.argOffset + 1, c.importedArgs, table)
  }

  ghost predicate IsMethod(name: string, l: string, method_: string) {
    name == if l == "" then method_ else l + "." + method_
  }

  lemma SplitIs(name: string, modules: set<string>, m: string, l: string)
    requires SplitsAt(name, modules, m, l)
    ensures SplitKey(name, modules) == Some(Key(m, l))
  {
    SplitUnique(name, modules, m, l);
  }

  lemma CalleePlainly(c: Candidate, modules: set<string>, table: Table)
    ensures Hit(SplitKey(c.callee, modules), c.argOffset, c.importedArgs, table) <==> ReachesCallee(c, modules, table)
  {
    var split := EnclosingModule(c.callee, modules);
    if split.Some? {
      HitReaches(Key(split.value.0, split.value.1), c.argOffset, c.importedArgs, table);
    }
    if m, l :| SplitsAt(c.callee, modules, m, l) && Reaches(Key(m, l), c.argOffset, c.importedArgs, table) {
      SplitIs(c.callee, modules, m, l);
    }
  }

  ghost predicate HitsMethod(c: Candidate, modules: set<string>, table: Table, method_: string) {
    Hit(ConstructorKey(c.callee, method_, modules), c.argOffset + 1, c.importedArgs, table)
  }

  lemma ConstructorPlainly(c: Candidate, modules: set<string>, table: Table, method_: string)
    ensures HitsMethod(c, modules, table, method_) <==> ReachesConstructor(c, modules, table, method_)
  {
    if c.callee in modules {
      HitReaches(Key(c.callee, method_), c.argOffset + 1, c.importedArgs, table);
    } else {
      ClassMethodPlainly(c, modules, table, method_);
    }
  }

  lemma MethodKey(c: Candidate, modules: set<string>, m: string, l: string, method_: string) returns (name: string)
    requires c.callee !in modules && SplitsAt(c.callee, modules, m, l)
    ensures IsMethod(name, l, method_) && ConstructorKey(c.callee, method_, modules) == Some(Key(m, name))
  {
    SplitUnique(c.callee, modules, m, l);
    name := if l == "" then method_ else l + "." + method_;
  }

  lemma SameMethod(name: string, other: string, l: string, method_: string)
    requires IsMethod(name, l, method_) && IsMethod(other, l, method_)
    ensures name == other
  {
  }

  lemma HitsAtKey(c: Candidate, modules: set<string>, table: Table, method_: string, key: Key)
    requires ConstructorKey(c.callee, method_, modules) == Some(key)
    ensures HitsMethod(c, modules, table, method_) <==> Reaches(key, c.argOffset + 1, c.importedArgs, table)
  {
    HitReaches(key, c.argOffset + 1, c.importedArgs, table);
  }

  lemma ReachesAtName(m: string, l: string, c: Candidate, table: Table, method_: string, name: string)
    requires IsMethod(name, l, method_)
    ensures ReachesMethod(m, l, c, table, method_) <==> Reaches(Key(m, name), c.argOffset + 1, c.importedArgs, table)
  {
    if n :| IsMethod(n, l, method_) && Reaches(Key(m, n), c.argOffset + 1, c.importedArgs, table) {
      SameMethod(n, name, l, method_);
    }
  }

  lemma MethodHits(c: Candidate, modules: set<string>, table: Table, method_: string, m: string, l: string)
    requires c.callee !in modules && SplitsAt(c.callee, modules, m, l)
    ensures HitsMethod(c, modules, table, method_) <==> ReachesMethod(m, l, c, table, method_)
  {
    var name := MethodKey(c, modules, m, l, method_);
    HitsAtKey(c, modules, table, method_, Key(m, name));
    ReachesAtName(m, l, c, table, method_, name);
  }

  lemma MethodSplits(c: Candidate, modules: set<string>, table: Table, method_: string) returns (m: string, l: string)
    requires c.callee !in modules && HitsMethod(c, modules, table, method_)
    ensures SplitsAt(c.callee, modules, m, l)
  {
    var split := EnclosingModule(c.callee, modules);
    m, l := split.value.0, split.value.1;
  }

  lemma ClassMethodPlainly(c: Candidate, modules: set<string>, table: Table, method_: string)
    requires c.callee !in modules
    ensures HitsMethod(c, modules, table, method_) <==> ReachesConstructor(c, modules, table, method_)
  {
    if HitsMethod(c, modules, table, method_) {
      var m, l := MethodSplits(c, modules, table, method_);
      MethodHits(c, modules, table, method_, m, l);
    }
    if m, l :| SplitsAt(c.callee, modules, m, l) && ReachesMethod(m, l, c, table, method_) {
      MethodHits(c, modules, table, method_, m, l);
    }
  }

  /** Which candidates are confirmed: an imported argument may reach a mutated parameter of the callee, or, one argument
      later, of one of the three constructor methods. */
  lemma MutatesPlainly(c: Candidate, modules: set<string>, table: Table)
    ensures MutatesImported(c, modules, table) <==>
      || ReachesCallee(c, modules, table)
      || ReachesConstructor(c, modules, table, "__new__")
      || ReachesConstructor(c, modules, table, "__init__")
      || ReachesConstructor(c, modules, table, "__post_init__")
  {
    CalleePlainly(c, modules, table);
    ThreeMethods();
    AnyConstructor(c, modules, table, "__new__", "__init__", "__post_init__");
  }

  lemma HitsSome(c: Candidate, modules: set<string>, table: Table)
    ensures HitsConstructor(c, modules, table) <==>
      exists m :: m in CONSTRUCTOR_METHODS && HitsMethod(c, modules, table, m)
  {
    var offset := c.argOffset + 1;
    if m :| m in CONSTRUCTOR_METHODS && Hit(ConstructorKey(c.callee, m, modules), offset, c.importedArgs, table) {
      assert HitsMethod(c, modules, table, m);
    }
  }

  lemma AnyConstructor(c: Candidate, modules: set<string>, table: Table, a: string, b: string, d: string)
    requires forall m :: m in CONSTRUCTOR_METHODS <==> m == a || m == b || m == d
    ensures HitsConstructor(c, modules, table) <==>
      || ReachesConstructor(c, modules, table, a)
      || ReachesConstructor(c, modules, table, b)
      || ReachesConstructor(c, modules, table, d)
  {
    HitsSome(c, modules, table);
    AnyOfThree(CONSTRUCTOR_METHODS, m => HitsMethod(c, modules, table, m), a, b, d);
    ConstructorPlainly(c, modules, table, a);
    ConstructorPlainly(c, modules, table, b);
    ConstructorPlainly(c, modules, table, d);
  }

  // ----- What is settled

  /** The candidate sits in the function. */
  ghost predicate Own(p: Pair, key: Key) {
    p.module_ == key.module_ && p.candidate.site == Function(key.name)
  }

  ghost predicate HasConfirmed(pairs: seq<Pair>, modules: set<string>, table: Table, key: Key) {
    exists p :: p in pairs && Own(p, key) && MutatesImported(p.candidate, modules, table)
  }

  /** The callee stands for no function of the table, or for one that is safe and has no confirmed candidate. */
  ghost predicate Settled(callee: string, pairs: seq<Pair>, modules: set<string>, table: Table) {
    forall m, l :: SplitsAt(callee, modules, m, l) && Key(m, l) in table ==>
      table[Key(m, l)].verdict == FunctionSafety(false, false, false) && !HasConfirmed(pairs, modules, table, Key(m, l))
  }

  /** The candidate takes its callee from what its function waits for. */
  ghost predicate Settles(p: Pair, key: Key, pairs: seq<Pair>, modules: set<string>, table: Table) {
    Own(p, key) && (MutatesImported(p.candidate, modules, table) || Settled(p.candidate.callee, pairs, modules, table))
  }

  lemma ConfirmedIffHas(pairs: seq<Pair>, modules: set<string>, table: Table, key: Key)
    ensures ConfirmedCallees(pairs, Mutation(modules, table), key) != {} <==> HasConfirmed(pairs, modules, table, key)
  {
    var mutates := Mutation(modules, table);
    if p :| p in pairs && Own(p, key) && MutatesImported(p.candidate, modules, table) {
      assert mutates(p.candidate) && p.candidate.callee in ConfirmedCallees(pairs, mutates, key);
    }
    if callee :| callee in ConfirmedCallees(pairs, mutates, key) {
      var p :| p in pairs && Charged(p) == Some(key) && mutates(p.candidate) && p.candidate.callee == callee;
      assert Own(p, key);
    }
  }

  /** A callee keeps blocking after the confirmations exactly when it is not settled. */
  lemma BlocksUnlessSettled(callee: string, pairs: seq<Pair>, modules: set<string>, table: Table)
    ensures
      var mid := AfterConfirmation(pairs, Mutation(modules, table), table);
      CalleeResolvesUnsafe(callee, modules, mid) <==> !Settled(callee, pairs, modules, table)
  {
    var mid := AfterConfirmation(pairs, Mutation(modules, table), table);
    var split := EnclosingModule(callee, modules);
    if split.Some? {
      var key := Key(split.value.0, split.value.1);
      forall m, l | SplitsAt(callee, modules, m, l)
        ensures Key(m, l) == key
      {
        SplitIs(callee, modules, m, l);
      }
      SafeAfterConfirmation(key, pairs, modules, table);
    }
  }

  lemma SafeAfterConfirmation(key: Key, pairs: seq<Pair>, modules: set<string>, table: Table)
    ensures
      var mid := AfterConfirmation(pairs, Mutation(modules, table), table);
      key in table ==> (mid[key].verdict.IsSafe() <==>
        table[key].verdict == FunctionSafety(false, false, false) && !HasConfirmed(pairs, modules, table, key))
  {
    ConfirmedIffHas(pairs, modules, table, key);
    if key in table {
      SafeUnlessConfirmed(table[key], ConfirmedCallees(pairs, Mutation(modules, table), key));
    }
  }

  lemma SafeUnlessConfirmed(info: Info, callees: set<string>)
    ensures Confirmed(info, callees).verdict.IsSafe() <==>
      callees == {} && info.verdict == FunctionSafety(false, false, false)
  {
  }

  lemma SettledCallees(pairs: seq<Pair>, modules: set<string>, table: Table, key: Key, callee: string)
    ensures
      var mutates := Mutation(modules, table);
      var blocked := Blocking(modules, AfterConfirmation(pairs, mutates, table));
      callee in ConfirmedCallees(pairs, mutates, key) + DischargedCallees(pairs, mutates, blocked, key) <==>
      exists p :: p in pairs && Settles(p, key, pairs, modules, table) && p.candidate.callee == callee
  {
    var mutates := Mutation(modules, table);
    var blocked := Blocking(modules, AfterConfirmation(pairs, mutates, table));
    BlocksUnlessSettled(callee, pairs, modules, table);
    if p :| p in pairs && Settles(p, key, pairs, modules, table) && p.candidate.callee == callee {
      assert Charged(p) == Some(key);
      if !mutates(p.candidate) {
        assert callee in DischargedCallees(pairs, mutates, blocked, key);
      }
    }
    if callee in ConfirmedCallees(pairs, mutates, key) {
      var p :| p in pairs && Charged(p) == Some(key) && mutates(p.candidate) && p.candidate.callee == callee;
      assert Settles(p, key, pairs, modules, table);
    }
    if callee in DischargedCallees(pairs, mutates, blocked, key) {
      var p :| p in pairs && Charged(p) == Some(key) && !mutates(p.candidate) && !blocked(p.candidate.callee)
               && p.candidate.callee == callee;
      assert Settles(p, key, pairs, modules, table);
    }
  }

  /** A missing callee is dropped exactly when a candidate of the function settles it. */
  lemma DroppedExactly(pairs: seq<Pair>, modules: set<string>, table: Table, key: Key, callee: string)
    requires key in table
    ensures callee in AfterCandidates(pairs, modules, table)[key].missing <==>
      callee in table[key].missing
      && !exists p :: p in pairs && Settles(p, key, pairs, modules, table) && p.candidate.callee == callee
  {
    var mutates := Mutation(modules, table);
    var blocked := Blocking(modules, AfterConfirmation(pairs, mutates, table));
    PhasesExactly(pairs, mutates, blocked, table, key);
    SettledCallees(pairs, modules, table, key, callee);
  }

  /** What becomes of the rest of a record: a confirmed candidate makes it unsafe, and the missing dependency goes when
      some candidate settled a callee and none is left. */
  lemma VerdictExactly(pairs: seq<Pair>, modules: set<string>, table: Table, key: Key)
    requires key in table
    ensures
      var before, after := table[key], AfterCandidates(pairs, modules, table)[key];
      && after.params == before.params
      && after.verdict.unsafeIfImported == before.verdict.unsafeIfImported
      && (after.verdict.hardUnsafe <==> before.verdict.hardUnsafe || HasConfirmed(pairs, modules, table, key))
      && (after.verdict.unsafeMissingDep <==>
          && before.verdict.unsafeMissingDep
          && (after.missing != {} || !exists p :: p in pairs && Settles(p, key, pairs, modules, table)))
  {
    var mutates := Mutation(modules, table);
    var blocked := Blocking(modules, AfterConfirmation(pairs, mutates, table));
    var settled := ConfirmedCallees(pairs, mutates, key) + DischargedCallees(pairs, mutates, blocked, key);
    PhasesExactly(pairs, mutates, blocked, table, key);
    ConfirmedIffHas(pairs, modules, table, key);
    if p :| p in pairs && Settles(p, key, pairs, modules, table) {
      SettledCallees(pairs, modules, table, key, p.candidate.callee);
      assert p.candidate.callee in settled;
    }
    if callee :| callee in settled {
      SettledCallees(pairs, modules, table, key, callee);
    }
  }

  /** The errors are those of the confirmed candidates at module scope, with the call as their metadata. */
  lemma {:induction false} EmissionsExactly(pairs: seq<Pair>, modules: set<string>, table: Table, e: Emitted)
    ensures e in Emissions(pairs, Mutation(modules, table)) <==>
      exists p :: p in pairs && p.module_ == e.module_ && p.candidate.site == ModuleScope(e.metadata)
                  && p.candidate.range == e.range && MutatesImported(p.candidate, modules, table)
  {
    var mutates := Mutation(modules, table);
    if pairs != [] {
      var front, last := pairs[..|pairs| - 1], pairs[|pairs| - 1];
      assert pairs == front + [last];
      EmissionsExactly(front, modules, table, e);
      assert mutates(last.candidate) == MutatesImported(last.candidate, modules, table);
    }
  }
}
