/** The loops of `promote_fixpoint` of `src/resolution.rs`: candidates, indices of demanded names, and rounds. */
module PromotionRounds {
  import opened Wrappers
  import opened Sequences
  import opened Names
  import opened Safety
  import opened Resolution
  import opened Promotion

  datatype PromotionCandidate = PromotionCandidate(key: Key, base: FunctionSafety, callees: set<Callee>)

  /** Whether module prefixes are probed as interned names or as string slices. */
  datatype NameSearch = Intern | ProbeStr

  // ----- Collecting the candidates

  ghost predicate Distinct(cands: seq<PromotionCandidate>) {
    forall i, j :: 0 <= i < j < |cands| ==> cands[i].key != cands[j].key
  }

  ghost predicate Lists(cands: seq<PromotionCandidate>, table: Table, waits: Waiting) {
    && Distinct(cands)
    && (forall i :: 0 <= i < |cands| ==> Lifted(cands[i], table, waits))
  }

  ghost predicate Lifted(c: PromotionCandidate, table: Table, waits: Waiting) {
    c.key in table && c.key in waits && c.callees == waits[c.key]
    && c.base == table[c.key].verdict.Without(UNSAFE_MISSING_DEP)
  }

  ghost predicate Covers(cands: seq<PromotionCandidate>, keys: set<Key>) {
    forall k :: k in keys ==> exists i :: 0 <= i < |cands| && cands[i].key == k
  }

  method ResolveAll(missing: set<string>, modules: set<string>, search: NameSearch, ghost resolve: string -> Callee)
    returns (callees: set<Callee>)
    requires forall n {:trigger ResolveCallee(n, modules)} :: resolve(n) == ResolveCallee(n, modules)
    ensures callees == set n | n in missing :: resolve(n)
  {
    callees := {};
    var todo := missing;
    while todo != {}
      invariant todo <= missing && callees == set n | n in missing - todo :: resolve(n)
      decreases todo
    {
      var name :| name in todo;
      var split;
      match search {
        case Intern => split := EnclosingModule(name, modules);
        case ProbeStr => split := EnclosingModuleStr(name, modules);
      }
      var callee := if split.Some? then Qualified(Key(split.value.0, split.value.1)) else Unqualified(name);
      assert callee == ResolveCallee(name, modules);
      assert missing - (todo - {name}) == (missing - todo) + {name};
      todo, callees := todo - {name}, callees + {callee};
    }
    assert missing - todo == missing;
  }

  method CollectCandidates(table: Table, modules: set<string>, search: NameSearch, ghost resolve: string -> Callee)
    returns (cands: seq<PromotionCandidate>)
    requires forall n {:trigger ResolveCallee(n, modules)} :: resolve(n) == ResolveCallee(n, modules)
    ensures Lists(cands, table, Waits(table, modules, resolve)) && Covers(cands, Waits(table, modules, resolve).Keys)
  {
    ghost var waits := Waits(table, modules, resolve);
    cands := [];
    var todo := table.Keys;
    while todo != {}
      invariant todo <= table.Keys
      invariant Lists(cands, table, waits)
      invariant forall i :: 0 <= i < |cands| ==> cands[i].key !in todo
      invariant Covers(cands, waits.Keys - todo)
      decreases todo
    {
      ghost var rest := todo;
      var key :| key in todo;
      todo := todo - {key};
      if IsCandidate(key, table, modules) {
        var callees := ResolveAll(table[key].missing, modules, search, resolve);
        ghost var before := cands;
        cands := cands + [PromotionCandidate(key, table[key].verdict.Without(UNSAFE_MISSING_DEP), callees)];
        CoversMore(before, cands[|before|], waits.Keys - rest, waits.Keys - todo);
      } else {
        assert waits.Keys - todo == waits.Keys - rest;
      }
    }
    assert waits.Keys - todo == waits.Keys;
  }

  lemma CoversMore(cands: seq<PromotionCandidate>, c: PromotionCandidate, keys: set<Key>, keys': set<Key>)
    requires Covers(cands, keys) && keys' <= keys + {c.key}
    ensures Covers(cands + [c], keys')
  {
    var all := cands + [c];
    forall k | k in keys'
      ensures exists i :: 0 <= i < |all| && all[i].key == k
    {
      if k == c.key {
        assert all[|cands|].key == k;
      } else {
        var i :| 0 <= i < |cands| && cands[i].key == k;
        assert all[i].key == k;
      }
    }
  }

  // ----- The indices of demanded names

  /** The names unqualified callees ask for. */
  ghost predicate AskedFor(name: string, cands: seq<PromotionCandidate>) {
    exists i :: 0 <= i < |cands| && Unqualified(name) in cands[i].callees
  }

  lemma AskedForNext(cands: seq<PromotionCandidate>, i: nat, name: string)
    requires i < |cands|
    ensures AskedFor(name, cands[..i + 1]) <==> AskedFor(name, cands[..i]) || Unqualified(name) in cands[i].callees
  {
    var before, after := cands[..i], cands[..i + 1];
    if AskedFor(name, before) {
      var k :| 0 <= k < |before| && Unqualified(name) in before[k].callees;
      assert after[k] == before[k];
    }
    assert after[i] == cands[i];
  }

  method NamesAskedFor(callees: set<Callee>) returns (names: set<string>)
    ensures forall n :: n in names <==> Unqualified(n) in callees
  {
    names := {};
    var todo := callees;
    while todo != {}
      invariant todo <= callees && forall n :: n in names <==> Unqualified(n) in callees - todo
      decreases todo
    {
      var callee :| callee in todo;
      todo := todo - {callee};
      if callee.Unqualified? {
        names := names + {callee.name};
      }
    }
  }

  method NeededNames(cands: seq<PromotionCandidate>, wanted: set<string>) returns (needed: set<string>)
    ensures forall n :: n in needed <==> n in wanted || AskedFor(n, cands)
  {
    needed := wanted;
    for i := 0 to |cands|
      invariant forall n :: n in needed <==> n in wanted || AskedFor(n, cands[..i])
    {
      var names := NamesAskedFor(cands[i].callees);
      needed := needed + names;
      forall n
        ensures AskedFor(n, cands[..i + 1]) <==> AskedFor(n, cands[..i]) || n in names
      {
        AskedForNext(cands, i, n);
      }
    }
    assert cands[..|cands|] == cands;
  }

  /** The index agrees with a scan of all merged modules for every name that is needed. */
  ghost predicate Indexed(index: set<string>, needed: set<string>, verdict: FunctionSafety, table: Table,
                          modules: set<string>)
  {
    forall n :: n in index <==> n in needed && Somewhere(n, verdict, table, modules)
  }

  method BuildIndex(table: Table, modules: set<string>, needed: set<string>)
    returns (safe: set<string>, ifImported: set<string>)
    ensures Indexed(safe, needed, SAFE, table, modules)
            && Indexed(ifImported, needed, UNSAFE_IF_IMPORTED, table, modules)
  {
    safe, ifImported := {}, {};
    var todo := table.Keys;
    while todo != {}
      invariant todo <= table.Keys
      invariant forall n :: n in safe <==>
        n in needed && exists m :: m in modules && Key(m, n) !in todo && Holds(table, Key(m, n), SAFE)
      invariant forall n :: n in ifImported <==>
        n in needed && exists m :: m in modules && Key(m, n) !in todo && Holds(table, Key(m, n), UNSAFE_IF_IMPORTED)
      decreases todo
    {
      var key :| key in todo;
      todo := todo - {key};
      assert key == Key(key.module_, key.name);
      if key.module_ in modules && key.name in needed {
        if table[key].verdict == SAFE {
          safe := safe + {key.name};
        } else if table[key].verdict == UNSAFE_IF_IMPORTED {
          ifImported := ifImported + {key.name};
        }
      }
    }
  }

  // ----- Verdicts of callees and targets of candidates

  /** A non-blocking verdict for a callee, taken from the indices only when its name has no module. */
  function CalleeVerdict(callee: Callee, table: Table, safe: set<string>, ifImported: set<string>)
    : Option<FunctionSafety>
  {
    match callee
    case Qualified(key) =>
      if key in table && table[key].verdict.NonBlocking() then Some(table[key].verdict) else None
    case Unqualified(name) =>
      if name in safe then Some(SAFE) else if name in ifImported then Some(UNSAFE_IF_IMPORTED) else None
  }

  /** `target` joins the verdicts of the callees to the base verdict, unless one blocks. */
  ghost predicate IsTarget(c: PromotionCandidate, target: Option<FunctionSafety>, table: Table, safe: set<string>,
                           ifImported: set<string>)
  {
    match target
    case None => exists k :: k in c.callees && CalleeVerdict(k, table, safe, ifImported).None?
    case Some(verdict) =>
      && (forall k :: k in c.callees ==> CalleeVerdict(k, table, safe, ifImported).Some?)
      && verdict == JoinedTo(c.base, c.callees, table, safe, ifImported)
  }

  ghost function JoinedTo(base: FunctionSafety, callees: set<Callee>, table: Table, safe: set<string>,
                          ifImported: set<string>)
    : FunctionSafety
  {
    var some := exists k :: k in callees && CalleeVerdict(k, table, safe, ifImported) == Some(UNSAFE_IF_IMPORTED);
    base.(unsafeIfImported := base.unsafeIfImported || some)
  }

  method Target(c: PromotionCandidate, table: Table, safe: set<string>, ifImported: set<string>)
    returns (target: Option<FunctionSafety>)
    ensures IsTarget(c, target, table, safe, ifImported)
  {
    var joined := c.base;
    var todo := c.callees;
    while todo != {}
      invariant todo <= c.callees
      invariant forall k :: k in c.callees - todo ==> CalleeVerdict(k, table, safe, ifImported).Some?
      invariant joined == JoinedTo(c.base, c.callees - todo, table, safe, ifImported)
      decreases todo
    {
      var callee :| callee in todo;
      ghost var done := c.callees - todo;
      todo := todo - {callee};
      assert c.callees - todo == done + {callee};
      var verdict := CalleeVerdict(callee, table, safe, ifImported);
      if verdict.None? {
        return None;
      }
      joined := joined.Insert(verdict.value);
    }
    assert c.callees - todo == c.callees;
    return Some(joined);
  }

  ghost predicate Indices(safe: set<string>, ifImported: set<string>, needed: set<string>, table: Table,
                          modules: set<string>)
  {
    && Indexed(safe, needed, SAFE, table, modules)
    && Indexed(ifImported, needed, UNSAFE_IF_IMPORTED, table, modules)
  }
  /** A callee has a verdict exactly when a non-blocking function answers to it: safe if some function
      that answers is. */
  lemma CalleeClears(callee: Callee, table: Table, modules: set<string>, needed: set<string>, safe: set<string>,
                     ifImported: set<string>)
    requires Indices(safe, ifImported, needed, table, modules)
    requires callee.Unqualified? ==> callee.name in needed
    ensures
      var verdict := CalleeVerdict(callee, table, safe, ifImported);
      && (verdict.Some? <==> Cleared(callee, modules, NonBlockingKeys(table)))
      && (verdict == Some(SAFE) <==> AnsweredBy(callee, SAFE, table, modules))
      && (verdict.Some? ==> verdict.value in {SAFE, UNSAFE_IF_IMPORTED})
  {
    match callee
    case Qualified(key) => QualifiedClears(key, table, modules);
    case Unqualified(name) => UnqualifiedClears(name, table, modules);
  }

  lemma QualifiedClears(key: Key, table: Table, modules: set<string>)
    ensures Cleared(Qualified(key), modules, NonBlockingKeys(table)) <==>
      key in table && table[key].verdict.NonBlocking()
    ensures AnsweredBy(Qualified(key), SAFE, table, modules) <==> key in table && table[key].verdict == SAFE
  {
    assert Answers(Qualified(key), key, modules);
    if key in table {
      assert table[key].verdict == SAFE ==> Holds(table, key, SAFE);
    }
  }

  lemma UnqualifiedClears(name: string, table: Table, modules: set<string>)
    ensures AnsweredBy(Unqualified(name), SAFE, table, modules) <==> Somewhere(name, SAFE, table, modules)
    ensures Cleared(Unqualified(name), modules, NonBlockingKeys(table)) <==>
      Somewhere(name, SAFE, table, modules) || Somewhere(name, UNSAFE_IF_IMPORTED, table, modules)
  {
    forall v: FunctionSafety
      ensures AnsweredBy(Unqualified(name), v, table, modules) <==> Somewhere(name, v, table, modules)
    {
      SomewhereAnswers(name, v, table, modules);
    }
    if Cleared(Unqualified(name), modules, NonBlockingKeys(table)) {
      ClearedIsAnswered(Unqualified(name), table, modules);
    }
    var callee := Unqualified(name);
    if key :| Answers(callee, key, modules) && (Holds(table, key, SAFE) || Holds(table, key, UNSAFE_IF_IMPORTED)) {
      assert key in NonBlockingKeys(table);
    }
  }

  lemma SomewhereAnswers(name: string, verdict: FunctionSafety, table: Table, modules: set<string>)
    ensures AnsweredBy(Unqualified(name), verdict, table, modules) <==> Somewhere(name, verdict, table, modules)
  {
    if key :| Answers(Unqualified(name), key, modules) && Holds(table, key, verdict) {
      assert key == Key(key.module_, name);
    }
    if m :| m in modules && Holds(table, Key(m, name), verdict) {
      assert Answers(Unqualified(name), Key(m, name), modules);
    }
  }

  /** A candidate has a target exactly when it is enabled, and the target is the join of base and callee verdicts. */
  lemma TargetIsJoin(c: PromotionCandidate, target: Option<FunctionSafety>, table: Table, modules: set<string>,
                     needed: set<string>, safe: set<string>, ifImported: set<string>)
    requires Indices(safe, ifImported, needed, table, modules) && c.base.NonBlocking()
    requires forall n :: Unqualified(n) in c.callees ==> n in needed
    requires IsTarget(c, target, table, safe, ifImported)
    ensures target.Some? <==> forall k :: k in c.callees ==> Cleared(k, modules, NonBlockingKeys(table))
    ensures target.Some? ==> target.value == Joined(c.base, c.callees, table, modules)
  {
    forall k | k in c.callees
      ensures CalleeVerdict(k, table, safe, ifImported).Some? <==> Cleared(k, modules, NonBlockingKeys(table))
      ensures CalleeVerdict(k, table, safe, ifImported) == Some(SAFE) <==> AnsweredBy(k, SAFE, table, modules)
      ensures CalleeVerdict(k, table, safe, ifImported).Some? ==>
        CalleeVerdict(k, table, safe, ifImported).value in {SAFE, UNSAFE_IF_IMPORTED}
    {
      CalleeClears(k, table, modules, needed, safe, ifImported);
    }
  }

  // ----- Rounds

  /** What the rounds work on: the candidates with what they wait for, all blocked at the start. */
  ghost predicate Task(cands: seq<PromotionCandidate>, waits: Waiting, start: Table, needed: set<string>) {
    && Lists(cands, start, waits) && Covers(cands, waits.Keys)
    && (forall n :: AskedFor(n, cands) ==> n in needed)
    && forall k :: k in waits ==> Blocked(k, start)
  }

  ghost predicate Blocked(key: Key, table: Table) {
    key in table && table[key].verdict.unsafeMissingDep && !table[key].verdict.hardUnsafe
  }

  ghost predicate Flagged(flags: seq<bool>, cands: seq<PromotionCandidate>, promoted: seq<Key>) {
    |flags| == |cands| && forall i :: 0 <= i < |cands| ==> (flags[i] <==> cands[i].key in promoted)
  }

  /** Candidate `p.0` is enabled in the frozen table, with target `p.1`. */
  ghost predicate Ready(p: (nat, FunctionSafety), cands: seq<PromotionCandidate>, waits: Waiting, frozen: Table,
                        modules: set<string>)
  {
    p.0 < |cands| && Promotable(cands[p.0].key, p.1, waits, frozen, modules)
  }

  ghost predicate Promotable(key: Key, target: FunctionSafety, waits: Waiting, frozen: Table, modules: set<string>) {
    && key in EnabledKeys(frozen, waits, modules)
    && target == Joined(frozen[key].verdict, waits[key], frozen, modules)
  }

  ghost predicate Picks(picked: seq<(nat, FunctionSafety)>, index: nat) {
    exists j :: 0 <= j < |picked| && picked[j].0 == index
  }

  /** Of the first candidates exactly the enabled ones are picked, by rising index. */
  ghost predicate Picked(picked: seq<(nat, FunctionSafety)>, upTo: nat, cands: seq<PromotionCandidate>, waits: Waiting,
                         frozen: Table, modules: set<string>)
  {
    && upTo <= |cands|
    && (forall j :: 0 <= j < |picked| ==> Ready(picked[j], cands, waits, frozen, modules) && picked[j].0 < upTo)
    && (forall i, j :: 0 <= i < j < |picked| ==> picked[i].0 < picked[j].0)
    && forall i :: 0 <= i < upTo && cands[i].key in EnabledKeys(frozen, waits, modules) ==> Picks(picked, i)
  }

  lemma PicksStay(picked: seq<(nat, FunctionSafety)>, p: (nat, FunctionSafety), index: nat)
    ensures Picks(picked, index) || p.0 == index ==> Picks(picked + [p], index)
  {
    var all := picked + [p];
    if j :| 0 <= j < |picked| && picked[j].0 == index {
      assert all[j].0 == index;
    }
    assert all[|picked|] == p;
  }

  /** The next candidate is picked exactly when it is enabled. */
  lemma PickNext(picked: seq<(nat, FunctionSafety)>, i: nat, target: Option<FunctionSafety>,
                 cands: seq<PromotionCandidate>, waits: Waiting, frozen: Table, modules: set<string>)
    requires i < |cands| && Picked(picked, i, cands, waits, frozen, modules)
    requires target.Some? <==> cands[i].key in EnabledKeys(frozen, waits, modules)
    requires target.Some? ==> Promotable(cands[i].key, target.value, waits, frozen, modules)
    ensures Picked(if target.Some? then picked + [(i, target.value)] else picked, i + 1, cands, waits, frozen, modules)
  {
    if target.Some? {
      forall k: nat
        ensures Picks(picked, k) || i == k ==> Picks(picked + [(i, target.value)], k)
      {
        PicksStay(picked, (i, target.value), k);
      }
    }
  }

  /** The candidate is picked exactly when it is enabled. */
  lemma ScanStep(c: PromotionCandidate, target: Option<FunctionSafety>, waits: Waiting, start: Table, table: Table,
                 modules: set<string>, needed: set<string>, safe: set<string>, ifImported: set<string>)
    requires Lifted(c, start, waits) && Blocked(c.key, start) && c.key in table && table[c.key] == start[c.key]
    requires Indices(safe, ifImported, needed, table, modules)
    requires forall n :: Unqualified(n) in c.callees ==> n in needed
    requires IsTarget(c, target, table, safe, ifImported)
    ensures target.Some? <==> c.key in EnabledKeys(table, waits, modules)
    ensures target.Some? ==> Promotable(c.key, target.value, waits, table, modules)
  {
    TargetIsJoin(c, target, table, modules, needed, safe, ifImported);
  }

  /** The unpromoted candidates are as they were at the start. */
  ghost predicate Untouched(flags: seq<bool>, cands: seq<PromotionCandidate>, start: Table, table: Table) {
    |flags| == |cands| && table.Keys == start.Keys
    && forall i :: 0 <= i < |cands| && cands[i].key in start ==>
         if flags[i] then cands[i].key in NonBlockingKeys(table) else table[cands[i].key] == start[cands[i].key]
  }

  /** The candidate is as it was at the start, or promoted already; all names it asks for are indexed. */
  ghost predicate Considered(c: PromotionCandidate, flag: bool, table: Table, waits: Waiting, start: Table,
                             needed: set<string>)
  {
    && Lifted(c, start, waits) && Blocked(c.key, start) && c.key in table
    && (if flag then c.key in NonBlockingKeys(table) else table[c.key] == start[c.key])
    && forall n :: Unqualified(n) in c.callees ==> n in needed
  }

  /** The verdict for a candidate that is not promoted yet, if it is enabled. */
  method Consider(c: PromotionCandidate, flag: bool, table: Table, safe: set<string>, ifImported: set<string>,
                  ghost waits: Waiting, ghost start: Table, ghost modules: set<string>, ghost needed: set<string>)
    returns (target: Option<FunctionSafety>)
    requires Considered(c, flag, table, waits, start, needed)
    requires Indices(safe, ifImported, needed, table, modules)
    ensures target.Some? <==> c.key in EnabledKeys(table, waits, modules)
    ensures target.Some? ==> Promotable(c.key, target.value, waits, table, modules)
  {
    if flag {
      return None;
    }
    target := Target(c, table, safe, ifImported);
    ScanStep(c, target, waits, start, table, modules, needed, safe, ifImported);
  }

  /** Everything a round needs to know about the candidates. */
  lemma TaskIsConsidered(cands: seq<PromotionCandidate>, flags: seq<bool>, table: Table, waits: Waiting, start: Table,
                         needed: set<string>)
    requires Task(cands, waits, start, needed) && Untouched(flags, cands, start, table)
    ensures forall i :: 0 <= i < |cands| ==> Considered(cands[i], flags[i], table, waits, start, needed)
  {
    forall i | 0 <= i < |cands|
      ensures Considered(cands[i], flags[i], table, waits, start, needed)
    {
      assert Lifted(cands[i], start, waits);
      assert forall n :: Unqualified(n) in cands[i].callees ==> AskedFor(n, cands);
    }
  }

  method Scan(cands: seq<PromotionCandidate>, flags: seq<bool>, table: Table, safe: set<string>,
              ifImported: set<string>, ghost waits: Waiting, ghost start: Table, ghost modules: set<string>,
              ghost needed: set<string>)
    returns (picked: seq<(nat, FunctionSafety)>)
    requires |flags| == |cands| && Indices(safe, ifImported, needed, table, modules)
    requires forall i :: 0 <= i < |cands| ==> Considered(cands[i], flags[i], table, waits, start, needed)
    ensures Picked(picked, |cands|, cands, waits, table, modules)
  {
    picked := [];
    for i := 0 to |cands|
      invariant Picked(picked, i, cands, waits, table, modules)
    {
      var target := Consider(cands[i], flags[i], table, safe, ifImported, waits, start, modules, needed);
      PickNext(picked, i, target, cands, waits, table, modules);
      if target.Some? {
        picked := picked + [(i, target.value)];
      }
    }
  }

  // ----- Committing a round

  lemma DerivationExtends(order: seq<Key>, key: Key, waits: Waiting, modules: set<string>, free: set<Key>)
    requires Derivation(order, waits, modules, free) && key !in order
    requires Enabled(key, waits, modules, free + Elements(order))
    ensures Derivation(order + [key], waits, modules, free)
  {
    var all := order + [key];
    forall i | 0 <= i < |all|
      ensures Enabled(all[i], waits, modules, free + Elements(all[..i]))
    {
      assert all[..i] == order[..i];
      assert order[..|order|] == order;
    }
  }

  /** Part of a round is done: `done` was promoted, decided on the frozen table. */
  ghost predicate Underway(table: Table, done: set<Key>, frozen: Table, waits: Waiting, modules: set<string>) {
    done <= EnabledKeys(frozen, waits, modules) && table == Promoted(frozen, done, waits, modules)
  }

  lemma PromotesOneMore(table: Table, done: set<Key>, frozen: Table, waits: Waiting, modules: set<string>, key: Key,
                        target: FunctionSafety)
    requires Underway(table, done, frozen, waits, modules)
    requires Promotable(key, target, waits, frozen, modules) && key !in done
    ensures key in table && Underway(table[key := table[key].(verdict := target)], done + {key}, frozen, waits, modules)
  {
  }

  /** One promotion of a round extends the order of promotions. */
  lemma CommitKeeps(table: Table, done: set<Key>, frozen: Table, promoted: seq<Key>, start: Table, waits: Waiting,
                    modules: set<string>, key: Key)
    requires Underway(table, done, frozen, waits, modules)
             && Underway(Promoted(frozen, done + {key}, waits, modules), done + {key}, frozen, waits, modules)
    requires Account(promoted, table, start, waits, modules) && key !in done
    ensures key !in NonBlockingKeys(table)
    ensures Account(promoted + [key], Promoted(frozen, done + {key}, waits, modules), start, waits, modules)
  {
    StepAdds(frozen, done, waits, modules);
    StepAdds(frozen, done + {key}, waits, modules);
    EnabledGrows(key, waits, modules, NonBlockingKeys(frozen), NonBlockingKeys(table));
    DerivationExtends(promoted, key, waits, modules, NonBlockingKeys(start));
    assert Elements(promoted + [key]) == Elements(promoted) + {key};
  }

  /** Inserting the promoted name when it is demanded keeps an index in agreement with the scan. */
  lemma IndexFollows(index: set<string>, needed: set<string>, verdict: FunctionSafety, table: Table,
                     modules: set<string>, key: Key, target: FunctionSafety)
    requires Indexed(index, needed, verdict, table, modules) && key in table && key.module_ in modules
    requires table[key].verdict != verdict
    ensures
      var index' := if key.name in needed && target == verdict then index + {key.name} else index;
      Indexed(index', needed, verdict, table[key := table[key].(verdict := target)], modules)
  {
    var table' := table[key := table[key].(verdict := target)];
    assert key == Key(key.module_, key.name);
    forall n, m | m in modules
      ensures Holds(table', Key(m, n), verdict) <==>
        Holds(table, Key(m, n), verdict) || (Key(m, n) == key && target == verdict)
    {
    }
    if target == verdict {
      assert Holds(table', Key(key.module_, key.name), verdict);
    }
  }

  method CommitOne(key: Key, target: FunctionSafety, needed: set<string>, table: Table, promoted: seq<Key>,
                   safe: set<string>, ifImported: set<string>, ghost modules: set<string>)
    returns (table': Table, promoted': seq<Key>, safe': set<string>, ifImported': set<string>)
    requires Indices(safe, ifImported, needed, table, modules) && key.module_ in modules
    requires key in table ==> key !in NonBlockingKeys(table)
    ensures table' == if key in table then table[key := table[key].(verdict := target)] else table
    ensures promoted' == if key in table then promoted + [key] else promoted
    ensures Indices(safe', ifImported', needed, table', modules)
  {
    table', promoted', safe', ifImported' := table, promoted, safe, ifImported;
    if key in table {
      IndexFollows(safe, needed, SAFE, table, modules, key, target);
      IndexFollows(ifImported, needed, UNSAFE_IF_IMPORTED, table, modules, key, target);
      table' := table[key := table[key].(verdict := target)];
      if key.name in needed {
        if target.IsSafe() {
          safe' := safe + {key.name};
        } else if target == UNSAFE_IF_IMPORTED {
          ifImported' := ifImported + {key.name};
        }
      }
      promoted' := promoted + [key];
    }
  }

  lemma FlaggedMore(flags: seq<bool>, cands: seq<PromotionCandidate>, promoted: seq<Key>, index: nat)
    requires Flagged(flags, cands, promoted) && Distinct(cands) && index < |cands|
    ensures Flagged(flags[index := true], cands, promoted + [cands[index].key])
  {
  }

  /** The candidates picked from position `j` on are not done. */
  ghost predicate StillOpen(picked: seq<(nat, FunctionSafety)>, j: nat, cands: seq<PromotionCandidate>, done: set<Key>)
  {
    forall k :: j <= k < |picked| && picked[k].0 < |cands| ==> cands[picked[k].0].key !in done
  }

  lemma OpenNext(picked: seq<(nat, FunctionSafety)>, j: nat, cands: seq<PromotionCandidate>, done: set<Key>)
    requires Distinct(cands) && StillOpen(picked, j, cands, done) && j < |picked| && picked[j].0 < |cands|
    requires forall i, k :: 0 <= i < k < |picked| ==> picked[i].0 < picked[k].0
    ensures StillOpen(picked, j + 1, cands, done + {cands[picked[j].0].key})
  {
  }

  /** Everything enabled is done once all that was picked is. */
  lemma RoundIsDone(picked: seq<(nat, FunctionSafety)>, cands: seq<PromotionCandidate>, waits: Waiting, frozen: Table,
                    modules: set<string>, done: set<Key>)
    requires Picked(picked, |cands|, cands, waits, frozen, modules) && Covers(cands, waits.Keys)
    requires forall k :: 0 <= k < |picked| ==> picked[k].0 < |cands| && cands[picked[k].0].key in done
    ensures EnabledKeys(frozen, waits, modules) <= done
  {
    forall key | key in EnabledKeys(frozen, waits, modules)
      ensures key in done
    {
      var i :| 0 <= i < |cands| && cands[i].key == key;
      assert Picks(picked, i);
    }
  }

  /** The first `j` of the picked candidates have been promoted. */
  ghost predicate Committed(j: nat, picked: seq<(nat, FunctionSafety)>, cands: seq<PromotionCandidate>,
                            flags: seq<bool>, table: Table, promoted: seq<Key>, done: set<Key>, frozen: Table,
                            start: Table, waits: Waiting, modules: set<string>)
  {
    && Flagged(flags, cands, promoted) && Account(promoted, table, start, waits, modules)
    && Underway(table, done, frozen, waits, modules) && StillOpen(picked, j, cands, done)
    && forall k :: 0 <= k < j && k < |picked| ==> picked[k].0 < |cands| && cands[picked[k].0].key in done
  }

  lemma CommitNext(j: nat, picked: seq<(nat, FunctionSafety)>, cands: seq<PromotionCandidate>, flags: seq<bool>,
                   table: Table, promoted: seq<Key>, done: set<Key>, frozen: Table, start: Table, waits: Waiting,
                   modules: set<string>)
    requires Committed(j, picked, cands, flags, table, promoted, done, frozen, start, waits, modules)
    requires Picked(picked, |cands|, cands, waits, frozen, modules) && j < |picked| && Distinct(cands)
    ensures
      var (index, target) := picked[j];
      && index < |cands| && cands[index].key in waits && cands[index].key in table
      && cands[index].key !in NonBlockingKeys(table)
      && var key := cands[index].key;
         Committed(j + 1, picked, cands, flags[index := true], table[key := table[key].(verdict := target)],
                   promoted + [key], done + {key}, frozen, start, waits, modules)
  {
    var (index, target) := picked[j];
    assert Ready(picked[j], cands, waits, frozen, modules);
    var key := cands[index].key;
    PromotesOneMore(table, done, frozen, waits, modules, key, target);
    CommitKeeps(table, done, frozen, promoted, start, waits, modules, key);
    FlaggedMore(flags, cands, promoted, index);
    OpenNext(picked, j, cands, done);
  }

  method CommitAll(cands: seq<PromotionCandidate>, picked: seq<(nat, FunctionSafety)>, flags: seq<bool>,
                   needed: set<string>, table: Table, promoted: seq<Key>, safe: set<string>, ifImported: set<string>,
                   ghost waits: Waiting, ghost start: Table, ghost modules: set<string>)
    returns (flags': seq<bool>, table': Table, promoted': seq<Key>, safe': set<string>, ifImported': set<string>,
             ghost done: set<Key>)
    requires Distinct(cands) && (forall k :: k in waits ==> k.module_ in modules)
    requires Committed(0, picked, cands, flags, table, promoted, {}, table, start, waits, modules)
    requires Indices(safe, ifImported, needed, table, modules) && Picked(picked, |cands|, cands, waits, table, modules)
    ensures Committed(|picked|, picked, cands, flags', table', promoted', done, table, start, waits, modules)
    ensures Indices(safe', ifImported', needed, table', modules)
  {
    flags', table', promoted', safe', ifImported', done := flags, table, promoted, safe, ifImported, {};
    for j := 0 to |picked|
      invariant Committed(j, picked, cands, flags', table', promoted', done, table, start, waits, modules)
      invariant Indices(safe', ifImported', needed, table', modules)
    {
      var (index, target) := picked[j];
      CommitNext(j, picked, cands, flags', table', promoted', done, table, start, waits, modules);
      var key := cands[index].key;
      flags' := flags'[index := true];
      table', promoted', safe', ifImported' :=
        CommitOne(key, target, needed, table', promoted', safe', ifImported', modules);
      done := done + {key};
    }
  }

  /** Commit what a round picked: that is the whole round. */
  method Commit(cands: seq<PromotionCandidate>, picked: seq<(nat, FunctionSafety)>, flags: seq<bool>,
                needed: set<string>, table: Table, promoted: seq<Key>, safe: set<string>, ifImported: set<string>,
                ghost waits: Waiting, ghost start: Table, ghost modules: set<string>)
    returns (flags': seq<bool>, table': Table, promoted': seq<Key>, safe': set<string>, ifImported': set<string>)
    requires Task(cands, waits, start, needed) && (forall k :: k in waits ==> k.module_ in modules)
    requires Flagged(flags, cands, promoted) && Account(promoted, table, start, waits, modules)
    requires Indices(safe, ifImported, needed, table, modules) && Picked(picked, |cands|, cands, waits, table, modules)
    ensures table' == Round(table, waits, modules)
    ensures Flagged(flags', cands, promoted') && Account(promoted', table', start, waits, modules)
    ensures Indices(safe', ifImported', needed, table', modules)
  {
    ghost var done;
    assert Promoted(table, {}, waits, modules) == table;
    flags', table', promoted', safe', ifImported', done :=
      CommitAll(cands, picked, flags, needed, table, promoted, safe, ifImported, waits, start, modules);
    RoundIsDone(picked, cands, waits, table, modules, done);
  }

  // ----- The fixpoint

  /** After any number of rounds the unpromoted candidates are as they were at the start. */
  lemma RoundsLeaveRest(n: nat, flags: seq<bool>, cands: seq<PromotionCandidate>, promoted: seq<Key>, start: Table,
                        waits: Waiting, modules: set<string>, needed: set<string>)
    requires Task(cands, waits, start, needed) && Flagged(flags, cands, promoted)
    requires Account(promoted, After(n, start, waits, modules), start, waits, modules)
    ensures Untouched(flags, cands, start, After(n, start, waits, modules))
  {
    LaterKeeps(0, n, start, waits, modules);
    forall i | 0 <= i < |cands|
      ensures
        var key, table := cands[i].key, After(n, start, waits, modules);
        key in table && if flags[i] then key in NonBlockingKeys(table) else table[key] == start[key]
    {
      assert Lifted(cands[i], start, waits) && Blocked(cands[i].key, start);
      AfterFacts(n, start, waits, modules, cands[i].key);
    }
  }

  /** A round that promotes leaves fewer functions that block. */
  lemma FewerBlocked(table: Table, waits: Waiting, modules: set<string>, keys: set<Key>)
    requires EnabledKeys(table, waits, modules) != {} && table.Keys <= keys
    ensures keys - NonBlockingKeys(Round(table, waits, modules)) < keys - NonBlockingKeys(table)
  {
    RoundAdds(table, waits, modules);
    var k :| k in EnabledKeys(table, waits, modules);
    assert k in keys - NonBlockingKeys(table);
  }

  method OneRound(cands: seq<PromotionCandidate>, flags: seq<bool>, needed: set<string>, table: Table,
                  promoted: seq<Key>, safe: set<string>, ifImported: set<string>, ghost n: nat, ghost waits: Waiting,
                  ghost start: Table, ghost modules: set<string>)
    returns (more: bool, flags': seq<bool>, table': Table, promoted': seq<Key>, safe': set<string>,
             ifImported': set<string>)
    requires Task(cands, waits, start, needed) && (forall k :: k in waits ==> k.module_ in modules)
    requires table == After(n, start, waits, modules)
    requires Flagged(flags, cands, promoted) && Account(promoted, table, start, waits, modules)
    requires Indices(safe, ifImported, needed, table, modules)
    ensures more <==> EnabledKeys(table, waits, modules) != {}
    ensures !more ==> table' == table && promoted' == promoted && safe' == safe
    ensures more ==> table' == Round(table, waits, modules)
    ensures Flagged(flags', cands, promoted') && Account(promoted', table', start, waits, modules)
    ensures Indices(safe', ifImported', needed, table', modules)
  {
    RoundsLeaveRest(n, flags, cands, promoted, start, waits, modules, needed);
    TaskIsConsidered(cands, flags, table, waits, start, needed);
    var picked := Scan(cands, flags, table, safe, ifImported, waits, start, modules, needed);
    more := picked != [];
    if more {
      assert Ready(picked[0], cands, waits, table, modules);
      flags', table', promoted', safe', ifImported' :=
        Commit(cands, picked, flags, needed, table, promoted, safe, ifImported, waits, start, modules);
    } else {
      RoundIsDone(picked, cands, waits, table, modules, {});
      flags', table', promoted', safe', ifImported' := flags, table, promoted, safe, ifImported;
    }
  }

  /** Rounds of promotions, each decided on a frozen table and committed together, until one promotes nothing. */
  method Rounds(cands: seq<PromotionCandidate>, start: Table, modules: set<string>, needed: set<string>,
                ghost waits: Waiting)
    returns (table: Table, promoted: seq<Key>, safe: set<string>)
    requires waits == WaitsOf(start, modules) && Task(cands, waits, start, needed)
    ensures Outcome(start, table, promoted, modules)
    ensures Indexed(safe, needed, SAFE, table, modules)
  {
    var ifImported;
    safe, ifImported := BuildIndex(start, modules, needed);
    table, promoted := start, [];
    var flags, more := seq(|cands|, _ => false), true;
    ghost var n := 0;
    while more
      invariant table == After(n, start, waits, modules)
      invariant Flagged(flags, cands, promoted) && Account(promoted, table, start, waits, modules)
      invariant Indices(safe, ifImported, needed, table, modules)
      invariant !more ==> EnabledKeys(table, waits, modules) == {}
      decreases start.Keys - NonBlockingKeys(table), if more then 1 else 0
    {
      LaterKeeps(0, n, start, waits, modules);
      if EnabledKeys(table, waits, modules) != {} {
        FewerBlocked(table, waits, modules, start.Keys);
      }
      more, flags, table, promoted, safe, ifImported :=
        OneRound(cands, flags, needed, table, promoted, safe, ifImported, n, waits, start, modules);
      n := if more then n + 1 else n;
    }
    QuietIsFixpoint(n, start, modules);
    LaterKeeps(0, n, start, waits, modules);
    QuietIsClosed(promoted, table, start, waits, modules);
  }

  /** The names an unqualified callee of some candidate asks for. */
  ghost function DemandedNames(table: Table, modules: set<string>): set<string> {
    set k, n | k in table && IsCandidate(k, table, modules) && n in table[k].missing && SplitKey(n, modules).None? :: n
  }

  lemma AskedIsDemanded(cands: seq<PromotionCandidate>, i: nat, n: string, table: Table, modules: set<string>)
    requires i < |cands| && Lifted(cands[i], table, WaitsOf(table, modules)) && Unqualified(n) in cands[i].callees
    ensures n in DemandedNames(table, modules)
  {
    var resolve := Resolver(modules);
    var key := cands[i].key;
    assert IsCandidate(key, table, modules);
    var name :| name in table[key].missing && resolve(name) == Unqualified(n);
    assert ResolveCallee(name, modules) == Unqualified(n);
  }

  lemma DemandedIsAsked(cands: seq<PromotionCandidate>, i: nat, n: string, table: Table, modules: set<string>)
    requires i < |cands| && Lifted(cands[i], table, WaitsOf(table, modules))
    requires n in table[cands[i].key].missing && SplitKey(n, modules).None?
    ensures AskedFor(n, cands)
  {
    assert Resolver(modules)(n) == Unqualified(n);
    assert Unqualified(n) in cands[i].callees;
  }

  lemma DemandIsExact(cands: seq<PromotionCandidate>, table: Table, modules: set<string>, n: string)
    requires Lists(cands, table, WaitsOf(table, modules)) && Covers(cands, WaitsOf(table, modules).Keys)
    ensures AskedFor(n, cands) <==> n in DemandedNames(table, modules)
  {
    if i :| 0 <= i < |cands| && Unqualified(n) in cands[i].callees {
      AskedIsDemanded(cands, i, n, table, modules);
    }
    if k :| k in table && IsCandidate(k, table, modules) && n in table[k].missing && SplitKey(n, modules).None? {
      assert k in WaitsOf(table, modules);
      var i :| 0 <= i < |cands| && cands[i].key == k;
      DemandedIsAsked(cands, i, n, table, modules);
    }
  }

  method PromoteFixpoint(table: Table, modules: set<string>, wanted: set<string>, search: NameSearch)
    returns (table': Table, promoted: seq<Key>, globallySafe: set<string>)
    ensures Outcome(table, table', promoted, modules)
    ensures Indexed(globallySafe, wanted + DemandedNames(table, modules), SAFE, table', modules)
  {
    ghost var waits := WaitsOf(table, modules);
    var cands := CollectCandidates(table, modules, search, Resolver(modules));
    var needed := NeededNames(cands, wanted);
    forall n
      ensures AskedFor(n, cands) <==> n in DemandedNames(table, modules)
    {
      DemandIsExact(cands, table, modules, n);
    }
    table', promoted, globallySafe := Rounds(cands, table, modules, needed, waits);
  }
}
