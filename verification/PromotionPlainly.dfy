/** What promotion does, told by the fields of records and names alone: the meaning of `promote_fixpoint` of
    `src/resolution.rs`. */
module PromotionPlainly {
  import opened Wrappers
  import opened Names
  import opened Safety
  import opened Resolution
  import opened Promotion
  import PromotionRounds

  /** Which verdict a missing callee is asked for. */
  datatype Asked = NotBlocking | Safe

  ghost predicate Fits(verdict: FunctionSafety, asked: Asked) {
    match asked
    case NotBlocking => !verdict.unsafeMissingDep && !verdict.hardUnsafe
    case Safe => verdict == FunctionSafety(false, false, false)
  }

  ghost predicate HoldsFitting(table: Table, key: Key, asked: Asked) {
    key in table && Fits(table[key].verdict, asked)
  }

  /** The function the name stands for fits, or, when no prefix of the name is a module, some function of
      that name does. */
  ghost predicate AnsweredPlainly(name: string, asked: Asked, table: Table, modules: set<string>) {
    || (exists m, l :: SplitsAt(name, modules, m, l) && HoldsFitting(table, Key(m, l), asked))
    || ((forall q :: IsParent(q, name) ==> q !in modules)
        && exists m :: m in modules && HoldsFitting(table, Key(m, name), asked))
  }

  /** A function of a merged module that only missing callees keep from being judged. */
  ghost predicate IsWaiting(key: Key, table: Table, modules: set<string>) {
    && key in table && key.module_ in modules
    && table[key].verdict.unsafeMissingDep && !table[key].verdict.hardUnsafe && table[key].missing != {}
  }

  ghost predicate AllAnswered(missing: set<string>, asked: Asked, table: Table, modules: set<string>) {
    forall n :: n in missing ==> AnsweredPlainly(n, asked, table, modules)
  }

  // ----- Callees

  lemma AnswersPlainly(name: string, asked: Asked, table: Table, modules: set<string>)
    ensures AnsweredPlainly(name, asked, table, modules) <==>
      exists key :: Answers(ResolveCallee(name, modules), key, modules) && HoldsFitting(table, key, asked)
  {
    var split := EnclosingModule(name, modules);
    if split.Some? {
      SplitAnswers(name, asked, table, modules, split.value.0, split.value.1);
    } else {
      NameAnswers(name, asked, table, modules);
    }
  }

  lemma SplitAnswers(name: string, asked: Asked, table: Table, modules: set<string>, m: string, l: string)
    requires SplitsAt(name, modules, m, l)
    ensures AnsweredPlainly(name, asked, table, modules) <==> HoldsFitting(table, Key(m, l), asked)
    ensures ResolveCallee(name, modules) == Qualified(Key(m, l))
  {
    SplitUnique(name, modules, m, l);
    if a, b :| SplitsAt(name, modules, a, b) && HoldsFitting(table, Key(a, b), asked) {
      SplitUnique(name, modules, a, b);
    }
  }

  lemma NameAnswers(name: string, asked: Asked, table: Table, modules: set<string>)
    requires EnclosingModule(name, modules).None?
    ensures ResolveCallee(name, modules) == Callee.Unqualified(name)
    ensures AnsweredPlainly(name, asked, table, modules) <==>
      exists key :: Answers(Callee.Unqualified(name), key, modules) && HoldsFitting(table, key, asked)
  {
    assert forall m, l :: !SplitsAt(name, modules, m, l);
    if m :| m in modules && HoldsFitting(table, Key(m, name), asked) {
      assert Answers(Callee.Unqualified(name), Key(m, name), modules);
    }
    if key :| Answers(Callee.Unqualified(name), key, modules) && HoldsFitting(table, key, asked) {
      assert key == Key(key.module_, name);
    }
  }

  lemma ClearedPlainly(name: string, table: Table, modules: set<string>)
    ensures Cleared(ResolveCallee(name, modules), modules, NonBlockingKeys(table)) <==>
      AnsweredPlainly(name, NotBlocking, table, modules)
  {
    AnswersPlainly(name, NotBlocking, table, modules);
    var callee := ResolveCallee(name, modules);
    if key :| Answers(callee, key, modules) && HoldsFitting(table, key, NotBlocking) {
      assert key in NonBlockingKeys(table);
    }
    if key :| key in NonBlockingKeys(table) && Answers(callee, key, modules) {
      assert HoldsFitting(table, key, NotBlocking);
    }
  }

  lemma SafePlainly(name: string, table: Table, modules: set<string>)
    ensures AnsweredBy(ResolveCallee(name, modules), SAFE, table, modules) <==>
      AnsweredPlainly(name, Safe, table, modules)
  {
    AnswersPlainly(name, Safe, table, modules);
    var callee := ResolveCallee(name, modules);
    if key :| Answers(callee, key, modules) && HoldsFitting(table, key, Safe) {
      assert Holds(table, key, SAFE);
    }
    if key :| Answers(callee, key, modules) && Holds(table, key, SAFE) {
      assert HoldsFitting(table, key, Safe);
    }
  }

  // ----- Who waits, and for what

  lemma WaitsPlainly(start: Table, modules: set<string>, key: Key)
    ensures key in WaitsOf(start, modules) <==> IsWaiting(key, start, modules)
    ensures key in WaitsOf(start, modules) ==>
      WaitsOf(start, modules)[key] == set n | n in start[key].missing :: ResolveCallee(n, modules)
  {
    if key in WaitsOf(start, modules) {
      var resolve := Resolver(modules);
      forall c
        ensures c in WaitsOf(start, modules)[key] <==> c in set n | n in start[key].missing :: ResolveCallee(n, modules)
      {
        if c in WaitsOf(start, modules)[key] {
          var n :| n in start[key].missing && resolve(n) == c;
        }
        if n :| n in start[key].missing && ResolveCallee(n, modules) == c {
          assert resolve(n) == c;
        }
      }
    }
  }

  lemma EnabledPlainly(start: Table, modules: set<string>, key: Key, table: Table)
    requires IsWaiting(key, start, modules)
    ensures Enabled(key, WaitsOf(start, modules), modules, NonBlockingKeys(table)) <==>
      AllAnswered(start[key].missing, NotBlocking, table, modules)
    ensures AllSafe(WaitsOf(start, modules)[key], table, modules) <==>
      AllAnswered(start[key].missing, Safe, table, modules)
  {
    WaitsPlainly(start, modules, key);
    var callees := WaitsOf(start, modules)[key];
    forall n | n in start[key].missing
      ensures ResolveCallee(n, modules) in callees
      ensures Cleared(ResolveCallee(n, modules), modules, NonBlockingKeys(table)) <==>
        AnsweredPlainly(n, NotBlocking, table, modules)
      ensures AnsweredBy(ResolveCallee(n, modules), SAFE, table, modules) <==> AnsweredPlainly(n, Safe, table, modules)
    {
      ClearedPlainly(n, table, modules);
      SafePlainly(n, table, modules);
    }
  }

  // ----- One round, and the end

  /** What one round makes of a function. */
  ghost predicate BecomesPlainly(next: Info, key: Key, table: Table, modules: set<string>)
    requires key in table
  {
    var info := table[key];
    if IsWaiting(key, table, modules) && AllAnswered(info.missing, NotBlocking, table, modules) then
      next == info.(verdict := FunctionSafety(
                      info.verdict.unsafeIfImported || !AllAnswered(info.missing, Safe, table, modules), false, false))
    else next == info
  }

  /** A round promotes exactly the waiting functions whose missing callees all have an answer that does not block,
      each to unsafe-if-imported when it was so or some callee has no safe answer in the table the round
      started from. */
  lemma RoundPlainly(n: nat, start: Table, modules: set<string>, key: Key)
    requires key in start
    ensures After(0, start, WaitsOf(start, modules), modules) == start
    ensures
      var table, next :=
        After(n, start, WaitsOf(start, modules), modules), After(n + 1, start, WaitsOf(start, modules), modules);
      key in table && key in next && BecomesPlainly(next[key], key, table, modules)
  {
    var waits := WaitsOf(start, modules);
    var table := After(n, start, waits, modules);
    AfterFacts(n, start, waits, modules, key);
    WaitsPlainly(start, modules, key);
    if IsWaiting(key, start, modules) {
      EnabledPlainly(start, modules, key, table);
    }
    assert key in EnabledKeys(table, waits, modules) <==>
      IsWaiting(key, table, modules) && AllAnswered(table[key].missing, NotBlocking, table, modules);
  }

  /** In the end exactly those waiting functions stopped blocking whose missing callees all have an answer that does not
      block; every other function is as it was. */
  lemma EndPlainly(start: Table, modules: set<string>, key: Key)
    requires key in start
    ensures
      var end := Fixpoint(start, modules);
      && key in end
      && (if IsWaiting(key, start, modules) && AllAnswered(start[key].missing, NotBlocking, end, modules)
          then end[key] == start[key].(verdict := end[key].verdict) && Fits(end[key].verdict, NotBlocking)
          else end[key] == start[key])
  {
    if IsWaiting(key, start, modules) {
      EnabledPlainly(start, modules, key, Fixpoint(start, modules));
      WaitingEnds(start, modules, key);
    } else {
      OthersEnd(start, modules, key);
    }
  }

  lemma WaitingEnds(start: Table, modules: set<string>, key: Key)
    requires IsWaiting(key, start, modules)
    ensures
      var waits, end := WaitsOf(start, modules), Fixpoint(start, modules);
      && key in end
      && (if Enabled(key, waits, modules, NonBlockingKeys(end))
          then end[key] == start[key].(verdict := end[key].verdict) && Fits(end[key].verdict, NotBlocking)
          else end[key] == start[key])
  {
    var waits, end := WaitsOf(start, modules), Fixpoint(start, modules);
    AfterFacts(|waits|, start, waits, modules, key);
    FixpointIsQuiet(start, modules);
    WaitsPlainly(start, modules, key);
    if key in NonBlockingKeys(end) {
      StaysEnabled(start, modules, key);
    } else {
      assert key !in EnabledKeys(end, waits, modules);
    }
  }

  lemma OthersEnd(start: Table, modules: set<string>, key: Key)
    requires key in start && !IsWaiting(key, start, modules)
    ensures key in Fixpoint(start, modules) && Fixpoint(start, modules)[key] == start[key]
  {
    var waits := WaitsOf(start, modules);
    AfterFacts(|waits|, start, waits, modules, key);
    FixpointKeeps(0, start, modules);
    WaitsPlainly(start, modules, key);
  }

  /** What was promoted has its callees cleared in the end, and only its verdict changed. */
  lemma StaysEnabled(start: Table, modules: set<string>, key: Key)
    requires key in start && key !in NonBlockingKeys(start) && key in NonBlockingKeys(Fixpoint(start, modules))
    ensures Enabled(key, WaitsOf(start, modules), modules, NonBlockingKeys(Fixpoint(start, modules)))
    ensures Fixpoint(start, modules)[key] == start[key].(verdict := Fixpoint(start, modules)[key].verdict)
  {
    var waits := WaitsOf(start, modules);
    VerdictIsExact(start, modules, key);
    var n: nat :| PromotedIn(key, n, start, waits, modules);
    var table := After(n, start, waits, modules);
    FixpointKeeps(n, start, modules);
    KeepsAreKept(table, Fixpoint(start, modules));
    EnabledGrows(key, waits, modules, NonBlockingKeys(table), NonBlockingKeys(Fixpoint(start, modules)));
    AfterFacts(n, start, waits, modules, key);
    RoundAdds(table, waits, modules);
    FixpointKeeps(n + 1, start, modules);
  }

  lemma NoModulePrefix(name: string, modules: set<string>)
    ensures SplitKey(name, modules).None? <==> forall q :: IsParent(q, name) ==> q !in modules
  {
    var split := EnclosingModule(name, modules);
    if split.Some? {
      assert IsParent(split.value.0, name) && split.value.0 in modules;
    }
  }

  /** The names that promotion demands from the index: the missing callees of waiting functions no prefix of which is a
      module. */
  lemma DemandPlainly(table: Table, modules: set<string>, name: string)
    ensures name in PromotionRounds.DemandedNames(table, modules) <==>
      && (exists key :: IsWaiting(key, table, modules) && name in table[key].missing)
      && forall q :: IsParent(q, name) ==> q !in modules
  {
    NoModulePrefix(name, modules);
    if key :| IsWaiting(key, table, modules) && name in table[key].missing {
      assert IsCandidate(key, table, modules);
    }
    if name in PromotionRounds.DemandedNames(table, modules) {
      var key :| key in table && IsCandidate(key, table, modules) && name in table[key].missing;
      assert IsWaiting(key, table, modules);
    }
  }
}
