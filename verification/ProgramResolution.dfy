/** The phases of resolution together: `resolve_program` of `src/resolution.rs`. */
module ProgramResolution {
  import opened Wrappers
  import opened Names
  import opened Safety
  import opened Resolution
  import opened Promotion
  import PromotionRounds

  // ----- Names that errors ask for

  function TrimCalls(s: string): string {
    if |s| >= 2 && s[|s| - 2..] == "()" then TrimCalls(s[..|s| - 2]) else s
  }

  /** The name an error asks the index for: its metadata without trailing calls, if that has no dot. */
  function UnqualifiedIndexKey(metadata: string): Option<string> {
    var name := TrimCalls(metadata);
    if '.' in name then None else Some(name)
  }

  /** `name` with pairs of parentheses behind it, all of them. */
  ghost predicate IsWithoutCalls(name: string, metadata: string) {
    && name <= metadata && (|metadata| - |name|) % 2 == 0
    && (forall i :: |name| <= i < |metadata| ==> metadata[i] == if (i - |name|) % 2 == 0 then '(' else ')')
    && !EndsInCall(name)
  }

  ghost predicate EndsInCall(name: string) {
    |name| >= 2 && name[|name| - 2] == '(' && name[|name| - 1] == ')'
  }

  lemma {:induction false} TrimsAll(s: string)
    ensures IsWithoutCalls(TrimCalls(s), s)
  {
    if |s| >= 2 {
      assert s[|s| - 2..] == [s[|s| - 2], s[|s| - 1]];
    }
    if EndsInCall(s) {
      TrimsAll(s[..|s| - 2]);
      OneMoreCall(TrimCalls(s), s);
    }
  }

  lemma OneMoreCall(name: string, s: string)
    requires EndsInCall(s) && IsWithoutCalls(name, s[..|s| - 2])
    ensures IsWithoutCalls(name, s)
  {
  }

  lemma ShorterIsNot(a: string, b: string, s: string)
    requires IsWithoutCalls(a, s) && IsWithoutCalls(b, s)
    ensures |a| <= |b|
  {
    if |b| < |a| {
      assert false;
    }
  }

  /** An error asks for exactly the name its metadata calls, if that has no dot. */
  lemma BareNameExactly(metadata: string, name: string)
    ensures UnqualifiedIndexKey(metadata) == Some(name) <==> IsWithoutCalls(name, metadata) && '.' !in name
  {
    TrimsAll(metadata);
    if IsWithoutCalls(name, metadata) {
      ShorterIsNot(name, TrimCalls(metadata), metadata);
      ShorterIsNot(TrimCalls(metadata), name, metadata);
      assert name == metadata[..|name|] == TrimCalls(metadata);
    }
  }

  /** The bare names some error asks for. */
  ghost function ErrorNames(errors: seq<Emitted>): set<string> {
    set e | e in errors && UnqualifiedIndexKey(e.metadata).Some? :: UnqualifiedIndexKey(e.metadata).value
  }

  method IndexErrors(errors: seq<Emitted>, needed: set<string>) returns (wanted: set<string>)
    ensures wanted == needed + ErrorNames(errors)
  {
    wanted := needed;
    for i := 0 to |errors|
      invariant wanted == needed + ErrorNames(errors[..i])
    {
      assert errors[..i + 1] == errors[..i] + [errors[i]];
      var name := UnqualifiedIndexKey(errors[i].metadata);
      if name.Some? {
        wanted := wanted + {name.value};
      }
    }
    assert errors[..|errors|] == errors;
  }

  // ----- The whole resolution

  /** The table resolution ends in. */
  ghost function Final(pairs: seq<Pair>, modules: set<string>, table: Table): Table {
    Fixpoint(AfterCandidates(pairs, modules, table), modules)
  }

  /** The order in which candidates come shows neither in the final verdicts nor in the errors, as multisets. */
  lemma ResolutionIsOrderFree(pairs: seq<Pair>, pairs': seq<Pair>, modules: set<string>, table: Table)
    requires multiset(pairs) == multiset(pairs')
    ensures Final(pairs, modules, table) == Final(pairs', modules, table)
    ensures multiset(Emissions(pairs, Mutation(modules, table))) ==
      multiset(Emissions(pairs', Mutation(modules, table)))
  {
    forall p
      ensures p in pairs <==> p in pairs'
    {
      assert p in pairs <==> p in multiset(pairs);
    }
    OrderFree(pairs, pairs', modules, table);
  }

  /** Candidates first, then promotion with every name that errors and callees ask for. */
  method ResolveProgram(pairs: seq<Pair>, modules: set<string>, table: Table, needed: set<string>,
                        search: PromotionRounds.NameSearch)
    returns (end: Table, promoted: seq<Key>, globallySafe: set<string>, errors: seq<Emitted>)
    ensures end == Final(pairs, modules, table)
    ensures Outcome(AfterCandidates(pairs, modules, table), end, promoted, modules)
    ensures errors == Emissions(pairs, Mutation(modules, table))
    ensures
      var demanded := PromotionRounds.DemandedNames(AfterCandidates(pairs, modules, table), modules);
      PromotionRounds.Indexed(globallySafe, needed + ErrorNames(errors) + demanded, SAFE, end, modules)
  {
    var mid;
    mid, errors := ApplyMutationCandidates(pairs, modules, table);
    var wanted := IndexErrors(errors, needed);
    end, promoted, globallySafe := PromotionRounds.PromoteFixpoint(mid, modules, wanted, search);
  }

  // ----- Soundness

  /** A missing callee that no longer stands in the way: some function that answers to it does not block, or the
      callee is unresolved and one of the function's own unconfirmed candidates calls it. */
  ghost predicate Accounted(pairs: seq<Pair>, modules: set<string>, table: Table, key: Key, callee: string) {
    var end := Final(pairs, modules, table);
    || Cleared(ResolveCallee(callee, modules), modules, NonBlockingKeys(end))
    || (LookupCallee(callee, modules, end).None? && OwnDischarge(pairs, modules, table, key, callee))
  }

  ghost predicate OwnDischarge(pairs: seq<Pair>, modules: set<string>, table: Table, key: Key, callee: string) {
    exists p :: p in pairs && Charged(p) == Some(key) && p.candidate.callee == callee
                && !MutatesImported(p.candidate, modules, table)
  }

  /** A function that loses its missing dependency without becoming unsafe has every originally missing callee
      accounted for. */
  lemma ResolutionIsSound(pairs: seq<Pair>, modules: set<string>, table: Table, key: Key, callee: string)
    requires key in table && table[key].verdict.unsafeMissingDep && callee in table[key].missing
    requires
      var end := Final(pairs, modules, table);
      key in end && !end[key].verdict.unsafeMissingDep && !end[key].verdict.hardUnsafe
    ensures Accounted(pairs, modules, table, key, callee)
  {
    var mid := AfterCandidates(pairs, modules, table);
    CandidatesNeverClear(pairs, modules, table, key);
    if callee in mid[key].missing {
      ClearedByPromotion(mid, modules, key, callee);
    } else {
      NeverHardened(mid, modules, key);
      DroppedIsHarmless(pairs, modules, table, key, callee);
      HarmlessIsAccounted(pairs, modules, table, key, callee);
    }
  }

  /** Promotion clears a function only with all callees it still waits for. */
  lemma ClearedByPromotion(start: Table, modules: set<string>, key: Key, callee: string)
    requires key in start && callee in start[key].missing && key !in NonBlockingKeys(start)
    requires key in NonBlockingKeys(Fixpoint(start, modules))
    ensures Cleared(ResolveCallee(callee, modules), modules, NonBlockingKeys(Fixpoint(start, modules)))
  {
    var waits := WaitsOf(start, modules);
    VerdictIsExact(start, modules, key);
    var n: nat :| PromotedIn(key, n, start, waits, modules);
    var frozen := After(n, start, waits, modules);
    assert Resolver(modules)(callee) == ResolveCallee(callee, modules);
    FixpointKeeps(n, start, modules);
    KeepsAreKept(frozen, Fixpoint(start, modules));
    EnabledGrows(key, waits, modules, NonBlockingKeys(frozen), NonBlockingKeys(Fixpoint(start, modules)));
  }

  lemma NeverHardened(start: Table, modules: set<string>, key: Key)
    requires key in start
    ensures key in Fixpoint(start, modules)
    ensures start[key].verdict.hardUnsafe ==> Fixpoint(start, modules)[key] == start[key]
  {
    var waits := WaitsOf(start, modules);
    AfterFacts(|waits|, start, waits, modules, key);
  }

  /** What was safe stays safe. */
  lemma SafeIsKept(start: Table, modules: set<string>, key: Key)
    requires Holds(start, key, SAFE)
    ensures key in NonBlockingKeys(Fixpoint(start, modules))
  {
    FixpointKeeps(0, start, modules);
    KeepsAreKept(start, Fixpoint(start, modules));
  }

  lemma HarmlessIsAccounted(pairs: seq<Pair>, modules: set<string>, table: Table, key: Key, callee: string)
    requires Harmless(pairs, modules, table, AfterCandidates(pairs, modules, table), key, callee)
    ensures Accounted(pairs, modules, table, key, callee)
  {
    var mid := AfterCandidates(pairs, modules, table);
    var target := SplitKey(callee, modules);
    if target.Some? && target.value in mid {
      SafeIsKept(mid, modules, target.value);
      assert Answers(ResolveCallee(callee, modules), target.value, modules);
    } else {
      FixpointKeeps(0, mid, modules);
    }
  }

  /** A missing callee of a function that ends safe: a safe function answers to it in the end, or it is unresolved
      and one of the function's own unconfirmed candidates calls it. */
  ghost predicate SafelyAccounted(pairs: seq<Pair>, modules: set<string>, table: Table, key: Key, callee: string) {
    var end := Final(pairs, modules, table);
    || AnsweredBy(ResolveCallee(callee, modules), SAFE, end, modules)
    || (LookupCallee(callee, modules, end).None? && OwnDischarge(pairs, modules, table, key, callee))
  }

  /** A function that loses its missing dependency and ends safe has every originally missing callee safely
      accounted for. */
  lemma SafeIsSound(pairs: seq<Pair>, modules: set<string>, table: Table, key: Key, callee: string)
    requires key in table && table[key].verdict.unsafeMissingDep && callee in table[key].missing
    requires Holds(Final(pairs, modules, table), key, SAFE)
    ensures SafelyAccounted(pairs, modules, table, key, callee)
  {
    var mid := AfterCandidates(pairs, modules, table);
    CandidatesNeverClear(pairs, modules, table, key);
    if callee in mid[key].missing {
      SafeByPromotion(mid, modules, key, callee);
    } else {
      NeverHardened(mid, modules, key);
      DroppedIsHarmless(pairs, modules, table, key, callee);
      HarmlessIsSafe(mid, modules, callee);
    }
  }

  /** Promotion makes a function safe only with safe answers for all callees it still waits for. */
  lemma SafeByPromotion(start: Table, modules: set<string>, key: Key, callee: string)
    requires key in start && callee in start[key].missing && key !in NonBlockingKeys(start)
    requires Holds(Fixpoint(start, modules), key, SAFE)
    ensures AnsweredBy(ResolveCallee(callee, modules), SAFE, Fixpoint(start, modules), modules)
  {
    var waits := WaitsOf(start, modules);
    VerdictIsExact(start, modules, key);
    var n: nat :| PromotedIn(key, n, start, waits, modules);
    var frozen := After(n, start, waits, modules);
    assert Resolver(modules)(callee) == ResolveCallee(callee, modules);
    assert AllSafe(waits[key], frozen, modules);
    FixpointKeeps(n, start, modules);
    AnswersStay(ResolveCallee(callee, modules), SAFE, frozen, Fixpoint(start, modules), modules);
  }

  /** A callee that does not resolve to an unsafe function is answered safely in the end, or stays unresolved. */
  lemma HarmlessIsSafe(start: Table, modules: set<string>, callee: string)
    requires !CalleeResolvesUnsafe(callee, modules, start)
    ensures AnsweredBy(ResolveCallee(callee, modules), SAFE, Fixpoint(start, modules), modules)
            || LookupCallee(callee, modules, Fixpoint(start, modules)).None?
  {
    var target := SplitKey(callee, modules);
    FixpointKeeps(0, start, modules);
    if target.Some? && target.value in start {
      assert Holds(start, target.value, SAFE) && Answers(ResolveCallee(callee, modules), target.value, modules);
      AnswersStay(ResolveCallee(callee, modules), SAFE, start, Fixpoint(start, modules), modules);
    }
  }

  /** The candidate phases keep both hard concerns, and drop a missing dependency only with its last missing callee. */
  lemma CandidatesNeverClear(pairs: seq<Pair>, modules: set<string>, table: Table, key: Key)
    requires key in table
    ensures
      var before, after := table[key], AfterCandidates(pairs, modules, table)[key];
      && (before.verdict.hardUnsafe ==> after.verdict.hardUnsafe)
      && after.verdict.unsafeIfImported == before.verdict.unsafeIfImported
      && (before.verdict.unsafeMissingDep && !after.verdict.unsafeMissingDep ==> after.missing == {})
  {
    var mutates := Mutation(modules, table);
    var mid := AfterConfirmation(pairs, mutates, table);
    PhasesExactly(pairs, mutates, Blocking(modules, mid), table, key);
  }

  /** Promotion takes away neither hard concerns nor unsafe-if-imported ones. */
  lemma PromotionKeepsConcerns(start: Table, modules: set<string>, key: Key)
    requires key in start
    ensures key in Fixpoint(start, modules)
    ensures start[key].verdict.hardUnsafe ==> Fixpoint(start, modules)[key].verdict.hardUnsafe
    ensures start[key].verdict.unsafeIfImported ==> Fixpoint(start, modules)[key].verdict.unsafeIfImported
  {
    NeverHardened(start, modules, key);
    var waits := WaitsOf(start, modules);
    if key in NonBlockingKeys(start) {
      FixpointKeeps(0, start, modules);
    } else if key in NonBlockingKeys(Fixpoint(start, modules)) {
      VerdictIsExact(start, modules, key);
      var n: nat :| PromotedIn(key, n, start, waits, modules);
    } else {
      AfterFacts(|waits|, start, waits, modules, key);
    }
  }

  /** No phase takes away a hard concern or an unsafe-if-imported one. */
  lemma ConcernsStay(pairs: seq<Pair>, modules: set<string>, table: Table, key: Key)
    requires key in table
    ensures
      var end := Final(pairs, modules, table);
      && key in end
      && (table[key].verdict.hardUnsafe ==> end[key].verdict.hardUnsafe)
      && (table[key].verdict.unsafeIfImported ==> end[key].verdict.unsafeIfImported)
  {
    CandidatesNeverClear(pairs, modules, table, key);
    PromotionKeepsConcerns(AfterCandidates(pairs, modules, table), modules, key);
  }
}
