/** Promotions in any order: when the schedule of promotions shows in the verdicts, and when not. */
module Schedules {
  import opened Wrappers
  import opened Names
  import opened Safety
  import opened Resolution
  import opened Promotion

  /** The table after promoting one set of functions after the other, each decided on the table it finds. */
  ghost function RunOf(steps: seq<set<Key>>, start: Table, waits: Waiting, modules: set<string>): Table {
    if steps == [] then start
    else Promoted(RunOf(steps[..|steps| - 1], start, waits, modules), steps[|steps| - 1], waits, modules)
  }

  /** Every step promotes functions that are enabled by then. */
  ghost predicate Legal(steps: seq<set<Key>>, start: Table, waits: Waiting, modules: set<string>) {
    steps != [] ==>
      && Legal(steps[..|steps| - 1], start, waits, modules)
      && steps[|steps| - 1] <= EnabledKeys(RunOf(steps[..|steps| - 1], start, waits, modules), waits, modules)
  }

  ghost predicate Complete(steps: seq<set<Key>>, start: Table, waits: Waiting, modules: set<string>) {
    && Legal(steps, start, waits, modules)
    && EnabledKeys(RunOf(steps, start, waits, modules), waits, modules) == {}
  }

  /** What a legal run leaves blocked is as it was, and what stopped blocking was waiting. */
  lemma {:induction false} RunFacts(steps: seq<set<Key>>, start: Table, waits: Waiting, modules: set<string>)
    requires Legal(steps, start, waits, modules)
    ensures
      var table := RunOf(steps, start, waits, modules);
      && Keeps(start, table)
      && (forall k :: k in table && k !in NonBlockingKeys(table) ==> table[k] == start[k])
      && (forall k :: k in NonBlockingKeys(table) ==> k in NonBlockingKeys(start) || k in waits)
  {
    if steps != [] {
      var front := steps[..|steps| - 1];
      RunFacts(front, start, waits, modules);
      StepAdds(RunOf(front, start, waits, modules), steps[|steps| - 1], waits, modules);
    }
  }

  /** A quiet table that does not block less than an enabled step needs has taken that step. */
  lemma QuietHasAll(table: Table, quiet: Table, waits: Waiting, modules: set<string>)
    requires EnabledKeys(quiet, waits, modules) == {} && table.Keys == quiet.Keys
    requires NonBlockingKeys(table) <= NonBlockingKeys(quiet)
    ensures EnabledKeys(table, waits, modules) <= NonBlockingKeys(quiet)
  {
    forall k | k in EnabledKeys(table, waits, modules)
      ensures k in NonBlockingKeys(quiet)
    {
      EnabledGrows(k, waits, modules, NonBlockingKeys(table), NonBlockingKeys(quiet));
      assert k !in EnabledKeys(quiet, waits, modules);
    }
  }

  lemma {:induction false} RunWithin(steps: seq<set<Key>>, start: Table, waits: Waiting, modules: set<string>,
                                     quiet: Table)
    requires Legal(steps, start, waits, modules)
    requires Keeps(start, quiet) && EnabledKeys(quiet, waits, modules) == {}
    ensures NonBlockingKeys(RunOf(steps, start, waits, modules)) <= NonBlockingKeys(quiet)
  {
    if steps == [] {
      KeepsAreKept(start, quiet);
    } else {
      var front := steps[..|steps| - 1];
      var table := RunOf(front, start, waits, modules);
      RunFacts(front, start, waits, modules);
      RunWithin(front, start, waits, modules, quiet);
      QuietHasAll(table, quiet, waits, modules);
      StepAdds(table, steps[|steps| - 1], waits, modules);
    }
  }

  lemma {:induction false} RoundsWithin(n: nat, start: Table, waits: Waiting, modules: set<string>, quiet: Table)
    requires Keeps(start, quiet) && EnabledKeys(quiet, waits, modules) == {}
    ensures NonBlockingKeys(After(n, start, waits, modules)) <= NonBlockingKeys(quiet)
  {
    if n == 0 {
      KeepsAreKept(start, quiet);
    } else {
      var table := After(n - 1, start, waits, modules);
      LaterKeeps(0, n - 1, start, waits, modules);
      RoundsWithin(n - 1, start, waits, modules, quiet);
      QuietHasAll(table, quiet, waits, modules);
      RoundAdds(table, waits, modules);
    }
  }

  /** Every complete schedule promotes the same functions as the rounds do. */
  lemma SchedulesPromoteTheSame(steps: seq<set<Key>>, start: Table, modules: set<string>)
    requires Complete(steps, start, WaitsOf(start, modules), modules)
    ensures NonBlockingKeys(RunOf(steps, start, WaitsOf(start, modules), modules)) ==
      NonBlockingKeys(Fixpoint(start, modules))
  {
    var waits := WaitsOf(start, modules);
    RunFacts(steps, start, waits, modules);
    LaterKeeps(0, |waits|, start, waits, modules);
    FixpointIsQuiet(start, modules);
    RunWithin(steps, start, waits, modules, Fixpoint(start, modules));
    RoundsWithin(|waits|, start, waits, modules, RunOf(steps, start, waits, modules));
  }

  // ----- A schedule that shows

  const MODULES := {"a", "b", "m"}
  const AG := Key("a", "g")
  const AF := Key("a", "f")
  const BF := Key("b", "f")
  const MK := Key("m", "k")

  /** `m.k` waits for `f`, which `a` holds as unsafe-if-imported, while `b.f` waits for the safe `a.g`. */
  const START: Table := map[
    AG := Info(SAFE, {}, []),
    AF := Info(UNSAFE_IF_IMPORTED, {}, []),
    BF := Info(UNSAFE_MISSING_DEP, {"a.g"}, []),
    MK := Info(UNSAFE_MISSING_DEP, {"f"}, [])
  ]

  const F := Callee.Unqualified("f")
  const WAITING: Waiting := map[BF := {Callee.Qualified(AG)}, MK := {F}]

  lemma SplitsOfStart()
    ensures ResolveCallee("a.g", MODULES) == Callee.Qualified(AG) && ResolveCallee("f", MODULES) == F
  {
    assert IsParent("a", "a.g");
    SplitUnique("a.g", MODULES, "a", "g");
    assert EnclosingModule("f", MODULES) == None;
  }

  lemma WaitsForOne(table: Table, modules: set<string>, key: Key, callee: string)
    requires IsCandidate(key, table, modules) && table[key].missing == {callee}
    ensures key in WaitsOf(table, modules) && WaitsOf(table, modules)[key] == {ResolveCallee(callee, modules)}
  {
    var resolve := Resolver(modules);
    assert resolve(callee) == ResolveCallee(callee, modules);
    assert resolve(callee) in set n | n in {callee} :: resolve(n);
  }

  lemma StartCandidates()
    ensures forall k :: IsCandidate(k, START, MODULES) <==> k in {BF, MK}
    ensures START[BF].missing == {"a.g"} && START[MK].missing == {"f"}
  {
    assert START.Keys == {AG, AF, BF, MK};
    assert START[AG].verdict == SAFE && START[AF].verdict == UNSAFE_IF_IMPORTED;
    assert START[BF].verdict == UNSAFE_MISSING_DEP && START[MK].verdict == UNSAFE_MISSING_DEP;
  }

  /** What two candidates with one missing callee each wait for. */
  lemma TwoWait(table: Table, modules: set<string>, x: Key, callee: string, y: Key, other: string)
    requires x != y && IsCandidate(x, table, modules) && IsCandidate(y, table, modules)
    requires forall k :: IsCandidate(k, table, modules) ==> k == x || k == y
    requires table[x].missing == {callee} && table[y].missing == {other}
    ensures WaitsOf(table, modules) == map[x := {ResolveCallee(callee, modules)}, y := {ResolveCallee(other, modules)}]
  {
    WaitsForOne(table, modules, x, callee);
    WaitsForOne(table, modules, y, other);
    TwoKeys(table, modules, x, y);
    TwoEntries(WaitsOf(table, modules), x, {ResolveCallee(callee, modules)}, y, {ResolveCallee(other, modules)});
  }

  lemma TwoKeys(table: Table, modules: set<string>, x: Key, y: Key)
    requires IsCandidate(x, table, modules) && IsCandidate(y, table, modules)
    requires forall k :: IsCandidate(k, table, modules) ==> k == x || k == y
    ensures WaitsOf(table, modules).Keys == {x, y}
  {
    forall k
      ensures k in WaitsOf(table, modules) <==> k == x || k == y
    {
      CandidatesWait(table, modules, k);
    }
  }

  lemma TwoEntries(waits: Waiting, x: Key, a: set<Callee>, y: Key, b: set<Callee>)
    requires x != y && waits.Keys == {x, y} && waits[x] == a && waits[y] == b
    ensures waits == map[x := a, y := b]
  {
  }

  lemma CandidatesWait(table: Table, modules: set<string>, key: Key)
    ensures key in WaitsOf(table, modules) <==> IsCandidate(key, table, modules)
  {
  }

  lemma StartWaits()
    ensures WaitsOf(START, MODULES) == WAITING
  {
    SplitsOfStart();
    StartCandidates();
    TwoWait(START, MODULES, BF, "a.g", MK, "f");
  }

  lemma BothEnabled()
    ensures EnabledKeys(START, WAITING, MODULES) == {BF, MK} && !AllSafe({F}, START, MODULES)
    ensures AllSafe({Callee.Qualified(AG)}, START, MODULES)
  {
    var free := NonBlockingKeys(START);
    assert AG in free && Answers(Callee.Qualified(AG), AG, MODULES) && AF in free && Answers(F, AF, MODULES);
    assert Enabled(BF, WAITING, MODULES, free) && Enabled(MK, WAITING, MODULES, free);
    assert Holds(START, AG, SAFE);
    assert !AnsweredBy(F, SAFE, START, MODULES);
  }

  /** The rounds decide on `m.k` before `b.f` is safe; promoting `b.f` first would make `m.k` safe. */
  lemma RoundsDecideEarly()
    ensures
      var waits, steps := WaitsOf(START, MODULES), [{BF}, {MK}];
      && Holds(Fixpoint(START, MODULES), MK, UNSAFE_IF_IMPORTED)
      && Complete(steps, START, waits, MODULES)
      && Holds(RunOf(steps, START, waits, MODULES), MK, SAFE)
  {
    StartWaits();
    BothEnabled();
    assert PromotedIn(MK, 0, START, WAITING, MODULES);
    VerdictStays(0, START, WAITING, MODULES, MK);
    OneByOne();
  }

  lemma TwoSteps(a: set<Key>, b: set<Key>, start: Table, waits: Waiting, modules: set<string>)
    requires a <= EnabledKeys(start, waits, modules)
    requires b <= EnabledKeys(Promoted(start, a, waits, modules), waits, modules)
    ensures Legal([a, b], start, waits, modules)
    ensures RunOf([a, b], start, waits, modules) == Promoted(Promoted(start, a, waits, modules), b, waits, modules)
  {
    assert [a, b][..1] == [a] && [a][..0] == [];
    assert RunOf([], start, waits, modules) == start && Legal([], start, waits, modules);
    assert RunOf([a], start, waits, modules) == Promoted(start, a, waits, modules) && Legal([a], start, waits, modules);
  }

  lemma OneByOne()
    ensures
      var steps := [{BF}, {MK}];
      Complete(steps, START, WAITING, MODULES) && Holds(RunOf(steps, START, WAITING, MODULES), MK, SAFE)
  {
    BothEnabled();
    var first := Promoted(START, {BF}, WAITING, MODULES);
    StepAdds(START, {BF}, WAITING, MODULES);
    EnabledGrows(MK, WAITING, MODULES, NonBlockingKeys(START), NonBlockingKeys(first));
    StepAdds(first, {MK}, WAITING, MODULES);
    TwoSteps({BF}, {MK}, START, WAITING, MODULES);
    assert Holds(first, BF, SAFE) && Answers(F, BF, MODULES);
  }
}
