/** Exactly when the schedule of promotions does not show in the verdicts, told from the start table. */
module ScheduleFree {
  import opened Safety
  import opened Resolution
  import opened Promotion
  import opened Schedules
  import opened Induction

  // ----- What could be safe, and what can be promoted without a safe answer

  /** A safe function of the start answers to the callee, or one of `within`. */
  ghost predicate SafelyAnswered(callee: Callee, within: set<Key>, start: Table, modules: set<string>) {
    AnsweredBy(callee, SAFE, start, modules) || Cleared(callee, modules, within)
  }

  ghost predicate SafelyEnabled(key: Key, within: set<Key>, start: Table, waits: Waiting, modules: set<string>) {
    MayBecomeSafe(key, start, waits) && forall c :: c in waits[key] ==> SafelyAnswered(c, within, start, modules)
  }

  ghost predicate SafeClosed(x: set<Key>, start: Table, waits: Waiting, modules: set<string>) {
    forall key :: SafelyEnabled(key, x, start, waits, modules) ==> key in x
  }

  /** The functions that become safe if safe verdicts come first: the least set that holds every function without an
      import concern whose callees are answered by safe functions of the start or by functions of the set. */
  ghost function Safest(start: Table, waits: Waiting, modules: set<string>): set<Key> {
    set key | key in waits && forall x: set<Key> :: SafeClosed(x, start, waits, modules) ==> key in x
  }

  ghost predicate BareClosed(x: set<Key>, callee: Callee, safest: set<Key>, start: Table, waits: Waiting,
                             modules: set<string>)
  {
    forall key ::
      Enabled(key, waits, modules, NonBlockingKeys(start) + x) && !(key in safest && Answers(callee, key, modules)) ==>
      key in x
  }

  /** What can be promoted while no function that could be safe answers to the callee: a least set again. */
  ghost function Bare(callee: Callee, safest: set<Key>, start: Table, waits: Waiting, modules: set<string>): set<Key> {
    set key | key in waits && forall x: set<Key> :: BareClosed(x, callee, safest, start, waits, modules) ==> key in x
  }

  /** The function could be safe, yet may be decided before one of its callees has a safe answer. */
  ghost predicate AtRisk(key: Key, start: Table, waits: Waiting, modules: set<string>) {
    var safest := Safest(start, waits, modules);
    key in safest && exists c :: c in waits[key] && DecidedEarly(key, c, safest, start, waits, modules)
  }

  ghost predicate DecidedEarly(key: Key, callee: Callee, safest: set<Key>, start: Table, waits: Waiting,
                               modules: set<string>)
  {
    && !AnsweredBy(callee, SAFE, start, modules)
    && Enabled(key, waits, modules, NonBlockingKeys(start) + Bare(callee, safest, start, waits, modules))
  }

  // ----- The least sets

  lemma SafelyEnabledGrows(key: Key, x: set<Key>, y: set<Key>, start: Table, waits: Waiting, modules: set<string>)
    requires SafelyEnabled(key, x, start, waits, modules) && x <= y
    ensures SafelyEnabled(key, y, start, waits, modules)
  {
    forall c | c in waits[key]
      ensures SafelyAnswered(c, y, start, modules)
    {
      assert SafelyAnswered(c, x, start, modules);
    }
  }

  lemma SafestIsLeast(x: set<Key>, start: Table, waits: Waiting, modules: set<string>)
    requires SafeClosed(x, start, waits, modules)
    ensures Safest(start, waits, modules) <= x
  {
  }

  lemma SafestIsClosed(start: Table, waits: Waiting, modules: set<string>)
    ensures SafeClosed(Safest(start, waits, modules), start, waits, modules)
  {
    var safest := Safest(start, waits, modules);
    forall key | SafelyEnabled(key, safest, start, waits, modules)
      ensures key in safest
    {
      forall x: set<Key> | SafeClosed(x, start, waits, modules)
        ensures key in x
      {
        SafestIsLeast(x, start, waits, modules);
        SafelyEnabledGrows(key, safest, x, start, waits, modules);
      }
    }
  }

  lemma SafestMayBeSafe(start: Table, waits: Waiting, modules: set<string>)
    ensures forall key :: key in Safest(start, waits, modules) ==> MayBecomeSafe(key, start, waits)
  {
    var x := set key | key in waits && MayBecomeSafe(key, start, waits);
    SafestIsLeast(x, start, waits, modules);
  }

  lemma BareIsLeast(x: set<Key>, callee: Callee, safest: set<Key>, start: Table, waits: Waiting, modules: set<string>)
    requires BareClosed(x, callee, safest, start, waits, modules)
    ensures Bare(callee, safest, start, waits, modules) <= x
  {
  }

  lemma BareIsClosed(callee: Callee, safest: set<Key>, start: Table, waits: Waiting, modules: set<string>)
    ensures BareClosed(Bare(callee, safest, start, waits, modules), callee, safest, start, waits, modules)
  {
    var free, bare := NonBlockingKeys(start), Bare(callee, safest, start, waits, modules);
    forall key | Enabled(key, waits, modules, free + bare) && !(key in safest && Answers(callee, key, modules))
      ensures key in bare
    {
      forall x: set<Key> | BareClosed(x, callee, safest, start, waits, modules)
        ensures key in x
      {
        BareIsLeast(x, callee, safest, start, waits, modules);
        EnabledGrows(key, waits, modules, free + bare, free + x);
      }
    }
  }

  lemma BareExcludes(callee: Callee, safest: set<Key>, start: Table, waits: Waiting, modules: set<string>)
    ensures forall key :: key in Bare(callee, safest, start, waits, modules) ==>
      !(key in safest && Answers(callee, key, modules))
  {
    var x := set key | key in waits && !(key in safest && Answers(callee, key, modules));
    BareIsLeast(x, callee, safest, start, waits, modules);
  }

  // ----- What every legal run keeps

  /** Promotion has changed verdicts of waiting functions only, from blocking to non-blocking ones. */
  ghost predicate Reached(table: Table, start: Table, waits: Waiting) {
    && Keeps(start, table)
    && (forall k :: k in table ==> table[k] == start[k].(verdict := table[k].verdict))
    && (forall k :: k in table && k !in NonBlockingKeys(table) ==> table[k] == start[k])
    && (forall k :: k in NonBlockingKeys(table) ==> k in NonBlockingKeys(start) || k in waits)
  }

  /** A function is safe from the start, or could be. */
  ghost predicate SafeSourced(table: Table, start: Table, safest: set<Key>) {
    forall k :: Holds(table, k, SAFE) ==> Holds(start, k, SAFE) || k in safest
  }

  /** The callees of a function that was promoted to safe have safe answers. */
  ghost predicate Backed(table: Table, waits: Waiting, modules: set<string>) {
    forall k :: k in waits && Holds(table, k, SAFE) ==> AllSafe(waits[k], table, modules)
  }

  /** Waiting functions block at the start. */
  ghost predicate Waiters(start: Table, waits: Waiting) {
    forall k :: k in waits ==> k in start && k !in NonBlockingKeys(start)
  }

  lemma StepReaches(table: Table, keys: set<Key>, start: Table, waits: Waiting, modules: set<string>)
    requires Reached(table, start, waits) && keys <= EnabledKeys(table, waits, modules)
    ensures Reached(Promoted(table, keys, waits, modules), start, waits)
  {
    StepAdds(table, keys, waits, modules);
  }

  /** A function that a table decides to be safe could be safe. */
  lemma SafeVerdictCould(key: Key, table: Table, start: Table, waits: Waiting, modules: set<string>)
    requires Reached(table, start, waits) && SafeSourced(table, start, Safest(start, waits, modules))
    requires key in EnabledKeys(table, waits, modules) && Joined(table[key].verdict, waits[key], table, modules) == SAFE
    ensures key in Safest(start, waits, modules)
  {
    var safest := Safest(start, waits, modules);
    SafestIsClosed(start, waits, modules);
    forall c | c in waits[key]
      ensures SafelyAnswered(c, safest, start, modules)
    {
      assert AnsweredBy(c, SAFE, table, modules);
      var a :| Answers(c, a, modules) && Holds(table, a, SAFE);
      if Holds(start, a, SAFE) {
        assert AnsweredBy(c, SAFE, start, modules);
      }
    }
    assert SafelyEnabled(key, safest, start, waits, modules);
  }

  lemma AllSafeStays(callees: set<Callee>, table: Table, later: Table, modules: set<string>)
    requires AllSafe(callees, table, modules) && Keeps(table, later)
    ensures AllSafe(callees, later, modules)
  {
    forall c | c in callees
      ensures AnsweredBy(c, SAFE, later, modules)
    {
      AnswersStay(c, SAFE, table, later, modules);
    }
  }

  lemma StepSourced(table: Table, keys: set<Key>, start: Table, waits: Waiting, modules: set<string>)
    requires Reached(table, start, waits) && SafeSourced(table, start, Safest(start, waits, modules))
    requires keys <= EnabledKeys(table, waits, modules)
    ensures SafeSourced(Promoted(table, keys, waits, modules), start, Safest(start, waits, modules))
  {
    var next := Promoted(table, keys, waits, modules);
    forall k | Holds(next, k, SAFE)
      ensures Holds(start, k, SAFE) || k in Safest(start, waits, modules)
    {
      if k in keys {
        SafeVerdictCould(k, table, start, waits, modules);
      } else {
        assert Holds(table, k, SAFE);
      }
    }
  }

  lemma StepBacked(table: Table, keys: set<Key>, waits: Waiting, modules: set<string>)
    requires Backed(table, waits, modules) && keys <= EnabledKeys(table, waits, modules)
    ensures Backed(Promoted(table, keys, waits, modules), waits, modules)
  {
    var next := Promoted(table, keys, waits, modules);
    StepAdds(table, keys, waits, modules);
    forall k | k in waits && Holds(next, k, SAFE)
      ensures AllSafe(waits[k], next, modules)
    {
      assert k !in keys ==> Holds(table, k, SAFE);
      AllSafeStays(waits[k], table, next, modules);
    }
  }

  /** What a legal run reaches: only waiting functions changed, and safe verdicts have safe reasons. */
  lemma {:induction false} RunReaches(steps: seq<set<Key>>, start: Table, waits: Waiting, modules: set<string>)
    requires Legal(steps, start, waits, modules) && Waiters(start, waits)
    ensures
      var table := RunOf(steps, start, waits, modules);
      && Reached(table, start, waits) && SafeSourced(table, start, Safest(start, waits, modules))
      && Backed(table, waits, modules)
  {
    if steps != [] {
      var front, last := steps[..|steps| - 1], steps[|steps| - 1];
      var table := RunOf(front, start, waits, modules);
      RunReaches(front, start, waits, modules);
      StepReaches(table, last, start, waits, modules);
      StepSourced(table, last, start, waits, modules);
      StepBacked(table, last, waits, modules);
    }
  }

  // ----- Without risk a function that could be safe is safe once it is promoted

  /** The promoted functions that could be safe are safe. */
  ghost predicate SafestAreSafe(table: Table, safest: set<Key>) {
    forall k :: k in safest && k in NonBlockingKeys(table) ==> Holds(table, k, SAFE)
  }

  lemma SafeEarlier(table: Table, later: Table, safest: set<Key>)
    requires SafestAreSafe(later, safest) && Keeps(table, later)
    ensures SafestAreSafe(table, safest)
  {
  }

  /** While a callee has no safe answer, everything promoted could be promoted without one. */
  lemma {:induction false} PromotedBarely(steps: seq<set<Key>>, callee: Callee, start: Table, waits: Waiting,
                                          modules: set<string>)
    requires Legal(steps, start, waits, modules)
    requires SafestAreSafe(RunOf(steps, start, waits, modules), Safest(start, waits, modules))
    requires !AnsweredBy(callee, SAFE, RunOf(steps, start, waits, modules), modules)
    ensures NonBlockingKeys(RunOf(steps, start, waits, modules)) <=
      NonBlockingKeys(start) + Bare(callee, Safest(start, waits, modules), start, waits, modules)
  {
    if steps != [] {
      var front, last := steps[..|steps| - 1], steps[|steps| - 1];
      var table, next := RunOf(front, start, waits, modules), RunOf(steps, start, waits, modules);
      var safest := Safest(start, waits, modules);
      StepAdds(table, last, waits, modules);
      SafeEarlier(table, next, safest);
      if AnsweredBy(callee, SAFE, table, modules) {
        AnswersStay(callee, SAFE, table, next, modules);
      }
      PromotedBarely(front, callee, start, waits, modules);
      StepBarely(table, last, callee, start, waits, modules);
    }
  }

  lemma StepBarely(table: Table, keys: set<Key>, callee: Callee, start: Table, waits: Waiting, modules: set<string>)
    requires keys <= EnabledKeys(table, waits, modules)
    requires SafestAreSafe(Promoted(table, keys, waits, modules), Safest(start, waits, modules))
    requires !AnsweredBy(callee, SAFE, Promoted(table, keys, waits, modules), modules)
    requires NonBlockingKeys(table) <=
      NonBlockingKeys(start) + Bare(callee, Safest(start, waits, modules), start, waits, modules)
    ensures keys <= Bare(callee, Safest(start, waits, modules), start, waits, modules)
  {
    var safest := Safest(start, waits, modules);
    var bare := Bare(callee, safest, start, waits, modules);
    StepAdds(table, keys, waits, modules);
    BareIsClosed(callee, safest, start, waits, modules);
    forall k | k in keys
      ensures k in bare
    {
      EnabledGrows(k, waits, modules, NonBlockingKeys(table), NonBlockingKeys(start) + bare);
      assert k in safest ==> Holds(Promoted(table, keys, waits, modules), k, SAFE);
    }
  }

  /** A function that could be safe and is decided otherwise is at risk. */
  lemma OtherwiseAtRisk(steps: seq<set<Key>>, key: Key, start: Table, waits: Waiting, modules: set<string>)
    requires Legal(steps, start, waits, modules) && Waiters(start, waits)
    requires SafestAreSafe(RunOf(steps, start, waits, modules), Safest(start, waits, modules))
    requires key in EnabledKeys(RunOf(steps, start, waits, modules), waits, modules)
    requires key in Safest(start, waits, modules)
    requires !AllSafe(waits[key], RunOf(steps, start, waits, modules), modules)
    ensures AtRisk(key, start, waits, modules)
  {
    var table := RunOf(steps, start, waits, modules);
    var c :| c in waits[key] && !AnsweredBy(c, SAFE, table, modules);
    RunReaches(steps, start, waits, modules);
    if AnsweredBy(c, SAFE, start, modules) {
      AnswersStay(c, SAFE, start, table, modules);
    }
    PromotedBarely(steps, c, start, waits, modules);
    var safest := Safest(start, waits, modules);
    EnabledGrows(key, waits, modules, NonBlockingKeys(table),
                 NonBlockingKeys(start) + Bare(c, safest, start, waits, modules));
    assert DecidedEarly(key, c, safest, start, waits, modules);
  }

  lemma StepStaysSafe(steps: seq<set<Key>>, keys: set<Key>, start: Table, waits: Waiting, modules: set<string>)
    requires Legal(steps, start, waits, modules) && Waiters(start, waits)
    requires keys <= EnabledKeys(RunOf(steps, start, waits, modules), waits, modules)
    requires forall key :: !AtRisk(key, start, waits, modules)
    requires SafestAreSafe(RunOf(steps, start, waits, modules), Safest(start, waits, modules))
    ensures SafestAreSafe(Promoted(RunOf(steps, start, waits, modules), keys, waits, modules),
                          Safest(start, waits, modules))
  {
    var table := RunOf(steps, start, waits, modules);
    var next := Promoted(table, keys, waits, modules);
    RunReaches(steps, start, waits, modules);
    StepAdds(table, keys, waits, modules);
    SafestMayBeSafe(start, waits, modules);
    forall k | k in Safest(start, waits, modules) && k in NonBlockingKeys(next)
      ensures Holds(next, k, SAFE)
    {
      if k in keys {
        assert MayBecomeSafe(k, start, waits) && table[k] == start[k];
        if !AllSafe(waits[k], table, modules) {
          OtherwiseAtRisk(steps, k, start, waits, modules);
        }
      } else {
        assert Holds(table, k, SAFE);
      }
    }
  }

  lemma {:induction false} NoRiskStaysSafe(steps: seq<set<Key>>, start: Table, waits: Waiting, modules: set<string>)
    requires Legal(steps, start, waits, modules) && Waiters(start, waits)
    requires forall key :: !AtRisk(key, start, waits, modules)
    ensures SafestAreSafe(RunOf(steps, start, waits, modules), Safest(start, waits, modules))
  {
    if steps == [] {
      SafestMayBeSafe(start, waits, modules);
    } else {
      NoRiskStaysSafe(steps[..|steps| - 1], start, waits, modules);
      StepStaysSafe(steps[..|steps| - 1], steps[|steps| - 1], start, waits, modules);
    }
  }

  // ----- The rounds are a schedule

  ghost function RoundSteps(n: nat, start: Table, waits: Waiting, modules: set<string>): seq<set<Key>> {
    if n == 0 then []
    else RoundSteps(n - 1, start, waits, modules) + [EnabledKeys(After(n - 1, start, waits, modules), waits, modules)]
  }

  lemma LastStep(front: seq<set<Key>>, last: set<Key>, start: Table, waits: Waiting, modules: set<string>)
    ensures RunOf(front + [last], start, waits, modules) ==
      Promoted(RunOf(front, start, waits, modules), last, waits, modules)
    ensures
      var table := RunOf(front, start, waits, modules);
      Legal(front, start, waits, modules) && last <= EnabledKeys(table, waits, modules) ==>
      Legal(front + [last], start, waits, modules)
  {
    assert (front + [last])[..|front|] == front;
  }

  lemma {:induction false} RoundsAreSteps(n: nat, start: Table, waits: Waiting, modules: set<string>)
    ensures Legal(RoundSteps(n, start, waits, modules), start, waits, modules)
    ensures RunOf(RoundSteps(n, start, waits, modules), start, waits, modules) == After(n, start, waits, modules)
  {
    if n > 0 {
      RoundsAreSteps(n - 1, start, waits, modules);
      LastStep(RoundSteps(n - 1, start, waits, modules),
               EnabledKeys(After(n - 1, start, waits, modules), waits, modules), start, waits, modules);
    }
  }

  lemma WaitsBlock(start: Table, modules: set<string>)
    ensures Waiters(start, WaitsOf(start, modules))
  {
  }

  /** The rounds make up a complete schedule. */
  lemma FixpointIsScheduled(start: Table, modules: set<string>)
    ensures
      var waits := WaitsOf(start, modules);
      var steps := RoundSteps(|waits|, start, waits, modules);
      Complete(steps, start, waits, modules) && RunOf(steps, start, waits, modules) == Fixpoint(start, modules)
  {
    RoundsAreSteps(|WaitsOf(start, modules)|, start, WaitsOf(start, modules), modules);
    FixpointIsQuiet(start, modules);
  }

  /** A table is told by what does not block and by which of the promoted functions are safe. */
  lemma TablesAgree(table: Table, other: Table, safest: set<Key>, start: Table, waits: Waiting)
    requires Reached(table, start, waits) && Reached(other, start, waits)
    requires NonBlockingKeys(table) == NonBlockingKeys(other)
    requires SafeSourced(table, start, safest) && SafestAreSafe(table, safest)
    requires SafeSourced(other, start, safest) && SafestAreSafe(other, safest)
    ensures table == other
  {
    forall k | k in start
      ensures table[k] == other[k]
    {
      if k in NonBlockingKeys(table) && k !in NonBlockingKeys(start) {
        assert Holds(table, k, SAFE) <==> k in safest;
        assert Holds(other, k, SAFE) <==> k in safest;
        assert table[k].verdict == other[k].verdict;
      }
    }
  }

  /** Without risk every complete schedule ends in the table the rounds end in. */
  lemma NoRiskNoDifference(steps: seq<set<Key>>, start: Table, modules: set<string>)
    requires forall key :: !AtRisk(key, start, WaitsOf(start, modules), modules)
    requires Complete(steps, start, WaitsOf(start, modules), modules)
    ensures RunOf(steps, start, WaitsOf(start, modules), modules) == Fixpoint(start, modules)
  {
    var waits := WaitsOf(start, modules);
    var rounds := RoundSteps(|waits|, start, waits, modules);
    WaitsBlock(start, modules);
    FixpointIsScheduled(start, modules);
    SchedulesPromoteTheSame(steps, start, modules);
    RunReaches(steps, start, waits, modules);
    RunReaches(rounds, start, waits, modules);
    NoRiskStaysSafe(steps, start, waits, modules);
    NoRiskStaysSafe(rounds, start, waits, modules);
    TablesAgree(RunOf(steps, start, waits, modules), Fixpoint(start, modules), Safest(start, waits, modules), start,
                waits);
  }

  // ----- Schedules that promote all they are allowed to

  lemma OneMoreStep(steps: seq<set<Key>>, key: Key, start: Table, waits: Waiting, modules: set<string>)
    requires Legal(steps, start, waits, modules)
    requires key in EnabledKeys(RunOf(steps, start, waits, modules), waits, modules)
    ensures
      var table, next := RunOf(steps, start, waits, modules), RunOf(steps + [{key}], start, waits, modules);
      && Legal(steps + [{key}], start, waits, modules)
      && next == Promoted(table, {key}, waits, modules) && Keeps(table, next)
      && waits.Keys - NonBlockingKeys(next) < waits.Keys - NonBlockingKeys(table)
  {
    var table := RunOf(steps, start, waits, modules);
    LastStep(steps, {key}, start, waits, modules);
    StepAdds(table, {key}, waits, modules);
    assert key in waits.Keys - NonBlockingKeys(table);
  }

  lemma KeepsOn(table: Table, later: Table, last: Table)
    requires Keeps(table, later) && Keeps(later, last)
    ensures Keeps(table, last)
  {
  }

  /** Promote whatever is enabled and allowed, one function at a time, until nothing is. */
  lemma {:induction false} PromoteAllowed(steps: seq<set<Key>>, start: Table, waits: Waiting, modules: set<string>,
                                          allow: (Key, Table) -> bool, keep: Table -> bool)
    returns (all: seq<set<Key>>)
    requires Legal(steps, start, waits, modules) && keep(RunOf(steps, start, waits, modules))
    requires forall table, key {:trigger allow(key, table)} ::
      keep(table) && key in EnabledKeys(table, waits, modules) && allow(key, table) ==>
      keep(Promoted(table, {key}, waits, modules))
    ensures Legal(all, start, waits, modules) && keep(RunOf(all, start, waits, modules))
    ensures Keeps(RunOf(steps, start, waits, modules), RunOf(all, start, waits, modules))
    ensures forall key :: key in EnabledKeys(RunOf(all, start, waits, modules), waits, modules) ==>
      !allow(key, RunOf(all, start, waits, modules))
    decreases waits.Keys - NonBlockingKeys(RunOf(steps, start, waits, modules))
  {
    var table := RunOf(steps, start, waits, modules);
    if key :| key in EnabledKeys(table, waits, modules) && allow(key, table) {
      OneMoreStep(steps, key, start, waits, modules);
      all := PromoteAllowed(steps + [{key}], start, waits, modules, allow, keep);
      KeepsOn(table, RunOf(steps + [{key}], start, waits, modules), RunOf(all, start, waits, modules));
    } else {
      all := steps;
    }
  }

  /** Every legal schedule is the beginning of a complete one. */
  lemma Completed(steps: seq<set<Key>>, start: Table, waits: Waiting, modules: set<string>) returns (all: seq<set<Key>>)
    requires Legal(steps, start, waits, modules)
    ensures Complete(all, start, waits, modules)
    ensures Keeps(RunOf(steps, start, waits, modules), RunOf(all, start, waits, modules))
  {
    all := PromoteAllowed(steps, start, waits, modules, (key, table) => true, table => true);
  }

  // ----- A schedule that makes safe whatever could be

  ghost predicate DecidedSafe(key: Key, table: Table, waits: Waiting, modules: set<string>) {
    key in table && key in waits && Joined(table[key].verdict, waits[key], table, modules) == SAFE
  }

  ghost predicate PromotedSafe(table: Table, start: Table) {
    forall k :: k in NonBlockingKeys(table) && k !in NonBlockingKeys(start) ==> Holds(table, k, SAFE)
  }

  lemma PromotesSafe(table: Table, key: Key, start: Table, waits: Waiting, modules: set<string>)
    requires PromotedSafe(table, start) && key in EnabledKeys(table, waits, modules)
    requires DecidedSafe(key, table, waits, modules)
    ensures PromotedSafe(Promoted(table, {key}, waits, modules), start)
  {
    StepAdds(table, {key}, waits, modules);
  }

  lemma SafelyAnsweredIsSafe(callee: Callee, table: Table, start: Table, modules: set<string>)
    requires Keeps(start, table) && PromotedSafe(table, start)
    requires SafelyAnswered(callee, NonBlockingKeys(table) - NonBlockingKeys(start), start, modules)
    ensures AnsweredBy(callee, SAFE, table, modules) && Cleared(callee, modules, NonBlockingKeys(table))
  {
    if AnsweredBy(callee, SAFE, start, modules) {
      AnswersStay(callee, SAFE, start, table, modules);
      var a :| Answers(callee, a, modules) && Holds(table, a, SAFE);
      assert a in NonBlockingKeys(table);
    } else {
      var a :| a in NonBlockingKeys(table) - NonBlockingKeys(start) && Answers(callee, a, modules);
      assert Holds(table, a, SAFE);
    }
  }

  /** Where every enabled function would get another verdict than safe, all that could be safe is. */
  lemma SafeFirstReachesAll(table: Table, start: Table, waits: Waiting, modules: set<string>)
    requires Waiters(start, waits) && Reached(table, start, waits) && PromotedSafe(table, start)
    requires forall key :: key in EnabledKeys(table, waits, modules) ==> !DecidedSafe(key, table, waits, modules)
    ensures forall key :: key in Safest(start, waits, modules) ==> Holds(table, key, SAFE)
  {
    var x := NonBlockingKeys(table) - NonBlockingKeys(start);
    forall key | SafelyEnabled(key, x, start, waits, modules)
      ensures key in x
    {
      forall c | c in waits[key]
        ensures AnsweredBy(c, SAFE, table, modules) && Cleared(c, modules, NonBlockingKeys(table))
      {
        SafelyAnsweredIsSafe(c, table, start, modules);
      }
      if key !in NonBlockingKeys(table) {
        assert key in EnabledKeys(table, waits, modules) && DecidedSafe(key, table, waits, modules);
      }
    }
    SafestIsLeast(x, start, waits, modules);
  }

  lemma SafeFirst(start: Table, waits: Waiting, modules: set<string>) returns (all: seq<set<Key>>)
    requires Waiters(start, waits)
    ensures Complete(all, start, waits, modules)
    ensures forall key :: key in Safest(start, waits, modules) ==> Holds(RunOf(all, start, waits, modules), key, SAFE)
  {
    var allow := (key: Key, table: Table) => DecidedSafe(key, table, waits, modules);
    var keep := (table: Table) => PromotedSafe(table, start);
    forall table, key | keep(table) && key in EnabledKeys(table, waits, modules) && allow(key, table)
      ensures keep(Promoted(table, {key}, waits, modules))
    {
      PromotesSafe(table, key, start, waits, modules);
    }
    var first := PromoteAllowed([], start, waits, modules, allow, keep);
    var table := RunOf(first, start, waits, modules);
    RunReaches(first, start, waits, modules);
    assert forall key :: key in EnabledKeys(table, waits, modules) ==> !allow(key, table);
    SafeFirstReachesAll(table, start, waits, modules);
    all := Completed(first, start, waits, modules);
    forall key | key in Safest(start, waits, modules)
      ensures Holds(RunOf(all, start, waits, modules), key, SAFE)
    {
      VerdictKept(table, RunOf(all, start, waits, modules), key, SAFE);
    }
  }

  // ----- A schedule that decides a function at risk too early

  ghost predicate Shuns(table: Table, callee: Callee, safest: set<Key>, start: Table, modules: set<string>) {
    forall k :: k in NonBlockingKeys(table) && k !in NonBlockingKeys(start) ==>
      !(k in safest && Answers(callee, k, modules))
  }

  lemma BareIsReached(table: Table, callee: Callee, safest: set<Key>, start: Table, waits: Waiting,
                      modules: set<string>)
    requires Waiters(start, waits) && Reached(table, start, waits)
    requires forall key :: key in EnabledKeys(table, waits, modules) ==> key in safest && Answers(callee, key, modules)
    ensures Bare(callee, safest, start, waits, modules) <= NonBlockingKeys(table)
  {
    var free := NonBlockingKeys(start);
    var x := NonBlockingKeys(table) - free;
    KeepsAreKept(start, table);
    assert free + x == NonBlockingKeys(table);
    forall key | Enabled(key, waits, modules, free + x) && !(key in safest && Answers(callee, key, modules))
      ensures key in x
    {
      assert key !in EnabledKeys(table, waits, modules);
    }
    BareIsLeast(x, callee, safest, start, waits, modules);
  }

  /** While functions that could be safe are shunned, the callee gets no safe answer. */
  lemma ShunnedIsUnanswered(table: Table, callee: Callee, start: Table, waits: Waiting, modules: set<string>)
    requires Waiters(start, waits) && SafeSourced(table, start, Safest(start, waits, modules))
    requires Shuns(table, callee, Safest(start, waits, modules), start, modules)
    requires !AnsweredBy(callee, SAFE, start, modules)
    ensures !AnsweredBy(callee, SAFE, table, modules)
  {
    forall a | Answers(callee, a, modules)
      ensures !Holds(table, a, SAFE)
    {
    }
  }

  /** All that can be promoted while the callee has no safe answer. */
  lemma BareFirst(callee: Callee, start: Table, waits: Waiting, modules: set<string>) returns (steps: seq<set<Key>>)
    requires Waiters(start, waits) && !AnsweredBy(callee, SAFE, start, modules)
    ensures Legal(steps, start, waits, modules)
    ensures !AnsweredBy(callee, SAFE, RunOf(steps, start, waits, modules), modules)
    ensures NonBlockingKeys(start) + Bare(callee, Safest(start, waits, modules), start, waits, modules) <=
      NonBlockingKeys(RunOf(steps, start, waits, modules))
  {
    var safest := Safest(start, waits, modules);
    var allow := (key: Key, table: Table) => !(key in safest && Answers(callee, key, modules));
    var keep := (table: Table) => Shuns(table, callee, safest, start, modules);
    forall table, key | keep(table) && key in EnabledKeys(table, waits, modules) && allow(key, table)
      ensures keep(Promoted(table, {key}, waits, modules))
    {
      StepAdds(table, {key}, waits, modules);
    }
    steps := PromoteAllowed([], start, waits, modules, allow, keep);
    var table := RunOf(steps, start, waits, modules);
    RunReaches(steps, start, waits, modules);
    assert forall key :: key in EnabledKeys(table, waits, modules) ==> !allow(key, table);
    BareIsReached(table, callee, safest, start, waits, modules);
    KeepsAreKept(start, table);
    ShunnedIsUnanswered(table, callee, start, waits, modules);
  }

  /** The function decided while its callee has no safe answer is not safe. */
  lemma DecideEarly(key: Key, callee: Callee, start: Table, waits: Waiting, modules: set<string>)
    returns (all: seq<set<Key>>)
    requires Waiters(start, waits) && key in waits && callee in waits[key]
    requires DecidedEarly(key, callee, Safest(start, waits, modules), start, waits, modules)
    ensures Complete(all, start, waits, modules) && !Holds(RunOf(all, start, waits, modules), key, SAFE)
  {
    var steps := BareFirst(callee, start, waits, modules);
    var table := RunOf(steps, start, waits, modules);
    var bare := Bare(callee, Safest(start, waits, modules), start, waits, modules);
    RunReaches(steps, start, waits, modules);
    EnabledGrows(key, waits, modules, NonBlockingKeys(start) + bare, NonBlockingKeys(table));
    var early := steps;
    if key in NonBlockingKeys(table) {
      assert !Holds(table, key, SAFE);
    } else {
      early := steps + [{key}];
      OneMoreStep(steps, key, start, waits, modules);
    }
    var next := RunOf(early, start, waits, modules);
    assert Holds(next, key, UNSAFE_IF_IMPORTED);
    all := Completed(early, start, waits, modules);
    VerdictKept(next, RunOf(all, start, waits, modules), key, UNSAFE_IF_IMPORTED);
  }

  // ----- The condition is exact

  /** All complete schedules end in the table the rounds end in. */
  ghost predicate NoScheduleShows(start: Table, modules: set<string>) {
    forall steps :: Complete(steps, start, WaitsOf(start, modules), modules) ==>
      RunOf(steps, start, WaitsOf(start, modules), modules) == Fixpoint(start, modules)
  }

  /** The schedule of promotions does not show in the final table exactly when no function is at risk. */
  lemma SchedulesAgreeExactly(start: Table, modules: set<string>)
    ensures NoScheduleShows(start, modules) <==> forall key :: !AtRisk(key, start, WaitsOf(start, modules), modules)
  {
    var waits := WaitsOf(start, modules);
    WaitsBlock(start, modules);
    if key :| AtRisk(key, start, waits, modules) {
      var c :| c in waits[key] && DecidedEarly(key, c, Safest(start, waits, modules), start, waits, modules);
      var early := DecideEarly(key, c, start, waits, modules);
      var safe := SafeFirst(start, waits, modules);
      assert RunOf(early, start, waits, modules) != RunOf(safe, start, waits, modules);
    } else {
      forall steps | Complete(steps, start, waits, modules)
        ensures RunOf(steps, start, waits, modules) == Fixpoint(start, modules)
      {
        NoRiskNoDifference(steps, start, modules);
      }
    }
  }

  lemma DifferenceIsRisk(steps: seq<set<Key>>, key: Key, start: Table, modules: set<string>)
    requires Complete(steps, start, WaitsOf(start, modules), modules)
    requires Holds(RunOf(steps, start, WaitsOf(start, modules), modules), key, SAFE)
    requires !Holds(Fixpoint(start, modules), key, SAFE)
    ensures exists k :: AtRisk(k, start, WaitsOf(start, modules), modules)
  {
    SchedulesAgreeExactly(start, modules);
  }

  /** In the example a function is at risk. */
  lemma StartIsAtRisk()
    ensures exists key :: AtRisk(key, START, WaitsOf(START, MODULES), MODULES)
  {
    RoundsDecideEarly();
    DifferenceIsRisk([{BF}, {MK}], MK, START, MODULES);
  }

  // ----- Steady callees

  /** Every callee some candidate waits for is steady. */
  ghost predicate AllSteady(start: Table, modules: set<string>) {
    var waits := WaitsOf(start, modules);
    forall k, c :: k in waits && c in waits[k] ==> Steady(c, start, waits, modules)
  }

  /** A function that waits for steady callees is never decided early. */
  lemma SteadyIsInTime(key: Key, callee: Callee, start: Table, waits: Waiting, modules: set<string>)
    requires Waiters(start, waits) && Steady(callee, start, waits, modules)
    requires key in Safest(start, waits, modules) && callee in waits[key]
    ensures !DecidedEarly(key, callee, Safest(start, waits, modules), start, waits, modules)
  {
    var safest := Safest(start, waits, modules);
    var bare := Bare(callee, safest, start, waits, modules);
    if DecidedEarly(key, callee, safest, start, waits, modules) {
      SafestIsBacked(key, start, waits, modules);
      SafestMayBeSafe(start, waits, modules);
      BareExcludes(callee, safest, start, waits, modules);
      var a :| a in safest && Answers(callee, a, modules);
      assert Cleared(callee, modules, NonBlockingKeys(start) + bare);
      var b :| b in NonBlockingKeys(start) + bare && Answers(callee, b, modules);
      assert HopefulAnswer(callee, a, start, waits, modules) && HopefulAnswer(callee, b, start, waits, modules);
      assert false;
    }
  }

  /** The callees of a function that could be safe could have safe answers. */
  lemma SafestIsBacked(key: Key, start: Table, waits: Waiting, modules: set<string>)
    requires key in Safest(start, waits, modules)
    ensures SafelyEnabled(key, Safest(start, waits, modules), start, waits, modules)
  {
    var safest := Safest(start, waits, modules);
    var x := set k | k in safest && SafelyEnabled(k, safest, start, waits, modules);
    SafestIsClosed(start, waits, modules);
    forall k | SafelyEnabled(k, x, start, waits, modules)
      ensures k in x
    {
      SafelyEnabledGrows(k, x, safest, start, waits, modules);
    }
    SafestIsLeast(x, start, waits, modules);
  }

  /** Where all callees are steady no schedule shows: promoting one at a time, in any order or in any groups, ends in
      the table the rounds end in. */
  lemma SteadySchedulesAgree(steps: seq<set<Key>>, start: Table, modules: set<string>)
    requires AllSteady(start, modules) && Complete(steps, start, WaitsOf(start, modules), modules)
    ensures RunOf(steps, start, WaitsOf(start, modules), modules) == Fixpoint(start, modules)
  {
    var waits := WaitsOf(start, modules);
    WaitsBlock(start, modules);
    forall key
      ensures !AtRisk(key, start, waits, modules)
    {
      forall c | key in Safest(start, waits, modules) && c in waits[key]
        ensures !DecidedEarly(key, c, Safest(start, waits, modules), start, waits, modules)
      {
        SteadyIsInTime(key, c, start, waits, modules);
      }
    }
    NoRiskNoDifference(steps, start, modules);
  }

  // ----- When the rounds end in the join of final verdicts

  /** Every promoted function has the join of its base verdict with the final answers of its callees. */
  ghost predicate VerdictsAreJoins(start: Table, modules: set<string>) {
    var waits, end := WaitsOf(start, modules), Fixpoint(start, modules);
    forall key :: key in waits && key in NonBlockingKeys(end) ==> IsJoin(key, start, end, waits, modules)
  }

  ghost predicate IsJoin(key: Key, start: Table, end: Table, waits: Waiting, modules: set<string>)
    requires key in waits
  {
    key in start && Holds(end, key, Joined(start[key].verdict, waits[key], end, modules))
  }

  /** Whatever could be safe ends safe. */
  ghost predicate SafestEndSafe(start: Table, modules: set<string>) {
    forall key :: key in Safest(start, WaitsOf(start, modules), modules) ==> Holds(Fixpoint(start, modules), key, SAFE)
  }

  /** When a round promotes a function that could be safe, each of its callees is answered by a safe function of the
      start or by one promoted before that could be safe. No verdict but those of the start enters here. */
  ghost predicate InTime(start: Table, modules: set<string>) {
    var waits := WaitsOf(start, modules);
    forall key, n: nat :: PromotedIn(key, n, start, waits, modules) && key in Safest(start, waits, modules) ==>
      AnsweredInTime(key, After(n, start, waits, modules), start, waits, modules)
  }

  ghost predicate AnsweredInTime(key: Key, table: Table, start: Table, waits: Waiting, modules: set<string>)
    requires key in waits
  {
    forall c :: c in waits[key] ==>
      SafelyAnswered(c, Safest(start, waits, modules) * NonBlockingKeys(table), start, modules)
  }

  /** What the final table keeps. */
  lemma FixpointFacts(start: Table, modules: set<string>)
    ensures
      var waits, end := WaitsOf(start, modules), Fixpoint(start, modules);
      && Waiters(start, waits) && Reached(end, start, waits)
      && SafeSourced(end, start, Safest(start, waits, modules)) && Backed(end, waits, modules)
      && EnabledKeys(end, waits, modules) == {}
  {
    var waits := WaitsOf(start, modules);
    WaitsBlock(start, modules);
    FixpointIsScheduled(start, modules);
    RunReaches(RoundSteps(|waits|, start, waits, modules), start, waits, modules);
    FixpointIsQuiet(start, modules);
  }

  lemma AllSafeClears(key: Key, end: Table, waits: Waiting, modules: set<string>)
    requires key in waits && key in end && EnabledKeys(end, waits, modules) == {} && AllSafe(waits[key], end, modules)
    ensures key in NonBlockingKeys(end)
  {
    forall c | c in waits[key]
      ensures Cleared(c, modules, NonBlockingKeys(end))
    {
      var a :| Answers(c, a, modules) && Holds(end, a, SAFE);
      assert a in NonBlockingKeys(end);
    }
    assert key !in EnabledKeys(end, waits, modules);
  }

  lemma JoinsMakeSafe(start: Table, modules: set<string>)
    requires VerdictsAreJoins(start, modules)
    ensures SafestEndSafe(start, modules)
  {
    var waits, end := WaitsOf(start, modules), Fixpoint(start, modules);
    FixpointFacts(start, modules);
    var x := set key | key in waits && Holds(end, key, SAFE);
    forall key | SafelyEnabled(key, x, start, waits, modules)
      ensures key in x
    {
      forall c | c in waits[key]
        ensures AnsweredBy(c, SAFE, end, modules)
      {
        assert SafelyAnswered(c, x, start, modules);
        if AnsweredBy(c, SAFE, start, modules) {
          AnswersStay(c, SAFE, start, end, modules);
        }
      }
      AllSafeClears(key, end, waits, modules);
      assert IsJoin(key, start, end, waits, modules);
    }
    SafestIsLeast(x, start, waits, modules);
  }

  lemma SafeMakesJoins(start: Table, modules: set<string>)
    requires SafestEndSafe(start, modules)
    ensures VerdictsAreJoins(start, modules)
  {
    var waits, end := WaitsOf(start, modules), Fixpoint(start, modules);
    var safest := Safest(start, waits, modules);
    FixpointFacts(start, modules);
    SafestIsClosed(start, waits, modules);
    SafestMayBeSafe(start, waits, modules);
    forall key | key in waits && key in NonBlockingKeys(end)
      ensures IsJoin(key, start, end, waits, modules)
    {
      if AllSafe(waits[key], end, modules) && !start[key].verdict.unsafeIfImported {
        AllSafeIsSafest(key, end, start, waits, modules);
      } else {
        assert !Holds(end, key, SAFE);
        assert Holds(end, key, UNSAFE_IF_IMPORTED);
      }
    }
  }

  /** A function whose callees are all safe in the end could be safe. */
  lemma AllSafeIsSafest(key: Key, end: Table, start: Table, waits: Waiting, modules: set<string>)
    requires SafeSourced(end, start, Safest(start, waits, modules)) && MayBecomeSafe(key, start, waits)
    requires AllSafe(waits[key], end, modules)
    ensures key in Safest(start, waits, modules)
  {
    var safest := Safest(start, waits, modules);
    SafestIsClosed(start, waits, modules);
    forall c | c in waits[key]
      ensures SafelyAnswered(c, safest, start, modules)
    {
      var a :| Answers(c, a, modules) && Holds(end, a, SAFE);
      assert Holds(start, a, SAFE) ==> AnsweredBy(c, SAFE, start, modules);
    }
    assert SafelyEnabled(key, safest, start, waits, modules);
  }

  lemma SafeIsInTime(key: Key, n: nat, start: Table, modules: set<string>)
    requires Holds(Fixpoint(start, modules), key, SAFE) && PromotedIn(key, n, start, WaitsOf(start, modules), modules)
    ensures AnsweredInTime(key, After(n, start, WaitsOf(start, modules), modules), start, WaitsOf(start, modules),
                           modules)
  {
    var waits := WaitsOf(start, modules);
    var table := After(n, start, waits, modules);
    WaitsBlock(start, modules);
    RoundsAreSteps(n, start, waits, modules);
    RunReaches(RoundSteps(n, start, waits, modules), start, waits, modules);
    VerdictStays(n, start, waits, modules, key);
    forall c | c in waits[key]
      ensures SafelyAnswered(c, Safest(start, waits, modules) * NonBlockingKeys(table), start, modules)
    {
      assert AnsweredBy(c, SAFE, table, modules);
      var a :| Answers(c, a, modules) && Holds(table, a, SAFE);
      assert a in NonBlockingKeys(table);
      assert Holds(start, a, SAFE) ==> AnsweredBy(c, SAFE, start, modules);
    }
  }

  lemma SafestStaySafe(table: Table, keys: set<Key>, waits: Waiting, modules: set<string>, safest: set<Key>)
    requires SafestAreSafe(table, safest) && keys == EnabledKeys(table, waits, modules)
    requires forall k :: k in keys && k in safest ==> Holds(Round(table, waits, modules), k, SAFE)
    ensures SafestAreSafe(Round(table, waits, modules), safest)
  {
    RoundAdds(table, waits, modules);
    forall k | k in safest && k in NonBlockingKeys(Round(table, waits, modules))
      ensures Holds(Round(table, waits, modules), k, SAFE)
    {
      assert k in NonBlockingKeys(table) ==> Holds(table, k, SAFE);
    }
  }

  /** After `n` rounds the promoted functions that could be safe are safe. */
  ghost predicate SafeAfter(n: nat, start: Table, modules: set<string>) {
    SafestAreSafe(After(n, start, WaitsOf(start, modules), modules), Safest(start, WaitsOf(start, modules), modules))
  }

  /** The functions of one round that could be safe are promoted to safe. */
  lemma RoundInTime(n: nat, start: Table, modules: set<string>)
    requires InTime(start, modules) && SafeAfter(n, start, modules)
    ensures SafestAreSafe(Round(After(n, start, WaitsOf(start, modules), modules), WaitsOf(start, modules), modules),
                          Safest(start, WaitsOf(start, modules), modules))
  {
    var waits := WaitsOf(start, modules);
    var table, safest := After(n, start, waits, modules), Safest(start, waits, modules);
    var keys := EnabledKeys(table, waits, modules);
    forall k | k in keys && k in safest
      ensures Holds(Round(table, waits, modules), k, SAFE)
    {
      assert PromotedIn(k, n, start, waits, modules);
      PromotedInTime(k, n, start, modules);
    }
    SafestStaySafe(table, keys, waits, modules, safest);
  }

  lemma NextInTime(n: nat, start: Table, modules: set<string>)
    requires InTime(start, modules) && SafeAfter(n, start, modules)
    ensures SafeAfter(n + 1, start, modules)
  {
    RoundInTime(n, start, modules);
  }

  lemma NothingLate(start: Table, modules: set<string>)
    ensures SafeAfter(0, start, modules)
  {
    WaitsBlock(start, modules);
  }

  /** In time, every round leaves safe what could be. */
  lemma InTimeStaysSafe(n: nat, start: Table, modules: set<string>)
    requires InTime(start, modules)
    ensures SafeAfter(n, start, modules)
  {
    var holds := (k: nat) => SafeAfter(k, start, modules);
    NothingLate(start, modules);
    forall k: nat | holds(k)
      ensures holds(k + 1)
    {
      NextInTime(k, start, modules);
    }
    Induct(holds, n);
    assert holds(n);
  }

  lemma PromotedInTime(key: Key, n: nat, start: Table, modules: set<string>)
    requires InTime(start, modules) && PromotedIn(key, n, start, WaitsOf(start, modules), modules)
    requires key in Safest(start, WaitsOf(start, modules), modules)
    requires SafestAreSafe(After(n, start, WaitsOf(start, modules), modules),
                           Safest(start, WaitsOf(start, modules), modules))
    ensures Holds(Round(After(n, start, WaitsOf(start, modules), modules), WaitsOf(start, modules), modules), key, SAFE)
  {
    var waits := WaitsOf(start, modules);
    var table, safest := After(n, start, waits, modules), Safest(start, waits, modules);
    LaterKeeps(0, n, start, waits, modules);
    SafestMayBeSafe(start, waits, modules);
    assert AnsweredInTime(key, table, start, waits, modules);
    forall c | c in waits[key]
      ensures AnsweredBy(c, SAFE, table, modules)
    {
      assert SafelyAnswered(c, safest * NonBlockingKeys(table), start, modules);
      if AnsweredBy(c, SAFE, start, modules) {
        AnswersStay(c, SAFE, start, table, modules);
      } else {
        var a :| a in safest * NonBlockingKeys(table) && Answers(c, a, modules);
        assert Holds(table, a, SAFE);
      }
    }
    PromotedVerdict(n, start, waits, modules, key);
  }

  /** Whatever could be safe is promoted. */
  lemma SafestIsPromoted(start: Table, modules: set<string>)
    ensures Safest(start, WaitsOf(start, modules), modules) <= NonBlockingKeys(Fixpoint(start, modules))
  {
    var waits, end := WaitsOf(start, modules), Fixpoint(start, modules);
    FixpointFacts(start, modules);
    var x := NonBlockingKeys(end);
    forall key | SafelyEnabled(key, x, start, waits, modules)
      ensures key in x
    {
      forall c | c in waits[key]
        ensures Cleared(c, modules, x)
      {
        assert SafelyAnswered(c, x, start, modules);
        if AnsweredBy(c, SAFE, start, modules) {
          AnswersStay(c, SAFE, start, end, modules);
          var a :| Answers(c, a, modules) && Holds(end, a, SAFE);
          assert a in x;
        }
      }
      assert key !in EnabledKeys(end, waits, modules);
    }
    SafestIsLeast(x, start, waits, modules);
  }

  /**
   The rounds end in the join of the final verdicts exactly when whatever could be safe ends safe, and that is so
   exactly when no round promotes such a function before its callees are answered.
   */
  lemma JoinsExactlyInTime(start: Table, modules: set<string>)
    ensures VerdictsAreJoins(start, modules) <==> SafestEndSafe(start, modules)
    ensures VerdictsAreJoins(start, modules) <==> InTime(start, modules)
  {
    var waits := WaitsOf(start, modules);
    if VerdictsAreJoins(start, modules) {
      JoinsMakeSafe(start, modules);
    }
    if SafestEndSafe(start, modules) {
      SafeMakesJoins(start, modules);
      forall key, n: nat | PromotedIn(key, n, start, waits, modules) && key in Safest(start, waits, modules)
        ensures AnsweredInTime(key, After(n, start, waits, modules), start, waits, modules)
      {
        SafeIsInTime(key, n, start, modules);
      }
    }
    if InTime(start, modules) {
      InTimeStaysSafe(|waits|, start, modules);
      SafestIsPromoted(start, modules);
      assert SafestEndSafe(start, modules);
    }
  }

  /** Where no schedule shows the final verdicts are joins. */
  lemma NoRiskGivesJoins(start: Table, modules: set<string>)
    requires forall key :: !AtRisk(key, start, WaitsOf(start, modules), modules)
    ensures VerdictsAreJoins(start, modules)
  {
    var waits := WaitsOf(start, modules);
    WaitsBlock(start, modules);
    FixpointIsScheduled(start, modules);
    NoRiskStaysSafe(RoundSteps(|waits|, start, waits, modules), start, waits, modules);
    SafestIsPromoted(start, modules);
    SafeMakesJoins(start, modules);
  }
}
