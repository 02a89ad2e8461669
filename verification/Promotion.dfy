/** Which functions promotion clears, and with what verdict: the meaning of `promote_fixpoint` of
    `src/resolution.rs`. */
module Promotion {
  import opened Wrappers
  import opened Sequences
  import opened Names
  import opened Safety
  import opened Resolution

  /** A missing callee, split at its module once. */
  datatype Callee = Qualified(key: Key) | Unqualified(name: string)

  /** What each candidate waits for. */
  type Waiting = map<Key, set<Callee>>

  // ----- The order of promotions

  /** The function at `key` is one the callee may stand for. */
  ghost predicate Answers(callee: Callee, key: Key, modules: set<string>) {
    match callee
    case Qualified(k) => key == k
    case Unqualified(name) => key.name == name && key.module_ in modules
  }

  ghost predicate Cleared(callee: Callee, modules: set<string>, good: set<Key>) {
    exists key :: key in good && Answers(callee, key, modules)
  }

  /** Every callee `key` waits for is cleared by a function in `good`. */
  ghost predicate Enabled(key: Key, waits: Waiting, modules: set<string>, good: set<Key>) {
    key in waits && forall c :: c in waits[key] ==> Cleared(c, modules, good)
  }

  /** A run that promotes one function at a time, each enabled by what does not block and what was
      promoted before it. */
  ghost predicate Derivation(order: seq<Key>, waits: Waiting, modules: set<string>, free: set<Key>) {
    && NoDup(order)
    && forall i :: 0 <= i < |order| ==> Enabled(order[i], waits, modules, free + Elements(order[..i]))
  }

  /** Nothing outside `promoted` is enabled any more. */
  ghost predicate Closed(promoted: set<Key>, waits: Waiting, modules: set<string>, free: set<Key>) {
    forall key :: Enabled(key, waits, modules, free + promoted) ==> key in promoted
  }

  lemma EnabledGrows(key: Key, waits: Waiting, modules: set<string>, good: set<Key>, more: set<Key>)
    requires Enabled(key, waits, modules, good) && good <= more
    ensures Enabled(key, waits, modules, more)
  {
    forall c | c in waits[key]
      ensures Cleared(c, modules, more)
    {
      assert Cleared(c, modules, good);
    }
  }

  /** Whatever a run promotes lies in every closed set: a run that ends closed reaches the least one. */
  lemma {:induction false} RunIsLeast(order: seq<Key>, closed: set<Key>, waits: Waiting, modules: set<string>,
                                      free: set<Key>)
    requires Derivation(order, waits, modules, free) && Closed(closed, waits, modules, free)
    ensures Elements(order) <= closed
  {
    if order != [] {
      var front, last := order[..|order| - 1], order[|order| - 1];
      assert forall i :: 0 <= i < |front| ==> front[..i] == order[..i];
      RunIsLeast(front, closed, waits, modules, free);
      EnabledGrows(last, waits, modules, free + Elements(front), free + closed);
    }
  }

  /** All complete runs promote the same functions. */
  lemma RunsAgree(order: seq<Key>, order': seq<Key>, waits: Waiting, modules: set<string>, free: set<Key>)
    requires Derivation(order, waits, modules, free) && Closed(Elements(order), waits, modules, free)
    requires Derivation(order', waits, modules, free) && Closed(Elements(order'), waits, modules, free)
    ensures Elements(order) == Elements(order')
  {
    RunIsLeast(order, Elements(order'), waits, modules, free);
    RunIsLeast(order', Elements(order), waits, modules, free);
  }

  /** Each member waits for a callee that only other members could clear. */
  ghost predicate WaitingGroup(group: set<Key>, waits: Waiting, modules: set<string>, free: set<Key>) {
    forall g :: g in group ==> g in waits && exists c :: c in waits[g] && OnlyFrom(c, group, waits, modules, free)
  }

  ghost predicate OnlyFrom(c: Callee, group: set<Key>, waits: Waiting, modules: set<string>, free: set<Key>) {
    forall key :: Answers(c, key, modules) ==> key !in free && (key in waits ==> key in group)
  }

  lemma NotFromOutside(g: Key, group: set<Key>, waits: Waiting, modules: set<string>, free: set<Key>)
    requires WaitingGroup(group, waits, modules, free) && g in group
    ensures !Enabled(g, waits, modules, free + (waits.Keys - group))
  {
    var c :| c in waits[g] && OnlyFrom(c, group, waits, modules, free);
    assert !Cleared(c, modules, free + (waits.Keys - group));
  }

  /** A function is left waiting exactly when it belongs to such a group. */
  lemma StuckExactlyInGroups(order: seq<Key>, waits: Waiting, modules: set<string>, free: set<Key>, key: Key)
    requires Derivation(order, waits, modules, free) && Closed(Elements(order), waits, modules, free)
    requires key in waits
    ensures key !in order <==> exists group :: WaitingGroup(group, waits, modules, free) && key in group
  {
    var stuck := waits.Keys - Elements(order);
    if key !in order {
      forall g | g in stuck
        ensures exists c :: c in waits[g] && OnlyFrom(c, stuck, waits, modules, free)
      {
        assert !Enabled(g, waits, modules, free + Elements(order));
        var c :| c in waits[g] && !Cleared(c, modules, free + Elements(order));
        assert OnlyFrom(c, stuck, waits, modules, free);
      }
      assert WaitingGroup(stuck, waits, modules, free) && key in stuck;
    }
    if group :| WaitingGroup(group, waits, modules, free) && key in group {
      var others := waits.Keys - group;
      forall k | Enabled(k, waits, modules, free + others)
        ensures k in others
      {
        if k in group {
          NotFromOutside(k, group, waits, modules, free);
        }
      }
      RunIsLeast(order, others, waits, modules, free);
    }
  }

  // ----- The table during promotion

  ghost function NonBlockingKeys(table: Table): set<Key> {
    set k | k in table && table[k].verdict.NonBlocking()
  }

  /** `later` keeps every non-blocking verdict of `table`. */
  ghost predicate Keeps(table: Table, later: Table) {
    table.Keys == later.Keys && forall k :: k in table && table[k].verdict.NonBlocking() ==> later[k] == table[k]
  }

  ghost predicate Holds(table: Table, key: Key, verdict: FunctionSafety) {
    key in table && table[key].verdict == verdict
  }

  lemma KeepsAreKept(table: Table, later: Table)
    requires Keeps(table, later)
    ensures NonBlockingKeys(table) <= NonBlockingKeys(later)
  {
  }

  lemma VerdictKept(table: Table, later: Table, key: Key, verdict: FunctionSafety)
    requires Keeps(table, later) && Holds(table, key, verdict) && verdict.NonBlocking()
    ensures Holds(later, key, verdict)
  {
  }

  /** Some merged module holds a function of that name with exactly that verdict. */
  ghost predicate Somewhere(name: string, verdict: FunctionSafety, table: Table, modules: set<string>) {
    exists m :: m in modules && Holds(table, Key(m, name), verdict)
  }

  /** Some function with exactly that verdict answers to the callee. */
  ghost predicate AnsweredBy(callee: Callee, verdict: FunctionSafety, table: Table, modules: set<string>) {
    exists key :: Answers(callee, key, modules) && Holds(table, key, verdict)
  }

  ghost predicate AllSafe(callees: set<Callee>, table: Table, modules: set<string>) {
    forall c :: c in callees ==> AnsweredBy(c, SAFE, table, modules)
  }

  lemma AnswersStay(callee: Callee, verdict: FunctionSafety, table: Table, later: Table, modules: set<string>)
    requires AnsweredBy(callee, verdict, table, modules) && Keeps(table, later) && verdict.NonBlocking()
    ensures AnsweredBy(callee, verdict, later, modules)
  {
    var key :| Answers(callee, key, modules) && Holds(table, key, verdict);
    assert Holds(later, key, verdict);
  }

  /** A cleared callee without a safe answer has an unsafe-if-imported one. */
  lemma ClearedIsAnswered(callee: Callee, table: Table, modules: set<string>)
    requires Cleared(callee, modules, NonBlockingKeys(table))
    ensures AnsweredBy(callee, SAFE, table, modules) || AnsweredBy(callee, UNSAFE_IF_IMPORTED, table, modules)
  {
    var key :| key in NonBlockingKeys(table) && Answers(callee, key, modules);
    assert Holds(table, key, SAFE) || Holds(table, key, UNSAFE_IF_IMPORTED);
  }

  // ----- The candidates

  function ResolveCallee(name: string, modules: set<string>): Callee {
    match SplitKey(name, modules)
    case Some(key) => Qualified(key)
    case None => Unqualified(name)
  }

  ghost function Resolver(modules: set<string>): string -> Callee {
    name => ResolveCallee(name, modules)
  }

  predicate IsCandidate(key: Key, table: Table, modules: set<string>) {
    && key in table && key.module_ in modules
    && table[key].verdict.unsafeMissingDep && !table[key].verdict.hardUnsafe && table[key].missing != {}
  }

  /** The callees each candidate waits for. */
  ghost function Waits(table: Table, modules: set<string>, resolve: string -> Callee): Waiting {
    map k | k in table && IsCandidate(k, table, modules) :: set n | n in table[k].missing :: resolve(n)
  }

  ghost function WaitsOf(table: Table, modules: set<string>): Waiting {
    Waits(table, modules, Resolver(modules))
  }

  // ----- Rounds

  /** A verdict decided on this table: safe when the base has no concern left and every callee has a safe answer. */
  ghost function Joined(base: FunctionSafety, callees: set<Callee>, table: Table, modules: set<string>): FunctionSafety
  {
    if base.unsafeIfImported || !AllSafe(callees, table, modules) then UNSAFE_IF_IMPORTED else SAFE
  }

  /** What a round promotes: whatever still blocks and has all its callees cleared. */
  ghost function EnabledKeys(table: Table, waits: Waiting, modules: set<string>): set<Key> {
    set k | k in waits && k in table && k !in NonBlockingKeys(table)
      && Enabled(k, waits, modules, NonBlockingKeys(table))
  }

  /** The functions of `keys` promoted together, every verdict decided on the frozen table. */
  ghost function Promoted(table: Table, keys: set<Key>, waits: Waiting, modules: set<string>): Table {
    map k | k in table ::
      if k in keys && k in waits then table[k].(verdict := Joined(table[k].verdict, waits[k], table, modules))
        else table[k]
  }

  /** One round: all enabled functions at once. */
  ghost function Round(table: Table, waits: Waiting, modules: set<string>): Table {
    Promoted(table, EnabledKeys(table, waits, modules), waits, modules)
  }

  ghost function After(n: nat, start: Table, waits: Waiting, modules: set<string>): Table {
    if n == 0 then start else Round(After(n - 1, start, waits, modules), waits, modules)
  }

  /** The table promotion ends in. No more rounds than candidates are needed. */
  ghost function Fixpoint(start: Table, modules: set<string>): Table {
    var waits := WaitsOf(start, modules);
    After(|waits|, start, waits, modules)
  }

  lemma StepAdds(table: Table, keys: set<Key>, waits: Waiting, modules: set<string>)
    requires keys <= EnabledKeys(table, waits, modules)
    ensures Keeps(table, Promoted(table, keys, waits, modules))
    ensures NonBlockingKeys(Promoted(table, keys, waits, modules)) == NonBlockingKeys(table) + keys
  {
  }

  lemma RoundAdds(table: Table, waits: Waiting, modules: set<string>)
    ensures Keeps(table, Round(table, waits, modules))
    ensures NonBlockingKeys(Round(table, waits, modules)) == NonBlockingKeys(table) + EnabledKeys(table, waits, modules)
  {
  }

  lemma QuietRound(table: Table, waits: Waiting, modules: set<string>)
    requires EnabledKeys(table, waits, modules) == {}
    ensures Round(table, waits, modules) == table
  {
  }

  lemma {:induction false} LaterKeeps(m: nat, n: nat, start: Table, waits: Waiting, modules: set<string>)
    requires m <= n
    ensures Keeps(After(m, start, waits, modules), After(n, start, waits, modules))
  {
    if m < n {
      LaterKeeps(m, n - 1, start, waits, modules);
      RoundAdds(After(n - 1, start, waits, modules), waits, modules);
    }
  }

  /** The function may become safe. */
  ghost predicate MayBecomeSafe(key: Key, start: Table, waits: Waiting) {
    key in waits && key in start && !start[key].verdict.unsafeIfImported
  }

  /** A blocked function is as it was, and a function that stopped blocking was waiting. */
  lemma {:induction false} AfterFacts(n: nat, start: Table, waits: Waiting, modules: set<string>, key: Key)
    requires key in start
    ensures
      var table := After(n, start, waits, modules);
      && key in table
      && (key !in NonBlockingKeys(table) ==> table[key] == start[key])
      && (key in NonBlockingKeys(table) ==> key in NonBlockingKeys(start) || key in waits)
      && (Holds(table, key, SAFE) ==> Holds(start, key, SAFE) || MayBecomeSafe(key, start, waits))
  {
    if n > 0 {
      AfterFacts(n - 1, start, waits, modules, key);
    }
  }

  lemma {:induction false} QuietStays(m: nat, n: nat, start: Table, waits: Waiting, modules: set<string>)
    requires m <= n && EnabledKeys(After(m, start, waits, modules), waits, modules) == {}
    ensures After(n, start, waits, modules) == After(m, start, waits, modules)
  {
    if m < n {
      QuietStays(m, n - 1, start, waits, modules);
      QuietRound(After(m, start, waits, modules), waits, modules);
    }
  }

  ghost function NoLongerWaiting(table: Table, waits: Waiting): set<Key> {
    NonBlockingKeys(table) * waits.Keys
  }

  /** A round that changes nothing among the waiting functions finds none enabled. */
  lemma NoneAdded(table: Table, waits: Waiting, modules: set<string>)
    requires NoLongerWaiting(Round(table, waits, modules), waits) <= NoLongerWaiting(table, waits)
    ensures EnabledKeys(table, waits, modules) == {}
  {
    RoundAdds(table, waits, modules);
    forall k
      ensures k !in EnabledKeys(table, waits, modules)
    {
      assert k in EnabledKeys(table, waits, modules) ==> k in NoLongerWaiting(Round(table, waits, modules), waits);
    }
  }

  /** A growing chain of sets stands still at some point or has grown at every step. */
  lemma {:induction false} ChainStops<T>(d: nat -> set<T>, n: nat)
    requires forall k: nat, l: nat :: k <= l ==> d(k) <= d(l)
    ensures (exists k: nat :: k < n && d(k + 1) <= d(k)) || |d(n)| >= n
  {
    if n > 0 && !exists k: nat :: k < n && d(k + 1) <= d(k) {
      ChainStops(d, n - 1);
      assert !(d(n - 1 + 1) <= d(n - 1)) && d(n - 1) <= d(n);
      var x :| x in d(n) && x !in d(n - 1);
      FewerBefore(d(n - 1), d(n), x);
    }
  }

  lemma FewerBefore<T>(a: set<T>, b: set<T>, x: T)
    requires a <= b && x in b && x !in a
    ensures |a| < |b|
  {
    assert b == a + (b - a);
  }

  ghost function Progress(start: Table, waits: Waiting, modules: set<string>): nat -> set<Key> {
    (n: nat) => NoLongerWaiting(After(n, start, waits, modules), waits)
  }

  lemma ProgressGrows(start: Table, waits: Waiting, modules: set<string>)
    ensures
      var d := Progress(start, waits, modules);
      forall k: nat, l: nat :: k <= l ==> d(k) <= d(l)
  {
    var d := Progress(start, waits, modules);
    forall k: nat, l: nat | k <= l
      ensures d(k) <= d(l)
    {
      LaterKeeps(k, l, start, waits, modules);
      KeepsAreKept(After(k, start, waits, modules), After(l, start, waits, modules));
    }
  }

  lemma AllPromoted(table: Table, waits: Waiting, modules: set<string>)
    requires |NoLongerWaiting(table, waits)| >= |waits|
    ensures EnabledKeys(table, waits, modules) == {}
  {
    if k :| k in EnabledKeys(table, waits, modules) {
      FewerBefore(NoLongerWaiting(table, waits), waits.Keys, k);
    }
  }

  ghost predicate QuietAfter(n: nat, start: Table, waits: Waiting, modules: set<string>) {
    EnabledKeys(After(n, start, waits, modules), waits, modules) == {}
  }

  lemma StandstillIsQuiet(k: nat, start: Table, waits: Waiting, modules: set<string>)
    requires Progress(start, waits, modules)(k + 1) <= Progress(start, waits, modules)(k)
    ensures QuietAfter(k, start, waits, modules)
  {
    NoneAdded(After(k, start, waits, modules), waits, modules);
  }

  /** Some round before the n-th is quiet, or n candidates were promoted. */
  lemma QuietOrAll(n: nat, start: Table, waits: Waiting, modules: set<string>)
    ensures (exists k: nat :: k < n && QuietAfter(k, start, waits, modules))
            || |NoLongerWaiting(After(n, start, waits, modules), waits)| >= n
  {
    ProgressGrows(start, waits, modules);
    ChainStops(Progress(start, waits, modules), n);
    if k: nat :| k < n && Progress(start, waits, modules)(k + 1) <= Progress(start, waits, modules)(k) {
      StandstillIsQuiet(k, start, waits, modules);
    }
  }

  lemma StaysQuiet(k: nat, n: nat, start: Table, waits: Waiting, modules: set<string>)
    requires k <= n && QuietAfter(k, start, waits, modules)
    ensures QuietAfter(n, start, waits, modules)
  {
    QuietStays(k, n, start, waits, modules);
  }

  lemma QuietInTime(start: Table, waits: Waiting, modules: set<string>)
    ensures QuietAfter(|waits|, start, waits, modules)
  {
    QuietOrAll(|waits|, start, waits, modules);
    if k: nat :| k < |waits| && QuietAfter(k, start, waits, modules) {
      StaysQuiet(k, |waits|, start, waits, modules);
    } else {
      AllPromoted(After(|waits|, start, waits, modules), waits, modules);
    }
  }

  /** The rounds have ended: nothing is enabled in the table promotion ends in. */
  lemma FixpointIsQuiet(start: Table, modules: set<string>)
    ensures EnabledKeys(Fixpoint(start, modules), WaitsOf(start, modules), modules) == {}
  {
    QuietInTime(start, WaitsOf(start, modules), modules);
  }

  /** Every quiet table the rounds reach is the one promotion ends in. */
  lemma QuietIsFixpoint(n: nat, start: Table, modules: set<string>)
    requires EnabledKeys(After(n, start, WaitsOf(start, modules), modules), WaitsOf(start, modules), modules) == {}
    ensures After(n, start, WaitsOf(start, modules), modules) == Fixpoint(start, modules)
  {
    var waits := WaitsOf(start, modules);
    FixpointIsQuiet(start, modules);
    if n <= |waits| {
      QuietStays(n, |waits|, start, waits, modules);
    } else {
      QuietStays(|waits|, n, start, waits, modules);
    }
  }

  lemma FixpointKeeps(n: nat, start: Table, modules: set<string>)
    ensures Keeps(After(n, start, WaitsOf(start, modules), modules), Fixpoint(start, modules))
  {
    var waits := WaitsOf(start, modules);
    if n <= |waits| {
      LaterKeeps(n, |waits|, start, waits, modules);
    } else {
      FixpointIsQuiet(start, modules);
      QuietStays(|waits|, n, start, waits, modules);
    }
  }

  // ----- Which verdict a promoted function gets

  /** The round after `n` others promotes the function. */
  ghost predicate PromotedIn(key: Key, n: nat, start: Table, waits: Waiting, modules: set<string>) {
    key in EnabledKeys(After(n, start, waits, modules), waits, modules)
  }

  lemma {:induction false} SomeRoundPromotes(n: nat, start: Table, waits: Waiting, modules: set<string>, key: Key)
    requires key in NonBlockingKeys(After(n, start, waits, modules)) && key !in NonBlockingKeys(start)
    ensures exists m: nat :: m < n && PromotedIn(key, m, start, waits, modules)
  {
    if n > 0 {
      var before := After(n - 1, start, waits, modules);
      RoundAdds(before, waits, modules);
      if key in NonBlockingKeys(before) {
        SomeRoundPromotes(n - 1, start, waits, modules, key);
      } else {
        assert PromotedIn(key, n - 1, start, waits, modules);
      }
    }
  }

  lemma NotAgain(m: nat, n: nat, start: Table, waits: Waiting, modules: set<string>, key: Key)
    requires PromotedIn(key, m, start, waits, modules) && m < n
    ensures !PromotedIn(key, n, start, waits, modules)
  {
    RoundAdds(After(m, start, waits, modules), waits, modules);
    LaterKeeps(m + 1, n, start, waits, modules);
    KeepsAreKept(After(m + 1, start, waits, modules), After(n, start, waits, modules));
  }

  lemma PromotedOnce(m: nat, n: nat, start: Table, waits: Waiting, modules: set<string>, key: Key)
    requires PromotedIn(key, m, start, waits, modules) && PromotedIn(key, n, start, waits, modules)
    ensures m == n
  {
    if m < n {
      NotAgain(m, n, start, waits, modules, key);
    } else if n < m {
      NotAgain(n, m, start, waits, modules, key);
    }
  }

  lemma PromotedVerdict(n: nat, start: Table, waits: Waiting, modules: set<string>, key: Key)
    requires PromotedIn(key, n, start, waits, modules) && key in start
    ensures Holds(After(n + 1, start, waits, modules), key,
                  Joined(start[key].verdict, waits[key], After(n, start, waits, modules), modules))
  {
    AfterFacts(n, start, waits, modules, key);
  }

  lemma WasWaiting(n: nat, start: Table, waits: Waiting, modules: set<string>, key: Key)
    requires key in start && key !in NonBlockingKeys(start) && key in NonBlockingKeys(After(n, start, waits, modules))
    ensures key in waits
  {
    AfterFacts(n, start, waits, modules, key);
  }

  lemma VerdictStays(n: nat, start: Table, waits: Waiting, modules: set<string>, key: Key)
    requires waits == WaitsOf(start, modules) && PromotedIn(key, n, start, waits, modules) && key in start
    ensures Holds(Fixpoint(start, modules), key,
                  Joined(start[key].verdict, waits[key], After(n, start, waits, modules), modules))
  {
    var verdict := Joined(start[key].verdict, waits[key], After(n, start, waits, modules), modules);
    PromotedVerdict(n, start, waits, modules, key);
    FixpointKeeps(n + 1, start, modules);
    VerdictKept(After(n + 1, start, waits, modules), Fixpoint(start, modules), key, verdict);
  }

  /** A promoted function is promoted in some round, and keeps the verdict decided on the table that round started
      from: it is unsafe-if-imported exactly when it was so before or some callee had no safe answer yet. */
  lemma VerdictIsExact(start: Table, modules: set<string>, key: Key)
    requires key in start && key !in NonBlockingKeys(start) && key in NonBlockingKeys(Fixpoint(start, modules))
    ensures
      var waits := WaitsOf(start, modules);
      && key in waits
      && (exists n: nat :: PromotedIn(key, n, start, waits, modules))
      && (forall n: nat :: PromotedIn(key, n, start, waits, modules) ==>
            Holds(Fixpoint(start, modules), key,
                  Joined(start[key].verdict, waits[key], After(n, start, waits, modules), modules)))
  {
    var waits := WaitsOf(start, modules);
    WasWaiting(|waits|, start, waits, modules, key);
    SomeRoundPromotes(|waits|, start, waits, modules, key);
    forall n: nat | PromotedIn(key, n, start, waits, modules)
      ensures Holds(Fixpoint(start, modules), key,
                    Joined(start[key].verdict, waits[key], After(n, start, waits, modules), modules))
    {
      VerdictStays(n, start, waits, modules, key);
    }
  }

  // ----- When the order of rounds does not show

  /** It answers to the callee, and does not block or may stop doing so. */
  ghost predicate HopefulAnswer(callee: Callee, key: Key, start: Table, waits: Waiting, modules: set<string>) {
    Answers(callee, key, modules) && (key in NonBlockingKeys(start) || key in waits)
  }

  ghost predicate NeverSafe(callee: Callee, start: Table, waits: Waiting, modules: set<string>) {
    forall key :: Answers(callee, key, modules) ==> !Holds(start, key, SAFE) && !MayBecomeSafe(key, start, waits)
  }

  ghost predicate SoleAnswer(callee: Callee, start: Table, waits: Waiting, modules: set<string>) {
    forall key, other ::
      HopefulAnswer(callee, key, start, waits, modules) && HopefulAnswer(callee, other, start, waits, modules) ==>
      key == other
  }

  /** No promotion can change which answer the callee gets: a safe function answers from the start, or no function that
      answers can become safe, or only one that answers can ever be non-blocking. */
  ghost predicate Steady(callee: Callee, start: Table, waits: Waiting, modules: set<string>) {
    || AnsweredBy(callee, SAFE, start, modules)
    || NeverSafe(callee, start, waits, modules)
    || SoleAnswer(callee, start, waits, modules)
  }

  /** A callee that names its function is steady. */
  lemma QualifiedIsSteady(callee: Callee, start: Table, waits: Waiting, modules: set<string>)
    requires callee.Qualified?
    ensures Steady(callee, start, waits, modules)
  {
  }

  lemma HopefulSource(callee: Callee, key: Key, n: nat, start: Table, waits: Waiting, modules: set<string>)
    requires key in NonBlockingKeys(After(n, start, waits, modules)) && Answers(callee, key, modules)
    ensures HopefulAnswer(callee, key, start, waits, modules)
    ensures Holds(After(n, start, waits, modules), key, SAFE) ==> !NeverSafe(callee, start, waits, modules)
  {
    LaterKeeps(0, n, start, waits, modules);
    AfterFacts(n, start, waits, modules, key);
  }

  /** A steady callee without a safe answer when its caller is promoted never gets one. */
  lemma SteadyStaysUnsafe(callee: Callee, n: nat, start: Table, modules: set<string>)
    requires Steady(callee, start, WaitsOf(start, modules), modules)
    requires Cleared(callee, modules, NonBlockingKeys(After(n, start, WaitsOf(start, modules), modules)))
    requires AnsweredBy(callee, SAFE, Fixpoint(start, modules), modules)
    ensures AnsweredBy(callee, SAFE, After(n, start, WaitsOf(start, modules), modules), modules)
  {
    var waits, end := WaitsOf(start, modules), Fixpoint(start, modules);
    var table := After(n, start, waits, modules);
    LaterKeeps(0, n, start, waits, modules);
    LaterKeeps(0, |waits|, start, waits, modules);
    FixpointKeeps(n, start, modules);
    if AnsweredBy(callee, SAFE, start, modules) {
      AnswersStay(callee, SAFE, start, table, modules);
    } else {
      var late :| Answers(callee, late, modules) && Holds(end, late, SAFE);
      HopefulSource(callee, late, |waits|, start, waits, modules);
      var key :| key in NonBlockingKeys(table) && Answers(callee, key, modules);
      HopefulSource(callee, key, n, start, waits, modules);
      assert key == late;
      assert Holds(table, key, SAFE);
    }
  }

  /**
   The final verdict of a promoted function is at least the join of its base verdict with the final answers of its
   callees. It is that join exactly when no round was too early: some callee has no safe answer in the end, or all had
   one when the function was promoted. Where its callees are steady in the start table, as qualified ones are, it is
   always the join.
   */
  lemma VerdictIsJoin(start: Table, modules: set<string>, key: Key, n: nat)
    requires key in start && key !in NonBlockingKeys(start) && key in NonBlockingKeys(Fixpoint(start, modules))
    requires PromotedIn(key, n, start, WaitsOf(start, modules), modules)
    ensures
      var waits, end := WaitsOf(start, modules), Fixpoint(start, modules);
      var join := Joined(start[key].verdict, waits[key], end, modules);
      && (end[key].verdict.IsSafe() ==> join.IsSafe())
      && (end[key].verdict == join <==>
          start[key].verdict.unsafeIfImported || !AllSafe(waits[key], end, modules)
          || AllSafe(waits[key], After(n, start, waits, modules), modules))
      && ((forall c :: c in waits[key] ==> Steady(c, start, waits, modules)) ==> end[key].verdict == join)
  {
    var waits, end := WaitsOf(start, modules), Fixpoint(start, modules);
    var frozen := After(n, start, waits, modules);
    VerdictIsExact(start, modules, key);
    FixpointKeeps(n, start, modules);
    if AllSafe(waits[key], frozen, modules) {
      forall c | c in waits[key]
        ensures AnsweredBy(c, SAFE, end, modules)
      {
        AnswersStay(c, SAFE, frozen, end, modules);
      }
    } else if AllSafe(waits[key], end, modules) && forall c :: c in waits[key] ==> Steady(c, start, waits, modules) {
      forall c | c in waits[key]
        ensures AnsweredBy(c, SAFE, frozen, modules)
      {
        SteadyStaysUnsafe(c, n, start, modules);
      }
    }
  }

  // ----- What promotion returns

  /** What was promoted, in order, accounts for all that stopped blocking. */
  ghost predicate Account(promoted: seq<Key>, table: Table, start: Table, waits: Waiting, modules: set<string>) {
    && Derivation(promoted, waits, modules, NonBlockingKeys(start))
    && NonBlockingKeys(table) == NonBlockingKeys(start) + Elements(promoted)
    && Elements(promoted) <= waits.Keys - NonBlockingKeys(start)
  }

  /** `end` is the table promotion ends in, and `promoted` a complete order of promotions that leads there. */
  ghost predicate Outcome(start: Table, end: Table, promoted: seq<Key>, modules: set<string>) {
    var waits := WaitsOf(start, modules);
    && end == Fixpoint(start, modules)
    && Account(promoted, end, start, waits, modules)
    && Closed(Elements(promoted), waits, modules, NonBlockingKeys(start))
  }

  /** Where nothing is enabled any more the order of promotions is complete. */
  lemma QuietIsClosed(promoted: seq<Key>, table: Table, start: Table, waits: Waiting, modules: set<string>)
    requires Account(promoted, table, start, waits, modules) && EnabledKeys(table, waits, modules) == {}
    requires forall k :: k in waits ==> k in table && k !in NonBlockingKeys(start)
    ensures Closed(Elements(promoted), waits, modules, NonBlockingKeys(start))
  {
    forall key | Enabled(key, waits, modules, NonBlockingKeys(start) + Elements(promoted))
      ensures key in Elements(promoted)
    {
      assert key !in EnabledKeys(table, waits, modules);
    }
  }
}
