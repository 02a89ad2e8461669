/** Combining the records several libraries hold of one module: `src/cache/merge.rs`. */
module Merge {
  import opened Safety
  import opened Artifact
  import opened Runs
  import opened Sorting
  import Resolution

  // ----- The order of a cache's lists

  predicate KindLe(a: SafetyError, b: SafetyError) { a.kind <= b.kind }
  predicate MetadataLe(a: SafetyError, b: SafetyError) { StringLe(a.metadata, b.metadata) }
  predicate DecoratorLe(a: SafetyError, b: SafetyError) { a.parameterizedDecorator ==> b.parameterizedDecorator }
  predicate GuardLe(a: SafetyError, b: SafetyError) { a.fromMainGuard ==> b.fromMainGuard }

  /** Errors by the fields a cache carries; where they are is not one. */
  function ErrorLe(): (SafetyError, SafetyError) -> bool {
    Then(KindLe, Then(MetadataLe, Then(DecoratorLe, GuardLe)))
  }

  predicate AttributeLe(a: PropertyCandidate, b: PropertyCandidate) { StringLe(a.attribute, b.attribute) }
  predicate PropertyGuardLe(a: PropertyCandidate, b: PropertyCandidate) { a.fromMainGuard ==> b.fromMainGuard }

  function PropertyLe(): (PropertyCandidate, PropertyCandidate) -> bool {
    Then(AttributeLe, PropertyGuardLe)
  }

  predicate ClassLe(a: SubclassCandidate, b: SubclassCandidate) { StringLe(a.class_, b.class_) }
  predicate SubclassGuardLe(a: SubclassCandidate, b: SubclassCandidate) { a.fromMainGuard ==> b.fromMainGuard }

  function SubclassLe(): (SubclassCandidate, SubclassCandidate) -> bool {
    Then(ClassLe, SubclassGuardLe)
  }

  /** The order of errors, field by field. */
  lemma ErrorLeFields(x: SafetyError, y: SafetyError)
    ensures ErrorLe()(x, y) <==>
      x.kind <= y.kind && (y.kind <= x.kind ==>
        StringLe(x.metadata, y.metadata) && (StringLe(y.metadata, x.metadata) ==>
          (x.parameterizedDecorator ==> y.parameterizedDecorator)
            && ((y.parameterizedDecorator ==> x.parameterizedDecorator) ==>
            (x.fromMainGuard ==> y.fromMainGuard))))
  {
    var flags: (SafetyError, SafetyError) -> bool := Then(DecoratorLe, GuardLe);
    assert flags(x, y) == (DecoratorLe(x, y) && (DecoratorLe(y, x) ==> GuardLe(x, y)));
    var rest := Then(MetadataLe, flags);
    assert rest(x, y) == (MetadataLe(x, y) && (MetadataLe(y, x) ==> flags(x, y)));
    assert ErrorLe()(x, y) == (KindLe(x, y) && (KindLe(y, x) ==> rest(x, y)));
  }

  lemma PropertyLeFields(x: PropertyCandidate, y: PropertyCandidate)
    ensures PropertyLe()(x, y) <==>
      StringLe(x.attribute, y.attribute)
        && (StringLe(y.attribute, x.attribute) ==> (x.fromMainGuard ==> y.fromMainGuard))
  {
    assert PropertyLe()(x, y) == (AttributeLe(x, y) && (AttributeLe(y, x) ==> PropertyGuardLe(x, y)));
  }

  lemma SubclassLeFields(x: SubclassCandidate, y: SubclassCandidate)
    ensures SubclassLe()(x, y) <==>
      StringLe(x.class_, y.class_) && (StringLe(y.class_, x.class_) ==> (x.fromMainGuard ==> y.fromMainGuard))
  {
    assert SubclassLe()(x, y) == (ClassLe(x, y) && (ClassLe(y, x) ==> SubclassGuardLe(x, y)));
  }

  lemma OrdersArePreorders()
    ensures TotalPreorder(ErrorLe()) && TotalPreorder(PropertyLe()) && TotalPreorder(SubclassLe())
            && TotalPreorder(StringLe)
  {
    StringLeIsOrder();
    StringKeysArePreorders();
    ThenIsPreorder(DecoratorLe, GuardLe);
    ThenIsPreorder(MetadataLe, Then(DecoratorLe, GuardLe));
    ThenIsPreorder(KindLe, Then(MetadataLe, Then(DecoratorLe, GuardLe)));
    ThenIsPreorder(AttributeLe, PropertyGuardLe);
    ThenIsPreorder(ClassLe, SubclassGuardLe);
  }

  lemma StringKeysArePreorders()
    requires TotalPreorder(StringLe)
    ensures TotalPreorder(MetadataLe) && TotalPreorder(AttributeLe) && TotalPreorder(ClassLe)
  {
    forall x, y, z
      ensures MetadataLe(x, y) && MetadataLe(y, z) ==> MetadataLe(x, z)
    {
      assert InARow(x.metadata, y.metadata, z.metadata);
    }
    forall x, y, z
      ensures AttributeLe(x, y) && AttributeLe(y, z) ==> AttributeLe(x, z)
    {
      assert InARow(x.attribute, y.attribute, z.attribute);
    }
    forall x, y, z
      ensures ClassLe(x, y) && ClassLe(y, z) ==> ClassLe(x, z)
    {
      assert InARow(x.class_, y.class_, z.class_);
    }
  }

  // ----- Merging two records

  method ExtendDeduped<T(==)>(target: seq<T>, other: seq<T>) returns (r: seq<T>)
    ensures r == WithNovel(target, other)
  {
    var seen := set x | x in target;
    var keep := [];
    for i := 0 to |other|
      invariant |keep| == i
      invariant forall x :: x in seen <==> x in target || x in other[..i]
      invariant forall k :: 0 <= k < i ==> (keep[k] <==> other[k] !in target && other[k] !in other[..k])
    {
      keep := keep + [other[i] !in seen];
      seen := seen + {other[i]};
      assert other[..i + 1] == other[..i] + [other[i]];
    }
    r := target;
    for i := 0 to |other|
      invariant r == WithNovel(target, other[..i])
    {
      WithNovelFacts(target, other[..i]);
      assert other[..i + 1][..i] == other[..i];
      if keep[i] {
        r := r + [other[i]];
      }
    }
    assert other[..|other|] == other;
  }

  ghost function MergedTable(a: map<string, Info>, b: map<string, Info>): map<string, Info> {
    map n | n in a.Keys + b.Keys :: if n !in b then a[n] else if n in a then Merged(a[n], b[n]) else b[n]
  }

  method MergeTable(a: map<string, Info>, b: map<string, Info>) returns (r: map<string, Info>)
    ensures r == MergedTable(a, b)
  {
    r := a;
    var todo := b.Keys;
    while todo != {}
      invariant todo <= b.Keys
      invariant r.Keys == a.Keys + (b.Keys - todo)
      invariant forall n :: n in r ==> r[n] == if n in b && n !in todo then MergedTable(a, b)[n] else a[n]
      decreases todo
    {
      var name :| name in todo;
      todo := todo - {name};
      var entry := b[name];
      if name in r {
        var merged, _ := MergeRef(r[name], b[name]);
        entry := merged;
      }
      r := r[name := entry];
    }
  }

  /** The analysis error if there is one, else the errors of both. */
  ghost function MergedSafety(a: CachedSafety, b: CachedSafety): CachedSafety {
    if a.AnalysisError? then a
    else if b.AnalysisError? then b
    else Ok(Union(a.errors, b.errors, ErrorLe()),
            Union(a.forceImportsEagerOverrides, b.forceImportsEagerOverrides, ErrorLe()),
            Union(a.implicitImports, b.implicitImports, StringLe))
  }

  method MergeSafety(a: CachedSafety, b: CachedSafety) returns (r: CachedSafety)
    ensures r == MergedSafety(a, b)
  {
    match (a, b)
    case (AnalysisError(_), _) => r := a;
    case (_, AnalysisError(_)) => r := b;
    case (Ok(errors, overrides, implicit), Ok(errors', overrides', implicit')) =>
      r := Ok(Union(errors, errors', ErrorLe()), Union(overrides, overrides', ErrorLe()),
              Union(implicit, implicit', StringLe));
  }

  ghost function MergedModule(a: CachedModule, b: CachedModule): CachedModule {
    CachedModule(
      a.name,
      MergedSafety(a.safety, b.safety),
      a.imports + b.imports,
      a.missingImports * b.missingImports,
      a.ambiguousImports + b.ambiguousImports,
      a.sideEffectImports + b.sideEffectImports,
      MergedTable(a.functionSafety, b.functionSafety),
      WithNovel(a.mutationCandidates, b.mutationCandidates),
      Together(a.propertyCandidates, b.propertyCandidates, PropertyLe()),
      Together(a.subclassCandidates, b.subclassCandidates, SubclassLe()),
      a.mainGuardImports * b.mainGuardImports)
  }

  method MergeModule(a: CachedModule, b: CachedModule) returns (r: CachedModule)
    ensures r == MergedModule(a, b)
  {
    var safety := MergeSafety(a.safety, b.safety);
    var functionSafety := MergeTable(a.functionSafety, b.functionSafety);
    var mutationCandidates := ExtendDeduped(a.mutationCandidates, b.mutationCandidates);
    var missingImports := Retain(a.missingImports, b.missingImports);
    var mainGuardImports := Retain(a.mainGuardImports, b.mainGuardImports);
    r := CachedModule(
      a.name, safety, a.imports + b.imports, missingImports, a.ambiguousImports + b.ambiguousImports,
      a.sideEffectImports + b.sideEffectImports, functionSafety, mutationCandidates,
      Together(a.propertyCandidates, b.propertyCandidates, PropertyLe()),
      Together(a.subclassCandidates, b.subclassCandidates, SubclassLe()), mainGuardImports);
  }

  /** The names that are also in the other set. */
  method Retain(names: set<string>, other: set<string>) returns (r: set<string>)
    ensures r == names * other
  {
    r := set n | n in names && n in other;
  }

  // ----- The lists of a merged record

  /** Errors and implicit imports come sorted, without ties. */
  lemma MergedReportsAreSorted(a: CachedSafety, b: CachedSafety)
    requires a.Ok? && b.Ok?
    ensures
      var r := MergedSafety(a, b);
      && r.Ok? && StrictlySorted(r.errors, ErrorLe()) && StrictlySorted(r.forceImportsEagerOverrides, ErrorLe())
      && StrictlySorted(r.implicitImports, StringLe)
  {
    OrdersArePreorders();
    UnionIsSorted(a.errors, b.errors, ErrorLe());
    UnionIsSorted(a.forceImportsEagerOverrides, b.forceImportsEagerOverrides, ErrorLe());
    UnionIsSorted(a.implicitImports, b.implicitImports, StringLe);
  }

  /** Every error of the merged lists is one of either list. */
  lemma NoErrorIsNew(a: seq<SafetyError>, b: seq<SafetyError>)
    ensures forall e :: e in Union(a, b, ErrorLe()) ==> e in a || e in b
  {
    OrdersArePreorders();
    UnionIsSorted(a, b, ErrorLe());
  }

  /** The other candidates come sorted, without repeated neighbours; mutation candidates stay where they are, each new
      one behind them once. */
  lemma MergedCandidatesAreSorted(a: CachedModule, b: CachedModule)
    ensures
      var r := MergedModule(a, b);
      && Sorted(r.propertyCandidates, PropertyLe()) && NoRepeats(r.propertyCandidates)
      && Sorted(r.subclassCandidates, SubclassLe()) && NoRepeats(r.subclassCandidates)
      && a.mutationCandidates <= r.mutationCandidates
      && forall i, j :: |a.mutationCandidates| <= j < |r.mutationCandidates| && 0 <= i < j ==>
        r.mutationCandidates[i] != r.mutationCandidates[j]
  {
    OrdersArePreorders();
    TogetherFacts(a.propertyCandidates, b.propertyCandidates, PropertyLe());
    TogetherFacts(a.subclassCandidates, b.subclassCandidates, SubclassLe());
    WithNovelFacts(a.mutationCandidates, b.mutationCandidates);
  }

  // ----- What a record tells

  datatype Item =
    | Import(target: string)
    | Resolved(target: string)
    | Unguarded(target: string)
    | Ambiguous(target: string)
    | SideEffect(target: string)
    | FunctionFact(function_: string, fact: Fact)
    | Failed
    | Error(error: SafetyError)
    | Override(error: SafetyError)
    | Implicit(target: string)
    | Mutation(candidate: Resolution.Candidate)
    | Property(property: PropertyCandidate)
    | Subclass(subclass: SubclassCandidate)

  /** The errors of an analysis; a failed one stands for every error. */
  ghost predicate Reports(s: CachedSafety, x: Item) {
    match x
    case Error(error) => s.AnalysisError? || HasTie(s.errors, error, ErrorLe())
    case Override(error) => s.AnalysisError? || HasTie(s.forceImportsEagerOverrides, error, ErrorLe())
    case Implicit(target) => s.AnalysisError? || HasTie(s.implicitImports, target, StringLe)
    case _ => s.AnalysisError?
  }

  ghost predicate RecordsFunction(table: map<string, Info>, function_: string, fact: Fact) {
    function_ in table && Says(table[function_], fact)
  }

  /** The record holds the item, positions of errors aside. */
  ghost predicate Records(m: CachedModule, x: Item) {
    match x
    case Import(target) => target in m.imports
    case Resolved(target) => target !in m.missingImports
    case Unguarded(target) => target !in m.mainGuardImports
    case Ambiguous(target) => target in m.ambiguousImports
    case SideEffect(target) => target in m.sideEffectImports
    case FunctionFact(function_, fact) => RecordsFunction(m.functionSafety, function_, fact)
    case Mutation(candidate) => candidate in m.mutationCandidates
    case Property(property) => property in m.propertyCandidates
    case Subclass(subclass) => subclass in m.subclassCandidates
    case _ => Reports(m.safety, x)
  }

  lemma MergeErrorLists(a: seq<SafetyError>, b: seq<SafetyError>, x: SafetyError)
    ensures HasTie(Union(a, b, ErrorLe()), x, ErrorLe()) <==> HasTie(a, x, ErrorLe()) || HasTie(b, x, ErrorLe())
  {
    OrdersArePreorders();
    UnionHasTie(a, b, x, ErrorLe());
  }

  lemma MergeNameLists(a: seq<string>, b: seq<string>, x: string)
    ensures HasTie(Union(a, b, StringLe), x, StringLe) <==> HasTie(a, x, StringLe) || HasTie(b, x, StringLe)
  {
    OrdersArePreorders();
    UnionHasTie(a, b, x, StringLe);
  }

  lemma MergePropertyLists(a: seq<PropertyCandidate>, b: seq<PropertyCandidate>, x: PropertyCandidate)
    ensures x in Together(a, b, PropertyLe()) <==> x in a || x in b
  {
    OrdersArePreorders();
    TogetherFacts(a, b, PropertyLe());
  }

  lemma MergeSubclassLists(a: seq<SubclassCandidate>, b: seq<SubclassCandidate>, x: SubclassCandidate)
    ensures x in Together(a, b, SubclassLe()) <==> x in a || x in b
  {
    OrdersArePreorders();
    TogetherFacts(a, b, SubclassLe());
  }

  lemma MergeOkReports(a: CachedSafety, b: CachedSafety, x: Item)
    requires a.Ok? && b.Ok?
    ensures Reports(MergedSafety(a, b), x) <==> Reports(a, x) || Reports(b, x)
  {
    match x
    case Error(error) => MergeErrorLists(a.errors, b.errors, error);
    case Override(error) => MergeErrorLists(a.forceImportsEagerOverrides, b.forceImportsEagerOverrides, error);
    case Implicit(target) => MergeNameLists(a.implicitImports, b.implicitImports, target);
    case _ =>
  }

  lemma MergeReports(a: CachedSafety, b: CachedSafety, x: Item)
    ensures Reports(MergedSafety(a, b), x) <==> Reports(a, x) || Reports(b, x)
  {
    if a.Ok? && b.Ok? {
      MergeOkReports(a, b, x);
    }
  }

  /** Of two analyses that failed the first message stays; a failed one stands for both. */
  lemma FirstFailureStays(a: CachedSafety, b: CachedSafety)
    ensures a.AnalysisError? ==> MergedSafety(a, b) == a
    ensures a.Ok? && b.AnalysisError? ==> MergedSafety(a, b) == b
  {
  }

  lemma MergeFunctions(a: map<string, Info>, b: map<string, Info>, function_: string, fact: Fact)
    ensures RecordsFunction(MergedTable(a, b), function_, fact) <==>
      RecordsFunction(a, function_, fact) || RecordsFunction(b, function_, fact)
  {
    if function_ in a && function_ in b {
      MergedFacts(a[function_], b[function_]);
    }
  }

  lemma MergeNovel<T>(a: seq<T>, b: seq<T>, x: T)
    ensures x in WithNovel(a, b) <==> x in a || x in b
  {
    WithNovelFacts(a, b);
  }

  /** `r` holds about an item what either of two records does. */
  ghost predicate Joins(r: CachedModule, a: CachedModule, b: CachedModule, x: Item) {
    Records(r, x) <==> Records(a, x) || Records(b, x)
  }

  lemma JoinsImports(r: CachedModule, a: CachedModule, b: CachedModule, x: Item)
    requires r.imports == a.imports + b.imports && r.missingImports == a.missingImports * b.missingImports
    requires r.ambiguousImports == a.ambiguousImports + b.ambiguousImports
    requires r.sideEffectImports == a.sideEffectImports + b.sideEffectImports
    requires r.mainGuardImports == a.mainGuardImports * b.mainGuardImports
    requires x.Import? || x.Resolved? || x.Unguarded? || x.Ambiguous? || x.SideEffect?
    ensures Joins(r, a, b, x)
  {
  }

  lemma JoinsMutations(r: CachedModule, a: CachedModule, b: CachedModule, x: Item)
    requires x.Mutation?
    requires x.candidate in r.mutationCandidates <==>
      x.candidate in a.mutationCandidates || x.candidate in b.mutationCandidates
    ensures Joins(r, a, b, x)
  {
  }

  lemma JoinsProperties(r: CachedModule, a: CachedModule, b: CachedModule, x: Item)
    requires x.Property?
    requires x.property in r.propertyCandidates <==>
      x.property in a.propertyCandidates || x.property in b.propertyCandidates
    ensures Joins(r, a, b, x)
  {
  }

  lemma JoinsSubclasses(r: CachedModule, a: CachedModule, b: CachedModule, x: Item)
    requires x.Subclass?
    requires x.subclass in r.subclassCandidates <==>
      x.subclass in a.subclassCandidates || x.subclass in b.subclassCandidates
    ensures Joins(r, a, b, x)
  {
  }

  lemma JoinsFunctions(r: CachedModule, a: CachedModule, b: CachedModule, x: Item)
    requires x.FunctionFact?
    requires RecordsFunction(r.functionSafety, x.function_, x.fact) <==>
      RecordsFunction(a.functionSafety, x.function_, x.fact) || RecordsFunction(b.functionSafety, x.function_, x.fact)
    ensures Joins(r, a, b, x)
  {
  }

  lemma JoinsReports(r: CachedModule, a: CachedModule, b: CachedModule, x: Item)
    requires Reports(r.safety, x) <==> Reports(a.safety, x) || Reports(b.safety, x)
    requires x.Failed? || x.Error? || x.Override? || x.Implicit?
    ensures Joins(r, a, b, x)
  {
  }

  lemma MergedMutations(a: CachedModule, b: CachedModule, x: Resolution.Candidate)
    ensures x in MergedModule(a, b).mutationCandidates <==> x in a.mutationCandidates || x in b.mutationCandidates
  {
    MergeNovel(a.mutationCandidates, b.mutationCandidates, x);
  }

  lemma MergedProperties(a: CachedModule, b: CachedModule, x: PropertyCandidate)
    ensures x in MergedModule(a, b).propertyCandidates <==> x in a.propertyCandidates || x in b.propertyCandidates
  {
    MergePropertyLists(a.propertyCandidates, b.propertyCandidates, x);
  }

  lemma MergedSubclasses(a: CachedModule, b: CachedModule, x: SubclassCandidate)
    ensures x in MergedModule(a, b).subclassCandidates <==> x in a.subclassCandidates || x in b.subclassCandidates
  {
    MergeSubclassLists(a.subclassCandidates, b.subclassCandidates, x);
  }

  lemma MergedReports(r: CachedModule, a: CachedModule, b: CachedModule, x: Item)
    requires r.safety == MergedSafety(a.safety, b.safety) && (x.Failed? || x.Error? || x.Override? || x.Implicit?)
    ensures Joins(r, a, b, x)
  {
    MergeReports(a.safety, b.safety, x);
    JoinsReports(r, a, b, x);
  }

  /** A merged record holds exactly what either record held. */
  lemma MergeRecords(a: CachedModule, b: CachedModule, x: Item)
    ensures Joins(MergedModule(a, b), a, b, x)
  {
    var r := MergedModule(a, b);
    match x
    case FunctionFact(function_, fact) =>
      MergeFunctions(a.functionSafety, b.functionSafety, function_, fact);
      JoinsFunctions(r, a, b, x);
    case Mutation(candidate) =>
      MergedMutations(a, b, candidate);
      JoinsMutations(r, a, b, x);
    case Property(property) =>
      MergedProperties(a, b, property);
      JoinsProperties(r, a, b, x);
    case Subclass(subclass) =>
      MergedSubclasses(a, b, subclass);
      JoinsSubclasses(r, a, b, x);
    case Failed => MergedReports(r, a, b, x);
    case Error(_) => MergedReports(r, a, b, x);
    case Override(_) => MergedReports(r, a, b, x);
    case Implicit(_) => MergedReports(r, a, b, x);
    case _ => JoinsImports(r, a, b, x);
  }

  // ----- Merging runs of records in place

  function NameOf(m: CachedModule): string {
    m.name
  }

  function EmptyModule(name: string): CachedModule {
    CachedModule(name, Ok([], [], []), {}, {}, {}, {}, map[], [], [], [], {})
  }

  /** `merge` is the merging of records. */
  ghost predicate IsMerge(merge: (CachedModule, CachedModule) -> CachedModule) {
    forall a, b {:trigger MergedModule(a, b)} :: merge(a, b) == MergedModule(a, b)
  }

  /** Merge the record at `read` into the one at `write`, leaving an empty record behind. */
  method MergeInto(modules: array<CachedModule>, write: nat, read: nat,
                   ghost merge: (CachedModule, CachedModule) -> CachedModule)
    requires write < read < modules.Length && IsMerge(merge)
    modifies modules
    ensures modules[..write + 1] == old(modules[..write]) + [merge(old(modules[write]), old(modules[read]))]
    ensures forall k :: read < k < modules.Length ==> modules[k] == old(modules[k])
  {
    var other := modules[read];
    modules[read] := EmptyModule(other.name);
    var merged := MergeModule(modules[write], other);
    modules[write] := merged;
  }

  /** Move the record at `read` to the end of the front. */
  method Keep(modules: array<CachedModule>, write: nat, read: nat)
    requires write <= read < modules.Length
    modifies modules
    ensures modules[..write + 1] == old(modules[..write]) + [old(modules[read])]
    ensures forall k :: read < k < modules.Length ==> modules[k] == old(modules[k])
  {
    if write != read {
      modules[write], modules[read] := modules[read], modules[write];
    }
  }

  /** Take the record at `read` into the compacted front, which ends at `write`. */
  method TakeIn(modules: array<CachedModule>, write: nat, read: nat, ghost was: seq<CachedModule>,
                ghost merge: (CachedModule, CachedModule) -> CachedModule)
    returns (write': nat)
    requires write < read < modules.Length == |was| && IsMerge(merge)
    requires modules[..write + 1] == Coalesced(was[..read], NameOf, merge)
    requires forall k :: read <= k < modules.Length ==> modules[k] == was[k]
    modifies modules
    ensures write' <= read
    ensures modules[..write' + 1] == Coalesced(was[..read + 1], NameOf, merge)
    ensures forall k :: read < k < modules.Length ==> modules[k] == was[k]
  {
    ghost var kept := modules[..write + 1];
    CoalescedNext(was, read, NameOf, merge);
    assert kept[write] == modules[write] && kept[..write] == modules[..write];
    if modules[write].name == modules[read].name {
      MergeInto(modules, write, read, merge);
      write' := write;
    } else {
      write' := write + 1;
      Keep(modules, write', read);
    }
  }

  /** Compact the records of the same module into one, at the front of the array; the length of the
      front is returned. */
  method Compact(modules: array<CachedModule>, ghost merge: (CachedModule, CachedModule) -> CachedModule)
    returns (len: nat)
    requires IsMerge(merge)
    modifies modules
    ensures len <= modules.Length && modules[..len] == Coalesced(old(modules[..]), NameOf, merge)
  {
    ghost var was := modules[..];
    if modules.Length < 2 {
      assert modules.Length == 1 ==> was[..0] == [];
      return modules.Length;
    }
    var write: nat := 0;
    assert was[..1][..0] == [];
    for read := 1 to modules.Length
      invariant write < read
      invariant modules[..write + 1] == Coalesced(was[..read], NameOf, merge)
      invariant forall k :: read <= k < modules.Length ==> modules[k] == was[k]
    {
      write := TakeIn(modules, write, read, was, merge);
    }
    assert was[..modules.Length] == was;
    return write + 1;
  }

  method MergeDuplicateModules(modules: array<CachedModule>) returns (len: nat)
    modifies modules
    ensures len <= modules.Length && modules[..len] == Coalesced(old(modules[..]), NameOf, MergedModule)
  {
    len := Compact(modules, MergedModule);
  }

  /** On records sorted by name compaction keeps one record a name, in order: the left fold of all records
      of that name. */
  lemma OneRecordPerName(ms: seq<CachedModule>)
    requires SortedByKey(ms, NameOf, StringLe)
    ensures Compacts(ms, Coalesced(ms, NameOf, MergedModule), NameOf, MergedModule, StringLe)
  {
    StringLeIsOrder();
    CoalescedCompacts(ms, NameOf, MergedModule, StringLe);
  }

  /** Compaction loses nothing and invents nothing: a survivor holds exactly what the records of its name held. */
  lemma NothingLost(ms: seq<CachedModule>, x: Item, i: nat)
    requires SortedByKey(ms, NameOf, StringLe) && i < |Coalesced(ms, NameOf, MergedModule)|
    ensures
      var c := Coalesced(ms, NameOf, MergedModule)[i];
      Records(c, x) <==> exists m :: m in ms && m.name == c.name && Records(m, x)
  {
    StringLeIsOrder();
    var holds := (m: CachedModule) => Records(m, x);
    MergePassesOn(x, holds);
    CoalescedPassesOn(ms, i, NameOf, MergedModule, StringLe, holds);
    var c := Coalesced(ms, NameOf, MergedModule)[i];
    if m :| m in ms && NameOf(m) == NameOf(c) && holds(m) {
      assert Records(m, x);
    }
    if m :| m in ms && m.name == c.name && Records(m, x) {
      assert NameOf(m) == NameOf(c) && holds(m);
    }
  }

  lemma MergePassesOn(x: Item, holds: CachedModule -> bool)
    requires forall m {:trigger Records(m, x)} :: holds(m) == Records(m, x)
    ensures forall a, b {:trigger MergedModule(a, b)} :: holds(MergedModule(a, b)) <==> holds(a) || holds(b)
  {
    forall a, b
      ensures holds(MergedModule(a, b)) <==> holds(a) || holds(b)
    {
      MergeRecords(a, b, x);
      assert Records(MergedModule(a, b), x) <==> Records(a, x) || Records(b, x);
    }
  }

  /** The order in which records come shows neither in the names of the survivors nor in what they hold. */
  lemma OrderOfRecordsIsForgotten(ms: seq<CachedModule>, ns: seq<CachedModule>)
    requires SortedByKey(ms, NameOf, StringLe) && SortedByKey(ns, NameOf, StringLe) && multiset(ms) == multiset(ns)
    ensures
      var a, b := Coalesced(ms, NameOf, MergedModule), Coalesced(ns, NameOf, MergedModule);
      && |a| == |b|
      && (forall i :: 0 <= i < |a| ==> a[i].name == b[i].name)
      && (forall i, x :: 0 <= i < |a| ==> (Records(a[i], x) <==> Records(b[i], x)))
  {
    var a, b := Coalesced(ms, NameOf, MergedModule), Coalesced(ns, NameOf, MergedModule);
    StringLeIsOrder();
    SurvivorKeys(ms, ns, NameOf, MergedModule, StringLe);
    assert forall i :: 0 <= i < |a| ==> KeysOf(a, NameOf)[i] == NameOf(a[i]) && KeysOf(b, NameOf)[i] == NameOf(b[i]);
    forall i, x | 0 <= i < |a|
      ensures Records(a[i], x) <==> Records(b[i], x)
    {
      SurvivorsAgree(ms, ns, x, i);
    }
  }

  lemma SurvivorsAgree(ms: seq<CachedModule>, ns: seq<CachedModule>, x: Item, i: nat)
    requires SortedByKey(ms, NameOf, StringLe) && SortedByKey(ns, NameOf, StringLe) && multiset(ms) == multiset(ns)
    requires i < |Coalesced(ms, NameOf, MergedModule)| && i < |Coalesced(ns, NameOf, MergedModule)|
    requires Coalesced(ms, NameOf, MergedModule)[i].name == Coalesced(ns, NameOf, MergedModule)[i].name
    ensures Records(Coalesced(ms, NameOf, MergedModule)[i], x) <==> Records(Coalesced(ns, NameOf, MergedModule)[i], x)
  {
    NothingLost(ms, x, i);
    NothingLost(ns, x, i);
    SameElements(ms, ns);
  }

  // ----- Parameter names stay distinct

  /** Merging records never lists a parameter twice. */
  lemma MergeKeepsDistinct(a: CachedModule, b: CachedModule)
    requires DistinctParams(a) && DistinctParams(b)
    ensures DistinctParams(MergedModule(a, b))
  {
    TablesKeepDistinct(a.functionSafety, b.functionSafety);
  }

  lemma TablesKeepDistinct(a: map<string, Info>, b: map<string, Info>)
    requires DistinctIn(a) && DistinctIn(b)
    ensures DistinctIn(MergedTable(a, b))
  {
    forall n | n in MergedTable(a, b)
      ensures DistinctNames(MergedTable(a, b)[n].params)
    {
      if n in a && n in b {
        ExtendedKeepsDistinct(a[n].params, b[n].params);
      }
    }
  }

  /** The survivors of the compaction list no parameter twice if the records do not. */
  lemma SurvivorsKeepDistinct(ms: seq<CachedModule>)
    requires forall m :: m in ms ==> DistinctParams(m)
    ensures forall m :: m in Coalesced(ms, NameOf, MergedModule) ==> DistinctParams(m)
  {
    var good := (m: CachedModule) => DistinctParams(m);
    forall a, b | good(a) && good(b)
      ensures good(MergedModule(a, b))
    {
      MergeKeepsDistinct(a, b);
    }
    CoalescedKeeps(ms, NameOf, MergedModule, good);
    assert forall m :: m in Coalesced(ms, NameOf, MergedModule) ==> good(m);
  }
}
