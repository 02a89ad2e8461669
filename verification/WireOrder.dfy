/** In which order a cache file lists things, field by field: the sorts of `write` and `WireModule::encode` of
    `src/cache_wire.rs`. */
module WireOrder {
  import opened Wrappers
  import opened Safety
  import opened Artifact
  import opened Sorting
  import opened Codec
  import opened NameTable
  import opened WireModules
  import opened CacheWire
  import Merge
  import Resolution
  import Framing

  ghost predicate Ascending(ids: seq<nat>) {
    forall i, j :: 0 <= i < j < |ids| ==> ids[i] <= ids[j]
  }

  // ----- The records of modules

  lemma IdsAscend(table: Table, names: set<string>)
    ensures Ascending(IdsOf(table, names))
  {
    NatLeIsOrder();
    SortSorts(Map(Listed(names), table.Id), NatLe);
    assert forall i, j :: 0 <= i < j < |IdsOf(table, names)| ==> NatLe(IdsOf(table, names)[i], IdsOf(table, names)[j]);
  }

  /** Ids of sorted names ascend. */
  lemma NamesAscend(table: Table, names: seq<string>)
    requires table.Valid() && Known(table, names)
    ensures Ascending(Map(Sort(names, StringLe), table.Id))
  {
    var sorted := Sort(names, StringLe);
    StringLeIsOrder();
    SortSorts(names, StringLe);
    SortKnown(table, names);
    forall i, j | 0 <= i < j < |sorted|
      ensures table.Id(sorted[i]) <= table.Id(sorted[j])
    {
      IdsAreRanks(table, sorted[i], sorted[j]);
    }
  }

  ghost predicate ParamsAscend(params: seq<WireParam>) {
    forall i, j :: 0 <= i < j < |params| ==> params[i].name <= params[j].name
  }

  lemma ParamsAreSorted(table: Table, info: Info)
    requires table.Valid() && KnownInfo(table, info)
    ensures Ascending(WireInfoOf(table, CanonicalInfo(info)).missing)
    ensures ParamsAscend(WireInfoOf(table, CanonicalInfo(info)).params)
  {
    IdsAscend(table, info.missing);
    var sorted := Sort(info.params, ParamLe);
    ParamLeIsPreorder();
    SortSorts(info.params, ParamLe);
    SameElements(sorted, info.params);
    forall i, j | 0 <= i < j < |sorted|
      ensures table.Id(sorted[i].name) <= table.Id(sorted[j].name)
    {
      assert sorted[i] in info.params && sorted[j] in info.params && ParamLe(sorted[i], sorted[j]);
      IdsAreRanks(table, sorted[i].name, sorted[j].name);
    }
  }

  /** Functions come in the order of their names, and each lists missing callees and parameters by id. */
  ghost predicate EntriesSorted(entries: seq<(string, WireInfo)>) {
    && (forall i, j :: 0 <= i < j < |entries| ==> StringLe(entries[i].0, entries[j].0))
    && forall i :: 0 <= i < |entries| ==> Ascending(entries[i].1.missing) && ParamsAscend(entries[i].1.params)
  }

  lemma EntriesAreSorted(table: Table, fs: map<string, Info>)
    requires table.Valid() && forall n :: n in fs ==> KnownInfo(table, fs[n])
    ensures EntriesSorted(WireTableOf(table, CanonicalTable(fs)))
  {
    var c := CanonicalTable(fs);
    var names := Sort(Listed(c.Keys), StringLe);
    StringLeIsOrder();
    SortSorts(Listed(c.Keys), StringLe);
    SameElements(names, Listed(c.Keys));
    forall i | 0 <= i < |names|
      ensures names[i] in c
    {
      assert names[i] in multiset(names);
      assert names[i] in multiset(c.Keys);
    }
    forall i | 0 <= i < |names|
      ensures
        var info := WireEntryOf(table, c)(names[i]).1;
        Ascending(info.missing) && ParamsAscend(info.params)
    {
      ParamsAreSorted(table, fs[names[i]]);
    }
  }

  /** Errors by kind, then by metadata, then those of parameterized decorators last, then those under a main guard. */
  ghost predicate ErrorsInOrder(x: WireError, y: WireError) {
    || x.kind < y.kind
    || (x.kind == y.kind && x.metadata != y.metadata && StringLe(x.metadata, y.metadata))
    || (x.kind == y.kind && x.metadata == y.metadata && !x.parameterizedDecorator && y.parameterizedDecorator)
    || (x.kind == y.kind && x.metadata == y.metadata && x.parameterizedDecorator == y.parameterizedDecorator
        && (x.fromMainGuard ==> y.fromMainGuard))
  }

  ghost predicate ErrorsSorted(errors: seq<WireError>) {
    forall i, j :: 0 <= i < j < |errors| ==> ErrorsInOrder(errors[i], errors[j])
  }

  lemma ErrorsInOrderPlainly(x: SafetyError, y: SafetyError)
    requires Merge.ErrorLe()(x, y)
    ensures ErrorsInOrder(WireErrorOf(NoErrorRange(x)), WireErrorOf(NoErrorRange(y)))
  {
    Merge.ErrorLeFields(x, y);
    TextTies(x.metadata, y.metadata);
  }

  lemma ErrorsAreSorted(errors: seq<SafetyError>)
    ensures ErrorsSorted(Map(Map(Sort(errors, Merge.ErrorLe()), NoErrorRange), WireErrorOf))
  {
    var sorted := Sort(errors, Merge.ErrorLe());
    Merge.OrdersArePreorders();
    SortSorts(errors, Merge.ErrorLe());
    forall i, j | 0 <= i < j < |sorted|
      ensures ErrorsInOrder(WireErrorOf(NoErrorRange(sorted[i])), WireErrorOf(NoErrorRange(sorted[j])))
    {
      ErrorsInOrderPlainly(sorted[i], sorted[j]);
    }
  }

  ghost predicate SafetySorted(s: WireSafety) {
    match s
    case WireOk(errors, overrides, implicit) => ErrorsSorted(errors) && ErrorsSorted(overrides) && Ascending(implicit)
    case WireFailed(_) => true
  }

  lemma SafetyIsSorted(table: Table, s: CachedSafety)
    requires table.Valid() && (s.Ok? ==> Known(table, s.implicitImports))
    ensures SafetySorted(WireSafetyOf(table, CanonicalSafety(s)))
  {
    if s.Ok? {
      ErrorsAreSorted(s.errors);
      ErrorsAreSorted(s.forceImportsEagerOverrides);
      NamesAscend(table, s.implicitImports);
    }
  }

  ghost predicate PropertiesSorted(ps: seq<WireProperty>) {
    forall i, j :: 0 <= i < j < |ps| ==>
      ps[i].attribute < ps[j].attribute
      || (ps[i].attribute == ps[j].attribute && (ps[i].fromMainGuard ==> ps[j].fromMainGuard))
  }

  ghost predicate SubclassesSorted(ss: seq<WireSubclass>) {
    forall i, j :: 0 <= i < j < |ss| ==>
      ss[i].class_ < ss[j].class_ || (ss[i].class_ == ss[j].class_ && (ss[i].fromMainGuard ==> ss[j].fromMainGuard))
  }

  lemma PropertiesAreSorted(table: Table, ps: seq<PropertyCandidate>)
    requires table.Valid() && forall i :: 0 <= i < |ps| ==> ps[i].attribute in table.ids
    ensures PropertiesSorted(Map(WireModules.CanonicalProperties(ps), WirePropertyOf(table)))
  {
    var sorted := Sort(ps, Merge.PropertyLe());
    Merge.OrdersArePreorders();
    SortSorts(ps, Merge.PropertyLe());
    SameElements(sorted, ps);
    forall i, j | 0 <= i < j < |sorted|
      ensures
        var x, y := table.Id(sorted[i].attribute), table.Id(sorted[j].attribute);
        x < y || (x == y && (sorted[i].fromMainGuard ==> sorted[j].fromMainGuard))
    {
      assert sorted[i] in ps && sorted[j] in ps;
      Merge.PropertyLeFields(sorted[i], sorted[j]);
      IdsAreRanks(table, sorted[i].attribute, sorted[j].attribute);
      TextTies(sorted[i].attribute, sorted[j].attribute);
    }
  }

  lemma SubclassesAreSorted(table: Table, ss: seq<SubclassCandidate>)
    requires table.Valid() && forall i :: 0 <= i < |ss| ==> ss[i].class_ in table.ids
    ensures SubclassesSorted(Map(CanonicalSubclasses(ss), WireSubclassOf(table)))
  {
    var sorted := Sort(ss, Merge.SubclassLe());
    Merge.OrdersArePreorders();
    SortSorts(ss, Merge.SubclassLe());
    SameElements(sorted, ss);
    forall i, j | 0 <= i < j < |sorted|
      ensures
        var x, y := table.Id(sorted[i].class_), table.Id(sorted[j].class_);
        x < y || (x == y && (sorted[i].fromMainGuard ==> sorted[j].fromMainGuard))
    {
      assert sorted[i] in ss && sorted[j] in ss;
      Merge.SubclassLeFields(sorted[i], sorted[j]);
      IdsAreRanks(table, sorted[i].class_, sorted[j].class_);
      TextTies(sorted[i].class_, sorted[j].class_);
    }
  }

  ghost predicate MutationsSorted(cs: seq<WireCandidate>) {
    forall i :: 0 <= i < |cs| ==> Ascending(cs[i].importedArgs.unsafeKeywordNames)
  }

  lemma MutationsAreSorted(table: Table, cs: seq<Resolution.Candidate>)
    requires table.Valid() && forall i :: 0 <= i < |cs| ==> KnownCandidate(table, cs[i])
    ensures MutationsSorted(Map(Map(cs, CanonicalCandidate), WireCandidateOf(table)))
  {
    forall i | 0 <= i < |cs|
      ensures Ascending(WireCandidateOf(table)(CanonicalCandidate(cs[i])).importedArgs.unsafeKeywordNames)
    {
      NamesAscend(table, cs[i].importedArgs.unsafeKeywordNames);
    }
  }

  /** Every list of a record whose order has no meaning is sorted, its ids ascending. */
  ghost predicate RecordSorted(w: WireModule) {
    && Ascending(w.imports) && Ascending(w.missingImports) && Ascending(w.ambiguousImports)
    && Ascending(w.sideEffectImports) && Ascending(w.mainGuardImports)
    && SafetySorted(w.safety) && EntriesSorted(w.functionSafety) && MutationsSorted(w.mutationCandidates)
    && PropertiesSorted(w.propertyCandidates) && SubclassesSorted(w.subclassCandidates)
  }

  lemma SetsAreSorted(table: Table, m: CachedModule)
    ensures
      var w := WireModuleOf(table, m);
      && Ascending(w.imports) && Ascending(w.missingImports) && Ascending(w.ambiguousImports)
      && Ascending(w.sideEffectImports) && Ascending(w.mainGuardImports)
  {
    IdsAscend(table, m.imports);
    IdsAscend(table, m.missingImports);
    IdsAscend(table, m.ambiguousImports);
    IdsAscend(table, m.sideEffectImports);
    IdsAscend(table, m.mainGuardImports);
  }

  lemma ListsAreSorted(table: Table, m: CachedModule)
    requires table.Valid() && KnownModule(table, m)
    ensures
      var w := WireModuleOf(table, Canonical(m));
      && SafetySorted(w.safety) && EntriesSorted(w.functionSafety) && MutationsSorted(w.mutationCandidates)
      && PropertiesSorted(w.propertyCandidates) && SubclassesSorted(w.subclassCandidates)
  {
    SafetyIsSorted(table, m.safety);
    EntriesAreSorted(table, m.functionSafety);
    MutationsAreSorted(table, m.mutationCandidates);
    PropertiesAreSorted(table, m.propertyCandidates);
    SubclassesAreSorted(table, m.subclassCandidates);
  }

  /** Encoded records are sorted. */
  lemma RecordIsSorted(table: Table, m: CachedModule)
    requires table.Valid() && KnownModule(table, m)
    ensures RecordSorted(WireModuleOf(table, Canonical(m)))
  {
    SetsAreSorted(table, Canonical(m));
    ListsAreSorted(table, m);
  }

  // ----- The lists of the header

  lemma NumLe(n: nat, m: nat)
    ensures KeyLe(Num(n), Num(m)) <==> n <= m
  {
  }

  lemma ListLe(x: seq<Key>, y: seq<Key>)
    ensures KeyLe(List(x), List(y)) <==> KeysLe(x, y)
  {
  }

  lemma ByIs<T>(key: T -> Key, x: T, y: T)
    ensures By(key)(x, y) <==> KeyLe(key(x), key(y))
  {
  }

  lemma TextCons(a: string)
    requires a != []
    ensures Text(a).items == [Num(a[0] as int)] + Text(a[1..]).items
  {
  }

  lemma NumsCons(a: seq<nat>)
    requires a != []
    ensures Nums(a).items == [Num(a[0])] + Nums(a[1..]).items
  {
  }

  lemma {:induction false} TextLe(a: string, b: string)
    ensures KeyLe(Text(a), Text(b)) <==> StringLe(a, b)
  {
    ListLe(Text(a).items, Text(b).items);
    assert |Text(a).items| == |a| && |Text(b).items| == |b|;
    if a != [] && b != [] {
      TextCons(a);
      TextCons(b);
      ConsLe(Num(a[0] as int), Text(a[1..]).items, Num(b[0] as int), Text(b[1..]).items);
      NumLe(a[0] as int, b[0] as int);
      TextLe(a[1..], b[1..]);
      ListLe(Text(a[1..]).items, Text(b[1..]).items);
    }
  }

  /** The lists agree before k, and the first is at its end there or has the smaller number. */
  ghost predicate NumsLeAt(a: seq<nat>, b: seq<nat>, k: nat) {
    && k <= |a| && k <= |b| && a[..k] == b[..k]
    && (k == |a| || (k < |b| && a[k] < b[k]))
  }

  lemma {:induction false} NumsLe(a: seq<nat>, b: seq<nat>) returns (k: nat)
    requires KeyLe(Nums(a), Nums(b))
    ensures NumsLeAt(a, b, k)
  {
    k := 0;
    ListLe(Nums(a).items, Nums(b).items);
    assert |Nums(a).items| == |a| && |Nums(b).items| == |b|;
    if a != [] && b != [] {
      NumsCons(a);
      NumsCons(b);
      ConsLe(Num(a[0]), Nums(a[1..]).items, Num(b[0]), Nums(b[1..]).items);
      NumLe(a[0], b[0]);
      if a[0] == b[0] {
        ListLe(Nums(a[1..]).items, Nums(b[1..]).items);
        k := NumsLe(a[1..], b[1..]);
        NumsLeNext(a, b, k);
        k := k + 1;
      }
    }
  }

  lemma NumsLeNext(a: seq<nat>, b: seq<nat>, k: nat)
    requires a != [] && b != [] && a[0] == b[0] && NumsLeAt(a[1..], b[1..], k)
    ensures NumsLeAt(a, b, k + 1)
  {
    assert a[..k + 1] == [a[0]] + a[1..][..k] && b[..k + 1] == [b[0]] + b[1..][..k];
  }

  lemma ConsLe(x: Key, xs: seq<Key>, y: Key, ys: seq<Key>)
    ensures KeysLe([x] + xs, [y] + ys) <==> if x == y then KeysLe(xs, ys) else KeyLe(x, y)
  {
    assert ([x] + xs)[1..] == xs && ([y] + ys)[1..] == ys;
  }

  lemma TwoLe(x: Key, x': Key, y: Key, y': Key)
    ensures KeyLe(List([x, x']), List([y, y'])) <==> if x == y then KeyLe(x', y') else KeyLe(x, y)
  {
    ListLe([x, x'], [y, y']);
    assert [x, x'] == [x] + [x'] && [y, y'] == [y] + [y'];
    ConsLe(x, [x'], y, [y']);
    assert [x'] == [x'] + [] && [y'] == [y'] + [];
    ConsLe(x', [], y', []);
    KeyTotal(x', y');
  }

  lemma FourLe(x: Key, x': Key, x'': Key, x3: Key, y: Key, y': Key, y'': Key, y3: Key)
    ensures KeyLe(List([x, x', x'', x3]), List([y, y', y'', y3])) <==>
      if x != y then KeyLe(x, y) else if x' != y' then KeyLe(x', y') else if x'' != y'' then KeyLe(x'', y'')
        else KeyLe(x3, y3)
  {
    ListLe([x, x', x'', x3], [y, y', y'', y3]);
    ListLe([x'', x3], [y'', y3]);
    assert [x, x', x'', x3] == [x] + ([x'] + [x'', x3]) && [y, y', y'', y3] == [y] + ([y'] + [y'', y3]);
    ConsLe(x, [x'] + [x'', x3], y, [y'] + [y'', y3]);
    ConsLe(x', [x'', x3], y', [y'', y3]);
    TwoLe(x'', x3, y'', y3);
  }

  /** By exporting module, then by exported name, then by the module and the name behind it. */
  lemma ReExportsPlainly(x: WireReExport, y: WireReExport)
    ensures By(ReExportKey)(x, y) <==>
      if x.exportedModule != y.exportedModule then x.exportedModule < y.exportedModule
      else if x.exportedAttr != y.exportedAttr then StringLe(x.exportedAttr, y.exportedAttr)
      else if x.importedModule != y.importedModule then x.importedModule < y.importedModule
      else StringLe(x.importedAttr, y.importedAttr)
  {
    FourLe(Num(x.exportedModule), Text(x.exportedAttr), Num(x.importedModule), Text(x.importedAttr),
           Num(y.exportedModule), Text(y.exportedAttr), Num(y.importedModule), Text(y.importedAttr));
    ByIs(ReExportKey, x, y);
    NumLe(x.exportedModule, y.exportedModule);
    NumLe(x.importedModule, y.importedModule);
    TextLe(x.exportedAttr, y.exportedAttr);
    TextLe(x.importedAttr, y.importedAttr);
    if Text(x.exportedAttr) == Text(y.exportedAttr) {
      TextInjective(x.exportedAttr, y.exportedAttr);
    }
  }

  /** By function, then by class. */
  lemma ReturnTypesPlainly(x: WireReturnType, y: WireReturnType)
    ensures By(ReturnTypeKey)(x, y) <==>
      if x.function_ != y.function_ then x.function_ < y.function_ else x.class_ <= y.class_
  {
    ByIs(ReturnTypeKey, x, y);
    TwoLe(Num(x.function_), Num(x.class_), Num(y.function_), Num(y.class_));
    NumLe(x.function_, y.function_);
    NumLe(x.class_, y.class_);
  }

  /** What comes first in the lists of the other class facts, and among the records of modules: the lower
      class or name id. */
  lemma ClassesPlainly()
    ensures forall x: WireBases, y: WireBases :: By(BasesKey)(x, y) ==> x.class_ <= y.class_
    ensures forall x: WireCallees, y: WireCallees :: By(CalleesKey)(x, y) ==> x.class_ <= y.class_
    ensures forall x: WireProperties, y: WireProperties :: By(PropertiesKey)(x, y) ==> x.class_ <= y.class_
  {
    forall x: WireBases, y: WireBases | By(BasesKey)(x, y)
      ensures x.class_ <= y.class_
    {
      ByIs(BasesKey, x, y);
      TwoLe(Num(x.class_), Nums(x.bases), Num(y.class_), Nums(y.bases));
      NumLe(x.class_, y.class_);
    }
    forall x: WireCallees, y: WireCallees | By(CalleesKey)(x, y)
      ensures x.class_ <= y.class_
    {
      ConsFirst(x, y);
    }
    forall x: WireProperties, y: WireProperties | By(PropertiesKey)(x, y)
      ensures x.class_ <= y.class_
    {
      ByIs(PropertiesKey, x, y);
      TwoLe(Num(x.class_), List(Map(x.properties, Text)), Num(y.class_), List(Map(y.properties, Text)));
      NumLe(x.class_, y.class_);
    }
  }

  /** Bases of the same class come in the order of their ids, list against list. */
  lemma BasesPlainly(x: WireBases, y: WireBases) returns (k: nat)
    requires By(BasesKey)(x, y)
    ensures x.class_ < y.class_ || (x.class_ == y.class_ && NumsLeAt(x.bases, y.bases, k))
  {
    ByIs(BasesKey, x, y);
    TwoLe(Num(x.class_), Nums(x.bases), Num(y.class_), Nums(y.bases));
    NumLe(x.class_, y.class_);
    k := 0;
    if x.class_ == y.class_ {
      k := NumsLe(x.bases, y.bases);
    }
  }

  function OptionList(id: Option<nat>): seq<nat> {
    if id.Some? then [id.value] else []
  }

  lemma OptionLe(a: Option<nat>, b: Option<nat>)
    requires KeyLe(Nums(OptionList(a)), Nums(OptionList(b)))
    ensures a.None? || (b.Some? && a.value <= b.value)
  {
    var k := NumsLe(OptionList(a), OptionList(b));
    if a.Some? && b.Some? {
      assert OptionList(a)[0] == a.value && OptionList(b)[0] == b.value;
      assert k == 1 ==> OptionList(a)[..1][0] == OptionList(b)[..1][0];
    }
  }

  /** Recorded callees of the same class: first those without a metaclass, then by metaclass, by mask, by the others. */
  lemma CalleesPlainly(x: WireCallees, y: WireCallees) returns (k: nat)
    requires By(CalleesKey)(x, y) && x.class_ == y.class_
    ensures
      if x.metaclass != y.metaclass then
        x.metaclass.None? || (y.metaclass.Some? && x.metaclass.value < y.metaclass.value)
      else x.mask < y.mask || (x.mask == y.mask && NumsLeAt(x.extra, y.extra, k))
  {
    var m, n := Nums(OptionList(x.metaclass)), Nums(OptionList(y.metaclass));
    ByIs(CalleesKey, x, y);
    FourLe(Num(x.class_), m, Num(x.mask), Nums(x.extra), Num(y.class_), n, Num(y.mask), Nums(y.extra));
    NumLe(x.mask, y.mask);
    k := 0;
    if x.metaclass == y.metaclass && x.mask == y.mask {
      k := NumsLe(x.extra, y.extra);
    }
    if x.metaclass != y.metaclass {
      if m == n {
        NumsInjective(OptionList(x.metaclass), OptionList(y.metaclass));
        assert false;
      }
      OptionLe(x.metaclass, y.metaclass);
    }
  }

  lemma ConsFirst(x: WireCallees, y: WireCallees)
    requires By(CalleesKey)(x, y)
    ensures x.class_ <= y.class_
  {
    var a, b := CalleesKey(x).items, CalleesKey(y).items;
    ByIs(CalleesKey, x, y);
    FourLe(a[0], a[1], a[2], a[3], b[0], b[1], b[2], b[3]);
    NumLe(x.class_, y.class_);
  }

  /** The lists of the header and the records of modules are sorted by these orders. */
  lemma HeaderIsSorted(s: Serializer, table: Table, c: Cache)
    ensures Sorted(HeaderOf(table, c).exports, By(ReExportKey))
            && Sorted(HeaderOf(table, c).returnTypes, By(ReturnTypeKey))
    ensures Sorted(HeaderOf(table, c).classBases, By(BasesKey))
    ensures Sorted(HeaderOf(table, c).constructorCallees, By(CalleesKey))
    ensures Sorted(HeaderOf(table, c).classProperties, By(PropertiesKey))
    ensures Sorted(Sort(Map(c.modules, BlobOf(s, table)), By(BlobKey)), By(BlobKey))
  {
    KeysAreInjective();
    ByIsOrder(ReExportKey);
    ByIsOrder(ReturnTypeKey);
    ByIsOrder(BasesKey);
    SortSorts(Map(c.reExports, EncodeReExport(table)), By(ReExportKey));
    SortSorts(Map(c.returnTypes, EncodeReturnType(table)), By(ReturnTypeKey));
    SortSorts(Map(c.classBases, EncodeBases(table)), By(BasesKey));
    ByIsOrder(CalleesKey);
    ByIsOrder(PropertiesKey);
    ByIsOrder(BlobKey);
    SortSorts(Map(c.constructorCallees, EncodeCallees(table)), By(CalleesKey));
    SortSorts(Map(c.classProperties, CacheWire.EncodeProperties(table)), By(PropertiesKey));
    SortSorts(Map(c.modules, BlobOf(s, table)), By(BlobKey));
  }

  /** Records of modules come by the id of their name, and by their bytes where names agree. */
  lemma BlobsPlainly(x: (nat, seq<Framing.byte>), y: (nat, seq<Framing.byte>)) returns (k: nat)
    requires By(BlobKey)(x, y)
    ensures x.0 < y.0 || (x.0 == y.0 && NumsLeAt(x.1, y.1, k))
  {
    ByIs(BlobKey, x, y);
    TwoLe(Num(x.0), Nums(x.1), Num(y.0), Nums(y.1));
    NumLe(x.0, y.0);
    k := 0;
    if x.0 == y.0 {
      k := NumsLe(x.1, y.1);
    }
  }
}
