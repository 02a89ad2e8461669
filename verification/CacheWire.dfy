/** A whole library cache on the wire: `write` and `read` of `src/cache_wire.rs`. */
module CacheWire {
  import opened Wrappers
  import opened Safety
  import opened Artifact
  import opened Sorting
  import opened Codec
  import opened NameTable
  import opened WireModules
  import Framing
  import Merge
  import Resolution

  type byte = Framing.byte

  // ----- A cache and its header

  datatype ReturnType = ReturnType(function_: string, class_: string)
  datatype ClassBases = ClassBases(class_: string, bases: seq<string>)
  datatype ConstructorCallees = ConstructorCallees(class_: string, metaclass: Option<string>, mask: nat,
                                                   extra: seq<string>)
  datatype ClassProperties = ClassProperties(class_: string, properties: seq<string>)

  datatype Cache = Cache(
    modules: seq<CachedModule>,
    reExports: seq<ReExport>,
    returnTypes: seq<ReturnType>,
    classBases: seq<ClassBases>,
    constructorCallees: seq<ConstructorCallees>,
    classProperties: seq<ClassProperties>)

  datatype WireReExport = WireReExport(exportedModule: nat, exportedAttr: string, importedModule: nat,
                                       importedAttr: string)
  datatype WireReturnType = WireReturnType(function_: nat, class_: nat)
  datatype WireBases = WireBases(class_: nat, bases: seq<nat>)
  datatype WireCallees = WireCallees(class_: nat, metaclass: Option<nat>, mask: nat, extra: seq<nat>)
  datatype WireProperties = WireProperties(class_: nat, properties: seq<string>)

  datatype Header = Header(
    names: seq<string>,
    exports: seq<WireReExport>,
    returnTypes: seq<WireReturnType>,
    classBases: seq<WireBases>,
    constructorCallees: seq<WireCallees>,
    classProperties: seq<WireProperties>)

  /** The serializer of headers and module records. */
  datatype Serializer = Serializer(
    header: Header -> seq<byte>, headerBack: seq<byte> -> Option<Header>,
    record: WireModule -> seq<byte>, recordBack: seq<byte> -> Option<WireModule>)
  {
    ghost predicate Inverse() {
      && (forall h :: headerBack(header(h)) == Some(h))
      && (forall w :: recordBack(record(w)) == Some(w))
    }
  }

  // ----- Encoding the lists of the header

  function EncodeReExport(table: Table): ReExport -> WireReExport {
    (r: ReExport) =>
      WireReExport(table.Id(r.exportedModule), r.exportedAttr, table.Id(r.importedModule), r.importedAttr)
  }

  function EncodeReturnType(table: Table): ReturnType -> WireReturnType {
    (r: ReturnType) => WireReturnType(table.Id(r.function_), table.Id(r.class_))
  }

  /** The bases stay in declaration order. */
  function EncodeBases(table: Table): ClassBases -> WireBases {
    (b: ClassBases) => WireBases(table.Id(b.class_), Map(b.bases, table.Id))
  }

  function EncodeCallees(table: Table): ConstructorCallees -> WireCallees {
    (c: ConstructorCallees) => WireCallees(table.Id(c.class_),
                                           if c.metaclass.Some? then Some(table.Id(c.metaclass.value)) else None,
                                           c.mask, Sort(Map(c.extra, table.Id), NatLe))
  }

  function EncodeProperties(table: Table): ClassProperties -> WireProperties {
    (p: ClassProperties) => WireProperties(table.Id(p.class_), Sort(p.properties, StringLe))
  }

  function ReExportKey(w: WireReExport): Key {
    List([Num(w.exportedModule), Text(w.exportedAttr), Num(w.importedModule), Text(w.importedAttr)])
  }

  function ReturnTypeKey(w: WireReturnType): Key {
    List([Num(w.function_), Num(w.class_)])
  }

  function BasesKey(w: WireBases): Key {
    List([Num(w.class_), Nums(w.bases)])
  }

  function CalleesKey(w: WireCallees): Key {
    List([Num(w.class_), Nums(if w.metaclass.Some? then [w.metaclass.value] else []), Num(w.mask), Nums(w.extra)])
  }

  function PropertiesKey(w: WireProperties): Key {
    List([Num(w.class_), List(Map(w.properties, Text))])
  }

  function BlobKey(w: (nat, seq<byte>)): Key {
    List([Num(w.0), Nums(w.1)])
  }

  lemma TextsInjective(a: seq<string>, b: seq<string>)
    requires Map(a, Text) == Map(b, Text)
    ensures a == b
  {
    assert |a| == |Map(a, Text)| == |b|;
    forall i | 0 <= i < |a|
      ensures a[i] == b[i]
    {
      assert Map(a, Text)[i] == Text(a[i]) && Map(b, Text)[i] == Text(b[i]);
      TextInjective(a[i], b[i]);
    }
  }

  /** No two different records of a list tie. */
  lemma KeysAreInjective()
    ensures Injective(ReExportKey) && Injective(ReturnTypeKey) && Injective(BasesKey)
    ensures Injective(CalleesKey) && Injective(PropertiesKey) && Injective(BlobKey)
  {
    forall x: WireReExport, y: WireReExport | ReExportKey(x) == ReExportKey(y)
      ensures x == y
    {
      var a, b := ReExportKey(x).items, ReExportKey(y).items;
      assert a[0] == b[0] && a[1] == b[1] && a[2] == b[2] && a[3] == b[3];
      TextInjective(x.exportedAttr, y.exportedAttr);
      TextInjective(x.importedAttr, y.importedAttr);
    }
    forall x: WireReturnType, y: WireReturnType | ReturnTypeKey(x) == ReturnTypeKey(y)
      ensures x == y
    {
      var a, b := ReturnTypeKey(x).items, ReturnTypeKey(y).items;
      assert a[0] == b[0] && a[1] == b[1];
    }
    forall x: WireBases, y: WireBases | BasesKey(x) == BasesKey(y)
      ensures x == y
    {
      var a, b := BasesKey(x).items, BasesKey(y).items;
      assert a[0] == b[0] && a[1] == b[1];
      NumsInjective(x.bases, y.bases);
    }
    MoreKeysAreInjective();
  }

  lemma MoreKeysAreInjective()
    ensures Injective(CalleesKey) && Injective(PropertiesKey) && Injective(BlobKey)
  {
    forall x: WireCallees, y: WireCallees | CalleesKey(x) == CalleesKey(y)
      ensures x == y
    {
      var a, b := CalleesKey(x).items, CalleesKey(y).items;
      assert a[0] == b[0] && a[1] == b[1] && a[2] == b[2] && a[3] == b[3];
      NumsInjective(if x.metaclass.Some? then [x.metaclass.value] else [],
                    if y.metaclass.Some? then [y.metaclass.value] else []);
      NumsInjective(x.extra, y.extra);
    }
    forall x: WireProperties, y: WireProperties | PropertiesKey(x) == PropertiesKey(y)
      ensures x == y
    {
      var a, b := PropertiesKey(x).items, PropertiesKey(y).items;
      assert a[0] == b[0] && a[1] == b[1];
      TextsInjective(x.properties, y.properties);
    }
    forall x: (nat, seq<byte>), y: (nat, seq<byte>) | BlobKey(x) == BlobKey(y)
      ensures x == y
    {
      var a, b := BlobKey(x).items, BlobKey(y).items;
      assert a[0] == b[0] && a[1] == b[1];
      NumsInjective(x.1, y.1);
    }
  }

  function HeaderOf(table: Table, c: Cache): Header {
    Header(table.names,
           Sort(Map(c.reExports, EncodeReExport(table)), By(ReExportKey)),
           Sort(Map(c.returnTypes, EncodeReturnType(table)), By(ReturnTypeKey)),
           Sort(Map(c.classBases, EncodeBases(table)), By(BasesKey)),
           Sort(Map(c.constructorCallees, EncodeCallees(table)), By(CalleesKey)),
           Sort(Map(c.classProperties, EncodeProperties(table)), By(PropertiesKey)))
  }

  ghost function BlobOf(s: Serializer, table: Table): CachedModule -> (nat, seq<byte>) {
    (m: CachedModule) => (table.Id(m.name), s.record(WireModuleOf(table, Canonical(m))))
  }

  function Bytes(blob: (nat, seq<byte>)): seq<byte> {
    blob.1
  }

  /** The module records in the order of their names, and of their bytes where names agree. */
  ghost function BlobsOf(s: Serializer, table: Table, c: Cache): seq<seq<byte>> {
    Map(Sort(Map(c.modules, BlobOf(s, table)), By(BlobKey)), Bytes)
  }

  /** The bytes of the file. */
  ghost function FileOf(s: Serializer, table: Table, c: Cache): seq<byte> {
    Framing.Frame(s.header(HeaderOf(table, c)), BlobsOf(s, table, c))
  }

  // ----- The names of a cache

  function SiteNames(site: Resolution.Site): set<string> {
    match site
    case ModuleScope(call) => {call}
    case Function(name) => {name}
  }

  function InfoNames(info: Info): set<string> {
    info.missing + set p | p in info.params :: p.name
  }

  function CandidateNames(c: Resolution.Candidate): set<string> {
    {c.callee} + SiteNames(c.site) + set n | n in c.importedArgs.unsafeKeywordNames
  }

  function SafetyNames(s: CachedSafety): set<string> {
    if s.Ok? then set n | n in s.implicitImports else {}
  }

  function FunctionNames(fs: map<string, Info>): set<string> {
    set f, n | f in fs && n in InfoNames(fs[f]) :: n
  }

  function MutationNames(cs: seq<Resolution.Candidate>): set<string> {
    set c, n | c in cs && n in CandidateNames(c) :: n
  }

  function AttributeNames(ps: seq<PropertyCandidate>): set<string> {
    set p | p in ps :: p.attribute
  }

  function ClassNames(ss: seq<SubclassCandidate>): set<string> {
    set s | s in ss :: s.class_
  }

  function ModuleNames(m: CachedModule): set<string> {
    {m.name} + m.imports + m.missingImports + m.ambiguousImports + m.sideEffectImports + m.mainGuardImports
    + SafetyNames(m.safety) + FunctionNames(m.functionSafety) + MutationNames(m.mutationCandidates)
    + AttributeNames(m.propertyCandidates) + ClassNames(m.subclassCandidates)
  }

  function CalleeRecordNames(k: ConstructorCallees): set<string> {
    {k.class_} + (if k.metaclass.Some? then {k.metaclass.value} else {}) + set n | n in k.extra
  }

  function CalleeNames(cs: seq<ConstructorCallees>): set<string> {
    set k, n | k in cs && n in CalleeRecordNames(k) :: n
  }

  function OwnerNames(ps: seq<ClassProperties>): set<string> {
    set p | p in ps :: p.class_
  }

  function LinkNames(c: Cache): set<string> {
    (set r | r in c.reExports :: r.exportedModule) + (set r | r in c.reExports :: r.importedModule)
    + (set r | r in c.returnTypes :: r.function_) + (set r | r in c.returnTypes :: r.class_)
    + (set b | b in c.classBases :: b.class_) + (set b, n | b in c.classBases && n in b.bases :: n)
  }

  function RecordNames(ms: seq<CachedModule>): set<string> {
    set m, n | m in ms && n in ModuleNames(m) :: n
  }

  function NamesOf(c: Cache): set<string> {
    RecordNames(c.modules) + LinkNames(c) + CalleeNames(c.constructorCallees) + OwnerNames(c.classProperties)
  }

  ghost predicate TableFor(table: Table, c: Cache) {
    table.Valid() && table.ids.Keys == NamesOf(c)
  }

  lemma ModuleIsKnown(table: Table, m: CachedModule)
    requires ModuleNames(m) <= table.ids.Keys
    ensures KnownModule(table, m)
  {
    forall n | n in m.functionSafety
      ensures KnownInfo(table, m.functionSafety[n])
    {
      forall i | 0 <= i < |m.functionSafety[n].params|
        ensures m.functionSafety[n].params[i].name in table.ids
      {
        assert m.functionSafety[n].params[i].name in InfoNames(m.functionSafety[n]);
      }
      assert forall c :: c in m.functionSafety[n].missing ==> c in InfoNames(m.functionSafety[n]);
    }
    forall i | 0 <= i < |m.mutationCandidates|
      ensures KnownCandidate(table, m.mutationCandidates[i])
    {
      var c := m.mutationCandidates[i];
      assert c in m.mutationCandidates;
      assert forall n :: n in CandidateNames(c) ==> n in table.ids;
    }
  }

  /** Every name the lists of the header refer to has an id. */
  ghost predicate KnownLinks(table: Table, c: Cache) {
    && (forall r :: r in c.reExports ==> r.exportedModule in table.ids && r.importedModule in table.ids)
    && (forall r :: r in c.returnTypes ==> r.function_ in table.ids && r.class_ in table.ids)
    && (forall b :: b in c.classBases ==> b.class_ in table.ids && Known(table, b.bases))
    && (forall k :: k in c.constructorCallees ==>
        k.class_ in table.ids && Known(table, k.extra) && (k.metaclass.Some? ==> k.metaclass.value in table.ids))
    && forall p :: p in c.classProperties ==> p.class_ in table.ids
  }

  lemma KnownLists(table: Table, names: seq<string>)
    requires Known(table, names)
    ensures forall n :: n in names ==> n in table.ids
  {
  }

  lemma CandidateNeeds(table: Table, c: Resolution.Candidate)
    requires KnownCandidate(table, c)
    ensures CandidateNames(c) <= table.ids.Keys
  {
    KnownLists(table, c.importedArgs.unsafeKeywordNames);
  }

  lemma InfoNeeds(table: Table, info: Info)
    requires KnownInfo(table, info)
    ensures InfoNames(info) <= table.ids.Keys
  {
  }

  lemma FunctionsNeed(table: Table, fs: map<string, Info>)
    requires forall f :: f in fs ==> KnownInfo(table, fs[f])
    ensures FunctionNames(fs) <= table.ids.Keys
  {
    forall f | f in fs
      ensures InfoNames(fs[f]) <= table.ids.Keys
    {
      InfoNeeds(table, fs[f]);
    }
  }

  lemma MutationsNeed(table: Table, cs: seq<Resolution.Candidate>)
    requires forall i :: 0 <= i < |cs| ==> KnownCandidate(table, cs[i])
    ensures MutationNames(cs) <= table.ids.Keys
  {
    forall c | c in cs
      ensures CandidateNames(c) <= table.ids.Keys
    {
      CandidateNeeds(table, c);
    }
  }

  lemma ModuleNeeds(table: Table, m: CachedModule)
    requires KnownModule(table, m)
    ensures ModuleNames(m) <= table.ids.Keys
  {
    if m.safety.Ok? {
      KnownLists(table, m.safety.implicitImports);
    }
    FunctionsNeed(table, m.functionSafety);
    MutationsNeed(table, m.mutationCandidates);
  }

  lemma LinksNeed(table: Table, c: Cache)
    requires KnownLinks(table, c)
    ensures LinkNames(c) + CalleeNames(c.constructorCallees) + OwnerNames(c.classProperties) <= table.ids.Keys
  {
    forall b | b in c.classBases
      ensures forall n :: n in b.bases ==> n in table.ids
    {
      KnownLists(table, b.bases);
    }
    forall k | k in c.constructorCallees
      ensures CalleeRecordNames(k) <= table.ids.Keys
    {
      KnownLists(table, k.extra);
    }
  }

  /** The table of a cache holds no name that could be missing: any table that can encode the cache has them all. */
  lemma NoNameIsIdle(table: Table, c: Cache)
    requires KnownLinks(table, c) && forall m :: m in c.modules ==> KnownModule(table, m)
    ensures NamesOf(c) <= table.ids.Keys
  {
    LinksNeed(table, c);
    forall m | m in c.modules
      ensures ModuleNames(m) <= table.ids.Keys
    {
      ModuleNeeds(table, m);
    }
  }

  // ----- Writing

  /** `blob` gives the bytes of a record, with the id of its name. */
  ghost predicate EncodesBlobs(s: Serializer, table: Table, blob: CachedModule -> (nat, seq<byte>)) {
    forall m {:trigger Canonical(m)} :: blob(m) == (table.Id(m.name), s.record(WireModuleOf(table, Canonical(m))))
  }

  ghost predicate CanEncode(table: Table, m: CachedModule) {
    table.Valid() && KnownModule(table, m)
  }

  method EncodeBlob(s: Serializer, table: Table, m: CachedModule, ghost blob: CachedModule -> (nat, seq<byte>))
    returns (r: (nat, seq<byte>))
    requires CanEncode(table, m) && EncodesBlobs(s, table, blob)
    ensures r == blob(m)
  {
    var wire := EncodeModule(table, m);
    r := (table.Id(m.name), s.record(wire));
  }

  ghost predicate AllEncodable(table: Table, ms: seq<CachedModule>) {
    forall i :: 0 <= i < |ms| ==> CanEncode(table, ms[i])
  }

  lemma MapNext<A, B>(s: seq<A>, i: nat, f: A -> B)
    requires i < |s|
    ensures Map(s[..i + 1], f) == Map(s[..i], f) + [f(s[i])]
  {
    assert s[..i + 1] == s[..i] + [s[i]];
    MapLast(s[..i], s[i], f);
  }

  method EncodeBlobs(s: Serializer, table: Table, modules: seq<CachedModule>,
                     ghost blob: CachedModule -> (nat, seq<byte>))
    returns (blobs: seq<(nat, seq<byte>)>)
    requires AllEncodable(table, modules) && EncodesBlobs(s, table, blob)
    ensures blobs == Map(modules, blob)
  {
    blobs := [];
    for i := 0 to |modules|
      invariant blobs == Map(modules[..i], blob)
    {
      var r := EncodeBlob(s, table, modules[i], blob);
      MapNext(modules, i, blob);
      blobs := blobs + [r];
    }
    assert modules[..|modules|] == modules;
  }

  /** The file, unless the cache has too many names. */
  method Write(s: Serializer, c: Cache) returns (bytes: Option<seq<byte>>)
    ensures bytes.Some? <==> |NamesOf(c)| <= 0xFFFF_FFFF
    ensures bytes.Some? ==> exists table :: TableFor(table, c) && bytes.value == FileOf(s, table, c)
  {
    var built := Build(NamesOf(c));
    if built.None? {
      return None;
    }
    var table := built.value;
    forall i | 0 <= i < |c.modules|
      ensures CanEncode(table, c.modules[i])
    {
      assert c.modules[i] in c.modules;
      ModuleIsKnown(table, c.modules[i]);
    }
    var encoded := EncodeBlobs(s, table, c.modules, BlobOf(s, table));
    var sorted := Sort(encoded, By(BlobKey));
    var header := s.header(HeaderOf(table, c));
    var file := Framing.WriteFrame(header, Map(sorted, Bytes));
    assert TableFor(table, c) && file == FileOf(s, table, c);
    return Some(file);
  }

  // ----- The bytes depend on the facts alone

  function CanonicalCallees(c: ConstructorCallees): ConstructorCallees {
    c.(extra := Sort(c.extra, StringLe))
  }

  function CanonicalProperties(p: ClassProperties): ClassProperties {
    p.(properties := Sort(p.properties, StringLe))
  }

  ghost predicate SameCallees(a: ConstructorCallees, b: ConstructorCallees) {
    a.(extra := []) == b.(extra := []) && multiset(a.extra) == multiset(b.extra)
  }

  ghost predicate SameProperties(a: ClassProperties, b: ClassProperties) {
    a.class_ == b.class_ && multiset(a.properties) == multiset(b.properties)
  }

  /** The same facts about a library: modules and lists come in any order, and so do their parts where order
      has no meaning. */
  ghost predicate SameCache(a: Cache, b: Cache) {
    && Matches(a.modules, b.modules, SameModule)
    && multiset(a.reExports) == multiset(b.reExports) && multiset(a.returnTypes) == multiset(b.returnTypes)
    && multiset(a.classBases) == multiset(b.classBases)
    && Matches(a.constructorCallees, b.constructorCallees, SameCallees)
    && Matches(a.classProperties, b.classProperties, SameProperties)
  }

  ghost predicate DistinctCache(c: Cache) {
    forall m :: m in c.modules ==> DistinctParams(m)
  }

  /** Equal up to order and what canonical records drop. */
  ghost predicate CanonicallySame(a: Cache, b: Cache) {
    && SameUpToOrder(a.modules, b.modules, Canonical)
    && multiset(a.reExports) == multiset(b.reExports) && multiset(a.returnTypes) == multiset(b.returnTypes)
    && multiset(a.classBases) == multiset(b.classBases)
    && SameUpToOrder(a.constructorCallees, b.constructorCallees, CanonicalCallees)
    && SameUpToOrder(a.classProperties, b.classProperties, CanonicalProperties)
  }

  lemma CalleesExactly(a: ConstructorCallees, b: ConstructorCallees)
    ensures CanonicalCallees(a) == CanonicalCallees(b) <==> SameCallees(a, b)
  {
    NamesExactly(a.extra, b.extra);
  }

  lemma OwnersExactly(a: ClassProperties, b: ClassProperties)
    ensures CanonicalProperties(a) == CanonicalProperties(b) <==> SameProperties(a, b)
  {
    NamesExactly(a.properties, b.properties);
  }

  lemma ModulesMatch(a: Cache, b: Cache)
    requires DistinctCache(a)
    ensures SameUpToOrder(a.modules, b.modules, Canonical) <==> Matches(a.modules, b.modules, SameModule)
  {
    forall m, n | m in a.modules && n in b.modules
      ensures SameModule(m, n) <==> Canonical(m) == Canonical(n)
    {
      CanonicalExactly(m, n);
    }
    MatchesExactly(a.modules, b.modules, Canonical, SameModule);
  }

  lemma SameExactly(a: Cache, b: Cache)
    requires DistinctCache(a)
    ensures SameCache(a, b) <==> CanonicallySame(a, b)
  {
    ModulesMatch(a, b);
    forall x, y | x in a.constructorCallees && y in b.constructorCallees
      ensures SameCallees(x, y) <==> CanonicalCallees(x) == CanonicalCallees(y)
    {
      CalleesExactly(x, y);
    }
    MatchesExactly(a.constructorCallees, b.constructorCallees, CanonicalCallees, SameCallees);
    forall x, y | x in a.classProperties && y in b.classProperties
      ensures SameProperties(x, y) <==> CanonicalProperties(x) == CanonicalProperties(y)
    {
      OwnersExactly(x, y);
    }
    MatchesExactly(a.classProperties, b.classProperties, CanonicalProperties, SameProperties);
  }

  /** Lists that agree up to order and what `canon` drops are encoded alike. */
  lemma ListsEncodeAlike<A(!new), B(!new)>(a: seq<A>, b: seq<A>, canon: A -> A, enc: A -> B, key: B -> Key)
    requires SameUpToOrder(a, b, canon) && Injective(key)
    requires forall x :: enc(canon(x)) == enc(x)
    ensures Sort(Map(a, enc), By(key)) == Sort(Map(b, enc), By(key))
  {
    MapTwice(a, canon, enc, enc);
    MapTwice(b, canon, enc, enc);
    EncodesOrderFree(Map(a, canon), Map(b, canon), enc, key);
  }

  lemma CalleesEncodeAlike(table: Table, c: ConstructorCallees)
    ensures EncodeCallees(table)(CanonicalCallees(c)) == EncodeCallees(table)(c)
  {
    NatLeIsOrder();
    MapPermute(Sort(c.extra, StringLe), c.extra, table.Id);
    SortForgetsOrder(Map(Sort(c.extra, StringLe), table.Id), Map(c.extra, table.Id), NatLe);
  }

  lemma PropertiesEncodeAlike(table: Table, p: ClassProperties)
    ensures EncodeProperties(table)(CanonicalProperties(p)) == EncodeProperties(table)(p)
  {
    NamesForgetOrder(Sort(p.properties, StringLe), p.properties);
  }

  lemma HeadersAlike(table: Table, a: Cache, b: Cache)
    requires CanonicallySame(a, b)
    ensures HeaderOf(table, a) == HeaderOf(table, b)
  {
    KeysAreInjective();
    EncodesOrderFree(a.reExports, b.reExports, EncodeReExport(table), ReExportKey);
    EncodesOrderFree(a.returnTypes, b.returnTypes, EncodeReturnType(table), ReturnTypeKey);
    EncodesOrderFree(a.classBases, b.classBases, EncodeBases(table), BasesKey);
    forall c: ConstructorCallees
      ensures EncodeCallees(table)(CanonicalCallees(c)) == EncodeCallees(table)(c)
    {
      CalleesEncodeAlike(table, c);
    }
    ListsEncodeAlike(a.constructorCallees, b.constructorCallees, CanonicalCallees, EncodeCallees(table), CalleesKey);
    forall p: ClassProperties
      ensures EncodeProperties(table)(CanonicalProperties(p)) == EncodeProperties(table)(p)
    {
      PropertiesEncodeAlike(table, p);
    }
    ListsEncodeAlike(a.classProperties, b.classProperties, CanonicalProperties, EncodeProperties(table), PropertiesKey);
  }

  /** The bytes of a canonical record, with the id of its name. */
  ghost function CanonicalBlob(s: Serializer, table: Table): CachedModule -> (nat, seq<byte>) {
    (m: CachedModule) => (table.Id(m.name), s.record(WireModuleOf(table, m)))
  }

  lemma BlobsAlike(s: Serializer, table: Table, a: Cache, b: Cache)
    requires SameUpToOrder(a.modules, b.modules, Canonical)
    ensures BlobsOf(s, table, a) == BlobsOf(s, table, b)
  {
    MoreKeysAreInjective();
    MapTwice(a.modules, Canonical, CanonicalBlob(s, table), BlobOf(s, table));
    MapTwice(b.modules, Canonical, CanonicalBlob(s, table), BlobOf(s, table));
    EncodesOrderFree(Map(a.modules, Canonical), Map(b.modules, Canonical), CanonicalBlob(s, table), BlobKey);
  }

  lemma SortedSet(names: seq<string>)
    ensures (set n | n in Sort(names, StringLe)) == set n | n in names
  {
    SameElements(Sort(names, StringLe), names);
  }

  lemma InfoKeepsNames(info: Info)
    ensures InfoNames(CanonicalInfo(info)) == InfoNames(info)
  {
    SameElements(Sort(info.params, ParamLe), info.params);
    assert forall p :: p in Sort(info.params, ParamLe) <==> p in info.params;
  }

  lemma CandidateKeepsNames(c: Resolution.Candidate)
    ensures CandidateNames(CanonicalCandidate(c)) == CandidateNames(c)
  {
    SortedSet(c.importedArgs.unsafeKeywordNames);
  }

  lemma FunctionsKeepNames(fs: map<string, Info>)
    ensures FunctionNames(CanonicalTable(fs)) == FunctionNames(fs)
  {
    forall f | f in fs
      ensures InfoNames(CanonicalTable(fs)[f]) == InfoNames(fs[f])
    {
      InfoKeepsNames(fs[f]);
    }
  }

  lemma MutationsKeepNames(cs: seq<Resolution.Candidate>)
    ensures MutationNames(Map(cs, CanonicalCandidate)) == MutationNames(cs)
  {
    var r := Map(cs, CanonicalCandidate);
    forall n
      ensures n in MutationNames(r) <==> n in MutationNames(cs)
    {
      if c :| c in r && n in CandidateNames(c) {
        var i :| 0 <= i < |r| && r[i] == c;
        CandidateKeepsNames(cs[i]);
        assert cs[i] in cs;
      }
      if c :| c in cs && n in CandidateNames(c) {
        var i :| 0 <= i < |cs| && cs[i] == c;
        CandidateKeepsNames(cs[i]);
        assert r[i] in r;
      }
    }
  }

  lemma PropertiesKeepNames(ps: seq<PropertyCandidate>)
    ensures AttributeNames(WireModules.CanonicalProperties(ps)) == AttributeNames(ps)
  {
    var sorted := Sort(ps, Merge.PropertyLe());
    var r := WireModules.CanonicalProperties(ps);
    SameElements(sorted, ps);
    forall n
      ensures n in AttributeNames(r) <==> n in AttributeNames(ps)
    {
      if p :| p in r && p.attribute == n {
        var i :| 0 <= i < |r| && r[i] == p;
        assert sorted[i] in sorted && sorted[i].attribute == n;
      }
      if p :| p in ps && p.attribute == n {
        var i :| 0 <= i < |sorted| && sorted[i] == p;
        assert r[i] in r && r[i].attribute == n;
      }
    }
  }

  lemma SubclassesKeepNames(ss: seq<SubclassCandidate>)
    ensures ClassNames(CanonicalSubclasses(ss)) == ClassNames(ss)
  {
    var sorted := Sort(ss, Merge.SubclassLe());
    var r := CanonicalSubclasses(ss);
    SameElements(sorted, ss);
    forall n
      ensures n in ClassNames(r) <==> n in ClassNames(ss)
    {
      if p :| p in r && p.class_ == n {
        var i :| 0 <= i < |r| && r[i] == p;
        assert sorted[i] in sorted && sorted[i].class_ == n;
      }
      if p :| p in ss && p.class_ == n {
        var i :| 0 <= i < |sorted| && sorted[i] == p;
        assert r[i] in r && r[i].class_ == n;
      }
    }
  }

  /** A record and its canonical form name the same. */
  lemma CanonicalKeepsNames(m: CachedModule)
    ensures ModuleNames(Canonical(m)) == ModuleNames(m)
  {
    if m.safety.Ok? {
      SortedSet(m.safety.implicitImports);
    }
    FunctionsKeepNames(m.functionSafety);
    MutationsKeepNames(m.mutationCandidates);
    PropertiesKeepNames(m.propertyCandidates);
    SubclassesKeepNames(m.subclassCandidates);
  }

  lemma Counterpart<T(!new), U>(a: seq<T>, b: seq<T>, f: T -> U, x: T)
    requires SameUpToOrder(a, b, f) && x in a
    ensures exists y :: y in b && f(y) == f(x)
  {
    var i :| 0 <= i < |a| && a[i] == x;
    assert Map(a, f)[i] == f(x);
    assert f(x) in multiset(Map(a, f));
    assert f(x) in multiset(Map(b, f));
    var j :| 0 <= j < |b| && Map(b, f)[j] == f(x);
    assert b[j] in b;
  }

  lemma CalleesKeepNames(c: ConstructorCallees, d: ConstructorCallees)
    requires CanonicalCallees(c) == CanonicalCallees(d)
    ensures CalleeRecordNames(c) == CalleeRecordNames(d)
  {
    SortedSet(c.extra);
    SortedSet(d.extra);
  }

  lemma CalleeNamesWithin(a: seq<ConstructorCallees>, b: seq<ConstructorCallees>)
    requires SameUpToOrder(a, b, CanonicalCallees)
    ensures CalleeNames(a) <= CalleeNames(b)
  {
    forall k | k in a
      ensures CalleeRecordNames(k) <= CalleeNames(b)
    {
      Counterpart(a, b, CanonicalCallees, k);
      var l :| l in b && CanonicalCallees(l) == CanonicalCallees(k);
      CalleesKeepNames(k, l);
    }
  }

  lemma OwnerNamesWithin(a: seq<ClassProperties>, b: seq<ClassProperties>)
    requires SameUpToOrder(a, b, CanonicalProperties)
    ensures OwnerNames(a) <= OwnerNames(b)
  {
    forall p | p in a
      ensures p.class_ in OwnerNames(b)
    {
      Counterpart(a, b, CanonicalProperties, p);
      var q :| q in b && CanonicalProperties(q) == CanonicalProperties(p);
    }
  }

  lemma RecordNamesWithin(a: seq<CachedModule>, b: seq<CachedModule>)
    requires SameUpToOrder(a, b, Canonical)
    ensures RecordNames(a) <= RecordNames(b)
  {
    forall m | m in a
      ensures ModuleNames(m) <= RecordNames(b)
    {
      Counterpart(a, b, Canonical, m);
      var k :| k in b && Canonical(k) == Canonical(m);
      CanonicalKeepsNames(m);
      CanonicalKeepsNames(k);
    }
  }

  lemma LinkNamesAlike(a: Cache, b: Cache)
    requires multiset(a.reExports) == multiset(b.reExports) && multiset(a.returnTypes) == multiset(b.returnTypes)
    requires multiset(a.classBases) == multiset(b.classBases)
    ensures LinkNames(a) == LinkNames(b)
  {
    SameElements(a.reExports, b.reExports);
    SameElements(a.returnTypes, b.returnTypes);
    SameElements(a.classBases, b.classBases);
  }

  lemma NamesAlike(a: Cache, b: Cache)
    requires CanonicallySame(a, b)
    ensures NamesOf(a) == NamesOf(b)
  {
    RecordNamesWithin(a.modules, b.modules);
    RecordNamesWithin(b.modules, a.modules);
    CalleeNamesWithin(a.constructorCallees, b.constructorCallees);
    CalleeNamesWithin(b.constructorCallees, a.constructorCallees);
    OwnerNamesWithin(a.classProperties, b.classProperties);
    OwnerNamesWithin(b.classProperties, a.classProperties);
    LinkNamesAlike(a, b);
  }

  /** The same facts give the same bytes. */
  lemma FileIsCanonical(s: Serializer, t: Table, a: Cache, u: Table, b: Cache)
    requires DistinctCache(a) && SameCache(a, b) && TableFor(t, a) && TableFor(u, b)
    ensures FileOf(s, t, a) == FileOf(s, u, b)
  {
    SameExactly(a, b);
    NamesAlike(a, b);
    TableIsCanonical(t, u);
    HeadersAlike(t, a, b);
    BlobsAlike(s, t, a, b);
  }

  // ----- Reading

  function DecodeReExport(names: seq<string>, w: WireReExport): Option<ReExport> {
    var exported := DecodeName(names, w.exportedModule);
    var imported := DecodeName(names, w.importedModule);
    if exported.Some? && imported.Some?
    then Some(ReExport(exported.value, w.exportedAttr, imported.value, w.importedAttr)) else None
  }

  function DecodeReturnType(names: seq<string>, w: WireReturnType): Option<ReturnType> {
    var function_ := DecodeName(names, w.function_);
    var class_ := DecodeName(names, w.class_);
    if function_.Some? && class_.Some? then Some(ReturnType(function_.value, class_.value)) else None
  }

  function DecodeBases(names: seq<string>, w: WireBases): Option<ClassBases> {
    var class_ := DecodeName(names, w.class_);
    var bases := DecodeNames(names, w.bases);
    if class_.Some? && bases.Some? then Some(ClassBases(class_.value, bases.value)) else None
  }

  function DecodeCallees(names: seq<string>, w: WireCallees): Option<ConstructorCallees> {
    var class_ := DecodeName(names, w.class_);
    var metaclass := if w.metaclass.Some? then DecodeName(names, w.metaclass.value) else None;
    var extra := DecodeNames(names, w.extra);
    if class_.Some? && (w.metaclass.Some? ==> metaclass.Some?) && extra.Some?
    then Some(ConstructorCallees(class_.value, metaclass, w.mask, extra.value)) else None
  }

  function DecodeProperties(names: seq<string>, w: WireProperties): Option<ClassProperties> {
    var class_ := DecodeName(names, w.class_);
    if class_.Some? then Some(ClassProperties(class_.value, w.properties)) else None
  }

  function DecodeBlob(s: Serializer, names: seq<string>, blob: seq<byte>): Option<CachedModule> {
    var wire := s.recordBack(blob);
    if wire.Some? then DecodeModule(names, wire.value) else None
  }

  /** What a header and module records are decoded to. */
  function DecodeFile(s: Serializer, header: seq<byte>, blobs: seq<seq<byte>>): Option<Cache> {
    var h := s.headerBack(header);
    if h.None? then None
    else
      var names := h.value.names;
      var modules := TryMap(blobs, (b: seq<byte>) => DecodeBlob(s, names, b));
      var reExports := TryMap(h.value.exports, (w: WireReExport) => DecodeReExport(names, w));
      var returnTypes := TryMap(h.value.returnTypes, (w: WireReturnType) => DecodeReturnType(names, w));
      var classBases := TryMap(h.value.classBases, (w: WireBases) => DecodeBases(names, w));
      var callees := TryMap(h.value.constructorCallees, (w: WireCallees) => DecodeCallees(names, w));
      var properties := TryMap(h.value.classProperties, (w: WireProperties) => DecodeProperties(names, w));
      if modules.Some? && reExports.Some? && returnTypes.Some? && classBases.Some? && callees.Some? && properties.Some?
      then Some(Cache(modules.value, reExports.value, returnTypes.value, classBases.value, callees.value,
                      properties.value))
      else None
  }

  // ----- What is read back

  /** A cache as it is read back: lists in the order of their wire form, records in canonical form. */
  ghost function CanonicalCache(s: Serializer, table: Table, c: Cache): Cache {
    Cache(Map(Sort(c.modules, Via(BlobOf(s, table), BlobKey)), Canonical),
          Sort(c.reExports, Via(EncodeReExport(table), ReExportKey)),
          Sort(c.returnTypes, Via(EncodeReturnType(table), ReturnTypeKey)),
          Sort(c.classBases, Via(EncodeBases(table), BasesKey)),
          Map(Sort(c.constructorCallees, Via(EncodeCallees(table), CalleesKey)), CanonicalCallees),
          Map(Sort(c.classProperties, Via(EncodeProperties(table), PropertiesKey)), CanonicalProperties))
  }

  lemma ReExportRoundTrip(table: Table, r: ReExport)
    requires table.Valid() && r.exportedModule in table.ids && r.importedModule in table.ids
    ensures DecodeReExport(table.names, EncodeReExport(table)(r)) == Some(r)
  {
    IdsAreRanks(table, r.exportedModule, r.importedModule);
    IdsAreRanks(table, r.importedModule, r.exportedModule);
  }

  lemma ReturnTypeRoundTrip(table: Table, r: ReturnType)
    requires table.Valid() && r.function_ in table.ids && r.class_ in table.ids
    ensures DecodeReturnType(table.names, EncodeReturnType(table)(r)) == Some(r)
  {
    IdsAreRanks(table, r.function_, r.class_);
    IdsAreRanks(table, r.class_, r.function_);
  }

  lemma BasesRoundTrip(table: Table, b: ClassBases)
    requires table.Valid() && b.class_ in table.ids && Known(table, b.bases)
    ensures DecodeBases(table.names, EncodeBases(table)(b)) == Some(b)
  {
    IdsAreRanks(table, b.class_, b.class_);
    NamesRoundTrip(table, b.bases);
  }

  lemma SortedNamesRoundTrip(table: Table, names: seq<string>)
    requires table.Valid() && Known(table, names)
    ensures DecodeNames(table.names, Sort(Map(names, table.Id), NatLe)) == Some(Sort(names, StringLe))
  {
    SortKnown(table, names);
    IdsSortLikeNames(table, names);
    NamesRoundTrip(table, Sort(names, StringLe));
  }

  lemma CalleesRoundTrip(table: Table, c: ConstructorCallees)
    requires table.Valid() && CalleeRecordNames(c) <= table.ids.Keys
    ensures DecodeCallees(table.names, EncodeCallees(table)(c)) == Some(CanonicalCallees(c))
  {
    IdsAreRanks(table, c.class_, c.class_);
    if c.metaclass.Some? {
      IdsAreRanks(table, c.metaclass.value, c.metaclass.value);
    }
    assert forall i :: 0 <= i < |c.extra| ==> c.extra[i] in CalleeRecordNames(c);
    SortedNamesRoundTrip(table, c.extra);
  }

  lemma PropertiesRoundTrip(table: Table, p: ClassProperties)
    requires table.Valid() && p.class_ in table.ids
    ensures DecodeProperties(table.names, EncodeProperties(table)(p)) == Some(CanonicalProperties(p))
  {
    IdsAreRanks(table, p.class_, p.class_);
  }

  lemma BlobRoundTrip(s: Serializer, table: Table, m: CachedModule)
    requires s.Inverse() && table.Valid() && KnownModule(table, m)
    ensures DecodeBlob(s, table.names, Bytes(BlobOf(s, table)(m))) == Some(Canonical(m))
  {
    EncodingIsCanonical(table, m, m);
  }

  lemma BlobsRoundTrip(s: Serializer, table: Table, ms: seq<CachedModule>)
    requires s.Inverse() && table.Valid() && forall i :: 0 <= i < |ms| ==> KnownModule(table, ms[i])
    ensures TryMap(Map(Map(ms, BlobOf(s, table)), Bytes), (b: seq<byte>) => DecodeBlob(s, table.names, b)) ==
      Some(Map(ms, Canonical))
  {
    var dec := (b: seq<byte>) => DecodeBlob(s, table.names, b);
    var enc := (m: CachedModule) => Bytes(BlobOf(s, table)(m));
    MapTwice(ms, BlobOf(s, table), Bytes, enc);
    forall i | 0 <= i < |ms|
      ensures dec(enc(ms[i])) == Some(Canonical(ms[i]))
    {
      BlobRoundTrip(s, table, ms[i]);
    }
    DecodesAll(ms, enc, dec, Canonical);
  }

  lemma PermutedIsKnown(table: Table, ms: seq<CachedModule>, c: Cache)
    requires TableFor(table, c) && multiset(ms) == multiset(c.modules)
    ensures forall i :: 0 <= i < |ms| ==> KnownModule(table, ms[i])
  {
    SameElements(ms, c.modules);
    forall i | 0 <= i < |ms|
      ensures KnownModule(table, ms[i])
    {
      assert ms[i] in c.modules;
      assert forall n :: n in ModuleNames(ms[i]) ==> n in RecordNames(c.modules);
      ModuleIsKnown(table, ms[i]);
    }
  }

  lemma ModulesRoundTrip(s: Serializer, table: Table, c: Cache)
    requires s.Inverse() && TableFor(table, c)
    ensures TryMap(BlobsOf(s, table, c), (b: seq<byte>) => DecodeBlob(s, table.names, b))
      == Some(Map(Sort(c.modules, Via(BlobOf(s, table), BlobKey)), Canonical))
  {
    var sorted := Sort(c.modules, Via(BlobOf(s, table), BlobKey));
    SortEncoded(c.modules, BlobOf(s, table), BlobKey);
    PermutedIsKnown(table, sorted, c);
    BlobsRoundTrip(s, table, sorted);
  }

  /** A sorted list of records that are decoded as they were is decoded as the records in that order. */
  lemma ListDecodes<A(!new), B>(list: seq<A>, enc: A -> B, key: B -> Key, dec: B -> Option<A>)
    requires forall x :: x in list ==> dec(enc(x)) == Some(x)
    ensures TryMap(Sort(Map(list, enc), By(key)), dec) == Some(Sort(list, Via(enc, key)))
  {
    SortedDecodes(list, enc, key, dec, (x: A) => x);
    var sorted := Sort(list, Via(enc, key));
    assert Map(sorted, (x: A) => x) == sorted;
  }

  lemma ReExportsRoundTrip(table: Table, rs: seq<ReExport>)
    requires table.Valid() && forall r :: r in rs ==> r.exportedModule in table.ids && r.importedModule in table.ids
    ensures TryMap(Sort(Map(rs, EncodeReExport(table)), By(ReExportKey)),
                   (w: WireReExport) => DecodeReExport(table.names, w))
      == Some(Sort(rs, Via(EncodeReExport(table), ReExportKey)))
  {
    forall r | r in rs
      ensures DecodeReExport(table.names, EncodeReExport(table)(r)) == Some(r)
    {
      ReExportRoundTrip(table, r);
    }
    ListDecodes(rs, EncodeReExport(table), ReExportKey, (w: WireReExport) => DecodeReExport(table.names, w));
  }

  lemma ReturnTypesRoundTrip(table: Table, rs: seq<ReturnType>)
    requires table.Valid() && forall r :: r in rs ==> r.function_ in table.ids && r.class_ in table.ids
    ensures TryMap(Sort(Map(rs, EncodeReturnType(table)), By(ReturnTypeKey)),
                   (w: WireReturnType) => DecodeReturnType(table.names, w))
      == Some(Sort(rs, Via(EncodeReturnType(table), ReturnTypeKey)))
  {
    forall r | r in rs
      ensures DecodeReturnType(table.names, EncodeReturnType(table)(r)) == Some(r)
    {
      ReturnTypeRoundTrip(table, r);
    }
    ListDecodes(rs, EncodeReturnType(table), ReturnTypeKey, (w: WireReturnType) => DecodeReturnType(table.names, w));
  }

  lemma ClassBasesRoundTrip(table: Table, bs: seq<ClassBases>)
    requires table.Valid() && forall b :: b in bs ==> b.class_ in table.ids && Known(table, b.bases)
    ensures TryMap(Sort(Map(bs, EncodeBases(table)), By(BasesKey)), (w: WireBases) => DecodeBases(table.names, w))
      == Some(Sort(bs, Via(EncodeBases(table), BasesKey)))
  {
    forall b | b in bs
      ensures DecodeBases(table.names, EncodeBases(table)(b)) == Some(b)
    {
      BasesRoundTrip(table, b);
    }
    ListDecodes(bs, EncodeBases(table), BasesKey, (w: WireBases) => DecodeBases(table.names, w));
  }

  lemma LinksAreKnown(table: Table, c: Cache)
    requires LinkNames(c) <= table.ids.Keys
    ensures forall r :: r in c.reExports ==> r.exportedModule in table.ids && r.importedModule in table.ids
    ensures forall r :: r in c.returnTypes ==> r.function_ in table.ids && r.class_ in table.ids
    ensures forall b :: b in c.classBases ==> b.class_ in table.ids && Known(table, b.bases)
  {
    forall b | b in c.classBases
      ensures b.class_ in table.ids && Known(table, b.bases)
    {
      assert forall n :: n in b.bases ==> n in LinkNames(c);
    }
  }

  lemma ClassFactsRoundTrip(table: Table, c: Cache)
    requires TableFor(table, c)
    ensures
      var h := HeaderOf(table, c);
      && TryMap(h.constructorCallees, (w: WireCallees) => DecodeCallees(table.names, w))
         == Some(Map(Sort(c.constructorCallees, Via(EncodeCallees(table), CalleesKey)), CanonicalCallees))
      && TryMap(h.classProperties, (w: WireProperties) => DecodeProperties(table.names, w))
         == Some(Map(Sort(c.classProperties, Via(EncodeProperties(table), PropertiesKey)), CanonicalProperties))
  {
    assert CalleeNames(c.constructorCallees) <= table.ids.Keys && OwnerNames(c.classProperties) <= table.ids.Keys;
    forall k | k in c.constructorCallees
      ensures DecodeCallees(table.names, EncodeCallees(table)(k)) == Some(CanonicalCallees(k))
    {
      assert forall n :: n in CalleeRecordNames(k) ==> n in CalleeNames(c.constructorCallees);
      CalleesRoundTrip(table, k);
    }
    SortedDecodes(c.constructorCallees, EncodeCallees(table), CalleesKey,
                  (w: WireCallees) => DecodeCallees(table.names, w),
                  CanonicalCallees);
    forall p | p in c.classProperties
      ensures DecodeProperties(table.names, EncodeProperties(table)(p)) == Some(CanonicalProperties(p))
    {
      assert p.class_ in OwnerNames(c.classProperties);
      PropertiesRoundTrip(table, p);
    }
    SortedDecodes(c.classProperties, EncodeProperties(table), PropertiesKey,
                  (w: WireProperties) => DecodeProperties(table.names, w),
                  CanonicalProperties);
  }

  lemma LinksRoundTrip(table: Table, c: Cache)
    requires TableFor(table, c)
    ensures
      var h := HeaderOf(table, c);
      && TryMap(h.exports, (w: WireReExport) => DecodeReExport(table.names, w))
         == Some(Sort(c.reExports, Via(EncodeReExport(table), ReExportKey)))
      && TryMap(h.returnTypes, (w: WireReturnType) => DecodeReturnType(table.names, w))
         == Some(Sort(c.returnTypes, Via(EncodeReturnType(table), ReturnTypeKey)))
      && TryMap(h.classBases, (w: WireBases) => DecodeBases(table.names, w))
         == Some(Sort(c.classBases, Via(EncodeBases(table), BasesKey)))
  {
    LinksAreKnown(table, c);
    ReExportsRoundTrip(table, c.reExports);
    ReturnTypesRoundTrip(table, c.returnTypes);
    ClassBasesRoundTrip(table, c.classBases);
  }

  /** A file is decoded when its lists are. */
  lemma DecodesFromLists(s: Serializer, header: seq<byte>, blobs: seq<seq<byte>>, h: Header, c: Cache)
    requires s.headerBack(header) == Some(h)
    requires TryMap(blobs, (b: seq<byte>) => DecodeBlob(s, h.names, b)) == Some(c.modules)
    requires TryMap(h.exports, (w: WireReExport) => DecodeReExport(h.names, w)) == Some(c.reExports)
    requires TryMap(h.returnTypes, (w: WireReturnType) => DecodeReturnType(h.names, w)) == Some(c.returnTypes)
    requires TryMap(h.classBases, (w: WireBases) => DecodeBases(h.names, w)) == Some(c.classBases)
    requires TryMap(h.constructorCallees, (w: WireCallees) => DecodeCallees(h.names, w)) == Some(c.constructorCallees)
    requires TryMap(h.classProperties, (w: WireProperties) => DecodeProperties(h.names, w)) == Some(c.classProperties)
    ensures DecodeFile(s, header, blobs) == Some(c)
  {
  }

  /** What was written is read back, in canonical form. */
  lemma FileRoundTrip(s: Serializer, table: Table, c: Cache)
    requires s.Inverse() && TableFor(table, c)
    ensures DecodeFile(s, s.header(HeaderOf(table, c)), BlobsOf(s, table, c)) == Some(CanonicalCache(s, table, c))
  {
    var h := HeaderOf(table, c);
    ModulesRoundTrip(s, table, c);
    LinksRoundTrip(table, c);
    ClassFactsRoundTrip(table, c);
    DecodesFromLists(s, s.header(h), BlobsOf(s, table, c), h, CanonicalCache(s, table, c));
  }

  /** The cache read back holds the same facts as the cache written. */
  lemma CanonicalCacheIsSame(s: Serializer, table: Table, c: Cache)
    ensures
      var r := CanonicalCache(s, table, c);
      && multiset(r.modules) == multiset(Map(c.modules, Canonical))
      && multiset(r.reExports) == multiset(c.reExports) && multiset(r.returnTypes) == multiset(c.returnTypes)
      && multiset(r.classBases) == multiset(c.classBases)
      && multiset(r.constructorCallees) == multiset(Map(c.constructorCallees, CanonicalCallees))
      && multiset(r.classProperties) == multiset(Map(c.classProperties, CanonicalProperties))
  {
    MapPermute(Sort(c.modules, Via(BlobOf(s, table), BlobKey)), c.modules, Canonical);
    MapPermute(Sort(c.constructorCallees, Via(EncodeCallees(table), CalleesKey)), c.constructorCallees,
               CanonicalCallees);
    MapPermute(Sort(c.classProperties, Via(EncodeProperties(table), PropertiesKey)), c.classProperties,
               CanonicalProperties);
  }

  lemma SameCanonicalCache(s: Serializer, t: Table, a: Cache, u: Table, b: Cache)
    requires CanonicalCache(s, t, a) == CanonicalCache(s, u, b)
    ensures CanonicallySame(a, b)
  {
    CanonicalCacheIsSame(s, t, a);
    CanonicalCacheIsSame(s, u, b);
  }

  lemma EqualFiles(s: Serializer, t: Table, a: Cache, u: Table, b: Cache)
    requires s.Inverse() && TableFor(t, a) && TableFor(u, b)
    requires FileOf(s, t, a) == FileOf(s, u, b) && |FileOf(s, t, a)| <= Framing.USIZE_MAX
    ensures CanonicallySame(a, b)
  {
    var h, h' := s.header(HeaderOf(t, a)), s.header(HeaderOf(u, b));
    Framing.FrameIsUnique(h, BlobsOf(s, t, a), h', BlobsOf(s, u, b));
    FileRoundTrip(s, t, a);
    FileRoundTrip(s, u, b);
    SameCanonicalCache(s, t, a, u, b);
  }

  /** Two files are equal exactly when they hold the same facts. */
  lemma FilesAgreeExactly(s: Serializer, t: Table, a: Cache, u: Table, b: Cache)
    requires s.Inverse() && TableFor(t, a) && TableFor(u, b) && DistinctCache(a)
    requires |FileOf(s, t, a)| <= Framing.USIZE_MAX
    ensures FileOf(s, t, a) == FileOf(s, u, b) <==> SameCache(a, b)
  {
    if SameCache(a, b) {
      FileIsCanonical(s, t, a, u, b);
    }
    if FileOf(s, t, a) == FileOf(s, u, b) {
      EqualFiles(s, t, a, u, b);
      SameExactly(a, b);
    }
  }

  /** A file is read exactly when it frames a header and records that can be decoded; what was written is read back in
      canonical form. */
  method Read(s: Serializer, bytes: seq<byte>) returns (r: Framing.Result<Cache>)
    requires |bytes| <= Framing.USIZE_MAX
    ensures r.Ok? ==> exists h, b :: bytes == Framing.Frame(h, b) && DecodeFile(s, h, b) == Some(r.value)
    ensures r.Err? ==> forall h, b :: bytes == Framing.Frame(h, b) ==> DecodeFile(s, h, b) == None
    ensures s.Inverse() ==> forall table, c :: TableFor(table, c) && bytes == FileOf(s, table, c) ==>
      r == Framing.Ok(CanonicalCache(s, table, c))
  {
    var parts := Framing.ReadFrame(bytes);
    if parts.Err? {
      return Framing.Err(parts.error);
    }
    var (header, blobs) := parts.value;
    forall h, b | bytes == Framing.Frame(h, b)
      ensures h == header && b == blobs
    {
      Framing.FrameIsUnique(h, b, header, blobs);
    }
    if s.Inverse() {
      forall table, c | TableFor(table, c) && bytes == FileOf(s, table, c)
        ensures DecodeFile(s, header, blobs) == Some(CanonicalCache(s, table, c))
      {
        FileRoundTrip(s, table, c);
      }
    }
    var decoded := DecodeFile(s, header, blobs);
    if decoded.None? {
      return Framing.Err(Framing.Malformed);
    }
    return Framing.Ok(decoded.value);
  }
}
