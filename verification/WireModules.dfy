/** Module records on the wire: `WireModule` and its parts of `src/cache_wire.rs`. */
module WireModules {
  import opened Wrappers
  import opened Effects
  import opened Safety
  import opened Artifact
  import opened Sorting
  import opened Codec
  import opened NameTable
  import Merge
  import Resolution

  // ----- What is written

  datatype WireError = WireError(kind: nat, metadata: string, parameterizedDecorator: bool, fromMainGuard: bool)

  datatype WireSafety =
    | WireOk(errors: seq<WireError>, forceImportsEagerOverrides: seq<WireError>, implicitImports: seq<nat>)
    | WireFailed(message: string)

  datatype WireParam = WireParam(name: nat, position: ParamPosition)

  datatype WireInfo = WireInfo(verdict: FunctionSafety, missing: seq<nat>, params: seq<WireParam>)

  datatype WireArgs = WireArgs(unsafeArgIndices: set<nat>, unsafeKeywordNames: seq<nat>, hasUnsafeKwargsExpansion: bool,
                               unsafeArgsExpansionMin: Option<nat>)

  datatype WireSite = WireModuleScope(call: nat) | WireFunction(name: nat)

  datatype WireCandidate = WireCandidate(callee: nat, site: WireSite, argOffset: nat, importedArgs: WireArgs,
                                         fromMainGuard: bool)

  datatype WireProperty = WireProperty(attribute: nat, fromMainGuard: bool)

  datatype WireSubclass = WireSubclass(class_: nat, fromMainGuard: bool)

  datatype WireModule = WireModule(
    name: nat, safety: WireSafety, imports: seq<nat>, missingImports: seq<nat>, ambiguousImports: seq<nat>,
    sideEffectImports: seq<nat>, mainGuardImports: seq<nat>, functionSafety: seq<(string, WireInfo)>,
    mutationCandidates: seq<WireCandidate>, propertyCandidates: seq<WireProperty>,
    subclassCandidates: seq<WireSubclass>)

  // ----- Canonical records: lists without meaning in their order sorted, positions dropped

  function NoErrorRange(e: SafetyError): SafetyError { e.(range := 0) }
  function NoPropertyRange(p: PropertyCandidate): PropertyCandidate { p.(range := 0) }
  function NoSubclassRange(s: SubclassCandidate): SubclassCandidate { s.(range := 0) }

  predicate ParamLe(a: MutatedParam, b: MutatedParam) { StringLe(a.name, b.name) }

  function CanonicalSafety(s: CachedSafety): CachedSafety {
    match s
    case Ok(errors, overrides, implicit) =>
      Ok(Map(Sort(errors, Merge.ErrorLe()), NoErrorRange), Map(Sort(overrides, Merge.ErrorLe()), NoErrorRange),
         Sort(implicit, StringLe))
    case AnalysisError(_) => s
  }

  function CanonicalInfo(info: Info): Info {
    info.(params := Sort(info.params, ParamLe))
  }

  function CanonicalCandidate(c: Resolution.Candidate): Resolution.Candidate {
    c.(range := 0,
       importedArgs := c.importedArgs.(unsafeKeywordNames := Sort(c.importedArgs.unsafeKeywordNames, StringLe)))
  }

  ghost function CanonicalTable(fs: map<string, Info>): map<string, Info> {
    map n | n in fs :: CanonicalInfo(fs[n])
  }

  function CanonicalProperties(ps: seq<PropertyCandidate>): seq<PropertyCandidate> {
    Map(Sort(ps, Merge.PropertyLe()), NoPropertyRange)
  }

  function CanonicalSubclasses(ss: seq<SubclassCandidate>): seq<SubclassCandidate> {
    Map(Sort(ss, Merge.SubclassLe()), NoSubclassRange)
  }

  ghost function Canonical(m: CachedModule): CachedModule {
    m.(safety := CanonicalSafety(m.safety),
       functionSafety := CanonicalTable(m.functionSafety),
       mutationCandidates := Map(m.mutationCandidates, CanonicalCandidate),
       propertyCandidates := CanonicalProperties(m.propertyCandidates),
       subclassCandidates := CanonicalSubclasses(m.subclassCandidates))
  }

  // ----- The wire form of a canonical record

  function WireErrorOf(e: SafetyError): WireError {
    WireError(e.kind, e.metadata, e.parameterizedDecorator, e.fromMainGuard)
  }

  function WireSafetyOf(table: Table, s: CachedSafety): WireSafety {
    match s
    case Ok(errors, overrides, implicit) =>
      WireOk(Map(errors, WireErrorOf), Map(overrides, WireErrorOf), Map(implicit, table.Id))
    case AnalysisError(message) => WireFailed(message)
  }

  function WireParamOf(table: Table): MutatedParam -> WireParam {
    (p: MutatedParam) => WireParam(table.Id(p.name), p.position)
  }

  ghost function WireInfoOf(table: Table, info: Info): WireInfo {
    WireInfo(info.verdict, IdsOf(table, info.missing), Map(info.params, WireParamOf(table)))
  }

  function WireArgsOf(table: Table, a: ImportedArgs): WireArgs {
    WireArgs(a.unsafeArgIndices, Map(a.unsafeKeywordNames, table.Id), a.hasUnsafeKwargsExpansion,
             a.unsafeArgsExpansionMin)
  }

  function WireSiteOf(table: Table, site: Resolution.Site): WireSite {
    match site
    case ModuleScope(call) => WireModuleScope(table.Id(call))
    case Function(name) => WireFunction(table.Id(name))
  }

  function WireCandidateOf(table: Table): Resolution.Candidate -> WireCandidate {
    (c: Resolution.Candidate) =>
      WireCandidate(table.Id(c.callee), WireSiteOf(table, c.site), c.argOffset, WireArgsOf(table, c.importedArgs),
                    c.fromMainGuard)
  }

  function WirePropertyOf(table: Table): PropertyCandidate -> WireProperty {
    (p: PropertyCandidate) => WireProperty(table.Id(p.attribute), p.fromMainGuard)
  }

  function WireSubclassOf(table: Table): SubclassCandidate -> WireSubclass {
    (s: SubclassCandidate) => WireSubclass(table.Id(s.class_), s.fromMainGuard)
  }

  ghost function WireEntryOf(table: Table, fs: map<string, Info>): string -> (string, WireInfo) {
    n => (n, if n in fs then WireInfoOf(table, fs[n]) else WireInfo(SAFE, [], []))
  }

  ghost function WireTableOf(table: Table, fs: map<string, Info>): seq<(string, WireInfo)> {
    Map(Sort(Listed(fs.Keys), StringLe), WireEntryOf(table, fs))
  }

  ghost function WireModuleOf(table: Table, m: CachedModule): WireModule {
    WireModule(
      table.Id(m.name), WireSafetyOf(table, m.safety), IdsOf(table, m.imports), IdsOf(table, m.missingImports),
      IdsOf(table, m.ambiguousImports), IdsOf(table, m.sideEffectImports), IdsOf(table, m.mainGuardImports),
      WireTableOf(table, m.functionSafety), Map(m.mutationCandidates, WireCandidateOf(table)),
      Map(m.propertyCandidates, WirePropertyOf(table)), Map(m.subclassCandidates, WireSubclassOf(table)))
  }

  // ----- Every name is in the table

  ghost predicate KnownInfo(table: Table, info: Info) {
    info.missing <= table.ids.Keys && forall i :: 0 <= i < |info.params| ==> info.params[i].name in table.ids
  }

  ghost predicate KnownCandidate(table: Table, c: Resolution.Candidate) {
    && c.callee in table.ids && Known(table, c.importedArgs.unsafeKeywordNames)
    && match c.site
       case ModuleScope(call) => call in table.ids
       case Function(name) => name in table.ids
  }

  ghost predicate KnownModule(table: Table, m: CachedModule) {
    && m.name in table.ids
    && (m.safety.Ok? ==> Known(table, m.safety.implicitImports))
    && m.imports + m.missingImports + m.ambiguousImports + m.sideEffectImports + m.mainGuardImports <= table.ids.Keys
    && (forall n :: n in m.functionSafety ==> KnownInfo(table, m.functionSafety[n]))
    && (forall i :: 0 <= i < |m.mutationCandidates| ==> KnownCandidate(table, m.mutationCandidates[i]))
    && (forall i :: 0 <= i < |m.propertyCandidates| ==> m.propertyCandidates[i].attribute in table.ids)
    && (forall i :: 0 <= i < |m.subclassCandidates| ==> m.subclassCandidates[i].class_ in table.ids)
  }

  // ----- Encoding

  lemma MapTwice<A, B, C>(s: seq<A>, f: A -> B, g: B -> C, h: A -> C)
    requires forall i :: 0 <= i < |s| ==> g(f(s[i])) == h(s[i])
    ensures Map(Map(s, f), g) == Map(s, h)
  {
  }

  method SortedErrors(errors: seq<SafetyError>) returns (w: seq<WireError>)
    ensures w == Map(Map(Sort(errors, Merge.ErrorLe()), NoErrorRange), WireErrorOf)
  {
    var sorted := Sort(errors, Merge.ErrorLe());
    w := Map(sorted, WireErrorOf);
    MapTwice(sorted, NoErrorRange, WireErrorOf, WireErrorOf);
  }

  method EncodeSafety(table: Table, s: CachedSafety) returns (w: WireSafety)
    requires table.Valid() && (s.Ok? ==> Known(table, s.implicitImports))
    ensures w == WireSafetyOf(table, CanonicalSafety(s))
  {
    match s
    case Ok(errors, overrides, implicit) =>
      var sortedErrors := SortedErrors(errors);
      var sortedOverrides := SortedErrors(overrides);
      IdsSortLikeNames(table, implicit);
      w := WireOk(sortedErrors, sortedOverrides, Sort(Map(implicit, table.Id), NatLe));
    case AnalysisError(message) =>
      w := WireFailed(message);
  }

  predicate WireParamLe(a: WireParam, b: WireParam) { a.name <= b.name }

  method EncodeInfo(table: Table, info: Info) returns (w: WireInfo)
    requires table.Valid() && KnownInfo(table, info)
    ensures w == WireInfoOf(table, CanonicalInfo(info))
  {
    var params := Sort(Map(info.params, WireParamOf(table)), WireParamLe);
    forall x, y | x in info.params && y in info.params
      ensures ParamLe(x, y) <==> WireParamLe(WireParamOf(table)(x), WireParamOf(table)(y))
    {
      IdsAreRanks(table, x.name, y.name);
    }
    MapSort(info.params, WireParamOf(table), ParamLe, WireParamLe);
    var missing := EncodeSet(table, info.missing);
    w := WireInfo(info.verdict, missing, params);
  }

  /** `entry` gives the wire form of the canonical entry. */
  ghost predicate EncodesEntries(table: Table, fs: map<string, Info>, entry: string -> (string, WireInfo)) {
    forall n {:trigger CanonicalInfo(fs[n])} :: n in fs ==> entry(n) == (n, WireInfoOf(table, CanonicalInfo(fs[n])))
  }

  lemma EntriesEncode(table: Table, fs: map<string, Info>)
    ensures CanonicalTable(fs).Keys == fs.Keys
    ensures EncodesEntries(table, fs, WireEntryOf(table, CanonicalTable(fs)))
  {
  }

  method EncodeEntries(table: Table, fs: map<string, Info>, names: seq<string>,
                       ghost entry: string -> (string, WireInfo))
    returns (w: seq<(string, WireInfo)>)
    requires table.Valid() && forall i :: 0 <= i < |names| ==> names[i] in fs && KnownInfo(table, fs[names[i]])
    requires EncodesEntries(table, fs, entry)
    ensures w == Map(names, entry)
  {
    w := [];
    for i := 0 to |names|
      invariant |w| == i && forall k :: 0 <= k < i ==> w[k] == entry(names[k])
    {
      var info := EncodeInfo(table, fs[names[i]]);
      w := w + [(names[i], info)];
    }
  }

  lemma NamesForgetOrder(a: seq<string>, b: seq<string>)
    requires multiset(a) == multiset(b)
    ensures Sort(a, StringLe) == Sort(b, StringLe)
  {
    StringLeIsOrder();
    SortForgetsOrder(a, b, StringLe);
  }

  /** A set in the order of its names, whatever order it is iterated in. */
  method SortedNames(keys: set<string>) returns (names: seq<string>)
    ensures names == Sort(Listed(keys), StringLe) && forall i :: 0 <= i < |names| ==> names[i] in keys
  {
    var listed := Collect(keys);
    names := Sort(listed, StringLe);
    NamesForgetOrder(listed, Listed(keys));
    ListedElements(names, keys);
  }

  method EncodeTable(table: Table, fs: map<string, Info>) returns (w: seq<(string, WireInfo)>)
    requires table.Valid() && forall n :: n in fs ==> KnownInfo(table, fs[n])
    ensures w == WireTableOf(table, CanonicalTable(fs))
  {
    var names := SortedNames(fs.Keys);
    EntriesEncode(table, fs);
    w := EncodeEntries(table, fs, names, WireEntryOf(table, CanonicalTable(fs)));
  }

  /** `enc` gives the wire form of the canonical candidate. */
  ghost predicate EncodesCandidates(table: Table, enc: Resolution.Candidate -> WireCandidate) {
    forall c {:trigger CanonicalCandidate(c)} :: enc(c) == WireCandidateOf(table)(CanonicalCandidate(c))
  }

  method EncodeCandidate(table: Table, c: Resolution.Candidate, ghost enc: Resolution.Candidate -> WireCandidate)
    returns (w: WireCandidate)
    requires table.Valid() && KnownCandidate(table, c) && EncodesCandidates(table, enc)
    ensures w == enc(c)
  {
    var args := c.importedArgs;
    assert enc(c) == WireCandidateOf(table)(CanonicalCandidate(c));
    IdsSortLikeNames(table, args.unsafeKeywordNames);
    w := WireCandidate(table.Id(c.callee), WireSiteOf(table, c.site), c.argOffset,
                       WireArgs(args.unsafeArgIndices, Sort(Map(args.unsafeKeywordNames, table.Id), NatLe),
                                args.hasUnsafeKwargsExpansion, args.unsafeArgsExpansionMin),
                       c.fromMainGuard);
  }

  method EncodeEach(table: Table, cs: seq<Resolution.Candidate>, ghost enc: Resolution.Candidate -> WireCandidate)
    returns (w: seq<WireCandidate>)
    requires table.Valid() && forall i :: 0 <= i < |cs| ==> KnownCandidate(table, cs[i])
    requires EncodesCandidates(table, enc)
    ensures w == Map(cs, enc)
  {
    w := [];
    for i := 0 to |cs|
      invariant |w| == i && forall k :: 0 <= k < i ==> w[k] == enc(cs[k])
    {
      var c := EncodeCandidate(table, cs[i], enc);
      w := w + [c];
    }
  }

  /** In the order they were recorded. */
  method EncodeCandidates(table: Table, cs: seq<Resolution.Candidate>) returns (w: seq<WireCandidate>)
    requires table.Valid() && forall i :: 0 <= i < |cs| ==> KnownCandidate(table, cs[i])
    ensures w == Map(Map(cs, CanonicalCandidate), WireCandidateOf(table))
  {
    ghost var enc := (c: Resolution.Candidate) => WireCandidateOf(table)(CanonicalCandidate(c));
    w := EncodeEach(table, cs, enc);
    MapTwice(cs, CanonicalCandidate, WireCandidateOf(table), enc);
  }

  method EncodeProperties(table: Table, ps: seq<PropertyCandidate>) returns (w: seq<WireProperty>)
    ensures w == Map(CanonicalProperties(ps), WirePropertyOf(table))
  {
    var sorted := Sort(ps, Merge.PropertyLe());
    w := Map(sorted, WirePropertyOf(table));
    MapTwice(sorted, NoPropertyRange, WirePropertyOf(table), WirePropertyOf(table));
  }

  method EncodeSubclasses(table: Table, ss: seq<SubclassCandidate>) returns (w: seq<WireSubclass>)
    ensures w == Map(CanonicalSubclasses(ss), WireSubclassOf(table))
  {
    var sorted := Sort(ss, Merge.SubclassLe());
    w := Map(sorted, WireSubclassOf(table));
    MapTwice(sorted, NoSubclassRange, WireSubclassOf(table), WireSubclassOf(table));
  }

  /** The encoding is that of the canonical record, whatever order sets and maps are iterated in. */
  method EncodeModule(table: Table, m: CachedModule) returns (w: WireModule)
    requires table.Valid() && KnownModule(table, m)
    ensures w == WireModuleOf(table, Canonical(m))
  {
    var safety := EncodeSafety(table, m.safety);
    var imports := EncodeSet(table, m.imports);
    var missingImports := EncodeSet(table, m.missingImports);
    var ambiguousImports := EncodeSet(table, m.ambiguousImports);
    var sideEffectImports := EncodeSet(table, m.sideEffectImports);
    var mainGuardImports := EncodeSet(table, m.mainGuardImports);
    var functionSafety := EncodeTable(table, m.functionSafety);
    var mutations := EncodeCandidates(table, m.mutationCandidates);
    var properties := EncodeProperties(table, m.propertyCandidates);
    var subclasses := EncodeSubclasses(table, m.subclassCandidates);
    w := WireModule(table.Id(m.name), safety, imports, missingImports, ambiguousImports, sideEffectImports,
                    mainGuardImports, functionSafety, mutations, properties, subclasses);
  }

  // ----- Decoding

  function DecodeError(w: WireError): SafetyError {
    SafetyError(w.kind, w.metadata, 0, w.parameterizedDecorator, w.fromMainGuard)
  }

  function DecodeSafety(names: seq<string>, w: WireSafety): Option<CachedSafety> {
    match w
    case WireOk(errors, overrides, implicit) =>
      var decoded := DecodeNames(names, implicit);
      if decoded.Some? then Some(Ok(Map(errors, DecodeError), Map(overrides, DecodeError), decoded.value)) else None
    case WireFailed(message) => Some(AnalysisError(message))
  }

  function DecodeParam(names: seq<string>, w: WireParam): Option<MutatedParam> {
    var name := DecodeName(names, w.name);
    if name.Some? then Some(MutatedParam(name.value, w.position)) else None
  }

  function DecodeInfo(names: seq<string>, w: WireInfo): Option<Info> {
    var missing := DecodeSet(names, w.missing);
    var params := TryMap(w.params, (p: WireParam) => DecodeParam(names, p));
    if missing.Some? && params.Some? then Some(Info(w.verdict, missing.value, params.value)) else None
  }

  function DecodeEntry(names: seq<string>, w: (string, WireInfo)): Option<(string, Info)> {
    var info := DecodeInfo(names, w.1);
    if info.Some? then Some((w.0, info.value)) else None
  }

  function ToMap<V>(pairs: seq<(string, V)>): map<string, V> {
    if pairs == [] then map[]
    else
      var last := pairs[|pairs| - 1];
      ToMap(pairs[..|pairs| - 1])[last.0 := last.1]
  }

  function DecodeTable(names: seq<string>, w: seq<(string, WireInfo)>): Option<map<string, Info>> {
    var pairs := TryMap(w, (e: (string, WireInfo)) => DecodeEntry(names, e));
    if pairs.Some? then Some(ToMap(pairs.value)) else None
  }

  function DecodeSite(names: seq<string>, w: WireSite): Option<Resolution.Site> {
    match w
    case WireModuleScope(call) =>
      var name := DecodeName(names, call);
      if name.Some? then Some(Resolution.ModuleScope(name.value)) else None
    case WireFunction(id) =>
      var name := DecodeName(names, id);
      if name.Some? then Some(Resolution.Function(name.value)) else None
  }

  function DecodeCandidate(names: seq<string>, w: WireCandidate): Option<Resolution.Candidate> {
    var site := DecodeSite(names, w.site);
    var callee := DecodeName(names, w.callee);
    var keywords := DecodeNames(names, w.importedArgs.unsafeKeywordNames);
    if site.Some? && callee.Some? && keywords.Some? then
      Some(Resolution.Candidate(callee.value, w.argOffset,
                                ImportedArgs(w.importedArgs.unsafeArgIndices, keywords.value,
                                             w.importedArgs.hasUnsafeKwargsExpansion,
                                             w.importedArgs.unsafeArgsExpansionMin),
                                site.value, 0, w.fromMainGuard))
    else None
  }

  function DecodeProperty(names: seq<string>, w: WireProperty): Option<PropertyCandidate> {
    var name := DecodeName(names, w.attribute);
    if name.Some? then Some(PropertyCandidate(name.value, 0, w.fromMainGuard)) else None
  }

  function DecodeSubclass(names: seq<string>, w: WireSubclass): Option<SubclassCandidate> {
    var name := DecodeName(names, w.class_);
    if name.Some? then Some(SubclassCandidate(name.value, 0, w.fromMainGuard)) else None
  }

  function DecodeModule(names: seq<string>, w: WireModule): Option<CachedModule> {
    var name := DecodeName(names, w.name);
    var safety := DecodeSafety(names, w.safety);
    var imports := DecodeSet(names, w.imports);
    var missingImports := DecodeSet(names, w.missingImports);
    var ambiguousImports := DecodeSet(names, w.ambiguousImports);
    var sideEffectImports := DecodeSet(names, w.sideEffectImports);
    var mainGuardImports := DecodeSet(names, w.mainGuardImports);
    var functionSafety := DecodeTable(names, w.functionSafety);
    var mutations := TryMap(w.mutationCandidates, (c: WireCandidate) => DecodeCandidate(names, c));
    var properties := TryMap(w.propertyCandidates, (p: WireProperty) => DecodeProperty(names, p));
    var subclasses := TryMap(w.subclassCandidates, (s: WireSubclass) => DecodeSubclass(names, s));
    if name.Some? && safety.Some? && imports.Some? && missingImports.Some? && ambiguousImports.Some?
      && sideEffectImports.Some?
       && mainGuardImports.Some? && functionSafety.Some? && mutations.Some? && properties.Some? && subclasses.Some?
    then Some(CachedModule(name.value, safety.value, imports.value, missingImports.value, ambiguousImports.value,
                           sideEffectImports.value, functionSafety.value, mutations.value, properties.value,
                           subclasses.value, mainGuardImports.value))
    else None
  }

  // ----- Decoding what was encoded

  /** A record as it is decoded: no error or candidate has a position. */
  ghost predicate Plain(m: CachedModule) {
    && (m.safety.Ok? ==> NoRanges(m.safety.errors) && NoRanges(m.safety.forceImportsEagerOverrides))
    && (forall i :: 0 <= i < |m.mutationCandidates| ==> m.mutationCandidates[i].range == 0)
    && (forall i :: 0 <= i < |m.propertyCandidates| ==> m.propertyCandidates[i].range == 0)
    && (forall i :: 0 <= i < |m.subclassCandidates| ==> m.subclassCandidates[i].range == 0)
  }

  ghost predicate NoRanges(errors: seq<SafetyError>) {
    forall i :: 0 <= i < |errors| ==> errors[i].range == 0
  }

  lemma ErrorsRoundTrip(errors: seq<SafetyError>)
    requires NoRanges(errors)
    ensures Map(Map(errors, WireErrorOf), DecodeError) == errors
  {
  }

  lemma SafetyRoundTrip(table: Table, s: CachedSafety)
    requires table.Valid() && (s.Ok? ==> Known(table, s.implicitImports))
    requires s.Ok? ==> NoRanges(s.errors) && NoRanges(s.forceImportsEagerOverrides)
    ensures DecodeSafety(table.names, WireSafetyOf(table, s)) == Some(s)
  {
    if s.Ok? {
      NamesRoundTrip(table, s.implicitImports);
      ErrorsRoundTrip(s.errors);
      ErrorsRoundTrip(s.forceImportsEagerOverrides);
    }
  }

  /** What is decoded element by element to itself is decoded as a whole to itself. */
  lemma ListRoundTrip<A, B>(s: seq<A>, enc: A -> B, dec: B -> Option<A>)
    requires forall i :: 0 <= i < |s| ==> dec(enc(s[i])) == Some(s[i])
    ensures TryMap(Map(s, enc), dec) == Some(s)
  {
    var r := TryMap(Map(s, enc), dec);
    assert r.Some?;
    assert r.value == s;
  }

  lemma InfoRoundTrip(table: Table, info: Info)
    requires table.Valid() && KnownInfo(table, info)
    ensures DecodeInfo(table.names, WireInfoOf(table, info)) == Some(info)
  {
    SetRoundTrip(table, info.missing);
    forall i | 0 <= i < |info.params|
      ensures DecodeParam(table.names, WireParamOf(table)(info.params[i])) == Some(info.params[i])
    {
      IdsAreRanks(table, info.params[i].name, info.params[i].name);
    }
    ListRoundTrip(info.params, WireParamOf(table), (p: WireParam) => DecodeParam(table.names, p));
  }

  lemma {:induction false} ToMapEntries<V>(names: seq<string>, value: string -> V)
    ensures ToMap(Map(names, (n: string) => (n, value(n)))) == map n | n in names :: value(n)
  {
    if names != [] {
      var front, last := names[..|names| - 1], names[|names| - 1];
      ToMapEntries(front, value);
      var pairs := Map(names, (n: string) => (n, value(n)));
      assert pairs[..|names| - 1] == Map(front, (n: string) => (n, value(n)));
      assert names == front + [last];
    }
  }

  ghost function EntryOf(fs: map<string, Info>): string -> Info {
    n => if n in fs then fs[n] else Info(SAFE, {}, [])
  }

  lemma EntryRoundTrip(table: Table, fs: map<string, Info>, n: string)
    requires table.Valid() && n in fs && KnownInfo(table, fs[n])
    ensures DecodeEntry(table.names, WireEntryOf(table, fs)(n)) == Some((n, EntryOf(fs)(n)))
  {
    InfoRoundTrip(table, fs[n]);
  }

  lemma EntriesRoundTrip(table: Table, fs: map<string, Info>, names: seq<string>)
    requires table.Valid() && forall i :: 0 <= i < |names| ==> names[i] in fs && KnownInfo(table, fs[names[i]])
    ensures TryMap(Map(names, WireEntryOf(table, fs)), (e: (string, WireInfo)) => DecodeEntry(table.names, e))
      == Some(Map(names, (n: string) => (n, EntryOf(fs)(n))))
  {
    forall i | 0 <= i < |names|
      ensures DecodeEntry(table.names, WireEntryOf(table, fs)(names[i])) == Some((names[i], EntryOf(fs)(names[i])))
    {
      EntryRoundTrip(table, fs, names[i]);
    }
    DecodesAll(names, WireEntryOf(table, fs), (e: (string, WireInfo)) => DecodeEntry(table.names, e),
               (n: string) => (n, EntryOf(fs)(n)));
  }

  lemma EntriesAreMap(fs: map<string, Info>, names: seq<string>)
    requires multiset(names) == multiset(fs.Keys)
    ensures ToMap(Map(names, (n: string) => (n, EntryOf(fs)(n)))) == fs
    ensures forall i :: 0 <= i < |names| ==> names[i] in fs
  {
    ListedElements(names, fs.Keys);
    ToMapEntries(names, EntryOf(fs));
  }

  lemma TableRoundTrip(table: Table, fs: map<string, Info>)
    requires table.Valid() && forall n :: n in fs ==> KnownInfo(table, fs[n])
    ensures DecodeTable(table.names, WireTableOf(table, fs)) == Some(fs)
  {
    var names := Sort(Listed(fs.Keys), StringLe);
    EntriesAreMap(fs, names);
    EntriesRoundTrip(table, fs, names);
  }

  lemma CandidateRoundTrip(table: Table, c: Resolution.Candidate)
    requires table.Valid() && KnownCandidate(table, c) && c.range == 0
    ensures DecodeCandidate(table.names, WireCandidateOf(table)(c)) == Some(c)
  {
    IdsAreRanks(table, c.callee, c.callee);
    NamesRoundTrip(table, c.importedArgs.unsafeKeywordNames);
    match c.site
    case ModuleScope(call) => IdsAreRanks(table, call, call);
    case Function(name) => IdsAreRanks(table, name, name);
  }

  lemma MutationsRoundTrip(table: Table, cs: seq<Resolution.Candidate>)
    requires table.Valid() && forall i :: 0 <= i < |cs| ==> KnownCandidate(table, cs[i]) && cs[i].range == 0
    ensures TryMap(Map(cs, WireCandidateOf(table)), (c: WireCandidate) => DecodeCandidate(table.names, c)) == Some(cs)
  {
    forall i | 0 <= i < |cs|
      ensures DecodeCandidate(table.names, WireCandidateOf(table)(cs[i])) == Some(cs[i])
    {
      CandidateRoundTrip(table, cs[i]);
    }
    ListRoundTrip(cs, WireCandidateOf(table), (c: WireCandidate) => DecodeCandidate(table.names, c));
  }

  lemma PropertiesRoundTrip(table: Table, ps: seq<PropertyCandidate>)
    requires table.Valid() && forall i :: 0 <= i < |ps| ==> ps[i].attribute in table.ids && ps[i].range == 0
    ensures TryMap(Map(ps, WirePropertyOf(table)), (p: WireProperty) => DecodeProperty(table.names, p)) == Some(ps)
  {
    forall i | 0 <= i < |ps|
      ensures DecodeProperty(table.names, WirePropertyOf(table)(ps[i])) == Some(ps[i])
    {
      IdsAreRanks(table, ps[i].attribute, ps[i].attribute);
    }
    ListRoundTrip(ps, WirePropertyOf(table), (p: WireProperty) => DecodeProperty(table.names, p));
  }

  lemma SubclassesRoundTrip(table: Table, ss: seq<SubclassCandidate>)
    requires table.Valid() && forall i :: 0 <= i < |ss| ==> ss[i].class_ in table.ids && ss[i].range == 0
    ensures TryMap(Map(ss, WireSubclassOf(table)), (s: WireSubclass) => DecodeSubclass(table.names, s)) == Some(ss)
  {
    forall i | 0 <= i < |ss|
      ensures DecodeSubclass(table.names, WireSubclassOf(table)(ss[i])) == Some(ss[i])
    {
      IdsAreRanks(table, ss[i].class_, ss[i].class_);
    }
    ListRoundTrip(ss, WireSubclassOf(table), (s: WireSubclass) => DecodeSubclass(table.names, s));
  }

  /** A record is decoded when its parts are. */
  lemma DecodesFromParts(names: seq<string>, w: WireModule, m: CachedModule)
    requires DecodeName(names, w.name) == Some(m.name) && DecodeSafety(names, w.safety) == Some(m.safety)
    requires DecodeSet(names, w.imports) == Some(m.imports)
             && DecodeSet(names, w.missingImports) == Some(m.missingImports)
    requires DecodeSet(names, w.ambiguousImports) == Some(m.ambiguousImports)
    requires DecodeSet(names, w.sideEffectImports) == Some(m.sideEffectImports)
    requires DecodeSet(names, w.mainGuardImports) == Some(m.mainGuardImports)
    requires DecodeTable(names, w.functionSafety) == Some(m.functionSafety)
    requires TryMap(w.mutationCandidates, (c: WireCandidate) => DecodeCandidate(names, c)) == Some(m.mutationCandidates)
    requires TryMap(w.propertyCandidates, (p: WireProperty) => DecodeProperty(names, p)) == Some(m.propertyCandidates)
    requires TryMap(w.subclassCandidates, (s: WireSubclass) => DecodeSubclass(names, s)) == Some(m.subclassCandidates)
    ensures DecodeModule(names, w) == Some(m)
  {
  }

  /** A record without positions is decoded from its wire form as it was. */
  lemma ModuleRoundTrip(table: Table, m: CachedModule)
    requires table.Valid() && KnownModule(table, m) && Plain(m)
    ensures DecodeModule(table.names, WireModuleOf(table, m)) == Some(m)
  {
    IdsAreRanks(table, m.name, m.name);
    SafetyRoundTrip(table, m.safety);
    SetRoundTrip(table, m.imports);
    SetRoundTrip(table, m.missingImports);
    SetRoundTrip(table, m.ambiguousImports);
    SetRoundTrip(table, m.sideEffectImports);
    SetRoundTrip(table, m.mainGuardImports);
    TableRoundTrip(table, m.functionSafety);
    MutationsRoundTrip(table, m.mutationCandidates);
    PropertiesRoundTrip(table, m.propertyCandidates);
    SubclassesRoundTrip(table, m.subclassCandidates);
    DecodesFromParts(table.names, WireModuleOf(table, m), m);
  }

  // ----- The canonical record

  lemma SortKnown(table: Table, names: seq<string>)
    requires Known(table, names)
    ensures Known(table, Sort(names, StringLe))
  {
    var sorted := Sort(names, StringLe);
    SameElements(sorted, names);
    forall i | 0 <= i < |sorted|
      ensures sorted[i] in table.ids
    {
      assert sorted[i] in names;
    }
  }

  lemma InfoStaysKnown(table: Table, info: Info)
    requires KnownInfo(table, info)
    ensures KnownInfo(table, CanonicalInfo(info))
  {
    var sorted := Sort(info.params, ParamLe);
    SameElements(sorted, info.params);
    forall i | 0 <= i < |sorted|
      ensures sorted[i].name in table.ids
    {
      assert sorted[i] in info.params;
    }
  }

  lemma PropertiesStayKnown(table: Table, ps: seq<PropertyCandidate>)
    requires forall i :: 0 <= i < |ps| ==> ps[i].attribute in table.ids
    ensures
      var r := CanonicalProperties(ps);
      forall i :: 0 <= i < |r| ==> r[i].attribute in table.ids && r[i].range == 0
  {
    var sorted := Sort(ps, Merge.PropertyLe());
    SameElements(sorted, ps);
    forall i | 0 <= i < |sorted|
      ensures sorted[i].attribute in table.ids
    {
      assert sorted[i] in ps;
    }
  }

  lemma SubclassesStayKnown(table: Table, ss: seq<SubclassCandidate>)
    requires forall i :: 0 <= i < |ss| ==> ss[i].class_ in table.ids
    ensures
      var r := CanonicalSubclasses(ss);
      forall i :: 0 <= i < |r| ==> r[i].class_ in table.ids && r[i].range == 0
  {
    var sorted := Sort(ss, Merge.SubclassLe());
    SameElements(sorted, ss);
    forall i | 0 <= i < |sorted|
      ensures sorted[i].class_ in table.ids
    {
      assert sorted[i] in ss;
    }
  }

  lemma CandidateStaysKnown(table: Table, c: Resolution.Candidate)
    requires KnownCandidate(table, c)
    ensures KnownCandidate(table, CanonicalCandidate(c)) && CanonicalCandidate(c).range == 0
  {
    SortKnown(table, c.importedArgs.unsafeKeywordNames);
  }

  /** The canonical record names nothing new and has no positions. */
  lemma CanonicalIsPlain(table: Table, m: CachedModule)
    requires KnownModule(table, m)
    ensures KnownModule(table, Canonical(m)) && Plain(Canonical(m))
  {
    var c := Canonical(m);
    if m.safety.Ok? {
      SortKnown(table, m.safety.implicitImports);
    }
    forall n | n in c.functionSafety
      ensures KnownInfo(table, c.functionSafety[n])
    {
      InfoStaysKnown(table, m.functionSafety[n]);
    }
    forall i | 0 <= i < |c.mutationCandidates|
      ensures KnownCandidate(table, c.mutationCandidates[i]) && c.mutationCandidates[i].range == 0
    {
      CandidateStaysKnown(table, m.mutationCandidates[i]);
    }
    PropertiesStayKnown(table, m.propertyCandidates);
    SubclassesStayKnown(table, m.subclassCandidates);
  }

  /** Decoding an encoded record gives its canonical form, and two records are encoded alike exactly
      when those agree. */
  lemma EncodingIsCanonical(table: Table, m: CachedModule, n: CachedModule)
    requires table.Valid() && KnownModule(table, m) && KnownModule(table, n)
    ensures DecodeModule(table.names, WireModuleOf(table, Canonical(m))) == Some(Canonical(m))
    ensures WireModuleOf(table, Canonical(m)) == WireModuleOf(table, Canonical(n)) <==> Canonical(m) == Canonical(n)
  {
    CanonicalIsPlain(table, m);
    CanonicalIsPlain(table, n);
    ModuleRoundTrip(table, Canonical(m));
    ModuleRoundTrip(table, Canonical(n));
  }

  // ----- What the canonical record ignores

  /** The lists hold the same elements, apart from what `f` drops. */
  ghost predicate SameUpToOrder<A, B>(a: seq<A>, b: seq<A>, f: A -> B) {
    multiset(Map(a, f)) == multiset(Map(b, f))
  }

  lemma SortedAlike<A(!new), B(!new)>(a: seq<A>, b: seq<A>, f: A -> B, leA: (A, A) -> bool, leB: (B, B) -> bool)
    requires SameUpToOrder(a, b, f) && TotalPreorder(leB) && TiesAgree(Map(a, f), leB)
    requires Compatible(a, f, leA, leB) && Compatible(b, f, leA, leB)
    ensures Map(Sort(a, leA), f) == Map(Sort(b, leA), f)
  {
    MapSort(a, f, leA, leB);
    MapSort(b, f, leA, leB);
    SortForgetsOrder(Map(a, f), Map(b, f), leB);
  }

  lemma TextTies(a: string, b: string)
    ensures StringLe(a, b) && StringLe(b, a) ==> a == b
  {
    StringLeTotal(a, b);
  }

  lemma ErrorPair(x: SafetyError, y: SafetyError)
    ensures Merge.ErrorLe()(x, y) <==> Merge.ErrorLe()(NoErrorRange(x), NoErrorRange(y))
    ensures Merge.ErrorLe()(x, y) && Merge.ErrorLe()(y, x) ==> NoErrorRange(x) == NoErrorRange(y)
  {
    Merge.ErrorLeFields(x, y);
    Merge.ErrorLeFields(y, x);
    Merge.ErrorLeFields(NoErrorRange(x), NoErrorRange(y));
    TextTies(x.metadata, y.metadata);
  }

  lemma ErrorsCompatible(a: seq<SafetyError>)
    ensures Compatible(a, NoErrorRange, Merge.ErrorLe(), Merge.ErrorLe())
            && TiesAgree(Map(a, NoErrorRange), Merge.ErrorLe())
  {
    forall x, y | x in a && y in a
      ensures Merge.ErrorLe()(x, y) <==> Merge.ErrorLe()(NoErrorRange(x), NoErrorRange(y))
    {
      ErrorPair(x, y);
    }
    forall i, j | 0 <= i < |a| && 0 <= j < |a| && Merge.ErrorLe()(NoErrorRange(a[i]), NoErrorRange(a[j]))
      && Merge.ErrorLe()(NoErrorRange(a[j]), NoErrorRange(a[i]))
      ensures NoErrorRange(a[i]) == NoErrorRange(a[j])
    {
      ErrorPair(NoErrorRange(a[i]), NoErrorRange(a[j]));
    }
  }

  lemma ErrorsSortAlike(a: seq<SafetyError>, b: seq<SafetyError>)
    requires SameUpToOrder(a, b, NoErrorRange)
    ensures Map(Sort(a, Merge.ErrorLe()), NoErrorRange) == Map(Sort(b, Merge.ErrorLe()), NoErrorRange)
  {
    ErrorsCompatible(a);
    ErrorsCompatible(b);
    Merge.OrdersArePreorders();
    SortedAlike(a, b, NoErrorRange, Merge.ErrorLe(), Merge.ErrorLe());
  }

  lemma PropertyPair(x: PropertyCandidate, y: PropertyCandidate)
    ensures Merge.PropertyLe()(x, y) <==> Merge.PropertyLe()(NoPropertyRange(x), NoPropertyRange(y))
    ensures Merge.PropertyLe()(x, y) && Merge.PropertyLe()(y, x) ==> NoPropertyRange(x) == NoPropertyRange(y)
  {
    Merge.PropertyLeFields(x, y);
    Merge.PropertyLeFields(y, x);
    Merge.PropertyLeFields(NoPropertyRange(x), NoPropertyRange(y));
    TextTies(x.attribute, y.attribute);
  }

  lemma PropertiesCompatible(a: seq<PropertyCandidate>)
    ensures Compatible(a, NoPropertyRange, Merge.PropertyLe(), Merge.PropertyLe())
            && TiesAgree(Map(a, NoPropertyRange), Merge.PropertyLe())
  {
    forall x, y | x in a && y in a
      ensures Merge.PropertyLe()(x, y) <==> Merge.PropertyLe()(NoPropertyRange(x), NoPropertyRange(y))
    {
      PropertyPair(x, y);
    }
    forall i, j | 0 <= i < |a| && 0 <= j < |a| && Merge.PropertyLe()(NoPropertyRange(a[i]), NoPropertyRange(a[j]))
      && Merge.PropertyLe()(NoPropertyRange(a[j]), NoPropertyRange(a[i]))
      ensures NoPropertyRange(a[i]) == NoPropertyRange(a[j])
    {
      PropertyPair(NoPropertyRange(a[i]), NoPropertyRange(a[j]));
    }
  }

  lemma PropertiesSortAlike(a: seq<PropertyCandidate>, b: seq<PropertyCandidate>)
    requires SameUpToOrder(a, b, NoPropertyRange)
    ensures CanonicalProperties(a) == CanonicalProperties(b)
  {
    PropertiesCompatible(a);
    PropertiesCompatible(b);
    Merge.OrdersArePreorders();
    SortedAlike(a, b, NoPropertyRange, Merge.PropertyLe(), Merge.PropertyLe());
  }

  lemma SubclassPair(x: SubclassCandidate, y: SubclassCandidate)
    ensures Merge.SubclassLe()(x, y) <==> Merge.SubclassLe()(NoSubclassRange(x), NoSubclassRange(y))
    ensures Merge.SubclassLe()(x, y) && Merge.SubclassLe()(y, x) ==> NoSubclassRange(x) == NoSubclassRange(y)
  {
    Merge.SubclassLeFields(x, y);
    Merge.SubclassLeFields(y, x);
    Merge.SubclassLeFields(NoSubclassRange(x), NoSubclassRange(y));
    TextTies(x.class_, y.class_);
  }

  lemma SubclassesCompatible(a: seq<SubclassCandidate>)
    ensures Compatible(a, NoSubclassRange, Merge.SubclassLe(), Merge.SubclassLe())
            && TiesAgree(Map(a, NoSubclassRange), Merge.SubclassLe())
  {
    forall x, y | x in a && y in a
      ensures Merge.SubclassLe()(x, y) <==> Merge.SubclassLe()(NoSubclassRange(x), NoSubclassRange(y))
    {
      SubclassPair(x, y);
    }
    forall i, j | 0 <= i < |a| && 0 <= j < |a| && Merge.SubclassLe()(NoSubclassRange(a[i]), NoSubclassRange(a[j]))
      && Merge.SubclassLe()(NoSubclassRange(a[j]), NoSubclassRange(a[i]))
      ensures NoSubclassRange(a[i]) == NoSubclassRange(a[j])
    {
      SubclassPair(NoSubclassRange(a[i]), NoSubclassRange(a[j]));
    }
  }

  lemma SubclassesSortAlike(a: seq<SubclassCandidate>, b: seq<SubclassCandidate>)
    requires SameUpToOrder(a, b, NoSubclassRange)
    ensures CanonicalSubclasses(a) == CanonicalSubclasses(b)
  {
    SubclassesCompatible(a);
    SubclassesCompatible(b);
    Merge.OrdersArePreorders();
    SortedAlike(a, b, NoSubclassRange, Merge.SubclassLe(), Merge.SubclassLe());
  }

  // ----- Which records have the same canonical form

  /** The parameters are permuted. */
  ghost predicate SameInfo(a: Info, b: Info) {
    a.verdict == b.verdict && a.missing == b.missing && multiset(a.params) == multiset(b.params)
  }

  lemma DistinctNamesDoNotTie(params: seq<MutatedParam>)
    requires DistinctNames(params)
    ensures TiesAgree(params, ParamLe)
  {
    forall x, y | x in params && y in params && ParamLe(x, y) && ParamLe(y, x)
      ensures x == y
    {
      TextTies(x.name, y.name);
      var i :| 0 <= i < |params| && params[i] == x;
      var j :| 0 <= j < |params| && params[j] == y;
      assert i == j;
    }
  }

  lemma ParamLeIsPreorder()
    ensures TotalPreorder(ParamLe)
  {
    forall x: MutatedParam, y: MutatedParam
      ensures ParamLe(x, y) || ParamLe(y, x)
    {
      StringLeTotal(x.name, y.name);
    }
    forall x: MutatedParam, y: MutatedParam, z: MutatedParam | ParamLe(x, y) && ParamLe(y, z)
      ensures ParamLe(x, z)
    {
      StringLeTransitive(x.name, y.name, z.name);
    }
  }

  lemma InfosExactly(a: Info, b: Info)
    requires DistinctNames(a.params)
    ensures CanonicalInfo(a) == CanonicalInfo(b) <==> SameInfo(a, b)
  {
    if SameInfo(a, b) {
      ParamLeIsPreorder();
      DistinctNamesDoNotTie(a.params);
      SortForgetsOrder(a.params, b.params, ParamLe);
    }
    if CanonicalInfo(a) == CanonicalInfo(b) {
      assert multiset(a.params) == multiset(CanonicalInfo(a).params) == multiset(CanonicalInfo(b).params);
    }
  }

  lemma TablesExactly(a: map<string, Info>, b: map<string, Info>)
    requires DistinctIn(a)
    ensures CanonicalTable(a) == CanonicalTable(b) <==> a.Keys == b.Keys && forall n :: n in a ==> SameInfo(a[n], b[n])
  {
    var c, d := CanonicalTable(a), CanonicalTable(b);
    forall n | n in a && n in b
      ensures c[n] == d[n] <==> SameInfo(a[n], b[n])
    {
      InfosExactly(a[n], b[n]);
    }
    assert c.Keys == a.Keys && d.Keys == b.Keys;
    if c == d {
      assert forall n :: n in a ==> c[n] == d[n];
    }
  }

  /** Names in any order, and another position. */
  ghost predicate SameCandidate(a: Resolution.Candidate, b: Resolution.Candidate) {
    && a.callee == b.callee && a.site == b.site && a.argOffset == b.argOffset && a.fromMainGuard == b.fromMainGuard
    && a.importedArgs.(unsafeKeywordNames := []) == b.importedArgs.(unsafeKeywordNames := [])
    && multiset(a.importedArgs.unsafeKeywordNames) == multiset(b.importedArgs.unsafeKeywordNames)
  }

  lemma NamesExactly(a: seq<string>, b: seq<string>)
    ensures Sort(a, StringLe) == Sort(b, StringLe) <==> multiset(a) == multiset(b)
  {
    if multiset(a) == multiset(b) {
      NamesForgetOrder(a, b);
    }
  }

  lemma CandidatesExactly(a: Resolution.Candidate, b: Resolution.Candidate)
    ensures CanonicalCandidate(a) == CanonicalCandidate(b) <==> SameCandidate(a, b)
  {
    NamesExactly(a.importedArgs.unsafeKeywordNames, b.importedArgs.unsafeKeywordNames);
  }

  /** The mutation candidates agree one by one. */
  ghost predicate SameCandidates(a: seq<Resolution.Candidate>, b: seq<Resolution.Candidate>) {
    |a| == |b| && forall i :: 0 <= i < |a| ==> SameCandidate(a[i], b[i])
  }

  lemma CandidateListsExactly(a: seq<Resolution.Candidate>, b: seq<Resolution.Candidate>)
    ensures Map(a, CanonicalCandidate) == Map(b, CanonicalCandidate) <==> SameCandidates(a, b)
  {
    var c, d := Map(a, CanonicalCandidate), Map(b, CanonicalCandidate);
    forall i | 0 <= i < |a| && i < |b|
      ensures c[i] == d[i] <==> SameCandidate(a[i], b[i])
    {
      CandidatesExactly(a[i], b[i]);
    }
    if SameCandidates(a, b) {
      assert c == d;
    }
  }

  ghost predicate SameSafety(a: CachedSafety, b: CachedSafety) {
    match (a, b)
    case (Ok(errors, overrides, implicit), Ok(errors', overrides', implicit')) =>
      && SameUpToOrder(errors, errors', NoErrorRange) && SameUpToOrder(overrides, overrides', NoErrorRange)
      && multiset(implicit) == multiset(implicit')
    case (AnalysisError(_), AnalysisError(_)) => a == b
    case _ => false
  }

  lemma SortedSameUpToOrder<A(!new), B>(a: seq<A>, b: seq<A>, f: A -> B, le: (A, A) -> bool)
    requires Map(Sort(a, le), f) == Map(Sort(b, le), f)
    ensures SameUpToOrder(a, b, f)
  {
    MapPermute(Sort(a, le), a, f);
    MapPermute(Sort(b, le), b, f);
  }

  lemma ErrorListsExactly(a: seq<SafetyError>, b: seq<SafetyError>)
    ensures Map(Sort(a, Merge.ErrorLe()), NoErrorRange) == Map(Sort(b, Merge.ErrorLe()), NoErrorRange)
       <==> SameUpToOrder(a, b, NoErrorRange)
  {
    if SameUpToOrder(a, b, NoErrorRange) {
      ErrorsSortAlike(a, b);
    }
    if Map(Sort(a, Merge.ErrorLe()), NoErrorRange) == Map(Sort(b, Merge.ErrorLe()), NoErrorRange) {
      SortedSameUpToOrder(a, b, NoErrorRange, Merge.ErrorLe());
    }
  }

  lemma SafetiesExactly(a: CachedSafety, b: CachedSafety)
    ensures CanonicalSafety(a) == CanonicalSafety(b) <==> SameSafety(a, b)
  {
    if a.Ok? && b.Ok? {
      ErrorListsExactly(a.errors, b.errors);
      ErrorListsExactly(a.forceImportsEagerOverrides, b.forceImportsEagerOverrides);
      NamesExactly(a.implicitImports, b.implicitImports);
    }
  }

  lemma PropertiesExactly(a: seq<PropertyCandidate>, b: seq<PropertyCandidate>)
    ensures CanonicalProperties(a) == CanonicalProperties(b) <==> SameUpToOrder(a, b, NoPropertyRange)
  {
    if SameUpToOrder(a, b, NoPropertyRange) {
      PropertiesSortAlike(a, b);
    }
    if CanonicalProperties(a) == CanonicalProperties(b) {
      SortedSameUpToOrder(a, b, NoPropertyRange, Merge.PropertyLe());
    }
  }

  lemma SubclassesExactly(a: seq<SubclassCandidate>, b: seq<SubclassCandidate>)
    ensures CanonicalSubclasses(a) == CanonicalSubclasses(b) <==> SameUpToOrder(a, b, NoSubclassRange)
  {
    if SameUpToOrder(a, b, NoSubclassRange) {
      SubclassesSortAlike(a, b);
    }
    if CanonicalSubclasses(a) == CanonicalSubclasses(b) {
      SortedSameUpToOrder(a, b, NoSubclassRange, Merge.SubclassLe());
    }
  }

  /** The same facts about a module: lists whose order has no meaning are permuted, and positions differ. */
  ghost predicate SameModule(a: CachedModule, b: CachedModule) {
    && a.name == b.name && SameSafety(a.safety, b.safety) && a.imports == b.imports
    && a.missingImports == b.missingImports
    && a.ambiguousImports == b.ambiguousImports && a.sideEffectImports == b.sideEffectImports
    && a.mainGuardImports == b.mainGuardImports
    && a.functionSafety.Keys == b.functionSafety.Keys
    && (forall n :: n in a.functionSafety ==> SameInfo(a.functionSafety[n], b.functionSafety[n]))
    && SameCandidates(a.mutationCandidates, b.mutationCandidates)
    && SameUpToOrder(a.propertyCandidates, b.propertyCandidates, NoPropertyRange)
    && SameUpToOrder(a.subclassCandidates, b.subclassCandidates, NoSubclassRange)
  }

  /** Two records have the same canonical form exactly when they hold the same facts. */
  lemma CanonicalExactly(a: CachedModule, b: CachedModule)
    requires DistinctParams(a)
    ensures Canonical(a) == Canonical(b) <==> SameModule(a, b)
  {
    SafetiesExactly(a.safety, b.safety);
    TablesExactly(a.functionSafety, b.functionSafety);
    CandidateListsExactly(a.mutationCandidates, b.mutationCandidates);
    PropertiesExactly(a.propertyCandidates, b.propertyCandidates);
    SubclassesExactly(a.subclassCandidates, b.subclassCandidates);
    CanonicalParts(a, b);
  }

  lemma CanonicalParts(a: CachedModule, b: CachedModule)
    ensures Canonical(a) == Canonical(b) <==>
      && a.name == b.name && CanonicalSafety(a.safety) == CanonicalSafety(b.safety)
      && a.imports == b.imports && a.missingImports == b.missingImports
      && a.ambiguousImports == b.ambiguousImports && a.sideEffectImports == b.sideEffectImports
      && a.mainGuardImports == b.mainGuardImports
      && CanonicalTable(a.functionSafety) == CanonicalTable(b.functionSafety)
      && Map(a.mutationCandidates, CanonicalCandidate) == Map(b.mutationCandidates, CanonicalCandidate)
      && CanonicalProperties(a.propertyCandidates) == CanonicalProperties(b.propertyCandidates)
      && CanonicalSubclasses(a.subclassCandidates) == CanonicalSubclasses(b.subclassCandidates)
  {
  }

  // ----- Lists that agree up to order

  /** One list is a permutation of what the other is up to `same`. */
  ghost predicate Matches<T(!new)>(a: seq<T>, b: seq<T>, same: (T, T) -> bool) {
    exists c: seq<T> {:trigger multiset(c)} :: multiset(c) == multiset(b) && Pairwise(a, c, same)
  }

  ghost predicate Pairwise<T>(a: seq<T>, b: seq<T>, same: (T, T) -> bool) {
    |a| == |b| && forall i :: 0 <= i < |a| ==> same(a[i], b[i])
  }

  /** `b` can be put into an order in which `f` sees `a`. */
  lemma {:induction false} Rearranged<A(!new), B(!new)>(a: seq<A>, b: seq<A>, f: A -> B) returns (c: seq<A>)
    requires SameUpToOrder(a, b, f)
    ensures multiset(c) == multiset(b) && Map(c, f) == Map(a, f)
    decreases |a|
  {
    SameLength(Map(a, f), Map(b, f));
    if a == [] {
      return [];
    }
    var front, last := a[..|a| - 1], a[|a| - 1];
    assert a == front + [last];
    SameElements(Map(a, f), Map(b, f));
    assert Map(a, f)[|a| - 1] == f(last);
    assert f(last) in Map(b, f);
    var i :| 0 <= i < |b| && Map(b, f)[i] == f(last);
    var rest := b[..i] + b[i + 1..];
    MapLast(front, last, f);
    MapTakeOut(b, i, f);
    TakeOut(b, i);
    DropLast(Map(front, f), Map(rest, f), f(last));
    var c' := Rearranged(front, rest, f);
    c := c' + [b[i]];
    MapLast(c', b[i], f);
  }

  lemma PairwiseExactly<A(!new), B(!new)>(a: seq<A>, c: seq<A>, b: seq<A>, f: A -> B, same: (A, A) -> bool)
    requires forall x, y :: x in a && y in b ==> (same(x, y) <==> f(x) == f(y))
    requires multiset(c) == multiset(b)
    ensures Pairwise(a, c, same) <==> Map(a, f) == Map(c, f)
  {
    SameElements(c, b);
    if |a| == |c| {
      forall i | 0 <= i < |a|
        ensures same(a[i], c[i]) <==> Map(a, f)[i] == Map(c, f)[i]
      {
        assert a[i] in a && c[i] in b;
      }
    } else {
      assert |Map(a, f)| != |Map(c, f)|;
    }
  }

  lemma MatchesExactly<A(!new), B(!new)>(a: seq<A>, b: seq<A>, f: A -> B, same: (A, A) -> bool)
    requires forall x, y :: x in a && y in b ==> (same(x, y) <==> f(x) == f(y))
    ensures SameUpToOrder(a, b, f) <==> Matches(a, b, same)
  {
    if SameUpToOrder(a, b, f) {
      var c := Rearranged(a, b, f);
      PairwiseExactly(a, c, b, f, same);
    }
    if Matches(a, b, same) {
      var c: seq<A> :| multiset(c) == multiset(b) && Pairwise(a, c, same);
      PairwiseExactly(a, c, b, f, same);
      MapPermute(c, b, f);
    }
  }
}
