/** What a cache file says, told by its fields: the meaning of `read` and `WireModule::decode` of `src/cache_wire.rs`,
    also on files that no cache was written to. */
module Decoding {
  import opened Wrappers
  import opened Effects
  import opened Safety
  import opened Artifact
  import opened Codec
  import opened NameTable
  import opened WireModules
  import opened CacheWire
  import Resolution

  // ----- Names

  /** The id is one of the table, and stands for the name. */
  ghost predicate NameAt(names: seq<string>, id: nat, name: string) {
    id < |names| && name == names[id]
  }

  ghost predicate NamesAt(names: seq<string>, ids: seq<nat>, list: seq<string>) {
    |list| == |ids| && forall i :: 0 <= i < |ids| ==> NameAt(names, ids[i], list[i])
  }

  ghost predicate SetAt(names: seq<string>, ids: seq<nat>, all: set<string>) {
    && (forall i :: 0 <= i < |ids| ==> ids[i] < |names| && names[ids[i]] in all)
    && forall n :: n in all ==> exists i :: 0 <= i < |ids| && NameAt(names, ids[i], n)
  }

  /** A list is decoded exactly when all of it is, item by item. */
  lemma ListExactly<A, B>(s: seq<A>, f: A -> Option<B>, r: seq<B>)
    ensures TryMap(s, f) == Some(r) <==> |r| == |s| && forall i :: 0 <= i < |s| ==> f(s[i]) == Some(r[i])
  {
    var t := TryMap(s, f);
    if |r| == |s| && forall i :: 0 <= i < |s| ==> f(s[i]) == Some(r[i]) {
      assert t.Some?;
      assert t.value == r;
    }
  }

  lemma NamesExactly(names: seq<string>, ids: seq<nat>, list: seq<string>)
    ensures DecodeNames(names, ids) == Some(list) <==> NamesAt(names, ids, list)
  {
    ListExactly(ids, id => DecodeName(names, id), list);
  }

  lemma SetExactly(names: seq<string>, ids: seq<nat>, all: set<string>)
    ensures DecodeSet(names, ids) == Some(all) <==> SetAt(names, ids, all)
  {
    var decoded := DecodeNames(names, ids);
    if decoded.Some? {
      NamesExactly(names, ids, decoded.value);
      var held := set n | n in decoded.value;
      assert forall i :: 0 <= i < |ids| ==> decoded.value[i] == names[ids[i]] && decoded.value[i] in held;
      if SetAt(names, ids, all) {
        assert held == all;
      }
    }
  }

  // ----- The parts of a record

  ghost predicate ErrorsAt(w: seq<WireError>, errors: seq<SafetyError>) {
    |errors| == |w| && forall i :: 0 <= i < |w| ==>
      && errors[i].kind == w[i].kind && errors[i].metadata == w[i].metadata && errors[i].range == 0
      && errors[i].parameterizedDecorator == w[i].parameterizedDecorator
      && errors[i].fromMainGuard == w[i].fromMainGuard
  }

  lemma ErrorsExactly(w: seq<WireError>, errors: seq<SafetyError>)
    ensures Map(w, DecodeError) == errors <==> ErrorsAt(w, errors)
  {
  }

  ghost predicate SafetyAt(names: seq<string>, w: WireSafety, s: CachedSafety) {
    match w
    case WireOk(errors, overrides, implicit) =>
      s.Ok? && ErrorsAt(errors, s.errors) && ErrorsAt(overrides, s.forceImportsEagerOverrides)
      && NamesAt(names, implicit, s.implicitImports)
    case WireFailed(message) => s.AnalysisError? && s.message == message
  }

  lemma SafetyExactly(names: seq<string>, w: WireSafety, s: CachedSafety)
    ensures DecodeSafety(names, w) == Some(s) <==> SafetyAt(names, w, s)
  {
    if w.WireOk? && s.Ok? {
      ErrorsExactly(w.errors, s.errors);
      ErrorsExactly(w.forceImportsEagerOverrides, s.forceImportsEagerOverrides);
      NamesExactly(names, w.implicitImports, s.implicitImports);
    }
  }

  ghost predicate ParamsAt(names: seq<string>, w: seq<WireParam>, params: seq<MutatedParam>) {
    |params| == |w| && forall i :: 0 <= i < |w| ==>
      NameAt(names, w[i].name, params[i].name) && params[i].position == w[i].position
  }

  ghost predicate InfoAt(names: seq<string>, w: WireInfo, info: Info) {
    info.verdict == w.verdict && SetAt(names, w.missing, info.missing) && ParamsAt(names, w.params, info.params)
  }

  lemma ParamsExactly(names: seq<string>, w: seq<WireParam>, params: seq<MutatedParam>)
    ensures TryMap(w, (p: WireParam) => DecodeParam(names, p)) == Some(params) <==> ParamsAt(names, w, params)
  {
    ListExactly(w, (p: WireParam) => DecodeParam(names, p), params);
  }

  lemma InfoExactly(names: seq<string>, w: WireInfo, info: Info)
    ensures DecodeInfo(names, w) == Some(info) <==> InfoAt(names, w, info)
  {
    SetExactly(names, w.missing, info.missing);
    ParamsExactly(names, w.params, info.params);
  }

  ghost predicate Readable(names: seq<string>, w: WireInfo) {
    exists info :: InfoAt(names, w, info)
  }

  /** Every entry can be read; of entries for the same function the last counts. */
  ghost predicate TableAt(names: seq<string>, w: seq<(string, WireInfo)>, table: map<string, Info>) {
    && (forall k :: 0 <= k < |w| ==> w[k].0 in table && Readable(names, w[k].1))
    && forall n :: n in table ==> exists k :: LastEntry(w, k, n) && InfoAt(names, w[k].1, table[n])
  }

  ghost predicate LastEntry<V>(w: seq<(string, V)>, k: int, name: string) {
    0 <= k < |w| && w[k].0 == name && forall j :: k < j < |w| ==> w[j].0 != name
  }

  lemma {:induction false} LastCounts<V>(pairs: seq<(string, V)>, name: string)
    ensures name in ToMap(pairs) <==> exists k :: LastEntry(pairs, k, name)
    ensures forall k :: LastEntry(pairs, k, name) ==> name in ToMap(pairs) && ToMap(pairs)[name] == pairs[k].1
  {
    if pairs != [] {
      var last := |pairs| - 1;
      var front := pairs[..last];
      LastCounts(front, name);
      if pairs[last].0 == name {
        assert LastEntry(pairs, last, name);
      } else {
        forall k
          ensures LastEntry(pairs, k, name) <==> LastEntry(front, k, name)
        {
        }
      }
    }
  }

  lemma {:induction false} SomeIsLast<V>(w: seq<(string, V)>, i: nat) returns (k: nat)
    requires i < |w|
    ensures LastEntry(w, k, w[i].0)
  {
    var last := |w| - 1;
    if w[last].0 == w[i].0 {
      k := last;
    } else {
      k := SomeIsLast(w[..last], i);
    }
  }

  lemma EntriesExactly(names: seq<string>, w: seq<(string, WireInfo)>, pairs: seq<(string, Info)>)
    ensures TryMap(w, (e: (string, WireInfo)) => DecodeEntry(names, e)) == Some(pairs) <==>
      PairsAt(names, w, pairs)
  {
    var f := (e: (string, WireInfo)) => DecodeEntry(names, e);
    ListExactly(w, f, pairs);
    forall k | 0 <= k < |w| && k < |pairs|
      ensures f(w[k]) == Some(pairs[k]) <==> pairs[k].0 == w[k].0 && InfoAt(names, w[k].1, pairs[k].1)
    {
      InfoExactly(names, w[k].1, pairs[k].1);
    }
  }

  lemma EntryDecodes(names: seq<string>, e: (string, WireInfo))
    ensures DecodeEntry(names, e).Some? <==> Readable(names, e.1)
  {
    var info := DecodeInfo(names, e.1);
    if info.Some? {
      InfoExactly(names, e.1, info.value);
    }
    if i :| InfoAt(names, e.1, i) {
      InfoExactly(names, e.1, i);
    }
  }

  lemma TableDecodes(names: seq<string>, w: seq<(string, WireInfo)>)
    ensures DecodeTable(names, w).Some? <==> forall k :: 0 <= k < |w| ==> Readable(names, w[k].1)
  {
    forall k | 0 <= k < |w|
      ensures DecodeEntry(names, w[k]).Some? <==> Readable(names, w[k].1)
    {
      EntryDecodes(names, w[k]);
    }
  }

  ghost predicate PairsAt(names: seq<string>, w: seq<(string, WireInfo)>, pairs: seq<(string, Info)>) {
    |pairs| == |w| && forall k :: 0 <= k < |w| ==> pairs[k].0 == w[k].0 && InfoAt(names, w[k].1, pairs[k].1)
  }

  lemma LastOfPairs(names: seq<string>, w: seq<(string, WireInfo)>, pairs: seq<(string, Info)>, n: string)
    requires PairsAt(names, w, pairs) && n in ToMap(pairs)
    ensures exists k :: LastEntry(w, k, n) && InfoAt(names, w[k].1, ToMap(pairs)[n])
  {
    LastCounts(pairs, n);
    var k :| LastEntry(pairs, k, n);
    assert LastEntry(w, k, n) && InfoAt(names, w[k].1, pairs[k].1);
  }

  lemma PairIsHeld(names: seq<string>, w: seq<(string, WireInfo)>, pairs: seq<(string, Info)>, k: nat)
    requires PairsAt(names, w, pairs) && k < |w|
    ensures w[k].0 in ToMap(pairs) && Readable(names, w[k].1)
  {
    var last := SomeIsLast(pairs, k);
    LastCounts(pairs, pairs[k].0);
    assert InfoAt(names, w[k].1, pairs[k].1);
  }

  lemma DecodedTable(names: seq<string>, w: seq<(string, WireInfo)>, pairs: seq<(string, Info)>)
    requires PairsAt(names, w, pairs)
    ensures TableAt(names, w, ToMap(pairs))
  {
    forall k | 0 <= k < |w|
      ensures w[k].0 in ToMap(pairs) && Readable(names, w[k].1)
    {
      PairIsHeld(names, w, pairs, k);
    }
    forall n | n in ToMap(pairs)
      ensures exists k :: LastEntry(w, k, n) && InfoAt(names, w[k].1, ToMap(pairs)[n])
    {
      LastOfPairs(names, w, pairs, n);
    }
  }

  lemma InfosAgree(names: seq<string>, w: WireInfo, a: Info, b: Info)
    requires InfoAt(names, w, a) && InfoAt(names, w, b)
    ensures a == b
  {
    InfoExactly(names, w, a);
    InfoExactly(names, w, b);
  }

  lemma LastIsOne<V>(w: seq<(string, V)>, k: int, j: int, name: string)
    requires LastEntry(w, k, name) && LastEntry(w, j, name)
    ensures k == j
  {
  }

  lemma HeldByBoth(names: seq<string>, w: seq<(string, WireInfo)>, a: map<string, Info>, b: map<string, Info>,
                   n: string)
    requires TableAt(names, w, a) && TableAt(names, w, b) && n in a
    ensures n in b && a[n] == b[n]
  {
    var k :| LastEntry(w, k, n) && InfoAt(names, w[k].1, a[n]);
    assert w[k].0 in b;
    var j :| LastEntry(w, j, n) && InfoAt(names, w[j].1, b[n]);
    LastIsOne(w, k, j, n);
    InfosAgree(names, w[k].1, a[n], b[n]);
  }

  ghost predicate Within(a: map<string, Info>, b: map<string, Info>) {
    forall n :: n in a ==> n in b && a[n] == b[n]
  }

  lemma WithinBoth(a: map<string, Info>, b: map<string, Info>)
    requires Within(a, b) && Within(b, a)
    ensures a == b
  {
    assert a.Keys == b.Keys;
  }

  lemma TableWithin(names: seq<string>, w: seq<(string, WireInfo)>, a: map<string, Info>, b: map<string, Info>)
    requires TableAt(names, w, a) && TableAt(names, w, b)
    ensures Within(a, b)
  {
    forall n | n in a
      ensures n in b && a[n] == b[n]
    {
      HeldByBoth(names, w, a, b, n);
    }
  }

  lemma TablesAgree(names: seq<string>, w: seq<(string, WireInfo)>, a: map<string, Info>, b: map<string, Info>)
    requires TableAt(names, w, a) && TableAt(names, w, b)
    ensures a == b
  {
    TableWithin(names, w, a, b);
    TableWithin(names, w, b, a);
    WithinBoth(a, b);
  }

  lemma TableExactly(names: seq<string>, w: seq<(string, WireInfo)>, table: map<string, Info>)
    ensures DecodeTable(names, w) == Some(table) <==> TableAt(names, w, table)
  {
    TableDecodes(names, w);
    var decoded := DecodeTable(names, w);
    if decoded.Some? {
      var pairs := TryMap(w, (e: (string, WireInfo)) => DecodeEntry(names, e)).value;
      EntriesExactly(names, w, pairs);
      DecodedTable(names, w, pairs);
      if TableAt(names, w, table) {
        TablesAgree(names, w, decoded.value, table);
      }
    }
  }

  ghost predicate SiteAt(names: seq<string>, w: WireSite, site: Resolution.Site) {
    match w
    case WireModuleScope(call) => site.ModuleScope? && NameAt(names, call, site.call)
    case WireFunction(name) => site.Function? && NameAt(names, name, site.name)
  }

  ghost predicate CandidateAt(names: seq<string>, w: WireCandidate, c: Resolution.Candidate) {
    && NameAt(names, w.callee, c.callee) && SiteAt(names, w.site, c.site)
    && c.argOffset == w.argOffset && c.range == 0 && c.fromMainGuard == w.fromMainGuard
    && c.importedArgs.unsafeArgIndices == w.importedArgs.unsafeArgIndices
    && NamesAt(names, w.importedArgs.unsafeKeywordNames, c.importedArgs.unsafeKeywordNames)
    && c.importedArgs.hasUnsafeKwargsExpansion == w.importedArgs.hasUnsafeKwargsExpansion
    && c.importedArgs.unsafeArgsExpansionMin == w.importedArgs.unsafeArgsExpansionMin
  }

  lemma CandidateExactly(names: seq<string>, w: WireCandidate, c: Resolution.Candidate)
    ensures DecodeCandidate(names, w) == Some(c) <==> CandidateAt(names, w, c)
  {
    NamesExactly(names, w.importedArgs.unsafeKeywordNames, c.importedArgs.unsafeKeywordNames);
  }

  ghost predicate CandidatesAt(names: seq<string>, w: seq<WireCandidate>, cs: seq<Resolution.Candidate>) {
    |cs| == |w| && forall i :: 0 <= i < |w| ==> CandidateAt(names, w[i], cs[i])
  }

  lemma CandidatesExactly(names: seq<string>, w: seq<WireCandidate>, cs: seq<Resolution.Candidate>)
    ensures TryMap(w, (c: WireCandidate) => DecodeCandidate(names, c)) == Some(cs) <==> CandidatesAt(names, w, cs)
  {
    ListExactly(w, (c: WireCandidate) => DecodeCandidate(names, c), cs);
    forall i | 0 <= i < |w| && i < |cs|
      ensures DecodeCandidate(names, w[i]) == Some(cs[i]) <==> CandidateAt(names, w[i], cs[i])
    {
      CandidateExactly(names, w[i], cs[i]);
    }
  }

  ghost predicate PropertiesAt(names: seq<string>, w: seq<WireProperty>, ps: seq<PropertyCandidate>) {
    |ps| == |w| && forall i :: 0 <= i < |w| ==>
      NameAt(names, w[i].attribute, ps[i].attribute) && ps[i].range == 0 && ps[i].fromMainGuard == w[i].fromMainGuard
  }

  lemma PropertiesExactly(names: seq<string>, w: seq<WireProperty>, ps: seq<PropertyCandidate>)
    ensures TryMap(w, (p: WireProperty) => DecodeProperty(names, p)) == Some(ps) <==> PropertiesAt(names, w, ps)
  {
    ListExactly(w, (p: WireProperty) => DecodeProperty(names, p), ps);
  }

  ghost predicate SubclassesAt(names: seq<string>, w: seq<WireSubclass>, ss: seq<SubclassCandidate>) {
    |ss| == |w| && forall i :: 0 <= i < |w| ==>
      NameAt(names, w[i].class_, ss[i].class_) && ss[i].range == 0 && ss[i].fromMainGuard == w[i].fromMainGuard
  }

  lemma SubclassesExactly(names: seq<string>, w: seq<WireSubclass>, ss: seq<SubclassCandidate>)
    ensures TryMap(w, (s: WireSubclass) => DecodeSubclass(names, s)) == Some(ss) <==> SubclassesAt(names, w, ss)
  {
    ListExactly(w, (s: WireSubclass) => DecodeSubclass(names, s), ss);
  }

  // ----- A record

  ghost predicate ModuleAt(names: seq<string>, w: WireModule, m: CachedModule) {
    && NameAt(names, w.name, m.name) && SafetyAt(names, w.safety, m.safety)
    && SetAt(names, w.imports, m.imports) && SetAt(names, w.missingImports, m.missingImports)
    && SetAt(names, w.ambiguousImports, m.ambiguousImports) && SetAt(names, w.sideEffectImports, m.sideEffectImports)
    && SetAt(names, w.mainGuardImports, m.mainGuardImports) && TableAt(names, w.functionSafety, m.functionSafety)
    && CandidatesAt(names, w.mutationCandidates, m.mutationCandidates)
    && PropertiesAt(names, w.propertyCandidates, m.propertyCandidates)
    && SubclassesAt(names, w.subclassCandidates, m.subclassCandidates)
  }

  /** A record is read exactly when all its ids are in the table, and says what it carries. */
  lemma ModuleExactly(names: seq<string>, w: WireModule, m: CachedModule)
    ensures DecodeModule(names, w) == Some(m) <==> ModuleAt(names, w, m)
  {
    SafetyExactly(names, w.safety, m.safety);
    SetExactly(names, w.imports, m.imports);
    SetExactly(names, w.missingImports, m.missingImports);
    SetExactly(names, w.ambiguousImports, m.ambiguousImports);
    SetExactly(names, w.sideEffectImports, m.sideEffectImports);
    SetExactly(names, w.mainGuardImports, m.mainGuardImports);
    TableExactly(names, w.functionSafety, m.functionSafety);
    CandidatesExactly(names, w.mutationCandidates, m.mutationCandidates);
    PropertiesExactly(names, w.propertyCandidates, m.propertyCandidates);
    SubclassesExactly(names, w.subclassCandidates, m.subclassCandidates);
  }

  // ----- A file

  ghost predicate ReExportsAt(names: seq<string>, w: seq<WireReExport>, rs: seq<ReExport>) {
    |rs| == |w| && forall i :: 0 <= i < |w| ==>
      && NameAt(names, w[i].exportedModule, rs[i].exportedModule) && rs[i].exportedAttr == w[i].exportedAttr
      && NameAt(names, w[i].importedModule, rs[i].importedModule) && rs[i].importedAttr == w[i].importedAttr
  }

  lemma ReExportsExactly(names: seq<string>, w: seq<WireReExport>, rs: seq<ReExport>)
    ensures TryMap(w, (r: WireReExport) => DecodeReExport(names, r)) == Some(rs) <==> ReExportsAt(names, w, rs)
  {
    ListExactly(w, (r: WireReExport) => DecodeReExport(names, r), rs);
  }

  ghost predicate ReturnTypesAt(names: seq<string>, w: seq<WireReturnType>, rs: seq<ReturnType>) {
    |rs| == |w| && forall i :: 0 <= i < |w| ==>
      NameAt(names, w[i].function_, rs[i].function_) && NameAt(names, w[i].class_, rs[i].class_)
  }

  lemma ReturnTypesExactly(names: seq<string>, w: seq<WireReturnType>, rs: seq<ReturnType>)
    ensures TryMap(w, (r: WireReturnType) => DecodeReturnType(names, r)) == Some(rs) <==> ReturnTypesAt(names, w, rs)
  {
    ListExactly(w, (r: WireReturnType) => DecodeReturnType(names, r), rs);
  }

  ghost predicate BasesAt(names: seq<string>, w: seq<WireBases>, bs: seq<ClassBases>) {
    |bs| == |w| && forall i :: 0 <= i < |w| ==>
      NameAt(names, w[i].class_, bs[i].class_) && NamesAt(names, w[i].bases, bs[i].bases)
  }

  lemma BasesExactly(names: seq<string>, w: seq<WireBases>, bs: seq<ClassBases>)
    ensures TryMap(w, (b: WireBases) => DecodeBases(names, b)) == Some(bs) <==> BasesAt(names, w, bs)
  {
    ListExactly(w, (b: WireBases) => DecodeBases(names, b), bs);
    forall i | 0 <= i < |w| && i < |bs|
      ensures DecodeNames(names, w[i].bases) == Some(bs[i].bases) <==> NamesAt(names, w[i].bases, bs[i].bases)
    {
      NamesExactly(names, w[i].bases, bs[i].bases);
    }
  }

  ghost predicate CalleesAt(names: seq<string>, w: WireCallees, c: ConstructorCallees) {
    && NameAt(names, w.class_, c.class_) && c.mask == w.mask && NamesAt(names, w.extra, c.extra)
    && (w.metaclass.None? <==> c.metaclass.None?)
    && (w.metaclass.Some? && c.metaclass.Some? ==> NameAt(names, w.metaclass.value, c.metaclass.value))
  }

  lemma CalleesExactly(names: seq<string>, w: WireCallees, c: ConstructorCallees)
    ensures DecodeCallees(names, w) == Some(c) <==> CalleesAt(names, w, c)
  {
    NamesExactly(names, w.extra, c.extra);
  }

  ghost predicate CalleeListAt(names: seq<string>, w: seq<WireCallees>, cs: seq<ConstructorCallees>) {
    |cs| == |w| && forall i :: 0 <= i < |w| ==> CalleesAt(names, w[i], cs[i])
  }

  lemma CalleeListExactly(names: seq<string>, w: seq<WireCallees>, cs: seq<ConstructorCallees>)
    ensures TryMap(w, (c: WireCallees) => DecodeCallees(names, c)) == Some(cs) <==> CalleeListAt(names, w, cs)
  {
    ListExactly(w, (c: WireCallees) => DecodeCallees(names, c), cs);
    forall i | 0 <= i < |w| && i < |cs|
      ensures DecodeCallees(names, w[i]) == Some(cs[i]) <==> CalleesAt(names, w[i], cs[i])
    {
      CalleesExactly(names, w[i], cs[i]);
    }
  }

  ghost predicate OwnersAt(names: seq<string>, w: seq<WireProperties>, ps: seq<ClassProperties>) {
    |ps| == |w| && forall i :: 0 <= i < |w| ==>
      NameAt(names, w[i].class_, ps[i].class_) && ps[i].properties == w[i].properties
  }

  lemma OwnersExactly(names: seq<string>, w: seq<WireProperties>, ps: seq<ClassProperties>)
    ensures TryMap(w, (p: WireProperties) => DecodeProperties(names, p)) == Some(ps) <==> OwnersAt(names, w, ps)
  {
    ListExactly(w, (p: WireProperties) => DecodeProperties(names, p), ps);
  }

  ghost predicate RecordsAt(s: Serializer, names: seq<string>, blobs: seq<seq<byte>>, ms: seq<CachedModule>) {
    |ms| == |blobs| && forall i :: 0 <= i < |blobs| ==>
      s.recordBack(blobs[i]).Some? && ModuleAt(names, s.recordBack(blobs[i]).value, ms[i])
  }

  lemma RecordsExactly(s: Serializer, names: seq<string>, blobs: seq<seq<byte>>, ms: seq<CachedModule>)
    ensures TryMap(blobs, (b: seq<byte>) => DecodeBlob(s, names, b)) == Some(ms) <==> RecordsAt(s, names, blobs, ms)
  {
    ListExactly(blobs, (b: seq<byte>) => DecodeBlob(s, names, b), ms);
    forall i | 0 <= i < |blobs| && i < |ms| && s.recordBack(blobs[i]).Some?
      ensures DecodeBlob(s, names, blobs[i]) == Some(ms[i]) <==> ModuleAt(names, s.recordBack(blobs[i]).value, ms[i])
    {
      ModuleExactly(names, s.recordBack(blobs[i]).value, ms[i]);
    }
  }

  /** What a header and the records behind it say. */
  ghost predicate FileAt(s: Serializer, h: Header, blobs: seq<seq<byte>>, c: Cache) {
    && RecordsAt(s, h.names, blobs, c.modules)
    && ReExportsAt(h.names, h.exports, c.reExports) && ReturnTypesAt(h.names, h.returnTypes, c.returnTypes)
    && BasesAt(h.names, h.classBases, c.classBases) && CalleeListAt(h.names, h.constructorCallees, c.constructorCallees)
    && OwnersAt(h.names, h.classProperties, c.classProperties)
  }

  /** A file is decoded exactly when its header and records can be read and all ids are in its table; lists keep the
      order they have in the file. */
  lemma FileExactly(s: Serializer, header: seq<byte>, blobs: seq<seq<byte>>, c: Cache)
    ensures DecodeFile(s, header, blobs) == Some(c) <==>
      s.headerBack(header).Some? && FileAt(s, s.headerBack(header).value, blobs, c)
  {
    if s.headerBack(header).Some? {
      var h := s.headerBack(header).value;
      RecordsExactly(s, h.names, blobs, c.modules);
      ReExportsExactly(h.names, h.exports, c.reExports);
      ReturnTypesExactly(h.names, h.returnTypes, c.returnTypes);
      BasesExactly(h.names, h.classBases, c.classBases);
      CalleeListExactly(h.names, h.constructorCallees, c.constructorCallees);
      OwnersExactly(h.names, h.classProperties, c.classProperties);
    }
  }
}
