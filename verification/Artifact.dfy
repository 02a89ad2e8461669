/** What the map phase records about a library: the structures of `src/cache/artifact.rs`. */
module Artifact {
  import opened Safety
  import Resolution

  datatype SafetyError = SafetyError(kind: nat, metadata: string, range: nat, parameterizedDecorator: bool,
                                     fromMainGuard: bool)

  datatype CachedSafety =
    | Ok(errors: seq<SafetyError>, forceImportsEagerOverrides: seq<SafetyError>, implicitImports: seq<string>)
    | AnalysisError(message: string)

  datatype PropertyCandidate = PropertyCandidate(attribute: string, range: nat, fromMainGuard: bool)

  datatype SubclassCandidate = SubclassCandidate(class_: string, range: nat, fromMainGuard: bool)

  datatype CachedModule = CachedModule(
    name: string,
    safety: CachedSafety,
    imports: set<string>,
    missingImports: set<string>,
    ambiguousImports: set<string>,
    sideEffectImports: set<string>,
    functionSafety: map<string, Info>,
    mutationCandidates: seq<Resolution.Candidate>,
    propertyCandidates: seq<PropertyCandidate>,
    subclassCandidates: seq<SubclassCandidate>,
    mainGuardImports: set<string>)

  /** `exportedModule.exportedAttr` is `importedModule.importedAttr`. */
  datatype ReExport = ReExport(exportedModule: string, exportedAttr: string, importedModule: string,
                               importedAttr: string)

  ghost predicate DistinctIn(table: map<string, Info>) {
    forall n :: n in table ==> DistinctNames(table[n].params)
  }

  /** No function of the record lists a mutated parameter twice. */
  ghost predicate DistinctParams(m: CachedModule) {
    DistinctIn(m.functionSafety)
  }
}
