# Verification of the Lifeguard reduce step

Lifeguard analyses Python libraries one at a time and then reduces what it
recorded about each of them to verdicts about a whole program. The reduce step
must not depend on the order in which libraries, modules, candidates or hash
entries come, on how work is scheduled, or on the indices that make it fast.
This project models the algorithms that carry that and proves it.

- **Call graphs** (`CsrGraph`, `Tarjan`, `Levels`, `DependencyLevels`,
  `Digraph`): a graph in two flat arrays, cycle detection with explicit stacks,
  dependency levels, and the composition of both passes. The node count is
  below the sentinel value and the edge count fits 32 bits.
- **Names and imports** (`Names`, `Imports`): parents of dotted names, the
  longest module prefix, the packages an import runs first, the modules an
  analysis reaches.
- **Arguments** (`Effects`): which arguments of a call carry imported values,
  against the binding rules of The Python Language Reference, section 6.3.4.
- **Verdicts** (`Safety`, `Resolution`, `Promotion`, `Schedules`,
  `ScheduleFree`, `Induction`, `PromotionRounds`, `ProgramResolution`,
  `CandidatesPlainly`, `PromotionPlainly`, `SafetyResolver`):
  mutation candidates in two phases on frozen state, promotion of functions
  whose missing callees turn out not to block, and the lookups behind them. The
  final table is a function of the start table; which functions are promoted
  does not depend on rounds either, but a verdict taken through an unqualified
  name can (`Schedules.RoundsDecideEarly`). `ScheduleFree.SchedulesAgreeExactly`
  tells from the start table exactly when it does.
- **Merging** (`Artifact`, `ReExports`, `Merge`, `Runs`, `Sorting`, `Sequences`): verdicts
  through re-exports with a worklist, and records of the same module merged in
  place.
- **Star imports** (`Exports`): rebinding by rank until nothing changes, after
  The Python Language Reference, section 7.11.
- **Resolution order** (`C3`, `Mro`, `Inheritance`): the C3 merge and
  linearization with memory and a cycle guard, after "The Python 2.3 Method
  Resolution Order", section "The C3 Method Resolution Order".
- **Files** (`Framing`, `Codec`, `NameTable`, `WireModules`, `CacheWire`,
  `WireOrder`, `Decoding`): a sorted name table, canonical encoding, framing
  with bounds checks, and reading back.

Algorithms that change arrays or fields are methods over arrays, sequences and
classes, proved against specification functions and predicates; what the
specifications mean is proved as lemmas. `dafny verify dfyconfig.toml` checks
everything.

The encoder keeps mutation candidates in order because, its comment says
(`src/cache_wire.rs:531-532`), applying them observes verdict writes of earlier
candidates. The code that applies them decides on frozen states
(`src/resolution.rs:312-353`), and `Resolution.OrderFree` proves that their
order does not matter. The model follows the code in both places: the encoding
keeps the order, and the verdicts do not depend on it.

## Model

| member | source | states |
|---|---|---|
| `CsrGraph.CsrGraph.FromEdges` | src/csr_graph.rs:31-51 | the counting sort is stable and complete: the neighbors of each node are exactly the targets of its edges, in input order, duplicates and self-edges included, and the blocks tile the adjacency array |
| `CsrGraph.Distribute` | src/csr_graph.rs:39-48 | with the cursors at the block starts, every target lands in the block of its source, behind the earlier ones |
| `CsrGraph.LayoutFacts` | src/csr_graph.rs:32-38 | the prefix sums give consecutive blocks as long as the nodes have edges, and cover all edges |
| `CsrGraph.NodesInCycles` | src/csr_graph.rs:69-148 | the flag of a node is true exactly when a non-empty path leads from the node back to itself; every search ends and every node is visited |
| `CsrGraph.SearchFrom` | src/csr_graph.rs:89-145 | one search from an unvisited node, on explicit stacks, ends with an empty work stack, keeps the invariant of the algorithm and the meaning of the flags |
| `CsrGraph.PopComponent` | src/csr_graph.rs:121-137 | popping the stack down to a root takes exactly the nodes numbered from the root on, and flags them only if there is more than one |
| `Tarjan.TurnInv` | src/csr_graph.rs:100-144 | every turn of the work loop keeps the invariant: numbering, the two stacks, paths up and down the work stack, and both bounds on the low links |
| `Tarjan.TurnAdvances` | src/csr_graph.rs:100-144 | every turn reduces what is left: edges not yet scanned and frames not yet left |
| `Tarjan.TurnAnswers` | src/csr_graph.rs:100-144 | the flags stay right for every component that was popped |
| `Tarjan.ComponentIsStronglyConnected` | src/csr_graph.rs:121-137 | at a root, the nodes above it on the stack are exactly those that reach it and that it reaches |
| `Tarjan.ComponentCycles` | src/csr_graph.rs:116-136 | the members of a popped component lie on a cycle exactly when there are at least two of them or the one has an edge to itself |
| `Levels.TurnInv` | src/csr_graph.rs:185-210 | every turn of the leveling loop keeps the invariant that relates levels, the expanding flags and the work stack |
| `Levels.SettledCyclesOrderEdges` | src/csr_graph.rs:150-161 | when every node on a cycle is settled, each edge between unsettled nodes leads to a strictly lower level |
| `Levels.LevelIsLongestPath` | src/csr_graph.rs:199-207 | on an acyclic unsettled part the level of a node is exactly the length of the longest path from it |
| `Levels.GroupsPartition` | src/csr_graph.rs:213-222 | every unsettled node is in exactly one level, no level is empty, settled nodes are in none |
| `DependencyLevels.LevelNodes` | src/csr_graph.rs:169-211 | the array of levels is a leveling: unsettled nodes get one, and each edge steps down unless its target reaches back through unsettled nodes |
| `DependencyLevels.Deepest` | src/csr_graph.rs:213-215 | the deepest level is the maximum over leveled nodes, and there is none only if no node is leveled |
| `DependencyLevels.Group` | src/csr_graph.rs:216-222 | level l lists, in node order, exactly the nodes of level l |
| `DependencyLevels.Levels` | src/csr_graph.rs:162-223 | the returned groups are the groups of a leveling |
| `DependencyLevels.AnalysisOrder` | src/project/call_graph.rs:139-195 | the two passes together: after settling the nodes in cycles, the remaining nodes come in levels in which every callee is strictly earlier |
| `Names.ParentIter.Next` | src/traits.rs:112-126 | the iterator yields exactly the proper dotted prefixes of a name, longest first |
| `Names.IsAncestorOf` | src/traits.rs:176-181 | a package is an ancestor exactly of the names it is a proper dotted prefix of |
| `Names.EnclosingModule` | src/names.rs:16-24 | the split is at the longest proper dotted prefix that is a module, and there is none only if no such prefix exists |
| `Names.EnclosingModuleStr` | src/names.rs:33-46 | probing string slices finds the same split as walking the parents |
| `Names.SplitUnique` | src/names.rs:11-24 | a name has only one such split |
| `Imports.WalkParents` | src/imports.rs:276-286 | stopping at the first parent seen before loses nothing, because whoever was seen was seen with all its parents |
| `Imports.ParentsOfTargets` | src/imports.rs:273-288 | the parents of all targets that are modules of the graph and neither the importer nor above it, each once |
| `Imports.ImplicitParentImports` | src/imports.rs:267-292 | per importer exactly those packages, without duplicates, and no entry for an importer without any |
| `Imports.ResolveToKnownModule` | src/imports.rs:314-324 | a name resolves to itself if known, else to its longest known parent, else to nothing |
| `Imports.CollectImports` | src/imports.rs:679-724 | the loop ends with the least set that holds the seeds and whatever parsed modules lead to; each module of it is read once, and parsed and unparseable ones are told apart |
| `Effects.CheckCallArgs` | src/source_analyzer.rs:653-670 | the recorded data describes the call: which plain positions, which stars, which keywords are imported, and what is forwarded where |
| `Effects.CallDataBuilder.RecordPositional` | src/source_analyzer.rs:111-139 | recording one positional argument |
| `Effects.CallDataBuilder.RecordKeyword` | src/source_analyzer.rs:141-163 | recording one keyword argument |
| `Effects.RecordedDescribes` | src/source_analyzer.rs:653-670 | the data built argument by argument describes the whole call |
| `Effects.BoundParamsAreHit` | src/effects.rs:221-300 | if an imported argument may bind to a parameter under the binding rules of Python, the parameter is hit, for calls whose imported positions are tracked |
| `Effects.SoundExactlyWhenWellTracked` | src/effects.rs:221-300 | that soundness holds for all resolved parameters exactly when a ** of an imported value is passed, no imported argument is one that is tracked, or every imported position is below the mask width or behind an imported star and no other star shifts one |
| `Effects.ArgumentAfterStarIsMissed` | src/effects.rs:221-300 | the call f(*xs, imported): an empty xs lets the imported argument bind to the first parameter, which is not hit |
| `Effects.PlainCallsAreExact` | src/effects.rs:260-300 | without expansions, and with something tracked, a hit on a parameter with a known position means that an imported argument binds to it |
| `Effects.HitsExactly` | src/effects.rs:221-300 | exactly which parameters a call hits, told by its arguments: a matching keyword or unpacked mapping, a slot at or behind an imported star or among the first 64, and for a keyword-only or receiver parameter an imported star only; all with a known position when nothing is tracked |
| `Safety.ExtendMutatedParams` | src/module_safety.rs:163-173 | the parameters are extended by those of new names, the first position of a name kept |
| `Safety.ExtendedFacts` | src/module_safety.rs:163-173 | extension adds exactly the new names, moves nothing, and changes nothing exactly when no name is new |
| `Safety.ExtendedKeepsDistinct` | src/module_safety.rs:163-173 | extension never lists a parameter name twice |
| `Safety.ExtendedByFirst` | src/module_safety.rs:163-173 | a parameter that extension adds is the first of its name in the list it comes from |
| `Safety.MergeRef` | src/module_safety.rs:145-161 | the merged record, and whether it differs, decided by sizes alone |
| `Safety.MergedFacts` | src/module_safety.rs:145-161 | a merged record says exactly what either record said, and is unchanged exactly when the other said nothing new |
| `Safety.SameFacts` | src/module_safety.rs:99-121 | records that say the same agree on verdict, missing callees and parameter names |
| `Resolution.CandidateMutates` | src/resolution.rs:358-430 | a candidate is confirmed exactly when an imported argument may reach a mutated parameter of the callee or, one slot later, of a constructor method of it |
| `Resolution.ApplyConfirmed` | src/resolution.rs:249-271 | one confirmed candidate changes its function to unsafe and drops the callee, or emits an error at module scope |
| `Resolution.DischargeCandidate` | src/resolution.rs:273-291 | one discharged candidate drops the callee, and the concern with the last one |
| `Resolution.DropsAdd` | src/resolution.rs:249-291 | applying candidates one after the other is applying them as a set |
| `Resolution.ConfirmAll` | src/resolution.rs:315-332 | after the first phase each function is changed by the set of its confirmed callees; the errors are those of the confirmed candidates in order |
| `Resolution.ApplyMutationCandidates` | src/resolution.rs:300-354 | both phases, each decided on frozen state, give the table that is described by sets of callees alone |
| `Resolution.OrderFree` | src/resolution.rs:312-354 | the result does not depend on the order of candidates or on repetitions; the errors are the same as a multiset under permutation |
| `Resolution.PhasesExactly` | src/resolution.rs:249-354 | exactly what the phases change: missing callees shrink by the settled ones, unsafe is added exactly by confirmation, unsafe-if-imported is never touched, and the missing dependency goes exactly with the last missing callee |
| `Resolution.DroppedIsHarmless` | src/resolution.rs:334-353 | a callee dropped from a function that is not unsafe was dropped by an unconfirmed candidate of that function and is unresolved or safe |
| `CandidatesPlainly.MutatesPlainly` | src/resolution.rs:358-430 | which candidates are confirmed, told by the fields of the table: some parameter of the function at the longest module prefix is hit, or, one argument later, one of `__new__`, `__init__`, `__post_init__` of the class or module |
| `CandidatesPlainly.BlocksUnlessSettled` | src/resolution.rs:433-438 | after the confirmations a callee keeps blocking exactly when it stands for a function of the table that was not safe or that a candidate of its own was confirmed for |
| `CandidatesPlainly.DroppedExactly` | src/resolution.rs:249-354 | a missing callee is dropped exactly when a candidate of the function that calls it was confirmed, or was not and the callee splits at no module, is in no table, or is safe after the confirmations |
| `CandidatesPlainly.VerdictExactly` | src/resolution.rs:249-354 | the new verdict: unsafe exactly when it was or an own candidate was confirmed, the missing dependency gone exactly when an own candidate settled a callee and none is left |
| `CandidatesPlainly.EmissionsExactly` | src/resolution.rs:249-271 | the errors are exactly those of confirmed candidates at module scope |
| `PromotionPlainly.RoundPlainly` | src/resolution.rs:616-674 | a round promotes exactly the functions of merged modules with a missing dependency, missing callees and no hard concern whose callees are all answered by a function that does not block, told by the start of the round: to unsafe-if-imported when they were so or some callee has no safe answer, else to safe |
| `PromotionPlainly.EndPlainly` | src/resolution.rs:476-674 | in the end exactly those waiting functions stopped blocking whose missing callees are all answered by functions that do not block in the end; every other record is as it was |
| `PromotionPlainly.DemandPlainly` | src/resolution.rs:540-614 | the names promotion demands of the index are the missing callees of waiting functions that no module is a prefix of |
| `Promotion.RunIsLeast` | src/resolution.rs:616-674 | whatever a run of promotions promotes lies in every set closed under "all missing callees are non-blocking" |
| `Promotion.RunsAgree` | src/resolution.rs:616-674 | all complete runs promote the same functions, whether one at a time or in rounds |
| `Promotion.StuckExactlyInGroups` | src/resolution.rs:616-674 | a candidate is left unpromoted exactly when it belongs to a group whose members wait for callees only the group could clear |
| `Promotion.VerdictIsExact` | src/resolution.rs:616-674 | a promoted function is promoted in some round and keeps the verdict decided on the table that round started from: unsafe-if-imported exactly when its base is or some callee had no safe answer at the start of the round |
| `Promotion.PromotedOnce` | src/resolution.rs:629-656 | no function is promoted in two rounds |
| `Promotion.QualifiedIsSteady` | src/resolution.rs:518-523 | a callee that names its function always takes the answer of that function |
| `Promotion.FixpointIsQuiet` | src/resolution.rs:616-674 | as many rounds as there are candidates suffice: nothing is enabled any more |
| `Promotion.QuietIsFixpoint` | src/resolution.rs:616-674 | however many rounds were needed, the first quiet table is the one promotion ends in |
| `Promotion.VerdictIsJoin` | src/resolution.rs:512-538 | the final verdict is never safer than the join of the base verdict with the final answers of the callees; for one function it is that join exactly when its base has an import concern, some callee has no safe answer in the end, or all had one when it was promoted, and always when its callees are steady; `ScheduleFree.JoinsExactlyInTime` tells when it holds for all functions |
| `Schedules.SchedulesPromoteTheSame` | src/resolution.rs:616-674 | promoting in any groups and any order, each decided on the table it finds, promotes in the end the functions the rounds promote |
| `Schedules.RoundsDecideEarly` | src/resolution.rs:512-538 | a program where the schedule shows: the rounds make a function unsafe-if-imported that promoting one at a time would make safe |
| `ScheduleFree.SchedulesAgreeExactly` | src/resolution.rs:616-674 | every complete schedule ends in the table the rounds end in exactly when no function is at risk; a function is at risk when it could be safe but some callee without a safe answer in the start table can be cleared while nothing that could be safe answers to it, told by two least sets of the start table |
| `ScheduleFree.NoRiskStaysSafe` | src/resolution.rs:616-674 | without risk a function is safe in every legal run as soon as it is promoted, if it could be |
| `ScheduleFree.JoinsExactlyInTime` | src/resolution.rs:512-674 | the final verdicts of all promoted functions are the joins of base and final callee verdicts exactly when all that could be safe ends safe, and exactly when no round promotes such a function before each of its callees is answered by a safe function of the start or a promoted one that could be safe |
| `ScheduleFree.NoRiskGivesJoins` | src/resolution.rs:512-674 | without risk the final verdicts are such joins |
| `ScheduleFree.StartIsAtRisk` | src/resolution.rs:512-538 | in the program where the schedule shows a function is at risk |
| `ScheduleFree.SteadySchedulesAgree` | src/resolution.rs:616-674 | where every callee is steady in the start table (it is safe from the start, can never become safe, or has only one function that may answer), no function is at risk and no schedule shows |
| `PromotionRounds.CollectCandidates` | src/resolution.rs:476-512 | the candidates are exactly the functions with a missing dependency, missing callees and no hard concern in a merged module, each once, with their callees split; both ways of splitting agree |
| `PromotionRounds.BuildIndex` | src/resolution.rs:578-614 | the two indices agree with a scan of all merged modules for every needed name |
| `PromotionRounds.CalleeClears` | src/resolution.rs:512-538 | a callee has a verdict exactly when some non-blocking function answers to it, and that verdict is safe exactly when some safe function does |
| `PromotionRounds.TargetIsJoin` | src/resolution.rs:632-648 | a candidate has a target exactly when all its callees are cleared, and the target is safe exactly when the base has no concern left and every callee has a safe answer |
| `PromotionRounds.Scan` | src/resolution.rs:629-651 | a round picks exactly the candidates that are enabled in the frozen table, each with the verdict that table gives |
| `PromotionRounds.CommitKeeps` | src/resolution.rs:653-672 | one promotion of a round extends the order of promotions, whose members account for all that stopped blocking |
| `PromotionRounds.IndexFollows` | src/resolution.rs:658-669 | one promotion keeps an index in agreement with the scan |
| `PromotionRounds.Commit` | src/resolution.rs:653-673 | committing what was picked makes the whole round: all enabled functions at once, decided on the frozen table |
| `PromotionRounds.Rounds` | src/resolution.rs:616-675 | the rounds end in the table that is determined by the start table, and what they promoted is a complete order, each candidate at most once; the index still agrees |
| `PromotionRounds.PromoteFixpoint` | src/resolution.rs:540-675 | the same for the whole fixpoint: the final table is a function of the start table, whatever the order of candidates and the way names are split, and the returned index holds exactly the demanded names some module holds as safe |
| `ProgramResolution.ResolutionIsSound` | src/resolution.rs:142-167 | a function that loses its missing dependency without becoming unsafe has every originally missing callee answered by a non-blocking function, or unresolved and called by one of its own unconfirmed candidates |
| `ProgramResolution.SafeIsSound` | src/resolution.rs:142-167 | a function that loses its missing dependency and ends exactly safe has every originally missing callee answered by a safe function, or unresolved and called by one of its own unconfirmed candidates |
| `ProgramResolution.ConcernsStay` | src/resolution.rs:142-167 | no phase removes unsafe or unsafe-if-imported |
| `ProgramResolution.ResolutionIsOrderFree` | src/resolution.rs:142-167 | permuting the mutation candidates changes neither the final table nor the multiset of errors |
| `ProgramResolution.ResolveProgram` | src/resolution.rs:142-167 | the phases in order end in the table the inputs determine; the returned index holds exactly the demanded names, those of new errors included, that some module holds as safe |
| `ProgramResolution.IndexErrors` | src/resolution.rs:44-47 | exactly the bare names emitted errors ask for are demanded in addition |
| `ProgramResolution.BareNameExactly` | src/resolution.rs:44-47 | an error asks for a name exactly when its metadata is that name with any number of trailing calls, all of them cut off, and the name has no dot |
| `ReExports.ModuleIndex` | src/cache/merge.rs:48-53 | of records with the same name the last is indexed |
| `ReExports.ApplyEdge` | src/cache/merge.rs:78-112 | following one re-export, and whether it changed anything, also when a module re-exports from itself |
| `ReExports.ApplyFacts` | src/cache/merge.rs:78-112 | following a re-export adds exactly what its source says to its destination, and changes nothing exactly when that was said before |
| `ReExports.OthersStay` | src/cache/merge.rs:114-126 | following an edge can only unsettle edges that read from its destination |
| `ReExports.ChangeSaysMore` | src/cache/merge.rs:55-60 | each change says something new out of finitely much, so the worklist runs out |
| `ReExports.Propagate` | src/cache/merge.rs:47-131 | the worklist ends in a state that a run over the edges leads to and that no edge would change |
| `ReExports.RunIsLeast` | src/cache/merge.rs:55-60 | whatever a run says is said in every stable state above the start: the result is the least solution |
| `ReExports.StableRunsAgree` | src/cache/merge.rs:55-60 | any two runs that end stable agree on verdicts, missing callees and parameter names: pop order does not matter, and the worklist equals rescanning |
| `ReExports.RunKeepsDistinct` | src/cache/merge.rs:47-131 | no run over re-exports makes a function list a mutated parameter twice |
| `ReExports.LibraryCache.PropagateReExportSafety` | src/cache/merge.rs:47-136 | the modules of the cache end there, and the re-exports are restored |
| `Merge.ExtendDeduped` | src/cache/merge.rs:317-330 | the novel items are appended in order, what was there stays |
| `Merge.MergeModule` | src/cache/merge.rs:271-314 | the merge of two records of a module, field by field |
| `Merge.MergeRecords` | src/cache/merge.rs:271-352 | a merged record holds exactly what either record held: edges, facts of functions, candidates, errors (all of them when an analysis failed), while missing and guard-only imports intersect |
| `Merge.MergeDuplicateModules` | src/cache/merge.rs:223-242 | the in-place compaction leaves, at the front of the array, each record merged into the survivor before it when names agree |
| `Merge.FirstFailureStays` | src/cache/merge.rs:271-352 | of two failed analyses the message of the first stays, and a failed one stands for both |
| `Sorting.NovelInOrder` | src/cache/merge.rs:317-330 | novel items come in the order they first had |
| `Merge.MergedReportsAreSorted` | src/cache/merge.rs:332-352 | merged errors, overrides and implicit imports come sorted, one of each group of ties |
| `Merge.NoErrorIsNew` | src/cache/merge.rs:332-352 | every merged error is one of either list |
| `Merge.MergedCandidatesAreSorted` | src/cache/merge.rs:301-330 | merged property and subclass candidates come sorted without repeated neighbours; mutation candidates of the first stay where they are, each new one behind them once |
| `Merge.OneRecordPerName` | src/cache/merge.rs:222-242 | on records sorted by name the survivors have strictly increasing names, each is the left fold of its run, and every record has one |
| `Merge.NothingLost` | src/cache/merge.rs:222-242 | a survivor holds exactly what the records of its name held |
| `Merge.OrderOfRecordsIsForgotten` | src/cache/merge.rs:222-242 | two name-sorted permutations of the same records coalesce to survivors with the same names that hold the same |
| `Merge.SurvivorsKeepDistinct` | src/cache/merge.rs:222-352 | compaction never makes a function list a mutated parameter twice |
| `Exports.ResolveChain` | src/exports.rs:90-104 | following re-exports ends at an attribute that is none, and reports a cycle exactly when the chain has no end |
| `Exports.StarBoundNames` | src/exports.rs:127-143 | the names a star binds: the declared list, or the public members |
| `Exports.StarEdges` | src/exports.rs:450-462 | all stars of all modules in one list, sorted by module, position and source |
| `Exports.EdgesPlainly` | src/exports.rs:456-462 | what that order means, field by field |
| `Exports.SeedStarMembers` | src/exports.rs:414-443 | the members bound without a star are exactly the exported and re-exported ones of relevant modules |
| `Exports.BindNames` | src/exports.rs:476-505 | one star rebinds only what it outranks and keeps every non-star binding |
| `Exports.RebindCloses` | src/exports.rs:151-157 | each rebinding rules itself out for good, so the passes end even on cyclic stars |
| `Exports.Expand` | src/exports.rs:472-511 | the passes end in a state where no star can rebind anything |
| `Exports.NamesAreLeast` | src/exports.rs:472-511 | the bound names are the least set that holds the seed and whatever a star offers |
| `Exports.HighestRankBinds` | src/exports.rs:117-157 | a name is bound without a star exactly if it was seeded, else by a star of the highest rank among those that offer it |
| `Exports.LastStarBinds` | src/exports.rs:116-157 | a name without a binding of its own is re-exported from a star that offers it such that no star that offers it starts later, where fallback stars count only when all that offer it are |
| `Exports.OffersPlainly` | src/exports.rs:118-149 | what a star offers, told by lists and characters: the declared names of its source, or its members that do not start with an underscore, except names of modules |
| `Exports.OwnBindingStands` | src/exports.rs:476-505 | a name bound without a star keeps its re-export, or stays without one |
| `Exports.OrderDoesNotMatter` | src/exports.rs:445-512 | names and ranks do not depend on the order of the stars, nor do the re-exports when no two stars of a module share a rank |
| `Exports.Exports.ExpandStarReExports` | src/exports.rs:445-512 | the re-exports of the program end as such an outcome; without star imports nothing changes |
| `C3.C3Merge` | src/mro.rs:76-97 | the loop ends with the merge of the sequences |
| `C3.MergeTakesFirst` | src/mro.rs:76-97 | the merge takes the first head that is in no tail, all heads before it being in one, or the head of the first non-empty sequence where there is none, and then merges what is left |
| `C3.MergeOfTwoBases` | src/mro.rs:76-97 | for D(B, C), B(X), C(Y) the class X comes before C |
| `C3.MergedElements` | src/mro.rs:76-97 | exactly the elements that went in come out |
| `C3.MergedEmbeds` | src/mro.rs:76-97 | every input is a subsequence of the output, forced or not |
| `C3.UnforcedExactlyWhenConsistent` | src/mro.rs:72-97 | no head is ever forced exactly when some duplicate-free order contains every input as a subsequence, and then the output is one |
| `Mro.Linearize` | src/mro.rs:35-70 | a call ends; its order is sound, holds all classes it met first, and keeps the remembered orders sound; on ranked maps it is the linearization |
| `Mro.C3Linearize` | src/mro.rs:27-33 | the order is that of the recursion with memory and cycle guard as a function of the map; it starts with the class, has no duplicates and names exactly the classes it inherits from, also on cyclic maps; on acyclic ones it is the linearization computed without memory |
| `Mro.LinearizationKeepsOrders` | src/mro.rs:54-69 | where the bases have a common order, base order and the linearization of each base survive |
| `Inheritance.AcyclicHasRank` | src/mro.rs:22-26 | on a map where no class inherits from itself the number of ancestors decreases along bases |
| `Inheritance.InheritsFrom` | src/resolution.rs:116-139 | the search finds a target exactly when some proper ancestor is one |
| `SafetyResolver.UnqualifiedSafe` | src/safety_resolver.rs:198-207 | the index when there is one, else whether some module holds the name as safe |
| `SafetyResolver.MroMethodVerdict` | src/safety_resolver.rs:174-188 | the verdict of the first ancestor in resolution order that defines the method |
| `SafetyResolver.FirstDefinedPlainly` | src/safety_resolver.rs:174-188 | told by entries of the table: the first class of the order with an entry for the method gives the verdict |
| `SafetyResolver.NoneDefined` | src/safety_resolver.rs:174-188 | there is no verdict when no class of the order has such an entry |
| `SafetyResolver.IsCallVerifiedSafe` | src/safety_resolver.rs:217-232 | a qualified call is judged by its own entry and inherits only without one; an unqualified one by the index |
| `SafetyResolver.DecoratorVerdictMap.IsDecoratorCallVerifiedSafe` | src/safety_resolver.rs:266-292 | remembering answers changes none |
| `SafetyResolver.DecoratorPlainly` | src/safety_resolver.rs:266-292 | a decorator is safe in a module exactly when its own entry is and it has one of the three constructor methods or every function one level inside it is safe |
| `Framing.LengthRoundTrip` | src/cache_wire.rs:475-490 | a length that fits is read back from its bytes |
| `Framing.LaterBytesWeighMore` | src/cache_wire.rs:475-490 | the bytes of a length come lowest first |
| `Framing.SmallFile` | src/cache_wire.rs:360-372 | a file with a header of one byte and one record of two, byte by byte |
| `Framing.ReadLen` | src/cache_wire.rs:481-490 | eight bytes are read as the length they encode, or there are not eight |
| `Framing.ReadBlob` | src/cache_wire.rs:376-386 | a blob is read exactly when one stands at the offset |
| `Framing.WriteFrame` | src/cache_wire.rs:360-372 | the file frames the header and the blobs |
| `Framing.ReadFrame` | src/cache_wire.rs:376-411 | a file is accepted exactly when it is such a frame; truncation, overflow, excessive counts and trailing data are refused |
| `Framing.FrameIsUnique` | src/cache_wire.rs:376-411 | the same bytes frame only one header and one list of blobs |
| `NameTable.Build` | src/cache_wire.rs:167-205 | the table is sorted, ids are positions, and it is refused only with too many names |
| `NameTable.IdsAreRanks` | src/cache_wire.rs:157-161 | a name is decoded from its id, and ids are ordered like names |
| `NameTable.TableIsCanonical` | src/cache_wire.rs:197-204 | the table depends on the set of names alone |
| `NameTable.EncodeSet` | src/cache_wire.rs:214-221 | the ids of a set do not depend on the order it is iterated in |
| `NameTable.SetRoundTrip` | src/cache_wire.rs:503-505 | a set of names is decoded from its ids |
| `WireModules.EncodeInfo` | src/cache_wire.rs:655-671 | sorting parameters by id is sorting them by name |
| `WireModules.EncodeModule` | src/cache_wire.rs:508-550 | the encoding of a record is that of its canonical form: lists without meaning in their order sorted by name, positions dropped, mutation candidates in order |
| `WireModules.EncodingIsCanonical` | src/cache_wire.rs:507-583 | decoding an encoded record gives its canonical form, and two records are encoded alike exactly when those agree |
| `WireModules.CanonicalExactly` | src/cache_wire.rs:11-19 | two records have the same canonical form exactly when they hold the same facts: the lists whose order has no meaning are permutations, positions aside, and mutation candidates agree one by one |
| `WireOrder.RecordIsSorted` | src/cache_wire.rs:507-550 | in which order an encoded record lists things, told by its fields: ids of names ascend, entries come by function name, parameters by id, errors by kind, then metadata, then flags, the other candidates by id, then flag |
| `WireOrder.HeaderIsSorted` | src/cache_wire.rs:273-358 | in which order the header lists things |
| `WireOrder.ReExportsPlainly` | src/cache_wire.rs:744-755 | what the order of re-exports means, field by field |
| `WireOrder.ReturnTypesPlainly` | src/cache_wire.rs:744-755 | what the order of return types means, field by field |
| `WireOrder.ClassesPlainly` | src/cache_wire.rs:744-755 | what the order of the other class facts means, field by field |
| `WireOrder.BasesPlainly` | src/cache_wire.rs:308-320 | class bases come by class, then by the ids of the bases, which keep their order |
| `WireOrder.CalleesPlainly` | src/cache_wire.rs:322-339 | recorded callees of a class come without a metaclass first, then by metaclass, mask and the other callees |
| `WireOrder.BlobsPlainly` | src/cache_wire.rs:273-372 | records come by the id of their name, then byte by byte |
| `CacheWire.KeysAreInjective` | src/cache_wire.rs:744-755 | the sort keys tell all different records apart, so sorting leaves no freedom |
| `CacheWire.Write` | src/cache_wire.rs:273-374 | the file is determined by the cache, and refused only with too many names |
| `CacheWire.NoNameIsIdle` | src/cache_wire.rs:167-195 | the table of a file holds no name beyond those that every table for this cache needs |
| `CacheWire.FileIsCanonical` | src/cache_wire.rs:11-19 | two caches with the same facts in any order give the same bytes |
| `CacheWire.FilesAgreeExactly` | src/cache_wire.rs:11-19 | two files are equal exactly when the caches hold the same facts: modules are a permutation up to facts, and so are all lists |
| `CacheWire.FileRoundTrip` | src/cache_wire.rs:376-473 | what was written decodes to the canonical cache |
| `CacheWire.CanonicalCacheIsSame` | src/cache_wire.rs:376-473 | the canonical cache has the same modules and lists, up to order and canonical records |
| `Decoding.ModuleExactly` | src/cache_wire.rs:552-583 | a record decodes exactly when all its ids are in the table, and then says, field by field, what it carries; of entries for the same function the last counts |
| `Decoding.FileExactly` | src/cache_wire.rs:376-473 | a file decodes exactly when header and records can be read and all their ids are in the table; lists keep the order of the file, also where no cache was written to it |
| `CacheWire.Read` | src/cache_wire.rs:376-473 | a file is read exactly when it frames a header and records that decode, and what was written is read back |

## Left out

- Effects: the 64-bit mask of imported positions is a set of positions below 64, with the same width check.
- Safety.FunctionSafety: the verdict byte is three flags; the ordering of verdicts for display is not modelled.
- Resolution.Table: the map of maps is flattened to one map by module and name; an empty inner map and a missing one are not told apart, and no lookup does.
- Resolution and PromotionRounds: parallel reads are reads of a frozen state; the order of hash maps and sets is arbitrary.
- PromotionRounds.Scan: the scan of a round is sequential.
- Names: a name is a string; interning and the cost of probing are not modelled.
- Mro.Linearize: the memo and the path are passed and returned as values; pushing and popping the path is passing a longer one.
- Mro.C3Linearize: on cyclic maps the order among the classes is that of the recursion; nothing else is said about it beyond its head.
- SafetyResolver: constructor records, error kinds, and a separate module set for ancestors are not modelled.
- ReExports: the record of a module is a value that is replaced in a sequence; borrowing source and destination apart has no counterpart.
- Merge: unstable sorts are modelled as stable ones; they differ only in positions of errors and candidates that tie, which no file carries. Mutated parameters, whose positions a file does carry, tie only when one function lists a name twice; `Artifact.DistinctParams` rules that out.
- Merge.MergeModule: the merge of the lists of a whole library (`merge_dep_caches`) is not modelled, nor is the union of constructor callees, which is not associative.
- Exports: building the exports of one module from its syntax tree, and what an export is besides its name, are not modelled.
- Exports.OrderDoesNotMatter: a non-star binding shadows a star wherever it stands, as in the code; the language would let a later star overwrite it.
- Imports: parsing is a given map from modules to what they import; the seeds are a given list.
- Framing: reading and writing files is not modelled; a machine word has 64 bits.
- CacheWire.Write: the serializer of headers and records is a parameter with an inverse that does not fail; the table size is checked before.
- CacheWire: the mask of constructor callees is a number, the kind of an error an index, text is ordered by character code.
- WireModules.CanonicalExactly: it asks that no function lists a mutated parameter twice. The analysis builds these lists from sets (`src/project/mutations.rs:316-340`), which is not modelled; merging, re-exports and compaction keep it.
- CacheWire.FilesAgreeExactly: the file is no longer than a machine word can count.
- Loops are split into methods where the source has one long body; each has its own contract.
- Effect tables, the registration of subclasses beyond the ancestor search, the analysis of syntax trees, the project files, the command line and all output are not modelled.
