# A verified model of Hologram Live

Hologram Live turns a content-addressed `.holo` archive into a running tree of applications. This project models
that path in Dafny and proves what it keeps: planning a manifest graph, admitting capabilities, starting and
stopping the tree, compiling archives, resolving storage graphs, and moving artifacts between a registry and a
local store. `dafny verify dfyconfig.toml` checks all of it.

## What is modelled

**Planning.** `Resolver` is the memoising content resolver, `Planner` the worklist over a manifest graph, both as
functions of their state; `Worklist` and `ExplainApplication` are the same loop as the program runs it, with
tables, counters and a queue updated in place, proved equal to those functions. `PlanPaths` proves what every turn
keeps on any graph, cyclic or adversarial ones included. `Unfolding` says what the answer should be, without
mentioning a queue: the recursive unfolding of the root manifest. `PlanShape` proves that a plan without blockers
is exactly that unfolding. `Occurrences` gives every application its place in the unfolding and says, over the
graph alone, what each kind of blocker certifies; `Founding`, `Census` and `Sweep` prove that every blocker of every
run is real in that sense, and `PlanFits` that planning over complete sources ends without blockers exactly when the
unfolding is within the limits. `PlanReport` adds reports, provider evaluation and strict plans, and `PlanEquivalence`
shows that plans depend on content and not on where it was found. `PlanTables`, `PlanRows` and `BlockerEdges` prove what
the tables of a run hold, row by row, and `PlanAnswers` and `ProviderAnswers` say from them what a report, an evaluated
report and a strict plan contain, field by field, in terms of the manifests, the stored content and the answers given.

**Admission.** `Capability` is the admission relation, `GrantAdmission` the walk over the planned tree, and
`AuditedAdmission` the audited form that precedes every start.

**Lifecycle.** `LifecycleOrder` proves that the explicit-stack traversal is the recursive preorder. `Startup` runs
prepare and start against providers whose answers may depend on the whole history, and proves the rollback.
`InvocationGates` is the protocol between invocations, View intents and stops, and `ResidentRuntime` the one
between loads and unloads, both as step systems with any number of threads.

**Compiler.** `Directory`, `BlobTable` and `Compiler` model compiling one archive; `CompiledTree` compiles whole
source trees, children first, and proves that the planner then finds everything. `SourcePlaces` and `CompiledFits`
turn the limits into a condition on the sources. `DirectoryCheck` says exactly which directories a reader accepts, and
`CompileAnswers` exactly what the compiler writes and when.

**Storage graphs.** `BreadthFirst` is the reference, level by level, tied to shortest walks; `StorageGraph` is the
bounded search with its exact success condition.

**Distribution and routing.** `ArtifactManifest`, `ArtifactPush`, `ArtifactPull`, `ArtifactContents` and
`ArtifactRef` model named artifacts; `ArtifactAnswers` and `ArtifactRefGrammar` say which documents and texts are read,
and as what, without the readers' own steps. `Client` models routing over endpoints.

## How the outside is modelled

- The upstream crates (content address, manifest and capability codecs, validation) are a record of functions,
  `Upstream.Crates`, so every result holds for all of them. A result that needs a law of theirs names it:
  `ManifestsRoundTrip`, `CapabilitiesRoundTrip`, and for labels `ArtifactPush.Blake3Labels`.
- A content address has finitely many labels, so it cannot be free of collisions altogether.
  `Upstream.Distinguishes` asks only that no two byte strings of a given finite set share an address. For a compiled
  tree the set is `CompiledTree.Texts`, everything compiled from its sources; for a pull it is `ArtifactPush.AtHand`,
  what was published, what the store holds and what the registry answers for those labels.
  `ArtifactPush.PullableExists` exhibits an address with two labels, a run and a store that meet the conditions of
  the recovery result.
- `Capabilities::admits` is upstream. `Capability.Admits` follows README.md:406-422 and the authorization tests in
  src/holo_capability.rs:705-803: subsets of roots and channels, endpoint origin with a path-segment prefix, and
  scalar budgets in which 0 is unbounded.
- The local resolver of the planner is a function of the label. The program passes a mutable closure, but
  `Resolver.ResolveAllKeeps` proves that no label reaches it twice, so nothing is lost.
- Providers that prepare, start and stop layers, the audit log, the registry and the network are functions of the
  history of calls, so they may change their answers at any time.
- The provider evaluation callback is a function of what it is asked about a layer. The program passes a mutable
  callback, which could answer the same question about one child differently the second time that child occurs.
- An error is its kind; message text is not modelled. JSON is a datatype.

## Conditions worth knowing

- The documentation calls `encode` the inverse of `decode` (src/artifact_manifest.rs:108-113). The code encodes only
  manifests with exactly one archive layer, and does not check labels: what it encodes reads back only when every
  layer has a lower-case blake3 label. `ArtifactManifest.RoundTrip` states both conditions.
- Parsing a printed reference gives it back for hosts with trailing white space too: only leading white space is
  lost, because a slash follows the host. `ArtifactRef.Canonical` is the exact condition.
- The resolver adds bytes with saturation, and the planner layers, so these counters are exact sums only below the
  largest 64-bit number. `Resolver.ResolveAllKeeps`, `Occurrences.Exceeds` and `CompiledFits.SourceFits` say which
  sum is meant.
- A View intent reads no lifecycle state, so it can enter the primary layer of an application that was already
  stopped. `InvocationGates.IntentAfterStop` gives such a run. `InvocationGates.QuietAfterStopIff` gives the exact
  condition under which none occurs: no intent is waiting when the stop completes, and none is made after it.
- The frame check of a typed object counts its references and does not read their labels (src/holo_graph.rs:136-165),
  so `StorageGraph.AcceptedIsFramed` leaves what the labels spell to the registered extractor.

## Model

| member | source | states |
|---|---|---|
| `Resolver.ClosureResolver.Resolve` | src/application_plan.rs:650-737 | one call of the resolver, with its tables and counters updated in place, is the resolution function of its old state, errors of the local resolver included |
| `Resolver.ResolveKeeps` | src/application_plan.rs:650-737 | a call keeps resolved and failed labels disjoint and referenced, never forgets or rewrites an entry, and a missing answer always leaves a blocker |
| `Resolver.ResolveAllKeeps` | src/application_plan.rs:646-738 | over any sequence of calls: the object and byte limits hold, bytes are the exact (saturated) sum over resolved objects, the embedded count is exact, and no label reaches the local resolver twice |
| `PlanTables.ResolutionOutcome` | src/application_plan.rs:650-737 | what one call does, by what is stored under the label: an earlier answer is given again, an earlier failure blocks again for the edge it is asked through now, a label too many or a byte too many ends the planning with the exact excess, and a first look records the content or the defect and counts the label |
| `Planner.VisitRoom` | src/application_plan.rs:869-1046 | a turn of the worklist never makes more room than it was given, which is why it ends on every manifest graph, cyclic ones included |
| `PlanPaths.RunKeeps` | src/application_plan.rs:858-1046 | on any graph and limits the finished worklist is consistent, its depth is within the limit, and its applications are at most the larger of 1 and the limit |
| `PlanPaths.PassesKeeps` | src/application_plan.rs:858-1046 | between any two turns every queued path is a duplicate-free chain of real manifest edges from the root, one longer than its depth |
| `PlanPaths.ExtendPath` | src/application_plan.rs:1099-1107 | following an edge that passed the cycle check gives again a duplicate-free chain of real edges |
| `PlanTables.ManifestOfIff` | src/application_plan.rs:1087-1097 | the manifest of an application other than the root is the one stored under its label: those bytes have that address, decode to a valid manifest, and are its canonical form |
| `PlanTables.RunRecorded` | src/application_plan.rs:869-1046 | blocked or not, every admission comes from a child edge and carries what is stored at that edge's capabilities as its delegation and, once known, what is stored at its own manifest's required label as its request; once planned, its primary and layers are its manifest's; every child row states a child edge, where its objects were found, and what its manifest says |
| `PlanTables.VisitChildrenRows` | src/application_plan.rs:926-957 | visiting an application appends exactly one row per child edge, in manifest order: position, parent, child, capabilities, and one more than its depth |
| `PlanTables.RefusedChild` | src/application_plan.rs:954-981 | a child edge that closes a cycle, lies too deep or is one too many adds its row and exactly that blocker, in this order of checks, the application limit once only, and changes nothing else |
| `PlanTables.FollowedChild` | src/application_plan.rs:982-1041 | any other child is counted; it is queued one level down, at the end of its path, exactly when its manifest was found, and has an admission with the stored delegation exactly when that was found too |
| `PlanRows.RunInLine` | src/application_plan.rs:869-1046 | without blockers row i and admission i record one child edge, labels and depths are counted along parents, and the greatest depth is that of some row |
| `BlockerEdges.RunPoints` | src/application_plan.rs:650-1046 | every blocker that states an edge states a manifest edge of the graph that leads to the label it is about, with the root's own contents kept apart from its descendants' |
| `Founding.ResolutionFounded` | src/application_plan.rs:650-737 | the resolver's object and byte limits are exceeded only by distinct labels that applications of the unfolding name |
| `Sweep.RunStanding` | src/application_plan.rs:858-1046 | the finished worklist has counted distinct places of the unfolding, its layer total is that of the places it visited, and without blockers it has visited all it counted and asked for all they name |
| `Sweep.RunBlockersReal` | src/application_plan.rs:858-1046 | on every graph and under every limit each blocker of the run is real |
| `PlanShape.CleanPlanUnfolds` | src/application_plan.rs:843-1046 | a worklist that ends without blockers lists exactly the recursive unfolding of the root manifest, in index order, with every request decoded and every content resolved |
| `PlanShape.VisitReady` | src/application_plan.rs:869-1046 | a turn that stops leaves a blocker, and a turn that goes on leaves the tables the unfolding of everything visited so far |
| `Unfolding.UnfoldingUnique` | src/application_plan.rs:843-1046 | a graph has one unfolding only, so the plan is determined by the manifests |
| `Unfolding.EdgeHasNode` | src/application_plan.rs:926-1041 | every child position of every application has its admission, carrying that manifest's child and delegated labels |
| `Unfolding.NodeHasEdge` | src/application_plan.rs:926-1041 | every admission comes from exactly one child position of its parent, and the parent has a smaller index |
| `Worklist.PlanningLoop.Drain` | src/application_plan.rs:869-1046 | the loop over the mutable queue and tables computes the worklist function |
| `Worklist.PlanningLoop.ConsiderChild` | src/application_plan.rs:926-1041 | one child edge, with its cycle, depth and count checks, updates the tables as the worklist function says |
| `ExplainApplication.ExplainArchive` | src/application_plan.rs:767-1085 | planning an archive end to end is the explanation function, with the directory check first and the library blocker last; `PlanAnswers.ExplainReports` says what that answer contains |
| `PlanReport.ExplainBlockersReal` | src/application_plan.rs:767-1085 | every blocker is real: content is missing, mismatched or undecodable, a cycle is a chain of manifest edges whose last label is the first to repeat, a limit is exceeded by that many real applications, edges, layers, labels or bytes (saturated), a library has no primary; embedded content is never blamed for a mismatch |
| `PlanReport.ExplainSettles` | src/application_plan.rs:767-1085 | a report without blockers is complete, has a primary layer, and its admissions are the unfolding of the root manifest |
| `PlanReport.EvaluateLayerSet` | src/application_plan.rs:438-473 | every resolved layer takes the answer to its own context and unresolved layers are left alone; the appended blockers are exactly the resolved layers answered unavailable, in order |
| `PlanReport.EvaluateProvidersEvaluates` | src/application_plan.rs:358-378 | any provider evaluation changes availability and appends blockers, and nothing else |
| `PlanReport.CompleteIff` | src/application_plan.rs:380-435 | for a complete report, runnable means exactly that a strict plan exists, and no conflict is returned |
| `PlanAnswers.ContentComesFrom` | src/application_plan.rs:676-693 | a label's content is the archive's own blob when it embeds one, marked embedded, and otherwise what the local store answers, marked local |
| `PlanAnswers.ExplainReports` | src/application_plan.rs:740-1085 | every report: as many layers as the manifest, each with its position (saturated), its fields, the primary mark exactly at the manifest's primary, and the source its content was found in; every object is the content of its label; the counters are exact; every admission and row is as recorded and every blocker points at its edge; without blockers every application was visited and counted |
| `PlanAnswers.ExplainRefuses` | src/application_plan.rs:767-842 | there is no report exactly when there is no manifest section (capability), the manifest or its directory is not acceptable (invalid), or the local store itself failed on a label the archive does not embed |
| `PlanAnswers.PlanErrors` | src/application_plan.rs:224-300 | the first blocker decides the kind of error: not found for missing content, capability for a refused provider or a library, invalid for any other; without one a layer that is not available is a capability error |
| `PlanAnswers.RunnableIffPlan` | src/application_plan.rs:380-514 | for every report the planner can build, after any evaluation: runnable exactly when it becomes a plan, never a "planner lost" conflict; the plan is the unfolding, and each application carries the request decoded from the bytes at its own manifest's required label, the delegation decoded from those at its child edge, its manifest's primary, and its manifest's layers with their content, source and answered provider |
| `ProviderAnswers.EvaluateProvidersAnswers` | src/application_plan.rs:358-473 | every resolved layer of every application carries the answer to the question about itself; the blockers already there stay, and those added are exactly the refusals |
| `PlanReport.PlannerMadeIndexed` | src/application_plan.rs:982-1041 | in every planned tree application i + 1 is child i and its parent comes before it |
| `PlanReport.PlannerMadeOrdered` | src/application_plan.rs:982-1041 | in every planned tree siblings are listed in manifest order |
| `PlanReport.VerifiedAddressed` | src/holo_directory.rs:150-178 | after the directory check every embedded blob is stored under its own address |
| `PlanEquivalence.RunAlike` | src/application_plan.rs:858-1046 | planners that find the same content for every label go through the same states, apart from sources and counts of embedded objects |
| `PlanEquivalence.SameReports` | src/application_plan.rs:817-1085 | two archives with the same manifest and agreeing lookups are explained identically, blockers and bytes included, apart from archive identity, sources and embedded counts |
| `PlanEquivalence.SamePlans` | src/application_plan.rs:394-435 | they also become the same strict plan or fail with the same error, whatever the providers answer |
| `PlanEquivalence.SameDecisions` | src/application_plan.rs:557-624 | and they are admitted by the same decisions, with the same grants or the same refusal |
| `Capability.AdmitsTransitive` | README.md:406-422 | attenuation composes along chains of delegation |
| `Capability.AdmitsReflexive` | README.md:406-422 | every capability set admits itself |
| `Capability.AdmitsIffPermits` | README.md:406-422 | a set admits another exactly when it permits every use the other permits: a root, a channel, an address below a listed endpoint path, or an amount within a budget in which 0 is no bound |
| `GrantAdmission.AdmittedGrants` | src/application_plan.rs:557-624 | the loop over the children computes the admission run: its grants, its observed decisions in order, and its error |
| `GrantAdmission.AdmissionAttenuates` | src/application_plan.rs:557-624 | success exactly when every decision is allowed, then 1 + 2n decisions, every request admitted by its own grant and every grant by the grants of all its ancestors; otherwise one denial, the last, and never a lost parent |
| `GrantAdmission.AdmissionDecides` | src/application_plan.rs:557-624 | admission succeeds exactly when the root grant admits the root's request and every child's delegation is admitted by its parent's grant and admits its request; each child then holds its delegation; in any case decision 2i + 1 and 2i + 2 state the delegation and the request of child i, field by field |
| `LifecycleOrder.LifecycleApplicationOrder` | src/holo_provider.rs:735-763 | the stack traversal ends, equals the recursive preorder of the root, and never returns its conflict |
| `LifecycleOrder.PreorderIsPermutation` | src/holo_provider.rs:735-763 | the order is a permutation of all application indices and starts with the root |
| `LifecycleOrder.SubtreeIsContiguous` | src/holo_provider.rs:735-763 | every subtree is one contiguous block that begins with its own root, so parents come first |
| `LifecycleOrder.SortIsOrderedPermutation` | src/holo_provider.rs:743-745 | sorting siblings by position and index yields an ordered permutation |
| `LifecycleOrder.SiblingsSorted` | src/holo_provider.rs:743-745 | siblings of a planned tree are already in key order, even where positions saturate |
| `Registry.EvaluatedPlanChosen` | src/holo_provider.rs:205-263 | a plan made from a report this registry evaluated names, for every layer, the provider this registry selects |
| `Registry.SelectIs` | src/holo_provider.rs:248-263 | the provider of a layer is the first of its kind, for a guest module of exactly its contract; an unknown contract is a capability error and an unserved layer has none |
| `Registry.AvailableIff` | src/holo_provider.rs:209-246 | a layer is available exactly when the first provider that serves it accepts it, and under that provider's name |
| `Startup.LookupsFind` | src/holo_provider.rs:674-733 | on a planned tree the lookups by application index never lose an application |
| `Startup.PrimaryMayStart` | src/holo_provider.rs:505-530 | a tree may start exactly when the first layer at its root's primary position is a guest module or a root filesystem; no primary is a conflict, no such layer invalid, any other kind a capability error |
| `Startup.PlannedPrimaryMayStart` | src/holo_provider.rs:505-530 | for a plan the planner made that layer is the manifest's own at that position |
| `Startup.ProviderForIs` | src/holo_provider.rs:567-592 | a layer is prepared by the first provider that serves it when the plan names that one; another name is a conflict, and none at all a capability error |
| `Startup.EveryLayerOnce` | src/holo_provider.rs:537-644 | the lifecycle order touches every layer of every application exactly once |
| `Startup.PrepareLayers` | src/holo_provider.rs:558-624 | preparing an application's layers never takes one of the returns without rollback, and each layer is prepared by its planned provider with its own application's grant and request |
| `Startup.PrepareApplication` | src/holo_provider.rs:538-646 | preparing one application ends with all its layers prepared, with a failure that is rolled back, or with a refused View binding that is rolled back |
| `Startup.StopReverse` | src/holo_provider.rs:765-788 | every layer is stopped exactly once, last first, whatever earlier stops answered |
| `Startup.WithRollback` | src/holo_provider.rs:790-808 | rollback failures never change the kind of the original error |
| `Startup.PrepareAndStart` | src/holo_provider.rs:500-672 | for all provider behaviours the trace is all prepares then all starts in lifecycle order, or a failing prefix and then one stop of each prepared layer in exact reverse, with the original error kind; on success every View was bound to a prepared layer at its application's primary position |
| `Startup.PrepareAndStartWithGrant` | src/holo_provider.rs:491-498 | a refused admission calls no provider, and an admitted tree starts or rolls back as above |
| `Startup.PlannedTreesAreReady` | src/application_plan.rs:394-435 | every plan made from a planner report that this registry evaluated meets the preconditions of the start |
| `InvocationGates.RunKeeps` | src/holo_provider.rs:386-481 | every reachable state keeps the gate ownership and what each thread relies on |
| `InvocationGates.NoOverlap` | src/holo_provider.rs:428-481 | in every interleaving no layer invocation overlaps a reverse stop, and at most one reverse stop runs |
| `InvocationGates.NeverAlreadyStopping` | src/holo_provider.rs:433-463 | the "already stopping" and "cannot stop" returns are never taken, and the exchange always finds the state it saw |
| `InvocationGates.NeverRunningAgain` | src/holo_provider.rs:428-481 | once the state has left `Running` it never returns to it |
| `InvocationGates.RefusedAfterStop` | src/holo_provider.rs:386-414 | after a completed stop no root invocation is ever in its layer, and every root invoke that takes its gate is refused |
| `InvocationGates.IntentAfterStop` | src/holo_provider.rs:304-323 | a run in which an application with a primary and a View layer is stopped, layer by layer, and a View intent then enters its primary layer |
| `InvocationGates.QuietAfterStopIff` | src/holo_provider.rs:304-323 | after a completed stop nobody is ever in a layer again if no View intent is waiting then and none is made later; in a run whose calls have all returned, exactly then |
| `InvocationGates.NoDeadlock` | src/holo_provider.rs:428-432 | while any call is unfinished some call can take a step |
| `InvocationGates.CallsReturn` | src/holo_provider.rs:304-353 | without new calls only boundedly many steps remain, so every call returns |
| `InvocationGates.InvokeAlone` | src/holo_provider.rs:386-426 | an invocation without interference is carried out while the tree runs and refused otherwise, gives its gate back, and goes on to the stop exactly when asked to |
| `InvocationGates.IntentAlone` | src/holo_provider.rs:304-323 | a View intent without interference is answered in any state and gives its gate back |
| `InvocationGates.StopAlone` | src/holo_provider.rs:428-481 | a stop without interference asks every layer of a running or failed tree once, ends stopped exactly when all of them agreed and failed otherwise, asks no layer in any other state, and gives every gate back |
| `ResidentRuntime.OneResidentPerKappa` | src/holo.rs:379-386 | every entry of the resident map is a started application of that very archive, and none is resident under two labels |
| `ResidentRuntime.StartedIsAccountedFor` | src/holo.rs:342-399 | in every interleaving each started application is in exactly one place: resident, owned by one load or unload in flight, or handed exactly one stop call |
| `ResidentRuntime.OnlyOwnersStop` | src/holo.rs:387-399 | a stop call is made by the thread that owned the application, and ends its ownership |
| `ResidentRuntime.NothingLeaks` | src/holo.rs:342-399 | when nothing is in flight every started application is either resident or was stopped |
| `ResidentRuntime.LoadAlone` | src/holo.rs:342-386 | a load without interference leaves its archive resident with the one application it started, and does nothing at all when it is resident already or the start fails |
| `ResidentRuntime.LateLoadAlone` | src/holo.rs:379-391 | a load that finds its archive resident after starting it stops what it started and changes nothing else |
| `ResidentRuntime.UnloadAlone` | src/holo.rs:392-399 | an unload without interference removes the archive and stops its application, if it is resident |
| `ResidentRuntime.StepEffects` | src/holo.rs:342-399 | whatever the others do, each step moves its own call towards its end, touches the map under its own label only, and a load that starts an application and ends without stopping it has made it resident |
| `AuditedAdmission.WriteAudit` | src/holo.rs:681-694 | decisions are recorded in order up to the first failure, and the log is flushed only after all of them |
| `AuditedAdmission.AdmitWithAudit` | src/holo.rs:673-709 | a denial wins over an audit failure, and success means all decisions allowed and, when auditing, recorded and flushed |
| `AuditedAdmission.AdmitAndStart` | src/holo.rs:342-372 | in the one sequence of audit and provider events, before every provider event all decisions were allowed and, when auditing, recorded and flushed |
| `Directory.IndexBlobTable` | src/holo_directory.rs:25-41 | the loop over the blob table computes the sorted table or rejects it |
| `Directory.IndexedIffAddressed` | src/holo_directory.rs:25-41 | a blob table is accepted exactly when every label is the address of its bytes and none repeats |
| `Directory.DerivedVerifies` | src/holo_directory.rs:120-178 | a derived directory always passes the reader's check; `DirectoryCheck.VerifiedIffDescribed` is the exact condition |
| `DirectoryCheck.LessIsLexicographic` | src/holo_directory.rs:25-41 | label order is lexicographic: the first difference decides, and a proper prefix comes first |
| `DirectoryCheck.DecodedIffWellFormed` | src/holo_directory.rs:120-148 | a directory decodes, to itself, exactly when it is a schema-1 document in which wasm rows, and no others, name a contract, a known one |
| `DirectoryCheck.DerivedIffDescribes` | src/holo_directory.rs:17-114 | a directory is derived exactly when, field by field, it is the manifest's primary, required label, layers and children in order, and one row per blob with its length, in label order |
| `DirectoryCheck.VerifiedIffDescribed` | src/holo_directory.rs:150-178 | the reader accepts an archive exactly when the manifest is valid, the blobs are addressed and distinct, and there is one directory, a document that describes them so; anything else is an invalid archive |
| `BlobTable.PutAllKeeps` | src/compile.rs:237-268 | merging blobs keeps the map ordered and addressed, and its labels are the union |
| `Compiler.CompileChildArchive` | src/compile.rs:377-471 | the loops over a child archive compute the child closure function, with its five rejections in order |
| `Compiler.CompileManifest` | src/compile.rs:224-319 | the layer and child loops, filling one blob map, compute the compile function |
| `Compiler.CompileIsFat` | src/compile.rs:224-319 | every fat archive verifies, addresses every blob, embeds everything its manifest names and the whole tables of its children |
| `Compiler.FatIsAcceptedAsChild` | src/compile.rs:377-471 | every emitted fat archive is accepted as a child of another |
| `Compiler.PackagingsShareManifest` | src/compile.rs:279-300 | fat and thin packaging carry the same manifest, and the thin one embeds nothing |
| `CompileAnswers.ChildCompiledIff` | src/compile.rs:377-471 | a child compiles exactly when its manifest section is canonical and valid, its directory describes its archive, and its archive embeds all its manifest names; the first two failures are invalid archives and the last a configuration error |
| `CompileAnswers.CompiledIff` | src/compile.rs:224-319 | compiling succeeds exactly when every child compiles and the manifest is valid and describable; the manifest then has the specification's primary, its capabilities' address, its layers with kind, content address, entry and aux, and its children's addresses and delegations; a fat archive embeds exactly what those name and the children bring, in label order |
| `CompiledTree.EmitIsFat` | src/compile.rs:224-319 | compiled from sources to any depth, an archive embeds the transitive closure of its manifest and passes the directory check |
| `CompiledTree.EmitContents` | src/compile.rs:237-268 | everything an emitted archive embeds was compiled from its sources: a manifest, a capability set or a layer content of the tree |
| `CompiledTree.SameManifestSameHeight` | src/compile.rs:377-471 | among texts without collisions the manifest determines the height of its tree, so no compiled application is its own descendant |
| `CompiledTree.FatArchivePlans` | src/compile.rs:224-319 | a compiled fat archive always plans, against any local store: nothing missing, mismatched, undecodable or cyclic, so only limits, or being a library, can block it |
| `CompiledFits.FatArchiveUnfolds` | src/application_plan.rs:767-1085 | a compiled application plans without any blocker exactly when it has a primary layer and its source tree is within every limit; the plan is then the unfolding with every object resolved |
| `CompiledFits.FitsIffSource` | src/application_plan.rs:858-1046 | the unfolding of a compiled tree fits exactly when its sources do: applications, height, summed layers, distinct named objects and their bytes |
| `CompiledTree.ThinPlansLikeFat` | src/compile.rs:279-300 | a thin archive against a store with the same content reports what the fat archive reports, apart from identity, sources and embedded counts |
| `PlanClosure.RunLimits` | src/application_plan.rs:858-1046 | on sources that hold everything planning never fails and only a limit can block it |
| `PlanFits.CleanFits` | src/application_plan.rs:858-1046 | on any graph, a run without blockers means the whole unfolding is finite and within every limit |
| `PlanFits.NothingExceeds` | src/application_plan.rs:858-1046 | an unfolding within every limit exceeds none of them, however its places and labels are picked |
| `PlanFits.ClosedPlansCleanIffFits` | src/application_plan.rs:858-1046 | on sources that hold everything, planning ends without blockers exactly when the whole unfolding is within every limit |
| `StorageGraph.LeUnique` | src/holo_graph.rs:167-177 | a little-endian number has one encoding |
| `StorageGraph.ValidateCanonicalFrame` | src/holo_graph.rs:136-165 | the cursor check accepts exactly the byte strings made of a name, the count, that many labels, the length and the payload |
| `StorageGraph.AcceptedIsFramed` | src/holo_graph.rs:120-134 | a typed object is accepted exactly when its extractor answers and, after its name, it is the number of extracted references, that many 71-byte labels, the payload length and the payload; it can be read so in one way only |
| `StorageGraph.TypedReferencesAre` | src/holo_graph.rs:120-134 | over all bytes: an object without a zero byte, and one whose name is not registered, is accepted with no references; a registered one with what its extractor finds, exactly when it is framed so |
| `StorageGraph.GoodIff` | src/holo_graph.rs:66-109 | an object is good exactly when it is stored under its address and is untyped or typed and framed |
| `StorageGraph.VisitObject` | src/holo_graph.rs:66-109 | every failing check of the loop refutes the success condition, and the first depth check, on the object's own depth (line 73), never fails |
| `StorageGraph.ResolveStorageGraph` | src/holo_graph.rs:44-118 | success exactly when roots and limits are valid and everything within the depth limit is good, fits and ends there; then the breadth-first order with exact totals and true depth |
| `StorageGraph.FitsIffReachable` | src/holo_graph.rs:44-118 | that condition, over reachability: everything reachable is good, nothing at shortest distance `max_depth` has references, and the totals fit |
| `StorageGraph.ResolvedIsReachable` | src/holo_graph.rs:44-118 | the result is the reachable set without duplicates, nearest first, and its depth is the greatest shortest distance |
| `BreadthFirst.OrderIsWithin` | src/holo_graph.rs:66-109 | the first n levels are exactly the objects within n edges of a root |
| `BreadthFirst.LevelIsDistance` | src/holo_graph.rs:66-109 | a level is exactly the objects at that shortest distance |
| `ArtifactManifest.DecodeEntries` | src/artifact_manifest.rs:56-100 | the layer loop computes the decoded list or the first error |
| `ArtifactManifest.RoundTrip` | src/artifact_manifest.rs:44-156 | encoding succeeds exactly with one archive layer, and then decoding gives the manifest back, roles included, exactly when every label is blake3 |
| `ArtifactManifest.ArchiveOf` | src/artifact_manifest.rs:160-175 | the archive layer is found exactly when there is one |
| `ArtifactAnswers.ArchiveIff` | src/artifact_manifest.rs:160-175 | the archive is the only layer with the archive's role, if there is one such layer |
| `ArtifactAnswers.DecodedIff` | src/artifact_manifest.rs:44-106 | a document is read exactly when it has a list of layers, each with a blake3 label of 64 lower-case digits; media types default to plain bytes, sizes to 0, the role to a payload, and annotations are read where they are texts; anything else is a protocol error |
| `ArtifactAnswers.EncodeWrites` | src/artifact_manifest.rs:114-156 | the document a manifest is published as, field by field, with every role spelled out |
| `ArtifactContents.ExternalIsMissing` | src/artifact_push.rs:61-77 | the external payloads are the layer contents the manifest names and the blobs lack |
| `ArtifactContents.PackagingDecidesExternal` | src/artifact_push.rs:55-77 | a fat archive needs no payload beside it and a thin one needs every layer content |
| `ArtifactPush.PushArtifact` | src/artifact_push.rs:79-173 | a failed tag lookup, a refused or an incomplete push writes nothing, the first upload that fails decides the error and only earlier ones were stored, without a tag, and a successful push stores every layer, then the tag, and reports exact counts |
| `ArtifactPush.RunKeeps` | src/artifact_push.rs:79-173 | in every interleaving of pushes from verified local stores, interrupted anywhere, stored bytes match their labels and every tag is backed |
| `ArtifactPush.PushIsARun` | src/artifact_push.rs:79-173 | the sequential push is an uninterrupted run of the step system: same registry, same refusals |
| `ArtifactPush.AloneIsARun` | src/artifact_push.rs:105-115 | reading payloads from a verified store gives steps of the step system |
| `ArtifactPush.TagsAreComplete` | src/artifact_push.rs:158-164 | every tag decodes to a manifest with one archive whose layers are all stored in its repository under matching bytes |
| `ArtifactAnswers.TagsPublish` | src/artifact_push.rs:129-164 | in every interleaving each tag holds a document of what was last published under it: the archive first, then the payloads, with their media types, sizes and roles, of kind "holo", with its name and tag |
| `ArtifactPush.TakenTagIsRefused` | src/artifact_push.rs:88-98 | a push that finds its tag taken, without force, ends in a conflict and writes nothing |
| `ArtifactPush.PullRecoversPush` | src/artifact_pull.rs:65-153 | unless two of the byte strings at hand collide, pulling any tag at any later time into any verified store succeeds and recovers the archive and the external payloads byte for byte, with their roles |
| `ArtifactPush.PullableExists` | src/artifact_pull.rs:65-153 | the conditions of the recovery result can be met: a thin archive pushed with its payload under an address with two labels, and pulled into an empty store |
| `ArtifactPull.ObjectStore.GetCached` | src/store.rs:121-129 | malformed identifiers are not found, and otherwise the stored bytes or nothing |
| `ArtifactPull.ObjectStore.CacheAddressed` | src/store.rs:80-118 | bytes enter the store only under the address they produce, once, and the store stays verified |
| `ArtifactPull.Pull` | src/artifact_pull.rs:65-153 | a pull leaves the store and the report the pull function says, and its final presence check never fails |
| `ArtifactPull.PullAccounts` | src/artifact_pull.rs:79-152 | failed or not, a pull only adds verified bytes, each label once; a successful one counts every layer and its transferred bytes are what it stored |
| `ArtifactAnswers.PulledIff` | src/artifact_pull.rs:65-153 | a pull succeeds exactly when the tag states a manifest with one archive, every layer of which the store has or the registry gives; it reports that archive and adds exactly the missing layers; otherwise the registry's error, an unknown tag, an unreadable manifest or the first layer not to be had decides the error, and only earlier layers were stored |
| `ArtifactPull.PullManyKeeps` | src/artifact_pull.rs:79-152 | over any sequence of pulls the store only grows and no label is stored twice |
| `ArtifactPull.NextPullIsFree` | src/artifact_pull.rs:79-152 | after one successful pull every later pull of that manifest transfers nothing, whatever happened in between |
| `ArtifactRef.ParseReference` | src/artifact_ref.rs:41-97 | parsing by popping and removing segments is the parse function |
| `ArtifactRef.TagSplits` | src/artifact_ref.rs:49-59 | the tag is split off exactly where it was printed, whatever the host contains |
| `ArtifactRef.PortIsNotATag` | src/artifact_ref.rs:49-59 | without a tag, the port of a host is never taken for one |
| `ArtifactRef.CanonicalParses` | src/artifact_ref.rs:41-111 | the printed form of a canonical reference parses to it under every configuration |
| `ArtifactRef.RoundTripsIffCanonical` | src/artifact_ref.rs:41-111 | parse after display returns the same reference under every configuration exactly when the reference is canonical |
| `ArtifactRefGrammar.ParsedIff` | src/artifact_ref.rs:41-202 | a text is parsed exactly when it refers to that reference: white space around it is dropped, the tag follows the last colon past the last slash or is "latest", a first segment with a period, a colon or "localhost" is the host, given segments are the namespace, and what is missing comes from the configuration; the other outcomes are a protocol error, and a configuration error when no host is given or configured |
| `Client.LiveClient.Handshake` | src/client.rs:134-154 | a cached manifest is reused and nothing is sent; otherwise one handshake is sent, and its manifest is cached or its error returned: the failure, the error reply, or a protocol error |
| `Client.LiveClient.Dispatch` | src/client.rs:93-112 | for every kind of request: an answer is the result as the network gave it, an error reply is that error, a rejected credential ends the call, any other failure leaves an unknown commit state unless the request is a read; the next endpoint is tried exactly when a read's transport failed and falling back is allowed |
| `Client.LiveClient.Call` | src/client.rs:65-123 | the result is that of the last message, a dispatch that decided it or a handshake that stopped the call, and every earlier dispatch fell back; without either it is a capability error exactly when an endpoint is known not to offer the operation, and a transport error otherwise; every endpoint on the way was dispatched to, is known not to offer it, or failed its handshake; a request other than a read is dispatched at most once; when every handshake succeeds the first dispatch goes to the first endpoint that offers it, and a route already known is taken whatever the network does |
| `Client.LiveClient.ExplainRoute` | src/client.rs:247-276 | explaining a route dispatches nothing and names an endpoint that offers the operation; every earlier one is known not to or failed its handshake; it names none when all were passed over so, and ends early only on rejected credentials |
| `Client.LiveClient.ExplainThenCall` | src/client.rs:247-276 | when the handshakes of the explanation succeed, the endpoint it names is the first one a following call dispatches to, and a call dispatches to none exactly when it names none |

## Left out

- Archive bytes, the loader, the format header and UTF-8 checks of labels: upstream or not visible; an archive is a
  record of its manifest section, directory extensions and blobs.
- The variants `ConfiguredResolver` and `ExecutionShapeUnsupported` of sources and blockers: nothing in the planner
  builds them.
- Saturation of in-memory counts at the width of `usize`: only the total of layers, the positions and the byte
  counters saturate in the model.
- `ProviderRegistry::new`, `compile` field checks (`build_layer`, `validate_compile_manifest`) and
  `ArtifactRef::resolve`: each branch is settled by reading it.
- Cancellation of futures during `stop` and `load_for`, View intents during start-up rollback, and lock poisoning:
  the gates or locks give no guarantee there.
- Errors of the local file system below the object store.
- Startup.PrepareAndStart: states the trace, the result and the error kind; the state byte of an application that
  failed to start is dropped with it and is not modelled.
- InvocationGates.NoDeadlock: assumes that layer calls return, as steps of their own.
- ArtifactPush.TagsAreComplete: speaks of layer contents only, because a thin archive's capability objects and
  children are not published beside it (src/artifact_push.rs:61-77).
- ArtifactPush.TakenTagIsRefused: protects a tag against the push that checked it; two concurrent pushes may both
  pass the check, because the check and the manifest write are separate steps.
- Client.LiveClient.Call: one call at a time; calls that share a client concurrently share only its manifest cache.
- Conversions and dispatch tables (src/grpc.rs, src/app.rs), configuration, history, nodes, audit file format, chat
  and actors: file I/O, clocks and thin wrappers.
- Wasm components, Python and rootfs providers, channels and network fetch: foreign runtimes, or small counters
  that would add only easy members.
