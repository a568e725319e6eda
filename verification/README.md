# Verified model of wardn

A Dafny model of the decision-making parts of wardn, with proofs of what they guarantee: the GitOps
operator's reconcile loop, its manifest parser, applier and health checker; the resource graph and its
layout; login sessions; and the pagination of the deployment list.

Check everything with `dafny verify dfyconfig.toml` (Dafny 4.11).

## How it is built

- `Status`, `Health`, `Applier`: the persisted status and its single edits, the health fold, the apply loop.
- `Controller`: one reconcile as a state machine. Each step is one answer from, or one effect on, the outside
  world: the head moves, the application is read (possibly in an old version), clone, parse, each single
  resource apply and the pruning succeed or fail, a status write is accepted, refused because another version
  was stored meanwhile, lost, or stored without the operator learning of it, and the operator may crash between
  any two steps. The world keeps every status version ever stored and a log of everything the target cluster saw.
- `Safety`, `Bookkeeping`, `Convergence`: what all runs of that machine keep, and where faultless runs lead.
- `CrashPoints`: the machine seen from outside. The effects of a run, status writes and cluster events
  interleaved, are replayed one by one through every state a crash can leave behind.
- `Reconciler`: the reconcile as imperative code over mutable objects. All its effects go into one journal, at
  the place where they happen, and the journal is proved to grow by exactly the effects of the machine's run
  under the same outcomes, in the same order. So crash safety holds for every prefix of what it does, exactly
  when it holds for the machine (`CrashPoints.ReconcileSafeIff`).
- `Strings`, `Manifest`: splitting and trimming over arbitrary strings, and the raw manifest parser on top.
- `Component`, `GraphShape`, `Layout`, `LayoutLaws`: the graph of a component and its layered layout.
- `Session`: the session record format and the store. `Pagination`: page lists and page slices.

Lemmas to which the verifier would apply induction by itself are marked `{:induction false}`: each induction is
written out, none is left to the verifier.

## Where code and documentation part

The model follows the code.

- Crash safety, which the design principle at
  `frontend/apps/docs/content/docs/operator/architecture.mdx:119` states without condition, needs the Syncing
  status to be stored before the apply begins; the code ignores a failed write. `Safety.CrashSafetyExactly`
  gives the exact condition, `CrashPoints.ReconcileSafeIff` states it for one reconcile in terms of what it reads
  and how its first write fares, and `Safety.LostWriteBreaksCrashSafety` gives the failing runs.
- `frontend/apps/docs/content/docs/concepts/sync-policies.mdx:89` says manual applications sync only when
  triggered. The code marks them OutOfSync and syncs them on the next reconcile
  (`Convergence.AppliesIff`, `Convergence.ManualSyncsItself`).
- `frontend/apps/docs/content/docs/concepts/sync-policies.mdx:122` and
  `frontend/apps/docs/content/docs/guides/rollback.mdx:15` promise a history of up to ten revisions. The code
  compares the new revision with itself and never records one (`Bookkeeping.HistoryNeverGrows`). A success keeps
  the promise exactly when the revision last synced is empty or the one just synced
  (`Bookkeeping.HistoryPromiseKeptIff`); the trimming step on its own is right (`Status.HistoryIsSuffix`).
- The schema markers at `operator/api/v1alpha1/gitapplication_types.go:160-194` allow a resource status only four
  sync statuses, and the health checker sets none. A success record for a revision with manifests is therefore
  outside the schema (`Bookkeeping.SyncedInSchemaIff`). Where the schema is enforced such a success is never stored:
  with manifests at the head the final write that `Convergence.Converges` counts on does not land, and an automated
  application is applied again by every reconcile that clones and parses (`Bookkeeping.EnforcedSyncedIsEmpty`, `Convergence.EnforcedNeverSettles`).
- `frontend/apps/docs/content/docs/operator/reconciliation.mdx:70` says a parse error sets Unknown; the code
  sets OutOfSync. The self-heal flag (line 83 there) is never consulted.
- The session reader's guard asks for six parts but uses the eighth (`Session.PanicIff`); it takes data the manager
  did not write to get there (`Session.NeverPanics`).

## Assumptions

- Status writes follow the API server's optimistic concurrency. A write the server refuses for its schema counts
  as one that does not land. No other client writes the status, and the manifests found at a revision are a
  function of the revision.
- One reconcile of an application runs at a time.
- The session store keeps a key readable for less than its time to live after it was set, and evicts nothing. A
  store operation that returns an error has changed nothing.
- Strings are sequences of code points; ill-formed UTF-8 is not represented.
- JavaScript numbers stay in the range where integer arithmetic is exact; halves in the layout are `real`.

## Model

| member | source | states |
|---|---|---|
| Safety.CrashSafety | operator/internal/controller/gitapplication_controller.go:83-114 | if only every Syncing status written is stored, then at every point of every run, with any other writes lost, any reads stale, any failures and crashes anywhere, a stored Synced at a revision means the latest apply to begin was for it, covered all its manifests in order, completed, and nothing has touched the cluster since |
| Safety.ReliableRunIsAnnounced | operator/internal/controller/gitapplication_controller.go:83-84 | when every write is stored and acknowledged and every read is current, every Syncing status is stored, however often the operator crashes |
| Safety.CrashSafetyExactly | operator/internal/controller/gitapplication_controller.go:83-114 | with any failures, lost writes, stale reads and crashes, that property holds all along a run if and only if no apply begins while the stored status says Synced |
| Safety.StepKeepsLatestIff | operator/internal/controller/gitapplication_controller.go:83-114 | the exact step that loses the property, from any state that has it |
| Safety.LostWriteBreaksCrashSafety | operator/internal/controller/gitapplication_controller.go:147 | from every resting state that claims to be synced, losing one Syncing write on the next new revision gives a run that violates crash safety |
| CrashPoints.ReconcileSafeIff | operator/internal/controller/gitapplication_controller.go:38-120 | for one reconcile with any outcomes: crash safety holds after each of its effects if and only if it does not come to sync over a stored Synced with its Syncing write lost or its read stale |
| CrashPoints.SafeIffAlwaysLatest | operator/internal/controller/gitapplication_controller.go:38-120 | for any run from a safe point, replaying its effects one at a time passes only safe states if and only if every point of the run is safe |
| CrashPoints.TrailReplays | operator/internal/controller/gitapplication_controller.go:38-120 | replaying the effects of a reconcile leads to exactly the statuses stored and the events logged at its end |
| Safety.SyncedWasApplied | operator/internal/controller/gitapplication_controller.go:86-114 | in every run whatsoever, each status ever stored as Synced at a revision is backed by a completed apply of exactly the manifests at that revision, which stands in the log without interruption |
| Safety.StepKeepsBacked | operator/internal/controller/gitapplication_controller.go:122-154 | every single step keeps all stored claims backed |
| Safety.StepKeepsPhase | operator/internal/controller/gitapplication_controller.go:38-120 | what each point of a reconcile knows about its copy, its manifests and the tail of the cluster log |
| Bookkeeping.EveryStatusIsSound | operator/internal/controller/gitapplication_controller.go:82-131 | in every status ever stored: at most one SyncError condition, present and False when Synced or Syncing, True only when Unknown or OutOfSync; other conditions as they came, in order; Synced names the manifests at its revision and carries the worst of their health; Syncing, held and failed syncs list and mark their manifests |
| Bookkeeping.ReportsListManifests | operator/internal/controller/gitapplication_controller.go:122-148 | in every run, a stored Syncing status for a revision with manifests names them in order, each Syncing and Progressing; a stored OutOfSync status that no failed parse left names them too, each OutOfSync with the health of the whole |
| Bookkeeping.WritesTell | operator/internal/controller/gitapplication_controller.go:65-114 | in every run, a stored write that says Synced gives the health the probe gave each manifest at its revision and the overall health that follows; the time of the last sync changes with a stored success and with nothing else |
| Bookkeeping.SyncedInSchemaIff | operator/internal/health/checker.go:24-52 | in every run, a status stored as Synced keeps to the declared values of the resource sync status if and only if its revision has no manifests at all |
| Bookkeeping.EnforcedSyncedIsEmpty | operator/internal/health/checker.go:24-52 | in every run in which only statuses within the declared values are stored, a stored Synced is for a revision without manifests |
| Bookkeeping.HistoryNeverGrows | operator/internal/controller/gitapplication_controller.go:83-109 | in every run each later revision history is a suffix of each earlier one; one that starts empty stays empty, against the documented history of ten |
| Bookkeeping.HistoryPromiseKeptIff | operator/internal/controller/gitapplication_controller.go:96-114 | in every run, a stored success leaves the history of the version last stored as Synced with the revision of that version recorded, whatever was written in between, if and only if that revision is empty or the one just synced |
| Bookkeeping.SuccessOnlyTrims | operator/internal/controller/gitapplication_controller.go:96-109 | a recorded success drops the oldest entry of a full history and never adds one, because the status already holds the new revision |
| Status.HistoryIsSuffix | operator/internal/controller/gitapplication_controller.go:96-102 | over any sequence of syncs the trim-then-append step keeps a contiguous suffix of everything replaced, at most ten entries |
| Status.SetConditionFrame | operator/internal/controller/gitapplication_controller.go:169-184 | setting a condition leaves other types untouched and in order, and acts on its own type as if it stood alone |
| Status.SetConditionLeavesOne | operator/internal/controller/gitapplication_controller.go:169-184 | from at most one entry of a type to exactly one, saying what was asked |
| Status.SetConditionPlace | operator/internal/controller/gitapplication_controller.go:169-184 | the first entry of the type is edited where it stands and keeps its reason; a missing one goes to the end |
| Convergence.Converges | operator/internal/controller/gitapplication_controller.go:65-119 | from any stored status and any policies, at a fixed head with none of the faults that matter: synced after n reconciles if and only if n is at least the rank (at most two), with exactly one full apply logged, or none if already synced |
| Convergence.RankFalls | operator/internal/controller/gitapplication_controller.go:65-119 | each faultless reconcile lowers the rank by one until zero, whatever the next policy |
| Convergence.CleanReconcile | operator/internal/controller/gitapplication_controller.go:65-119 | what one faultless reconcile does to status and cluster, in terms of the rank |
| Convergence.StaysSynced | operator/internal/controller/gitapplication_controller.go:65-71 | once synced, faultless reconciles stay synced and leave the cluster alone |
| Convergence.AppliesIff | operator/internal/controller/gitapplication_controller.go:66-83 | for any outcomes, a reconcile touches the cluster if and only if clone and parse succeed, the status is not synced at the head, and the policy is automated or the status unset or OutOfSync |
| Convergence.EnforcedNeverSettles | operator/internal/controller/gitapplication_controller.go:65-119 | with those values enforced, wherever a run rests with manifests at the head the status is not synced there, and a reconcile of an automated application applies again if and only if clone and parse succeed |
| Convergence.SyncsIff | operator/internal/controller/gitapplication_controller.go:52-119 | for any outcomes, after a reconcile of a current read the status says Synced at the head if and only if either clone or parse failed, it said so before and the report was lost, or both succeeded and it said so before or a sync was due, applied without error and stored its final write |
| Convergence.ManualSyncsItself | operator/internal/controller/gitapplication_controller.go:74-80 | a manual application applies a new head by itself in its second reconcile |
| Convergence.SyncForgetsRevision | operator/internal/controller/gitapplication_controller.go:96-109 | a faultless sync leaves the history as it was, less the oldest entry of a full one; the revision it finds in the status is not in it unless it was there before |
| Convergence.RecordsStatusRevisionIff | operator/internal/controller/gitapplication_controller.go:96-109 | a faultless sync leaves what the trim-then-append step would make of the revision found in the status, which need not be one that was ever synced, if and only if that revision is empty or already the head |
| Convergence.CloneFailureReported | operator/internal/controller/gitapplication_controller.go:52-56 | a failed clone leaves the status Unknown, health Unknown, without a revision, exactly one SyncError condition with the error, and resources, last sync, history and other conditions as they were |
| Convergence.ParseFailureReported | operator/internal/controller/gitapplication_controller.go:59-63 | a failed parse leaves the status OutOfSync at the head, health Unknown, with the error, and the rest as it was |
| Convergence.ApplyFailureReported | operator/internal/controller/gitapplication_controller.go:86-90 | a failed apply leaves its effects in the cluster and the status OutOfSync, Degraded, listing the manifests so, with the error it returned and the rest as it was |
| Convergence.HoldingReported | operator/internal/controller/gitapplication_controller.go:73-80 | a sync held back leaves the status OutOfSync at the head, health Unknown, without an error, listing the manifests so, and the rest as it was |
| Convergence.RefreshReported | operator/internal/controller/gitapplication_controller.go:65-71 | a reconcile that finds the application synced stores what the probe says now and changes nothing else |
| Convergence.SuccessReported | operator/internal/controller/gitapplication_controller.go:92-112 | a successful sync stores Synced at the head, the health the probe gives each manifest and the whole, the time, and no error |
| Convergence.CompleteFromAnnounced | operator/internal/controller/gitapplication_controller.go:83-119 | from the Syncing status on, a whole run amounts to one call of Apply and one report |
| Convergence.TrailFromAnnounced | operator/internal/controller/gitapplication_controller.go:83-119 | from the Syncing status on, the outside sees the events of one call of Apply and only then the write that reports it |
| Controller.CompleteIsRun | operator/internal/controller/gitapplication_controller.go:38-120 | a whole reconcile is a run of the state machine, ending at rest |
| Controller.CrashAnywhere | operator/internal/controller/gitapplication_controller.go:38-120 | a reconcile cut off after any number of steps is a run too |
| Reconciler.GitApplicationReconciler.Reconcile | operator/internal/controller/gitapplication_controller.go:38-120 | the imperative reconcile has exactly the effects of the state machine under the same outcomes, status writes and cluster events in the same order, ends in its state and returns its result; every prefix of its effects is crash safe if and only if it does not sync unannounced; a failed read changes nothing |
| Reconciler.GitApplicationReconciler.UpdateStatus | operator/internal/controller/gitapplication_controller.go:122-148 | field-by-field edit and one versioned write equal the specified status edit, in the store, the journal and the copy; each given resource is listed by kind, name and namespace with the given sync and health; a nil list leaves the statuses alone |
| Reconciler.GitApplicationReconciler.UpdateHealthStatus | operator/internal/controller/gitapplication_controller.go:150-154 | only health and resource statuses change, then one versioned write |
| Reconciler.GitApplicationReconciler.RecordSuccess | operator/internal/controller/gitapplication_controller.go:92-114 | the success block, with its history step, equals the specified edit, with the health the probe gave and the time, and reports whether the write was acknowledged |
| Reconciler.GitApplication.UpdateCondition | operator/internal/controller/gitapplication_controller.go:169-184 | the in-place loop equals the specified condition update |
| Reconciler.VerdictFromAnnounced | operator/internal/controller/gitapplication_controller.go:86-119 | requeue in 30 seconds after a failed apply, in 60 after an acknowledged success, an error when the success write or its answer is lost |
| Reconciler.VerdictIs | operator/internal/controller/gitapplication_controller.go:52-119 | for any outcomes: 60 seconds when already synced or when the success was acknowledged, 30 after a failed clone, parse or apply and when held back, an error when the success was not acknowledged |
| Applier.TargetCluster.Apply | operator/internal/k8s/applier.go:30-44 | the loop logs exactly the specified events, in the cluster log and in the journal, and returns the specified error; pruning is tried if and only if there is a policy that asks for it and every resource was applied |
| Applier.AttemptMeaning | operator/internal/k8s/applier.go:30-44 | no error if and only if nothing failed, and then every resource once, in order, pruning last; a failed resource ends the events and its message is returned; a failed pruning comes after all resources and its message is returned |
| Applier.PrunesIff | operator/internal/k8s/applier.go:37-41 | the events of an apply hold a pruning, done or failed, if and only if there is a policy that asks for it and every resource was applied |
| Health.Check | operator/internal/health/checker.go:24-52 | the loop gives each resource, in order, the health its probe gave and no sync status; overall Degraded if some probe says so, else Progressing if some says so, else Healthy |
| Health.WorstIsWorst | operator/internal/health/checker.go:24-52 | the fold is the maximum under Healthy < Progressing < Degraded, attained by some resource; Missing and Unknown never raise it |
| Health.WorstIgnoresOrder | operator/internal/health/checker.go:24-52 | the aggregate depends only on the multiset of statuses |
| Health.WorstConcat | operator/internal/health/checker.go:24-52 | the aggregate of a concatenation is the fold of the aggregates |
| Manifest.RoundTrip | operator/internal/manifest/parser.go:85-104 | texts joined by separator lines parse back to themselves, in order, if and only if each is a document and none after the first begins with three dashes |
| Manifest.ParseConcat | operator/internal/manifest/parser.go:85-104 | for all strings, parsing a + separator + b gives the resources of a followed by those of b |
| Manifest.ParseProjection | operator/internal/manifest/parser.go:85-104 | the content kept for a resource parses to exactly that resource |
| Manifest.ParseOneDocument | operator/internal/manifest/parser.go:88-101 | a text without a separator, whatever white space stands around it, gives its one trimmed document if that has a kind and nothing otherwise |
| Manifest.SeparatorLookalikeIsCut | operator/internal/manifest/parser.go:88-95 | a document that begins like a separator loses its head after a line break |
| Manifest.FieldIsLastMatch | operator/internal/manifest/parser.go:106-124 | each field holds the trimmed value on the last line carrying its key, wherever it stands |
| Manifest.UnsetFieldIsEmpty | operator/internal/manifest/parser.go:106-124 | a field is empty when no line carries its key |
| Manifest.MetadataFromKeys | operator/internal/manifest/parser.go:106-124 | apiVersion, kind, name and namespace each hold what follows their key, trimmed, on the last line that is white space up to it |
| Manifest.MetadataWithoutKeys | operator/internal/manifest/parser.go:106-124 | each of the four is empty when no line is white space up to its key |
| Manifest.ParseYAMLDocuments | operator/internal/manifest/parser.go:85-104 | the loop computes the specified parse |
| Manifest.ExtractResourceMeta | operator/internal/manifest/parser.go:106-124 | the loop computes the specified scan |
| Manifest.ParseRaw | operator/internal/manifest/parser.go:43-77 | an error if and only if the walk reports one or a manifest file cannot be read, and then the first; otherwise the resources of the files with a manifest extension, in order |
| Manifest.IsManifestIff | operator/internal/manifest/parser.go:53-56 | a file is read if and only if its path ends in .yaml, .yml or .json, in any letter case |
| Manifest.WalkIsVisitByVisit | operator/internal/manifest/parser.go:46-70 | a walk gives the resources of each manifest file's text in its place, and nothing for any other visit |
| Manifest.StopsWalkIff | operator/internal/manifest/parser.go:46-62 | a visit stops the walk with exactly the walk's own error, or with the read error of a manifest file and its path |
| Strings.SplitConcat | operator/internal/manifest/parser.go:88 | splitting at a borderless separator is a homomorphism on all strings |
| Strings.SplitPiecesAreClean | operator/internal/manifest/parser.go:88 | no piece contains the separator |
| Strings.JoinSplit | operator/internal/manifest/parser.go:88 | joining the pieces gives the text back |
| Strings.TrimParts | operator/internal/manifest/parser.go:90 | trimming removes only white space and leaves none at either end |
| Strings.TrimUnique | operator/internal/manifest/parser.go:90 | it is the only trimmed text inside that white space |
| Strings.AsciiSpaces | operator/internal/manifest/parser.go:90 | among the ASCII characters, white space is tab to carriage return and blank |
| Strings.DecimalCanonical | frontend/apps/platform/src/lib/deployments.ts:279 | numbers in ids are printed with decimal digits and no leading zero |
| Layout.BuildNodes | frontend/apps/platform/src/components/resource-graph.tsx:149-203 | the grouping map, the sorted layers and the nested loops give the specified nodes |
| Layout.GroupByLayer | frontend/apps/platform/src/components/resource-graph.tsx:174-183 | the map holds each layer with its resources in order, keys in order of first appearance |
| Layout.ColumnsSpec | frontend/apps/platform/src/components/resource-graph.tsx:185 | the columns are the layers that occur, each once, ascending |
| LayoutLaws.LayoutIsStableSort | frontend/apps/platform/src/components/resource-graph.tsx:174-203 | for any resources the nodes are emitted in exactly the stable sort by layer |
| LayoutLaws.StableSortUnique | frontend/apps/platform/src/components/resource-graph.tsx:174-203 | a list has only one stable sort, so nothing else would do |
| LayoutLaws.StableSortSpec | frontend/apps/platform/src/components/resource-graph.tsx:174-203 | the reference sort is sorted and keeps the order within each layer |
| LayoutLaws.OneNodePerResource | frontend/apps/platform/src/components/resource-graph.tsx:191-203 | one node per resource occurrence |
| LayoutLaws.PositionsDistinct | frontend/apps/platform/src/components/resource-graph.tsx:195-199 | positions ascend left to right, top to bottom, so no two coincide |
| LayoutLaws.ColumnsContiguous | frontend/apps/platform/src/components/resource-graph.tsx:185-203 | columns ascend by layer and every column number from 0 is in use |
| LayoutLaws.NodeInItsColumn | frontend/apps/platform/src/components/resource-graph.tsx:191-203 | every node stands in the column of its layer and carries its resource id |
| LayoutLaws.NodePosition | frontend/apps/platform/src/components/resource-graph.tsx:188-199 | every node stands at 280 times its column and, in its row of a column of n, at 90 times the row less (n - 1) / 2 |
| LayoutLaws.LayerOfKind | frontend/apps/platform/src/components/resource-graph.tsx:154-180 | the layer of each of the seventeen kinds, and 99 for any other |
| LayoutLaws.LeftOfIff | frontend/apps/platform/src/components/resource-graph.tsx:185-203 | one node is left of another if and only if its layer is earlier |
| LayoutLaws.ColumnIsCentred | frontend/apps/platform/src/components/resource-graph.tsx:194-195 | in every layout the y offsets of the nodes that share an x add up to zero |
| LayoutLaws.EdgesRunRight | frontend/apps/platform/src/components/resource-graph.tsx:154-203 | laid out, an edge of a component runs strictly right if and only if it is not a config edge, and config edges run strictly left |
| LayoutLaws.EdgeEndsAreShown | frontend/apps/platform/src/components/resource-graph.tsx:154-203 | both ends of every edge of a component have a node in its layout |
| Component.MakeComponent | frontend/apps/platform/src/lib/deployments.ts:241-358 | the pushes and loops build the specified resources and edges |
| Component.ListedResources | frontend/apps/platform/src/lib/deployments.ts:245-356 | place, id, name, kind, namespace, health and sync status of the deployment, replica set, service and each optional resource, flag by flag |
| Component.ListedPod | frontend/apps/platform/src/lib/deployments.ts:278-315 | each pod in its place with both its edges; only the first shows a degraded component |
| Component.ListedEdges | frontend/apps/platform/src/lib/deployments.ts:276-357 | place, id, ends and type of the owner edge and of each optional edge, flag by flag |
| GraphShape.ResourceIdsDistinct | frontend/apps/platform/src/lib/deployments.ts:245-356 | resource ids are distinct for every pod count and flag choice |
| GraphShape.EdgeIdsDistinct | frontend/apps/platform/src/lib/deployments.ts:276-357 | edge ids are distinct |
| GraphShape.EdgesJoinResources | frontend/apps/platform/src/lib/deployments.ts:276-357 | both ends of every edge are listed resources |
| GraphShape.Acyclic | frontend/apps/platform/src/lib/deployments.ts:276-357 | no path of edges returns to its start |
| GraphShape.PodEdges | frontend/apps/platform/src/lib/deployments.ts:278-315 | exactly two edges lead into each pod: an owner edge from the replica set and a selector edge from the service |
| Session.SessionLifetime | server/internal/auth/session.go:24-59 | over any run a session reads as what was written while it is live, and as invalid credentials otherwise |
| Session.SessionUser | server/internal/auth/session.go:37-54 | a session reads as user u if and only if its live creation was for an id that is u up to its first quote |
| Session.ReadBack | server/internal/auth/session.go:28-53 | written data never panics; the user id comes back up to its first quote, and without one the email up to its own |
| Session.RoundTripIff | server/internal/auth/session.go:28-53 | the record round-trips if and only if neither field contains a quote |
| Session.PanicIff | server/internal/auth/session.go:48-53 | the guard lets exactly the data with five or six quotes through to an index out of range; with fewer it refuses, with more it reads |
| Session.FieldsBetweenQuotes | server/internal/auth/session.go:48-53 | in any data the user id is what stands between the third and fourth quote and the email what stands between the seventh and eighth |
| Session.NeverPanics | server/internal/auth/session.go:24-54 | in no run of creations, reads and destructions does a read reach that panic |
| Session.SessionManager.CreateSession | server/internal/auth/session.go:24-35 | stores the record, written out, under the session key for 24 hours, or changes nothing and reports the failure |
| Session.SessionManager.GetSession | server/internal/auth/session.go:37-54 | reads without changing or extending anything; an error of the store other than a missing key is passed on as such |
| Session.SessionManager.DestroySession | server/internal/auth/session.go:56-59 | removes exactly that session and reports whether the store did |
| Session.SessionKeyInjective | server/internal/auth/session.go:61-63 | different sessions have different keys |
| Pagination.GetPageRange | frontend/apps/platform/src/components/numbered-pagination.tsx:24-49 | the pushes and the loop give the specified page list |
| Pagination.PageRangeLossless | frontend/apps/platform/src/components/numbered-pagination.tsx:24-49 | reading each ellipsis as the gap it stands for gives exactly all pages in order |
| Pagination.PageRangeShape | frontend/apps/platform/src/components/numbered-pagination.tsx:24-49 | at most seven entries, first and last page shown, page numbers strictly increasing, every ellipsis hides at least one page |
| Pagination.NeighboursShown | frontend/apps/platform/src/components/numbered-pagination.tsx:24-49 | the current page and its neighbours are shown |
| Pagination.EllipsisIff | frontend/apps/platform/src/components/numbered-pagination.tsx:24-49 | pages are left out if and only if there are more than seven |
| Pagination.PagesPartition | frontend/apps/platform/src/components/deployment-view.tsx:155-157 | the pages joined are the list, and none is empty unless the list is |
| Pagination.ItemsOnPage | frontend/apps/platform/src/components/deployment-view.tsx:155-157 | a page that exists holds the items from page times size on, as many as fit |
| Pagination.TotalPagesIs | frontend/apps/platform/src/components/deployment-view.tsx:155 | one page for no items, and otherwise no more pages than the items need |
| Pagination.ShownPageInRange | frontend/apps/platform/src/components/deployment-view.tsx:151-157 | after any commands the page shown exists and the caption names exactly its items |
| Pagination.MovesPageShown | frontend/apps/platform/src/components/deployment-view.tsx:155-157 | after any commands, going to a page shows its items, or the last page's if there are not so many; the arrows move by one and stop at the ends; a reset shows the first page |
| Pagination.ChangesList | frontend/apps/platform/src/components/deployment-view.tsx:155-157 | after any commands, a new page size or filter shows the page asked for, as far as there is one, of the new list |
| Pagination.CaptionCountsPage | frontend/apps/platform/src/components/numbered-pagination.tsx:66-67 | the caption bounds cut exactly the page out of the list |

## Left out

- Git subprocesses, the file system, the Kubernetes client, Redis, HTTP handlers, Postgres and Slack: each is an answer or an effect in the model; notifications are not modelled.
- Edits of the repository, branch, path or manifest type while runs go on: the policy may change at every read, the source of the manifests may not.
- The content of a resource apply and of pruning, and Helm rendering: placeholders in the source; here they succeed or fail, and Helm is a parse that fails.
- Per-kind health: the source reports every resource healthy; the model takes any health per resource.
- YAML structure: the parser looks at lines, and so does the model; nothing is said about which `name:` line belongs to the metadata.
- Ages, images, ports, manifests and the random part of pod names in the component graph, and the styling of edges and nodes: display data.
- Text search, sorting and the filter checks of the deployment list: the filtered list is an arbitrary list in the model.
- Roles, audit limits, configuration defaults, webhook matching and badge tables.
- Aliasing of the revision slice and the conditions slice with the informer cache: reads hand out fresh copies.
