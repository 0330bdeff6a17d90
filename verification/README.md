# ControllerMesh in Dafny

ControllerMesh shards Kubernetes controllers. A manager compiles a `VirtualApp` into a route and sends it to a proxy
beside every controller pod. The proxy lets through only the requests that the route gives to its own subset, keeps a
record of the verdicts on lists and watches, and loads a new route only if that record agrees with it. This project
models that logic and proves how far it keeps subsets off each other's namespaces through a change of rules, and exactly
where it does not.

| file | subject |
|---|---|
| `text.dfy`, `selectors.dfy` | ordering of names; merging, negating and compiling label selectors |
| `routes.dfy`, `objects.dfy`, `injection.dfy` | evaluating a route; which objects a subset sees; the selector put into a client's query |
| `compiler.dfy`, `meaning.dfy`, `validation.dfy` | compiling a `VirtualApp` into a route; what it means; admission |
| `events.dfy` | which namespace updates may skip recompilation |
| `history.dfy`, `specmanager.dfy`, `filters.dfy` | the proxy: recorded verdicts, spec updates, filtered lists and watches |
| `verdicts.dfy`, `silent.dfy` | from a decision to the record and every later spec; verdicts that leave no record |
| `webhook.dfy` | webhook requests: accept, redirect, ignore |
| `manager.dfy`, `grpcserver.dfy` | what one Reconcile decides; the manager's memory and the events that change it |
| `mesh.dfy`, `mesh_invariant.dfy` | manager, streams and proxies together: steps and invariant |
| `mesh_order.dfy`, `mesh_theorems.dfy`, `mesh_races.dfy` | when expectations can be trusted, the promises over every run, and runs that lose them |
| `mesh_gate.dfy`, `mesh_sends.dfy` | whom the gate may pass over, and whom a dispatch reaches |
| `watch.dfy` | the watch body read through one reused buffer |
| `traffic.dfy`, `traffic_runs.dfy` | in-flight limits, alone and under any interleaving |
| `atomicpayload.dfy`, `atomicwriter.dfy` | publishing files so that readers never see a mixture |
| `query.dfy` | raw query strings |

## Main results

- **History agreement.** For any number of concurrent requests and spec updates, everything a proxy ever recorded as let
  through or turned away is what its current spec would answer now (`SpecManagers.HistoryAgreesWithCurrent`). What a
  request decided and left on record stays the answer of every spec loaded later (`Verdicts.DecisionStands`), nothing
  else comes onto the record (`Verdicts.RecordedWasDecided`), and a spec is loaded if and only if it answers like the
  record and selects like the newest selectors on it (`Verdicts.LoadsExactly`). Hence proxies of two subsets that run
  one hash have disjoint records (`SpecManagers.HistoriesDisjoint`), and a hash that the record contradicts is never
  loaded later (`SpecManagers.RejectionIsPermanent`).
- **Expectation gate.** A stream in order stays in order through any step that is not a harmful drop of its expectation,
  and only then (`MeshOrder.OrderExactly`). From any moment in order the manager's hash gate can be trusted at every
  moment if and only if no such drop happened (`MeshOrder.ExpectationGate`). A stream that fell out of order is back in
  order once nothing is on the way and the last report read is true (`MeshOrder.QuietStreamInOrder`). Between the two
  reads of the gate a status stays fit to be judged by if and only if each drop in between found the pod as the status
  says (`MeshOrder.ReadingExactly`).
- **Dispatch barrier.** In every run of manager, streams and proxies, while a hash is being dispatched every pod that was
  judged by a fair reading runs, expects and is being sent nothing but that hash (`MeshTheorems.DispatchBarrier`); then
  records of different subsets are disjoint (`MeshTheorems.DispatchMeansIsolation`). Every pod that passed the gate or was
  connected all along was judged by one reading (`MeshTheorems.CoveredMeansJudged`), and the reading was fair if the
  stream was in order (`MeshTheorems.HarmlessBarrier`). One inductive invariant carries it (`MeshSafety.MeshAlwaysOK`).
  The barrier would hold for all of them if the handlers checked, in the manager's own memory, that the status in hand
  fulfils what they drop (`MeshTheorems.CautiousBarrier`), or if the three pairs of accesses were undivided
  (`MeshTheorems.UndividedBarrier`).
- **Nobody passed over.** While specs are sent, every ready pod that was listed is among those judged
  (`MeshGate.ReadyPodsAreJudged`), so with cautious handlers every ready pod runs the dispatched hash
  (`MeshGate.ReadyBarrier`). The gate waits for exactly seven reasons (`Manager.GateExactly`); what is then done, and to
  whom, can be read off the reports (`Manager.ActionExactly`); and a pod that runs the hash already is sent it again
  exactly if nothing was ever sent on its stream (`MeshSends.RedispatchExactly`).
- **Handoff.** After a deletion nothing else is deleted, updated or dispatched until the pod is seen stopped
  (`MeshTheorems.HandoffSafety`).
- **Replacement.** Every report the manager holds was true of its pod at some moment (`MeshTheorems.ReportsAreTrue`), and
  a report of two hashes means a refused spec if and only if it was not made inside an update
  (`MeshTheorems.ReplacementMeansRefusal`, `SpecManagers.MismatchMeansRefusal`).
- **Compilation.** Evaluating the compiled route gives the ownership that can be read off the rules of the `VirtualApp`
  (`AppMeaning.CompilationPreservesMeaning`), and it keeps user agents and object limits
  (`AppMeaning.AgentsPreserved`, `AppMeaning.ObjectsPreserved`).
- **Objects.** A subset's computed selector, global limits included, means what plain logic says
  (`ObjectScopes.ObjectMeaning`). Selectors of different subsets exclude each other (`ObjectScopes.ObjectIsolation`,
  `Validation.AdmittedObjectIsolation`), single requirements partition the objects (`ObjectScopes.ObjectPartition`), and
  the queries they are put into are apart, if the clients' own labels are compatible (`Injection.QueriesIsolated`).
- **Webhooks.** A request is ignored, accepted, redirected or failed exactly as the namespace's owner says
  (`WebhookRouting.Route`), by all proxies of a route alike (`WebhookRouting.IgnoredByAll`,
  `WebhookRouting.AcceptedByBoth`), and every pod that a redirect names accepts it (`WebhookRouting.OneHop`).
- **Atomic publication.** After every single file system step, with every failure and crash point included, readers see
  the old payload up to one step and the complete new one from there on (`AtomicWriter.Disk.Write`,
  `AtomicWriter.ReadersSeeWholePayloads`), if and only if the payload's names are free for it
  (`AtomicWriter.FlipShowsExactly`).
- **In-flight limits.** Under any interleaving the tokens in use are the calls that hold them, within the limit, taken and
  released once, and no release ever blocks (`TrafficRuns.InFlightConserved`, `TrafficRuns.NeverStuck`).

## What the code does not promise

Each has a concrete input or run, or is an error case of the contract named, and the condition under which the promise
does hold.

- Registration stores the connection and then drops the expectation. A spec sent in between leaves a live pod's gate open
  while an unacknowledged spec is in flight (`MeshRaces.RegistrationBreaksGate`), and another hash is then dispatched
  while the pod runs this one (`MeshRaces.RegistrationBreaksBarrier`). A handler's exit drops the expectation before it
  marks the connection (`MeshRaces.ExitBreaksBarrier`), and it may fall between the gate's two reads
  (`MeshRaces.ExitBetweenReadsBreaksBarrier`). The exact conditions are `MeshOrder.ExpectationGate` and
  `MeshOrder.ReadingExactly`.
- A pod that had no connection when Reconcile read it and registers afterwards may run another hash during a dispatch
  (`MeshRaces.LateRegistrationEscapes`). `MeshTheorems.CoveredMeansJudged` speaks of the pods that passed the gate or were
  connected before the Reconcile began.
- A report sent between the two halves of a spec update shows an expected hash different from the current one, which the
  manager answers with a replacement (`MeshTheorems.UpdateWindowLooksRejected`). It means a refusal exactly outside that
  window (`MeshTheorems.ReplacementMeansRefusal`).
- Requests for single objects leave no record, so a proxy can load a route that gives away a namespace it has let through
  (`SilentVerdicts.SilentOverlap`). What it let through is apart from all that the other subsets let through and still
  would if and only if none of those namespaces belongs to another subset now
  (`SilentVerdicts.SilentIsolationExactly`), and from all they ever let through if and only if no hash gives one of them
  to another subset (`SilentVerdicts.ActedApartExactly`).
- A list response leaves a record without the selector that its request was given, and the record keeps the newest
  selector only. So a proxy can load a route that changes a selector it has used (`Verdicts.SelectorForgotten`). A route
  is held against exactly the newest recorded selector of each resource (`Verdicts.NewestSelectorGuards`,
  `Verdicts.LoadsExactly`).
- A subset's own object limit overrides a global one on a label that both mention
  (`ObjectScopes.OwnLimitOverridesGlobal`). What is selected meets a limit if and only if no later one asks for another
  value of its labels (`ObjectScopes.LimitBindsExactly`).
- Merging selectors overwrites shared `matchLabels` keys (`Selectors.MergeOverrides`). Labels that pass the merge pass
  both selectors if and only if the shared keys agree (`Selectors.MergeConjunctionExact`). So a client's own label
  selector can take a query out of its subset (`Injection.IncompatibleQueryLeaks`), exactly when it asks for another
  value of a label that the subset's selector fixes (`Injection.AnswerStaysInSubset`).
- Negating a selector is disjoint from it exactly when it has a requirement (`Selectors.NegateDisjointExact`); with
  several requirements it is narrower than the complement.
- The namespace handler misses a changed route when listing VirtualApps fails or when a namespace starts terminating
  (`NamespaceEvents.SkipUnsoundOtherwise`); otherwise it does not (`NamespaceEvents.SkipSound`).
- A resource name with a dot can share a history record with another resource (`History.DottedNamesCollide`); names
  without one never do (`History.KeyInjective`).
- A list with a member that has no metadata, if unstructured, is delivered unfiltered, and so is one that cannot be taken
  apart or written back: the error case of `ResponseFilters.FilterItems`.
- A path that opens with `./` passes the path check and can name the writer's own link (`AtomicWriter.DataLinkOverwritten`);
  names that do not begin with `..` are always safe (`AtomicWriter.OrdinaryNamesPublishable`). A link made by a write that
  failed halfway is never removed (`AtomicWriter.LeftoverLinkStays`), and the visible names are exact precisely without
  such leftovers (`AtomicWriter.VisibleNamesExact`). A leftover `..data_tmp` makes every later change fail
  (`AtomicWriter.Disk.Write`).
- A `VirtualApp` with a selector and no configuration makes admission panic (`Validation.Validate`); a traffic policy
  without a circuit breaking section makes the request panic (`Traffic.TrafficControl.ServeHTTP`).

## Assumptions

- Equal spec hashes mean equal route and endpoints. The hash leaves out the pod's own subset
  (`controllers/server/server_util.go:177-182`). It appears as the parameter `B`, from hash to content.
- Regular expressions and selector syntax are parameters (`RouteCompiler.Library`). A selector survives its JSON encoding.
- No declared subset is called `AllSubsetPublic` where the theorems say `NoSubsetNamedPublic`.
- Resources are named without dots where the theorems say `Plain`; records of the empty resource are not consulted.
- A pod has one live stream at a time, and the old stream's handler has marked its connection before the next one
  registers. A failed send delivers nothing. A proxy that restarts loses what it knew.
- Reading a pod's deletion expectation, looking up its connection and reading that under its lock are one step: a deletion
  is only awaited by Reconcile itself, and a connection replaced in between is marked. Loading and deleting the hash
  expectation in the gate are one step: only Reconcile stores one.
- Runs of the mesh cover one life of the manager process, begun with proxies in any consistent state.
- Requests start after the first spec is loaded, as the proxy's start-up makes them wait.
- Nil and empty maps, sets and lists are not told apart where the code treats them alike.

## Model

| member | source | states |
|---|---|---|
| `Selectors.MergeLabelSelector` | util/selector.go:30-50 | the result selects what the specification `Merge` says: nil arguments give the other, labels of the second win, expressions are concatenated |
| `Selectors.MergeImplies` | util/selector.go:30-50 | whatever passes a merged selector passes its second argument, and every expression of the first |
| `Selectors.BothPassMerge` | util/selector.go:30-50 | labels that pass both arguments pass the merge |
| `Selectors.MergeOfAgreeing` | util/selector.go:30-50 | when shared label keys agree the merge is the conjunction |
| `Selectors.MergeConjunctionExact` | util/selector.go:30-50 | labels that pass the merge pass both arguments if and only if no shared key disagrees |
| `Selectors.MergeOverrides` | util/selector.go:30-50 | where a shared key disagrees the merge lets through labels that its first argument rejects |
| `Selectors.NegateMatchLabels` | util/selector.go:52-85 | the sorted expressions for matchLabels do not depend on the map's iteration order |
| `Selectors.NegateLabelSelector` | util/selector.go:52-85 | the negation is the same for every iteration order and equals its specification, nil included |
| `Selectors.SortForgetsOrder` | util/selector.go:52-85 | sorting distinct keys gives one result for all orders of the input |
| `Selectors.NegateMeaning` | util/selector.go:52-85 | a negated selector matches exactly the labels for which every single requirement fails |
| `Selectors.NegateDisjointExact` | util/selector.go:52-85 | selector and negation never match the same labels if and only if the selector has a requirement |
| `Selectors.NegateSingleComplements` | util/selector.go:52-85 | with a single requirement the negation is the exact complement |
| `Selectors.DoubleNegation` | util/selector.go:52-85 | negating twice gives back the meaning for the four operators |
| `Selectors.OperatorsByLabels` | util/selector.go:87-124 | the four operators, said with plain labels: one of the values, none of them, some value, no value |
| `Selectors.ValidatedLabelSelectorAsSelector` | util/selector.go:87-124 | compiling fails exactly on an unknown operator; otherwise the requirements match the same labels as the selector, and nil matches nothing |
| `Routes.DetermineNamespaceSubset` | apis/ctrlmesh/proto/ctrlmesh_internal.go:151-196 | the evaluation loops give the owner: nobody on a failing global limit, the first claiming subset, the public answer, or nobody |
| `Routes.FirstClaimIsDeclared` | apis/ctrlmesh/proto/ctrlmesh_internal.go:151-196 | an owner is one of the subsets in the route |
| `Routes.SubsetsExclusive` | apis/ctrlmesh/proto/ctrlmesh_internal.go:101-107 | two proxies with one route and different subsets never both match a namespace, unless the resource is public and unnamed |
| `Routes.ClusterScopedIsDefault` | apis/ctrlmesh/proto/ctrlmesh_internal.go:151-155 | cluster-scoped objects belong to the default subset alone |
| `Routes.AgentsExactly` | apis/ctrlmesh/proto/ctrlmesh_internal.go:93-99 | a user agent passes at every subset, or, exactly if it is listed, at the default subset alone |
| `Routes.WildcardExactly` | apis/ctrlmesh/proto/ctrlmesh_internal.go:249-259 | a list stands for everything if and only if it is the wildcard alone, and otherwise for its members |
| `Routes.GetObjectSelector` | apis/ctrlmesh/proto/ctrlmesh_internal.go:198-232 | the loop over subsets computes the merged and negated selector of the specification and stops at the own subset |
| `Routes.ApplyLimits` | apis/ctrlmesh/proto/ctrlmesh_internal.go:198-232 | one group of limits merges or negates exactly the applicable object limits, in order |
| `ObjectScopes.ObjectMeaning` | apis/ctrlmesh/proto/ctrlmesh_internal.go:198-232 | labels pass a subset's selector if and only if each label is as the last global or own limit to mention it asks, all their expressions hold, and no requirement of any earlier subset's limits does |
| `ObjectScopes.AgreeingMeaning` | apis/ctrlmesh/proto/ctrlmesh_internal.go:198-232 | if global and own limits agree on shared labels: if and only if all of them match and nothing of the earlier subsets' does |
| `ObjectScopes.LimitBindsExactly` | apis/ctrlmesh/proto/ctrlmesh_internal.go:198-232 | labels that pass meet every expression of every applicable global and own limit, and the whole limit if and only if no later one asks for another value |
| `ObjectScopes.OwnLimitOverridesGlobal` | apis/ctrlmesh/proto/ctrlmesh_internal.go:198-232 | an own limit on the label of a global one lets through labels that the global one rejects |
| `ObjectScopes.ObjectIsolation` | apis/ctrlmesh/proto/ctrlmesh_internal.go:198-232 | if an earlier subset has any applicable object limit with a requirement, no labels pass both its selector and a later subset's |
| `ObjectScopes.LayeredMeaning` | apis/ctrlmesh/proto/ctrlmesh_internal.go:198-232 | with one single-requirement limit per subset, a subset's selector means: all global limits match, its own holds and all earlier ones fail |
| `ObjectScopes.ObjectPartition` | apis/ctrlmesh/proto/ctrlmesh_internal.go:198-232 | then labels that meet the global limits pass the selector of exactly one declared subset or of the default, and others of none |
| `Injection.InjectSelector` | proxy/apiserver/router/router.go:140-166 | fails exactly on a query or a client selector that cannot be parsed and on an unknown operator; otherwise the query asks for exactly the labels that pass the merge of the subset's selector and the client's, with every other parameter kept, if and only if the selector's text is escaped |
| `Injection.AnswerStaysInSubset` | proxy/apiserver/router/router.go:140-166 | an object in the answer passes the subset's selector if and only if the client asks for no other value of a label it fixes |
| `Injection.QueriesIsolated` | proxy/apiserver/router/router.go:100-121 | compatible queries of an earlier and a later subset never get the same object |
| `Injection.IncompatibleQueryLeaks` | proxy/apiserver/router/router.go:140-166 | a query of one subset for another value gets an object of the default subset |
| `RouteCompiler.GenerateMatchLimitRules` | controllers/server/server_util.go:103-129 | include and exclude rules hold exactly the matched namespaces and their complement, in order |
| `RouteCompiler.GenerateProtoRoute` | controllers/server/server_util.go:59-101 | the nested loops produce the declared subsets in order with the complements collected under the default subset |
| `RouteCompiler.IndexRules` | controllers/server/server_util.go:69-76 | a rule name refers to the last rule declared under it |
| `RouteCompiler.GenerateSubsetLimits` | controllers/server/server_util.go:78-98 | each subset's limits come from its own rules and every complement goes to the default |
| `RouteCompiler.GatherSelectors` | controllers/server/server_util.go:82-85 | a subset's selectors are those of its rules, in order, unknown names skipped |
| `RouteCompiler.ConvertProtoMatchLimitRules` | apis/ctrlmesh/proto/ctrlmesh_internal.go:65-86 | a rule becomes an object limit when it has an object selector and a namespace limit otherwise |
| `RouteCompiler.ConvertProtoRoute` | apis/ctrlmesh/proto/ctrlmesh_internal.go:45-63 | the internal route keeps subsets, order, public resources and default-only user agents |
| `AppMeaning.RulesClaim` | controllers/server/server_util.go:103-129 | compiled rules claim an active namespace exactly when some selector applies to the resource and matches it, or fails it for the complements |
| `AppMeaning.DefaultClaims` | controllers/server/server_util.go:59-101 | the default subset claims a namespace exactly when some declared subset's rules turn it away |
| `AppMeaning.FirstClaimAgrees` | apis/ctrlmesh/proto/ctrlmesh_internal.go:151-196 | the first compiled claim is that of the first declared subset whose selectors answer |
| `AppMeaning.NamedImpliesApplies` | controllers/server/server_util.go:59-101 | a resource named in a compiled route is one that some selector applies to |
| `AppMeaning.SelectorsExactly` | controllers/server/server_util.go:69-85 | a subset is compiled from exactly the selectors of the rules it names, of equally named rules the last |
| `AppMeaning.SelectorsInOrder` | controllers/server/server_util.go:82-85 | in the order in which it names them |
| `AppMeaning.CompilationPreservesMeaning` | controllers/server/server_util.go:59-129 | for every VirtualApp and active namespace, evaluating the compiled route gives the owner read off rules, global limits and public resources: barred, the first subset to take it, the default, public, or nobody |
| `AppMeaning.OwnerIsUnique` | controllers/server/server_util.go:59-129 | there is one such owner |
| `AppMeaning.AgentsPreserved` | controllers/server/server_util.go:62-67 | under the compiled route exactly the user agents kept for the default subset are turned away, everywhere else |
| `AppMeaning.ObjectsPreserved` | controllers/server/server_util.go:103-129 | the compiled limits hold exactly the object selectors that the subset's rules, or the global limits, ask for on the resource; the default subset has none |
| `Validation.ValidateMatchLimitSelector` | webhook/virtualapp/virtualapp_validating_handler.go:152-178 | accepts exactly a rule with one kind of selector, which parses or compiles, and with resources if it selects objects |
| `Validation.ValidateLimits` | webhook/virtualapp/virtualapp_validating_handler.go:95-99 | accepts exactly lists of such selectors |
| `Validation.ValidateRules` | webhook/virtualapp/virtualapp_validating_handler.go:100-117 | accepts exactly rules with distinct non-empty names and valid selectors, and returns the names |
| `Validation.UseRules` | webhook/virtualapp/virtualapp_validating_handler.go:138-146 | accepts exactly names of known rules not used before |
| `Validation.ValidateSubsets` | webhook/virtualapp/virtualapp_validating_handler.go:120-147 | accepts exactly subsets with distinct names, labels and rules, no rule used twice |
| `Validation.Validate` | webhook/virtualapp/virtualapp_validating_handler.go:66-150 | accepts exactly the well-formed VirtualApps; panics exactly when a usable selector comes without a configuration |
| `Validation.RulesInForce` | webhook/virtualapp/virtualapp_validating_handler.go:100-117 | in an admitted VirtualApp no rule is replaced by a later one of its name |
| `Validation.AdmittedSelectors` | controllers/server/server_util.go:69-85 | so a subset gets the selectors of all the rules it names, and no others |
| `Validation.AdmittedSubsets` | webhook/virtualapp/virtualapp_validating_handler.go:120-147 | the compiled route of an admitted VirtualApp lists each subset once and the default last |
| `Validation.AdmittedObjectIsolation` | apis/ctrlmesh/proto/ctrlmesh_internal.go:198-232 | object isolation, from an admitted VirtualApp down to the selectors the proxies compute |
| `Validation.UnknownNamespaceUnowned` | apis/ctrlmesh/proto/ctrlmesh_internal.go:151-196 | a namespace that was not active at compilation belongs to no single subset |
| `NamespaceEvents.AnyDiffers` | controllers/server/virtualapp_event_handler.go:141-166 | the flag is set exactly when some selector of the list changes its answer between the two namespaces |
| `NamespaceEvents.GetSensitiveVApps` | controllers/server/virtualapp_event_handler.go:181-196 | keeps exactly the VirtualApps with a namespace-dependent selector |
| `NamespaceEvents.Update` | controllers/server/virtualapp_event_handler.go:129-169 | enqueues exactly the sensitive VirtualApps with a selector that changes its answer, and none when labels are equal |
| `NamespaceEvents.AlikeCompileAlike` | controllers/server/server_util.go:59-129 | namespace lists that no selector of the VirtualApp tells apart compile to the same route |
| `NamespaceEvents.SkipSound` | controllers/server/virtualapp_event_handler.go:129-169 | a VirtualApp that is not enqueued for an update that leaves deletion alone has the identical route before and after |
| `NamespaceEvents.SkipUnsoundOtherwise` | controllers/server/virtualapp_event_handler.go:129-196 | with a failed listing or a namespace that starts terminating, a VirtualApp whose route changes is skipped |
| `History.RequestsStore.Add` | proxy/protomanager/requests_store.go:53-112 | the in-place update records exactly the request's verdicts, and what was saved equals the contents |
| `History.KeyInjective` | proxy/protomanager/requests_store.go:53-112 | different resources without dots have different keys |
| `History.DottedNamesCollide` | proxy/protomanager/requests_store.go:53-112 | with a dot in the name two resources share one key |
| `History.AddedExactly` | proxy/protomanager/requests_store.go:53-112 | a request adds its verdicts to its own resource and nothing to any other |
| `History.AddedGrows` | proxy/protomanager/requests_store.go:53-112 | no verdict is ever forgotten |
| `History.AddedAgrees` | proxy/protomanager/requests_store.go:53-112 | verdicts that agree with a spec keep the history in agreement with it |
| `History.EarlierAgrees` | proxy/protomanager/proto_manager.go:156-197 | a spec that agrees with a history agreed with all its earlier states |
| `History.VerdictsDependOnRoute` | proxy/protomanager/proto_manager.go:138-197 | agreement depends only on the route and the subset, not on hash or endpoints |
| `SpecManagers.SpecManager.AcquireSpec` | proxy/protomanager/proto_manager.go:126-129 | takes the read lock with the current spec; a step of the protocol |
| `SpecManagers.SpecManager.DecideNamespace` | proxy/apiserver/router/router.go:228-297 | a verdict under the spec held, noted in the request's record |
| `SpecManagers.SpecManager.DecideObject` | proxy/apiserver/router/router.go:131-135 | a verdict on a single object is the held spec's answer, and leaves no record |
| `SpecManagers.SpecManager.DecideUserAgent` | proxy/apiserver/router/router.go:83-89 | the user agent's verdict under the spec held, noted once per request |
| `SpecManagers.SpecManager.AttachSelector` | proxy/apiserver/router/router.go:102-112 | the object selector of the spec held, noted in the request's record |
| `SpecManagers.SpecManager.ReleaseSpec` | proxy/protomanager/proto_manager.go:131-136 | adds the record, if there is one, before the lock is given up |
| `SpecManagers.SpecManager.WriteExpectedSpec` | proxy/protomanager/proto_manager.go:91-95 | the expected spec is set outside the lock |
| `SpecManagers.SpecManager.LoadExpectedSpec` | proxy/protomanager/proto_manager.go:96-107 | under the write lock the expected spec becomes current exactly when it is loadable |
| `SpecManagers.SpecManager.UpdateSpec` | proxy/protomanager/proto_manager.go:91-107 | both halves: requests may still arrive after the first, and all that hold the read lock decide on and end in any order before the second; a path of protocol steps that loads the spec exactly when it agrees with all they recorded |
| `SpecManagers.SpecManager.GetStatus` | proxy/protomanager/proto_manager.go:109-124 | the report carries the two hashes and the subset of the current spec |
| `SpecManagers.SpecManager.CheckLoadable` | proxy/protomanager/proto_manager.go:138-197 | accepts exactly: first spec, or same app and subset with the same hash or full agreement with every record, whatever the iteration order and the early breaks |
| `SpecManagers.SpecManager.CheckRecord` | proxy/protomanager/proto_manager.go:173-196 | one record is judged by all its namespaces and its selector, breaks included |
| `SpecManagers.SpecManager.CheckUserAgents` | proxy/protomanager/proto_manager.go:160-171 | user agents passed and denied are all judged |
| `SpecManagers.StepKeepsInv` | proxy/protomanager/proto_manager.go:91-136 | every step of any request or update keeps the invariant |
| `SpecManagers.RunKeepsInv` | proxy/protomanager/proto_manager.go:91-136 | so does every run |
| `SpecManagers.HistoryAgreesWithCurrent` | proxy/protomanager/proto_manager.go:91-197 | in every reachable state each recorded namespace and user-agent verdict is the current spec's answer |
| `SpecManagers.HistoriesDisjoint` | proxy/protomanager/proto_manager.go:138-197 | the records of proxies of different subsets running one hash share no namespace let through, older specs included |
| `SpecManagers.RunMonotone` | proxy/protomanager/proto_manager.go:138-154 | app and subset stay those first loaded, which the election and traffic handlers copy, and the history only grows |
| `SpecManagers.UserAgentVerdictStays` | proxy/apiserver/router/router.go:83-121 | a recorded user-agent verdict is the verdict of every later spec |
| `SpecManagers.RejectionIsPermanent` | proxy/protomanager/proto_manager.go:138-197 | a hash that contradicts the history is never current later in the run |
| `SpecManagers.MismatchExactly` | proxy/protomanager/proto_manager.go:91-107 | a proxy expects another hash than it runs exactly inside an update to it or after refusing it, never both |
| `SpecManagers.RefusalHappened` | proxy/protomanager/proto_manager.go:96-101 | a standing refusal goes back to a check of the very spec expected, against the history of that moment, with no update since |
| `SpecManagers.MismatchMeansRefusal` | proxy/protomanager/proto_manager.go:91-124 | over every run, two different hashes come from inside an update if and only if the expected spec was not refused |
| `Verdicts.DecidedIsRecorded` | proxy/protomanager/requests_store.go:53-109 | over every run, what a request decided on a user agent or a namespace under the spec it held, and left on record, is on record ever after as it was decided |
| `Verdicts.RecordedWasDecided` | proxy/protomanager/requests_store.go:53-109 | and every verdict on record was decided so by a request that ended with a record |
| `Verdicts.DecisionStands` | proxy/protomanager/proto_manager.go:138-197 | such a decision is the answer of every spec loaded later |
| `Verdicts.LoadsExactly` | proxy/protomanager/proto_manager.go:96-197 | the expected spec is loaded if and only if it is the first, or has the same app and subset and either the same hash or the recorded answer to everything on record and the stored selector for every resource on it; otherwise it is refused and the reason kept |
| `Verdicts.NewestSelectorGuards` | proxy/protomanager/proto_manager.go:175-180 | a new hash is loaded only if it selects what the newest record for the resource selected |
| `Verdicts.SelectorForgotten` | proxy/apiserver/router/router.go:228-236 | a run in which a list response erases the stored selector and a hash with another one is loaded |
| `Verdicts.ReasonOfLastRefusal` | proxy/protomanager/proto_manager.go:98-103 | the reported reason is that of the last refusal, also after another spec was loaded |
| `SilentVerdicts.SilentIsolationExactly` | proxy/apiserver/router/router.go:131-135 | all a proxy let through, recorded or not, is apart from all that any reachable proxy of another subset on its hash let through and still would, if and only if no unrecorded namespace belongs elsewhere now |
| `SilentVerdicts.RecordsStill` | proxy/protomanager/proto_manager.go:138-197 | the namespaces on record are among those a proxy let through and still would |
| `SilentVerdicts.ActedApartExactly` | proxy/apiserver/router/router.go:131-135 | and apart from all that any of them ever let through if and only if no hash gives one of those namespaces to another subset |
| `SilentVerdicts.RunBacked` | proxy/protomanager/proto_manager.go:138-154 | over every run, whatever was let through without a record belonged to the proxy's subset under some hash |
| `SilentVerdicts.SilentOverlap` | proxy/apiserver/router/router.go:131-135 | two runs to two subsets on one hash that have both let a namespace through, one of them on record |
| `ResponseFilters.FilterEach` | proxy/apiserver/router/router.go:228-297 | the loop keeps exactly the matching members and records every judged namespace; a malformed member of an unstructured list stops it |
| `ResponseFilters.FilterItems` | proxy/apiserver/router/router.go:218-297 | list filtering under the lock: result, record and every error case, with other readers untouched |
| `ResponseFilters.FilterEvent` | proxy/apiserver/router/router.go:392-417 | an event that does not match becomes a bookmark and the verdict is recorded; an object without metadata is an error before that |
| `ResponseFilters.JudgeAllExactly` | proxy/apiserver/router/router.go:228-297 | the record holds exactly the judged namespaces, split by verdict |
| `ResponseFilters.KeptMember` | proxy/apiserver/router/router.go:228-297 | a member is delivered exactly when it matches or cannot be read |
| `ResponseFilters.KeptInOrder` | proxy/apiserver/router/router.go:228-297 | in the list's order, each as often as it was there |
| `ResponseFilters.JudgedExactly` | proxy/apiserver/router/router.go:228-297 | judged are exactly the non-empty namespaces of the members, in an unstructured list up to the first malformed one |
| `ResponseFilters.DeliveryIsOnRecord` | proxy/apiserver/router/router.go:218-297 | whatever namespaced member is delivered or held back is afterwards on record as passed or denied |
| `ResponseFilters.RecordComesFromList` | proxy/apiserver/router/router.go:218-297 | and nothing else comes onto the record |
| `WebhookRouting.DeterminePodSubset` | controllers/server/server_util.go:42-57 | the subset of a pod is the first all of whose labels it carries, a missing one reading as empty, else the default |
| `WebhookRouting.GenerateProtoEndpoints` | controllers/server/server_util.go:139-156 | endpoints are the ready pods sorted by name |
| `WebhookRouting.GetMatchedSubsetEndpoint` | apis/ctrlmesh/proto/ctrlmesh_internal.go:113-130 | ignore, self or hosts as the owner of the namespace demands |
| `WebhookRouting.Route` | proxy/webhook/router/router.go:53-70 | ignored if and only if nobody owns the namespace; accepted if and only if it is public or the proxy's own subset's; an error or a redirect if and only if another subset owns it and no endpoint, or some, is of that subset |
| `WebhookRouting.IgnoredByAll` | proxy/webhook/router/router.go:53-70 | one proxy of a route ignores a request if and only if every one does |
| `WebhookRouting.AcceptedByBoth` | proxy/webhook/router/router.go:53-70 | proxies of two subsets both accept if and only if the resource is public and unnamed, the namespace not empty and not barred |
| `WebhookRouting.OwnerAccepts` | proxy/webhook/router/router.go:53-70 | of a request for another subset, exactly the proxies of that subset accept |
| `WebhookRouting.RedirectNamesReadyPods` | controllers/server/server_util.go:139-156 | the hosts of a subset are exactly its ready pods, in name order |
| `WebhookRouting.OneHop` | proxy/webhook/router/router.go:53-70 | every pod a redirect names accepts locally, so nothing is forwarded twice |
| `GrpcServer.GrpcManager.StoreConnection` | controllers/server/grpc_server.go:117-118 | the connection that the mesh's registration event remembers, and nothing else |
| `GrpcServer.GrpcManager.DropExpectation` | controllers/server/grpc_server.go:119-157 | what the mesh's two drop events, at registration and at exit, do to the manager's memory |
| `GrpcServer.GrpcManager.MarkDisconnected` | controllers/server/grpc_server.go:158-161 | the mesh's exit event, after which an active pod blocks Reconcile whatever else is known of it |
| `GrpcServer.GrpcManager.Receive` | controllers/server/grpc_server.go:139-149 | the mesh's report event; without a change nothing is enqueued and nothing differs |
| `GrpcServer.GrpcManager.PodDeleted` | controllers/server/virtualapp_event_handler.go:88-103 | the mesh's deletion event: nothing is awaited from the pod any more; if its VirtualApp is not found the event is lost and everything stays awaited |
| `GrpcServer.GrpcManager.GatePods` | controllers/server/virtualapp_controller.go:104-164 | the gate loop stays shut if and only if some listed pod meets one of the seven conditions; otherwise exactly the active pods with a connection pass, by its status, and exactly their expectations are dropped |
| `GrpcServer.GrpcManager.Classify` | controllers/server/virtualapp_controller.go:198-238 | the four lists of the specification |
| `Manager.GateExactly` | controllers/server/virtualapp_controller.go:104-164 | the seven conditions on listing, connection and expectations, one by one |
| `Manager.PlanSorts` | controllers/server/virtualapp_controller.go:198-238 | every pod is in exactly the list its report calls for |
| `Manager.PlanExactly` | controllers/server/virtualapp_controller.go:198-238 | the four lists, read off subset, hashes, leadership and send count of each report |
| `Manager.ActionExactly` | controllers/server/virtualapp_controller.go:240-289 | non-leaders to replace go first, then leaders, then updates, then dispatches: the kind of action and exactly whom it reaches |
| `Manager.DispatchMeansAgreement` | controllers/server/virtualapp_controller.go:245-289 | a dispatch happens only if every pod that reported a spec reported the hash being dispatched |
| `Manager.UpdateMeansLoaded` | controllers/server/virtualapp_controller.go:245-289 | a spec is only sent to pods that loaded their last one |
| `GrpcServer.GrpcManager.DeletePod` | controllers/server/virtualapp_controller.go:252-260 | the mesh's deletion step: awaited exactly if it went through |
| `GrpcServer.GrpcManager.DeletePods` | controllers/server/virtualapp_controller.go:245-263 | each deletion that went through is expected to be seen |
| `GrpcServer.GrpcManager.CountSent` | controllers/server/grpc_server.go:71-76 | the mesh's send step: counted on the very connection judged, whether or not it went through |
| `GrpcServer.GrpcManager.AwaitHash` | controllers/server/virtualapp_controller.go:272-273 | the mesh's store step |
| `GrpcServer.GrpcManager.SendSpec` | controllers/server/virtualapp_controller.go:266-274 | both, the second only after a send that went through |
| `GrpcServer.GrpcManager.SendSpecs` | controllers/server/virtualapp_controller.go:266-288 | each send is counted and each that went through leaves its hash as expectation |
| `GrpcServer.GrpcManager.Reconcile` | controllers/server/virtualapp_controller.go:87-289 | blocked, or exactly one kind of action: non-leaders, then leaders, then updates, then dispatches; with the exact expectations, deletions awaited and send counts it leaves; a failed listing ends it with nothing done but fulfilled expectations dropped |
| `MeshProtocol.SendKeepsLink` | controllers/server/grpc_server.go:71-76 | sending to a settled pod keeps the hashes on its stream in expected order |
| `MeshProtocol.DeliverKeepsLink` | proxy/protomanager/proto_manager_grpc.go:218-244 | so does the proxy's receiving |
| `MeshProtocol.ReportKeepsLink` | proxy/protomanager/proto_manager_grpc.go:201-216 | so does its reporting |
| `MeshProtocol.ReceiveKeepsLink` | controllers/server/grpc_server.go:139-149 | so does the manager's reading of a report |
| `MeshProtocol.ConnectMakesLink` | controllers/server/grpc_server.go:85-122 | a new stream starts in order |
| `MeshProtocol.GateOpenMeansQuiet` | controllers/server/virtualapp_controller.go:149-156 | on a stream in order, an open hash gate means that everything under way carries the reported hash |
| `MeshProtocol.AgreedMeansAcknowledged` | controllers/server/virtualapp_controller.go:149-156 | then every spec in flight carries the hash the pod last reported as expected |
| `MeshProtocol.ClearingIsSafeExactly` | controllers/server/grpc_server.go:117-119 | dropping an expectation keeps a stream in order if and only if everything under way is the reported hash |
| `MeshProtocol.OrderRestored` | controllers/server/grpc_server.go:139-149 | a stream is in order as soon as nothing is on the way and the last report read is true, whatever happened before |
| `MeshSafety.StepKeepsMesh` | controllers/server/virtualapp_controller.go:72-289 | every event of pods, streams, proxies and Reconcile keeps the mesh invariant |
| `MeshSafety.MeshAlwaysOK` | controllers/server/virtualapp_controller.go:72-289 | the mesh invariant holds in every state of every run |
| `MeshOrder.OrderExactly` | controllers/server/grpc_server.go:117-161 | any step of pods, streams or Reconcile leaves the stream of a listed pod in order if and only if it is not a drop of the expectation with another hash under way |
| `MeshOrder.QuietStreamInOrder` | controllers/server/grpc_server.go:139-149 | a stream with nothing on the way and a true last report is in order, whatever is awaited |
| `MeshOrder.RegistrationStartsInOrder` | controllers/server/grpc_server.go:117-118 | so is every new stream |
| `MeshOrder.ExpectationGate` | controllers/server/grpc_server.go:117-161 | from any moment in order, the gate of a listed pod is sound at every moment if and only if every drop of its expectation found only the reported hash under way, or a spec whose expectation was still to be stored |
| `MeshOrder.StreamBegan` | controllers/server/grpc_server.go:117-118 | every connection goes back to a registration, has lasted since, and began in order |
| `MeshOrder.ReadIsFair` | controllers/server/virtualapp_controller.go:138-142 | a status read from a stream in order is true of the pod if the gate would pass it |
| `MeshOrder.ReadingExactly` | controllers/server/virtualapp_controller.go:138-156 | between the gate's two reads the status stays true of the pod whenever the gate would pass if and only if it was so at once and every drop in between found the pod as it says |
| `MeshTheorems.JudgementOf` | controllers/server/virtualapp_controller.go:104-164 | every pod that has passed the gate was read and judged by the Reconcile in progress, at moments of this run |
| `MeshTheorems.TruthLasts` | controllers/server/virtualapp_controller.go:104-289 | what was true of a pod when it passed stays true through every interleaving until a spec is sent to it, and of the dispatched hash beyond that |
| `MeshTheorems.NoSpecBeforeAcknowledgement` | controllers/server/virtualapp_controller.go:266-288 | when a spec is sent to a pod judged fairly, whatever is still in flight has a hash the pod has reported |
| `MeshTheorems.DispatchBarrier` | controllers/server/virtualapp_controller.go:266-289 | during a dispatch every pod judged fairly runs, expects and is being sent nothing but the dispatched hash, at that moment |
| `MeshTheorems.DispatchMeansIsolation` | controllers/server/virtualapp_controller.go:266-289 | and the records of such pods of different subsets share no namespace let through |
| `MeshTheorems.CoveredMeansJudged` | controllers/server/virtualapp_controller.go:104-164 | every pod that passed the gate or was connected all along is one that was judged |
| `MeshTheorems.HarmlessBarrier` | controllers/server/virtualapp_controller.go:104-289 | the barrier holds for a covered pod whose stream was in order when the Reconcile began, if no drop since then was harmful |
| `MeshTheorems.CautiousBarrier` | controllers/server/grpc_server.go:117-161 | and for every covered pod of every run in which handlers drop an expectation only if nothing was sent on the stream or the status in hand fulfils it, and so does any status being read |
| `MeshTheorems.UndividedBarrier` | controllers/server/grpc_server.go:117-161 | and for every covered pod of every run in which registration, exit and gate are undivided |
| `MeshGate.ReadyPodsAreJudged` | controllers/server/virtualapp_controller.go:117-133 | in every run, while specs are sent every listed pod that is running and ready, or pending and young, is among those judged |
| `MeshGate.NothingStillStopping` | controllers/server/virtualapp_controller.go:105-112 | while anything is deleted or sent, no inactive pod listed has a running container |
| `MeshGate.JudgedPodsQualify` | controllers/server/virtualapp_controller.go:113-164 | a judged pod was listed active, not awaited to be deleted and connected when read, with that stream's status, and what was awaited was fulfilled when it passed |
| `MeshGate.ReadyBarrier` | controllers/server/virtualapp_controller.go:104-289 | with cautious handlers every ready pod still listed runs only the dispatched hash |
| `MeshSends.SendsAreCounted` | controllers/server/grpc_server.go:71-76 | in every run a connection's counter is the number of sends on its very stream |
| `MeshSends.RedispatchExactly` | controllers/server/virtualapp_controller.go:233-237 | a dispatch goes to a judged pod if and only if it reported no spec or nothing was ever sent on its stream |
| `MeshSends.OwnSubsetOnly` | controllers/server/virtualapp_controller.go:178-196 | in every run, as long as a pod is in one subset it is sent, expects and runs specs of that subset only |
| `MeshTheorems.HandoffSafety` | controllers/server/virtualapp_controller.go:104-116 | after a deletion no later Reconcile acts unless it saw the pod stopped or absent, or the pod is gone |
| `MeshTheorems.LeadersGoLast` | controllers/server/virtualapp_controller.go:245-263 | when leaders are deleted, every pod to be replaced is a leader |
| `MeshTheorems.ReportsAreTrue` | controllers/server/grpc_server.go:123-149 | every report in a connection, in flight or in a Reconcile's hands was true of its pod's proxy at an earlier moment |
| `MeshTheorems.ReportsSayWhatRuns` | proxy/protomanager/proto_manager.go:109-124 | its subset, hashes and reason are those the proxy ran, expected and gave at that moment |
| `MeshTheorems.ReplacementMeansRefusal` | controllers/server/virtualapp_controller.go:216-225 | a pod replaced for two different hashes had refused the spec it expects when it reported them if and only if it was not inside an update |
| `MeshTheorems.UpdateWindowLooksRejected` | proxy/protomanager/proto_manager.go:91-107 | a report from inside an update to a new hash is always classified as needing replacement |
| `MeshRaces.RegistrationBreaksGate` | controllers/server/grpc_server.go:117-119 | a reachable state with a live pod's gate open and an unacknowledged spec in flight to it |
| `MeshRaces.RegistrationBreaksBarrier` | controllers/server/grpc_server.go:117-119 | a reachable dispatch of one hash while a pod connected all along runs another |
| `MeshRaces.ExitBreaksBarrier` | controllers/server/grpc_server.go:156-161 | the same with a Reconcile between the two halves of a handler's exit |
| `MeshRaces.ExitBetweenReadsBreaksBarrier` | controllers/server/virtualapp_controller.go:138-156 | the same with a whole exit between the two reads of the gate |
| `MeshRaces.LateRegistrationEscapes` | controllers/server/virtualapp_controller.go:117-164 | a reachable dispatch while a pod that registered late runs another hash and is not covered |
| `RawQuery.ParseRawQuery` | util/http/request_util.go:8-25 | the loop fails exactly on a piece without exactly one '=' and else gives the last value of each key |
| `RawQuery.MarshalRawQuery` | util/http/request_util.go:27-38 | the text lists every pair once in some order, and parses back to the map if and only if no key or value holds a separator |
| `RawQuery.ParseGivesClean` | util/http/request_util.go:8-25 | keys and values that come out of parsing hold no separator |
| `RawQuery.RoundTripExact` | util/http/request_util.go:8-38 | in every walking order, parsing the marshalled map gives it back if and only if no key or value holds '&' or '=' |
| `RawQuery.ParseMarshalParse` | util/http/request_util.go:8-38 | for every query that parses, parse, marshal, parse is parse |
| `WatchStream.Serializer.DecodeWatch` | proxy/apiserver/router/serializer.go:214-237 | takes the next frame through the shared buffer; an end or a frame that does not decode is reported as such |
| `WatchStream.Serializer.EncodeWatch` | proxy/apiserver/router/serializer.go:239-251 | the buffer holds exactly the encoded frame, replaced only when too small; a frame that cannot be encoded is an error |
| `WatchStream.WatchHandler.Read` | proxy/apiserver/router/router.go:318-350 | for any buffer size the bytes are the next ones of the pending stream, nothing lost or repeated; an error comes with no bytes, and only where the stream ends or the request is canceled; progress on every other call |
| `WatchStream.WatchHandler.ReadRemaining` | proxy/apiserver/router/router.go:320-332 | the tail of a frame comes out of the shared buffer before it is reused |
| `WatchStream.WatchHandler.ReadFrame` | proxy/apiserver/router/router.go:334-350 | a frame longer than the caller's buffer leaves exactly its rest |
| `WatchStream.StreamExactly` | proxy/apiserver/router/router.go:334-420 | what is to come out are the frames before the first that cannot be dealt with, whole and in order; a clean end is reported only when none was left behind |
| `WatchStream.CopyBuffer` | util/http/reverse_proxy.go:464-493 | what reaches the client is a prefix of the encoded frames up to the first bad one, all of them unless the client fails or goes away, for any frame lengths and buffer; the end is reported as it was |
| `Traffic.TrafficControl.Allow` | proxy/filters/traffic/rate_util.go:46-109 | a token exactly when there is a limit with room; refused when full, or by bucket or backoff, then with the token kept for release |
| `Traffic.TrafficControl.Unwind` | proxy/filters/traffic/traffic.go:124-126 | the deferred releases give back every token and nothing else, never from an empty channel |
| `Traffic.TrafficControl.Examine` | proxy/filters/traffic/traffic.go:117-130 | a control met before is not asked again, so the verdict is that of the state at arrival |
| `Traffic.TrafficControl.Admit` | proxy/filters/traffic/traffic.go:102-134 | served if and only if every policy passes; otherwise the first that does not decides, by its missing section, its broken circuit or its first rate without room; one token per limited control passed |
| `Traffic.TrafficControl.ServeHTTP` | proxy/filters/traffic/traffic.go:85-135 | after every exit, served, refused, circuit broken, without request info or panicked, all controls are as before; while served each applicable limit counts the request once; an unlistable policy set lets it through |
| `TrafficRuns.StepKeeps` | proxy/filters/traffic/rate_util.go:71-80 | every step of any request keeps fill equal to holders, and no release blocks |
| `TrafficRuns.InFlightConserved` | proxy/filters/traffic/traffic.go:102-134 | in every interleaving a channel's fill is the number of calls holding its token, at most the limit, and zero when nobody is left |
| `TrafficRuns.NeverOverTheLimit` | proxy/filters/traffic/traffic.go:102-134 | no more requests than the limit are inside the handler together |
| `TrafficRuns.TakenOnceReleasedOnce` | proxy/filters/traffic/rate_util.go:58-80 | a request only takes until it leaves and then only gives back |
| `TrafficRuns.NeverStuck` | proxy/filters/traffic/traffic.go:102-134 | a live request's own next step is always possible and brings it nearer to leaving |
| `AtomicPayload.ValidatePath` | webhook/util/writer/atomic/atomic_writer.go:245-275 | accepts exactly relative paths within the length limits, without "..", not starting with ".." |
| `AtomicPayload.ValidatePayload` | webhook/util/writer/atomic/atomic_writer.go:224-236 | accepted exactly when every path is; every cleaned path has the content of one that cleans to it |
| `AtomicPayload.ValidPathStaysInside` | webhook/util/writer/atomic/atomic_writer.go:245-275 | a valid path leads, name by name, to what it cleans to, below the directory it starts from |
| `AtomicPayload.ValidPathFits` | webhook/util/writer/atomic/atomic_writer.go:245-275 | its text and each of its names are within the limits |
| `AtomicPayload.ValidStaysClear` | webhook/util/writer/atomic/atomic_writer.go:245-275 | a valid path that does not open with "." stays clear of the writer's names |
| `AtomicPayload.DotPrefixReachesDataDir` | webhook/util/writer/atomic/atomic_writer.go:224-275 | one that does can clean to the data link's name |
| `AtomicPayload.PathsToRemove` | webhook/util/writer/atomic/atomic_writer.go:311-348 | exactly the old files and directories that no new path passes through |
| `AtomicPayload.ShouldWritePayload` | webhook/util/writer/atomic/atomic_writer.go:278-306 | no write exactly when every file is there with the same content; otherwise the answer belongs to some file |
| `AtomicPayload.NothingToDo` | webhook/util/writer/atomic/atomic_writer.go:148-167 | nothing to write and nothing to remove if and only if the directory holds exactly the payload |
| `AtomicPayload.ShownIsVisible` | webhook/util/writer/atomic/atomic_writer.go:413-434 | following the visible names reaches exactly the files behind the data link |
| `AtomicWriter.Disk.NewTimestampDir` | webhook/util/writer/atomic/atomic_writer.go:351-368 | a fresh directory that nobody sees |
| `AtomicWriter.Disk.WritePayloadToDir` | webhook/util/writer/atomic/atomic_writer.go:372-401 | on success the directory holds exactly the payload; at every step, partial files included, readers see the old one |
| `AtomicWriter.Disk.CreateUserVisibleFiles` | webhook/util/writer/atomic/atomic_writer.go:413-434 | a link for every first component, existing ones kept, with nothing new to be seen yet |
| `AtomicWriter.Disk.RemoveUserVisiblePaths` | webhook/util/writer/atomic/atomic_writer.go:437-452 | removes exactly the stale top-level names; a failure is remembered and the rest still goes |
| `AtomicWriter.Disk.Rename` | webhook/util/writer/atomic/atomic_writer.go:191-204 | one state change from the old payload to the complete new one, or none |
| `AtomicWriter.Disk.CleanUp` | webhook/util/writer/atomic/atomic_writer.go:206-220 | old links and the old directory go while the new payload is shown throughout |
| `AtomicWriter.Disk.Write` | webhook/util/writer/atomic/atomic_writer.go:118-221 | in a directory the writer owns and for names free for the payload, at every step and after every failure the states show the old payload up to one point and exactly the new one from there; success installs it completely, or changes nothing if it was there; invalid paths and an unreadable data link change nothing |
| `AtomicWriter.FlipShowsExactly` | webhook/util/writer/atomic/atomic_writer.go:177-204 | after all steps up to the rename the payload is shown through its names if and only if they were free for it or had their links |
| `AtomicWriter.OrdinaryNamesPublishable` | webhook/util/writer/atomic/atomic_writer.go:413-434 | names that do not begin with ".." are free for every payload |
| `AtomicWriter.DataLinkOverwritten` | webhook/util/writer/atomic/atomic_writer.go:224-275 | a valid path that cleans to the data link's name makes a state that shows neither payload |
| `AtomicWriter.LeftoverLinkStays` | webhook/util/writer/atomic/atomic_writer.go:413-452 | a link left by an unfinished write survives a complete one |
| `AtomicWriter.ReadersSeeWholePayloads` | webhook/util/writer/atomic/atomic_writer.go:118-221 | the files reached through the visible names are all of one payload, at every moment |
| `AtomicWriter.VisibleNamesExact` | webhook/util/writer/atomic/atomic_writer.go:413-452 | after a change the visible names are those of the payload if and only if no others than the two payloads' were there |

## Left out

- Persistence of the history and of the current spec to files; runs start from an empty history or a consistent one.
- Agreement of the stored object selectors with the current spec, which the code does not keep (SelectorForgotten).
- Verdicts on webhook requests, which the proxy does not record.
- MeshTheorems.DispatchBarrier: leaves out pods that register after they were read and pods judged by an unfair reading, because the code lets both through (LateRegistrationEscapes, RegistrationBreaksBarrier, ExitBreaksBarrier).
- MeshTheorems.NoSpecBeforeAcknowledgement: leaves out pods judged by an unfair reading, for the same reason.
- MeshTheorems.DispatchMeansIsolation: leaves out the same pods.
- Injection.InjectSelector: reading a selector from its escaped text and writing one are parameters, as they belong to the Kubernetes and URL libraries.
- NamespaceEvents.SkipSound: assumes that listing VirtualApps succeeds, because the code skips everything otherwise (SkipUnsoundOtherwise).
- AtomicWriter.Disk.Write: file modes, empty directories and the Windows branch are not modelled; the timestamped name is a parameter.
- WatchStream.Serializer.DecodeWatch: frames are given byte sequences with their fate; frame reading, gzip and the codecs are not modelled.
- WatchStream.Serializer.EncodeWatch: gzip and the codecs are not modelled.
- Traffic.TrafficControl.Allow: the token bucket and the exponential backoff are one given answer per control.
- Traffic.TrafficControl.ServeHTTP: which policies apply is given; their selection by target and its cache are not modelled.
- Several handlers of one pod's old and new streams at once; liveness, timers, requeues and heartbeats.
- Deletion is by pod identity here, by name in the code.
- Validation of updates against the old object, pod injection, leader election renaming, header handling, TLS, certificates, health checks, iptables and generated code.
