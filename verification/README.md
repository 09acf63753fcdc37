# The declarative core of kubefork-controller, in Dafny

kubefork-controller gives a set of services a "virtual cluster": a `Fork` selects services, the
controller copies them together with the deployments behind them, and requests that carry the fork's
identifier in a header are routed to the copies. Everything it does is declarative reconciliation:
compute the objects that should exist, compare with those that do, then create, update and delete.
This project models that engine over a cluster store and proves what it achieves.

| file | what it is about |
|---|---|
| `Text.dfy`, `Runs.dfy`, `Kube.dfy` | byte strings, sorting and splitting; sequences of steps; objects, label selectors, owner references, and a cluster API any call of which may fail before or after it took effect |
| `ResourceName.dfy` | generated names that fit a label |
| `Refresh.dfy`, `RefreshTheorems.dfy`, `RefreshRetry.dfy` | the generic refresher: the plan of a run, convergence and framing, safety of every prefix, retry, repetition |
| `Routing.dfy`, `VirtualServices.dfy` | VSConfigs compiled to a first-match route list; the updater and the reconciler of VirtualServices |
| `Loop.dfy`, `Agreement.dfy` | the level-triggered reconcile loop as a protocol, once on its own and once over the store, the second refining the first; the reconciler as a run of it |
| `ForkApp.dfy`, `Microservice.dfy` | expanding a fork into copied services, DeploymentCopies and VSConfigs; what forking preserves |
| `ForkSettling.dfy`, `ForkRuns.dfy`, `ForkSteady.dfy` | what one successful update leaves, whatever had become of the copies before; any number of updates of any number of forks: copies are not forked, cluster IPs stay while base services are edited, and what a fork's first success stored is fixed as long as its inputs are |
| `EndToEnd.dfy`, `Traffic.dfy` | a request from the header to the pods: after one update of each controller, and in every quiet state of both |
| `Example.dfy` | a small cluster that meets the hypotheses, for a fork of any name, and one in which the copies have drifted |
| `Mappings.dfy`, `MappingSync.dfy`, `MappingTheorems.dfy`, `MappingCleanUp.dfy` | gateway mappings: contents, the synchronising run, exactness, iteration order, failure, all managers |
| `ForkController.dfy` | reconciling one fork |
| `Selector.dfy`, `Preview.dfy` | the label options of `kubeforkctl` and its own selection of deployments |
| `Counterexamples.dfy` | concrete inputs on which the code does less than one may expect |

What is assumed throughout:

- A string is a sequence of bytes, one `char` each. Maps that Go iterates in random order are iterated
  in an arbitrary order here, and list calls answer in an arbitrary order.
- Each API call is served, is refused, or is lost: it took effect but the caller sees an error.
  `CreateOrUpdate` is a get, a change and a write. Only the modelled controller writes during one of
  its runs; between runs anything may happen, as each theorem states.
- `scheme.Convert` in the refresher overwrites the live object, old owner references included, and
  the name and namespace are put back (`pkg/refresh/refresh.go:92-113`).
- A parent reports the kind and version its scheme entry has (`Kube.Typed`), so the owner reference
  that is written is one `ownedByParent` recognises.
- A nil label selector matches nothing and an empty one everything; a fork's pod template, when
  present, has metadata.
- Refresher failures happen between the steps of a run: after an error the store is that of some
  prefix of the plan, the last call having taken effect or not.

Where the code does less than one may expect, the first lemma named states exactly when it does what it should, for
all inputs, and the second shows an input on which it does not:

- a DeploymentCopy whose name exceeds 63 bytes is deleted and created again on each run (`RefreshRetry.NameIdentityRerun`; `Counterexamples.LongCopyIsRecreated`);
- for such forks, and for copied services whose shortened name hides their cluster IP from the next expansion, updates can go on changing the store (`ForkSteady.NothingChangesWhen`; `Counterexamples.LongCopyIsRecreated` for one list);
- the copied service is reached by the fork's requests only if its name has at most 63 bytes: the VSConfig keeps the whole name (`EndToEnd.CopyNameServed`; `Counterexamples.LongNameNotReached`);
- a template label may break who routes to whom (`Microservice.ForkingPreservesRoutability`; `Counterexamples.TemplateBreaksRoutes`);
- a fork whose service selector accepts the labels of its own copies selects more after its first update (`ForkSettling.SelectionStable`; `Counterexamples.CopySelected`);
- a VSConfig that changes its host leaves the old host's routes behind (`Agreement.HostMove`; `Counterexamples.MoveLeavesRoute`);
- so does one deleted while the controller is down: it is quiet and disagrees (`Agreement.QuietAgreementWhen`; `Counterexamples.OrphanStays`);
- upgrades of a fork that adds no header are dropped (`Mappings.MergedOptions`; `Counterexamples.UpgradesDropped`);
- the iteration order shows when identifiers write different mappings under one name (`MappingTheorems.OrderMattersNot`; `Counterexamples.IdentifiersCollide`), which normalising dots to dashes permits (`MappingTheorems.KeysDistinctWhen`);
- managers of one name in different namespaces delete each other's mappings (`MappingCleanUp.EveryManagerExact`; `Counterexamples.NamesakesClash`);
- `a!b` is accepted as a label option and read as `!b` (`Selector.ReadThenPrint`, `Selector.AcceptedBeyondDocumented`; `Counterexamples.StrayNotIsRead`);
- a service selector that conflicts with the deployment selector makes the preview show what will not be copied (`Preview.PreviewMatchesController`; `Counterexamples.ConflictMisleads`).

## Model

| member | source | states |
|---|---|---|
| ResourceName.CutIsProportional | pkg/refresh/refresh.go:193-203 | each cut position, computed through a ratio, is exactly the floor of 60 × part length ÷ joined length |
| ResourceName.ComposedNameFits | pkg/refresh/refresh.go:189-205 | for all parts: below 60 bytes the join is untouched, otherwise 59 or 60 bytes made of a prefix of each part, both cuts in range; within the 63-octet label limit of section 2.3.4 of RFC 1035 |
| ResourceName.RoundedNameFits | pkg/refresh/refresh.go:201-204 | the 59–60 bound and the ranges survive either rounding of each cut |
| Refresh.Refresh | pkg/refresh/refresh.go:66-120 | whatever fails, the store is that of a prefix of the plan for the list answer received; after a success, of the whole plan |
| Refresh.HandleExisting | pkg/refresh/refresh.go:122-168 | whether or not a call fails, all that is done is deleting stale owned objects, a prefix of them in list order; the live object found per wanted identity is the last one listed |
| Refresh.WriteItem | pkg/refresh/refresh.go:72-117 | one write puts the desired object, under the chosen name and owned by the parent alone, or fails with the store as it was or so written |
| Refresh.OwnershipMeaning | pkg/refresh/refresh.go:170-187 | an object is owned if and only if one of its references has the version, kind and name the parent reports, controller or not |
| RefreshTheorems.StoredAsDesired | pkg/refresh/refresh.go:92-115 | after a completed run the slot of each item holds the whole body and all labels of the item, under the slot's name in the parent's namespace, with the parent as controller, alone if the item had no owners |
| RefreshTheorems.SlotMeaning | pkg/refresh/refresh.go:79-91 | the name of that slot: of the last owned object listed with the identity, else the item's own cut to 63 bytes, else composed of identity and parent |
| RefreshTheorems.ExistingMeaning | pkg/refresh/refresh.go:135-147 | the live object of a wanted identity is the last owned one listed, and there is one if and only if some listed one is owned and of that identity |
| Kube.UpsertMeaning | pkg/refresh/refresh.go:112 | setting the controller replaces the first reference to the parent or appends one, and leaves all other owners in place |
| Kube.AcceptedParent | pkg/refresh/refresh.go:112 | a parent is accepted if and only if it is in the same namespace or none and the first controller among the owners, if any, is the parent |
| RefreshTheorems.PrefixOutcome | pkg/refresh/refresh.go:72-117 | after any prefix of a run each key is as it was, or gone because it was owned and stale, or holds the desired object chosen for it |
| RefreshTheorems.RefreshConverges | pkg/refresh/refresh.go:66-168 | from any store, a run that meets no error leaves the owned identities exactly the wanted ones, every desired object stored (field by field in `StoredAsDesired`), this parent as only owner where items come without owners, and all else unchanged, provided the items go to distinct names and keep their identities when stored |
| RefreshTheorems.UniquenessPreserved | pkg/refresh/refresh.go:135-156 | at most one owned object per identity before a run means at most one after it |
| RefreshTheorems.RefreshTwice | pkg/refresh/refresh.go:79-91 | with no duplicates, a second run on the result, for any list answer, meets no error, deletes nothing and leaves the store equal |
| RefreshRetry.PartialRunIsSafe | pkg/refresh/refresh.go:144-164 | however far a run over items with distinct names got, no owned object of a wanted identity is gone and the frame holds; with at most one owned object per identity, no wanted identity is without an object it had |
| RefreshRetry.CanonicalPreserved | pkg/refresh/refresh.go:72-117 | every prefix of a run keeps owned objects under the canonical name of their identity |
| RefreshRetry.CompleteRunSettles | pkg/refresh/refresh.go:66-168 | with canonical names a successful run ends in the one store determined by the start and the desired list |
| RefreshRetry.RefreshRetries | pkg/refresh/refresh.go:72-117 | after any number of failed runs, the next successful one reaches the same final store as a run from the beginning |
| RefreshRetry.NameIdentityRerun | domain/lister/internal/application.go:52-54 | with names as identities a repeated run deletes nothing if and only if every desired name has at most 63 bytes |
| RefreshRetry.OrderlyRunSettles | pkg/refresh/refresh.go:66-168 | with names that stay apart when shortened, too, a successful run ends in the one store determined by the start and the desired list, also where objects are deleted and created again |
| RefreshRetry.NeverAborts | pkg/refresh/refresh.go:66-168 | with writable items and readable owned objects, only a failing call can stop a run |
| Routing.BuildHTTPRoutes | domain/lister/virtualservice.go:71-115 | the loop yields the table of applying configs in the order given, the default route last |
| Routing.TableMeaning | domain/lister/virtualservice.go:71-115 | first-match evaluation of the list is lookup of the smallest-named config with this host, a non-empty value and a matching header; the service itself if there is none |
| Routing.LookupMeaning | domain/lister/virtualservice.go:71-119 | the same for the configs of a namespace, told by their fields: where requests with given headers go, and when there are routes besides the default |
| Text.BelowMeaning | domain/lister/virtualservice.go:49 | the order of names: a proper prefix first, else the first byte that differs decides |
| Routing.TableHasRoutes | domain/lister/virtualservice.go:117-119 | the table has more than the default route exactly when some config applies to the service |
| Routing.SortingForgetsOrder | domain/lister/virtualservice.go:49 | every arrangement of the namespace's configs sorts to the same list, names being unique |
| Routing.TableDependsOnApplying | domain/lister/virtualservice.go:74-76 | two sets of configs that agree on those applying to a service give it the same table |
| VirtualServices.Build | domain/lister/virtualservice.go:41-58 | the configs handed on are those of the namespace in name order, whatever order the list call answered in |
| VirtualServices.RefreshWritesOneKey | domain/updater/virtualservice.go:44-48 | however far a refresh for a service got, only the VirtualService under its name changed, and only to what the table calls for |
| VirtualServices.UpdateAgrees | domain/updater/virtualservice.go:31-51 | one update, finished or not, takes no service out of agreement with its configs, and a successful one brings its own service into agreement |
| VirtualServices.AgreedMeaning | domain/lister/virtualservice.go:117-136 | a service in agreement owns a VirtualService if and only if some config is for it and has a value; what it owns bears its name and label, has it for its only owner and host, and leads each request as the configs say |
| VirtualServices.LastHostMeaning | domain/lister/virtualservice.go:143-151 | the identity of a VirtualService is its last host, the empty string without hosts |
| VirtualServices.UpdateCanSucceed | domain/updater/virtualservice.go:31-51 | from any store where the service exists some run of the update succeeds |
| VirtualServices.Update | domain/updater/virtualservice.go:31-51 | a success is a completed refresh for the snapshot read, a failure a prefix of it or nothing |
| VirtualServices.UpdateAll | domain/updater/virtualservice.go:53-66 | a chain of successful updates, one per service of the namespace, that a failed one may cut short; success brings every service into agreement; failure takes none out of it |
| VirtualServices.Reconcile | controllers/vsconfig_controller.go:55-72 | an update of the config's host, or, when the config is gone, of every service in turn, or an early failure; success leaves those services in agreement; no visit takes a service out of agreement or touches other kinds |
| Loop.NextKeepsInv | controllers/vsconfig_controller.go:55-72 | every step — change, delivery, pop, lookup, snapshot, write, failure with requeue — keeps: each service agrees, or a key for it waits or is in flight with nothing stale read |
| Agreement.NextSimulated | controllers/vsconfig_controller.go:55-72 | every step over the store, refreshes that fail half-way and changes of any number of configs included, is a step of the abstract loop |
| Agreement.AgreementInEveryRun | controllers/vsconfig_controller.go:55-72 | in every state of every interleaving each service owns exactly the VirtualService its configs call for or is attended to; an empty idle queue means agreement everywhere |
| Agreement.QuietAgreementWhen | main.go:99-112 | from a fresh start, every quiet state of every run has all services in agreement if and only if no service without configs holds a stale VirtualService |
| Agreement.ReconcileIsARun | controllers/vsconfig_controller.go:55-72 | whatever a call of the reconciler does, failing calls included, is a run of steps of the protocol from the key popped to the key done or back in the queue |
| Agreement.CanProgress | domain/updater/virtualservice.go:53-66 | a controller that is not quiet and works on services that exist can take a step over the store without a failing call, and goes on being able to |
| Agreement.ComesToRest | controllers/vsconfig_controller.go:55-72 | from every state that meets the invariant, if each config's host exists, a run over the store of bounded length ends quiet with every service in agreement; its first step is a failure only if a service in hand does not exist |
| Agreement.UndisturbedRunsEnd | domain/updater/virtualservice.go:53-66 | without users and failures every run of the controller over the store is of bounded length |
| Agreement.HostMove | controllers/vsconfig_controller.go:71 | after a config moves hosts and is reconciled, everything agrees if and only if the host is the same, the old value was empty, or the old host is no service |
| ForkApp.InverseMap | domain/lister/internal/builder.go:178-191 | for any iteration order: x is listed under y exactly as often as y was under x, and no list is empty |
| ForkApp.RoutingLabelsDistinct | domain/lister/internal/service.go:13-18 | routing label keys are injective in the service name and never the identifier key |
| ForkApp.Build | domain/lister/internal/builder.go:34-70 | the app holds exactly the selected services, exactly the candidate deployments routable from one of them, sorted and once each, and for each the set of services that route to it |
| ForkApp.SelectionMeaning | domain/lister/internal/builder.go:87-104 | told of the store: services of the namespace whose labels the fork's selector accepts, deployments its other selector accepts and whose pod labels hold all entries of the selector of one of those services; nothing where a selector is missing |
| ForkApp.ManagerKeyMeaning | domain/lister/internal/builder.go:72-85 | a manager is named if and only if the field has exactly one slash, namespace before and name after it |
| ForkApp.HeaderMeaning | domain/lister/internal/builder.go:72-85 | the header is the header key of the manager stored under that namespace and name |
| ForkApp.ExistingForkedServices | domain/lister/internal/builder.go:106-132 | the map holds exactly the services of the namespace labelled with the identifier, by name |
| ForkApp.ForkedMeaning | domain/lister/internal/builder.go:106-132 | a service is among them if and only if it is stored in the namespace under that name with the fork's identifier under the identifier label |
| ForkApp.ListDeploymentsRoutableFrom | domain/lister/internal/builder.go:134-176 | exactly the deployments the fork's selector matches whose pods the service's selector matches; none without a selector |
| ForkApp.BuildServiceCopy | domain/lister/internal/service.go:20-50 | the copy keeps the ports without node ports and a known cluster IP, is labelled with original and identifier, and selects by routing label and identifier |
| ForkApp.ServiceCopyMeaning | domain/lister/internal/service.go:20-50 | field by field: type, each port without its node port, the cluster IP found under the full name or none, exactly the two labels and the two selector entries |
| ForkApp.ConfigCopyMeaning | domain/lister/internal/service.go:58-70 | the config sends requests for the original that carry the identifier in the manager's header to the copy's full name |
| ForkApp.IdentityMeaning | domain/lister/internal/application.go:70-94 | copied services are told apart by the original's name in their label, the empty string without it, configs by their host |
| ForkApp.BuildDeploymentCopy | domain/lister/internal/deployment.go:14-81 | the loops yield the copy that `DeploymentCopyMeaning` describes |
| ForkApp.DeploymentCopyMeaning | domain/lister/internal/deployment.go:14-66 | the copy targets the deployment, has the fork's name as suffix, the fork's replicas or one, the template's annotations and name, image and environment of each of its containers in order, and pod labels: the template's, else identifier and one routing label per service |
| Microservice.CopyRoutesWhen | domain/lister/internal/deployment.go:26-53 | label by label, when a copied service's selector matches a copy's custom labels |
| Microservice.ForkingPreservesRoutability | domain/lister/internal/builder.go:49-69 | for all selected services and copied deployments the copies route to each other exactly as the originals do, if and only if the template leaves the identifier alone and contradicts no routing label |
| Microservice.Update | domain/updater/microservice.go:31-54 | success is three completed refreshes in order for what was expanded from the store; failure stops inside one of them; a fork that is gone changes nothing |
| ForkRuns.StepKeepsInv | domain/lister/internal/builder.go:87-104 | an update of any fork, finished or not, and any edit that gives no base service to a fork and keeps what marks other services, keep: base services belong to no fork, all other services are rejected by every selector, and those forks own carry the names of copies |
| ForkRuns.NeverForkedAgain | domain/lister/internal/builder.go:87-104 | in every state of every run, in which base services come, change and go, if selectors reject the two labels of copies, each fork selects exactly the base services, as they are then, that its selector accepts |
| ForkRuns.StepKeepsIP | domain/lister/internal/service.go:24-27 | one step, of this fork or another, or an edit of base services or of what copies hold, leaves the cluster IP of a copy of a selected service as it is |
| ForkRuns.ClusterIPKept | domain/lister/internal/service.go:24-27 | once a copy has a cluster IP, every later state of the run has the same one, as long as its service is selected, however base services are edited and whatever else of the copy lags behind |
| ForkSettling.UpdateDelivers | domain/updater/microservice.go:44-51 | however far the owned copies had drifted, a successful update stores exactly the desired objects of its three kinds, under their shortened names, owns no others of them, and touches no other kind |
| ForkSettling.UpdateContents | domain/updater/microservice.go:44-51 | field by field, after a successful update: for each copied deployment a DeploymentCopy that targets it, for each selected service its copy and its config, each under the shortened name and owned by the fork alone, and the fork owns nothing else of these kinds |
| ForkSettling.ConfigsComeLast | domain/lister/internal/application.go:30-41 | at whatever point an update stopped, it has changed no VSConfig before all copied services and DeploymentCopies were in place, and no service before all DeploymentCopies |
| ForkSettling.UpdateFrames | domain/updater/microservice.go:44-51 | over the whole update, what the fork did not own and does not desire is unchanged, and what it owned and does not desire is gone, from the same stores |
| ForkSettling.UpdateCanSucceed | domain/updater/microservice.go:31-54 | from any expansion some run of the update succeeds: no branch gives up on its own |
| ForkSettling.UpdateTwice | domain/updater/microservice.go:31-54 | a second successful update, from its own fresh expansion, leaves the whole store equal, names of any length and whatever the first one had to repair included |
| ForkSteady.FixedAfterFirstSuccess | domain/updater/microservice.go:31-54 | over any run of updates of any forks, finished or not, of IP allocations and of changes elsewhere, a fork owns from its first success on the same VSConfigs and services, these up to the allocation of a cluster IP, and the same DeploymentCopies if their full names fit a label |
| ForkSteady.SameAfterEachSuccess | domain/updater/microservice.go:31-54 | whenever a fork succeeds again in such a run, it owns the same objects of all three kinds as after its first success, services up to their cluster IPs, names of any length included |
| ForkSteady.NothingChangesWhen | domain/lister/internal/service.go:24-27 | once the copies stand, no update of the fork, finished or not, changes the store if and only if the full names of its DeploymentCopies fit a label and those of its copied services do, too, or these have no cluster IP to lose |
| ForkSteady.SettledForGood | domain/updater/microservice.go:31-54 | with names that fit, in no state of any run after the first success does any update of the fork, finished or not, change anything |
| ForkSettling.SelectionStable | domain/lister/internal/application.go:58-66 | for a fork that selects nothing of its own making, the selection is the same after a success if and only if its selector accepts the labels of none of the copies made |
| EndToEnd.ForkedRequestsReachTheFork | domain/lister/virtualservice.go:71-115 | from any store in which what the fork owns is named as its updates name it, however much it lags behind, after a successful fork update and VirtualService update a request with the identifier in the manager's header to a selected service whose copy's name fits a label is sent to the copied service by the service's VirtualService, and by every one that names the service if none but its own did; the copy's selector picks exactly DeploymentCopies that target deployments routable from the original, one for each |
| EndToEnd.ForkCanBeReached | domain/updater/microservice.go:31-54 | from any such store, unless the selected service belongs to the fork itself, both updates can succeed, and then the fork's requests reach its copies |
| EndToEnd.OtherRequestsReachTheService | domain/lister/virtualservice.go:102-114 | a request no config hits still reaches the service |
| EndToEnd.CopiesPicked | domain/lister/internal/service.go:41-44 | the copied service's selector picks a DeploymentCopy of the namespace if and only if it is stored for, and targets, a deployment routable from the original |
| EndToEnd.RoutesFollow | domain/lister/virtualservice.go:71-119 | with at most one config hit, the VirtualService, or its absence, sends a request to that config's service, else home |
| EndToEnd.AgreementLeavesNoStrays | domain/lister/virtualservice.go:132-135 | where each VirtualService of the namespace belongs to a service in agreement, none names a service but its own |
| EndToEnd.OneDestination | domain/lister/virtualservice.go:132-135 | without strays, all VirtualServices that name a service send a request where its own does, and home if it has none |
| EndToEnd.CopyNameServed | domain/lister/internal/service.go:58-70 | after both updates, the service the request is sent to is stored and picks exactly the copies if and only if the copied service's full name has at most 63 bytes |
| Traffic.StandingMeansReached | domain/lister/virtualservice.go:71-119 | in any store in which the fork's copies stand and the service agrees with its configs, the fork's requests reach its copies |
| Traffic.QuietMeansReached | controllers/vsconfig_controller.go:55-72 | once the copies stand, in every later quiet state of every joint run of the VSConfig controller with users, the cluster and the updates of any forks, the fork's requests reach its copies |
| Traffic.TrafficWithinReach | controllers/vsconfig_controller.go:55-72 | from every state of the VSConfig controller in which the copies stand and each config's host exists, there is a joint run of bounded length, of steps of the controller alone, that ends quiet with the fork's requests reaching its copies |
| Example.ExampleIsForked | domain/updater/microservice.go:31-54 | in a small cluster both updates can succeed for a fork of any name, and its requests then reach the copies if and only if `s-<name>` fits a label |
| Example.ExampleSettles | domain/updater/microservice.go:31-54 | in that cluster an update can succeed, it changes the store, and no update of the fork, finished or not, changes anything after it |
| Example.DriftIsRepaired | domain/updater/microservice.go:31-54 | in a cluster whose copies carry an old identifier and old ports, and one of whose forked services is gone, both updates can succeed; then the requests reach the copies and the copy of the lost service is deleted |
| Mappings.GroupForksByIdentifier | domain/updater/mapping.go:141-150 | the loop yields one group per identifier in use, the groups `GroupsKeepOrder` and `GroupingConserves` describe |
| Mappings.GroupsKeepOrder | domain/updater/mapping.go:141-150 | each fork stands in its group at the position given by the number of earlier forks with its identifier |
| Mappings.GroupingConserves | domain/updater/mapping.go:141-150 | each fork is in its own group as often as in the list and in no other |
| Mappings.ApplyOptionsToMapping | domain/updater/mapping.go:152-168 | for any header order: headers overridden, and upgrades merged only if the fork adds a header |
| Mappings.MergedOptions | domain/updater/mapping.go:120-122 | over a group: headers are last-fork-wins over the base, upgrades the strictly sorted union of the base and those of forks that add a header |
| Mappings.UpgradesForgetOrder | domain/updater/mapping.go:159-165 | the merged upgrades are the same for every order of the forks |
| Mappings.TrimPortMeaning | domain/updater/mapping.go:185-187 | what is left is all that stands before the first colon |
| Mappings.ContentMeaning | domain/updater/mapping.go:86-124 | host, service, when the host is rewritten, the identifier header unless overridden, and websocket with the counted upgrades |
| Mappings.ContentFields | domain/updater/mapping.go:86-124 | every field of the mapping, told by positions in the whole list of forks: of the forks with the identifier the last that adds a header decides its value, else the forwarded host and the identifier; the upgrades; host, prefix, rewrite, timeout, Ambassador ID, service, and the rewritten host as all before the first colon |
| Mappings.LastForkWins | domain/updater/mapping.go:120-122 | a header is among those the forks of an identifier add if and only if some fork of the list with that identifier adds it, and the last such fork gives its value |
| MappingSync.CreateOrUpdate | domain/updater/mapping.go:86-127 | a mapping is written only if no other controller claims it, with the manager added to its owners; an error leaves it so written or as it was |
| MappingSync.Update | domain/updater/mapping.go:43-139 | the run writes the cross product of identifiers and upstreams in some iteration order and then deletes the labelled keys left over; a failure is a prefix of that |
| MappingSync.WritesDesired | domain/updater/mapping.go:72-77 | the keys written over a full iteration are exactly the desired ones, over a part only such |
| MappingTheorems.MappingSetIsExact | domain/updater/mapping.go:72-136 | after success the mappings labelled with the manager, in all namespaces, are exactly the keys of identifiers in use and upstreams, even with collisions; nothing else unlabelled changes |
| MappingTheorems.ExactMeaning | domain/updater/mapping.go:55-77 | exactness told of the store: the mappings of any namespace whose label holds the manager's name are those named for an upstream and the identifier of some fork |
| MappingTheorems.MappingContents | domain/updater/mapping.go:72-129 | after success every desired key holds, field by field, the mapping for an identifier in use and an upstream of the manager with that name, labelled with the manager alone and owned by it |
| MappingTheorems.OrderMattersNot | domain/updater/mapping.go:72-74 | all iteration orders end alike if and only if identifiers that share a key write the same there |
| MappingTheorems.KeysDistinctWhen | domain/updater/mapping.go:75 | keys tell identifiers and hosts apart, for all identifiers without dots, if and only if no normalised host with a dash is a proper prefix of another |
| MappingTheorems.DistinctKeysDecide | domain/updater/mapping.go:72-129 | with such hosts and identifiers the outcome is one function of forks and upstreams |
| MappingTheorems.NoGap | domain/updater/mapping.go:131-136 | at every point of a run, every desired mapping present at the start is present, and nothing is missing before all desired ones are there |
| MappingTheorems.RetryAfterFailure | domain/updater/mapping.go:43-139 | a success after a failed run ends as a success from the start would |
| MappingTheorems.SecondRunChangesNothing | domain/updater/mapping.go:43-139 | a second success on the result leaves the store equal, when identifiers agree on shared keys |
| MappingCleanUp.EarlierMappingsStay | domain/updater/mapping.go:124 | a run for a manager of another name neither changes nor takes the mappings of one already updated |
| MappingCleanUp.LastOfNameWins | domain/updater/mapping.go:59 | of managers with one name the last updated has exactly its mappings, as its own run left them |
| MappingCleanUp.EveryManagerExact | domain/updater/mapping.go:170-183 | after all managers were updated each has exactly its mappings if and only if managers that share a name call for none |
| MappingCleanUp.UpdateAll | domain/updater/mapping.go:170-183 | success is a chain of successful runs, one for each manager of the cluster, each over all forks of the cluster |
| MappingCleanUp.CoversMeaning | domain/updater/mapping.go:170-183 | the clean-up has a run for every manager stored, in whatever namespace |
| MappingSync.ListedForksMeaning | domain/updater/mapping.go:49-52 | the forks of a run are all that are stored, in whatever namespace |
| ForkController.Reconcile | controllers/fork_controller.go:67-109 | what each branch does to the store: clean-up of all managers, deletion after the deadline, nothing for a malformed manager, mappings before copies otherwise; with errors, how far it got |
| ForkController.DeadlineMeaning | controllers/fork_controller.go:82-86 | a fork expires strictly after its deadline, never without one |
| ForkController.LiveForkIsMapped | controllers/fork_controller.go:89-106 | a successful visit to a live fork leaves the mappings of the manager its field names exact, one for the fork's identifier per upstream, and expands the fork as read at the start |
| ForkController.GoneForkIsCleanedUp | controllers/fork_controller.go:75-78 | a successful visit to a missing fork leaves every manager exactly the mappings of the remaining forks, if and only if managers sharing a name call for none |
| Selector.NewSelector | kubeforkctl/domain/fork.go:81-132 | accepted exactly when no option is faulty; assignments go into the caller's map in place, up to the first fault; writing to a nil map is a fault |
| Selector.PrintThenRead | kubeforkctl/domain/fork.go:86-121 | printing any of the four forms with key and value free of `=` and `!` and reading it back gives the form |
| Selector.PrintedIsTaken | kubeforkctl/domain/fork.go:86-124 | a list of printed forms is taken in whole, as those forms |
| Selector.AcceptedWhen | kubeforkctl/domain/fork.go:87-123 | accepted if and only if it holds one `!=`, or at most one of `=` and `!` altogether |
| Selector.ReadThenPrint | kubeforkctl/domain/fork.go:109-117 | an accepted option prints again as itself if and only if it is not a lone `!` that does not lead |
| Selector.DocumentedWhen | kubeforkctl/domain/fork.go:122 | which options are of the four documented formats, by counting separators |
| Selector.AcceptedBeyondDocumented | kubeforkctl/domain/fork.go:91-117 | exactly what is accepted although undocumented |
| Selector.SelectorMeaning | kubeforkctl/domain/fork.go:81-132 | the selector selects an object if and only if every option holds, the last assignment of a key deciding, and so does every label from the name not overridden |
| Preview.Merge | kubeforkctl/lib/map.go:3-14 | for any iteration order: the union, the second map winning |
| Preview.SelectContainers | kubeforkctl/k8sClientGo/k8sClientGo.go:64-107 | each name once, exactly those of containers with the image in deployments found for some selected service; a success means no selector used was empty, and the empty-selector error that one was |
| Preview.SwitchesMeaning | kubeforkctl/k8sClientGo/k8sClientGo.go:94 | a container counts if and only if its image and the one asked for agree on all that stands before the first colon of each |
| Preview.FoundForMeaning | kubeforkctl/k8sClientGo/k8sClientGo.go:73-86 | a deployment is found for a service if and only if it has all labels of the given selector, all others of the service's selector, meets the expressions and is in the namespace, or in any if none is given |
| Preview.FoundForWhen | kubeforkctl/k8sClientGo/k8sClientGo.go:73-88 | per service and deployment: found without a conflict of selectors if and only if the controller would copy it |
| Preview.PreviewMatchesController | kubeforkctl/k8sClientGo/k8sClientGo.go:73-99 | a deployment is copied if and only if the preview finds it for a service whose selector does not conflict, given deployments labelled as their pods |
| Preview.PreviewAgrees | kubeforkctl/k8sClientGo/k8sClientGo.go:73-99 | everything copied is previewed, and without conflicts both select the same deployments |
| Preview.GeneratedFork | kubeforkctl/domain/fork.go:20-59 | a generated fork's template never upsets who routes to whom, and its preview agrees with the controller |
| Preview.GeneratedForkMeaning | kubeforkctl/domain/fork.go:20-59 | a generated fork is named after its identifier, selects what the given selectors accept, and asks for copies with the given replicas, annotations, containers and labels |
| Counterexamples.LongNameNotReached | domain/lister/internal/service.go:58-70 | a cluster with a fork of a 64-byte name: both updates succeed and its requests do not reach its copies |
| Counterexamples.LongCopyIsRecreated | domain/lister/internal/application.go:52-54 | a DeploymentCopy with a 64-byte name is stored by a first run and deleted by the second |
| Counterexamples.TemplateBreaksRoutes | domain/lister/internal/deployment.go:26-53 | a cluster in which a template that sets the identifier label changes who routes to whom |
| Counterexamples.CopySelected | domain/lister/internal/application.go:58-66 | a fork with an empty selector selects its own copy after its first update |
| Counterexamples.OrphanStays | main.go:99-112 | a cluster without configs and with a VirtualService left: the controller starts quiet, and the service disagrees |
| Counterexamples.MoveLeavesRoute | controllers/vsconfig_controller.go:71 | everything agrees, a config moves from one service to another and is reconciled, and not everything agrees |
| Counterexamples.IdentifiersCollide | domain/updater/mapping.go:75 | two forks and two hosts for which iteration orders end differently |
| Counterexamples.NamesakesClash | domain/updater/mapping.go:59 | two managers of one name, both with something to map: after the second the first is not exact |
| Counterexamples.StrayNotIsRead | kubeforkctl/domain/fork.go:109-117 | `a!b` is read as the absence of `b` |
| Counterexamples.ConflictMisleads | kubeforkctl/k8sClientGo/k8sClientGo.go:73-88 | a service and a deployment the preview finds for it and the controller does not copy |

## Left out

- The client, its cache, watches, schemes, leader election, `main.go` wiring, middleware and logging: kept only as calls that may fail and as the queue.
- Garbage collection through owner references and the deployment-duplicator: not part of this model; the pods behind a DeploymentCopy are taken to carry its custom labels.
- Delivery by the fork watcher (`controllers/fork_watcher.go`): nothing is claimed about which expired forks are notified.
- Resource versions and conflicts: a conflict is a failed call. A cached read that lags behind a write is not modelled.
- Syntax of names, labels and values, and what the API server rejects or fills in, apart from the allocation of cluster IPs.
- The text form of a selector sent by `kubeforkctl` is taken to select what the selector does, except that an empty one is unreadable.
- Owner references are compared by whole API version, as in `ownedByParent`; that controller-runtime compares groups only, and UIDs, are not modelled.
- Istio beyond the namespace: VirtualServices of other namespaces and host patterns other than `*` are not modelled.
- Case-insensitive header names (section 5.1 of RFC 9110): header names are opaque strings.
- A manager whose header key is `x-forwarded-host` writes one header twice in a map literal; the later entry is taken to win.
- `microserviceUpdater.UpdateAll`, which no reconciler calls, and cobra commands, manifest output, `NewContainers`, `NewEnv`, generated code and CRDs: plumbing or easy.
- ServiceReconciler, which is not registered in `main.go`: the set of services is fixed in `Agreement`.
- EndToEnd.ForkedRequestsReachTheFork: assumes of the store before the updates that services, VSConfigs and DeploymentCopies the fork owns are named as its updates name them, that the shortened names of its copies differ from one another, that no config of others hits the request and no DeploymentCopy of others carries this identifier. The requested service's name is taken to be a valid one of at most 63 bytes and its VirtualService, if any, to bear its name. `TableMeaning` says where a request goes that configs of others hit, too.
- ForkSettling.UpdateTwice: for a fork that selects nothing of its own making and whose selector rejects the labels of its copies; `SelectionStable` shows what happens otherwise.
- ForkRuns.NeverForkedAgain: the set of forks with their specifications and the names of base services are held fixed during a run; an edit of a fork starts another run, from a store whose copies lag behind, which is allowed.
- ForkSteady.FixedAfterFirstSuccess: base services and deployments are held fixed. For full DeploymentCopy names that are too long a run that stops half-way may leave a copy deleted, which `NothingChangesWhen` shows; `SameAfterEachSuccess` says what holds for them.
- Traffic.QuietMeansReached: within one run of the VSConfig controller no service of the namespace comes or goes, as in `Agreement`, so copies are made before it.
- Objects are values in the store, so updates inside an object, such as sorting a list answer or `mp.Spec`, are modelled on values; the label map `NewSelector` writes is an object, and no two selectors share one here.
- Selector.NewSelector: a result whose label map is nil is not told from one whose map is empty, because both select alike.
- The rounding of floating-point cuts: the arithmetic is over rationals; `RoundedNameFits` covers either rounding.
