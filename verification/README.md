# MCP lifecycle operator: a verified model

This project models the decision logic of a Kubernetes operator that runs MCP servers, and
proves what that logic guarantees over whole runs. The API server is an explicit store with
UIDs, resourceVersions and generations. Dialling an endpoint, hashing and JSON are inputs.

| file | what it covers |
|---|---|
| `Reconciler.dfy` | one reconcile of an MCPServer: handshake, retry bookkeeping, gateway override, status, CA hash, requeue |
| `ReconcileStatus.dfy`, `ReconcileOutcomes.dfy` | what holds of every status that is applied; what every reconcile publishes, remembers and asks for, in terms of what it observed |
| `ReconcileRuns.dfy` | runs with restarts, spec changes, re-creation, CA rotation and failing writes |
| `HandshakeStreaks.dfy` | streaks of failed handshakes: back-off, retry count, events |
| `Availability.dfy`, `Conditions.dfy` | the Available verdict and status conditions |
| `GatewayBinding.dfy`, `BindingIndex.dfy` | the binding status two controllers share, and the reverse index in its annotations |
| `Ownership.dfy` | adopt, update and guarded delete, interleaved with other writers |
| `CustomMetadata.dfy` | the three-way merge of extra labels and annotations |
| `ConfigHash.dfy`, `References.dfy`, `SpecHash.dfy` | the bytes that are hashed, the indexes behind the watches, and the way from a spec to the bytes |
| `Conversion.dfy`, `StatusConversion.dfy` | v1alpha1 to v1beta1 and back, and what that does to the statuses the controller publishes |
| `Cidr.dfy`, `NetworkPolicy.dfy` | CIDR containment, peers and the ingress policy |
| `PodDiagnostics.dfy` | container failures and the pod watch predicate |
| `TlsGroups.dfy` | TLS group and cipher-suite lists |
| `Providers.dfy` | provider start-up and the CRD watcher |
| `Strings.dfy`, `Wrappers.dfy`, `GatewayProvider.dfy` | ordering and sorting of texts; Option; the provider names |

`dafny verify dfyconfig.toml` checks everything.

## Where the code does less than is said of it

Each of these is a lemma with a concrete input or a whole family of inputs, beside the theorem
that says when the property does hold; "exactly when" marks an if-and-only-if.

- Verified=True does not imply Available=True, although the comment at
  `internal/controller/mcpserver_controller.go:683-684` says so: an unregistered gateway withdraws
  Available after the handshake (`VerifiedWithoutAvailable`; exactly when, in `VerifiedMeansServing`).
- A status write that is stored but answered with an error can leave a stale CA hash behind, after
  which the dial is skipped for a bundle this generation was never dialled with
  (`UnacknowledgedWriteSkips`). It needs such a write with a bundle other than the remembered one:
  without one the dial behind a skip always exists (`SkipJustified`, and so whenever every write fails
  or is acknowledged, `AcknowledgedSkipJustified`). `UnjustifiedSkipExact` says exactly after which
  sequences of events such a skip is open.
- The retry count is a 32-bit integer; after 2^31 failures it turns negative and retries resume
  (`CountOverflowResumes`; the schedule for every count is in `KthFailure`).
- An except entry inside the IPv4-mapped range is refused under a wider IPv6 parent although it lies
  within it (`MappedExceptRefused`; exactly when, in `ExceptAcceptedExact`).
- A namespace selector that only asks for the name label to exist admits every pod but counts as a
  restriction (`NameLabelPeerMisreported`; exactly when, in `AdmitsAllSourcesExact`).
- Restriction is judged peer by peer, so two half ranges count as restricting though together they
  admit every address (`HalvesCoverEverything`). A verdict of no restriction is always right
  (`UnrestrictedVerdictRight`). With at most one declared peer per kind of source, some kind is
  admitted as a whole exactly when the verdict says so or a peer only asks for the name label
  (`VerdictExact`).
- Recording annotations refreshes the controller's copy of a binding with an unconditional patch, so
  a URL decided from the previous configuration can be stored as current for the new one
  (`PatchedCopyRegistersOldConfig`; exactly in which runs, in `RegistrationsDecidedForSpec`).
- A binding left by a deleted server of the same name is rewritten but keeps its old owner UID
  (`OrphanedBindingNotAdopted`; every other kind is adopted, `UpdatesHitOurs`).
- The v1alpha1 round trip loses Ready exactly when the handshake reason comes with a status other
  than False (`MergeUndoesSplit`, `AlphaConditionsRoundTrip`, `HubViewStable`).
- Read back through v1alpha1, a published status keeps Available and Verified, except that the outcome
  of the handshake becomes unknown when an unregistered gateway withdrew the availability of a serving
  workload (exactly then, in `PublishedStatusConverts`; for every hub list, in `HubStatusRoundTrip`).
- The text of the tracking annotations can depend on history although the metadata they describe
  does not (`LabelTextWhenUnrecorded`, `AnnotationTextWhenUnrecorded`; exactly when it is fixed by the
  last spec, in `LabelTextExact` and `AnnotationTextExact`).
- Two providers of one name are both started at start-up (`DuplicateNameStartsTwice`), or, when both
  had to wait, the watcher starts one and drops the other (`DuplicateNameDropped`); the registry is
  partitioned in every run exactly when its names are distinct (`DistinctNamesExact`).
- A NUL byte in a value (`NulBytesCollide`) and a `|` in a container name (`BarInNameCollides`) break
  the corresponding guarantees.

## Model

| member | source | states |
|---|---|---|
| `Reconcile.HandshakeBackoff` | internal/controller/mcpserver_controller_handshake.go:254-263 | the doubling loop with its early return computes 10 s doubled once per retry, capped at 120 s, for every count including negative ones |
| `Reconcile.DoHandshake` | internal/controller/mcpserver_controller_handshake.go:40-171 | Verified=True only comes from a dial or from the shortcut, and the shortcut needs a verified status of this generation, server info and an unchanged CA hash |
| `Reconcile.BuildStatus` | internal/controller/mcpserver_controller_endpoint.go:103-141 | the status built step by step is the assembled one: overridden Available, the conditions in order, the gateway address only when verified |
| `Reconcile.MCPServerReconciler.constructor` | internal/controller/mcpserver_controller.go:203-214 | a new process starts with no retry counts and no CA hashes |
| `Reconcile.MCPServerReconciler.TrackRetries` | internal/controller/mcpserver_controller_handshake.go:334-384 | the retry entry is dropped or counted up per generation, the message is annotated from the tenth failure on, and the two events are decided; other servers keep their entries |
| `Reconcile.MCPServerReconciler.ApplyStatus` | internal/controller/mcpserver_controller.go:846-856 | a rejected write leaves the object alone, any other replaces its status; only an acknowledged one reports success |
| `Reconcile.MCPServerReconciler.PublishEndpoint` | internal/controller/mcpserver_controller_endpoint.go:54-171 | handshake, bookkeeping, gateway override, write, CA hash and requeue leave exactly the state, requeue and events of the step function, the hash only after an acknowledged write |
| `Reconcile.MCPServerReconciler.PublishInvalid` | internal/controller/mcpserver_controller.go:541-611 | an invalid configuration writes the failure status, keeps both in-memory entries and ends without requeue unless the write failed |
| `Reconcile.MCPServerReconciler.PublishResourceFailure` | internal/controller/mcpserver_controller.go:725-793 | an update conflict is retried after a second without touching the status; any other resource failure writes the failure status, keeps both in-memory entries and is retried unless it is an ownership conflict |
| `Reconcile.MCPServerReconciler.Forget` | internal/controller/mcpserver_controller.go:284-290 | reconciling a deleted server forgets both of its in-memory entries and no others |
| `Reconcile.MCPServerReconciler.Reconcile` | internal/controller/mcpserver_controller.go:279-416 | one reconcile on any path refines the step function for its key and changes nothing about other keys |
| `Availability.AvailableVerdict` | internal/controller/mcpserver_controller_byo.go:78-150 | Available=True with reason Available is only ever claimed for a workload with a ready or available instance; the other True reason is scaled to zero |
| `Availability.VerdictExact` | internal/controller/mcpserver_controller_conditions.go:39-97 | each of the four verdicts for exactly these workloads: scaled to zero, not yet reported, serving by a current report, and the rest |
| `ReconcileStatus.AppliedStatusSound` | internal/controller/mcpserver_controller_conditions.go:388-469 | every applied status on every path has one condition per type, keeps a transition time exactly while the status is unchanged, and carries an address exactly when Verified is True |
| `ReconcileStatus.VerifiedMeansServing` | internal/controller/mcpserver_controller_gateway.go:154-182 | a verified status was observed with a serving instance; its Available is True exactly when there is no gateway or the gateway is registered, and otherwise False for GatewayNotRegistered |
| `ReconcileStatus.VerifiedWithoutAvailable` | internal/controller/mcpserver_controller.go:674-694 | with a missing binding every successful handshake publishes the cluster address with Verified=True and Available not True |
| `ReconcileStatus.UnverifiedStatus` | internal/controller/mcpserver_controller.go:685-694 | a handshake that failed, or none at all, publishes no address |
| `ReconcileStatus.RegisteredPublishesGatewayURL` | internal/controller/mcpserver_controller_gateway.go:214-287 | GatewayRegistered and Verified together publish the binding's URL, never the cluster one, given that bindings carry a URL exactly when registered |
| `ReconcileOutcomes.VerifiedExact` | internal/controller/mcpserver_controller_handshake.go:60-171 | every endpoint reconcile publishes Verified=True exactly for a serving workload whose stored status opens the shortcut or whose endpoint answers (with success or an auth error), False exactly for a serving one without either, Unknown exactly otherwise |
| `ReconcileOutcomes.VerifiedReason` | internal/controller/mcpserver_controller_handshake.go:97-170 | the reason and the server info of each of those cases |
| `ReconcileOutcomes.RequeueExact` | internal/controller/mcpserver_controller.go:469-539 | on every path: nothing more is asked for, a delay is asked for, or an error is returned, each exactly on the stated observations, with the exhausted handshake and the unreadable binding among them |
| `ReconcileOutcomes.MemoryExact` | internal/controller/mcpserver_controller_handshake.go:338-357 | the retry entry lives exactly through handshake failures, and the CA hash changes only with an acknowledged endpoint status, to the bundle that verified the server or to none |
| `ReconcileOutcomes.GatewayConditions` | internal/controller/mcpserver_controller_gateway.go:214-287 | GatewayRegistered is there exactly with a gateway, True exactly when the binding's registration is current, and otherwise with the reason for each case |
| `ReconcileOutcomes.AvailableCondition` | internal/controller/mcpserver_controller_gateway.go:164-175 | Available is the workload's own verdict, unless a gateway that is not registered withdraws it |
| `ReconcileOutcomes.AddressExact` | internal/controller/mcpserver_controller_endpoint.go:135-141 | the address is the gateway's URL, the cluster's or none, each exactly on the stated observations |
| `ReconcileOutcomes.EndpointOthers` | internal/controller/mcpserver_controller_endpoint.go:120-133 | Accepted, the posture of this pass and the policy report are published for this generation |
| `ReconcileOutcomes.InvalidReports` | internal/controller/mcpserver_controller.go:541-611 | an invalid configuration reports the violated rule, withdraws availability, verification and address, and carries the gateway condition and posture over |
| `ReconcileOutcomes.FailureReports` | internal/controller/mcpserver_controller.go:752-783 | a failed resource reports its own reason, withdraws verification and address, and carries the gateway condition over |
| `ReconcileOutcomes.DeletedForgotten` | internal/controller/mcpserver_controller.go:284-290 | reconciling a deleted server leaves nothing remembered and asks for nothing |
| `ReconcileOutcomes.StatusWritten` | internal/controller/mcpserver_controller.go:735-744 | a status is applied exactly on the paths with an outcome, never on an update conflict, and stored unless the write is rejected |
| `ReconcileRuns.AllBacked` | internal/controller/mcpserver_controller_endpoint.go:95-146 | in every reachable state a stored Verified=True is backed by a successful or auth-answered dial at its observed generation of the same object, and that generation is not ahead of the spec |
| `ReconcileRuns.SkipJustified` | internal/controller/mcpserver_controller_handshake.go:54-82 | after every run, skipping the dial rests on a dial at the current generation of this object; with a non-empty hash it rests on one in this process with that hash, in every run without an unacknowledged write that stores a verification for a bundle other than the remembered one |
| `ReconcileRuns.AcknowledgedSkipJustified` | internal/controller/mcpserver_controller_handshake.go:70-82 | in every run of failed or acknowledged writes, a skip with a non-empty hash rests on a dial of this process at the current generation of this object with that hash |
| `ReconcileRuns.NextOpen` | internal/controller/mcpserver_controller_tls.go:114-128 | in every reachable state, a skip without its dial is open after an event if and only if the event is such a write, with server info and on a generation not dialled with the remembered hash, or one was open and the event leaves the stored status in place |
| `ReconcileRuns.UnjustifiedSkipExact` | internal/controller/mcpserver_controller_endpoint.go:143-148 | for every run, a skip without its dial can come next if and only if such a write occurred and every later event left the stored status in place (no other status stored, no spec change, restart or deletion) |
| `ReconcileRuns.UnacknowledgedWriteSkips` | internal/controller/mcpserver_controller_endpoint.go:143-148 | a concrete run in which a stored but unacknowledged write lets the dial be skipped for a bundle never dialled at this generation |
| `ReconcileRuns.StoredStatusSound` | internal/controller/mcpserver_controller.go:674-694 | in every reachable state the stored status has one condition per type and an address exactly when Verified is True |
| `HandshakeStreaks.RetriesCountFailures` | internal/controller/mcpserver_controller_handshake.go:345-357 | within a generation the retry entry is the number of failures as a 32-bit integer, whatever early exits come between |
| `HandshakeStreaks.KthFailure` | internal/controller/mcpserver_controller_handshake.go:269-285 | the k-th failure of any streak requeues after min(10*2^(k-1), 120) seconds for k below 10 and never from 10 to 2^31-1, and announces exhaustion exactly at k = 10 modulo 2^32 |
| `HandshakeStreaks.StreakTotal` | internal/controller/mcpserver_controller_handshake.go:252-285 | a streak that runs out of retries has scheduled 750 seconds in total, however long it lasts |
| `HandshakeStreaks.FailureEvents` | internal/controller/mcpserver_controller_handshake.go:359-381 | with a constant error text not yet shown, the failure event fires at the first and tenth failure and then only where the 32-bit count wraps |
| `HandshakeStreaks.FirstAndTenthOnly` | internal/controller/mcpserver_controller_handshake.go:376-381 | below 2^31 failures of such a streak the failure event fires exactly at the first and the tenth, the exhausted event exactly at the tenth |
| `HandshakeStreaks.StreaksExist` | internal/controller/mcpserver_controller_handshake.go:139-153 | from any unverified server, an endpoint that keeps refusing yields a streak of every length, so the statements about streaks are about something |
| `HandshakeStreaks.CountOverflowResumes` | internal/controller/mcpserver_controller_handshake.go:353-356 | in every streak the failure number 2^31 schedules a 10 second retry again, because the count wraps |
| `GatewayBinding.SetConditionFind` | internal/controller/providers/gateway.go:241-249 | setting the condition changes the lookup of that type only, with its time preserved while the status is unchanged |
| `GatewayBinding.DecisionsConsistent` | internal/controller/providers/kuadrant/controller.go:298-439 | both controllers write only bindings of their own provider, and write a URL exactly together with Registered=True |
| `GatewayBinding.HTTPRouteConsistent` | internal/controller/providers/httproute/controller.go:187-337 | on every path of the httproute controller the URL is non-empty exactly when it registers |
| `GatewayBinding.RegistersExactly` | internal/controller/providers/kuadrant/controller.go:354-438 | a controller registers exactly when everything it needs was found (route accepted; for kuadrant also extension, listener, prefix and registration), with the URL of the endpoint it found |
| `GatewayBinding.HTTPRouteDecides` | internal/controller/providers/httproute/controller.go:198-327 | short of that, the first failing check decides: a failing read leaves the status alone, anything else writes what is missing |
| `GatewayBinding.KuadrantDecides` | internal/controller/providers/kuadrant/controller.go:309-428 | the same for the kuadrant checks in their order |
| `GatewayBinding.RegistrationsStem` | internal/controller/providers/httproute/controller.go:312-336 | every registration of every run stems from a reconcile whose controller found everything it needs, with that endpoint's URL |
| `GatewayBinding.DecisionTakesEffect` | internal/controller/providers/gateway.go:227-252 | progress: working on the stored version, a controller that finds everything leaves the binding registered for its generation with that URL, one that decides otherwise leaves it unregistered without one |
| `GatewayBinding.URLSpells` | internal/controller/providers/httproute/controller.go:329-333 | the URL is the scheme, the host and the path |
| `GatewayBinding.RegisteredExactlyWithURL` | internal/controller/providers/gateway.go:227-252 | every binding version any run stores has Registered=True exactly when its URL is non-empty, with both controllers, stale reads, conflicts, spec changes and re-creation |
| `GatewayBinding.RegistrationsDecidedForSpec` | internal/controller/providers/gateway.go:227-309 | for every run, all registrations were decided for the provider and configuration of the generation they are recorded under, if and only if each write that stored Registered=True replaced the status of a version with the provider and configuration it had read |
| `GatewayBinding.CurrentRegistrationDecidedForSpec` | internal/controller/providers/gateway.go:234-251 | in such runs a registration that is current for a generation was decided for that generation's provider and configuration |
| `GatewayBinding.PatchedCopyRegistersOldConfig` | internal/controller/providers/gateway.go:290-295 | a run in which the annotation patch makes a URL of the old configuration current for the new one |
| `GatewayBinding.PublishedURLWasRegistered` | internal/controller/mcpserver_controller_gateway.go:256-286 | end to end over every run: a registered and verified server publishes the non-empty URL of the binding version it read, registered on that object and generation |
| `GatewayBinding.StaleRegistrationWithheld` | internal/controller/mcpserver_controller_gateway.go:256-274 | a registration older than the binding's generation is neither reported nor published |
| `BindingIndex.BindingObject.UpdateBindingStatus` | internal/controller/providers/gateway.go:227-252 | writes exactly when something differs, changes condition and URL together, and is idempotent |
| `BindingIndex.BindingObject.EnsureBindingAnnotations` | internal/controller/providers/gateway.go:273-296 | patches exactly when a desired value is missing; afterwards every desired key reads as wanted and all others as before |
| `BindingIndex.MatchesExactlyDependents` | internal/controller/providers/gateway.go:265-309 | after any run of recordings, the annotation matches a Service exactly when that Service is the binding's last recorded backend |
| `BindingIndex.FindBindingsForService` | internal/controller/providers/gateway.go:313-328 | the lookup by annotation returns exactly the scan by last recorded backend, in list order |
| `BindingIndex.DependentsExact` | internal/controller/providers/gateway.go:319-327 | no dependent binding is missed and nothing else is enqueued |
| `Ownership.SetControllerAdopts` | internal/controller/mcpserver_controller_service.go:82-94 | once the reference is set, this server is the controller, even with several references to it |
| `Ownership.OtherOwnersKept` | internal/controller/mcpserver_controller_service.go:82-88 | adoption keeps every owner that is not an MCPServer of this name |
| `Ownership.UpdatesHitOurs` | internal/controller/mcpserver_controller_ownership.go:48-87 | for every interleaving and every stale copy, an update that takes effect replaces exactly the version read, of an object controlled by this UID or by an MCPServer of the same group, name and namespace, and changes nothing else |
| `Ownership.CleanUpDeletesOwnService` | internal/controller/mcpserver_controller_service.go:277-342 | clean-up deletes only the exact version it read, controlled by this UID, never the referenced Service, and only after a read returned the referenced Service |
| `Ownership.ForeignObjectsUntouched` | internal/controller/mcpserver_controller_deployment.go:82-131 | in every reachable state the operator's updates, creates and Service clean-up leave objects it may not manage exactly as they are; deletes of gateway bindings are not covered |
| `Ownership.ManageConverges` | internal/controller/mcpserver_controller_service.go:76-114 | progress in every reachable state: managing the stored version of an object controlled by an MCPServer of this name ends with the wanted content under this very server, adopting it even when nothing else changed; a settled object is not written |
| `Ownership.ManageCreates` | internal/controller/mcpserver_controller_service.go:53-64 | where nothing is stored the object is created under this server, and nothing else changes |
| `Ownership.CleanUpCompletes` | internal/controller/mcpserver_controller_service.go:311-341 | with all four guards met on the stored version, the managed Service is gone and everything else stays |
| `Ownership.AnyVersionRecognised` | internal/controller/mcpserver_controller_ownership.go:89-103 | owner references of any version of the group are recognised, and of no other group |
| `Ownership.OrphanedBindingNotAdopted` | internal/controller/mcpserver_controller_gateway.go:117-138 | a binding of a previous server of this name is rewritten without taking over its ownership |
| `Ownership.ApiServer.ReconcileOwned` | internal/controller/mcpserver_controller_service.go:40-120 | read, interference, validate, adopt and write as one protocol step on the version read |
| `Ownership.ApiServer.CleanUpManagedService` | internal/controller/mcpserver_controller_service.go:277-342 | the guards in order, with interference after each read, amount to the guarded delete |
| `CustomMetadata.FilterReservedKeys` | internal/controller/custom_metadata.go:26-38 | keeps exactly the entries whose key the operator does not own |
| `CustomMetadata.ObjectMeta.ApplyCustomObjectMetadata` | internal/controller/custom_metadata.go:64-151 | the in-place edit equals the three-way merge, and reports an undecodable tracking annotation |
| `CustomMetadata.Deployment.ApplyCustomDeploymentMetadata` | internal/controller/custom_metadata.go:153-199 | the pod template loses the tracked extras and gains the wanted ones together with the object, and stays as it is on a decoding error |
| `CustomMetadata.LabelsChanged` | internal/controller/custom_metadata.go:209-252 | reports a change exactly when the tracked labels differ from the wanted ones or one of them is missing somewhere |
| `CustomMetadata.AnnotationsChanged` | internal/controller/custom_metadata.go:254-296 | reports a change exactly when the tracked annotations differ from the wanted ones or one of them is missing somewhere |
| `CustomMetadata.HistoryReached` | internal/controller/custom_metadata.go:64-151 | any history of specs on an untracked object succeeds and leaves the originals not asked for overlaid with the last extras, tracked as such |
| `CustomMetadata.HistoryIndependent` | internal/controller/custom_metadata.go:64-151 | after any history the object's metadata is the originals overlaid with the last extras only, if and only if no original key was asked for and lost on the way |
| `CustomMetadata.TemplateHistoryIndependent` | internal/controller/custom_metadata.go:153-199 | after any history the pod template, too, is its originals overlaid with the last extras only, if and only if no original key of the template was asked for and lost |
| `CustomMetadata.ReservedUntouched` | internal/controller/custom_metadata.go:26-54 | reserved labels and annotations survive every history unchanged |
| `CustomMetadata.NothingMissing` | internal/controller/custom_metadata.go:209-304 | right after an apply no tracked key is missing anywhere |
| `CustomMetadata.ApplyThenDetect` | internal/controller/custom_metadata.go:298-304 | on any Deployment a history of specs led to, both change detectors answer no right after the apply |
| `CustomMetadata.LabelTextWhenUnrecorded` | internal/controller/custom_metadata.go:134-140 | for every spec that does not record its labels, two histories ending in it differ: one leaves no labels record, the other an empty one |
| `CustomMetadata.LabelTextExact` | internal/controller/custom_metadata.go:108-140 | the text of the labels record is the same after all histories ending in a spec, if and only if that spec wants labels, or names a label map while wanting annotations |
| `CustomMetadata.AnnotationTextWhenUnrecorded` | internal/controller/custom_metadata.go:142-148 | the mirror image for the annotations record |
| `CustomMetadata.AnnotationTextExact` | internal/controller/custom_metadata.go:108-148 | the text of the annotations record is fixed by the last spec, if and only if that spec wants annotations, or names an annotation map while wanting labels |
| `ConfigHash.ComputeConfigHash` | internal/controller/mcpserver_controller_confighash.go:61-139 | the loops write exactly the stream of the snapshot; the result is a digest of it, nothing when no object was found, or an error exactly when a read failed |
| `ConfigHash.WriteObject` | internal/controller/mcpserver_controller_confighash.go:76-99 | collecting keys in any order, sorting and writing yields one record per key with text data preferred |
| `ConfigHash.ConcatInjective` | internal/controller/mcpserver_controller_confighash.go:93-121 | lists of clean records that serialize alike are the same list |
| `ConfigHash.StreamIdentifiesContent` | internal/controller/mcpserver_controller_confighash.go:61-139 | two snapshots give the same bytes if and only if they hold the same (kind, name, key) to value mapping, whatever the order in the spec |
| `ConfigHash.NulBytesCollide` | internal/controller/mcpserver_controller_confighash.go:93-101 | for all names, keys and values: a cluster with two keys and one with a single key whose value spells out the second record hold different data and give the same bytes |
| `SpecHash.HashSpec` | internal/controller/mcpserver_controller_confighash.go:61-139 | from the spec on: the snapshot is taken over exactly the referenced names, and its stream is what is hashed |
| `SpecHash.SameReferencesSameStream` | internal/controller/mcpserver_controller_confighash.go:65-76 | on the same cluster, two specs that refer to the same objects give the same bytes, whatever the order of storage, envFrom and env |
| `SpecHash.SpecStreamIdentifiesContent` | internal/controller/mcpserver_controller_confighash.go:61-139 | any two specs on any two states of the cluster give the same bytes if and only if the data they refer to is the same |
| `References.ExtractConfigMapNames` | internal/controller/mcpserver_controller_confighash.go:230-283 | the output is duplicate-free and holds exactly the ConfigMaps the spec refers to |
| `References.ExtractPodSecretNames` | internal/controller/mcpserver_controller_confighash.go:310-347 | the output is duplicate-free and holds exactly the Secrets the pod refers to |
| `References.ExtractSecretNames` | internal/controller/mcpserver_controller_confighash.go:287-305 | the same, with the CA bundle Secret added once |
| `References.ValidationReadsIndexed` | internal/controller/mcpserver_controller_validation.go:50-139 | every resource validation reads, on every early-exit path, is in the matching index |
| `References.FindServers` | internal/controller/mcpserver_controller_confighash.go:143-173 | the index lookup requests exactly the servers of the namespace that index the resource |
| `References.ValidationExact` | internal/controller/mcpserver_controller_validation.go:50-320 | validation accepts a spec exactly when every required reference is there and every mount, workload reference and TLS setting is well-formed |
| `References.OperationReadsIndexed` | internal/controller/mcpserver_controller.go:348-415 | every resource the rest of a reconcile reads, in the order of its phases and with every early exit, is in the matching index |
| `References.OperationReadsAll` | internal/controller/mcpserver_controller_confighash.go:76-121 | an undisturbed reconcile reads every hashed object, the referenced Service, the gateway ConfigMap of a derived peer and the CA bundle |
| `References.NoReadMissed` | internal/controller/mcpserver_controller_confighash.go:197-347 | a change to anything traced in validation or in the later phases (hashing, endpoint resolution, clean-up, gateway namespace, CA bundle) enqueues the server |
| `ConditionConversion.ConvertConditionsTo` | api/v1alpha1/mcpserver_conversion.go:378-391 | the appending loop replaces each Ready in place by its two hub conditions and keeps the rest in order |
| `ConditionConversion.ConvertConditionsFrom` | api/v1alpha1/mcpserver_conversion.go:466-488 | the loop keeps all but the hub conditions in order and appends the merged Ready |
| `ConditionConversion.MergeUndoesSplit` | api/v1alpha1/mcpserver_conversion.go:395-570 | splitting and merging Ready restores it if and only if the handshake reason comes with status False |
| `ConditionConversion.AlphaConditionsRoundTrip` | api/v1alpha1/mcpserver_conversion.go:378-570 | the round trip yields the other conditions in order followed by the original Ready, if and only if no hub condition was present and Ready is recoverable |
| `ConditionConversion.HubViewStable` | api/v1alpha1/mcpserver_conversion.go:395-570 | writing the v1alpha1 view of a hub list back and viewing it again changes nothing, if and only if no reason is lost |
| `ConditionConversion.HubMeaning` | api/v1alpha1/mcpserver_conversion.go:378-460 | what a stored v1alpha1 list means in the hub: Available and Verified are True, False or Unknown exactly for these Ready conditions, absent without one, and the rest passes through |
| `ConditionConversion.HubStatusRoundTrip` | api/v1alpha1/mcpserver_conversion.go:466-570 | a hub list with both conditions keeps their statuses through v1alpha1 if and only if one Ready condition can express the pair |
| `StatusConversion.PublishedStatusConverts` | api/v1alpha1/mcpserver_conversion.go:492-541 | a status the controller publishes keeps both statuses through v1alpha1 if and only if no unregistered gateway withdrew the availability of a serving workload |
| `Conversion.StorageRoundTrip` | api/v1alpha1/mcpserver_conversion.go:125-177 | server configuration with any number of storage mounts survives the round trip |
| `Conversion.AlphaRoundTrip` | api/v1alpha1/mcpserver_conversion.go:32-95 | the whole object survives, every spec field and all status except the retry count, with the conditions exactly as characterised |
| `Conversion.ConvertToCopies` | api/v1alpha1/mcpserver_conversion.go:32-64 | field by field, the hub object holds the source's values, and the hub's own fields are left alone |
| `Conversion.ConvertFromCopies` | api/v1alpha1/mcpserver_conversion.go:66-95 | field by field, the v1alpha1 object holds the hub's values, and the retry count is the destination's |
| `Cidr.ContainsExact` | internal/controller/mcpserver_controller_validation.go:483-491 | the library's containment test is membership in the address set, except for IPv4-mapped addresses under an unmapped IPv6 block |
| `Cidr.SubsetIsPrefix` | internal/controller/mcpserver_controller_validation.go:472-495 | inclusion of address sets is exactly a longer or equal prefix that extends the shorter one, for both widths |
| `Cidr.ExceptAcceptedExact` | internal/controller/mcpserver_controller_validation.go:472-495 | an except entry is accepted if and only if its address set lies within the parent's, outside the IPv4-mapped case |
| `Cidr.MappedExceptRefused` | internal/controller/mcpserver_controller_validation.go:483-491 | the IPv4-mapped block lies within the whole IPv6 space and is refused |
| `NetworkPeers.ValidatePeer` | internal/controller/mcpserver_controller_validation.go:452-498 | no error exactly for valid peers, and otherwise the rule that is violated first |
| `NetworkPeers.AdmitsAllSourcesExact` | internal/controller/mcpserver_controller_networkpolicy.go:319-359 | for valid peers the syntactic test holds if and only if the peer admits every possible source of its kind, except for the name-label-only selector |
| `NetworkPeers.NameLabelPeerMisreported` | internal/controller/mcpserver_controller_networkpolicy.go:344-350 | the exception is real: such a peer admits every pod and counts as restricting |
| `NetworkPeers.ValidExceptInside` | internal/controller/mcpserver_controller_validation.go:472-495 | every exception of an accepted block is a subset of the block |
| `IngressPolicy.PolicyAdmitsExactly` | internal/controller/networkpolicy_defaults.go:77-121 | the built policy admits exactly the sources the posture allows, on the server's TCP port: declared peers, or operator pods and the resolved gateway namespace |
| `IngressPolicy.DesiredPolicyFails` | internal/controller/networkpolicy_gateway_peer.go:99-171 | the policy is left unwritten exactly when the ConfigMap of a derived gateway peer cannot be read |
| `IngressPolicy.DerivedPeersRestrict` | internal/controller/networkpolicy_gateway_peer.go:64-139 | every derived operator or gateway peer restricts its source |
| `IngressPolicy.PostureVerdictStable` | internal/controller/mcpserver_controller_networkpolicy.go:227-310 | the posture verdict is the same as when built without derived peers |
| `IngressPolicy.OperatorPeerAdmits` | internal/controller/networkpolicy_operator_peer.go:56-87 | the operator peer admits exactly the operator's own pods |
| `IngressPolicy.UnrestrictedVerdictRight` | internal/controller/mcpserver_controller_networkpolicy.go:290-317 | for every server with valid peers, a verdict of no restriction means that some kind of source (pods, 32-bit or 128-bit addresses) is admitted as a whole on the server's port |
| `IngressPolicy.RestrictedVerdictRight` | internal/controller/mcpserver_controller_networkpolicy.go:290-317 | with at most one declared peer per kind, and none that only asks for the name label, a verdict of restriction means that every kind has a refused source |
| `IngressPolicy.VerdictExact` | internal/controller/mcpserver_controller_networkpolicy.go:227-317 | with at most one declared peer per kind, in both postures: some kind of source is admitted as a whole if and only if the ingress verdict says unrestricted or a declared peer only asks for the name label |
| `IngressPolicy.HalvesCoverEverything` | internal/controller/mcpserver_controller_networkpolicy.go:290-317 | two half ranges, two valid peers of one kind, get a restricted verdict and admit every 32-bit address |
| `PodDiagnostics.AnalyzePodFailures` | internal/controller/mcpserver_controller_conditions.go:283-313 | the scan returns the failure of the first failing pod, init containers first |
| `PodDiagnostics.ClassifyKind` | internal/controller/mcpserver_controller_conditions.go:202-244 | which container state gives which kind of failure, and that nothing else gives one |
| `PodDiagnostics.ClassifyDetail` | internal/controller/mcpserver_controller_conditions.go:203-233 | which detail and exit code each kind carries |
| `PodDiagnostics.FirstFailureExact` | internal/controller/mcpserver_controller_conditions.go:285-299 | of one pod the first failing init container is reported, a regular one only when those are all fine, and nothing exactly when all are fine |
| `PodDiagnostics.DiagnoseExact` | internal/controller/mcpserver_controller_conditions.go:305-313 | of many pods the first failing one is reported |
| `PodDiagnostics.SignatureInjective` | internal/controller/mcpserver_controller_conditions.go:274-281 | two failures of a pod have the same fingerprint if and only if they agree on everything but the restart count |
| `PodDiagnostics.SignatureTracksDiagnosis` | internal/controller/mcpserver_controller_conditions.go:318-324 | a pod's fingerprint changes exactly when its diagnosis does |
| `PodDiagnostics.PassesExactly` | internal/controller/mcpserver_controller_conditions.go:333-366 | the watch passes an event exactly when it concerns a failing pod coming or going, or an update that changes the diagnosis |
| `PodDiagnostics.DroppedEventsKeepDiagnosis` | internal/controller/mcpserver_controller_conditions.go:333-366 | however many create, update and delete events the watch drops, the reported diagnosis is unchanged except for its restart count |
| `PodDiagnostics.DroppedEventsKeepMessage` | internal/controller/mcpserver_controller_conditions.go:247-268 | the rendered message can differ only in the restart count |
| `PodDiagnostics.MessageTells` | internal/controller/mcpserver_controller_conditions.go:247-268 | the message names the pod and, by kind, the image, the detail, the exit code and the restarts |
| `PodDiagnostics.BarInNameCollides` | internal/controller/mcpserver_controller_conditions.go:274-281 | with a bar in a container name two different failures share a fingerprint |
| `TlsGroups.BuildGroupLookup` | cmd/tlsconfig.go:167-183 | the scan over all ids and the alias overlay build the lookup table |
| `TlsGroups.ParseTLSGroups` | cmd/tlsconfig.go:190-218 | the loop with its seen set returns the first occurrence of every recognised group in order, with canonical names |
| `TlsGroups.CanonicalNameFound` | cmd/tlsconfig.go:162-183 | every recognised group, by name or alias, is found again under its own canonical name |
| `TlsGroups.GroupsExact` | cmd/tlsconfig.go:200-215 | exactly the groups some piece names are returned, each once, in order of first mention |
| `TlsGroups.AliasRecognised` | cmd/tlsconfig.go:176-181 | an alias yields its group, in any case and with spaces around it |
| `TlsGroups.NameRecognised` | cmd/tlsconfig.go:167-175 | a canonical name yields its group, in any case and with spaces around it |
| `TlsGroups.TrimSpaces` | cmd/tlsconfig.go:201-204 | trimming removes exactly the spaces around a text |
| `TlsGroups.ReparseStable` | cmd/tlsconfig.go:58-65 | for every input, parsing the comma-joined canonical names yields the same groups in the same order |
| `TlsLists.SplitJoin` | cmd/tlsconfig.go:195-197 | splitting at commas undoes joining for every list of comma-free names |
| `CipherSuites.ParseCipherSuites` | cmd/tlsconfig.go:132-160 | returns the recognised names in order with their ids, repeats kept |
| `CipherSuites.SuitesExact` | cmd/tlsconfig.go:149-157 | exactly the known names among the pieces are returned |
| `CipherSuites.ReparseStable` | cmd/tlsconfig.go:50-56 | for every input and table, printing and parsing the recognised suites changes nothing |
| `Providers.MissingCRDs` | internal/controller/providers/crd_watcher.go:94-109 | the loop returns the unserved kinds in order, or an error at the first discovery failure |
| `Providers.NothingMissing` | internal/controller/providers/crd_watcher.go:94-109 | nothing is missing if and only if every kind is served |
| `Providers.SetUpFails` | internal/controller/providers/registry.go:57-85 | start-up fails exactly when a provider whose kinds are all served cannot be started |
| `Providers.PassStartsExactly` | internal/controller/providers/crd_watcher.go:49-70 | a pass starts exactly the pending providers it sees served and whose factory succeeds |
| `Providers.CRDWatcher.SetupAll` | internal/controller/providers/registry.go:51-91 | start-up leaves exactly the providers that are not ready pending, and fails exactly when a ready provider's factory fails |
| `Providers.CRDWatcher.Reconcile` | internal/controller/providers/crd_watcher.go:42-76 | one pass refines the walk over the pending list, and asks for a requeue exactly when something is still pending |
| `Providers.RunPartition` | internal/controller/providers/registry.go:51-91 | after start-up and any passes, pending and started partition the registry, no provider started twice, and every start saw all its kinds served in its pass |
| `Providers.ServedPassStartsAll` | internal/controller/providers/crd_watcher.go:48-75 | a pass that sees everything served and whose factories succeed leaves nothing pending |
| `Providers.DistinctNamesExact` | internal/controller/providers/registry.go:44-91 | every run, whatever start-up and passes observe, partitions the registry with justified and unrepeated starts, if and only if the provider names are distinct |
| `Providers.DuplicateNameStartsTwice` | internal/controller/providers/registry.go:57-85 | whenever two registrations share a name, a start-up that sees everything served starts both |
| `Providers.DuplicateNameDropped` | internal/controller/providers/crd_watcher.go:49-52 | when both of two providers of one name had to wait, the pass that starts the first drops the second, which never starts |

## Left out

- Generated code, deep copies, schemas, manager and flag wiring, metrics, audit logs and log lines.
- The MCP SDK dial, net/http, x509 and TLS transports: a dial is an input with the outcomes success, auth error or failure with a text.
- SHA-256 and JSON: the digest is an uninterpreted function of the proved byte stream, and decoding the tracking annotations is assumed to undo encoding.
- API-server defaulting and the field-by-field comparison of Deployments; object content is one opaque value in `Ownership.dfy`.
- Events other than the handshake ones, and the message text of the Available condition, which is an input.
- Egress rules, network policy ports, admission policies, hostname syntax and log-level parsing: each is settled by reading one function.
- Ownership.ForeignObjectsUntouched: does not cover deletes of gateway bindings, which carry no preconditions and so can hit a replaced object; bindings lingering on finalizers are not modelled either.
- Other field managers of the MCPServer status: a write replaces the status it applied before.
- One instant stands for all clock readings of a reconcile.
- Condition types, reasons and reserved keys are enumerated, with a case carrying the text of any other; texts are sequences of characters, not bytes.
- HandshakeStreaks.StreakTotal: states the total below 2^31 failures only, because the 32-bit count wraps there and retries resume.
- TlsGroups.ReparseStable: needs names that are printable and distinct up to case and aliases that do not shadow another group's name, as the Go toolchain provides.
- PodDiagnostics.SignatureInjective: needs container names and images without a bar, as Kubernetes names and image references are.
- NetworkPeers.AdmitsAllSourcesExact: In and NotIn requirements are taken to have values, as the API server enforces.
- IngressPolicy.RestrictedVerdictRight: asks for at most one declared peer per kind of source and none that only asks for the name label (VerdictExact covers the latter); beyond one peer per kind, whether several peers together cover a kind is a property of their union that the code never looks at.
