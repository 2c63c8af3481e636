# Verified model of the Azure remedy controller

The remedy controller watches Kubernetes services and nodes, keeps one `PublicIPAddress` object per
load-balancer IP and one `VirtualMachine` object per node, and uses them to delete orphaned Azure public
IP addresses and to reapply failed Azure VMs. This project models that logic in Dafny and proves what it
guarantees over whole runs, whatever Azure and the API server answer.

| file | models |
|---|---|
| `FailedOperations.dfy`, `Backoff.dfy` | the list of failed operations that every status carries, and the int64 exponential backoff |
| `Reconciler.dfy` | the generic reconciler: finalizers, requeue delays |
| `PublicIPAddress.dfy`, `PublicIPActuator.dfy`, `PublicIPProtocol.dfy` | the publicipaddress resource, its actuator, and runs of its controller |
| `Services.dfy`, `ServiceActuator.dfy`, `ServiceProtocol.dfy`, `ServiceRefinement.dfy` | services, their actuator, the interleaved finalizer protocol, and its refinement of the reconciler |
| `Interplay.dfy` | what the service controller's updates mean for the publicipaddress controller's cleaning |
| `VirtualMachine.dfy` | the virtualmachine actuator and its runs |
| `LoadBalancer.dfy`, `AzureUtils.dfy`, `Cleaner.dfy` | the load-balancer cascade, paged lookups and Azure calls, the standalone cleaner |
| `EventFilter.dfy`, `Predicates.dfy` | the event predicates with their expiring cache |
| `Labels.dfy`, `Sequences.dfy`, `Wrappers.dfy` | label values and generated names, filtering and repetition of sequences, options and results |

How the model is built:

- Code that changes state is a class with methods (`FailedOperationList`, `LoadBalancer`, `PublicIPAddressUtils`,
  `Reconciler`, `PublicIPActuator`, `ServiceActuator`, `VMActuator`, the two predicates). Each method is proved
  equal to a function of the old state; the lemmas about runs are about these functions.
- What the functions compute is stated in terms of the fields, annotations, labels, tags and answers that are
  visible from outside (`Describes`, `Protected`, `Ignored`, `TaggedFor`, `RuleHit`, ...), not of their helpers.
- What Azure and the API server answer is an input (`Environment`, `Answers`, `Listing`, `BalancerAnswer`,
  `DeleteAnswer`, the `budget` of `Client`), so every statement holds for every answer, unless a lemma says
  which answers it is about. A status write of a PublicIPAddress is one step that fails, or replaces the
  status, or finds that the object has vanished, which the code takes for a success; in the last two cases it
  hands back the annotations of the object, because the client reads it again.
- One reconcile sees one current time. Cache entries of the predicates expire at any time (`Expire`).
- `history`, `calls`, `steps` and `trace` record what a reconcile did; the code has no such logs.

Assumptions, each stated where it is needed:

- An Azure address found by name has an IP (`NamedAddressHasIP`), since the code dereferences it (it is part of `Smooth`, and of the contracts of the actuator's methods); addresses have an ID and a name.
- Kubernetes accepts a service only with a name, and a namespace only without a dot (`Valid`). Users neither
  touch the controller's finalizer nor label PublicIPAddress objects for a service or change their IPs.
- The address of a time pointer determines the time (`TimePointer`): the predicates compare deletion timestamps as pointers.
- Azure returns a VM under the name that was asked for (`Echoes`, only for `NameIsStable`).

Findings:

- A probe is appended once per surviving rule (`pkg/utils/azure/pubip.go:210-214`), so a probe that lists two
  surviving rules is doubled by every removal, even by one of no address at all (`RemoveNothingIff`,
  `BatchProbesCounterexample`). Batch and sequential removal agree on the probes exactly under
  `AllBatchable`, and repeating a removal changes nothing exactly if every kept probe lists one rule.
- Names of PublicIPAddress objects collide across services exactly when namespace and name join to the same
  string (`NameCollisionIff`); another service's object is then taken over (`OthersUntouchedIff`).
- The address of an IP that a service uses can be cleaned: when an IP comes back to a service whose object for
  it is already under deletion, the update cannot revoke the deletion but removes do-not-clean, and once the
  grace period is over the publicipaddress controller detaches and deletes the address. `CurrentIPCleanedIff`
  says exactly when; an object that was not under deletion is safe (`CurrentIPSafe`).
- A deletion gives up after the maximum number of attempts and removes the finalizer although the Azure
  address may still exist (`FinalizerReleasedIff`).

What an assumption is needed for: the service cache is keyed by name only, without the namespace. With any
old objects in the updates, no change is lost exactly if no two objects share a key (`NothingLostIff`); so
for services the old objects matter (`ServiceChangeLostWithSharedName`, `NamesAreNotEnough`). The informers of
client-go, which are not part of this model, hand over as the old object the one that they announced last,
and then nothing is lost whatever the cache contains (`NothingLostWithTrueOld`, `NoServiceChangeLost`).

## Model

| member | source | states |
|---|---|---|
| FailedOperations.FailedOperationList.AddOrUpdate | pkg/apis/azure/v1alpha1/types_common.go:44-65 | a failure increments the entry of its type in place, or appends one with one attempt; the returned entry is the stored one |
| FailedOperations.FailedOperationList.Delete | pkg/apis/azure/v1alpha1/types_common.go:68-75 | the entry of a type goes, all others keep their order |
| FailedOperations.RecordInPlace | pkg/apis/azure/v1alpha1/types_common.go:44-75 | with an entry of the operation, a failure changes that entry in its place and a success takes it out, all others keeping their order |
| FailedOperations.RecordAppends | pkg/apis/azure/v1alpha1/types_common.go:44-75 | without one, a failure appends an entry with one attempt and a success changes nothing |
| FailedOperations.RecordKeepsAccurate | pkg/apis/azure/v1alpha1/types_common.go:44-75 | after any outcome the list has exactly one entry per operation whose last outcome is a failure, with its failures since its last success and the message and time of the last one |
| FailedOperations.RecordAllKeepsAccurate | pkg/apis/azure/v1alpha1/types_common.go:44-75 | the same over any sequence of outcomes |
| FailedOperations.OtherAttempts | pkg/apis/azure/v1alpha1/types_common.go:44-75 | an outcome of one operation leaves the attempts of all others unchanged |
| Backoff.NoOverflowIff | pkg/controller/azure/publicipaddress/actuator.go:99-104 | no delay below the maximum M wraps around in int64 exactly if I * 2^(M-2) < 2^63 |
| Backoff.DelaysSum | pkg/controller/azure/publicipaddress/actuator.go:99-104 | without overflow the delays add up to exactly I * (2^(M-1) - 1) |
| Reconcilers.Reconciler.Reconcile | pkg/controller/reconciler.go:57-79 | one reconcile of any controller, for every answer of the API server: state and result as specified, reached by steps that keep the discipline of finalizers: the object is held whenever the actuator works on it, the actuator is called at most once, and a finalizer is removed only directly after the actuator has finished |
| Reconcilers.Reconciler.CreateOrUpdate | pkg/controller/reconciler.go:81-118 | the finalizer is added before the actuator's update and removed only after its success; nothing is deleted |
| Reconcilers.Reconciler.Delete | pkg/controller/reconciler.go:120-141 | the actuator deletes a held object, and the finalizer goes only after its success; nothing is updated and no finalizer added |
| Reconcilers.Reconciler.EnsureDeleted | pkg/controller/reconciler.go:143-151 | the only step is one deletion by the actuator, so no finalizer is touched; the answer is without requeue exactly if it succeeds |
| Reconcilers.ReleasedIff | pkg/controller/reconciler.go:81-141 | for any actuator: a held finalizer is released exactly if the deletion, or the last update of an object that needs none, succeeded and its removal was accepted, or the object vanished while the actuator worked |
| Reconcilers.AcquiredIff | pkg/controller/reconciler.go:81-97 | for any actuator: a finalizer appears exactly on a present, undeleted object that needs one and does not vanish meanwhile; if none is added nothing changes |
| Reconcilers.ResultMeans | pkg/controller/reconciler.go:57-161 | for any actuator: a reconcile fails exactly if the read, a needed finalizer's addition or a finalizer's removal is rejected or the actuator fails; it is a retry exactly if the actuator asks for one, with that delay; a success passes on the actuator's delay unless the object is gone or needs no finalizer any more |
| Labels.RoundTripIff | pkg/controller/utils.go:67-80 | a label value leads back to its object exactly if neither namespace nor name contains the separator |
| Labels.FromLabelValueIff | pkg/controller/utils.go:74-80 | a label value leads to an object exactly if it is its namespace and name around the only dot |
| Labels.LabelValueInjective | pkg/controller/utils.go:67-72 | different services have different label values |
| Labels.NameInjectiveInIP | pkg/controller/azure/service/actuator.go:197-199 | for one service, different IPs have different object names |
| Labels.NameCollisionIff | pkg/controller/azure/service/actuator.go:197-199 | across services, names collide exactly if IPs and joined service names are equal |
| Labels.NameCollisionExample | pkg/controller/azure/service/actuator.go:197-199 | two services with different labels and equal object names |
| LoadBalancers.LoadBalancer.UpdateFrontendIPConfigurations | pkg/utils/azure/pubip.go:167-182 | the list is overwritten with the kept frontends, the IDs of the others are returned in order |
| LoadBalancers.LoadBalancer.UpdateLoadBalancingRules | pkg/utils/azure/pubip.go:184-199 | the same for rules on removed frontends |
| LoadBalancers.LoadBalancer.UpdateProbes | pkg/utils/azure/pubip.go:201-217 | every probe is repeated once per surviving rule |
| LoadBalancers.LoadBalancer.RemovePublicIPs | pkg/utils/azure/pubip.go:131-134 | the three filters in sequence compute the cascade |
| LoadBalancers.BatchEqualsSequential | pkg/utils/azure/pubip.go:131-199 | removing A then B leaves the same frontends and rules, in the same order, as removing both at once, and the same rules go |
| LoadBalancers.BatchProbesIff | pkg/utils/azure/pubip.go:201-217 | the whole balancer agrees exactly if for every probe one of the two steps removes all its rules, or exactly one listed rule survives each and both |
| LoadBalancers.BatchProbesCounterexample | pkg/utils/azure/pubip.go:210-214 | a probe with two surviving rules is there four times after two removals and twice after one |
| LoadBalancers.RemoveAgain | pkg/utils/azure/pubip.go:122-146 | repeating a removal leaves frontends, rules and the set of probes; the list of probes exactly if every kept probe lists one rule |
| LoadBalancers.RemoveNothingIff | pkg/utils/azure/pubip.go:122-146 | removing no address leaves the balancer exactly if every probe lists one rule |
| LoadBalancers.KeptProbeIff | pkg/utils/azure/pubip.go:201-217 | a probe is kept iff its rule list is set and some listed rule survives, once per surviving rule |
| LoadBalancers.RemoveKeepsIntact | pkg/utils/azure/pubip.go:167-199 | after the cascade every kept rule's frontend still exists, unless a rule without an ID was on a removed one |
| LoadBalancers.RemoveKeepsIntactIff | pkg/utils/azure/pubip.go:167-199 | with unique frontend IDs that is the only way to lose integrity |
| LoadBalancers.NoFrontendUsesRemoved | pkg/utils/azure/pubip.go:167-182 | the kept frontends are those that have no ID or use no removed address |
| LoadBalancers.FrontendsKept | pkg/utils/azure/pubip.go:167-182 | the frontends that stay are, in order, exactly those without an ID or without a reference to one of the addresses |
| LoadBalancers.RulesKept | pkg/utils/azure/pubip.go:184-199 | the rules that stay are, in order, exactly those without an ID or without a reference to a removed frontend |
| LoadBalancers.ProbesKept | pkg/utils/azure/pubip.go:201-217 | every probe stays, in order, once for each of its references that leads to no removed rule, and not at all with a nil list |
| Sequences.KeepIsOrderedComplement | pkg/utils/azure/pubip.go:173-179 | what a filter keeps is the order-preserving complement of what it removes |
| AzureUtils.PublicIPAddressUtils.GetByIP | pkg/utils/azure/pubip.go:81-100 | the first match before any failure wins; k reads for a match on page k, otherwise one per fetched page and one more |
| AzureUtils.PublicIPAddressUtils.GetAll | pkg/utils/azure/pubip.go:103-118 | all pages in order, or the failure; reads counted |
| AzureUtils.ListedInOrder | pkg/utils/azure/pubip.go:103-118 | a whole list has every address of every page in its place, also those without an IP, and no others |
| AzureUtils.SearchFindsFirst | pkg/utils/azure/pubip.go:81-100 | the search yields the first address with the IP on the pages read before a failure; without one it fails with the error of the failing request, or finds none if there is no such request |
| AzureUtils.PublicIPAddressUtils.RemoveFromLoadBalancer | pkg/utils/azure/pubip.go:122-146 | the cascade takes effect exactly if Azure applies the update; errors and request counters for each failing request |
| AzureUtils.PublicIPAddressUtils.Delete | pkg/utils/azure/pubip.go:149-165 | a missing address is no error; errors and counters for each failing request |
| AzureUtils.RemovalMeans | pkg/utils/azure/pubip.go:122-146 | no error exactly if Azure confirms the update; the addresses never change, and the balancer only if the update is applied |
| AzureUtils.DeletionMeans | pkg/utils/azure/pubip.go:149-165 | no error exactly if Azure confirms the deletion or has no such address, and then the address is gone; no other address changes |
| AzureUtils.SearchRefinesList | pkg/utils/azure/pubip.go:81-118 | search by IP is the first match of the whole list whenever that can be fetched; not found means there is none; it fails exactly if the list fails and no earlier page matches |
| Cleaner.GetKnownK8sIps | pkg/remedies/azure/pubip.go:97-111 | the IPs known to Kubernetes are the ingress IPs of LoadBalancer services |
| Cleaner.SeparateOrphanAndKnownIps | pkg/remedies/azure/pubip.go:113-145 | the two lists are the order-preserving selections of orphan and known addresses |
| Cleaner.OrphanIff | pkg/remedies/azure/pubip.go:113-145 | an orphan is an address whose name contains that of the shoot, and that has no IP or one that no LoadBalancer service lists |
| Cleaner.Partition | pkg/remedies/azure/pubip.go:113-145 | orphan and known addresses partition the addresses of the shoot |
| Cleaner.Clean | pkg/remedies/azure/pubip.go:53-95 | deletions are requested in order, after the removal of all orphans from the balancer, and stop at the first failure; nothing is deleted if an earlier request fails |
| Cleaner.KnownAndForeignSurvive | pkg/remedies/azure/pubip.go:53-145 | an address whose IP a LoadBalancer service lists, or of another shoot, is never requested and survives |
| Cleaner.GoneIsPrefix | pkg/remedies/azure/pubip.go:85-91 | what disappears is a prefix of the orphans, all of them without an error |
| Cleaner.OrphansGone | pkg/remedies/azure/pubip.go:85-94 | after a pass without error every orphan of the snapshot was requested and is gone; an orphan that is left was requested last or not at all, by a pass with an error |
| Cleaner.OrphansDetached | pkg/remedies/azure/pubip.go:79-91 | when orphans are deleted no frontend with an ID uses them |
| PublicIPActuators.PublicIPActuator.CreateOrUpdate | pkg/controller/azure/publicipaddress/actuator.go:74-121 | one update: stored object, counters and answer as specified, also if the object vanishes before its status is written |
| PublicIPActuators.PublicIPActuator.Delete | pkg/controller/azure/publicipaddress/actuator.go:124-208 | one deletion: stored object, Azure cloud, counters, calls and answer as specified, also if the object vanishes before a status write |
| PublicIPProtocol.Control | pkg/controller/azure/publicipaddress/add.go:92-102 | the controller is the generic reconciler with this actuator, and does not delete vanished objects again; its view of objects is lawful, so it keeps the discipline of finalizers |
| PublicIPActuators.PublicIPActuator.GetAzurePublicIPAddress | pkg/controller/azure/publicipaddress/actuator.go:215-242 | lookup by name if the IP matches, else by IP if the service tag matches |
| PublicIPActuators.PublicIPActuator.CleanAzurePublicIPAddress | pkg/controller/azure/publicipaddress/actuator.go:244-254 | ID and name in the status are those of the address just found; it is deleted only after it is off the balancer |
| PublicIPProtocol.FoundAddress | pkg/controller/azure/publicipaddress/actuator.go:215-242 | an address that is found was observed in this reconcile, has the IP of the object, and has the name in its status or the tag of the service that it is labelled for |
| PublicIPProtocol.FindAddressMeans | pkg/controller/azure/publicipaddress/actuator.go:215-242 | the lookup yields the address with the name in the status if it has the IP, else the first listed address with the IP if its tag `service` is namespace/name of the service that the object is labelled for; any tag will do for an object without such a label |
| PublicIPProtocol.NotFoundMeans | pkg/controller/azure/publicipaddress/actuator.go:215-242 | if none is found, no address that was read has the IP, or the first one that has it is not tagged for the service that the object is labelled for |
| PublicIPProtocol.UpdateDescribesAddress | pkg/controller/azure/publicipaddress/actuator.go:85-120 | after an update whose write succeeds the status has exactly ID, name and state of the address found, or says that there is none; the next reconcile comes after the requeue interval iff it is missing or in transition, else after the sync period |
| PublicIPProtocol.DeletionDescribesAddress | pkg/controller/azure/publicipaddress/actuator.go:135-204 | after a deletion whose writes succeed the status has exactly ID, name and state of the address found, and none once it is cleaned |
| PublicIPProtocol.GracePeriodWaits | pkg/controller/azure/publicipaddress/actuator.go:164-172 | within the grace period an address that is found is left alone, and the next reconcile comes after the requeue interval |
| PublicIPProtocol.EndAnswered | pkg/controller/azure/publicipaddress/actuator.go:136-207 | a deletion that ends comes back after the sync period if it gave up the lookup or the cleaning, and not at all otherwise |
| PublicIPProtocol.CloudAfter | pkg/controller/azure/publicipaddress/actuator.go:174-204 | what every step changes in Azure and in the counter of cleaned addresses, for every answer: the counter grows exactly if the address was detached and deleted or already gone |
| PublicIPProtocol.FailingWrites | pkg/controller/azure/publicipaddress/actuator.go:256-288 | a failing status write makes the reconcile fail; the first one leaves everything but the finalizer as it was, the second one what the first one wrote |
| PublicIPProtocol.EveryCallJustified | pkg/controller/azure/publicipaddress/actuator.go:136-176 | over every run, each destructive call belongs to the calls of one reconcile, which are all for one address: observed in it, with the IP of the object, and with the name in its status or the tag of the service that it is labelled for; the object is under deletion for longer than the grace period and not annotated do-not-clean |
| PublicIPProtocol.EveryCallFollowsRequest | pkg/controller/azure/publicipaddress/actuator.go:164-176 | over every run of an object that is not under deletion at first, each destructive call comes after a request to delete the object, later than the grace period |
| PublicIPProtocol.DeletionFollowsRemoval | pkg/controller/azure/publicipaddress/actuator.go:244-254 | in the log of every run, the deletion of an address comes directly after the confirmed removal of the same address from the balancer |
| PublicIPProtocol.CallsMadeIff | pkg/controller/azure/publicipaddress/actuator.go:136-176 | a step makes destructive calls exactly if it is a reconcile that reads the object, finds an address and has it due |
| PublicIPProtocol.NextCallsJustified | pkg/controller/azure/publicipaddress/actuator.go:164-205 | the calls of one step are none, or the removal of one due address from the balancer and, exactly if that was confirmed, the deletion of the same address |
| PublicIPProtocol.CleanedIsGone | pkg/controller/azure/publicipaddress/actuator.go:196-204 | when the counter of cleaned addresses grows, Azure has the address no more and no frontend uses it |
| PublicIPProtocol.FinalizerReleasedIff | pkg/controller/azure/publicipaddress/actuator.go:124-208 | the finalizer goes in a reconcile exactly if the object is under deletion and the address was not found, or do-not-clean was set, or cleaning succeeded after the grace period, or the get or clean counter reached its maximum; or if the object vanished before a status write |
| PublicIPProtocol.RunKeepsCounters | pkg/controller/azure/publicipaddress/actuator.go:132-204 | in every run, with any failing writes, the stored counters are the failures since the last success of the recorded outcomes |
| PublicIPProtocol.EveryAttemptRecorded | pkg/controller/azure/publicipaddress/actuator.go:132-204 | with successful writes, whatever the API server answers else, a reconcile records exactly the lookup, if it gets that far, and the cleaning, if it is due, with their outcomes |
| PublicIPProtocol.AttemptsCounted | pkg/controller/azure/publicipaddress/actuator.go:132-204 | over every run with successful writes, the stored list agrees with the attempts that the events make: per operation the failures since its last success, and the last failure |
| PublicIPProtocol.ReconcileProgresses | pkg/controller/azure/publicipaddress/actuator.go:132-207 | after the grace period, with API writes succeeding, every reconcile removes the object or decreases the bound, whatever Azure answers (an address found by name having an IP) |
| PublicIPProtocol.DeletionTerminates | pkg/controller/azure/publicipaddress/actuator.go:132-207 | a deletion ends when the bound of its counters is used up, with users editing the object in between |
| PublicIPProtocol.DeletionBound | pkg/controller/azure/publicipaddress/actuator.go:132-207 | from empty counters MaxCleanAttempts * MaxGetAttempts reconciles are enough |
| PublicIPProtocol.BoundIsTight | pkg/controller/azure/publicipaddress/actuator.go:132-207 | Azure can make a deletion use every reconcile of the bound but the last without ending |
| PublicIPProtocol.BackoffSchedule | pkg/controller/azure/publicipaddress/actuator.go:98-105 | consecutive get failures, or clean failures, below the maximum reach the controller runtime as requeues after the delays of the backoff, in order |
| PublicIPProtocol.RequeuePassedOn | pkg/controller/reconciler.go:155-160 | a retry that the actuator asks for reaches the controller runtime with its delay unchanged |
| PublicIPProtocol.FailureAtMaximum | pkg/controller/azure/publicipaddress/actuator.go:105 | from the maximum on, a failing lookup is answered with the sync period |
| Services.GetServiceLoadBalancerIPs | pkg/controller/azure/service/actuator.go:183-191 | the set of non-empty ingress IPs |
| ServiceActuators.ServiceActuator.CreateOrUpdate | pkg/controller/azure/service/actuator.go:55-120 | without a failing call all objects end up as specified, in whatever order IPs and objects are visited; on the ignored path, under any failure, every object whose deletion is requested carries do-not-clean before the request, and in every later state as long as it exists |
| ServiceActuators.ServiceActuator.Delete | pkg/controller/azure/service/actuator.go:123-168 | without a failing call exactly the named and the labelled stale objects are marked or removed |
| ServiceActuators.UpdateConverges | pkg/controller/azure/service/actuator.go:72-117 | every IP has its own labelled object without do-not-clean; every other object of the service is marked or gone |
| ServiceActuators.UpdateOfCurrent | pkg/controller/azure/service/actuator.go:72-93 | the object for a current IP has the service's label and the IP, and not do-not-clean; an old one is otherwise the same, mark included, a new one unmarked |
| ServiceActuators.UpdateOfOther | pkg/controller/azure/service/actuator.go:95-117 | of all other objects, exactly those labelled for the service are deleted whose IP it has no more, or all of them if it is ignored, then protected first; everything else stays as it is |
| ServiceActuators.DeletionMeans | pkg/controller/azure/service/actuator.go:139-165 | a deletion requests the deletion of exactly the objects named for the service's IPs and of those labelled for it with another IP |
| ServiceActuators.UpdateIdempotent | pkg/controller/azure/service/actuator.go:55-120 | a second update leaves everything as it is |
| ServiceActuators.MarkOfCurrentStays | pkg/controller/azure/service/actuator.go:72-93 | the object for a current IP is under deletion after an update exactly if it was before; do-not-clean is off then |
| Interplay.CurrentIPCleanedIff | pkg/controller/azure/service/actuator.go:72-93 | after an update that lists an IP, the next reconcile of its object makes destructive calls exactly if the object was under deletion before the update, for longer than the grace period now, the address is found and nobody has set do-not-clean since; all calls are for an address with that IP |
| Interplay.CurrentIPSafe | pkg/controller/azure/service/actuator.go:72-93 | if the object was not under deletion before the update, no run without a request to delete it makes a destructive call |
| ServiceActuators.OthersUntouchedIff | pkg/controller/azure/service/actuator.go:72-117 | an object not labelled for the service is untouched exactly if its name is not generated for one of the service's IPs, or the service is ignored |
| ServiceActuators.DeleteReachesAllIff | pkg/controller/azure/service/actuator.go:139-165 | a deletion reaches every object of the service exactly if its unmarked objects for the service's IPs have generated names |
| ServiceProtocol.RunKeepsInvariant | pkg/controller/reconciler.go:81-141 | in every reachable state of the interleaved protocol, aborted reconciles included, an unmarked object labelled for a service implies that the service exists and carries the finalizer |
| ServiceProtocol.NextKeepsInvariant | pkg/controller/azure/service/actuator.go:55-168 | every single step keeps it, together with what each reconcile in progress has achieved |
| ServiceProtocol.InitialInvariant | pkg/controller/azure/service/actuator.go:44-52 | it holds when the controller starts without labelled objects |
| ServiceProtocol.FinalizerFirst | pkg/controller/reconciler.go:86-100 | when an unmarked object of a service appears, the service already carries the finalizer and its own reconcile creates the object |
| ServiceProtocol.FinalizerLast | pkg/controller/reconciler.go:106-135 | when the finalizer goes, its own reconcile removes it and no object of the service is left unmarked |
| ServiceRefinement.ProtocolRefinesReconciler | pkg/controller/reconciler.go:57-151 | a reconcile run call by call that nothing disturbs, in whatever order it visits IPs and objects, leaves services and objects exactly as the generic reconciler with the service actuator does in one piece |
| ServiceRefinement.Control | pkg/controller/azure/service/add.go:80-86 | the controller is the generic reconciler with the service actuator, and deletes the objects of a service that is gone; its view of services is lawful, so it keeps the discipline of finalizers |
| ServiceRefinement.ServiceAfterReconcile | pkg/controller/azure/service/actuator.go:171-191 | a reconciled service has the finalizer exactly if it is not under deletion, has an IP and is not ignored, and goes with its last finalizer; nothing else of any service changes |
| ServiceRefinement.ObjectsAfterReconcile | pkg/controller/reconciler.go:81-141 | its objects are treated as by an update if it has or needs its finalizer, as by a deletion if it is under deletion with it, and not at all otherwise |
| ServiceRefinement.GoneServiceCleaned | pkg/controller/reconciler.go:143-151 | every object labelled for a service that is gone is marked or gone after its reconcile |
| VirtualMachines.VMActuator.GetVirtualMachineName | pkg/controller/azure/virtualmachine/actuator.go:294-303 | the name from the status, else after the last slash of the provider ID, else of the object |
| VirtualMachines.VMActuator.CreateOrUpdate | pkg/controller/azure/virtualmachine/actuator.go:80-180 | one update: status, gauge, counters and answer as specified |
| VirtualMachines.VMActuator.Delete | pkg/controller/azure/virtualmachine/actuator.go:183-226 | one deletion, the gauge being set before the status is written |
| VirtualMachines.VMActuator.SetVMStatesGauge | pkg/controller/azure/virtualmachine/actuator.go:283-292 | the gauge of one VM follows its state |
| VirtualMachines.GaugeDescribesVM | pkg/controller/azure/virtualmachine/actuator.go:94-179 | after an update whose get and writes succeed, the status has exactly ID, name and state of the VM as last observed, or says that there is none, and the gauge describes it: absent iff missing, OK iff not Failed, will-reapply iff reapplying failed below the maximum, failed iff it failed from the maximum on or the VM is still Failed |
| VirtualMachines.DeletionDescribesVM | pkg/controller/azure/virtualmachine/actuator.go:198-225 | after a deletion's successful get the gauge describes the VM and the status has ID, name and state of it, or says that there is none, exactly if it can be written |
| VirtualMachines.FailedGetDescribed | pkg/controller/azure/virtualmachine/actuator.go:95-103 | a failing get wipes the status and leaves the gauge as it is |
| VirtualMachines.FailingWrites | pkg/controller/azure/virtualmachine/actuator.go:250-281 | a failing status write makes the update fail; the first one leaves everything as it was, the second one the status of the first get and the gauge of the reapply |
| VirtualMachines.UpdateDelay | pkg/controller/azure/virtualmachine/actuator.go:174-179 | unless reapplying fails, the requeue is early iff the VM was missing or in transition |
| VirtualMachines.ReappliedCounts | pkg/controller/azure/virtualmachine/actuator.go:124-156 | over every run the counter equals the number of reapplies followed by a successful get |
| VirtualMachines.RunKeepsCounters | pkg/controller/azure/virtualmachine/actuator.go:91-163 | in every run the stored counters are the failures since the last success of the recorded outcomes |
| VirtualMachines.EveryAttemptRecorded | pkg/controller/azure/virtualmachine/actuator.go:91-163 | with successful writes every get and every reapply is recorded with its outcome |
| VirtualMachines.AttemptsCounted | pkg/controller/azure/virtualmachine/actuator.go:91-163 | over every run with successful writes, the stored list agrees with the attempts that the events make |
| VirtualMachines.BackoffSchedule | pkg/controller/azure/virtualmachine/actuator.go:107-152 | the n-th consecutive failure is answered with the n-th delay below the maximum, then with the sync period |
| VirtualMachines.NameIsStable | pkg/controller/azure/virtualmachine/actuator.go:250-281 | the name used is the same at every reconcile of a run, although the status has it only at times |
| VirtualMachines.NameFromProviderID | pkg/controller/azure/virtualmachine/actuator.go:298-301 | for a non-empty prefix, a slash and a part without slashes, the name is that part |
| VirtualMachines.NameFromObject | pkg/controller/azure/virtualmachine/actuator.go:298-302 | without a slash after the first character it is the object's name |
| VirtualMachines.NameFromStatus | pkg/controller/azure/virtualmachine/actuator.go:294-297 | a name in the status comes first |
| EventFilters.NothingLostWithOwnKeys | pkg/controller/azure/service/predicate.go:67-112 | if every cache key belongs to one object, what was last delivered agrees with what was last seen, after any events and any expiry |
| EventFilters.NothingLostWithTrueOld | pkg/controller/azure/service/predicate.go:67-112 | the same for any cache contents, if each update's old object is the one last seen |
| EventFilters.NothingLostIff | pkg/controller/azure/service/predicate.go:62-112 | with any old objects, no change is lost in any run exactly if no two objects share a cache key |
| EventFilters.RunProjected | pkg/controller/azure/service/predicate.go:137-150 | caching and comparing projections filters as whole objects would, if projections are the same exactly when the objects agree |
| Predicates.ServicePredicate.Create | pkg/controller/azure/service/predicate.go:51-64 | a created service passes and is cached under its name |
| Predicates.ServicePredicate.Update | pkg/controller/azure/service/predicate.go:67-112 | an update passes exactly if the service is not cached or differs in a relevant part from the old or the cached one, and then is cached |
| Predicates.ServicePredicate.Delete | pkg/controller/azure/service/predicate.go:115-128 | a deleted service passes and leaves the cache |
| Predicates.NoServiceChangeLost | pkg/controller/azure/service/predicate.go:51-150 | with true old objects the last delivered state has the IPs last seen, and with IPs also the deletion time and ignore annotation, even with services of one name in several namespaces |
| Predicates.NoServiceChangeLostWithOwnNames | pkg/controller/azure/service/predicate.go:51-150 | the same for any old objects if no two services share a name |
| Predicates.ServiceChangeLostWithSharedName | pkg/controller/azure/service/predicate.go:62-112 | without true old objects, new IPs of a service are not delivered if a service of the same name in another namespace has them already |
| Predicates.NamesAreNotEnough | pkg/controller/azure/service/predicate.go:62-112 | so for any old objects changes of services can be lost, and none of nodes |
| Predicates.ServicePassesIff | pkg/controller/azure/service/predicate.go:67-112 | an update of a service passes exactly if none is cached, or it differs from the old or the cached one in its IPs, or with IPs in its deletion timestamp or its ignore annotation |
| Predicates.ServicesFiltered | pkg/controller/azure/service/predicate.go:51-150 | over every run the predicate delivers what a filter of whole services would; with true old services the last delivered one agrees with the last seen one |
| Predicates.NodePredicate.Update | pkg/controller/azure/node/predicate.go:65-106 | an update passes exactly if the node is not cached or differs in deletion or readiness, and then is cached |
| Predicates.NodePassesIff | pkg/controller/azure/node/predicate.go:65-106 | an update of a node passes exactly if it is not cached, or differs from the old or the cached one in its deletion timestamp or in being ready (first Ready condition True) and reachable (no unreachable taint) |
| Predicates.NodesFiltered | pkg/controller/azure/node/predicate.go:50-142 | over every run the predicate delivers what a filter of whole nodes would, and the last delivered node agrees with the last seen one |
| Predicates.NoNodeChangeLost | pkg/controller/azure/node/predicate.go:50-142 | no change of a node is lost, whatever the old objects and the expiry |

## Left out

- The Azure SDK, autorest futures, credentials and HTTP: each call is an answer that may be a success, a failure or a 404.
- Client internals: conflicts and their retries, informer staleness, and the re-creation of an object that vanished before a status write. A failing write leaves the object as it was.
- The clock between two calls of one reconcile.
- The cast of a reconciled object to its type, which cannot fail in the running controller.
- `ownedObjectPredicate`, the node actuator, the cluster object labeler and the label mapper: truth tables, a single create or delete, and field reads.
- `fib` and `backoff` of the standalone cleaner, and its endless loop around a pass.
- Liveness: an orphan need not be cleaned, because a deletion gives up, and an object can vanish before it has a finalizer.
- Generated code, mocks, configuration, command line, metrics registration, logging, Helm charts, simulators and the integration tests.
