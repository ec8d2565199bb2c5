# aad-pod-identity: a Dafny model of MIC, the cloud update and NMI

AAD Pod Identity gives Kubernetes pods Azure identities. The Managed Identity Controller (MIC) computes, in sync
cycles, which `AzureAssignedIdentity` records should exist, and assigns the user-assigned identities they name to the
VMs and scale sets under the pods. The Node Managed Identity server (NMI) answers token requests from those records.

This project models the sync cycle, the cloud update it drives and NMI's lookup, and proves what they promise for all
inputs, all failures of the API server and of Azure, and all interleavings of goroutines.
`dafny verify dfyconfig.toml` checks everything.

## How it fits together

| file | models |
|---|---|
| `Text.dfy`, `Records.dfy` | strings, the custom resources, hosts |
| `CloudUpdate.dfy` | patches, `SetUserIdentities`, batches of 150, retry, `UpdateUserMSI` |
| `ScaleSets.dfy` | the VMSS group cache and the in-use check |
| `Diff.dfy` | create, delete and update lists on shared maps |
| `Desired.dfy` | the desired records and the binding order |
| `Plan.dfy`, `Consolidate.dfy` | work per node, and folding nodes into scale sets |
| `Safety.dfy` | which identities a plan may remove |
| `Protocol.dfy` | the goroutines of all hosts as one state machine |
| `SyncCycle.dfy` | the whole cycle, and cycle after cycle: removal safety, marking soundness, convergence |
| `Nmi.dfy`, `Managed.dfy` | standard and managed lookups, agreement with MIC over any number of cycles |
| `Reconcile.dfy` | the periodic reconciliation of Assigned records |

Azure is a set of lower-cased resource IDs per host. A PATCH applies its map (null deletes, as in section 2 of RFC
7396; a nil map clears the set); one that reports an error may have applied any part of it, and a failed write of a
record may still have taken effect. Go maps are iterated in an order chosen freely at each step. Maps that Go code
shares are heap objects (`Diff.Table`, `Plan.NodeTable`), and so are the `Identity` shared by the update closure and
the groups shared by the two indexes of the VMSS cache. In the protocol each host has a main loop, its goroutines and
an explicit semaphore count; a barrier is only "acquire all permits", and that no goroutine is then left is proved.

## Hypotheses

The code relies on some facts that it does not check. They are stated where they are used; the lemmas in brackets say
what happens where a fact fails.

- `Safety.Cycle.ClaimSeen`: the in-use check can tell that a desired record needs its identity when another record with
  that identity on its host goes or changes: both spell it alike and give it one client ID, they are on one node or in
  one scale set, and their pods do not just share a name. `ClaimIsSeen` derives this from conditions on the cluster.
  `IdentityStaysIff` needs none of it: it says exactly which identities a cycle can take from a host, and
  `UnseenRecordLosesItsIdentity` is the case of an unseen claim.
- `Safety.Cycle.CoherentOn`: on one host, a user-assigned identity has one spelling and one client ID. Where it has
  not, the result depends on map order (`OrderIrrelevantIff`), and marking is sound exactly if the identity is not also
  taken away (`CycleMarksSoundlyIff`).
- `Consolidate.NamesApart`: scale sets with work are told apart by their short names. Otherwise the work of exactly
  those nodes is lost whose entry is overwritten (`CollidingNamesLoseWork`, and `SomeOrderLosesIff` for any order).
- `Managed.NamesTellApart`: record names identify pod and identity, although dashes may be in either (`DashesCollide`).
  Where they do not, the first pod gets the record and the other none (`FirstPodWins`, `AssignedNamesCollide`), and
  standard and managed mode disagree (`ManagedModeAgrees`).
- `Managed.Regular`: namespaces contain no slash, and identities and pods are told apart by namespace and name.
- `createDeleteBatch` is at least 1: otherwise no record is ever written (`StartsIff`).
- `SyncCycle.Orderly`: besides, nodes of desired records exist, and an `AzureIdentity` of one name and resource version
  has one content.
- Node lookups do not change during a cycle.

## Where the code does less than its comments say

- A stored record that matches a desired one but is Unassigned is neither created nor deleted, so it is never assigned
  again (`AllAssignedIff`).
- Retries of a patch larger than one batch only resend the batch that failed. `RetryExactIff` says exactly when a retry
  still sends everything that no error named, and `LargePatchLosesAnEntry` and `RetryDropsAnUnnamedEntry` show what is
  lost.
- Removing from a host that has a system-assigned identity only, and nothing to remove, drops the system-assigned
  identity (`KindRunWellFormed`).
- The Assigned status is written by name, also when the record's own write failed. `MarkingGoesByName` says exactly
  when the marked record then has its identity, `RecoveryGoesByName` what is sure of it on the error path, and
  `FailedUpdateIsMarked` gives runs on both paths in which it does not; marking soundness is therefore about records
  whose write succeeded.
- NMI waits for an identity up to case and then matches it exactly (`WaitIgnoresCase`, `SomeSpellingMatches`).
  `StandardLookup` fails to find one exactly if only the case differs.
- Immutable client IDs are recognised only in lower case (`ImmutableIff`).

## Model

| member | source | states |
|---|---|---|
| Text.ContainsIff | pkg/retry/retry.go:94-98 | A string is contained in another iff it starts at some position of it. |
| Text.LessIff | pkg/apis/aadpodidentity/sort.go:13-18 | A string is less if it is a proper prefix, or smaller at the first difference. |
| CloudUpdate.Host.Patch | pkg/cloudprovider/cloudprovider_test.go:284-308 | A successful PATCH deletes nil entries, adds the others and clears on a nil map; a failed one leaves the host anywhere in between. |
| CloudUpdate.Host.Get | pkg/cloudprovider/vm.go:64-96 | GET returns the host's identities in any spelling, or fails. |
| CloudUpdate.ScanSound | pkg/cloudprovider/vm.go:191-208 | In any iteration order, the set the loop ends with is what its patch produces from the current set, and every patch entry was asked for. |
| CloudUpdate.LastSpellingWins | pkg/cloudprovider/vm.go:193-208 | Of several spellings of an identity the one iterated last decides whether it stays. |
| CloudUpdate.ScanBounds | pkg/cloudprovider/vm.go:191-208 | The resulting set lies between the two readings of contradictory spellings, and is exact without them. |
| CloudUpdate.OrderIrrelevantIff | pkg/cloudprovider/vm.go:193-208 | The result is the same in all map orders if and only if no identity is both added and removed under two spellings. |
| CloudUpdate.RemovalsMayWin | pkg/cloudprovider/vm.go:191-208 | In some map order every removal wins: the lower bound on the result is reached. |
| CloudUpdate.ScanIds | pkg/cloudprovider/vm.go:191-208 | The loop computes the scan of some enumeration of the map. |
| CloudUpdate.SetUserIdentities | pkg/cloudprovider/vm.go:179-224 | The shared identity ends with the patch (nil when nothing remains), the matching type, and an update is required unless the patch is empty. |
| CloudUpdate.KindRunWellFormed | pkg/cloudprovider/vm.go:210-223 | Over any run of updates the type includes user-assigned iff the last target was non-empty, keeps system-assigned iff no update emptied a host without user-assigned identities, and is never unset or unknown; an unknown type becomes "None" first. |
| CloudUpdate.Truncate | pkg/cloudprovider/truncate.go:12-24 | Splits a map into disjoint parts that add up to it, the first with min(150, n) entries. |
| CloudUpdate.SendNext | pkg/cloudprovider/vm.go:129-143 | One batch: progress, bounds on the host, and the map left in the shared identity. |
| CloudUpdate.SendBatches | pkg/cloudprovider/vm.go:127-143 | On success the batches sent are max(1, ceil(n/150)) disjoint parts of the patch and the host is as after one PATCH. |
| CloudUpdate.BatchesDisjoint | pkg/cloudprovider/truncate.go:12-39 | No entry is in two batches of a split. |
| CloudUpdate.BatchCount | pkg/cloudprovider/vm.go:127-143 | A map of n entries is sent in max(1, ceil(n/150)) batches of at most 150. |
| CloudUpdate.UpdateIdentities | pkg/cloudprovider/vm.go:99-146 | The same for nil maps and refused updates; on error the host lies within what the patch may do, and what is left in the identity is the batch sent last, at most 150 entries, or the whole patch if nothing was sent. |
| CloudUpdate.RetryShrinks | pkg/retry/retry.go:54-67 | Attempt k sends at least k entries fewer than the first, and at least one. |
| CloudUpdate.RetryBound | pkg/retry/retry.go:47-72 | There are at most max(1, min(maxRetry + 1, patch size)) attempts. |
| CloudUpdate.NextRunIff | pkg/retry/retry.go:54-67 | Run k is followed by another iff k is below the limit, its error contains a retriable error anywhere in its message, and of the identities it left in the map some are named by the error, in any case, and some are not. |
| CloudUpdate.RetrySendsTheRest | pkg/cloudprovider/cloudprovider.go:212-236 | A patch of one batch is retried exactly without the identities named by the errors so far. |
| CloudUpdate.RetryLosesOtherBatches | pkg/cloudprovider/vm.go:128-137 | Entries outside the batch that a run sent last are in no later run. |
| CloudUpdate.RetryExactIff | pkg/retry/retry.go:47-72 | A retry sends exactly what no error named iff every earlier run sent nothing, had one batch, or lost only named entries. |
| CloudUpdate.LargePatchLosesAnEntry | pkg/cloudprovider/vm.go:128-137 | A run of more than 150 entries that reached Azure loses an entry for all later runs. |
| CloudUpdate.RetryDropsAnUnnamedEntry | pkg/cloudprovider/cloudprovider.go:212-239 | For any patch of more than one batch and any bad entry in the first: the retry drops an entry that no error named. |
| CloudUpdate.StripErroneous | pkg/cloudprovider/cloudprovider.go:212-236 | Removes the named identities up to case; retry iff something was removed and something remains. |
| CloudUpdate.RunAgain | pkg/retry/retry.go:56-67 | One retry sends the stripped map and keeps the host within the first patch; without a retry nothing is sent. |
| CloudUpdate.RetryUpdate | pkg/retry/retry.go:47-72 | The attempts form a chain within the limit that ends only when it must, and account for all Azure is sent; there is a second attempt iff the limit is positive, the first error contains a retriable error and names some but not all identities left; the first error is returned, and nil means the first attempt applied the whole patch. |
| CloudUpdate.CollectIds | pkg/cloudprovider/cloudprovider.go:194-204 | An identity in both lists is added. |
| CloudUpdate.ScanSettled | pkg/cloudprovider/vm.go:206-207 | If all wanted identities are there and no unwanted one is, the patch is empty in every order. |
| CloudUpdate.PatchOutcome | pkg/cloudprovider/vm.go:179-224 | What a full or partial PATCH of that patch leaves meets the promise of UpdateUserMSI. |
| CloudUpdate.OutcomeExact | pkg/cloudprovider/cloudprovider.go:176-208 | With compatible lists the host ends as (old - (remove - add)) + add. |
| CloudUpdate.ResetIdentity | pkg/cloudprovider/vmss.go:160-166 | A fresh identity without identities: of type user-assigned with an empty map for a scale set, of no type with a nil map for a VM. |
| CloudUpdate.UpdateUserMSI | pkg/cloudprovider/cloudprovider.go:177-244 | Success and error bounds on the host for any lists, and no PATCH when there is nothing to do. |
| ScaleSets.GroupList.AddNode | pkg/mic/vmss.go:22-30 | Indexes the node under its scale set and keeps both indexes on the same group objects. |
| ScaleSets.GroupList.GroupOfNode | pkg/mic/vmss.go:110-127 | Finds or caches the group of a node; null exactly for nodes outside scale sets, an error exactly for broken lookups. |
| ScaleSets.GetVMSSGroups | pkg/mic/vmss.go:63-82 | Indexes exactly the referenced scale-set nodes, and fails iff a lookup is broken. |
| ScaleSets.SharedGroupIff | pkg/mic/vmss.go:13-47 | Indexed nodes share a group object, and see each other in it, iff they are in the same scale set. |
| ScaleSets.CheckAgainst | pkg/mic/mic.go:974-1007 | One comparison of the in-use check. |
| ScaleSets.CheckIfInUse | pkg/mic/mic.go:972-1011 | In use iff some record of another pod with the same client ID is on the same node or scale set, whatever is cached and in any order; exact also with broken lookups. |
| Diff.GetToCreate | pkg/mic/mic.go:761-792 | The records that are new, changed or unfinished; the desired map itself when nothing is stored. |
| Diff.GetToDelete | pkg/mic/mic.go:794-823 | The stored records that are not desired as they are; the stored map itself when nothing is desired. |
| Diff.GetToUpdate | pkg/mic/mic.go:828-852 | Moves the names in both maps out of them in place, keeping the stored metadata. |
| Diff.ComputeDiff | pkg/mic/mic.go:472-482 | The lists are the diff of the two maps, and neither map is changed although both may be aliased. |
| Diff.DiffShape | pkg/mic/mic.go:761-852 | Each name is in at most one list, and exactly which and with what record. |
| Diff.ChangedIsUpdated | pkg/mic/mic.go:752-852 | A name in both maps is updated iff binding name or version, identity name or version, pod, pod namespace or node differ; the new record has the desired identity, binding, pod, node and label under the stored metadata. |
| Diff.DiffWellKeyed | pkg/mic/mic.go:761-852 | Records stay under their own names. |
| Diff.FinalAt | pkg/mic/mic.go:472-511 | What a cycle without failures leaves under a name. |
| Diff.IdleIff | pkg/mic/mic.go:494-501 | A cycle has no work iff the store has the desired names, under each the desired binding name and version, identity name and version, pod, pod namespace and node, and no record in state Created. |
| Diff.Converges | pkg/mic/mic.go:736-852 | Applying the diff gives exactly the desired names with these seven fields as desired, and the next diff is empty. |
| Diff.AllAssignedIff | pkg/mic/mic.go:770-789 | All desired records end Assigned iff those that stay were Created or Assigned. |
| Plan.Distribute | pkg/mic/mic.go:546-553 | Every node lists exactly its records, once each. |
| Plan.ConvertAssignedIDListToMap | pkg/mic/mic.go:545-572 | The three lists of every node, and no other entries. |
| Plan.AssignIds | pkg/mic/mic.go:691-710 | Collects the resource IDs of new and unfinished MSI records per node. |
| Plan.ShouldRemoveID | pkg/mic/mic.go:712-734 | Appends the identity iff it is assigned, mutable and not shielded by another record. |
| Plan.RemoveIds | pkg/mic/mic.go:674-687 | Collects the resource IDs of retiring records per node. |
| Plan.GetListOfIdsToDelete | pkg/mic/mic.go:657-688 | The remove lists are those of the retiring records; empty if the groups cannot be built. |
| Plan.GetListOfIdsToAssign | pkg/mic/mic.go:691-698 | The add lists are those of the records to assign. |
| Plan.PlanPerNode | pkg/mic/mic.go:485-501 | The node map holds for every node exactly its part of the diff. |
| Consolidate.ClassifyNodes | pkg/mic/mic.go:1289-1319 | Missing nodes leave the map, scale-set nodes are grouped, the others stay. |
| Consolidate.AbsorbNodes | pkg/mic/mic.go:1327-1338 | The aggregation of one scale set, also when names collide. |
| Consolidate.ConsolidateVMSSNodes | pkg/mic/mic.go:1288-1340 | The map is the aggregation over all scale sets in some order. |
| Consolidate.AggregateExact | pkg/mic/mic.go:1321-1339 | With names apart, each scale set gets the concatenation of its nodes' entries and everything else is untouched. |
| Consolidate.LastSetWins | pkg/mic/mic.go:1321-1339 | Of the scale sets of one short name the last one gets the concatenation of its own nodes' entries. |
| Consolidate.CollidingNamesLoseWork | pkg/mic/mic.go:1321-1339 | For any node map in which no node of a scale set is named like a scale set: a record of an existing node survives consolidation iff no later scale set has the short name of the node's one and none has the name of the node. |
| Consolidate.SomeOrderLosesIff | pkg/mic/mic.go:1321-1339 | For such node maps: some iteration order loses the record iff another scale set with work has the short name of the node's one, or one is named like the node. |
| Consolidate.MergeNodesPlanned | pkg/mic/mic.go:1327-1334 | The concatenation is the plan for all its nodes together. |
| Consolidate.ConsolidationConservesWork | pkg/mic/mic.go:1285-1340 | Every host gets exactly the work of its nodes, missing nodes included. |
| Safety.SameHostIsSeen | pkg/mic/mic.go:993-1007 | If short names tell scale sets apart, being on the same host is what the in-use check tests. |
| Safety.ClaimIsSeen | pkg/mic/mic.go:972-1011 | Unique short names, one spelling and client ID on the host, and no changing namesake pod there make the in-use check see a claim. |
| Safety.DesiredIdentityIsNotDoomed | pkg/mic/mic.go:712-734 | No identity of a desired record whose claim is seen is in the effective remove list of its host, be the record unchanged, changed or moved. |
| Safety.RetiredIff | pkg/mic/mic.go:712-734 | A record is retired iff it is given up, assigned or stateless, mutable, and no desired record of a pod of another name with its client ID is on its node or scale set. |
| Safety.DoomedIff | pkg/mic/mic.go:657-734 | An identity is effectively removed iff a given-up record used it on the host and no record there is new, changed or unfinished with this spelling of it. |
| Safety.UnseenRecordLosesItsIdentity | pkg/mic/mic.go:979-991 | Equal pod names or different client IDs hide a user of the identity, which is then retired and not assigned again. |
| Safety.ImmutableIff | pkg/mic/mic.go:189-194 | A configured client ID is protected iff its record spells it in lower case. |
| SyncCycle.ImmutableIdentityStays | pkg/mic/mic.go:712-734 | An MSI whose client ID is in the immutable map, and that the records on the host spell alike, stays on the host through every run of a cycle, desired or not. |
| Protocol.BarrierDisciplined | pkg/mic/mic.go:1098-1102 | Acquiring the whole semaphore means that no goroutine of the loop is left. |
| Protocol.RunDisciplined | pkg/mic/mic.go:1048-1109 | Permits and goroutines add up to the batch size, and goroutines belong to the current loop, throughout every run. |
| Protocol.InFlightBounded | pkg/mic/mic.go:1044-1048 | At most createDeleteBatch requests of a host are in flight. |
| Protocol.PhasesInOrder | pkg/mic/mic.go:1048-1257 | In every interleaving a host's requests come in the order create/update, cloud call, Assigned, Unassigned/delete. |
| Protocol.BarriersHold | pkg/mic/mic.go:1098-1109 | All creates and updates have finished when the cloud is called, and all Assigned writes when the first Unassigned write is started. |
| Protocol.MarkedIsAssigned | pkg/mic/mic.go:1109-1157 | On both paths, a record written by the cycle and marked Assigned has its identity on its host, unless that is also to be removed under another spelling. |
| Protocol.MarkedRightIff | pkg/mic/mic.go:1109-1217 | No run marks an MSI job's record without its identity iff that is not also to be removed under another spelling. |
| Protocol.DeletedIdentityIsGone | pkg/mic/mic.go:1159-1191 | A record is deleted only when its identity is off the host, in use, not to be removed, or to be added. |
| Protocol.RetiredStaysUnassigned | pkg/mic/mic.go:1231-1250 | Once an Unassigned write has taken effect, its record is Unassigned or gone at every later point of every run. |
| Protocol.DroppedIsUnassigned | pkg/mic/mic.go:1231-1250 | While a deletion of the success path is in flight, its record is Unassigned or gone. |
| Protocol.PruningGoesByIdentity | pkg/mic/mic.go:1159-1191 | The error path deletes a record iff it is no MSI, its identity was not found on the host, or a desired record of another pod name with its client ID is on its node or scale set; otherwise the store stays as it is. |
| Protocol.ErrorPathIsComplete | pkg/mic/mic.go:1109-1194 | A host that took the error path and has stopped came to every create, update and deletion. |
| Protocol.MarkingGoesByName | pkg/crd/crd.go:776-808 | On the success path the status write marks whatever record has the name, also when the job's own write failed; that record's identity, unless both added and doomed, is then on its host iff the cycle added it, or it was there and not doomed. |
| Protocol.RecoveryGoesByName | pkg/mic/mic.go:1118-1147 | The error path marks by name exactly if the job is no MSI or its identity was found; the marked record's identity is there if it was and is not doomed, and not there if it neither was nor was to be added. |
| Protocol.OnlyDoomedIsRemoved | pkg/mic/mic.go:1037-1109 | Under any failures and interleavings a host loses at most its effective remove list. |
| Protocol.StaysIffNotDoomed | pkg/mic/mic.go:1037-1109 | An identity of an existing host with work stays through every run iff it is not in the effective remove list. |
| Protocol.IdleHostsUntouched | pkg/mic/mic.go:1030-1035 | Hosts without work keep their identities. |
| Protocol.GoneHostsUntouched | pkg/mic/mic.go:1266-1283 | Hosts of missing nodes keep their identities. |
| Protocol.FinishedJobIsAssigned | pkg/mic/mic.go:1196-1217 | After a run without failures every job is stored and Assigned. |
| Protocol.FinishedDeletionIsGone | pkg/mic/mic.go:1225-1257 | After a run without failures every deletion is done, cleanup of missing nodes included. |
| Protocol.FinishedCloud | pkg/cloudprovider/cloudprovider.go:177-244 | After every run without failures an existing host has (old - doomed) + added, exact but for disputed identities. |
| Protocol.RunUnowned | pkg/mic/mic.go:1030-1063 | Records outside the cycle's work never change. |
| Protocol.NeverStuck | pkg/mic/mic.go:1048-1257 | With a positive batch size no host blocks before it is done. |
| Protocol.SuccessPossible | pkg/mic/mic.go:1048-1257 | As long as nothing has failed, every host that has not stopped has a step that does not fail. |
| Protocol.CleanRunExists | pkg/mic/mic.go:1037-1263 | From every start of a prepared cycle there is a run in which nothing fails, every host ends and everything doomed is taken. |
| Protocol.StartsIff | pkg/mic/mic.go:1048-1054 | A host with records to write starts iff createDeleteBatch is at least 1. |
| Protocol.StepsBounded | pkg/mic/mic.go:1037-1263 | Every host ends after at most 4 steps per job, 3 per deletion and 4 more. |
| SyncCycle.ListAssignedIDsInMap | pkg/crd/crd.go:628-654 | The records by name. |
| SyncCycle.LastListedWins | pkg/crd/crd.go:628-654 | Exactly the listed names, and of several records of one name the last listed. |
| SyncCycle.PlanCycle | pkg/mic/mic.go:472-506 | From the two maps to a valid cycle: diff, plan and consolidation composed. |
| SyncCycle.PlanSync | pkg/mic/mic.go:432-509 | The same from the listed resources: stored records by name, desired records of the pods, bindings and identities, references exactly of the pods that match. |
| SyncCycle.CyclePrepared | pkg/mic/mic.go:485-509 | The planned track lists meet what the protocol needs: unique ownership of records, new or unfinished jobs, identities in add lists. |
| SyncCycle.DesiredIdentityStays | pkg/mic/mic.go:432-511 | Removal safety: through every run of a cycle the identity of a desired record whose claim is seen stays on its VM or scale set. |
| SyncCycle.IdentityStaysIff | pkg/mic/mic.go:432-511 | For every planned cycle: an identity of any host stays through every run iff no given-up record takes it away. |
| SyncCycle.DesiredIdentityStaysForever | pkg/mic/mic.go:406-543 | Removal safety over any number of cycles: with only additions between cycles, an identity that every cycle desires on a host, for whichever pods whose claim is seen, stays there at every point of every run. |
| SyncCycle.CycleMarksSoundly | pkg/mic/mic.go:1037-1217 | Marking soundness for every run of a planned cycle, on coherent hosts or for identities not also taken away. |
| SyncCycle.CycleMarksSoundlyIff | pkg/mic/mic.go:1037-1217 | For every planned cycle: no run leaves an MSI record it wrote Assigned without its identity iff no given-up record takes the identity away. |
| SyncCycle.RetiredOnce | pkg/mic/mic.go:1231-1250 | A record marked Unassigned whose deletion failed: the next cycle does not retire its identity again, and deletes the record if it is still not desired. |
| SyncCycle.FailedUpdateIsMarked | pkg/mic/mic.go:1077-1217 | Whenever a record's identity changes: the cycle has runs, through the success path and through the error path, in which the write of the new record fails, the old one ends Assigned and its identity is off the host. |
| SyncCycle.CycleConverges | pkg/mic/mic.go:432-511 | A cycle without failures ends with the desired names, under each the desired binding, identity (names and versions), pod, pod namespace and node, and the next one has no work for any host. |
| SyncCycle.CycleCanBeClean | pkg/mic/mic.go:432-511 | Every planned cycle has a run without failures from every start, and ends it with the final store if its nodes exist. |
| SyncCycle.CycleCleanCloud | pkg/mic/mic.go:1109-1109 | A cycle without failures leaves a coherent host with (old - doomed) + added. |
| SyncCycle.CleanCycleServes | pkg/mic/mic.go:432-511 | A cycle without failures ends with exactly the desired records, with the desired identity, binding, pod and node, all Assigned, every user-assigned identity on its host, if that was so for the finished records that stay. |
| SyncCycle.CleanCyclesServe | pkg/mic/mic.go:406-543 | The same after any number of cycles, from a cluster without records or one in order. |
| Desired.ConvertIDListToMap | pkg/mic/mic.go:956-970 | Accepted identities by key, the last listed winning. |
| Desired.KeptIff | pkg/mic/mic.go:956-970 | A namespace/name key is in the map iff some identity of that key is kept, user-assigned ones only with a valid resource ID. |
| Desired.LastKeptWins | pkg/mic/mic.go:956-970 | Of several kept identities of one key the last listed counts. |
| Desired.BindingOrder | pkg/apis/aadpodidentity/sort.go:13-18 | Less is a strict order that is total up to equal keys. |
| Desired.SortSorts | pkg/mic/mic.go:614-614 | Sorting permutes and orders. |
| Desired.SortedIsUnique | pkg/apis/aadpodidentity/sort.go:5-18 | Bindings told apart by namespace and name have only one sorted order, stable or not. |
| Desired.MatchedIsOrderFree | pkg/mic/mic.go:597-614 | The processing order of matched bindings does not depend on the listing order. |
| Desired.AssignedNamesCollide | pkg/mic/mic.go:630-640 | Of two pods that claim one record name the earlier gets the record and the later none of this name. |
| Desired.FirstPodWins | pkg/mic/mic.go:583-643 | Exactly which record a name gets: of the first pod that claims it, and there of the first matched binding that does. |
| Desired.SmallestBindingWins | pkg/mic/mic.go:614-640 | Of the bindings of that pod that claim the name, the smallest by namespace and then name decides. |
| Desired.DashesCollide | pkg/mic/mic.go:935-937 | A dash may be on either side of the border of pod and namespace: such pods share record names. |
| Desired.NamesOfOnePodDiffer | pkg/mic/mic.go:935-937 | For one pod, identities of different names give different record names. |
| Desired.NamesInjective | pkg/mic/mic.go:935-937 | Without dashes in the names of pods and namespaces, equal record names mean the same pod, namespace and identity name. |
| Desired.DesiredIsSound | pkg/mic/mic.go:583-651 | Every desired record comes from a scheduled, labelled pod, a binding with that selector and the identity the binding names in its namespace, all in one namespace if the identity is namespaced, and has their fields and the name pod-namespace-identity. |
| Desired.DesiredIsComplete | pkg/mic/mic.go:583-651 | Every such pod and binding has a record named pod-namespace-identity. |
| Desired.EveryBoundIdentityIsDesired | pkg/mic/mic.go:583-651 | A pod bound to several identities of different names has a desired record with each of them, under different names, except for names that an earlier pod claims. |
| Desired.DesiredIsOrderFree | pkg/mic/mic.go:598-643 | Any permutation of the bindings gives the same desired map, including who wins a name. |
| Desired.MatchBindings | pkg/mic/mic.go:597-605 | The bindings with the pod's selector. |
| Desired.AssignMatched | pkg/mic/mic.go:616-650 | Adds the records of a pod, the first of a name winning. |
| Desired.CreateDesired | pkg/mic/mic.go:574-653 | The desired map, in it a record named pod-namespace-identity for every pod and identity bound to it, and node references exactly for the pods that match a binding. |
| Desired.DesiredIsPlannable | pkg/mic/mic.go:574-653 | Every desired record's node is referenced, and it has no state yet. |
| Nmi.ListPodIds | pkg/crd/crd.go:717-730 | Every state's bucket is the pod's identities in that state, in list order. |
| Nmi.PodIdsExact | pkg/crd/crd.go:717-730 | An identity is in the bucket of a state iff a record of this pod in this state has it. |
| Nmi.VerdictExact | pkg/nmi/standard.go:112-150 | An attempt waits, answers, gives up or is cancelled exactly as the pod's requested records in the states stateless, Assigned and Created say. |
| Nmi.ListPodIDsWithRetry | pkg/nmi/standard.go:94-166 | The first attempt that does not wait decides: the pod's stateless identities if one is requested, else the Assigned ones; "not in Created" only from the Created limit on when the listing has no requested record stateless, Assigned or Created; otherwise cancellation, or the sum of the limits is used up. |
| Nmi.WaitIgnoresCase | pkg/nmi/standard.go:94-166 | Every attempt has the same verdict for all spellings of a request. |
| Nmi.SomeSpellingMatches | pkg/nmi/standard.go:79-102 | Of every specified request that ends the wait some spelling is matched by the final choice. |
| Nmi.StandardGetIdentities | pkg/nmi/standard.go:40-91 | The first identity that is visible from the namespace and has exactly the requested IDs; a crash exactly when an unspecified request sees none. |
| Nmi.FilterExact | pkg/nmi/standard.go:51-68 | The namespace filter keeps exactly the visible identities. |
| Nmi.DesiredIsLawful | pkg/mic/mic.go:616-643 | Desired records obey the namespace rule NMI filters by. |
| Nmi.StoreStaysLawful | pkg/mic/mic.go:1037-1263 | Through every run over jobs that obey it, stored records obey it. |
| Nmi.CycleStaysLawful | pkg/mic/mic.go:432-511 | The jobs of a cycle planned from any pods, bindings and identities obey it, and so do the stored records through every run of it. |
| Nmi.HistoryStaysLawful | pkg/mic/mic.go:406-543 | So they do at every moment of any number of cycles. |
| Nmi.FilterKeepsLawful | pkg/nmi/standard.go:51-75 | NMI's filter drops nothing that MIC wrote. |
| Nmi.StandardLookup | pkg/nmi/standard.go:40-166 | Over such records the first attempt that ends the wait fixes the outcome: the identity of the first record with exactly the requested IDs, stateless ones first, or Forbidden, or NotReady. No crash; no match iff that attempt has the request in another case only. |
| Nmi.ForbiddenIff | pkg/nmi/standard.go:122-148 | Forbidden iff some attempt from the Created limit on lists no requested record that is stateless, Assigned or Created, and no earlier attempt ended the wait. |
| Nmi.PendingIsNotReady | pkg/nmi/standard.go:122-148 | While a requested record is Created in every listing and none is available, the answer is NotReady, never Forbidden. |
| Nmi.LookupBesideMic | pkg/nmi/standard.go:40-166 | All of that for list calls that see the records at any moments of any cycles of MIC with the same flag. |
| Managed.GetPodIDsWithBinding | pkg/crd/crd.go:734-767 | Exactly the identities some binding of the namespace names for the label, in the order they are listed. |
| Managed.ManagedGetIdentities | pkg/nmi/managed.go:48-67 | The first identity that matches the request. |
| Managed.ManagedLookup | pkg/nmi/managed.go:37-67 | The first listed identity of the namespace that a binding of the namespace names for the label and that has exactly the requested IDs, or any such identity if none are requested; nothing iff there is none. |
| Managed.IdMapExact | pkg/mic/mic.go:952-970 | The identity map is a plain lookup by namespace and name. |
| Managed.ManagedModeAgrees | pkg/nmi/managed.go:36-47 | In namespaced mode, managed mode gives every labelled, scheduled pod exactly the identities MIC assigns it iff record names tell the bound pairs of pods and identities apart. |
| Reconcile.GetUserMSIs | pkg/cloudprovider/cloudprovider.go:163-174 | The identities of a host as Azure spells them. |
| Reconcile.GenerateState | pkg/mic/mic.go:1359-1427 | Current and desired identities of every host with records, or failure; it fails if the node of any record is missing or broken. |
| Reconcile.ReconcileHost | pkg/mic/mic.go:1433-1471 | Loses nothing, gains only wanted identities, and is silent when all are there in any spelling. |
| Reconcile.UpdateHosts | pkg/mic/mic.go:1464-1470 | The same for all hosts, each treated once. |
| Reconcile.ReconcileIdentityAssignment | pkg/mic/mic.go:1454-1471 | Never removes an identity, and adds only those of Assigned MSI records; on success every Assigned MSI record is on its host; sends no PATCH if all already were, and none at all if a node cannot be resolved. |

## Left out

- Azure SDK calls, futures, token acquisition, throttling by wall clock: a request succeeds or fails freely.
- Regular expressions: provider IDs, resource ID validation and the identities named in an error are given as values.
- Strings: lower-casing and case-insensitive comparison cover ASCII letters.
- Kubernetes: records are stored by name; namespaces of records, finalizers, informers and leader election are not modelled.
- CloudUpdate.RetryUpdate: the function and the closure passed to `retry.Do` are written in its place; registering retriable errors is not modelled.
- Reconcile.GenerateState: entries are kept per host, not per name with a separate scale-set flag, so equal names of a VM and a scale set are not confused.
- ScaleSets.GroupList.AddNode: scale-set IDs are triples; the path join of subscription, group and name is taken to be injective.
- Other writers of a host's identities: within a cycle only MIC changes them.
- Deep copies, conversions between API versions, events, metrics, the HTTP server, iptables and deployment files.
