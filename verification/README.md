# Verified model of the OpenStack baremetal operator

The operator gives each requested compute of an `OpenStackBaremetalSet` its own
Metal3 `BareMetalHost`, keeps claims and status consistent while sets are
created, changed, reconciled and deleted, and hands out ports and image URLs for
`OpenStackProvisionServer`s. This project models that logic in Dafny and proves
what it guarantees. `dafny verify dfyconfig.toml` checks all of it.

## How it is built

| file | models |
|---|---|
| `Types.dfy` | hosts, sets, labels, status, list answers, map iteration |
| `Allocation.dfy` | label matching: the candidate table, the sort and the backtracking search over its two shared maps |
| `Hardware.dfy` | the hardware matcher, with float64 rounding written out |
| `ScaleUp.dfy` | the scale-up check: six filters, count gate, matching; monotonicity |
| `Lifecycle.dfy` | claiming, re-provisioning and releasing one host |
| `Reconcile.dfy` | the stages of a reconcile and of a deletion as functions of the choices Go leaves open |
| `Controller.dfy` | the controller's operations as methods on an API server object and an instance object, proved against those functions |
| `Ownership.dfy`, `Stages.dfy` | the ownership invariant; every stage keeps it, wherever it stops |
| `Guarantees.dfy` | what a finished reconcile leaves, idempotence, the gates |
| `Effects.dfy` | everything one reconcile can do to one host |
| `Admission.dfy` | the set webhook; admission implies allocation |
| `Progress.dfy` | when a reconcile finishes and when it sets Ready, and what one that failed half-way leaves for the next |
| `Runs.dfy`, `Requirements.dfy` | runs of the whole system, and which steps break them: exclusive ownership, one-time provisioning, selection under present requirements |
| `Fields.dfy` | what reconciles, releases and deletions leave, field by field |
| `Witnesses.dfy` | concrete cases in which a promise fails |
| `Ports.dfy`, `ImageUrl.dfy` | port allocation and its webhooks over runs; image URLs and their parser |
| `AddressAgent.dfy` | the provisioning-IP agent against a loop that writes every time |

Go maps are ranged over in an order nobody chooses. The functions of
`Reconcile.dfy` therefore take list answers, the selected assignment and the
provisioning order as arguments (`Choices`), `Allowed` says which of them are
possible, and every theorem holds for all allowed ones. `ReconcileNormal` makes
such choices itself and is proved to produce exactly the function's result for
choices that are allowed, so there always are some.

Assumptions:

- Each reconcile, deletion or admission is one serialised step over a fresh view,
  and the final status patch succeeds. The BMH namespace is fixed.
- API failures are inputs: each release and each provisioning can fail, and so can
  each list call. A control-plane address that does not parse is one more way for
  a provisioning to fail.
- `MatchingLabels` is the sub-map relation. The owner labels are three keys, and the
  hostname key is one key per set name; all of them are different keys. Sets of the
  same name in two namespaces share the hostname key, and the model lets them.
- Merging label maps keeps a value that is already there. The library is not part of
  this model; `MergeEitherWay` shows that under the invariant the other rule gives
  the same labels. Merging the selected and the existing hosts has no common key.
- `Conditions.Init` sets the listed conditions to Unknown, and all sub-conditions
  being true means input, server and host conditions are all true.
- Metal3 and administrators may change hosts freely, except for the operator's labels
  and the provisioning fields of a host that carries such labels. UIDs are not reused
  while a host is labelled with them.

Three kinds of steps are excluded from runs because they break the invariant: a
reconcile or a deletion that ends in a release which frees the host and then fails to
delete its secrets, and a host that appears under a name some status still holds.
`StepKeepsInvExactly` and `InvInEveryStateExactly` prove that these are the only ones,
and `StaleEntryStripsClaim` shows where the first kind can lead.

Where a promise in the code's own comments does not hold, the model follows the
code and the theorem says when it holds: a same-size swap of hostnames is accepted
without a check (`SwapIsAcceptedUnchecked`, `SelectionFailsExactly`); deletion stops
at the first missing host and still drops the finalizer
(`DeletionLeaksBehindMissingHost`, `DeletionFreesAllExactly`); sizes are compared
after rounding to float64 (`TestsDisagreeExactly`, `MatcherCountsMisjudgedSizes`);
only the first disk of the right size is looked at (`SameDiskMeetsBoth`); a port
above 6210 is admitted but makes later requests without a port fail
(`PortAboveRangeBlocksUpdates`); the status reports the secrets of the spec, not
those on the host (`ReportedSecretsMatchExactly`); selector and hardware requests of
a set can change while it has a host, exactly if every hostname was struck off its
spec first (`BasisStepExactly`, `BasisInValidatedRunExactly`); the agent loses an
address when the server object is deleted and recreated under it
(`SkippingIsInvisibleExactly`). `Witnesses.dfy`, `RoundingAcceptsWrongSize`,
`ShadowedDiskIsRejected` and `RecreatedServerStaysBlank` give one concrete case of
each.

## Model

| member | source | states |
|---|---|---|
| `Allocation.IsMapSubset` | api/v1beta1/openstackbaremetalset.go:331-344 | the length gate and the scan together decide the sub-map relation, both ways |
| `Allocation.CompatibleMeaning` | api/v1beta1/openstackbaremetalset.go:257-264 | a host is a candidate exactly when it is in the list and its labels contain the selector |
| `Allocation.BuildTable` | api/v1beta1/openstackbaremetalset.go:257-264 | every compute's candidates are its compatible hosts in list order; a compute without any reads as empty |
| `Allocation.SortByWeight` | api/v1beta1/openstackbaremetalset.go:282-285 | the in-place sort yields a permutation ordered by candidate count |
| `Allocation.OrderComputes` | api/v1beta1/openstackbaremetalset.go:270-285 | the search order lists each compute once, fewest candidates first |
| `Allocation.Search.TryHost` | api/v1beta1/openstackbaremetalset.go:303-316 | assign, recurse, undo: on failure both maps are back to what they were and no completion uses this host |
| `Allocation.Search.Backtrack` | api/v1beta1/openstackbaremetalset.go:296-319 | terminates; true extends the assignment injectively over all remaining computes; false restores assignment and marked names and proves no completion exists |
| `Allocation.SearchMeaning` | api/v1beta1/openstackbaremetalset.go:287-324 | completions of the search from position 0 are exactly the valid assignments |
| `Allocation.FindValidAssignments` | api/v1beta1/openstackbaremetalset.go:255-329 | sound and complete: an assignment is returned exactly when one exists, independent of map order, list order and sort |
| `Allocation.Pigeonhole` | api/v1beta1/openstackbaremetalset.go:164-166 | computes on distinct host names never outnumber the host list, even with repeated names in it |
| `Allocation.FeasibleIsMonotone` | api/v1beta1/openstackbaremetalset.go:168-204 | a matching survives fewer computes, smaller selectors, more hosts and more host labels |
| `Hardware.MatchDisks` | api/v1beta1/openstackbaremetalset.go:428-482 | with a size request the first disk of that size decides the type request too; without one any disk will do |
| `Hardware.VerifyHardwareMatch` | api/v1beta1/openstackbaremetalset.go:346-487 | the chain of early exits accepts exactly the hosts that meet arch, CPU, memory and disk requests; no requests accept any host, requests without details none |
| `Hardware.TestsDisagreeExactly` | api/v1beta1/openstackbaremetalset.go:411-442 | for every size and request, the float64 test of memory or a disk differs from the integer test exactly when both become the same float64 although the size is not the requested one (by default: is smaller) |
| `Hardware.MatcherCountsMisjudgedSizes` | api/v1beta1/openstackbaremetalset.go:346-487 | on all inputs the matcher decides as the integer matcher that also counts such misjudged sizes as fitting |
| `Hardware.MatcherIsExactUnlessMisjudged` | api/v1beta1/openstackbaremetalset.go:411-442 | with no misjudged size the matcher is the integer matcher |
| `Hardware.RequestIsFixedPoint` | api/v1beta1/openstackbaremetalset.go:412-413 | a request below 2^53 is converted without loss, so a misjudged size is one that rounds to exactly the requested one |
| `Hardware.MatcherIsExactBelow2To53` | api/v1beta1/openstackbaremetalset.go:411-442 | below 2^53 the float64 comparisons are mebibytes against Gb * 1024 and bytes against Gb * 2^30 |
| `Hardware.RoundingAcceptsWrongSize` | api/v1beta1/openstackbaremetalset.go:433-442 | a misjudged size: an exact-match request accepts a disk that is one byte off |
| `Hardware.SameDiskMeetsBoth` | api/v1beta1/openstackbaremetalset.go:430-482 | size and type requested: accepted exactly when one disk meets both and no wrong-type disk of the right size shadows it |
| `Hardware.ShadowedDiskIsRejected` | api/v1beta1/openstackbaremetalset.go:430-482 | two disks of the right size, the rotational one first: a request for an SSD is rejected; in the other order it is met |
| `Hardware.TypeRequestExactly` | api/v1beta1/openstackbaremetalset.go:454-471 | with only a type request a host is accepted exactly when some disk, anywhere in the list, is of the type: an SSD for the flag, a rotational disk for an exact match without it |
| `Hardware.DiskOrderDoesNotMatter` | api/v1beta1/openstackbaremetalset.go:465-471 | without a size request every permutation of the disks gets the same verdict |
| `Hardware.MoreDisksKeepMatch` | api/v1beta1/openstackbaremetalset.go:465-471 | without a size request more disks never turn a match into a mismatch |
| `Hardware.TypeVerdicts` | api/v1beta1/openstackbaremetalset.go:454-471 | one rotational disk and one SSD: accepted in both orders for either type, rejected when the type is missing |
| `Hardware.CpuVerdicts` | api/v1beta1/openstackbaremetalset.go:364-393 | architecture is exact; cores are at least as many or exactly as many as asked |
| `Hardware.ClockVerdicts` | api/v1beta1/openstackbaremetalset.go:395-408 | a clock of 2100.75 MHz counts as 2100, and -0.5 as 0 |
| `Hardware.SizeVerdicts` | api/v1beta1/openstackbaremetalset.go:411-452 | 16384 MiB are 16 Gb and 100 * 2^30 bytes are 100 Gb; one unit less is refused |
| `Hardware.ZeroAsksForNothing` | api/v1beta1/openstackbaremetalset.go:376-457 | zero quantities ask for nothing, whatever their exact-match flags |
| `Hardware.UnknownHardware` | api/v1beta1/openstackbaremetalset.go:351-360 | no requests accept any host, requests accept no host without an inventory |
| `Hardware.TiesGoToEven` | api/v1beta1/openstackbaremetalset.go:412-413 | the conversion to float64 rounds halfway cases to even |
| `Hardware.RoundingIsMonotone` | api/v1beta1/openstackbaremetalset.go:412-413 | conversion to float64 never reverses an order |
| `Hardware.RelaxingKeepsMatch` | api/v1beta1/openstackbaremetalset.go:362-426 | lower or dropped CPU and memory requests never turn a match into a mismatch |
| `ScaleUp.IsEligible` | api/v1beta1/openstackbaremetalset.go:122-157 | the mismatch flag stays off exactly for hosts passing all six filters |
| `ScaleUp.FilterEligible` | api/v1beta1/openstackbaremetalset.go:120-162 | the available list holds exactly the eligible hosts, and its length is their count |
| `ScaleUp.FindNewComputes` | api/v1beta1/openstackbaremetalset.go:92-101 | new computes are the requested ones without a status entry |
| `ScaleUp.TooFewHosts` | api/v1beta1/openstackbaremetalset.go:164-166 | the early count gate rejects nothing that could have been matched |
| `ScaleUp.VerifyBaremetalSetScaleUp` | api/v1beta1/openstackbaremetalset.go:86-235 | errs exactly when the new computes cannot be matched into eligible hosts; the error carries the right counts and names labels exactly when there were enough hosts |
| `ScaleUp.ListGivesPool` | api/v1beta1/openstackbaremetalset.go:22-46 | whatever order hosts are listed in, the check ranges over the same pool |
| `ScaleUp.ScaleUpIsMonotone` | api/v1beta1/openstackbaremetalset.go:121-210 | more hosts, more labels, smaller selectors, fewer new computes or relaxed requests never turn success into an error |
| `Lifecycle.ApiServer.List` | api/v1beta1/openstackbaremetalset.go:22-46 | a list call returns each matching host once |
| `Lifecycle.MutateHost` | internal/openstackbaremetalset/baremetalhost.go:198-256 | labels are merged, the image is refreshed unless provisioned, and the remaining fields are written only on a free host |
| `Lifecycle.BaremetalHostProvision` | internal/openstackbaremetalset/baremetalhost.go:26-275 | all or nothing: a failed call changes nothing, otherwise host and status entry change together |
| `Lifecycle.BaremetalHostDeprovision` | internal/openstackbaremetalset/baremetalhost.go:278-344 | removes the claim labels and provisioning fields and then the entry; a failed secret deletion leaves the entry |
| `Controller.VerifyAndSyncStatus` | api/v1beta1/openstackbaremetalset.go:51-83 | deleting while ranging drops exactly the entries whose host is gone |
| `Controller.NamesToRelease` | internal/controller/openstackbaremetalset_controller.go:660-678 | collects the hostname labels that the spec no longer has, in list order |
| `Controller.DeleteBmh` | internal/controller/openstackbaremetalset_controller.go:648-697 | releases in that order and stops at the first failure |
| `Controller.BuildExistingHostMap` | internal/controller/openstackbaremetalset_controller.go:699-710 | maps hostname labels to hosts, a later host replacing an earlier one |
| `Controller.ProvisionTargets` | internal/controller/openstackbaremetalset_controller.go:747-766 | provisions every target once in some order and stops at the first failure |
| `Controller.EnsureBaremetalHosts` | internal/controller/openstackbaremetalset_controller.go:713-769 | fails at selection exactly when no assignment exists, otherwise provisions selected and existing hosts |
| `Controller.RunHostStages` | internal/controller/openstackbaremetalset_controller.go:490-545 | the four host stages in sequence equal the function `Work` for allowed choices |
| `Controller.AllHostsProvisioned` | internal/controller/openstackbaremetalset_controller.go:547-557 | true exactly when every status entry is provisioned |
| `Controller.PassGates` | internal/controller/openstackbaremetalset_controller.go:303-482 | secrets, server and image URL gates, with the condition each leaves |
| `Controller.ReconcileNormal` | internal/controller/openstackbaremetalset_controller.go:298-569 | hosts, status, conditions and outcome after a reconcile, for choices that are allowed |
| `Controller.BaremetalHostCleanup` | internal/controller/openstackbaremetalset_controller.go:772-786 | ranging over the status it deletes from, stopping at the first failure |
| `Controller.ReconcileDelete` | internal/controller/openstackbaremetalset_controller.go:250-265 | the finalizer is dropped on success and on a missing host |
| `Ownership.StatusMatchesHosts` | internal/openstackbaremetalset/baremetalhost.go:198-272 | under the invariant an entry names an existing host exactly when the host has the set's owner labels and that hostname label; it then also has the ConsumerRef, a non-empty image and no other hostname label |
| `Ownership.HeldOnce` | internal/openstackbaremetalset/baremetalhost.go:199-208 | a label map is that of one set and hostname at most, because sets have different uids |
| `Ownership.MergeEitherWay` | internal/openstackbaremetalset/baremetalhost.go:205-208 | which side wins the label merge does not matter on free or held hosts |
| `Ownership.ClaimHolds` | internal/openstackbaremetalset/baremetalhost.go:198-256 | provisioning its own or a free host leaves it carrying the full claim with a non-empty image URL |
| `Ownership.ProvisionKeepsInv` | internal/openstackbaremetalset/baremetalhost.go:193-274 | one provisioning keeps the invariant for this set and all others |
| `Ownership.ReleaseUndoesClaim` | internal/openstackbaremetalset/baremetalhost.go:294-313 | releasing a claimed pristine host gives the host back, except for the cleaning mode |
| `Ownership.ReportedSecretsMatchExactly` | internal/openstackbaremetalset/baremetalhost.go:232-272 | reported and actual secrets agree exactly when the host was free or already had the secrets the spec names now |
| `Ownership.ReleaseOneKeepsInv` | internal/openstackbaremetalset/baremetalhost.go:278-344 | one release frees exactly that host and keeps the invariant for all sets |
| `Ownership.ReleaseAllIsWithout` | internal/controller/openstackbaremetalset_controller.go:680-696 | the loop releases exactly the names before the first release that does not go through, and succeeds exactly when all do |
| `Ownership.ReleaseAllKeepsInv` | internal/controller/openstackbaremetalset_controller.go:680-696 | however far the loop gets, unless it ends half-way, the invariant holds |
| `Ownership.ReleaseKeepsInvExactly` | internal/openstackbaremetalset/baremetalhost.go:314-341 | one release breaks the invariant exactly when the host was freed and the secret deletion then failed |
| `Ownership.EndsHalfwayMeaning` | internal/controller/openstackbaremetalset_controller.go:680-696 | the release loop ends half-way when a secret deletion fails for an entry that has a host and all releases before it went through |
| `Ownership.ReleaseAllKeepsInvExactly` | internal/controller/openstackbaremetalset_controller.go:680-696 | a release loop breaks the invariant exactly when it ends half-way |
| `Ownership.CleanUpIsReleaseAll` | internal/controller/openstackbaremetalset_controller.go:777-783 | deleting from the map being ranged over skips no entry |
| `Ownership.DeletionReleasesEverything` | internal/controller/openstackbaremetalset_controller.go:772-786 | if every host exists and no call fails: status empty, exactly the set's hosts released and clean, all others untouched |
| `Ownership.MissingHostsDropFinalizer` | internal/controller/openstackbaremetalset_controller.go:253-264 | without API failures the finalizer is dropped whether or not a host is missing |
| `Ownership.DeletionLeaksBehindMissingHost` | internal/controller/openstackbaremetalset_controller.go:255-261 | an existing host stays claimed exactly when an entry without a host is visited first |
| `Ownership.DeletionFreesAllExactly` | internal/controller/openstackbaremetalset_controller.go:250-265 | without API failures, deletion frees every existing host whatever the map order exactly when every entry has its host, or none has |
| `Ownership.CleanUpKeepsInv` | internal/controller/openstackbaremetalset_controller.go:250-265 | a deletion keeps the invariant wherever it stops, unless it ends half-way |
| `Ownership.CleanUpKeepsInvExactly` | internal/controller/openstackbaremetalset_controller.go:250-265 | a deletion breaks the invariant exactly when it ends half-way, and then the finalizer stays |
| `Stages.SyncKeepsInv` | api/v1beta1/openstackbaremetalset.go:67-80 | syncing keeps the invariant and leaves only entries with a host |
| `Stages.ToReleaseIsDropped` | internal/controller/openstackbaremetalset_controller.go:660-678 | the labels to release are exactly the status hostnames missing from the spec, each once |
| `Stages.ExistingHostsIsStatus` | internal/controller/openstackbaremetalset_controller.go:699-710 | the map read off labels is the map read off the status |
| `Stages.ReleaseStageKeepsInv` | internal/controller/openstackbaremetalset_controller.go:505-523 | the release stage keeps the invariant; on success exactly the dropped hostnames are gone |
| `Stages.ReleaseStageIsWithout` | internal/controller/openstackbaremetalset_controller.go:648-697 | the release stage is done exactly when every dropped hostname can be released, and what it released is pinned wherever it stops |
| `Stages.TargetsMayBeProvisioned` | internal/controller/openstackbaremetalset_controller.go:741-748 | selected and existing hosts have disjoint keys, cover spec and status, and no host is a target twice |
| `Stages.ProvisionAllProvides` | internal/controller/openstackbaremetalset_controller.go:750-766 | the loop provisions exactly the hostnames before the first failure and touches no other host or entry |
| `Stages.ProvisionAllOk` | internal/controller/openstackbaremetalset_controller.go:750-766 | the loop succeeds exactly when no provisioning in it fails |
| `Stages.ProvisionAllKeepsInv` | internal/controller/openstackbaremetalset_controller.go:750-766 | however far the loop gets, the invariant holds |
| `Stages.WorkKeepsInv` | internal/controller/openstackbaremetalset_controller.go:490-545 | a reconcile keeps the invariant of the whole cluster wherever it stops, unless its release stage ends half-way |
| `Stages.WorkKeepsInvExactly` | internal/controller/openstackbaremetalset_controller.go:490-545 | the host stages break the invariant exactly when the release stage ends half-way |
| `Guarantees.SuccessGivesEveryHostnameItsHost` | internal/controller/openstackbaremetalset_controller.go:490-568 | after success the status keys are the spec keys, hosts are pairwise distinct and claimed, and hostnames that had a host keep it |
| `Guarantees.SuccessTouchesOnlyItsHosts` | internal/controller/openstackbaremetalset_controller.go:648-769 | after success every other host is untouched, except that hosts of dropped hostnames are released |
| `Guarantees.SuccessSettles` | internal/controller/openstackbaremetalset_controller.go:490-568 | after success provisioning any hostname again would change neither host nor entry |
| `Guarantees.SettledStaysPut` | internal/controller/openstackbaremetalset_controller.go:490-545 | from such a state a reconcile changes nothing, whatever fails in it |
| `Guarantees.SecondReconcileChangesNothing` | internal/controller/openstackbaremetalset_controller.go:490-568 | an immediate second reconcile changes no host and no entry, and if it finishes no condition |
| `Guarantees.GatesOpenExactly` | internal/controller/openstackbaremetalset_controller.go:303-482 | the gates open exactly when secrets and the image of the deployment mode are available; a closed gate changes no host and no entry and shows in a false condition |
| `Guarantees.ReadyMeansProvisioned` | internal/controller/openstackbaremetalset_controller.go:449-566 | Ready implies every requested hostname has its own claimed host in state provisioned, and the secret and image gates held |
| `Effects.WorkEffect` | internal/controller/openstackbaremetalset_controller.go:648-769 | wherever it stops, a reconcile leaves a host alone, releases it from a dropped hostname, re-provisions it for its hostname, or claims it while eligible |
| `Admission.ValidateSecretNamespaces` | api/v1beta1/openstackbaremetalset_webhook.go:98-121 | accepts exactly when all secret references are in the expected namespaces |
| `Admission.ValidateCreate` | api/v1beta1/openstackbaremetalset_webhook.go:55-95 | accepts exactly when name, secrets and listing are fine and the new computes can be matched |
| `Admission.ValidateUpdate` | api/v1beta1/openstackbaremetalset_webhook.go:134-205 | accepts exactly when the template rule and secrets hold and, if the count grows, the new computes can be matched against the synced status |
| `Admission.CreationIsAcceptedExactly` | api/v1beta1/openstackbaremetalset_webhook.go:55-121 | a new set is accepted exactly when its secrets are in place and all hosts it asks for can be matched at once |
| `Admission.OrdinaryUpdateIsAccepted` | api/v1beta1/openstackbaremetalset_webhook.go:123-205 | an update that keeps the template, asks for no more hosts and has its secrets in place is accepted whatever else it changes |
| `Admission.FirstHostsMayChangeTemplate` | api/v1beta1/openstackbaremetalset_webhook.go:123-205 | a set without hosts may change its template if what it asks for fits |
| `Admission.BadUpdateIsRefused` | api/v1beta1/openstackbaremetalset_webhook.go:98-158 | a changed template on a set with hosts or a misplaced secret is refused |
| `Admission.SecretsInPlaceExactly` | api/v1beta1/openstackbaremetalset_webhook.go:98-121 | passwords live with the set, cloud-init secrets in the BMH namespace |
| `Admission.ReleaseStageHelps` | internal/controller/openstackbaremetalset_controller.go:490-523 | sync and release keep the new computes the same and lose no candidate host |
| `Admission.SelectionFailsExactly` | internal/controller/openstackbaremetalset_controller.go:741-745 | once reached, selection fails exactly when no assignment exists after the release stage |
| `Admission.AdmissionImpliesSelection` | api/v1beta1/openstackbaremetalset_webhook.go:172-200 | what the webhook checked guarantees that selection succeeds, for every choice and every failure on the way |
| `Admission.AcceptedCreateIsSelectable` | api/v1beta1/openstackbaremetalset_webhook.go:77-92 | the first reconcile of an accepted new set does not fail at selection |
| `Admission.AcceptedGrowthIsSelectable` | api/v1beta1/openstackbaremetalset_webhook.go:160-200 | nor does the next reconcile after an accepted update with more hosts |
| `Admission.SwapIsAcceptedUnchecked` | api/v1beta1/openstackbaremetalset_webhook.go:157-204 | a swap of hostnames is accepted although the next reconcile fails at selection |
| `Progress.WorkFinishesExactly` | internal/controller/openstackbaremetalset_controller.go:490-545 | the host stages finish exactly when the lists are answered, every dropped hostname can be released, the new computes can be matched after that, and no requested provisioning fails |
| `Progress.ReconcileFinishesExactly` | internal/controller/openstackbaremetalset_controller.go:298-569 | a whole reconcile finishes exactly when in addition the secrets and the image are available |
| `Progress.ReadyExactly` | internal/controller/openstackbaremetalset_controller.go:298-569 | Ready becomes true exactly when, before the reconcile, every requested hostname has an existing host that is provisioned, secrets and image are available, the lists are answered, and every release and provisioning asked for goes through; a reconcile that selects a host never sets it |
| `Progress.ConditionsExactly` | internal/controller/openstackbaremetalset_controller.go:490-566 | the host condition is Unknown exactly when a gate is closed, True exactly when the reconcile finishes and every requested hostname already has a provisioned host, False otherwise; Ready follows it |
| `Progress.SecretGates` | internal/controller/openstackbaremetalset_controller.go:309-360 | a missing SSH or password secret requeues, an unreadable one is an error; both set the input condition False and leave hosts and entries alone |
| `Progress.ImageGates` | internal/controller/openstackbaremetalset_controller.go:400-480 | a missing server or URL requeues, an unreadable server is an error; which condition is False and which are True or Unknown |
| `Progress.OutcomeExactly` | internal/controller/openstackbaremetalset_controller.go:490-545 | past the gates, exactly when each stage fails and when none does |
| `Progress.ProvisioningKeepsMatch` | internal/controller/openstackbaremetalset_controller.go:750-766 | wherever the provisioning loop stops, the computes not yet served can still be matched |
| `Progress.RetryFinishesExactly` | internal/controller/openstackbaremetalset_controller.go:490-545 | after a failure in provisioning the next reconcile on the same hosts cannot fail at selection, and finishes exactly when gates, lists and provisionings succeed |
| `Runs.ReconcileKeepsInv` | internal/controller/openstackbaremetalset_controller.go:298-569 | any reconcile, gates and conditions included, keeps the invariant unless its release stage ends half-way |
| `Runs.NextKeepsInv` | internal/controller/openstackbaremetalset_controller.go:184-190 | every step of the system that is not one of the excluded ones keeps the invariant |
| `Runs.OwnershipInEveryRun` | internal/openstackbaremetalset/baremetalhost.go:198-272 | in every state of every run an entry names an existing host exactly when the host has the set's labels for that hostname, and then also its ConsumerRef, a non-empty image and no hostname label of another set; no host name is in two entries of any sets |
| `Runs.ReconcileKeepsInvExactly` | internal/controller/openstackbaremetalset_controller.go:298-569 | a reconcile keeps the invariant exactly when its release stage does not end half-way |
| `Runs.StepKeepsInvExactly` | internal/controller/openstackbaremetalset_controller.go:184-190 | of all steps exactly three kinds break the invariant: a reconcile or a deletion that ends half-way through a release, and a host appearing under a name some status still has |
| `Runs.InvInEveryStateExactly` | internal/controller/openstackbaremetalset_controller.go:184-190 | over runs of any steps the invariant holds in every state exactly when no step is one of those |
| `Runs.AppearKeepsInvExactly` | api/v1beta1/openstackbaremetalset.go:67-80 | a new host breaks the invariant exactly when some status entry still has its name |
| `Runs.NextKeepsData` | internal/openstackbaremetalset/baremetalhost.go:213-253 | no step changes ConsumerRef, UserData or NetworkData of a host that stays held under its hostname, nor the image of a provisioned one |
| `Runs.ProvisionedOnceInEveryRun` | internal/openstackbaremetalset/baremetalhost.go:213-253 | the same over any stretch of any run, and the image URL is never empty |
| `Requirements.NewlyHeldWasEligible` | internal/controller/openstackbaremetalset_controller.go:741-766 | a newly held host passed all filters and both selectors when it was selected, even if the reconcile failed later |
| `Requirements.FinishedHoldsOnlyRequested` | internal/controller/openstackbaremetalset_controller.go:505-545 | after a finished reconcile only requested hostnames are held |
| `Requirements.NewHolderSelects` | internal/controller/openstackbaremetalset_controller.go:741-766 | the only step after which a set newly holds a host is a reconcile of that set that found the host eligible under both selectors |
| `Requirements.BasisStepExactly` | api/v1beta1/openstackbaremetalset_webhook.go:123-158 | in every run a step leaves every held host selected under its set's present selector and hardware requests exactly when it is not an update that changes them while the status names an existing host; for a validated step, the set must in addition have asked for no host before |
| `Requirements.DisruptiveOnlyWhenEmptied` | api/v1beta1/openstackbaremetalset_webhook.go:123-158 | the webhook lets such an update through only for a set that asked for no host before |
| `Requirements.BasisInEveryRunExactly` | api/v1beta1/openstackbaremetalset_webhook.go:123-158 | the same over whole runs, validated or not |
| `Requirements.BasisInValidatedRunExactly` | api/v1beta1/openstackbaremetalset_webhook.go:134-205 | the same over runs in which every update is validated |
| `Requirements.EveryHeldHostWasSelected` | internal/controller/openstackbaremetalset_controller.go:741-766 | in every state of every run each held host was selected by an earlier reconcile of its set that found it eligible, and has been held since |
| `Requirements.SelectedUnderPresentRequirements` | api/v1beta1/openstackbaremetalset_webhook.go:144-158 | without a disruptive update, that reconcile found the host eligible under the selector and hardware requests the set has now |
| `Requirements.DisciplinedRunsAreUndisrupted` | api/v1beta1/openstackbaremetalset_webhook.go:144-158 | in every run in which updates are validated and a finished reconcile (or a re-creation) lies between two updates of a set, no update is disruptive and every held host was selected under present requirements |
| `Requirements.TwoUpdatesDisrupt` | api/v1beta1/openstackbaremetalset_webhook.go:123-158 | striking all hostnames off and then asking for them under another selector is accepted twice, and the second update is disruptive |
| `Fields.FinishedServesRequested` | internal/openstackbaremetalset/baremetalhost.go:193-272 | after a finished reconcile, field by field from spec and server status: every requested host has the labels, the cleaning mode and, unless provisioned, exactly the URL, checksum and type of its deployment mode; a newly claimed host is online with its ConsumerRef and the given or generated secrets in the BMH namespace, any other keeps them; the entry shows state, secrets and the first address |
| `Fields.ClaimProvisions` | internal/openstackbaremetalset/baremetalhost.go:198-256 | the same for one provisioning, of a free or a held host |
| `Fields.ReleaseFreesHost` | internal/openstackbaremetalset/baremetalhost.go:278-341 | a release clears power, ConsumerRef, image, both secrets and all operator labels of its host and keeps everything else; no other host changes; the entry goes unless the secret deletion fails |
| `Fields.DeletionFreesHosts` | internal/controller/openstackbaremetalset_controller.go:772-786 | a complete deletion does that to exactly the hosts the status names |
| `Fields.DroppedHostsAreFreed` | internal/controller/openstackbaremetalset_controller.go:648-697 | a finished reconcile does that to every host held under a dropped hostname, unless it is claimed anew |
| `Fields.StoppedAfterReleases` | internal/controller/openstackbaremetalset_controller.go:505-545 | a reconcile that stops at the host list or at selection leaves the requested entries with a host, has freed the dropped hosts, and has touched nothing else |
| `Fields.UnlistedLeaves` | internal/controller/openstackbaremetalset_controller.go:490-523 | without the first list nothing changes; without the second only entries without a host are gone |
| `Fields.ClaimedHostsAreUsable` | api/v1beta1/openstackbaremetalset.go:120-157 | a newly claimed host is Available, neither externally provisioned nor custom deployed, and was free without image URL or held under a dropped hostname |
| `Fields.UnusableHostsAreLeftAlone` | api/v1beta1/openstackbaremetalset.go:120-157 | a host without ConsumerRef that fails one of these is left exactly as it is |
| `Fields.OneComputeFitsExactly` | api/v1beta1/openstackbaremetalset.go:120-204 | without hardware requests one new compute can be placed exactly when some host has these fields and both label selectors |
| `Witnesses.DisruptionIsReachable` | api/v1beta1/openstackbaremetalset_webhook.go:123-158 | a validated run of four steps with one set and one host that ends in such an update |
| `Witnesses.BasisIsLost` | api/v1beta1/openstackbaremetalset_webhook.go:123-158 | in that run a host is held that was selected under other requirements |
| `Witnesses.DeletionLeaksHost` | internal/controller/openstackbaremetalset_controller.go:250-265 | two entries, the first without a host: the finalizer is dropped and the second host stays claimed |
| `Witnesses.StatusReportsOtherSecret` | internal/openstackbaremetalset/baremetalhost.go:232-272 | after the spec names another user-data secret the status reports it and the host keeps the old one |
| `Witnesses.HalfwayFrees` | internal/openstackbaremetalset/baremetalhost.go:314-341 | a deletion whose secret deletion fails frees the host, keeps the entry and the finalizer |
| `Witnesses.StaleEntryStripsClaim` | internal/controller/openstackbaremetalset_controller.go:772-786 | a run with two sets: after such a failure the second set takes the host, and the retried deletion of the first set strips the second set's claim while its status still names the host |
| `Ports.GetExistingPorts` | api/v1beta1/openstackprovisionserver.go:12-38 | exactly the servers with a non-zero port |
| `Ports.AssignPort` | api/v1beta1/openstackprovisionserver.go:41-91 | terminates without overflow; keeps a recorded port not above the end, else the least free port; errs exactly when neither exists, leaving the port alone |
| `Ports.FullRangeNeedsServers` | api/v1beta1/openstackprovisionserver.go:63-88 | a range without a free port needs as many servers as ports |
| `Ports.NewServerGetsPort` | api/v1beta1/openstackprovisionserver.go:63-88 | a new server gets a port whenever fewer servers hold ports than the range has |
| `Ports.Default` | api/v1beta1/openstackprovisionserver_webhook.go:114-124 | only an unset port is filled in, and stays unset on an allocator error |
| `Ports.ValidateCr` | api/v1beta1/openstackprovisionserver_webhook.go:71-89 | accepts exactly a set port that no other server holds |
| `Ports.AdmitKeepsPortsOk` | api/v1beta1/openstackprovisionserver_webhook.go:71-89 | defaulting, validation and commit keep all ports set and distinct |
| `Ports.PortsDistinctInEveryRun` | api/v1beta1/openstackprovisionserver_webhook.go:48-124 | over every run of requests any two servers of any namespaces have different non-zero ports |
| `Ports.UnsetPortAcceptedExactly` | api/v1beta1/openstackprovisionserver_webhook.go:71-124 | a request without a port is accepted exactly when the recorded port is in range, or there is none and a port is free |
| `Ports.FirstServersAreServed` | api/v1beta1/openstackprovisionserver_types.go:38-41 | on an empty cluster up to 21 servers without a port get 6190, 6191 and so on to 6210 |
| `Ports.NextServerIsRejected` | api/v1beta1/openstackprovisionserver_types.go:38-41 | the 22nd is rejected |
| `Ports.ExplicitPortIsKept` | api/v1beta1/openstackprovisionserver_webhook.go:71-124 | a port that is asked for is stored as it is unless another server has it |
| `Ports.PortAboveRangeBlocksUpdates` | api/v1beta1/openstackprovisionserver_types.go:38-60 | an accepted port above 6210 makes later requests without a port fail |
| `ImageUrl.DecimalRoundTrip` | internal/controller/openstackprovisionserver_controller.go:746-746 | printing and parsing a port are inverse |
| `ImageUrl.UrlRoundTrip` | internal/controller/openstackprovisionserver_controller.go:743-746 | host, brackets, port and file name can be read back from the URL |
| `ImageUrl.LocalImageUrlIsRead` | internal/controller/openstackprovisionserver_controller.go:726-747 | the URL names the provisioning address if there is one and else the node's, bracketed exactly if that is IPv6, with port and file |
| `ImageUrl.UrlExamples` | internal/controller/openstackprovisionserver_controller.go:743-746 | one IPv4 and one IPv6 URL in full |
| `ImageUrl.ServersHaveDifferentUrls` | internal/controller/openstackprovisionserver_controller.go:726-747 | after any run of admissions two servers never compute the same URL |
| `AddressAgent.AgentLoop.UpdateProvisioningStatus` | containers/agent/provision_ip_discovery.go:148-183 | the two fields after an attempted write; a missing object is reported as success |
| `AddressAgent.AgentLoop.Run` | containers/agent/provision_ip_discovery.go:65-80 | the remembered address and stored fields after any stream of rounds, in each of which the object may be the same, another one, or missing |
| `AddressAgent.WriteShowsFinding` | containers/agent/provision_ip_discovery.go:163-180 | an effective write stores the address and clears the error, or stores no address and a non-empty error that tells a missing interface from a missing address |
| `AddressAgent.FailedWriteIsRepeated` | containers/agent/provision_ip_discovery.go:67-77 | a write that was refused or reported an error is followed by another one |
| `AddressAgent.MissingCountsAsWritten` | containers/agent/provision_ip_discovery.go:150-153 | an address read while the object was missing is not written to the object that comes back |
| `AddressAgent.SkippingIsInvisible` | containers/agent/provision_ip_discovery.go:65-80 | without a trap the skipping loop stores what the always-writing loop stores |
| `AddressAgent.TrapIsVisible` | containers/agent/provision_ip_discovery.go:65-80 | a trap makes the two loops differ: an address is remembered from a round that counted as written, the object written to goes missing or is replaced, and a later write of the same address is skipped |
| `AddressAgent.SkippingIsInvisibleExactly` | containers/agent/provision_ip_discovery.go:65-80 | the two loops agree after every round exactly when the stream has no such trap, whether the object is missing in a round or replaced between two rounds |
| `AddressAgent.RecreatedServerStaysBlank` | containers/agent/provision_ip_discovery.go:65-80 | written, then deleted and recreated between two rounds or across a round, with one address throughout: the new object never gets the address |
| `AddressAgent.SameServerNeverDiffers` | containers/agent/provision_ip_discovery.go:65-80 | as long as the object exists and is never recreated they agree, for all addresses and write outcomes |

## Left out

- Kubernetes client, caches, resource versions, events, watch predicates and concurrent admissions: steps are serialised.
- Cloud-init templates, secret contents and their deletion by host name, CIDR parsing, the FQDN check, httpd configuration: text generation.
- The first pass that only adds the finalizer and initial conditions, the paused annotation, and panic recovery: they change no host and no status entry.
- Mirroring a sub-condition into Ready at the end of a reconcile, and transition times: library behaviour.
- Creating and deleting the provision server from the set controller: the set model takes the server's status as an input.
- The provision-server reconcile pipeline (deployment, checksum job, hashes, RBAC), image defaults, checksum-file discovery: straight sequences of gates.
- Name validation by the external validator: an input of `ValidateCreate`; in the provision-server webhook its result is not used.
- `VerifyBaremetalSetScaleDown` and the host-removal annotation: not used.
- Whether an address is IPv6 is an input of the URL functions, so they hold for every classification.
- `Lifecycle.BaremetalHostProvision`: cloud-init secrets that were created before a later call failed are outside the state, so "changes nothing" is about hosts and status.
- `Lifecycle.BaremetalHostDeprovision`: the host's annotations and the secrets it deletes are outside the state; whether the deletion of the secrets fails is an input.
- `Ports.AssignPort`: the end of the range is taken to be below the largest int32; the operator passes 6210.
- The schema bounds of the port (6190 to 6220) are not part of admission; the port theorems hold without them.
- `AddressAgent.AgentLoop.Run`: the endless loop is modelled by its finite prefixes.
