# LonghornCoSchedule: a verified model of the co-scheduling decision

`LonghornCoSchedule` is a kube-scheduler plugin. It places a KubeVirt VM pod
on the node where the Longhorn share-manager of one of its ReadWriteMany (RWX)
volumes runs, or is assigned to run. The model covers the plugin's four decision parts:

- **Gate** (`Plugin.IsOptedIn`, `Consistency.Applies`). The pod must carry the
  annotation `kubevirt-scheduler/co-schedule: "true"`. A migration target is
  exempt. The migration-target test is defined outside the modelled files, so
  every operation takes it as a parameter `isMigrationTarget: Labels -> bool`,
  and every theorem holds for any such predicate.
- **Resolver** (`ShareManager`). The resolver walks the pod's PVC volumes in
  declared order. It skips a claim that is missing, not RWX or unbound. It
  then asks the ShareManager custom resource for `status.ownerID` (Tier 1: only
  when `status.state` is `running` or `starting`). If that gives nothing, it
  asks the `share-manager-<pv>` pod in `longhorn-system` (Tier 2: only when the
  pod is Running and scheduled). The first node found is the result, and `""`
  means none.
- **Filter** (`Filtering`). Filter maps the gate, the candidate node and the
  resolution to Success, Unschedulable or Error.
- **Score** (`Scoring`). Score is a step function returning 0 or
  `MaxNodeScore` (100).

The Kubernetes clients are replaced by an immutable `Kube.Cluster` snapshot:

- PVCs and pods are maps keyed by (namespace, name).
- ShareManager objects are a map of JSON-like `Value`s. The snapshot holds
  None there when the dynamic client is nil.

A key missing from a map stands for a failed Get. The source treats every Get
failure that way.

Shape of the model:

- The resolver's Go loops are the methods `CollectPVCNames`, `IsRWX` and
  `FindShareManagerNode`. Each is proved equal to a specification function
  (`ClaimNames`, RWX membership, `Resolve`).
- The specification functions are what Filter and Score call, and what the
  lemmas are about.
- `FilterWith` and `ScoreWith` take the resolver's outcome as a `Result`, so
  the Error branches are modelled. `Filter` and `Score` plug in `Resolve`,
  which is proved never to fail.
- `Consistency.Target` is an independent reference: the one node a pod is
  pinned to, if any. The main theorems tie Filter and Score to it and to each other.

What the code does, and the model with it:

- Every failed Get is swallowed. A missing PVC or share-manager pod yields ""
  (sharemanager.go:67-69, 134-136), and a failed ShareManager Get falls through
  to the pod lookup (sharemanager.go:86-88). So the resolver never returns an error.
- Tier 1 also requires a non-empty `ownerID` (sharemanager.go:112-115).
- The stale test expectations in plugin_test.go are not followed. They call
  the resolver with three arguments, name the share-manager pod after the
  PVC, and never bind the PVC.

## Model

| member | source | states |
|---|---|---|
| Plugin.Name | pkg/plugins/longhorn_cosched/plugin.go:19-50 | the plugin's name is always "LonghornCoSchedule" |
| Plugin.NilAnnotationsNotOptedIn | pkg/plugins/longhorn_cosched/plugin.go:73-75 | a pod with a nil annotation map is not opted in |
| Plugin.IsOptedIn | pkg/plugins/longhorn_cosched/plugin.go:72-77 | opted in iff the annotations are non-nil and hold key kubevirt-scheduler/co-schedule with value exactly "true"; a missing key or any other value (e.g. "false") is not |
| Plugin.OptedInReadsOnlyAnnotations | pkg/plugins/longhorn_cosched/plugin.go:72-77 | two pods with equal annotations agree on opt-in, whatever their labels, volumes or the cluster |
| ShareManager.ClaimNames | pkg/plugins/longhorn_cosched/sharemanager.go:51-59 | at most one claim name per volume; no names exactly when no volume has a PVC source |
| ShareManager.CollectPVCNames | pkg/plugins/longhorn_cosched/sharemanager.go:51-59 | the volume loop returns exactly ClaimNames of the pod's volumes |
| ShareManager.ClaimNamesAppend | pkg/plugins/longhorn_cosched/sharemanager.go:53-57 | collecting claim names distributes over concatenation of volume lists: declared order and duplicates are kept |
| ShareManager.ClaimNamesSingle | pkg/plugins/longhorn_cosched/sharemanager.go:54-56 | one volume contributes its claim name if it has a PVC source and nothing otherwise |
| ShareManager.ClaimNamesMembership | pkg/plugins/longhorn_cosched/sharemanager.go:51-59 | a name is collected iff some volume has a PVC source with that claim name |
| ShareManager.IsRWX | pkg/plugins/longhorn_cosched/sharemanager.go:146-153 | true iff ReadWriteMany is one of the PVC's access modes, that is, iff some mode's Go string equals "ReadWriteMany" |
| Kube.ModeString | pkg/plugins/longhorn_cosched/sharemanager.go:148 | an access mode's Go string is "ReadWriteMany" exactly when the mode is ReadWriteMany; a mode outside the four defined ones never has that spelling |
| Kube.ModeStringInjective | pkg/plugins/longhorn_cosched/sharemanager.go:148 | two modes have the same Go string iff they are the same mode, so comparing modes as values is Go's string comparison |
| ShareManager.StringField | pkg/plugins/longhorn_cosched/sharemanager.go:112-119 | the `.(string)` assertion: a non-empty result is the string stored under the key; a string stored under the key is the result, otherwise "" |
| ShareManager.ShareManagerKey | pkg/plugins/longhorn_cosched/sharemanager.go:101 | the ShareManager object of a PV is looked up in namespace "longhorn-system" under the PV's name |
| ShareManager.NodeFromCRD | pkg/plugins/longhorn_cosched/sharemanager.go:100-126 | the CRD tier errs iff the ShareManager object (longhorn-system, pv) is absent |
| ShareManager.CRDTierExactly | pkg/plugins/longhorn_cosched/sharemanager.go:107-125 | the CRD tier yields a non-empty owner o iff the object exists, status is a map, status.ownerID is the string o and status.state is the string running or starting; a fetched object that names no usable owner yields "" |
| ShareManager.ShareManagerPodKey | pkg/plugins/longhorn_cosched/sharemanager.go:132-133 | the pod tier's key is namespace "longhorn-system" and name "share-manager-" followed by the PV name |
| ShareManager.NodeFromPod | pkg/plugins/longhorn_cosched/sharemanager.go:131-143 | the pod tier is non-empty iff the share-manager pod exists, is Running and has a node name, and then it is that node name |
| ShareManager.NodeForPVC | pkg/plugins/longhorn_cosched/sharemanager.go:64-96 | the per-claim lookup never returns an error |
| ShareManager.IneligibleClaimYieldsNothing | pkg/plugins/longhorn_cosched/sharemanager.go:66-78 | a missing, non-RWX or unbound claim yields "" for every content of the ShareManager objects and pods, so neither tier matters |
| ShareManager.CRDTierWins | pkg/plugins/longhorn_cosched/sharemanager.go:84-92 | for an eligible claim, a non-empty CRD result is the claim's result, whatever the share-manager pod says |
| ShareManager.PodTierFallback | pkg/plugins/longhorn_cosched/sharemanager.go:84-95 | for an eligible claim with a nil dynamic client, a failed CRD Get or an empty CRD result, the claim's result is the pod tier's |
| ShareManager.ResolveClaims | pkg/plugins/longhorn_cosched/sharemanager.go:37-46 | the loop over claims, with its early returns on an error or a node, never yields an error |
| ShareManager.Resolve | pkg/plugins/longhorn_cosched/sharemanager.go:31-47 | the resolver, including its early exit for zero claims, never returns a non-nil error |
| ShareManager.ResolveClaimsFirstMatch | pkg/plugins/longhorn_cosched/sharemanager.go:37-46 | a non-empty node is the result iff some claim yields it and every earlier claim yields "" |
| ShareManager.ResolveClaimsNone | pkg/plugins/longhorn_cosched/sharemanager.go:37-46 | the result is "" iff every claim yields "" |
| ShareManager.ResolveFirstMatch | pkg/plugins/longhorn_cosched/sharemanager.go:31-47 | for a pod: a non-empty node is resolved iff it is yielded by a claim that every earlier claim, in declared order, leaves empty |
| ShareManager.ResolveNone | pkg/plugins/longhorn_cosched/sharemanager.go:31-47 | for a pod: "" is resolved iff no claim yields a node |
| ShareManager.NoClaimsResolveNothing | pkg/plugins/longhorn_cosched/sharemanager.go:32-35 | a pod without PVC volumes resolves to "" |
| ShareManager.LaterClaimsIgnored | pkg/plugins/longhorn_cosched/sharemanager.go:42-44 | once a prefix of the claims decides, appending more claims changes nothing |
| ShareManager.EmptyClaimsSkipped | pkg/plugins/longhorn_cosched/sharemanager.go:37-46 | claims that yield "" are skipped: the result is that of the remaining claims |
| ShareManager.AbsentShareManagersResolveNothing | pkg/plugins/longhorn_cosched/sharemanager.go:64-96 | with no ShareManager object and no share-manager pod in the cluster, every pod resolves to "" |
| ShareManager.FindShareManagerNode | pkg/plugins/longhorn_cosched/sharemanager.go:31-47 | the loop with early returns computes exactly Resolve |
| Filtering.RejectReason | pkg/plugins/longhorn_cosched/filter.go:64-67 | the reject reason contains both the candidate node name and the share-manager node name |
| Filtering.FilterWith | pkg/plugins/longhorn_cosched/filter.go:21-76 | success iff not opted in, migration target, or (node present, resolution ok and either empty or equal to the node's name); Unschedulable only for a present node with a different non-empty resolution and then names both; Error only past the gate, with a missing node or a resolver error |
| Filtering.Filter | pkg/plugins/longhorn_cosched/filter.go:37-46 | with the real resolver the only Error status is "node not found" for a missing node |
| Filtering.NotOptedInAdmitsEveryNode | pkg/plugins/longhorn_cosched/filter.go:24-27 | a pod not opted in gets success on every node, whatever the cluster |
| Filtering.MigrationTargetAdmitsEveryNode | pkg/plugins/longhorn_cosched/filter.go:29-35 | a migration target gets success on every node |
| Filtering.MissingNodeIsError | pkg/plugins/longhorn_cosched/filter.go:37-40 | past the gate a missing node is Error "node not found" for every resolver outcome |
| Filtering.ResolverErrorIsError | pkg/plugins/longhorn_cosched/filter.go:42-46 | past the gate a resolver error is an Error status carrying the cause |
| Filtering.EmptyResolutionAdmitsEveryNode | pkg/plugins/longhorn_cosched/filter.go:49-55 | an empty resolution admits every node |
| Filtering.ResolvedNodeOnlyPasses | pkg/plugins/longhorn_cosched/filter.go:58-75 | with resolution r a node succeeds iff its name is r; any other node is Unschedulable with a reason containing both names |
| Filtering.AtMostOneNodePasses | pkg/plugins/longhorn_cosched/filter.go:58-75 | once some node is rejected, any two admitted nodes have the same name |
| Scoring.ScoreWith | pkg/plugins/longhorn_cosched/score.go:20-69 | the score is 0 or MaxNodeScore; it is MaxNodeScore iff the gate passes and the resolution is the non-empty node name; a non-nil status is an Error with score 0 coming from a resolver error |
| Scoring.Score | pkg/plugins/longhorn_cosched/score.go:16-69 | with the real resolver the status is always nil and the score is 0 or 100 |
| Scoring.GateOffScoresZero | pkg/plugins/longhorn_cosched/score.go:23-35 | not opted in or a migration target scores 0 with nil status on every node |
| Scoring.ResolverErrorScoresZero | pkg/plugins/longhorn_cosched/score.go:37-41 | a resolver error scores 0 with an Error status carrying the cause |
| Scoring.EmptyResolutionScoresZero | pkg/plugins/longhorn_cosched/score.go:44-50 | an empty resolution scores 0 on every node |
| Scoring.ResolvedNodeScoresMax | pkg/plugins/longhorn_cosched/score.go:53-68 | with resolution r the node named r scores MaxNodeScore and every other node 0 |
| Consistency.Applies | pkg/plugins/longhorn_cosched/filter.go:24-35 | the constraint applies iff the annotations are non-nil, hold the opt-in key with value exactly "true", and the pod is not a migration target (the same gate opens score.go:23-35) |
| Consistency.FilterAdmitsTarget | pkg/plugins/longhorn_cosched/filter.go:24-75 | a present node is admitted iff there is no target or it is the target; otherwise it is Unschedulable, never Error |
| Consistency.ScoreRewardsTarget | pkg/plugins/longhorn_cosched/score.go:23-68 | a node scores MaxNodeScore with nil status if it is the target and 0 with nil status otherwise |
| Consistency.FilterScoreAgreeWith | pkg/plugins/longhorn_cosched/score.go:53-61 | for any resolver outcome: max score iff the gate passes, the resolution is a non-empty node and Filter admits the node |
| Consistency.FilterScoreAgree | pkg/plugins/longhorn_cosched/filter.go:58-75 | the same agreement with the real resolver run on the snapshot |
| Consistency.OnlyAdmittedNodeScoresMax | pkg/plugins/longhorn_cosched/filter.go:58-75 | when Filter rejects some node there is a target, it is admitted, and a node scores the maximum iff it is admitted |
| Consistency.MigrationTargetIsTransparent | pkg/plugins/longhorn_cosched/filter.go:29-35 | an opted-in migration target is admitted on every node (even a missing one) and scores 0 everywhere |
| Consistency.AbsenceIsTransparent | pkg/plugins/longhorn_cosched/sharemanager.go:84-95 | with no ShareManager object and no share-manager pod, every node is admitted and scores 0 |

## Left out

- `New` (plugin.go:53-69) builds the clients from a kubeconfig. This is foreign I/O. The clients are replaced by the `Cluster` snapshot.
- The Kubernetes `Get` calls are map lookups in the snapshot. `ctx`, cancellation and deadlines are only passed through to the client, so they are not modelled.
- The snapshot is immutable. Changes to cluster state between the calls for different candidates are out of scope.
- `isMigrationTarget` and `MigrationTargetLabel` are defined in a file that is not part of this model. The predicate is a parameter.
- `klog` logging and the discarded `fmt.Errorf` value (sharemanager.go:88) have no observable effect.
- The GroupVersionResource `longhorn.io/v1beta2/sharemanagers` (sharemanager.go:15-19) is implicit: `Cluster.shareManagers` holds exactly those objects.
- Go error values carry only a message string. The error from a failed CRD Get is an invented "not found" message; it is discarded anyway.
- Error status messages are kept only as far as the filter's reject reason naming both nodes, and the resolver-error prefix.
- `RejectReason`: `%q` is modelled as wrapping in double quotes. Go's escaping of special characters is not modelled; Kubernetes node names contain no such characters.
- FindShareManagerNode: the method has no branch for an error from the per-claim lookup (sharemanager.go:39-41), because `NodeForPVC` is proved never to return one and the branch would be dead code. `ResolveClaims`, which the method is proved equal to, keeps that branch.
- `ScoreExtensions` (score.go:72-74) returns nil, so there is no score normalisation to model.
- Scores are unbounded integers. The only values produced are 0 and 100, so int64 width never matters.
- Framework concurrency (parallel Filter/Score calls per node) belongs to the external scheduler. The plugin keeps no mutable state.
- cmd/scheduler/main.go is CLI bootstrap and plugin registration.
