# A verified model of Fluence

Fluence schedules groups of pods together. It describes the cluster to the Fluxion allocator as a resource graph,
asks for nodes for a whole group at once, keeps a ledger of which group holds which job, holds pods back until
enough of their group can start, and walks each PodGroup through its phases. This project models those parts in
Dafny and proves what they keep. `dafny verify dfyconfig.toml` checks everything.

| files | part |
|---|---|
| `GoInt`, `Decimal`, `Wrappers` | Go's integers, Kubernetes quantities, decimal printing and parsing |
| `Jgf`, `Cluster`, `ClusterShape`, `ClusterPaths`, `ClusterCounts`, `ClusterContents` | the graph builder, and what the graph looks like |
| `Allocation`, `Fluxion`, `Assignment`, `Capacity` | pod to job, allocation to tasks, tasks to pods, tasks against cpu |
| `Ledger`, `Manager` | group to job under every interleaving; the pod group manager object |
| `EndToEnd` | capacity over every run, and that it is sharp; admission fed by the match's own answer |
| `Gang`, `Queue` | Permit, PostFilter and Unreserve; the queue order |
| `Controller`, `Webhook` | the PodGroup phases; the size label on its way to MinMember |

Code that updates things in place is modelled by classes and loops, each proved against a function of the old
state. The results are lemmas about those functions: over every sequence of graph calls, every node list, every
allocation tree, every interleaving, every history of pod phases.

Findings, each with the exact condition or a concrete run beside it:

- Containment paths are distinct exactly when the subnet names are; zone labels that end in a digit can break that
  (`ClusterPaths.PathsCanClash`).
- The allocation decoder is right on a tree without nested compute nodes exactly when no core outside every compute
  node is listed before one; its counter relies on the post-order of the listing (`Allocation.PreOrderMiscounts`).
- A pod's cpu request is covered by the job specification exactly when the rounded-up sum fits in int32; the task
  counts of a response total MinMember exactly when each node's cores fit in int32; five slots of 2^30 cores read as
  one task (`Assignment.TasksCanWrap`).
- With the "zone" job specification label all slots are under one node, so only a group of one pod keeps its job.
- The write after a match does not look whether its group still has a job. Each write that finds one there leaves one
  live job that nobody knows, and nothing else does (`Ledger.StraysAreDropped`, with a run in
  `Ledger.FailedCancelLeaks`); a failed cancel alone loses nothing.
- When the sizes differ the group's job is cancelled, yet its pods are placed: two one-core pods can end up on a node
  with less than two free cores (`EndToEnd.PlacedWithoutBacking`).
- Pod events of a group whose PodGroup object is already deleted are charged to a made-up group name and never free
  the group's job; `Ledger.EventFreesExactly` says which events do.
- The pods of a group stand together in the queue exactly when no other pod of their priority and time has a name
  between theirs (`Queue.ContiguousExactly`).
- The gang decision counts pods that were rejected but not yet forgotten, so a pod can be released alone
  (`Gang.StaleCountBreaksGang`); `Gang.ReleaseIsFullGangExactly` says when the gang is whole.
- A size label of 0 has the controller requeue the group unchanged forever; a negative one, and only such a one, has a
  group declared Finished of which no pod succeeded.

Where the code and its comments disagree the model follows the code: each included node gets a subnet of its own,
because the lookup of known subnets is never filled (`src/fluence/utils/utils.go:116`); edges carry no relation
(`src/fluence/jgf/jgf.go:98`); after a size mismatch nodes are written and the group is admitted although its job was
cancelled (`sig-scheduler-plugins/pkg/fluence/core/core.go:310`); deleting a succeeded pod frees nothing
(`sig-scheduler-plugins/pkg/fluence/core/flux.go:233`).

What is taken from outside: Fluxion issues fresh job ids, gives a core to one live job at most, and leaves its state
alone when a call fails; an allocation for `count` slots puts each slot inside one node (Flux RFC 14, Canonical Job
Specification, section "Reserved Resource Types"). Names of nodes, namespaces, groups and pods contain no "/". A write
to the API store takes effect. The replies and the points at which other threads run are parameters.

## Model

| member | source | states |
|---|---|---|
| GoInt.ToInt32Wraps | src/fluence/fluxion/fluxion.go:113-116 | the conversion to int32 keeps a number modulo 2^32 |
| Decimal.ParsePrint | sig-scheduler-plugins/pkg/controllers/podgroup_controller.go:304-311 | parsing the printed text of any int32 gives the number back |
| Decimal.ParsesExactly | sig-scheduler-plugins/pkg/controllers/podgroup_controller.go:304-311 | a size label parses as n if and only if n fits in int32 and the label is an optional sign, leading zeros and the digits of n |
| Decimal.NameIndexSplits | src/fluence/jgf/types.go:99-104 | a name followed by an index can be split in one way only, if the name does not end in a digit |
| Jgf.CountersAlwaysAgree | src/fluence/jgf/types.go:117-147 | after any sequence of graph calls, ids, the id map, the per-name counters and the element count agree with the vertex list, and the counters sum to the elements plus one |
| Jgf.ClusterNameMatchesRoot | src/fluence/jgf/jgf.go:223-232 | the cluster vertex is named like the root path, except for a cluster called "cluster" |
| Jgf.FluxJGF.NextResourceIndex | src/fluence/jgf/types.go:124-131 | returns the count so far for the name, 0 if none, and stores one more |
| Jgf.FluxJGF.GetCounter | src/fluence/jgf/types.go:134-147 | the next index of the name and the next global id, both counted up |
| Jgf.FluxJGF.MakeNewNode | src/fluence/jgf/jgf.go:124-162 | appends the vertex and enters it in the id map under its printed id |
| Jgf.FluxJGF.InitCluster | src/fluence/jgf/jgf.go:223-232 | succeeds exactly on a graph without elements, and otherwise changes nothing |
| Jgf.FluxJGF.MakeSubnet | src/fluence/jgf/jgf.go:111-118 | one more vertex, directly below the root, with the caller's index |
| Jgf.FluxJGF.MakeNode | src/fluence/jgf/jgf.go:165-175 | one more vertex below the given path, with the caller's index |
| Jgf.FluxJGF.MakeBidirectionalEdge | src/fluence/jgf/jgf.go:92-107 | two edges, parent to child and back, without a relation |
| Cluster.ComputeTotalRequests | src/fluence/utils/utils.go:243-257 | for each resource name the sum over the pods; the names are those that some pod requests |
| Cluster.TotalRequestAnyOrder | src/fluence/utils/utils.go:243-257 | the totals are the same for every order of the pods |
| Cluster.EachPodAdds | src/fluence/utils/utils.go:245-255 | each pod adds to a resource's total what it requests of it, and no pod means 0 |
| Cluster.AddNode | src/fluence/utils/utils.go:154-232 | one pass of the loop extends the graph by exactly the planned subnet, node, gpus, cores and memory |
| Cluster.CreateInClusterJGF | src/fluence/utils/utils.go:102-234 | the graph is laid out as planned for the whole node list, its counters agree, and the cpu total is the sum of what is available |
| Cluster.GraphOfRealizes | src/fluence/jgf/jgf.go:92-162 | vertices and edges made one by one are those of the planned layout, position by position |
| ClusterShape.GraphIsTree | src/fluence/utils/utils.go:102-232 | for every node list: a tree rooted at the cluster, of depth at most 3, with symmetric edges; each other vertex has exactly one neighbour of smaller id, of the parent's type, whose path its own path extends |
| ClusterPaths.PathsDistinctExactly | src/fluence/jgf/jgf.go:76-89 | all containment paths are distinct if and only if the subnet names are |
| ClusterPaths.ZonesWithoutTrailingDigit | src/fluence/utils/utils.go:155-231 | zone labels that do not end in a digit make all paths distinct |
| ClusterPaths.PathsCanClash | src/fluence/utils/utils.go:155-167 | eleven nodes in zones "z1" and "z" give two vertices the same path |
| ClusterCounts.GraphCounts | src/fluence/utils/utils.go:119-232 | vertices and edges in closed form, and the vertices of each type: one subnet and one node for each included node, with its cores, memory and gpus |
| ClusterCounts.PrintedTotalAgainstGraph | src/fluence/utils/utils.go:179-234 | the printed cpu total is at most the core vertices, and equal exactly when no included node is short by a whole core or more |
| ClusterCounts.CoresUnderReport | src/fluence/utils/utils.go:179-224 | a node's core vertices stay within its free cpu and leave less than one core unreported |
| ClusterCounts.MemoryUnderReports | src/fluence/utils/utils.go:180-232 | a node's memory vertices leave unreported less than a GiB of what the requests of its pods leave of its memory, and there is none when they leave nothing |
| ClusterCounts.GpusAllReported | src/fluence/utils/utils.go:201-216 | one gpu vertex for each allocatable gpu, a fraction rounded up, none without the resource |
| ClusterCounts.AvailCpuTruncates | src/fluence/utils/utils.go:179 | what a node adds to the printed total is its free cpu in whole cores, truncated toward zero, below zero too |
| ClusterContents.NodeVerticesExactly | src/fluence/utils/utils.go:119-198 | a node has its vertex, with its list position as index and behind a subnet vertex of its zone (numbered in order of appearance), if and only if it is not of the control plane, not labelled to be skipped and schedulable; every compute node vertex is one of these |
| ClusterContents.VertexFields | src/fluence/jgf/jgf.go:124-232 | every vertex is named by base name and index, without rank and not exclusive, with the base name, unit and size of its type; the root is /k8scluster0 |
| Allocation.ParseAllocResult | src/fluence/utils/utils.go:267-301 | the loop computes the decoding of the listing |
| Allocation.DecodingConserves | src/fluence/utils/utils.go:267-301 | for any listing, the counts and the leftover make up the cores listed |
| Allocation.DecodesTreeExactly | src/fluence/utils/utils.go:285-301 | on the post-order listing of a tree without nested compute nodes, the result is each node with its core descendants if and only if no core outside the nodes is listed before a node |
| Allocation.DecodesCoveredTree | src/fluence/utils/utils.go:285-301 | with every core under exactly one compute node the counts are exact and nothing is left over |
| Allocation.PreOrderMiscounts | src/fluence/utils/utils.go:285-301 | listing a node before its cores charges them to the next node |
| Fluxion.PreparePodJobSpec | sig-scheduler-plugins/pkg/fluence/podspec/podspec.go:46-98 | cpu is the int32 sum of the rounded-up requests, 1 instead of 0; memory, storage and gpu limits are summed |
| Fluxion.JobCpuCoversExactly | sig-scheduler-plugins/pkg/fluence/podspec/podspec.go:62-90 | the cpu asked for covers the pod's milli-cpu if and only if the rounded-up sum fits in int32, and then is that sum, or 1 for 0 |
| Fluxion.EachContainerAdds | sig-scheduler-plugins/pkg/fluence/podspec/podspec.go:70-83 | each container adds the least whole units that cover its cpu, memory and storage requests and its gpu limit |
| Fluxion.RequestAsksForSlots | src/fluence/jobspec/jobspec.go:75-129 | whatever the labels, the request is for count slots, each of cpu cores, the whole MiB of a positive memory and a positive gpu count; the zone label puts them under one node of one subnet |
| Fluxion.FillNodeTasks | src/fluence/fluxion/fluxion.go:110-117 | the response array holds each node with its cores divided by the cpu, in int32 |
| Fluxion.TasksFitCores | src/fluence/fluxion/fluxion.go:110-117 | a node's tasks never need more cores than it was counted with, wrap-around included |
| Fluxion.TasksAreSlotsExactly | src/fluence/fluxion/fluxion.go:110-117 | the tasks of a node are its slots if and only if the cores of those slots fit in int32 |
| Assignment.NodesFitPods | sig-scheduler-plugins/pkg/fluence/core/core.go:277-329 | the nodes listed number at most MinMember and so at most the pods: every index of the assignment loop is in range |
| Assignment.TasksTotalExactly | src/fluence/fluxion/fluxion.go:110-117 | the tasks total MinMember if and only if no node holds more cores than int32 counts |
| Assignment.TasksCanWrap | src/fluence/fluxion/fluxion.go:110-117 | five slots of 2^30 cores on one node are reported as one task |
| Assignment.AnswerFitsExactly | sig-scheduler-plugins/pkg/fluence/core/core.go:310-315 | as many nodes as pods if and only if the pods are MinMember and every node holds one slot |
| Assignment.AnswerFitsByTasks | sig-scheduler-plugins/pkg/fluence/core/core.go:310-315 | the same in terms of the response: every node has Tasks == 1 |
| Assignment.ZoneFitsOnlyOnePod | src/fluence/jobspec/jobspec.go:107-127 | an allocation under one node fits only a group of one pod |
| Assignment.AssignedAt | sig-scheduler-plugins/pkg/fluence/core/core.go:321-329 | each pod gets the node at its position, and every other pod keeps its entry |
| Assignment.KeptGroupSpreadsOut | sig-scheduler-plugins/pkg/fluence/core/core.go:321-329 | with as many nodes as pods every pod has a node, and no two pods share one if and only if the nodes listed are distinct |
| Capacity.CoreIdsCount | src/fluence/utils/utils.go:219-224 | the core vertices under a node's vertex number its free whole cores |
| Capacity.TasksFitHeldCores | src/fluence/fluxion/fluxion.go:110-117 | the tasks a job counts on a node need no more cores than the job holds there |
| Capacity.JobTreeLists | src/fluence/utils/utils.go:267-301 | the part of the graph above a set of held cores lists each compute node once with exactly its held cores |
| Capacity.NodeNotOvercommitted | src/fluence/utils/utils.go:170-224 | on a node that holds a task, requests present at graph build plus those of all tasks of live jobs stay within the allocatable milli-cpu |
| Ledger.LedgerIsSafe | sig-scheduler-plugins/pkg/fluence/core/flux.go:27-139 | under every interleaving: mapped jobs are live and not shared, none is cancelled twice, live jobs missing from the map are at most the failed cancels plus one in flight, cores are held once |
| Ledger.LedgerIsExact | sig-scheduler-plugins/pkg/fluence/core/flux.go:72-93 | with no failed cancel, a job is live if and only if it is mapped or in flight |
| Ledger.StraysAreDropped | sig-scheduler-plugins/pkg/fluence/core/flux.go:89-93 | in every run the live jobs nobody knows are exactly those that a write dropped from the map, one for each write that found its group there |
| Ledger.LedgerExactlyWhenNoOverwrite | sig-scheduler-plugins/pkg/fluence/core/flux.go:27-93 | every live job is mapped or in flight if and only if no write found its group already in the map |
| Ledger.FreedCoresComeBack | sig-scheduler-plugins/pkg/fluence/core/flux.go:39-43 | once the old job is cancelled, its cores can be given to the new match |
| Ledger.FailedCancelLeaks | sig-scheduler-plugins/pkg/fluence/core/flux.go:39-93 | a run in which one failed cancel and the write after it leave exactly one live job that nobody knows |
| Ledger.EventFreesExactly | sig-scheduler-plugins/pkg/fluence/core/flux.go:166-255 | in every reachable state a pod event takes a group's job from the map if and only if the PodGroup is found, the pod carries the group's label, it now succeeded or failed, or was deleted while pending or running, and the cancel is accepted |
| Ledger.OtherEventsDoNothing | sig-scheduler-plugins/pkg/fluence/core/flux.go:181-255 | updates to pending, running or unknown, and deletions of a succeeded, failed or unknown pod, change nothing |
| Ledger.AdmissionWindows | sig-scheduler-plugins/pkg/fluence/core/core.go:293-330 | a group's successful matches are at most one more than the removals of its permitted entry, and exactly those plus the standing entry between cycles |
| Ledger.PermittedChangesExactly | sig-scheduler-plugins/pkg/fluence/core/core.go:330-379 | a group is permitted after a step if and only if it was and the step did not delete or expire its entry, or the step admits it; without its entry it can be asked for again |
| Ledger.OrphanEventsDoNothing | sig-scheduler-plugins/pkg/fluence/core/flux.go:166-255 | in every reachable state, events of a pod whose PodGroup is gone leave the ledger as it is |
| Manager.PodGroupManager.CancelFluxJob | sig-scheduler-plugins/pkg/fluence/core/flux.go:99-139 | forgets the job exactly when there is one and the cancel was accepted; an error exactly when a call failed |
| Manager.PodGroupManager.UpdatePod | sig-scheduler-plugins/pkg/fluence/core/flux.go:160-218 | frees the group's job, and drops the cleaned pods, exactly for a pod that succeeded or failed with a known job and an accepted cancel; takes the ledger's informer step |
| Manager.PodGroupManager.DeletePod | sig-scheduler-plugins/pkg/fluence/core/flux.go:221-257 | the same for a pod deleted while pending or running; a deleted pod that had succeeded frees nothing |
| Manager.PodGroupManager.AskFlux | sig-scheduler-plugins/pkg/fluence/core/flux.go:20-95 | takes the ledger's steps in order, with any pod events in between, and returns the match's nodes or its error; on success the group has the new job, which may reuse the cores of the one just cancelled |
| Manager.PodGroupManager.PreFilter | sig-scheduler-plugins/pkg/fluence/core/core.go:246-332 | too few pods: an error; already admitted: nothing; otherwise one question, and on an answer the nodes are written and the group admitted; with no pod event in between, a job backs them if and only if the sizes agree or the cancel was not accepted |
| Manager.PodGroupManager.AssignNodes | sig-scheduler-plugins/pkg/fluence/core/core.go:321-329 | writes the nodes to the pods in list order |
| Manager.PodGroupManager.FindNode | sig-scheduler-plugins/pkg/fluence/fluence.go:222-248 | a pod with a node skips the question and changes nothing; otherwise, once the group is answered, the pod at position i (names being distinct) is sent to node i; a pod of a group already admitted, or one beyond the nodes when nothing came in between, is sent to no node |
| Manager.PodGroupManager.DeletePermittedPodGroup | sig-scheduler-plugins/pkg/fluence/core/core.go:377-379 | takes the group, and nothing else, from the permitted ones |
| EndToEnd.NeverOvercommitted | src/fluence/utils/utils.go:170-224 | the capacity promise in every state any interleaving reaches |
| EndToEnd.PromiseIsSharp | src/fluence/utils/utils.go:219-224 | for every node with free cores some run meets the conditions of that promise and leaves less than one core of the node unpromised |
| EndToEnd.AnswerNodesDiffer | src/fluence/utils/utils.go:285-301 | the nodes read off any job's cores in the graph are distinct |
| EndToEnd.AdmitGroup | sig-scheduler-plugins/pkg/fluence/core/core.go:299-330 | fed by the answer read off a job that holds MinMember slots of the graph, the group keeps its job if and only if it has MinMember pods and every node got one slot; then its pods (of distinct names) have distinct nodes |
| EndToEnd.PlacedWithoutBacking | sig-scheduler-plugins/pkg/fluence/core/core.go:310-330 | two groups admitted in turn, the first with its job cancelled, have pods on one node that ask for more than is free there |
| Gang.CalculateAssignedPods | sig-scheduler-plugins/pkg/fluence/core/core.go:358-374 | the nested loops compute the count over all node infos |
| Gang.CountIsGroupSize | sig-scheduler-plugins/pkg/fluence/core/core.go:358-374 | that count is the number of the group's pods in the snapshot |
| Gang.GangGate.PermitPod | sig-scheduler-plugins/pkg/fluence/fluence.go:298-340 | releases the pod and all waiting pods of its group if the snapshot's count suffices, else makes it wait; the other answers for no group and for an unknown one |
| Gang.GangGate.PostFilterPod | sig-scheduler-plugins/pkg/fluence/fluence.go:251-295 | rejects the group's waiting pods unless enough are assigned |
| Gang.GangGate.UnreservePod | sig-scheduler-plugins/pkg/fluence/fluence.go:348-360 | rejects the waiting pods of a known group |
| Gang.GroupIsTurnedAway | sig-scheduler-plugins/pkg/fluence/fluence.go:276-360 | Unreserve of a pod of a known group, also after a Permit that came to nothing, and PostFilter with fewer than MinMember assigned reject exactly the waiting pods of the group and move nobody else |
| Gang.NobodyIsTurnedAway | sig-scheduler-plugins/pkg/fluence/fluence.go:258-360 | PostFilter with MinMember assigned moves nobody, and without a group neither do PostFilter and Unreserve |
| Gang.OnePodMoves | sig-scheduler-plugins/pkg/fluence/fluence.go:298-340 | in every reachable state the timeout given with Wait rejects that one waiting pod, and forgetting a pod concerns it alone |
| Gang.PermitMovesExactly | sig-scheduler-plugins/pkg/fluence/fluence.go:298-340 | which pods are released and which wait after Permit: a pod without a group is released, one whose PodGroup is missing is neither, one of too few waits, one that makes up MinMember is released with the waiting pods of its group and no others |
| Gang.WaitingIsBelowMinMember | sig-scheduler-plugins/pkg/fluence/core/core.go:220-239 | in every reachable state a group with a waiting pod has fewer than MinMember assigned pods |
| Gang.ReleasedWithQuorum | sig-scheduler-plugins/pkg/fluence/fluence.go:326-337 | in any run a grouped pod is released only at Permit, with at least MinMember of its group, itself included, assigned in the cycle's snapshot |
| Gang.SnapshotSplits | sig-scheduler-plugins/pkg/fluence/core/core.go:358-374 | during a cycle the snapshot consists of the pods assigned now and those forgotten since the cycle began |
| Gang.ReleaseIsFullGangExactly | sig-scheduler-plugins/pkg/fluence/core/core.go:220-225 | a release leaves MinMember released pods if and only if the group's rejected pods still in the cache and those forgotten during the cycle are within the snapshot's surplus; without surplus, if and only if there are none of either |
| Gang.EnoughCyclesReleaseAll | sig-scheduler-plugins/pkg/fluence/fluence.go:298-340 | enough uninterrupted cycles of distinct pods to make up MinMember release them and everyone who waited |
| Gang.StaleCountBreaksGang | sig-scheduler-plugins/pkg/fluence/core/core.go:220-225 | a run in which a rejected pod is still counted and its sibling is released alone |
| Queue.LessIsStrictTotalOrder | sig-scheduler-plugins/pkg/fluence/fluence.go:185-210 | irreflexive, asymmetric, transitive, and total on distinct namespaced names |
| Queue.SortedReads | sig-scheduler-plugins/pkg/fluence/fluence.go:185-210 | along a sorted queue priorities never rise, within a priority times never fall (the PodGroup's start time if set, else the pod's first attempt), and within a time names ascend |
| Queue.SqueezedBetween | sig-scheduler-plugins/pkg/fluence/fluence.go:185-210 | what stands between two pods of a group has their priority, their time and a name between theirs |
| Queue.ContiguousExactly | sig-scheduler-plugins/pkg/fluence/fluence.go:185-210 | all pods between two of a group are of the group if and only if no queued outsider has their priority and time and a name between theirs |
| Queue.GroupsAreContiguous | sig-scheduler-plugins/pkg/fluence/group/group.go:34-50 | pods sharing priority and group are contiguous when no other pod has that priority and time |
| Queue.EqualTimesInterleave | sig-scheduler-plugins/pkg/fluence/fluence.go:205-207 | two groups of the same microsecond can interleave |
| Controller.GetCurrentPodStats | sig-scheduler-plugins/pkg/controllers/podgroup_controller.go:325-347 | the numbers of running, succeeded and failed pods |
| Controller.PodGroup.UpdateStatus | sig-scheduler-plugins/pkg/controllers/podgroup_controller.go:175-248 | the overlapping assignments come to one order of precedence: Finished, Failed, Running, Scheduling; exactly the terminal phases delete the group; counters change only when enough pods are listed |
| Controller.PodGroup.UpdatePodGroupSize | sig-scheduler-plugins/pkg/controllers/podgroup_controller.go:297-321 | MinMember is the first pod's size label if it parses, else the number of pods |
| Controller.PodGroup.SetTimeCreated | sig-scheduler-plugins/pkg/controllers/podgroup_controller.go:143-173 | the creation time is the first pod's label if it parses, else the time of the call |
| Controller.PodGroup.Reconcile | sig-scheduler-plugins/pkg/controllers/podgroup_controller.go:66-141 | stops for terminal and expired groups, then sets time, size and status, one a call |
| Controller.StopsExactly | sig-scheduler-plugins/pkg/controllers/podgroup_controller.go:85-103 | a call stops, changing nothing, if and only if the group is terminal, or Scheduling or Pending for two days without a running pod; it deletes exactly a group that has just become terminal |
| Controller.FirstCallsSet | sig-scheduler-plugins/pkg/controllers/podgroup_controller.go:113-173 | the first call sets the time on the first pod's label or its own; the second the size printed on the first pod, or the number of pods if the label is missing or no number |
| Controller.CountersRefreshExactly | sig-scheduler-plugins/pkg/controllers/podgroup_controller.go:185-232 | the counters become the numbers of pods except before Scheduling and while pods are missing; time and size stay |
| Controller.PhaseConfluence | sig-scheduler-plugins/pkg/controllers/podgroup_controller.go:185-232 | from every phase that is not terminal, three or more steps end in one phase fixed by the pods and MinMember, with the exact condition for each of the five |
| Controller.RunningNeverRegresses | sig-scheduler-plugins/pkg/controllers/podgroup_controller.go:194-232 | while pods only move forward and none disappear, a Running group is only Running, Failed or Finished ever after |
| Controller.DeletedAfterCallsLeft | sig-scheduler-plugins/pkg/controllers/podgroup_controller.go:87-248 | with all pods succeeded, each call requeues and lowers the measure by one, until the last deletes the group as Finished |
| Controller.FreshGroupFinishesInFive | sig-scheduler-plugins/pkg/controllers/podgroup_controller.go:87-248 | a fresh group is deleted by its fifth reconcile |
| Controller.SizeZeroLoopsExactly | sig-scheduler-plugins/pkg/controllers/podgroup_controller.go:129-131 | the group is requeued unchanged forever if and only if the size reads as 0 |
| Controller.UnearnedFinishExactly | sig-scheduler-plugins/pkg/controllers/podgroup_controller.go:226-228 | with no pod succeeded the phase settles at Finished if and only if MinMember is not positive |
| Controller.FinishedUnearnedExactly | sig-scheduler-plugins/pkg/controllers/podgroup_controller.go:297-316 | with no pod succeeded, a fresh group is ever declared Finished if and only if its size reads as negative |
| Controller.NegativeSizeFinishes | sig-scheduler-plugins/pkg/controllers/podgroup_controller.go:226-248 | with a negative size the fifth reconcile of a fresh group deletes it as Finished whatever its pods do |
| Controller.LabelMinusThree | sig-scheduler-plugins/pkg/controllers/podgroup_controller.go:303-311 | so does the size label "-3" on a group whose one pod is pending |
| Webhook.Job.EnsureGroupOnJob | sig-scheduler-plugins/apis/scheduling/v1alpha1/podgroup_webhook.go:224-251 | the template ends with a group name and a size, each the Job's, else its own, else the default name or the printed parallelism (1 for 0); nothing else changes |
| Webhook.Pod.EnsureGroup | sig-scheduler-plugins/apis/scheduling/v1alpha1/podgroup_webhook.go:182-205 | a missing group name and a missing size are filled in, labels already there are kept |
| Webhook.TemplateSizeLabel | sig-scheduler-plugins/apis/scheduling/v1alpha1/podgroup_webhook.go:209-249 | the size label is the Job's, else the template's, else the printed parallelism |
| Webhook.TemplateOtherLabels | sig-scheduler-plugins/apis/scheduling/v1alpha1/podgroup_webhook.go:209-249 | all other labels are kept, and the group name is the Job's, else the template's, else made from namespace and name |
| Webhook.PodHookLeavesTemplate | sig-scheduler-plugins/apis/scheduling/v1alpha1/podgroup_webhook.go:182-205 | a pod carrying the template's labels passes the pod hook unchanged |
| Webhook.PodLabelsFilledIn | sig-scheduler-plugins/apis/scheduling/v1alpha1/podgroup_webhook.go:190-204 | each of the two labels a pod lacks is filled in on its own, the name made from the pod's and the size 1; all labels already there are kept and no other is added |
| Webhook.SizeReachesMinMember | sig-scheduler-plugins/apis/scheduling/v1alpha1/podgroup_webhook.go:242-249 | the second reconcile sets MinMember to max(1, parallelism), or to a size label that parses, the Job's winning |
| Webhook.BarePodIsGroupOfOne | sig-scheduler-plugins/apis/scheduling/v1alpha1/podgroup_webhook.go:198-204 | the second reconcile sets the MinMember of a bare pod's group to 1, or to the pod's size label if that parses |

## Left out

- Connections, timeouts and servers, JSON and YAML encoding, file writing and logging: only their results appear, as parameters.
- Fluxion's matching and its policies: a foreign library, here only the assumptions above.
- Path cleaning of containment paths: without effect on the plain segments of the model, all of which end in a digit.
- Widths of int64 counters, sums and memory sizes, and of the int32 pod counters: unbounded here; int32 is modelled where a sum or product of requests can reach it (cpu sums, core counts, tasks, the parsed size).
- Quantities finer than a thousandth of a unit.
- Which pods a cleanup removes from the node lookup: any set, because the selector is built from the namespaced group name while labels hold the bare one.
- Wall-clock expiry of permitted entries, waiting pods and groups: explicit steps or a flag; the backoff is inert at its default of 0.
- Manager.PodGroupManager.PreFilter: models a pod whose PodGroup exists; without one the source returns at once. Pod events during its assignment loop are not modelled, as they do not touch what the loop's result says of the ledger.
- Manager.PodGroupManager.FindNode: the same; pod events between its first lookup and PreFilter count as before the call.
- Controller.FRESH: a new PodGroup starts with MinMember 0, although `sig-scheduler-plugins/pkg/controllers/podgroup_controller.go:268` sends the parsed size: the source notes that it does not stick, and sets it in a reconcile of its own.
- Gang.GangGate.PermitPod: allowing the waiting pods of a group is one step; a timeout that races with the iteration counts as before or after it. Activating siblings is left out.
- The plugin's Filter, the waiting time, the recreation and deletion of PodGroup objects on pod events, owner references and RegisterExisting: one-branch readings or unused code.
- The StatefulSet, ReplicaSet and Deployment hooks: repeats of the Job hook with less branching.
- Experiment scripts, charts and manifests.
