# The fractional-GPU allocator of faas-share, in Dafny

faas-share (built on KubeShare) lets several pods share one GPU. This project models the path a pod
takes from the scheduler's search to the process that serves it, and proves what each part keeps and
how the parts agree. `dafny verify dfyconfig.toml` checks all of it.

| part | files |
|---|---|
| port allocator: 64-bit words, growable bitmap, round-robin cursor | `Words`, `Bitmap64`, `RRBitmap` |
| GPU pool of the device manager: register, release, bind, rebuild, clean | `GpuPool`, `PortUse`, `FullPool`, `Rebuild`, `RebuildDevices`, `PoolRuns`, `PoolQueue`, `PoolObjects` |
| scheduler: accounting, tag filters, best-fit search, closed loop | `Accounting`, `AccountingOrder`, `Filters`, `BestFit`, `Cluster`, `Executions`, `Placement`, `Isolation`, `GpuMemory`, `ClusterRuns`, `Witnesses`, `CompiledLoop`, `SchedulerObjects` |
| scheduler and pool together | `Agreement`, `JointRuns`, `StaleRequest` |
| work queue, workers and pending list | `WorkQueue`, `PendingProtocol`, `ControllerObject`, `Binding` |
| hellos and configuration between a node and the device manager, and the launcher that reconciles processes with it | `Text`, `Hello`, `Wire`, `Launcher`, `Delivery` |
| secrets of a function's deployment | `Secrets`, `SecretsProgram` |
| shared helpers | `Options`, `Counting`, `Sums`, `Reachability` |

Code that updates objects in place is a class whose methods are proved against functions on values;
the theorems are about those functions and about every run of them. A scheduling call carries all of
its nondeterminism (list order, map iteration orders, goroutine interleaving, the id drawn for a new
GPU) as a value, and the theorems hold for each.

Eight places where the program does not do what its comments or names say are modelled as the code
does them, with an input on which the intended property fails and the exact condition under which it
holds:

- Error code 3, "Pod manager port pool is full", is never answered: -1 is compared after 50050 has
  been added. A full pool hands out port 50049, again and again (`PortUse.RegisterPorts`,
  `PoolRuns.RunsKeepPortsExact`, `FullPool.PortsRunOut`).
- `GPUExclusionFilter` leaves its loop at the first untagged GPU and keeps the GPUs it has not met
  (`Filters.ExclusionFilterExact`, `Isolation.IsolationFailsExactly`,
  `ClusterRuns.RunsStayIsolatedExactly`, `Witnesses.BreakMixesTags`).
- A new GPU is offered without looking at GPU memory (`GpuMemory.GpuMemFailsExactly`,
  `ClusterRuns.RunsKeepGpuMemExactly`, `Witnesses.NewGpuOverrunsMemory`).
- The scheduler watches no pod updates: a pod that gets its annotation after it was dropped is
  forgotten (`PendingProtocol.NothingIsLost`, `PendingProtocol.LateAnnotationIsForgotten`).
- A pod that goes away while its Deployment stays, as on scale-down, leaves its request in the pool,
  while the scheduler counts its room as free: the pool can then refuse a pod that was placed there
  (`JointRuns.RefusedExactly`, `JointRuns.RefusedOnlyForStale`, `StaleRequest.DeletedPodBlocksPlaced`).
- A handling that ends well without asking for a request again, as for pods that carry a GPUID, gives
  it up, also when its GPU is bound by then (`PoolQueue.NoneStrandedExactly`,
  `PoolQueue.HandlingCanGiveUp`).
- The GPU branch of `syncPodResources` is dead: an earlier test skips every pod with a GPU request
  (`Accounting.CompiledSeesNoGpu`, `CompiledLoop.CompiledAgreesExactly`,
  `CompiledLoop.CompiledNeverFills`). The theorems about the closed loop are about that branch as its
  text and the commented loop after it do the accounting: CPU and memory charged once, finished pods
  skipped. `Accounting.Step` is that accounting, `Accounting.CompiledStep` the loop as compiled.
- `ReadFunctionSecretsSpec` is called the inverse of `ConfigureSecrets`; it also returns the pull
  secrets that were there before (`Secrets.InverseWithoutPriorPullSecrets`).

## Model

| member | source | states |
|---|---|---|
| Words.TestBit | pkg/lib/bitmap/bitmap.go:33 | The mask-and-compare expression is true exactly when that bit of the word is set. |
| Words.SetBit | pkg/lib/bitmap/bitmap.go:41 | Or with the shifted flag sets that bit and leaves every other one. |
| Words.ClearBit | pkg/lib/bitmap/bitmap.go:46 | And with the complemented flag clears that bit and leaves every other one. |
| Bitmap64s.WriteWord | pkg/lib/bitmap/bitmap.go:36-47 | Writing one word adds or removes exactly the addressed member of the whole bitmap's set; positions -63..-1 change nothing. |
| Bitmap64s.Bitmap64.SkippedWord | pkg/lib/bitmap/bitmap.go:17 | A word is all ones exactly when its 64 positions are masked, so the word skip misses no free bit. |
| Bitmap64s.Bitmap64.FindNextAndSet | pkg/lib/bitmap/bitmap.go:15-29 | Returns the least natural not in the set, adds it and nothing else. |
| Bitmap64s.Bitmap64.IsMasked | pkg/lib/bitmap/bitmap.go:31-34 | Membership in the set, also beyond the allocated words and for negative positions. |
| Bitmap64s.Bitmap64.Mask | pkg/lib/bitmap/bitmap.go:36-42 | Adds exactly one member, even while words are allocated up to it. |
| Bitmap64s.Bitmap64.Unmask | pkg/lib/bitmap/bitmap.go:44-47 | Removes exactly one member within the allocated words. |
| Bitmap64s.Bitmap64.Clear | pkg/lib/bitmap/bitmap.go:49-51 | Leaves the empty set and no words. |
| RoundRobin.NextIsNearestFree | pkg/lib/bitmap/rrbitmap.go:17-30 | The index handed out is the free one nearest to the cursor in cyclic order; -1 exactly when all are masked; only that index is added and the cursor stays in range. |
| RoundRobin.TravelTurns | pkg/lib/bitmap/rrbitmap.go:17-30 | Over any run the cursor is its start plus the distance travelled, less whole turns. |
| RoundRobin.ReissueTakesWholeTurns | pkg/lib/bitmap/rrbitmap.go:17-43 | Between two issues of one index, whatever is masked or unmasked in between, the cursor makes whole turns of the ring, at least one. |
| RRBitmaps.RRBitmap.FindNextFromCurrentAndSet | pkg/lib/bitmap/rrbitmap.go:17-30 | The scanning loop refines the nearest-free choice: same index, same set, same cursor. |
| RRBitmaps.RRBitmap.Mask | pkg/lib/bitmap/rrbitmap.go:37-39 | Adds one index and leaves the cursor. |
| RRBitmaps.RRBitmap.Unmask | pkg/lib/bitmap/rrbitmap.go:41-43 | Frees one index and leaves the cursor. |
| RRBitmaps.RRBitmap.Clear | pkg/lib/bitmap/rrbitmap.go:32-35 | Frees everything and resets the cursor. |
| GpuPool.Register | pkg/devicemanager/gpupool.go:269-338 | One register call on a known node; its code is 0, 1 or 2, never the documented 3. |
| GpuPool.RefusedOnlyPastOne | pkg/devicemanager/gpupool.go:305-311 | Code 2 exactly for a new key on a GPU in use whose total would pass 1. |
| GpuPool.RegisterAddsExactly | pkg/devicemanager/gpupool.go:273-328 | An accepted request is listed last, under the port answered, and charged to its GPU; every other GPU, the devices and the other fields stay. |
| GpuPool.RegisterElseNothing | pkg/devicemanager/gpupool.go:300-320 | Any other call changes nothing: it repeats the port of the listed request, or answers code 2 without UUID, port or message. |
| GpuPool.AnswerTellsUuid | pkg/devicemanager/gpupool.go:322-337 | Code 0 comes with the UUID of the GPU, which is not empty; code 1 only while it is empty. |
| GpuPool.RegisterBalances | pkg/devicemanager/gpupool.go:281-335 | Register keeps usage and memory equal to the sums over the listed requests, with usage at most 1. |
| GpuPool.ReleaseBalances | pkg/devicemanager/gpupool.go:484-504 | Release keeps the same sums and never leaves a GPU without requests. |
| GpuPool.ReleaseRemovesExactly | pkg/devicemanager/gpupool.go:475-510 | A listed request leaves its list and its totals, a GPU left without requests is deleted, and nothing else changes. |
| GpuPool.ReleaseElseNothing | pkg/devicemanager/gpupool.go:475-510 | The release of a request that is not listed changes nothing and sends nothing. |
| GpuPool.BindBalances | pkg/devicemanager/gpupool.go:446-456 | Binding a UUID keeps the same sums. |
| GpuPool.RegisterIsIdempotent | pkg/devicemanager/gpupool.go:253-260 | Repeating a call that was not refused, with any request, changes nothing and repeats code, UUID and port. |
| GpuPool.ReleaseUndoesRegister | pkg/devicemanager/gpupool.go:281-328 | Releasing a newly registered key restores the masked set always, and every GPU entry exactly when the GPU had none or a non-empty one before. |
| PortUse.RegisterPorts | pkg/devicemanager/gpupool.go:288-300 | Register keeps live ports distinct, in 50051..50561 and equal to the masked indices exactly when it adds no request or fewer than 511 are live. |
| PortUse.PoolFullAt511 | pkg/devicemanager/config.go:129-130 | With exact ports there are at most 511 live requests, and the search for an index fails exactly at 511. |
| PortUse.MaskedCount | pkg/devicemanager/gpupool.go:197 | There is one masked index for each live request, besides the reserved one. |
| PortUse.ReleasePorts | pkg/devicemanager/gpupool.go:487-504 | Release of a listed key frees its port and no other and keeps the ports exact; release of another key changes nothing. |
| PortUse.BindAndCleanPorts | pkg/devicemanager/gpupool.go:239-251 | Binding and cleaning keep the ports exact. |
| PortUse.FullPoolSharesAPort | pkg/devicemanager/gpupool.go:288-292 | On any node with exact ports and 511 live requests two new keys in a row both get port 50049, with codes 0 or 1. |
| FullPool.FillsExactly | pkg/devicemanager/gpupool.go:281-328 | From a new node each of the first 511 new keys is accepted and keeps the ports exact. |
| FullPool.PortsRunOut | pkg/devicemanager/gpupool.go:288-292 | So a node does fill: after 511 calls the next two share port 50049, and the ports are no longer exact. |
| PortUse.NewNodeExact | pkg/devicemanager/config.go:128-136 | A new node, with index 0 reserved, has exact ports. |
| Rebuild.InitNodesInfo | pkg/devicemanager/gpupool.go:82-236 | The two loops compute the rebuilt table, the keys put back on the queue and the dummy pods to create, or panic; after a failed listing the table so far stays and no dummy pod is created. |
| Rebuild.ReadReplicaExactly | pkg/devicemanager/gpupool.go:150-175 | The checks in sequence let through exactly the scheduled replicas with a GPUID and three numbers, 0 <= request <= limit <= 1, and read each field into its place. |
| Rebuild.DummiesMakeEntries | pkg/devicemanager/gpupool.go:82-117 | A GPU has an entry exactly when a dummy pod on its node names it, or it had one before. |
| Rebuild.RestartKeepsDevices | pkg/devicemanager/gpupool.go:82-117 | After a restart there are the nodes that said hello, with the devices they said, and those that a dummy pod names, with none. |
| RebuildDevices.RebuildDevicesExactly | pkg/devicemanager/gpupool.go:199-235 | Each GPU gets the UUID of the first replica that tells one; the keys put back are those of the replicas that wait for a GPU told before them, in order; dummy pods are to be created for the GPUs not told when a replica waited for them. |
| RebuildDevices.WaitingIsAskedFor | pkg/devicemanager/gpupool.go:216-231 | A waiting GPU of unknown UUID gets a dummy pod, unless one of that GPUID is listed for the pod's own node. |
| RebuildDevices.AskedForWaits | pkg/devicemanager/gpupool.go:216-235 | Only GPUs that a replica waits for get one, and one each where pods run on their SharePod's node. |
| Rebuild.RebuildLists | pkg/devicemanager/gpupool.go:125-197 | After a rebuild each GPU lists exactly the valid replicas that name it, in order, with matching totals, and the masked indices are the reserved and the persisted ones. |
| Rebuild.RebuildPanics | pkg/devicemanager/gpupool.go:177-209 | The rebuild panics exactly when a counted replica has a port below 49987 or a container without environment. |
| Rebuild.RebuildBalances | pkg/devicemanager/gpupool.go:187-195 | Rebuilding and cleaning puts a node in balance exactly when the persisted requests of each GPU sum to at most 1. |
| Rebuild.RebuildPorts | pkg/devicemanager/gpupool.go:197 | Its ports are exact exactly when the persisted ones are distinct and in range. |
| Rebuild.RestartTheorem | pkg/devicemanager/gpupool.go:60-251 | All of this for every node after initNodesInfo and cleanOrphanDummyPod; a GPU remains, with all it has, exactly when some replica is listed on it. |
| PoolRuns.RunsStayBalanced | pkg/devicemanager/gpupool.go:269-519 | Over every run of hellos, registers, releases and binds, all sums match, usage is at most 1 and no GPU is empty. |
| PoolRuns.RunsKeepPortsExact | pkg/devicemanager/gpupool.go:269-519 | Ports are exact in every state of a run exactly when no request is ever added to a node that has 511. |
| PoolRuns.RestartThenRun | pkg/devicemanager/gpupool.go:60-251 | A restart that fits what was persisted starts runs that all stay in balance. |
| Hello.ReadDevices | pkg/devicemanager/config.go:111-125 | The loop over the parts of a device list builds the memory and port tables, or panics. |
| Hello.PanicsExactly | pkg/devicemanager/config.go:118-121 | It panics exactly when a part that is not empty has no colon. |
| Hello.HelloReadBack | pkg/configclient/config-client.go:62-82 | What a config client prints of its devices is read back: each UUID with its memory and, in order, a port from 50051 on; the node then knows just these. |
| PoolRuns.HelloKnowsDevices | pkg/devicemanager/config.go:127-141 | A first hello makes a node with just the announced devices, no GPU and index 0 reserved; a later one replaces only the devices. |
| PoolRuns.DevicesAreThoseSaidLast | pkg/devicemanager/config.go:127-141 | Over every run a node exists exactly when it said hello, and knows the devices it said last. |
| PoolRuns.BindExactly | pkg/devicemanager/gpupool.go:430-456 | An unknown UUID changes nothing; a known one sets the UUID of this GPU only, and puts the keys listed back in order. |
| PoolRuns.SaidDeviceBinds | pkg/devicemanager/gpupool.go:430-456 | Over every run: a dummy pod that reports a device its node said last binds the GPU and puts back the key of each of its requests. |
| PoolRuns.BindRequeuesEveryRequest | pkg/devicemanager/gpupool.go:446-456 | Right after a UUID is bound every request listed on the GPU is queued or being processed. |
| PoolQueue.StepStrandsExactly | pkg/devicemanager/gpupool.go:329-334 | A pool event or queue step leaves a request waiting on a bound GPU with its key not coming back exactly when it ends a handling, without error, that did not ask for it. |
| PoolQueue.NoneStrandedExactly | pkg/devicemanager/gpupool.go:446-456 | In every state of a run each request last answered with code 1 whose GPU has a UUID by now is queued, delayed or still to be asked for by its handler, exactly when no handling of the run gives one up. |
| PoolQueue.HandlingCanGiveUp | pkg/devicemanager/controller.go:347-350 | Taking a key and handling it without asking again strands its waiting request on a bound GPU. |
| PoolQueue.QuietMeansServed | pkg/devicemanager/gpupool.go:446-456 | Without such a handling, an idle queue means that nobody waits on a GPU whose UUID is known. |
| PoolObjects.FindInQueue | pkg/devicemanager/gpupool.go:253-260 | Finds the first request of the key, and nothing exactly when there is none. |
| PoolObjects.NodeInfo.GetPhysicalGPUuuid | pkg/devicemanager/gpupool.go:281-335 | The method on the mutable node does exactly what Register says, to the state, the answer and the config sent. |
| PoolObjects.NodeInfo.RemovePod | pkg/devicemanager/gpupool.go:484-514 | The loop that removes from the list it walks does exactly what Release says. |
| PoolObjects.NodeInfo.SetUUID | pkg/devicemanager/gpupool.go:430-456 | Binds the GPU and re-queues its keys in list order; an unknown UUID changes nothing. |
| PoolObjects.NodeInfo.CleanOrphans | pkg/devicemanager/gpupool.go:239-251 | Deleting while walking the map, in any order, removes exactly the GPUs without requests. |
| PoolObjects.DeviceManager.Attach | pkg/devicemanager/config.go:127-141 | A first hello creates the node with index 0 reserved; a later one only replaces its UUIDs; other nodes keep their state. |
| PoolObjects.DeviceManager.GetPhysicalGPUuuid | pkg/devicemanager/gpupool.go:269-338 | Code 255 for an unknown node; otherwise that node registers and no other node changes. |
| PoolObjects.DeviceManager.RemovePod | pkg/devicemanager/gpupool.go:482-516 | That node releases and no other node changes. |
| Accounting.AccountsConserved | pkg/scheduler/sync_resources.go:96-173 | After any pods: CPU and memory free plus charged are constant, and free GPUs plus opened GPUs plus whole GPUs charged are constant. |
| Accounting.ReadAskExactly | pkg/scheduler/sync_resources.go:70-83 | The checks let through exactly the pods with three numbers, 0 <= request <= limit <= 1 and memory >= 0, and read the request, not the limit. |
| Accounting.ClosedForm | pkg/scheduler/sync_resources.go:50-173 | The row can be read off the annotations (sums of rounded requests and of memory, each tag of a pod on the GPU once) exactly when no charge was passed over. |
| Accounting.SufficeCounts | pkg/scheduler/sync_resources.go:98-114 | No charge is passed over when GPUIDs in use plus whole GPUs are no more than the node has. |
| Accounting.CompiledSeesNoGpu | pkg/scheduler/sync_resources.go:36-39 | The loop as compiled never records a GPU in use. |
| AccountingOrder.OrderDoesNotMatter | pkg/scheduler/sync_resources.go:20-174 | Two orders of the pods in neither of which a charge is passed over give the same row up to tag order. |
| AccountingOrder.EveryOrderCountsEveryGpu | pkg/scheduler/sync_resources.go:97-118 | Every order accounts for every GPUID in use exactly when none is in use or GPUIDs plus whole GPUs are no more than the node has. |
| CompiledLoop.CompiledIgnoresGpuPods | pkg/scheduler/sync_resources.go:36-39 | A list of GPU pods leaves the row of an empty node. |
| CompiledLoop.CompiledCharges | pkg/scheduler/sync_resources.go:36-173 | The compiled row read off the pods: those with a request are charged nothing, owned ones without a request may be charged twice. |
| CompiledLoop.OpensNothingExactly | pkg/scheduler/sync_resources.go:97-118 | The accounting opens no GPU exactly when no pod that shares one finds one free: whole-GPU pods listed before it have taken them all, or there is none. |
| CompiledLoop.CompiledAgreesExactly | pkg/scheduler/sync_resources.go:36-173 | The whole compiled row is the accounting's exactly when no pod that shares a GPU finds one free and the charged CPU, memory and GPUs add up to the same. |
| CompiledLoop.CompiledNeverFills | pkg/scheduler/scheduler.go:57-88 | As compiled, after any number of pods that each took a whole GPU of a one-GPU node, every search over it ends with yet another new GPU. |
| Filters.ExclusionFilterExact | pkg/scheduler/filters.go:37-57 | The filter keeps exactly the GPUs with the pod's tag (or none for none), in every iteration order, exactly when the pod has no tag or the node does not mix an untagged GPU with another one to drop. |
| Filters.LoopKeepsWanted | pkg/scheduler/filters.go:42-56 | Whatever the order, no GPU the pod may share is dropped. |
| Filters.ExclusionFilterLeaks | pkg/scheduler/filters.go:44-47 | A concrete node on which a GPU with another tag survives. |
| BestFit.OffersAre | pkg/scheduler/scheduler.go:57-80 | A goroutine offers exactly its node's candidates, for every iteration order of the GPUs. |
| BestFit.JobIsTheAsk | pkg/scheduler/scheduler.go:47-53 | The search is for the sums over the containers, the memory asked for, and 1000 times the request rounded up. |
| BestFit.EveryInterleavingFindsTheBest | pkg/scheduler/scheduler.go:31-45 | Under every interleaving the result is the least of all offers and one of them; none is found exactly when no offer is below 2147483647. |
| BestFit.PreferringHolesLosesNothing | pkg/scheduler/scheduler.go:63-75 | Leaving out the new GPU on nodes with a hole does not change the least point. |
| BestFit.NewGpuOnlyWhenHolesAreWhole | pkg/scheduler/scheduler.go:63-75 | A new GPU is opened only when every fitting GPU in use still has 1000 thousandths. |
| Cluster.FoundIsBest | pkg/scheduler/scheduler.go:11-89 | A whole scheduling call finds a least candidate of its filtered table. |
| Cluster.SafeRows | pkg/scheduler/sync_resources.go:14-18 | In a safe state every quantity of every row is non-negative, and each GPU has 1000 less the sum of the rounded requests. |
| Cluster.PlacementIsSafe | pkg/scheduler/scheduler.go:57-80 | Placing the pod where any execution puts it keeps CPU, memory, GPU count and every GPU's thousandths within their totals. |
| Placement.TakesExactly | pkg/scheduler/filters.go:14-76 | Filters and search look for exactly the GPUs that have what the annotations ask for and whose tags let the pod in. |
| Placement.FoundExactly | pkg/scheduler/scheduler.go:57-80 | Unless the exclusion filter's break decides, a pod can be placed on a GPU in use exactly when that GPU takes it, tags and all, and no GPU that takes it, on any node, is a tighter fit. |
| Placement.PlaceableExactly | pkg/scheduler/scheduler.go:57-80 | It can then be placed at all exactly when some node has a GPU that takes it, or CPU, memory and a whole GPU free. |
| GpuMemory.PlacementGpuMem | pkg/scheduler/scheduler.go:65-75 | After a call GPU memory is within its total exactly when the pod joined a GPU in use or asks for no more than a whole one has. |
| GpuMemory.GpuMemFailsExactly | pkg/scheduler/scheduler.go:63-75 | Some possible call overcommits memory exactly when a node overruns: the pod asks for more than its GPUs have, it has one free, and on every node the filter can drop whatever would be preferred to a new GPU. |
| Isolation.PlacementIsolatedExactly | pkg/scheduler/filters.go:14-76 | After a call the pods on every GPU are compatible in their tags exactly when the GPU found carries the pod's exclusion tag and no other, or none for none, or is new. |
| Isolation.IsolationFailsExactly | pkg/scheduler/filters.go:37-57 | Some possible call puts two pods that may not share on one GPU exactly when a GPU slips: it has room but not the pod's tag, another untagged GPU can stop the filter before it, and no suitable GPU anywhere fits tighter. |
| ClusterRuns.EveryRunIsSafe | pkg/scheduler/controller.go:268-283 | Over every run of placements, ends and deletions nothing is overcommitted. |
| ClusterRuns.EndFreesExactly | pkg/scheduler/sync_resources.go:21-34 | A pod that ends or goes away gives back exactly its CPU, memory, whole GPUs, thousandths and GPU memory, on every node and GPU. |
| ClusterRuns.EveryRunIsIsolated | pkg/scheduler/filters.go:14-76 | Over every run in which no GPU slips, no GPU hosts two pods with one anti-affinity tag, two affinity tags or differing exclusion tags. |
| ClusterRuns.RunsStayIsolatedExactly | pkg/scheduler/filters.go:14-76 | For any set of pods that users may submit, every state that arises is isolated exactly when no GPU slips in any of them. |
| ClusterRuns.EveryRunKeepsGpuMem | pkg/scheduler/scheduler.go:63-75 | GPU memory stays within its total over every run of pods none of which asks for more than a whole GPU has. |
| ClusterRuns.RunsKeepGpuMemExactly | pkg/scheduler/scheduler.go:63-75 | For any set of pods, every state that arises keeps GPU memory within its total exactly when no node overruns in any of them. |
| Witnesses.BreakMixesTags | pkg/scheduler/filters.go:44-56 | From a safe and isolated two-GPU node a possible call puts two exclusion tags on one GPU. |
| Witnesses.NewGpuOverrunsMemory | pkg/scheduler/scheduler.go:71-75 | On an empty node whose GPU has no memory a possible call places a pod that asks for some. |
| SchedulerObjects.NodeResource.ChargePod | pkg/scheduler/sync_resources.go:50-173 | The in-place charge of one pod is the accounting step. |
| SchedulerObjects.NodeResource.FilterAffinity | pkg/scheduler/filters.go:14-35 | Deleting while iterating, in any order, keeps exactly the GPUs with the tag. |
| SchedulerObjects.NodeResource.FilterAntiAffinity | pkg/scheduler/filters.go:59-76 | Deleting while iterating, in any order, keeps exactly the GPUs without the tag. |
| SchedulerObjects.NodeResource.FilterExclusion | pkg/scheduler/filters.go:42-56 | The loop with its break, for some iteration order. |
| SchedulerObjects.NodeResource.ScheduleNode | pkg/scheduler/scheduler.go:57-80 | One node makes exactly its offers, one after the other, for some iteration order. |
| SchedulerObjects.BestNode.TryBestNode | pkg/scheduler/scheduler.go:37-45 | Keeps the earlier candidate on equal points. |
| SchedulerObjects.SyncPodResources | pkg/scheduler/sync_resources.go:21-34 | Charging the pods one by one leaves every row as the accounting function says; pods without a node, dummies and unknown nodes are passed over. |
| SchedulerObjects.SyncNodeResources | pkg/scheduler/sync_resources.go:310-379 | A row for exactly the nodes without a NoSchedule taint: total and free CPU, memory and GPUs as allocatable, GPU memory in bytes, no GPU in use. |
| SchedulerObjects.BadInfoCountsNothing | pkg/scheduler/sync_resources.go:334-357 | Without the annotation, or with a first entry that is not a pair with a number, no GPU memory is counted. |
| SchedulerObjects.GpuInfoReadBack | pkg/devicemanager/config.go:194-200 | The GPU memory the scheduler counts is 1048576 times the number of the device the device manager printed first. |
| Agreement.RoundingBound | pkg/scheduler/sync_resources.go:101 | The rounded thousandths of any requests are at least 1000 times their sum and less than one more for each. |
| Agreement.ThirdsRoundUp | pkg/scheduler/scheduler.go:53 | The gap is real: three thirds are a whole GPU for the pool and 1002 thousandths for the scheduler. |
| Agreement.FreeAgreesWithUsage | pkg/scheduler/sync_resources.go:96-118 | When both list the same n requests, 1000 times usage is at most 1000 less the free thousandths, which is less than 1000 times usage plus n. |
| Agreement.AcceptedIsNeverRefused | pkg/scheduler/scheduler.go:64-70 | A GPU on which the search finds room is not answered with code 2 by the pool, if the requests listed there are among those counted. |
| JointRuns.StepKeepsInvariant | pkg/devicemanager/gpupool.go:281-335 | Placements, registers, releases, binds and any ends of pods keep cluster and pool within bounds and list no key twice. |
| JointRuns.RegisteredIsListed | pkg/devicemanager/gpupool.go:300-326 | After its registration a pod is listed on its GPU exactly when it was listed before or its request was accepted. |
| JointRuns.ReleasedIsUnlisted | pkg/devicemanager/gpupool.go:482-504 | After its release it is not listed, whatever was listed before. |
| JointRuns.RefusedExactly | pkg/devicemanager/gpupool.go:305-311 | A placed pod is answered code 2 exactly when it is not listed and the requests of pods that are gone take more of its GPU than those of counted pods and its own leave; without such a request there is room. |
| JointRuns.RefusedOnlyForStale | pkg/devicemanager/gpupool.go:305-311 | Over every joint run, whatever pods end when, a placed pod is answered code 2 only if its GPU lists a request that no counted pod there matches. |
| StaleRequest.DeletedPodBlocksPlaced | pkg/devicemanager/controller.go:156-160 | A run that gets there: a listed pod is deleted, another is placed on the room it left, and the pool answers code 2. |
| JointRuns.StepKeepsMirror | pkg/devicemanager/gpupool.go:484-504 | While pods end only after their release, every request the pool lists is that of a counted pod. |
| JointRuns.PlacedIsNeverRefused | pkg/devicemanager/gpupool.go:305-311 | So over every joint run in which pods end only after their release, the pool never answers code 2 for a placed pod. |
| WorkQueue.AddAllConsistent | pkg/scheduler/controller.go:382-384 | Adding keys keeps the queue a set, each queued key once and never while a worker holds it, and adds exactly these, behind what is queued. |
| PendingProtocol.StepKeepsExactly | pkg/scheduler/controller.go:162-195 | A step of a worker, of the drain or of the cluster loses no waiting pod exactly when it is not an update that makes a pod wait whose key is covered nowhere. |
| PendingProtocol.StepFrame | pkg/scheduler/controller.go:162-289 | Of the handlers only a binding changes a pod, and only its own; the pending list grows at its end and is emptied only as a whole. |
| PendingProtocol.NothingIsLost | pkg/scheduler/controller.go:268-276 | In every state of an interleaving each unscheduled pod's key is announced, queued, delayed, in a worker's hands or pending, exactly when no update of it forgets a pod. |
| PendingProtocol.NothingIsLostFromStart | pkg/scheduler/controller.go:111-123 | From an empty cluster nothing is lost in any run whose updates make no pod wait. |
| PendingProtocol.QuietMeansPending | pkg/scheduler/controller.go:272-275 | Once nothing is queued or running, every waiting key is on the pending list. |
| PendingProtocol.ResourceChangedRequeues | pkg/scheduler/controller.go:379-387 | A drain empties the list and leaves every key of it queued or in a worker's hands. |
| PendingProtocol.LateAnnotationIsForgotten | pkg/scheduler/controller.go:116-119 | A run from the empty cluster that forgets a pod: added without the annotation, dropped, then annotated. |
| PendingProtocol.ForgottenStaysForgotten | pkg/scheduler/controller.go:111-123 | No step other than a change or deletion of that pod makes its key covered again. |
| PendingProtocol.SyncHandlerOutcomes | pkg/scheduler/controller.go:198-289 | A key is dropped exactly when its pod is not waiting, pended exactly when it waits and no node was found, and bound, to just the node and GPUID found, when one was and the patch succeeded. |
| PendingProtocol.OutcomesAreSteps | pkg/scheduler/controller.go:198-289 | Whatever the handler decides on the pod it read is a step of the protocol that can happen then. |
| Binding.FoundIsBound | pkg/scheduler/controller.go:268-330 | When a possible search finds a node and the patch succeeds, the step leaves the pod with exactly the node and GPUID found. |
| ControllerObject.Controller.ProcessNextWorkItem | pkg/scheduler/controller.go:162-196 | One turn handles the first key: pended keys are appended, failed ones delayed, and the key is neither dirty nor in processing afterwards. |
| ControllerObject.Controller.ResourceChanged | pkg/scheduler/controller.go:379-387 | All pending keys are added in order, and the list is empty. |
| Wire.SyncConfig | pkg/devicemanager/config.go:249-278 | The buffer loops print one line of three fields, also for a nil list. |
| Wire.WireRoundTrip | pkg/configclient/config-client.go:95-120 | For good keys and a UUID without a colon: print, split, count, replace and read gives back exactly the "key port" names in order and the right count. |
| Wire.ConfigFileReadBack | pkg/devicemanager/config.go:254-265 | The config file has its count first and then, for each request in order, a line of four words: key, printed request, printed limit, memory. |
| Wire.IgnoredExactly | pkg/configclient/config-client.go:95-101 | The config client ignores a line exactly when it has not two colons. |
| Wire.PortFileReadBack | docker/kubeshare-gemini-scheduler/launcher.py:34-43 | The reader recovers the names of any list from its port file. |
| Wire.ReadNamesExactly | docker/kubeshare-gemini-scheduler/launcher.py:41-43 | Of any file the reader takes, in order, the lines before the first that is missing or has not two words; it gets through exactly when all the announced ones are there. |
| Wire.NameDeterminesKeyAndPort | docker/kubeshare-gemini-scheduler/launcher.py:42-43 | Two names are equal exactly when keys and ports are. |
| Launcher.UpdateSound | docker/kubeshare-gemini-scheduler/launcher.py:33-64 | Whatever a call reads and wherever an exception ends it, started less killed is the table's size and no process has two names. |
| Launcher.UpdateReconciles | docker/kubeshare-gemini-scheduler/launcher.py:39-64 | A whole file leaves exactly its names; known names keep their process, new ones get a new one. |
| Launcher.CutShortKillsNothing | docker/kubeshare-gemini-scheduler/launcher.py:36-53 | An empty file or a bad count changes nothing; a call that raises later, by a bad line or a failing start, has started what came before and killed nothing. |
| Launcher.ReconciledAfterAnyHistory | docker/kubeshare-gemini-scheduler/launcher.py:86-93 | The same after any history of malformed or interrupted files. |
| Launcher.ProcessesFollowThePool | docker/kubeshare-gemini-scheduler/launcher.py:33-64 | After a printed config has arrived, one process runs for each name of the list and no other. |
| Launcher.PodLauncher.UpdatePodmanager | docker/kubeshare-gemini-scheduler/launcher.py:33-64 | The marking, starting and sweeping loops over the dict do what the reconciling function says. |
| Launcher.PodLauncher.KillUnmarked | docker/kubeshare-gemini-scheduler/launcher.py:55-64 | Killing and deleting in two passes, in any order, removes exactly the unmarked names. |
| Delivery.ChangesAreSent | pkg/devicemanager/gpupool.go:484-504 | A message carries the list as the call leaves it, and the list of a bound GPU never changes without a message. |
| Delivery.OneProcessPerRequest | pkg/devicemanager/config.go:269-276 | If no key is listed twice the message makes the node run exactly one process for each request, also where requests share a port. |
| Delivery.RegisteredRequestRuns | pkg/devicemanager/gpupool.go:329-334 | A register answered with a UUID ends with a process for the key under the port it answered, and one for every other request. |
| Secrets.ReadAfterConfigure | pkg/k8s/secrets.go:277-303 | Reading after configuring returns prior pull secrets and requested secrets, each as often as given. |
| Secrets.SecretNamesExactly | pkg/k8s/secrets.go:294-299 | Of the sources of the volume exactly those with a secret are read, in order. |
| Secrets.InverseWithoutPriorPullSecrets | pkg/k8s/secrets.go:277 | It is the inverse its comment claims exactly when there was no pull secret before. |
| Secrets.OneSecretsVolume | pkg/k8s/secrets.go:246-272 | One secrets volume and one mount in each container, or none of either; all others stay in order. |
| Secrets.OthersPick | pkg/k8s/utils.go:13-44 | Removal by name keeps exactly the elements of other names, in their order. |
| Secrets.ConfiguredExactly | pkg/k8s/secrets.go:203-272 | The docker secrets are appended to the pull secrets, the others become the sources of one volume, each with all keys of its secret, in the order requested; every container mounts it read-only at its path; nothing else changes. |
| Secrets.ConfigureAgain | pkg/k8s/secrets.go:214-219 | Configuring twice changes volumes and mounts no more, and nothing at all exactly when no pull secret is requested. |
| SecretsProgram.RemoveInPlace | pkg/k8s/utils.go:13-44 | Filtering over the slice's own backing array gives the pure filter, and the tail of the array is untouched. |
| SecretsProgram.DeploymentObject.ConfigureSecrets | pkg/k8s/secrets.go:199-275 | Configures fully when all secrets exist; otherwise reports the first missing one, having added only the pull secrets before it. |
| SecretsProgram.DeploymentObject.ReadFunctionSecretsSpec | pkg/k8s/secrets.go:278-303 | Returns the sorted list of the collected names. |
| SecretsProgram.ConfigureThenRead | pkg/k8s/secrets.go:199-303 | The two methods in a row return the sorted list of prior pull secrets and requested secrets. |

## Left out

Stated for less than the program does:

- PoolObjects.NodeInfo.GetPhysicalGPUuuid: GPU records and their container/list are values in the node's map, so updates through a shared GPU pointer appear as replacements of the map entry.
- PoolObjects.NodeInfo.RemovePod: one pod's turn; the second Unlock at pkg/devicemanager/gpupool.go:516, which panics once a pod was found, is not modelled, and the deletion of the dummy pod is only the empty list that is sent.
- PoolObjects.NodeInfo.SetUUID: reads the UUID table inside the critical section, where the program reads it before taking the lock.
- PoolObjects.DeviceManager.GetPhysicalGPUuuid: the key is a parameter; the callers register under a deployment's key and release under a pod's, and syncHandler in the device manager skips every pod that could reach the call (pkg/devicemanager/controller.go:348-350 and 387-391).
- Rebuild.InitNodesInfo: the node table is a map of values, and the listings are one list of dummy pods and one of replicas with unparsable numbers already marked; the first two listings, whose errors end it before it does anything, are not part of it.
- SchedulerObjects.NodeResource.ScheduleNode: one node at a time; the interleaving of the nodes' goroutines is in BestFit.EveryInterleavingFindsTheBest, on values.
- SchedulerObjects.SyncNodeResources: nodes one after the other; the missing Done at pkg/scheduler/sync_resources.go:326-328, which makes the program wait for ever when a node is tainted, is not modelled.
- SchedulerObjects.NodeResource.ChargePod: the accounting of the GPU branch; the loop as compiled is a function only (Accounting.Compiled).
- ClusterRuns.EveryRunIsSafe: pods that someone else places on a node are not steps of a run, since nothing stops them from overcommitting it; the lister shows the current pods, where a real cache may lag behind; one id is drawn per call, and assumed not to be in use on the node that is found.
- Placement.FoundExactly: not for a pod with an exclusion tag where some node mixes an untagged GPU with another one to drop; there the break decides, and Isolation.IsolationFailsExactly says what can come of it.
- JointRuns.RefusedOnlyForStale: on exact reals, as everywhere; float64 rounding of requests is not modelled. A pod is registered under its own name, where the program uses its Deployment's key.
- PoolRuns.RunsStayBalanced: binding a GPU that release has deleted is a step without effect; the program dereferences nil there (pkg/devicemanager/gpupool.go:449).
- PendingProtocol.NothingIsLost: binding a pod changes the lister's cache in the same step, where a real cache follows later; the work queue is taken by the contract of its library, and a rate-limited key may come back at any time; shutting the queue down is left out.
- ControllerObject.Controller.ProcessNextWorkItem: one turn that nothing interrupts, with the handler's outcome as a parameter; the interleavings are PendingProtocol's, and the outcomes are PendingProtocol.SyncHandlerOutcomes.
- Wire.ConfigFileReadBack: the digits of %f are any word without a colon or comma; how close they are to the float is not modelled.
- Launcher.ReconciledAfterAnyHistory: only ASCII digits and spaces count in int() and split(); a file is read whole, and killing a process does not fail.
- SecretsProgram.DeploymentObject.ReadFunctionSecretsSpec: a volume of that name that is not a projected one makes the program dereference nil; it is excluded here. The sort is an insertion sort that stands for the library's.
- SecretsProgram.DeploymentObject.ConfigureSecrets: slices are values, so a second deployment that shares a backing array is not modelled; RemoveInPlace models the array itself.
- Bitmap64s.Bitmap64.Mask: words are bounded naturals with Go's bit operators defined on their digits; positions below -63 panic and are excluded.
- RoundRobin.NextIsNearestFree: a negative capacity is not modelled.

Not modelled at all:

- Integer overflow of int64 amounts of CPU, memory and GPU memory.
- Heartbeats, node readiness, the first line of a hello and the connection in syncConfig: every config is taken to be sent, and a lost one is not retried; the configs that a reconnecting node gets again.
- Creating, retrying and deleting dummy pods, their logs, and NVML.
- Sockets, file writes and their errors, inotify, and the scheduler process that the launcher starts.
- Kubernetes clients, listers, patches, events and recorders, and the JSON of a patch.
- The second half of the device manager's controller, pkg/controller and pkg/server: single case distinctions and wiring.
- Docker configurations, charts, and code that is commented out, except the accounting loop named above.
