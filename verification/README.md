# DTorch: the eager pipeline and the sharding algebra, in Dafny

DTorch runs tensor programs over many devices. A single API thread builds operators; a queue carries
them to an executor thread; the executor turns batches of them into kernels; each device has a stream
thread that runs its kernels in order. Tensors are spread over a device mesh according to placements
(replicated, sharded along a tensor dimension, or partial sums). This project models both halves and
proves what the program relies on.

`dafny verify dfyconfig.toml` checks everything.

## The modules

The pipeline

- `Operators.dfy`, `Runners.dfy`: operands and operators as the runner sees them (addresses used as
  keys), the blob map, kernel creation, the streams; the runner's methods against their specification.
- `Batching.dfy`: batches (all creations, then all deletions) against one message at a time.
- `GraphExecutor.dfy`, `GraphConstructor.dfy`: the logical graph, the executor's batch, the reference counts.
- `Pipeline.dfy`, `PipelineSafety.dfy`: the state machine of API thread, queue, executor thread and an
  allocator that may hand out any address which neither the logical graph nor a queued operator holds;
  its invariant, safety over all runs, reference counts, draining.
- `Streams.dfy`, `StreamRuns.dfy`: the stream threads on write-once cells; no kernel fails, and the
  interleaving does not matter.
- `Sending.dfy`: what the API thread sends, told from its events alone, against what reaches the executor.
- `ProgramMeaning.dfy`: the whole against an interpreter that runs the operators in the order they were sent.
- `Delivery.dfy`: nothing sent is left undone; the executor and stream threads by themselves compute it all.
- `StreamSync.dfy`, `MessageQueue.dfy`: the two small protocols, step by step.
- `TraversalSequence.dfy`: the execution order of a batch.
- `Cluster.dfy`: which node runs which kernel.

The sharding algebra

- `MeshArithmetic.dfy`, `DistributedSpec.dfy`: row-major strides, shard infos, projections, local shapes, validity.
- `Conservation.dfy`, `NestedSplit.dfy`: counting elements; splitting in two stages.
- `MergeShardDims.dfy`: merging the mesh axes that shard one tensor dimension.
- `Tensors.dfy`, `ScatterGather.dfy`, `ScatterRoundTrip.dfy`: cutting a tensor into the pieces of a
  distribution and putting them together again.
- `ConvertOrder.dfy`, `ConvertLayout.dfy`, `Conversions.dfy`: converting placements one mesh axis at a time; what a
  step does to what the devices hold, for any sizes, and when a whole conversion is right at every step.
- `ConvertReplicate.dfy`, `ConvertFinal.dfy`: conversions to and from all-Replicate; what is held at the end.
- `OperandCache.dfy`: the cache of local shapes.
- `PlacementSignatures.dfy`, `SignatureBuilder.dfy`: which placements an operator accepts.

`Sequences.dfy` and `Wrappers.dfy` hold what several modules share.

## How it is modelled

- An assertion of the source becomes a precondition of a method, and in the state machines a step without
  a result (`None`); safety means that no reachable step lacks a result. Thrown errors become a false result.
- Classes whose methods change fields are classes here, and each method's `ensures` ties the new state to a
  function of the old one; the theorems are about these functions.
- Iteration over an unordered container takes any next element (`Operators.AnyOf`).
- Integers are unbounded. The one place where the width matters, the packed signature key, is shown to fit
  64 bits (`PlacementSignatures.HashKeyFits`).
- `torch.split`, `concat`, `zeros_like`, sums, and `permute`/`reshape` are modelled by their row-major meaning.
- An operator's computation is a parameter: any function of operator, device and input tensors.

Three facts about the program that its own comments do not say, each with its exact condition and an input:

- The conversion order (`distributed_spec.h:222-223` says it makes gathers and scatters come out right) is
  not right for every pair of placements. `Conversions.ConversionExactly` says exactly when every step of the
  way is canonical; `ConvertReplicate.NotAlwaysSafe` is a conversion after which a device holds indices 0 and 2
  instead of 0 and 1. To and from all-Replicate the order is always right (`ConvertReplicate.ToReplicateExactly`,
  `FromReplicateExactly`), so that only the sizes matter. For even sizes and without axes that move from one
  dimension to another, a wrong step is never made good (`ConvertFinal.FinalExactly`); with moves it may be
  (`ConvertFinal.MovesMayCancel`).
- Cutting an uneven size in two stages gives the one-shot sizes only for three remainders
  (`NestedSplit.NestedSplitAgreesIff`, with 6 over 2 by 2 in `NestedSplit.SixOverTwoByTwo`), so a step of a
  conversion along a second axis of a dimension is canonical for those sizes only (`ConvertLayout.StepExactly`);
  `ConvertReplicate.UnevenIsNotCanonical` is the layout for 6 over 2 by 2. Even sizes always fit, and so does any
  size of a dimension that a single axis shards (`ConvertReplicate.PrefixFitsWhen`).
- The support check looks at the largest GPU id only; an accepted operator with a negative id has a kernel on no
  node (`Cluster.KernelPlacementIsPartition`; GPU -1 in `Cluster.NegativeIdPasses`). Mesh validation
  (`DistributedSpec.CheckDeviceIdValid`) does not look for negative ids either.

## Model

| member | source | states |
|---|---|---|
| Runners.NewBlobsOn | dtorch/core/runner/naive_runner.cc:91-95 | every device of an output operand gets one new cell, in whatever order the devices are visited |
| Runners.CaptureBlobs | dtorch/core/kernel/kernel.cc:44-75 | a kernel captures, per operand, the cell of its own device, or nothing if the operand is null (inputs only) or lives elsewhere |
| Runners.NewKernel | dtorch/core/kernel/kernel.cc:35-75 | the constructed kernel is the specified one for its operator and device |
| Runners.KernelStreamManager.GetStream | dtorch/core/kernel_stream/kernel_stream_manager.cc:62-82 | the first request for a device makes its one stream, later ones change nothing |
| Runners.KernelStreamManager.LaunchKernel | dtorch/core/kernel_stream/kernel_stream.cc:41-45 | the kernel goes to the end of its device's stream and no other stream changes |
| Runners.NaiveRunner.CreateKernelForOperator | dtorch/core/runner/naive_runner.cc:63-119 | outputs get cells, and there is exactly one kernel per supported stream key, before anything is launched |
| Runners.NaiveRunner.DeleteOperand | dtorch/core/runner/naive_runner.cc:121-124 | the operand's cells, and nothing else, leave the map |
| Runners.NaiveRunner.Execute | dtorch/core/runner/naive_runner.cc:41-61 | creating all, deleting, then launching all gives the same runner as creating and launching each operator in turn and then deleting |
| Runners.LaunchAllAt | dtorch/core/runner/naive_runner.cc:58-60 | launching a list appends to each stream exactly its own kernels in list order |
| Batching.BatchingUnobservable | dtorch/core/graph/eager_graph_executor.cc:200-223 | a batch whose messages can be handled one at a time gives the same runner (maps, cells, kernels, order), exactly when no operator of it reuses an address dropped earlier in it; otherwise a creation assertion fails |
| Batching.AnyBatching | dtorch/core/graph/eager_graph_executor.cc:171-198 | however a run of messages is cut into batches, the runner is the one of handling them one at a time |
| Batching.CreateCommutes | dtorch/core/runner/naive_runner.cc:41-56 | creating an operator before or after unrelated deletions is the same |
| GraphExecutor.LogicalGraph.AddOperand | dtorch/core/graph/logical_graph.cc:33-36 | an operand is added under an address that has no entry |
| GraphExecutor.LogicalGraph.DeleteOperator | dtorch/core/graph/logical_graph.cc:38-42 | exactly one operator entry goes |
| GraphExecutor.LogicalGraph.DeleteOperand | dtorch/core/graph/logical_graph.cc:44-48 | exactly one operand entry goes |
| GraphExecutor.EagerGraphExecutor.AddOperator | dtorch/core/graph/eager_graph_executor.cc:152-160 | the new state is the specified one: outputs and operator in the logical graph, operator at the end of the batch |
| GraphExecutor.EagerGraphExecutor.AddApiTensorNoHoldOperand | dtorch/core/graph/eager_graph_executor.cc:162 | the address is appended to the batch's deletions |
| GraphExecutor.EagerGraphExecutor.ExecuteOperatorsAndNoHoldOperands | dtorch/core/graph/eager_graph_executor.cc:200-223 | taking the operators out, running the batch and releasing the operands one by one ends in the specified state |
| GraphConstructor.GraphConstructor.SendOperatorToExecutor | dtorch/core/graph/graph_constructor.cc:100-108 | every output gets a zero count and one message is sent |
| GraphConstructor.GraphConstructor.ApiTensorRefCountIncrease | dtorch/core/graph/graph_constructor.cc:110-113 | one more live tensor is counted |
| GraphConstructor.GraphConstructor.ApiTensorRefCountDecrease | dtorch/core/graph/graph_constructor.cc:115-132 | one less is counted; the last one takes the entry with it and sends one no-hold message |
| Pipeline.TrackReplay | dtorch/core/runner/naive_runner.cc:79-97 | a runner told of well-formed messages trips no assertion and has cells for exactly the operands that are there, on exactly their devices |
| Pipeline.TrackBatch | dtorch/core/graph/eager_graph_executor.cc:171-193 | a well-formed batch with fresh outputs drops each address once, leaves the other operands, and never reuses an address it dropped |
| PipelineSafety.StepSafe | dtorch/core/graph/eager_graph_executor.cc:152-223 | every possible step of API thread or executor thread keeps the invariant and trips no assertion |
| PipelineSafety.ReceiveKeeps | dtorch/core/graph/eager_graph_executor.cc:152-169 | receiving a message finds its operands and outputs as asserted, and keeps what the logical graph holds and what the batch collects |
| PipelineSafety.ExecuteRefines | dtorch/core/graph/eager_graph_executor.cc:200-223 | executing the batch of any reachable state succeeds, empties the operator map, and leaves the runner where one message at a time would |
| Pipeline.CountedIsHeld | dtorch/core/graph/graph_constructor.cc:110-126 | any address still counted by the API thread is held by the logical graph or by an operator not yet processed |
| PipelineSafety.NoAssertionFails | dtorch/core/runner/naive_runner.cc:79-97 | in every run, with an allocator that may reuse any unheld address, no assertion fails, and the runner equals the replay of the finished batches |
| PipelineSafety.OneNoHoldPerOperand | dtorch/core/graph/graph_constructor.cc:115-132 | at each address, creations and no-hold messages alternate one for one: every creation has had its one message, except the last while its operand is counted |
| PipelineSafety.CountIsLiveTensors | dtorch/core/graph/graph_constructor.cc:110-132 | every operand with live tensors is counted with their number; each count is the number of all live tensors at its address, which are of one operand; it is zero exactly while that operand waits for its first tensor |
| PipelineSafety.QuietIsEmpty | dtorch/core/graph/logical_graph.cc:26-48 | with all tensors dropped and nothing left to do, the operand cache, both logical-graph maps and the runner's blob map are empty |
| PipelineSafety.ExecutorProgress | dtorch/core/graph/eager_graph_executor.cc:171-193 | every effective step of the executor thread leaves it less to do |
| PipelineSafety.DrainsToEmpty | dtorch/core/graph/eager_graph_executor.cc:171-223 | from any reachable state with all tensors dropped, the executor thread alone empties all the maps |
| Sending.HistoryIsSent | dtorch/core/graph/graph_constructor.cc:67-132 | in every run, what was executed, is in the current batch or still queued is exactly the list of messages that the API thread's events alone say: each operator as it was sent, each rename, and one no-hold message when the last tensor of an operand is destroyed; the live tensors are those the events made and did not destroy |
| Sending.OperatorsArrive | dtorch/core/graph/graph_constructor.cc:67-108 | the operators that reach the executor are those that were sent, unchanged and in that order |
| Streams.StreamsOrderly | dtorch/core/runner/naive_runner.cc:63-119 | in each stream a kernel reads only cells written earlier on that stream and writes new ones, no two streams write the same cell, and every operand's cell has its write on its device's stream |
| Streams.KernelOutputs | dtorch/core/kernel/kernel.cc:64-75 | which cells the kernel of an operator on a device writes |
| StreamRuns.Blobs.SetTensor | dtorch/core/blob.cc:43-47 | a cell is set once |
| StreamRuns.Blobs.GetTensor | dtorch/core/blob.cc:49-53 | a set cell is read |
| StreamRuns.Blobs.Run | dtorch/core/kernel/kernel.cc:77-208 | reading inputs, computing and setting outputs one by one changes the cells as specified |
| StreamRuns.OrderlyRuns | dtorch/core/kernel_stream/kernel_stream.cc:72-93 | an orderly stream run on its own never fails and sets exactly what its kernels write |
| StreamRuns.NoKernelFails | dtorch/core/kernel/kernel.cc:77-208 | in no interleaving of pipeline and stream threads does a kernel find an empty input or a set output |
| StreamRuns.Confluence | dtorch/core/kernel_stream/kernel_stream.cc:72-93 | once all launched kernels ran, every device has exactly its program-order result and nothing else is set |
| StreamRuns.AnyOrderSameTensors | dtorch/core/kernel_stream/kernel_stream.cc:72-93 | two complete runs of the same launches set the same tensors |
| ProgramMeaning.ReplayMeans | dtorch/core/runner/naive_runner.cc:63-119 | running each stream by itself gives each operand, on each of its devices, the tensor of the interpreter |
| ProgramMeaning.MeaningOfSend | dtorch/core/kernel/kernel.cc:77-208 | the interpreter computes output i on a device from what that device holds of the inputs (nothing for null or foreign ones), and leaves all other operands alone |
| ProgramMeaning.PipelineComputesMeaning | dtorch/core/graph/eager_graph_executor.cc:171-223 | end to end, in every interleaving: what the finished batches consist of is a first part of what the API thread's events send, in sending order; and once the launched kernels ran, the runner has exactly the operands that interpreting these messages leaves, each holding on each of its devices the interpreter's tensor |
| Delivery.EverythingSentIsComputed | dtorch/core/graph/eager_graph_executor.cc:171-223 | from any state of any run, steps of the executor and stream threads alone lead to a state with nothing queued or launched, in which the runner has exactly the operands that interpreting all that was sent leaves, with the interpreter's tensors |
| StreamSync.StepKeepsInv | dtorch/core/kernel_stream/kernel_stream.cc:47-93 | every step of any caller or of the stream thread keeps the invariant and trips no assertion |
| StreamSync.FlagCountsMarkers | dtorch/core/kernel_stream/kernel_stream.cc:47-93 | in every interleaving of any number of callers, with spurious wake-ups, pending markers number exactly what the flag says, and the stream thread's assertion holds |
| StreamSync.ReturnMeansDone | dtorch/core/kernel_stream/kernel_stream.cc:47-63 | whatever step makes a call return, the caller has sent its marker, and it and everything launched before the call have been handled |
| StreamSync.SyncCoversEarlierLaunches | dtorch/core/kernel_stream/kernel_stream.cc:41-63 | told by events: when a call returns, everything that was queued when it was made has been handled, and its marker behind it |
| StreamSync.NoDeadlock | dtorch/core/kernel_stream/kernel_stream.cc:47-70 | while a caller is inside, some thread can go on without a new launch, a new call or a spurious wake-up |
| StreamSync.EveryStepCounts | dtorch/core/kernel_stream/kernel_stream.cc:47-93 | without new launches, new calls and spurious wake-ups every step of any thread lowers a measure |
| StreamSync.EveryCallReturns | dtorch/core/kernel_stream/kernel_stream.cc:47-93 | so from any state of any run every caller returns |
| MessageQueue.StepKeepsInv | dtorch/core/graph/eager_graph_executor_message.cc:17-52 | every step of pushing, shutdown and the consumer keeps the invariant, and no null message is processed |
| MessageQueue.ProcessedIsPrefix | dtorch/core/graph/eager_graph_executor_message.cc:23-47 | what is processed is a prefix of what was pushed, without nulls |
| MessageQueue.EveryStepCounts | dtorch/core/graph/eager_graph_executor_message.cc:23-47 | before shutdown every step of the executor thread leaves it less to do |
| MessageQueue.EverythingIsExecuted | dtorch/core/graph/eager_graph_executor.cc:171-198 | from any state of any run before shutdown, the executor thread's own steps, without another push, process everything pushed so far, in order, and execute it |
| MessageQueue.NeverBlocksInMidBatch | dtorch/core/graph/eager_graph_executor_message.cc:23-47 | a batch never exceeds the batch size, and the executor thread blocks on an empty queue only when all it processed has been executed |
| MessageQueue.ShutdownTerminates | dtorch/core/graph/eager_graph_executor.cc:67-73 | after shutdown the consumer is never stuck, not on an empty queue either, and each of its steps brings it closer to its end |
| TraversalSequence.GraphTraversalSequence.InsertAfter | dtorch/core/graph/graph_traversal_sequence.cc:57-67 | the operator comes right behind the given node, or at the end, and list and index keep agreeing |
| TraversalSequence.GraphTraversalSequence.Erase | dtorch/core/graph/graph_traversal_sequence.cc:69-72 | one node and its index entry go, and list and index keep agreeing |
| TraversalSequence.GraphTraversalSequence.FromVec | dtorch/core/graph/graph_traversal_sequence.cc:21-28 | afterwards the list holds exactly the given operators in order |
| TraversalSequence.GraphTraversalSequence.ToVec | dtorch/core/graph/graph_traversal_sequence.cc:30-32 | the operators in order, without repetition |
| TraversalSequence.IndexedOps | dtorch/core/graph/graph_traversal_sequence.cc:43-67 | the index covers exactly the operators in the list |
| Cluster.ClusterInfo.PushBack | dtorch/core/distributed/cluster_info.h:107-111 | the node is appended and the total stays the sum of the nodes' GPUs |
| Cluster.ClusterInfo.GetRunnerSupportedDevicesForNode | dtorch/core/distributed/cluster_info.cc:56-82 | with one running counter, GPU g of node i gets the global number of all GPUs before it plus g, and the local number g, or 0 if all tensors share one device; only the first node runs CPUs |
| Cluster.SupportsRange | dtorch/core/distributed/cluster_info.cc:56-82 | a node supports exactly its own range of global GPU ids, and CPUs if it is the first |
| Cluster.LocalNumbers | dtorch/core/distributed/cluster_info.cc:56-82 | a node pairs exactly the global GPUs of its range with local ones: its own number is the global one less the GPUs of the nodes before, or always 0 if all tensors share one device |
| Cluster.ExactlyOneNode | dtorch/core/distributed/cluster_info.cc:56-82 | the ids from 0 up to the total lie on exactly one node each, CPUs on the first |
| Cluster.RunnerSupportedDevices.constructor | dtorch/core/runner/runner_supported_devices.cc:18-32 | the index leads each global device to its own pair |
| Cluster.RunnerSupportedDevices.GetSupported | dtorch/core/runner/runner_supported_devices.cc:47-57 | exactly the keys the node supports |
| Cluster.RunnerSupportedDevices.GlobalToLocal | dtorch/core/runner/runner_supported_devices.cc:59-71 | the local device paired with the global one; CPUs map to CPU 0 |
| Cluster.OperatorAssignInfo.Insert | dtorch/core/operators/operator_assign_info.h:18-23 | the key is added and the running maximum stays the maximum |
| Cluster.OperatorAssignInfo.InferOperatorAssignInfo | dtorch/core/operators/operator.cc:267-302 | the keys are exactly the devices of all inputs and of the first output |
| Cluster.KeysCoverOutputs | dtorch/core/operators/operator.cc:286-299 | since all outputs share a mesh, the keys cover every device of every output |
| Cluster.KeysExactly | dtorch/core/operators/operator.cc:267-302 | a device is a key exactly if some input, or the first output, lives on it |
| Cluster.ClusterInfo.CheckSupport | dtorch/core/graph/eager_graph_executor.cc:82-96 | accepted exactly when every GPU id is below the cluster's total |
| Cluster.KernelPlacementIsPartition | dtorch/core/graph/eager_graph_executor.cc:82-96 | for an accepted operator each stream key is on exactly one node if and only if no GPU id is negative, and then the kernels over all nodes number the stream keys |
| Cluster.PlaceableExactly | dtorch/core/graph/eager_graph_executor.cc:82-96 | keys have exactly one node each if and only if they pass the support check and none is negative |
| Cluster.ValidMeshPasses | dtorch/api/cpp/distributed_spec.cc:426-440 | mesh validation against the cluster's total accepts exactly the meshes whose devices pass the support check |
| Cluster.NegativeIdPasses | dtorch/core/operators/operator_assign_info.h:18-23 | GPU -1 leaves the running maximum at -1 and passes the support check on a one-GPU node, but no node creates its kernel |
| Cluster.RejectedIsUnplaceable | dtorch/core/graph/eager_graph_executor.cc:82-96 | a rejected operator has a key that no node supports |
| Cluster.MainNode.AddWorkerNode | dtorch/core/distributed/main_node.cc:140-152 | worker client i stays node i+1; in same-device mode nothing is added |
| Cluster.MainNode.CreateGraph | dtorch/core/distributed/main_node.cc:100-122 | client i is sent the devices of node i+1 |
| MeshArithmetic.Stride.FromShape | dtorch/api/cpp/stride.cc:19-25 | the backward running product gives the row-major strides |
| MeshArithmetic.Stride.ComputeIndex | dtorch/api/cpp/stride.h:86-96 | the dot product of coordinate and strides |
| MeshArithmetic.Stride.ComputeCoordinate | dtorch/api/cpp/stride.h:98-106 | the chain of quotients and remainders |
| MeshArithmetic.DotIsIndex | dtorch/api/cpp/stride.h:86-96 | on row-major strides the dot product is the row-major number |
| MeshArithmetic.PeelIsCoord | dtorch/api/cpp/stride.h:98-106 | on row-major strides the remainder chain decodes every number below the product |
| MeshArithmetic.IndexOfCoord | dtorch/api/cpp/stride.h:86-106 | every number below the product is the number of the in-bounds coordinate it decodes to |
| MeshArithmetic.CoordOfIndex | dtorch/api/cpp/stride.h:86-106 | every in-bounds coordinate is numbered below the product and decodes back to itself |
| DistributedSpec.GetShardSizeForAllRank | dtorch/api/cpp/distributed_spec.cc:202-213 | chunk sizes: the quotient, and one more for the first remainder chunks |
| DistributedSpec.ShardsTile | dtorch/api/cpp/distributed_spec.cc:202-213 | the chunks tile the dimension |
| DistributedSpec.ShardSizesFair | dtorch/api/cpp/distributed_spec.cc:202-213 | chunk sizes are non-increasing in rank and differ by at most one |
| DistributedSpec.GetShardInfo | dtorch/api/cpp/distributed_spec.cc:491-522 | one info per sharded dimension, with the product of its axes and the set of them |
| DistributedSpec.KeepSelectedDim | dtorch/api/cpp/shape.cc:164-172 | the selected entries in order |
| DistributedSpec.IndexInSelectedDims | dtorch/api/cpp/distributed_spec.cc:524-537 | the number of the projected coordinate |
| DistributedSpec.ProjectionIsChunk | dtorch/api/cpp/distributed_spec.cc:524-537 | projecting on the axes that shard a dimension numbers its chunk |
| DistributedSpec.ComputeLocalShape | dtorch/api/cpp/distributed_spec.cc:539-587 | even: one entry, right for every device; uneven: one entry per device, each its own chunk sizes |
| DistributedSpec.CheckShapeValid | dtorch/api/cpp/distributed_spec.cc:409-424 | accepts exactly the shapes the axes can cut |
| DistributedSpec.CheckDeviceIdValid | dtorch/api/cpp/distributed_spec.cc:426-440 | accepts exactly the CPU meshes and those whose ids all lie below the total |
| DistributedSpec.CheckValid | dtorch/api/cpp/distributed_spec.cc:345-407 | accepts exactly the specifications that pass the listed tests of placements, mesh, device ids and shape |
| DistributedSpec.ValidMeans | dtorch/api/cpp/distributed_spec.cc:345-424 | the specification of validity is the source's list of tests, test by test |
| DistributedSpec.CheckValidSufficient | dtorch/api/cpp/distributed_spec.cc:345-424 | an accepted specification meets the splitting code's assertions, gives every device at least one cell per dimension, and shards that are non-increasing in rank and differ by at most one |
| Conservation.ElementsConserved | dtorch/api/cpp/distributed_spec.cc:491-587 | the local element counts of all devices add up to the global count times the product of the axes that do not shard, even or uneven |
| Conservation.ProjectionIsUniform | dtorch/api/cpp/distributed_spec.cc:524-537 | the projection hits exactly the values below the product of the selected sizes, each equally often |
| NestedSplit.NestedSplitAgreesIff | dtorch/core/communication/thread_group/thread_group.cc:243-256 | a split in two stages has the one-shot sizes if and only if the remainder is 0, 1 or one short of a full round |
| NestedSplit.SixOverTwoByTwo | dtorch/api/cpp/distributed_spec.cc:202-213 | 6 over 4 is 2, 2, 1, 1, but 6 over 2 and again over 2 is 2, 1, 2, 1 |
| NestedSplit.NestedOffsets | dtorch/core/communication/thread_group/thread_group.cc:243-256 | for those remainders the pieces also start where the one-shot chunks do |
| MergeShardDims.MergeSameShardDim | dtorch/api/cpp/distributed_spec.cc:442-489 | the loops, the permutation and the reshape give the specified merged mesh and placements |
| MergeShardDims.MergeKeepsDistribution | dtorch/api/cpp/distributed_spec.cc:442-489 | every device has the same chunk of every dimension, hence the same local shape, before and after |
| MergeShardDims.MergeKeepsDevices | dtorch/api/cpp/distributed_spec.cc:442-489 | the merged mesh is a mesh of the same distinct devices |
| MergeShardDims.MergeKeepsDeviceChunk | dtorch/api/cpp/distributed_spec.cc:524-587 | per device id: the same chunk numbers, whatever its positions |
| MergeShardDims.MergeIsIdempotent | dtorch/api/cpp/distributed_spec.cc:442-489 | afterwards each dimension is sharded by at most one axis, and merging again changes nothing |
| MergeShardDims.MergedAxes | dtorch/api/cpp/distributed_spec.cc:442-489 | the axes that remain are those before which no axis shards the same dimension, in their old order, each with its placement and the product of the sizes of all axes that shard its dimension |
| ScatterGather.ScatterIsCanonical | dtorch/core/kernel/kernel_implement/distributed_scather_and_gather.cc:39-91 | on merged axes the recursive cutting hands out exactly each device's own block, zeros off the first position of summed axes |
| ScatterGather.GatherRestores | dtorch/core/kernel/kernel_implement/distributed_scather_and_gather.cc:108-145 | gathering every device's own block restores the tensor, however many axes shard a dimension |
| ScatterGather.GatherSums | dtorch/core/kernel/kernel_implement/distributed_scather_and_gather.cc:134-144 | whatever the pieces hold, along a summed axis gathering gives at every coordinate the sum of what all positions have gathered |
| ScatterGather.GatherJoins | dtorch/core/kernel/kernel_implement/distributed_scather_and_gather.cc:122-133 | whatever the pieces hold, along a sharded axis each position comes behind all positions before it |
| ScatterGather.GatherAddsUp | dtorch/core/kernel/kernel_implement/distributed_scather_and_gather.cc:108-145 | pieces of partial tensors that add up to a tensor, all possibly nonzero and however many axes shard a dimension, gather to that tensor |
| ScatterRoundTrip.MakePieces | dtorch/core/kernel/kernel_implement/distributed_scather_and_gather.cc:49-85 | the pieces along one mesh axis |
| ScatterRoundTrip.DistributedScather.ScatherImp | dtorch/core/kernel/kernel_implement/distributed_scather_and_gather.cc:39-91 | adds one entry for each device below the fixed coordinates and touches no other |
| ScatterRoundTrip.DistributedScather.constructor | dtorch/core/kernel/kernel_implement/convert_kernel.cc:240-251 | every device of the mesh as given gets the block its placements assign to it, of its local shape, although the cutting uses the merged mesh |
| ScatterRoundTrip.ScatterOnMerged | dtorch/core/kernel/kernel_implement/distributed_scather_and_gather.cc:24-30 | cutting on the merged mesh gives each device the block of the placements as given |
| ScatterRoundTrip.DistributeGather.GatherImp | dtorch/core/kernel/kernel_implement/distributed_scather_and_gather.cc:108-145 | the recursion takes the first position along replicated axes, joins along sharded axes and sums along the others, as specified and as GatherSums and GatherJoins say of it |
| ScatterRoundTrip.GatherOfPieces | dtorch/core/kernel/kernel_implement/convert_kernel.cc:288-307 | if every device holds its block, gathering gives the tensor |
| ScatterRoundTrip.GatherPartials | dtorch/core/kernel/kernel_implement/convert_kernel.cc:288-307 | if every device holds its block of its partial tensor and these add up to a tensor, the gather computes that tensor |
| ScatterRoundTrip.ScatterThenGather | dtorch/core/kernel/kernel_implement/distributed_scather_and_gather.cc:24-145 | scattering and gathering is the identity for any mesh, rank, sizes and plain placements |
| ConvertOrder.GetDiffDims | dtorch/api/cpp/distributed_spec.cc:316-325 | the differing axes, ascending |
| ConvertOrder.GetConvertOrder | dtorch/api/cpp/distributed_spec.cc:327-343 | each differing axis once; other conversions front to back, then gathers back to front |
| ConvertLayout.AcceptedMeansValid | dtorch/api/cpp/distributed_spec.cc:345-424 | the placements a conversion is considered for are those that only shard and replicate and that the validity check accepts |
| ConvertLayout.StepExactly | dtorch/core/kernel/kernel_implement/convert_kernel.cc:104-181 | for any accepted sizes, one conversion step (all-gather, scatter or all-to-all) lands on the canonical layout if and only if no later axis shards a dimension it gathers or scatters and the sizes of that cut agree with the one-shot ones |
| ConvertLayout.GatherLast | dtorch/core/communication/thread_group/thread_group.cc:143-190 | gathering the last axis that cuts a dimension gives the canonical layout without it exactly when the finer chunks add up to the coarser ones |
| ConvertLayout.ScatterLast | dtorch/core/communication/thread_group/thread_group.cc:243-256 | scattering behind the last axis that cuts a dimension gives the canonical layout with it exactly when the two-stage sizes are the one-shot ones |
| ConvertLayout.ExchangeAt | dtorch/core/communication/thread_group/thread_group.cc:211-241 | from a canonical layout, splitting, sending piece by rank and concatenating does to the old dimension what a gather does, to the new one what a scatter does, and leaves the others |
| Conversions.StepIsAxis | dtorch/api/cpp/distributed_spec.cc:327-343 | in this order, whether the axes are right for a step depends on source and destination only |
| Conversions.ConversionExactly | dtorch/api/cpp/functional/implement/convert_op_impl.cc:33-66 | for any sizes the validity check lets through at each step, every intermediate layout is canonical if and only if source and destination meet the stated condition and the sizes fit each step |
| ConvertReplicate.ToReplicateExactly | dtorch/api/cpp/distributed_spec.h:222-224 | from any accepted sharding to all-Replicate, every placement on the way is accepted, and every layout on the way is canonical if and only if each axis cuts its dimension further with the one-shot sizes |
| ConvertReplicate.FromReplicateExactly | dtorch/api/cpp/distributed_spec.h:222-224 | the same from all-Replicate to any accepted sharding |
| ConvertReplicate.PrefixFitsWhen | dtorch/api/cpp/distributed_spec.h:222-224 | that condition holds whenever all sizes are cut evenly, and whenever no dimension is sharded twice |
| ConvertReplicate.ThinnedEven | dtorch/api/cpp/distributed_spec.cc:202-213 | a shape that is cut evenly stays so when some axes are replicated instead, as on the way to or from all-Replicate |
| ConvertReplicate.ReplicateRoundTrip | dtorch/api/cpp/functional/implement/convert_op_impl.cc:51-66 | to all-Replicate and back, every layout on the way is canonical and every device ends with what it had |
| ConvertReplicate.NotAlwaysSafe | dtorch/api/cpp/distributed_spec.h:222-224 | moving one dimension's sharding from the first axis to the second: all placements accepted, order followed, start canonical, and the first device ends with indices 0 and 2 instead of 0 and 1 |
| ConvertReplicate.UnevenIsNotCanonical | dtorch/core/communication/thread_group/thread_group.cc:143-190 | 6 over 2 by 2 on the way to all-Replicate: accepted, but not canonical after the first step |
| ConvertFinal.FinalExactly | dtorch/api/cpp/functional/implement/convert_op_impl.cc:51-66 | for even sizes, and if no axis moves between dimensions, the layout at the end is canonical if and only if source and destination meet the condition |
| ConvertFinal.MovesMayCancel | dtorch/api/cpp/functional/implement/convert_op_impl.cc:51-66 | with a moving axis, a conversion that does not meet the condition and is wrong after its first step, but ends canonical |
| OperandCache.Operand.SetShapeAndStride | dtorch/core/operand.cc:56-64 | new shape and stride, empty cache |
| OperandCache.Operand.MetaDataSameAs | dtorch/core/operand.cc:66-73 | the other operand's metadata, empty cache |
| OperandCache.Operand.SetDeviceMeshAndPlacementSeq | dtorch/core/operand.cc:98-102 | new mesh and placements, empty cache |
| OperandCache.Operand.ComputeLocalShapes | dtorch/core/operand.cc:108-118 | fills an empty cache, leaves a filled one |
| OperandCache.Operand.GetLocalShape | dtorch/core/operand.cc:77-90 | after any setters and queries, what a fresh computation for the device gives; the one-entry shortcut is right |
| OperandCache.Operand.IsLocalShapeEvenSplit | dtorch/core/operand.cc:92-96 | true exactly when one shape serves all devices |
| OperandCache.SingleDevice | dtorch/core/operand.cc:108-118 | on a mesh of one device nothing is cut |
| PlacementSignatures.HashKeyInjective | dtorch/core/operators/placement_signature.cc:170-179 | keys are equal exactly when the placements agree up to sub-split coordinates |
| PlacementSignatures.ByteInjective | dtorch/api/cpp/distributed_spec.cc:178-183 | the byte of a placement says its kind and, if it shards, the dimension, and nothing else |
| PlacementSignatures.HashKeyFits | dtorch/core/operators/placement_signature.cc:170-179 | up to seven inputs the key fits 64 bits |
| PlacementSignatures.KeyBytes | dtorch/core/operators/placement_signature.cc:170-179 | the key holds the byte of each placement, the last one lowest |
| PlacementSignatures.LookupIsScan | dtorch/core/operators/placement_signature.cc:162-168 | looking up the key finds what a scan finds in which the last agreeing signature wins |
| PlacementSignatures.ScanIsLast | dtorch/core/operators/placement_signature.cc:162-168 | what is found is the declared signature that agrees with the inputs in kind and dimension, and after which no later one does |
| PlacementSignatures.PassedOn | dtorch/core/operators/placement_signature.cc:111-124 | without sub-split coordinates among the inputs the outputs stay as declared; otherwise every sharded output keeps its declared dimension and gets the coordinates of the first input that has some |
| PlacementSignatures.PlacementSignature.AddPlacementSignaturePair | dtorch/core/operators/placement_signature.cc:162-168 | the key map stays that of the list |
| PlacementSignatures.PlacementSignature.Match | dtorch/core/operators/placement_signature.cc:93-134 | succeeds exactly when along every mesh axis some declared signature agrees, and gives each output what the last agreeing one declares; if some input has sub-split coordinates and they are kept, every sharded output gets those of the first such input |
| PlacementSignatures.CopySubSplit | dtorch/core/operators/placement_signature.cc:112-124 | outputs stay as they are if no input has sub-split coordinates; otherwise every sharded one keeps its dimension and gets those of the first input that has some |
| SignatureBuilder.CollectCombinations | dtorch/core/operators/placement_signature.cc:17-37 | the recursion appends all combinations to the shared list |
| SignatureBuilder.DistinctSubsets | dtorch/core/operators/placement_signature.cc:17-37 | different positions of the list hold different subsets |
| SignatureBuilder.EverySubset | dtorch/core/operators/placement_signature.cc:17-37 | every subset is in the list |
| SignatureBuilder.ExpansionCount | dtorch/core/operators/placement_signature.cc:39-63 | a declaration with k optional inputs gives 2 to the k signatures, all different |
| SignatureBuilder.ExpansionIsVariants | dtorch/core/operators/placement_signature.cc:39-63 | they are exactly the declaration with any optional inputs absent |
| SignatureBuilder.Builder.AddOptionalInput | dtorch/core/operators/placement_signature.h:45-49 | the input is appended and its position marked optional |
| SignatureBuilder.Builder.Build | dtorch/core/operators/placement_signature.cc:39-63 | the declaration's signatures are appended and a new declaration starts |
| SignatureBuilder.Builder.Finish | dtorch/core/operators/placement_signature.cc:65-88 | the declared signatures, followed by all-Replicate with every input optional that was optional anywhere |
| SignatureBuilder.ReplicateAlwaysMatchesAlong | dtorch/core/operators/placement_signature.cc:65-88 | whatever was declared, all-Replicate inputs, optional ones possibly absent, match and give all-Replicate outputs |
| SignatureBuilder.EarlierStays | dtorch/core/operators/placement_signature.cc:65-88 | the added signatures change no match they do not agree with |

## Left out

- Communication between nodes and processes (gRPC, ZMQ, shared memory): in-order delivery is assumed; remote runners are the same runner with other supported devices.
- Communicating kernels (tensor stores, collective calls) in the theorems about streams: an operator's computation there depends on its own device's inputs only.
- Kernel hooks, shape and type validation inside `Kernel::Run`, CUDA streams: they do not change which cells are read or set. A kernel's run is one step; its cells belong to its own stream, which is proved.
- Operand names and the graph name: only the rename message and its assertion are modelled.
- Executing a batch, up to the release of operands, is one step of the executor thread: all it touches is private to that thread or handed to a stream.
- `StreamSync` leaves out `KernelStream::Destroy`, which discards pending kernels by design, and takes enqueueing as atomic.
- Sub-split coordinates in scattering, gathering and conversion; they are modelled in placement signatures only.
- Partial placements in conversions, and conversions that change the device mesh.
- ConvertFinal.FinalExactly: what is held at the end of a conversion whose steps went wrong is stated for even sizes without moving axes only; with uneven sizes the next gather already receives into buffers of other sizes than what is sent.
- `PlacementSeq` shares its data and two mutators write into it; placements are values here, already normalised.
- `MainNode::DestroyGraph`, heartbeats, timeouts and `WaitAllRunnerReady`.
- Integer overflow of sizes and indices.
