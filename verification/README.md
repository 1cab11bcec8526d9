# Verified models of ImageOPs and of the TensorFlow headers it ships

This project models the parts of the repository whose bodies are in its files and whose correctness
is not obvious from reading them one at a time, and proves what they are for. The parts are
independent of each other.

- **Variant** (`VariantMemory`, `VariantContainer`, `VariantPool`): the type-erased container with a
  small buffer, over an explicit memory that counts constructions, destructions and allocations. A
  pool of Variants refines a list of optional values under every sequence of operations.
- **Resources** (`ReferenceGraph`, `ResourceLog`, `ResourceProtocol`, `ResourceSafety`,
  `ResourceCalls`, `ResourceAlone`): threads running `Lookup`, `LookupMany`, `LookupOrCreate`,
  `Create`, `Delete` and the `Compute` of resource kernels, one step at a time, under the
  reader/writer lock, with reference counts. `ResourceSafety` has the invariant of every run,
  `ResourceCalls` what a result means in every run, and `ResourceAlone` the exact effect of each
  operation without interference. The module `LookupMany` is that call on its own, and `HandleOps`
  the double-checked initialisation of the handle kernels.
- **tf.data model** (`PipelineClock`, `PipelineTree`): the hand-over of a thread's clock between
  nodes, and the snapshot and parameter collection of the node tree.
- **The app's 3D maths and camera** (`Matrices`, `EulerAngles`, `CameraTransform`, `OrbitCamera`):
  over exact real numbers. An angle is the pair of its cosine and sine, and `atan2` is any function
  that returns the direction of a point, and zero at the origin. Matrices keep the signs of the code.
- **Arithmetic and indexing** (`Bits`, `Fingerprint`, `Strides`, `DataTypeSets`, `CostEstimate`,
  `FieldCodec`): 64-bit fingerprints, row-major strides, the bit mask of data types with its
  iterator, the cost estimate of kernels, and the packed fields of tensor protos.
- **Tensors** (`TensorShapes`, `TensorOwnership`, `TensorPool`): shared, counted buffers, and shapes
  of sixteen bytes that may own a vector of dimensions.

Code that changes things in place is modelled by classes and methods; what it promises is proved
about the specifications that those methods are proved against. Protocols are state machines whose
runs are arbitrary interleavings.

Some results are exact conditions where the obvious statement is false:

- Euler angles come back unchanged exactly if cos y > 0, or cos y = 0 and z = 0
  (`EulerAngles.RoundTrip`); the rotation they stand for always does (`EulerAngles.Rebuild`).
- A clock is left running if an outermost call hands over to an output that nobody had stopped
  (`PipelineClock.StoppedIffNothingHandedOver`).
- Sizes can pass the check of `shaped` by being negative, or because their product wraps; the views that
  are one to one are told apart by the signs and the exact product (`Strides.ShapedIsOneToOne`).
- The cost estimate of an expensive operation can fall below the threshold because the multiplication
  wraps (`CostEstimate.RunsStayExpensiveIff`, with a run in `CostEstimate.WrapsToCheap`).
- Racing updates keep a cheap operation cheap exactly if no late store is outstanding
  (`CostEstimate.RacesStayCheapIff`, with a run in `CostEstimate.LateStore`).
- The camera can pass through its target exactly if it starts within 80 of it
  (`OrbitCamera.NeverThroughTarget`).
- The move constructor of `Tensor` does not move the shape: it is given a const shape and copies it
  (`TensorOwnership.MoveMeans`).

`dafny verify dfyconfig.toml` checks the whole project.

## Model

| member | source | states |
|---|---|---|
| `VariantMemory.HeapOrInline.ResetMemory` | tensorflow_libs/tensorflow/core/framework/variant.h:651-654 | zeroing the union is only ever done when it holds no live object and owns no block, so nothing is lost or leaked by it |
| `VariantMemory.HeapOrInline.Cleanup` | tensorflow_libs/tensorflow/core/framework/variant.h:427-442 | destroys the inline object if there is one, exactly once, and is a no-op on zeroed memory |
| `VariantMemory.HeapOrInline.InlineMoveConstruct` | tensorflow_libs/tensorflow/core/framework/variant.h:420-425 | moves the object of another inline value in, leaving that value without a live object |
| `VariantMemory.HeapOrInline.InlineMoveAssign` | tensorflow_libs/tensorflow/core/framework/variant.h:454-479 | exchanges or moves the inline objects with the construction and destruction counts in balance; the `MoveAssign` branch cannot be reached |
| `VariantMemory.HeapOrInline.HeapReset` | tensorflow_libs/tensorflow/core/framework/variant.h:608-611 | assigning to the heap pointer destroys and frees what it owned, once |
| `VariantMemory.HeapOrInline.NewOnHeap` | tensorflow_libs/tensorflow/core/framework/variant.h:545-573 | a heap value is one new block with one new object in it |
| `VariantContainer.Variant.Get` | tensorflow_libs/tensorflow/core/framework/variant.h:224-239 | returns an object exactly if one is stored and its type is the requested one |
| `VariantContainer.Variant.InsertValue` | tensorflow_libs/tensorflow/core/framework/variant.h:543-573 | after construction or clear, stores the value inline or in a new block, as `is_inline_` says |
| `VariantContainer.Variant.Copy` | tensorflow_libs/tensorflow/core/framework/variant.h:581-592 | the copy holds an equal value in memory of its own, and the original is untouched |
| `VariantContainer.Variant.Move` | tensorflow_libs/tensorflow/core/framework/variant.h:594-606 | the new Variant holds the old value; the moved-from one is empty exactly if it was not inline |
| `VariantContainer.Variant.FromValue` | tensorflow_libs/tensorflow/core/framework/variant.h:613-627 | the Variant holds the given value, on the heap exactly if it is larger than 48 bytes or aligned to more than 8 |
| `VariantContainer.Variant.Clear` | tensorflow_libs/tensorflow/core/framework/variant.h:656-666 | the Variant is empty, its object destroyed once and its block freed |
| `VariantContainer.Variant.Swap` | tensorflow_libs/tensorflow/core/framework/variant.h:668-724 | each of the branches exchanges the two abstract values and neither constructs nor destroys a value on balance |
| `VariantContainer.Variant.AssignValue` | tensorflow_libs/tensorflow/core/framework/variant.h:629-649 | the Variant holds the given value, the old one destroyed once |
| `VariantContainer.Variant.AssignCopy` | tensorflow_libs/tensorflow/core/framework/variant.h:187-191 | copy assignment installs the right-hand value, self-assignment changes nothing |
| `VariantContainer.Variant.AssignMove` | tensorflow_libs/tensorflow/core/framework/variant.h:193-197 | move assignment installs the right-hand value; self-assignment changes nothing |
| `VariantPool.Pool.Perform` | tensorflow_libs/tensorflow/core/framework/variant.h:581-724 | every operation on a pool of Variants does to the optional values what the specification on plain values says, and keeps every block with exactly one owner |
| `VariantPool.Pool.Run` | tensorflow_libs/tensorflow/core/framework/variant.h:581-724 | every sequence of operations on the objects is a run of the specification on plain optional values |
| `VariantPool.Pool.DropAll` | tensorflow_libs/tensorflow/core/framework/variant.h:656-666 | when all Variants are gone, the objects destroyed are as many as were constructed and the blocks freed as many as allocated |
| `VariantPool.ReplaceTwo` | tensorflow_libs/tensorflow/core/framework/variant.h:668-724 | when two Variants exchange or replace what they own, every heap block still has exactly one owner, and all other values are as before |
| `VariantPool.LedgerAssignMove` | tensorflow_libs/tensorflow/core/framework/variant.h:193-197 | move assignment keeps one owner per block and the number of live objects equal to the number of values held |
| `VariantPool.LedgerSwap` | tensorflow_libs/tensorflow/core/framework/variant.h:668-724 | a swap keeps one owner per block and exchanges exactly two values of the pool |
| `ReferenceGraph.UnrefDeletesIffSole` | tensorflow_libs/tensorflow/core/lib/core/refcount.h:97-109 | `Unref` deletes the object exactly if nothing else owns it |
| `ReferenceGraph.AddRefConserves` | tensorflow_libs/tensorflow/core/lib/core/refcount.h:92-95 | `Ref` for a new owner keeps every count equal to the number of owners |
| `ReferenceGraph.DropRefConserves` | tensorflow_libs/tensorflow/core/lib/core/refcount.h:97-109 | `Unref` keeps every count equal to the number of owners, and no owner is left dangling |
| `ReferenceGraph.LookupThenUnref` | tensorflow_libs/tensorflow/core/framework/resource_mgr.h:631-645 | the lookup of `IsResourceInitialized` followed by its unref leaves the references as they were, and deletes nothing |
| `ReferenceGraph.CountIsShared` | tensorflow_libs/tensorflow/core/framework/resource_mgr.h:461-527 | a count is the number of table entries, callers and kernels that own the resource |
| `ResourceLog.AtMostOneCreation` | tensorflow_libs/tensorflow/core/framework/resource_mgr.h:505-527 | in a legal history two creations under one key have a deletion between them |
| `ResourceLog.SameObjectReturned` | tensorflow_libs/tensorflow/core/framework/resource_mgr.h:505-527 | in a legal history two successful calls with no deletion during or between them return the same object |
| `ResourceSafety.StepInv` | tensorflow_libs/tensorflow/core/framework/resource_mgr.h:444-533 | every step of every thread, those of `LookupMany` among them, keeps the lock discipline, the reference counts and the agreement of log and table |
| `ResourceSafety.NothingUnexpected` | tensorflow_libs/tensorflow/core/framework/resource_mgr.h:517-524 | in every interleaving no pointer dangles, the `CHECK` of the creator holds, and "failed unexpectedly" is never returned |
| `ResourceSafety.ReferencesConserved` | tensorflow_libs/tensorflow/core/framework/resource_mgr.h:444-533 | in every state of every run, also between the entries of a `LookupMany`, a live resource counts exactly its owners, and a deleted one has none |
| `ResourceSafety.CreatorRunsAlone` | tensorflow_libs/tensorflow/core/framework/resource_mgr.h:517-521 | a creator runs only while its key is absent and no other thread is in a critical section of the manager |
| `ResourceSafety.OneCreationBetweenDeletions` | tensorflow_libs/tensorflow/core/framework/resource_mgr.h:505-527 | in every run at most one creation succeeds per key between deletions |
| `ResourceSafety.SameResource` | tensorflow_libs/tensorflow/core/framework/resource_mgr.h:505-527 | in every run successful callers of one key with no deletion between them get the same object |
| `ResourceSafety.SharedTableFixed` | tensorflow_libs/tensorflow/core/framework/resource_mgr.h:461-479 | in every run the table stays as it is while a thread holds the shared lock |
| `ResourceSafety.ManyOwnsWhatWasPresent` | tensorflow_libs/tensorflow/core/framework/resource_mgr.h:461-479 | in every run, when `LookupMany` lets go of the lock, entry n owns a reference to the resource of key n exactly if that key was in the table while the lock was held |
| `ResourceSafety.NoDeadlock` | tensorflow_libs/tensorflow/core/framework/resource_mgr.h:444-533 | in every state of every run in which some thread is inside an operation, some such thread can take a step |
| `ResourceSafety.ComputeLeavesNothing` | tensorflow_libs/tensorflow/core/framework/resource_op_kernel.h:60-112 | a `Compute` about to leave owns no reference of its own, whether the creator or the verification failed or not; a set `resource_` is one of the owners that its resource counts |
| `ResourceCalls.SharedLookupFindsIff` | tensorflow_libs/tensorflow/core/framework/resource_mgr.h:453-459 | in every run, a call letting go of the shared lock has found its key, and its variable owns that resource, exactly if the key was in the table while it held the lock |
| `ResourceCalls.SuccessMeansPresent` | tensorflow_libs/tensorflow/core/framework/resource_mgr.h:453-527 | in every run, the variable of a successful call owns the resource that was in the table under its key at a moment when it held the lock |
| `ResourceCalls.FailedLookupMeansAbsent` | tensorflow_libs/tensorflow/core/framework/resource_mgr.h:453-459 | in every run, a plain Lookup fails only if its key was absent at a moment when it held the shared lock |
| `ResourceCalls.LookupNeverCreates` | tensorflow_libs/tensorflow/core/framework/resource_mgr.h:453-459 | a plain Lookup never takes the exclusive lock or runs a creator |
| `ResourceCalls.FailureMeansCreatorFailed` | tensorflow_libs/tensorflow/core/framework/resource_mgr.h:505-527 | in every run, a LookupOrCreate fails only if it ran its creator, with its key absent, and the creator failed |
| `ResourceCalls.InsertsWhatWasCreated` | tensorflow_libs/tensorflow/core/framework/resource_mgr.h:517-525 | in every run, what LookupOrCreate puts into the table is the new object of its creator, which succeeded |
| `ResourceCalls.CreateInserts` | tensorflow_libs/tensorflow/core/framework/resource_mgr.h:444-451 | in every run, Create leaves the key in the table: with the resource and the reference of the caller if it was absent, and as it was otherwise |
| `ResourceCalls.CreateWasDone` | tensorflow_libs/tensorflow/core/framework/resource_mgr.h:444-451 | in every run, a Create that returns has inserted under the exclusive lock |
| `ResourceCalls.DeleteWasDone` | tensorflow_libs/tensorflow/core/framework/resource_mgr.h:529-533 | in every run, a Delete that returns has erased its key under the exclusive lock, and holds the reference of the table exactly if the key was there |
| `ResourceCalls.PublishSets` | tensorflow_libs/tensorflow/core/framework/resource_op_kernel.h:92-105 | in every run, publishing hands the reference of the local variable over to `resource_` |
| `ResourceCalls.ComputeSetsIffVerified` | tensorflow_libs/tensorflow/core/framework/resource_op_kernel.h:73-112 | in every run, at the end of a `Compute` `resource_` is set exactly if it was set before or the verification succeeded, and then it owns the verified resource; otherwise it is as before |
| `ResourceAlone.LookupAlone` | tensorflow_libs/tensorflow/core/framework/resource_mgr.h:453-459 | without interference, from any state: the variable gets a counted reference exactly if the key is there, and nothing else changes |
| `ResourceAlone.LookupOrCreateAlone` | tensorflow_libs/tensorflow/core/framework/resource_mgr.h:505-527 | without interference: a reference to the resource that is there, or a new resource in the table and in the variable, counted twice, or nothing if the creator fails |
| `ResourceAlone.CreateAlone` | tensorflow_libs/tensorflow/core/framework/resource_mgr.h:444-451 | without interference: the table takes over the reference of the caller, unless the key is there |
| `ResourceAlone.DeleteAlone` | tensorflow_libs/tensorflow/core/framework/resource_mgr.h:529-533 | without interference: the entry goes with one reference, the last one with the resource |
| `ResourceAlone.ComputeAlone` | tensorflow_libs/tensorflow/core/framework/resource_op_kernel.h:73-112 | without interference, on a kernel without a resource: the resource ends up in the table and in `resource_`, only in the table, or nowhere, as creator and verification decide, and the kernel keeps its new name |
| `ResourceAlone.ComputeAgain` | tensorflow_libs/tensorflow/core/framework/resource_op_kernel.h:73-112 | a `Compute` with `resource_` set, or whose `Init` fails, changes nothing |
| `ResourceAlone.DestroyAlone` | tensorflow_libs/tensorflow/core/framework/resource_op_kernel.h:57-71 | the destructor gives back the reference of `resource_`, and deletes a private resource from the table |
| `LookupMany.Lookup` | tensorflow_libs/tensorflow/core/framework/resource_mgr.h:461-479 | undisturbed, into free entries: entry i owns a reference to the resource of key i exactly if that key is present; each count grows by the number of entries that own it |
| `LookupMany.Release` | tensorflow_libs/tensorflow/core/framework/resource_mgr.h:461-479 | undisturbed, the vector going out of scope gives every reference back and deletes nothing: the references are as before the call |
| `HandleOps.ResourceHandlesOp.Compute` | tensorflow_libs/tensorflow/core/framework/resource_mgr.h:700-721 | the first failing allocation ends the call without output and leaves the op uninitialised; otherwise entry i is built from container and name i, and is what later calls output |
| `HandleOps.ComputeOne` | tensorflow_libs/tensorflow/core/framework/resource_mgr.h:654-681 | one handle, or with the anonymous name a new handle on each call without touching the shared one |
| `HandleOps.NextKeepsPublished` | tensorflow_libs/tensorflow/core/framework/resource_mgr.h:700-721 | no thread ever writes the handles again once they are published |
| `HandleOps.SameHandlesForAll` | tensorflow_libs/tensorflow/core/framework/resource_mgr.h:700-721 | in every interleaving all calls output the same, fully built handles |
| `HandleOps.OnlyFinishedHandles` | tensorflow_libs/tensorflow/core/framework/resource_mgr.h:718-720 | a call that is still copying its outputs has only finished handles |
| `HandleOps.FailureIsHarmless` | tensorflow_libs/tensorflow/core/framework/resource_mgr.h:709-710 | a call that fails part-way publishes nothing and leaves the mutex free for the next |
| `HandleOps.AloneIsCompute` | tensorflow_libs/tensorflow/core/framework/resource_mgr.h:700-721 | a call of the state machine that nobody interferes with does what `Compute` does, for every sequence of allocations that succeed or fail |
| `PipelineClock.DatasetBaseIterator.RecordStart` | tensorflow_libs/tensorflow/core/framework/dataset.h:820-828 | the effect on every clock of the model, including the output whose clock is stopped |
| `PipelineClock.DatasetBaseIterator.RecordStop` | tensorflow_libs/tensorflow/core/framework/dataset.h:832-840 | the effect on every clock of the model, including the output whose clock is restarted |
| `PipelineClock.Replay` | tensorflow_libs/tensorflow/core/framework/dataset.h:820-840 | any trace of calls on the objects gives each node the clock that the specification computes |
| `PipelineClock.ThreadsAreIndependent` | tensorflow_libs/tensorflow/core/framework/model.h:199-216 | starts are keyed by thread: however threads interleave, each adds to a node what it would add alone |
| `PipelineClock.OuterCall` | tensorflow_libs/tensorflow/core/framework/dataset.h:820-840 | a well-nested call adds to each node exactly its exclusive time |
| `PipelineClock.StoppedIffNothingHandedOver` | tensorflow_libs/tensorflow/core/framework/dataset.h:820-840 | no clock is left running exactly if the outermost call does not hand over to an output |
| `PipelineClock.EachNodeGetsItsOwnTime` | tensorflow_libs/tensorflow/core/framework/dataset.h:820-840 | in every interleaving of well-nested threads each node ends with the sum of its exclusive times, all clocks stopped |
| `PipelineClock.TimeIsConserved` | tensorflow_libs/tensorflow/core/framework/dataset.h:820-840 | the processing times added over all nodes sum to the outermost elapsed times minus the pauses |
| `PipelineTree.Node.Snapshot` | tensorflow_libs/tensorflow/core/framework/model.h:280-296 | a fresh tree of new nodes, isomorphic to the original with equal counters, parent links to the new parents, and no clock running |
| `PipelineTree.Node.CollectTunableParameters` | tensorflow_libs/tensorflow/core/framework/model.h:230-246 | adds to the map what the enabled part of the tree offers, an entry already there staying as it is |
| `PipelineTree.LongNameInjective` | tensorflow_libs/tensorflow/core/framework/model.h:171-172 | the long name determines name and id, whatever characters the name contains |
| `PipelineTree.LongNameShape` | tensorflow_libs/tensorflow/core/framework/model.h:171-172 | the long name is the name, `(id:`, the id in decimal, and a closing bracket |
| `PipelineTree.FirstInNameOrder` | tensorflow_libs/tensorflow/core/framework/model.h:237-241 | the parameter offered by a node is its tunable parameter of the least name |
| `PipelineTree.CollectsEachNodeOnce` | tensorflow_libs/tensorflow/core/framework/model.h:230-246 | exactly one entry for each node that is enabled, reached through enabled nodes only and has a tunable parameter |
| `PipelineTree.EnabledIff` | tensorflow_libs/tensorflow/core/framework/model.h:230-246 | the nodes walked over are exactly those for which every node from the root down to them is enabled |
| `PipelineTree.CollectKeeps` | tensorflow_libs/tensorflow/core/framework/model.h:230-246 | entries already in the map stay as they are |
| `PipelineTree.SnapshotCollectsTheSame` | tensorflow_libs/tensorflow/core/framework/model.h:230-296 | a snapshot yields the same map as the original |
| `Matrices.RotationTurns` | ImageOPs/Math/MathUtilities.cpp:58-81 | the matrix written entry by entry is the rotation by minus the angle in Rodrigues' form, for every axis |
| `Matrices.RotationTurnsPoint` | ImageOPs/Math/MathUtilities.cpp:25-56 | the same for the 4 by 4 matrix on points |
| `Matrices.TurnKeepsLength` | ImageOPs/Math/MathUtilities.cpp:25-81 | about a unit axis every length is preserved |
| `Matrices.MulApply` | ImageOPs/Math/MathUtilities.cpp:93 | applying a product applies its factors one after the other |
| `EulerAngles.MatrixTransformExtract` | ImageOPs/Math/MathUtilities.cpp:118-135 | an affine transform turns every point by the extracted rotation and then moves it by the extracted translation; it is the only such pair, and composing it gives the transform back |
| `EulerAngles.MatrixTransformCompose` | ImageOPs/Math/MathUtilities.cpp:137-158 | rotates and then translates every point, and is taken apart again without loss |
| `EulerAngles.ExtractCompose` | ImageOPs/Math/MathUtilities.cpp:118-158 | composing what was taken out restores a transform exactly if its last row is (0, 0, 0, 1) |
| `EulerAngles.MatrixEulerianAngle` | ImageOPs/Math/MathUtilities.cpp:160-175 | the loop and the three arc tangents compute the angles the lemmas below are about |
| `EulerAngles.ThreeAxisIsRotation` | ImageOPs/Math/MathUtilities.cpp:83-94 | the product of the three axis rotations is a rotation |
| `EulerAngles.Rebuild` | ImageOPs/Math/MathUtilities.cpp:160-175 | for every rotation the angles taken out build it again, gimbal lock included |
| `EulerAngles.CanonicalUnique` | ImageOPs/Math/MathUtilities.cpp:83-94 | angles with cos y not negative, and z zero where cos y is zero, are determined by their matrix |
| `EulerAngles.RoundTrip` | ImageOPs/Math/MathUtilities.cpp:83-175 | building, embedding and taking apart returns the three angles exactly if cos y > 0, or cos y = 0 and z = 0 |
| `OrbitCamera.OrbitControl.constructor` | ImageOPs/Math/OrbitControl.cpp:13-26 | sets velocities and ranges and is not initialised |
| `OrbitCamera.OrbitControl.DoInit` | ImageOPs/Math/OrbitControl.cpp:28-45 | starts straight ahead at the distance of the camera, with a range of 80 either way |
| `OrbitCamera.OrbitControl.DoRotateLeft` | ImageOPs/Math/OrbitControl.cpp:47-51 | one whole step to the left, stopping at 45 steps |
| `OrbitCamera.OrbitControl.DoRotateUp` | ImageOPs/Math/OrbitControl.cpp:59-63 | one whole step up, stopping at 60 steps |
| `OrbitCamera.OrbitControl.DoZoomIn` | ImageOPs/Math/OrbitControl.cpp:71-75 | 3 closer, stopping at the near end of the range |
| `OrbitCamera.OrbitControl.DoToLeftNearest` | ImageOPs/Math/OrbitControl.cpp:83-88 | the real-valued assignments are the step `ToLeftNearest`, which `ToNearest` is about |
| `OrbitCamera.OrbitControl.Session` | ImageOPs/Math/OrbitControl.cpp:28-95 | any sequence of commands on the object is a run of the camera in whole steps |
| `OrbitCamera.OrbitControl.GetTransform` | ImageOPs/Math/OrbitControl.cpp:97-122 | the product of the three parts for the current yaw, pitch and distance, the identity before `init` |
| `OrbitCamera.RunInRange` | ImageOPs/Math/OrbitControl.cpp:36-95 | in every run yaw is within 45 steps of pi/60, pitch within 60 steps of pi/180, and the distance within its range |
| `OrbitCamera.RepeatMoves` | ImageOPs/Math/OrbitControl.cpp:47-81 | repeating a command moves step by step up to the bound |
| `OrbitCamera.BoundReached` | ImageOPs/Math/OrbitControl.cpp:47-81 | 90 turns, 120 tilts or 54 zooms reach the bound from wherever a run has left the camera |
| `OrbitCamera.ToNearest` | ImageOPs/Math/OrbitControl.cpp:83-95 | from wherever a run has left the camera, `toLeftNearest` is a reset, 30 turns to the left and zooming in to the near bound, and `toRightNearest` its mirror image |
| `OrbitCamera.StartsAhead` | ImageOPs/Math/OrbitControl.cpp:28-45 | after `init` and after `reset` yaw and pitch are zero and the distance is that of the camera |
| `OrbitCamera.NeverThroughTarget` | ImageOPs/Math/OrbitControl.cpp:36-95 | no run reaches or passes the target exactly if the camera starts farther than 80 from it |
| `CameraTransform.TurnCommutes` | ImageOPs/Math/OrbitControl.cpp:103-111 | turning about the pitched axis after the pitch is turning about the axis before it |
| `CameraTransform.RotationIsPitchTimesYaw` | ImageOPs/Math/OrbitControl.cpp:103-111 | the rotation is the pitch times the yaw about the world's y axis |
| `CameraTransform.TransformTurns` | ImageOPs/Math/OrbitControl.cpp:101-114 | on directions the transform is the pitch times the yaw about the world's y axis |
| `CameraTransform.TransformKeepsDistance` | ImageOPs/Math/OrbitControl.cpp:101-114 | the transform preserves the distance between any two points |
| `CameraTransform.TransformOfTarget` | ImageOPs/Math/OrbitControl.cpp:101-114 | the target is seen straight ahead, whatever the yaw and the pitch |
| `CameraTransform.DirectionIs` | ImageOPs/Math/OrbitControl.cpp:40-42 | the view direction has length one and points from the camera to the target, if they differ |
| `Fingerprint.FingerprintCat64` | tensorflow_libs/tensorflow/core/platform/fingerprint.h:68-76 | the steps on the local variable compute the fingerprint the lemmas below are about |
| `Fingerprint.ShiftMixInvolution` | tensorflow_libs/tensorflow/core/platform/fingerprint.h:53 | bit i of `ShiftMix` is set exactly if bits i and i + 47 of the value differ, and `ShiftMix` is its own inverse |
| `Fingerprint.ScaleInverse` | tensorflow_libs/tensorflow/core/platform/fingerprint.h:68-76 | multiplication by `kMul` can be undone modulo 2 to the 64 |
| `Fingerprint.FirstArgument` | tensorflow_libs/tensorflow/core/platform/fingerprint.h:68-76 | with the second argument fixed every 64-bit value is the fingerprint of exactly one first argument |
| `Fingerprint.SecondArgument` | tensorflow_libs/tensorflow/core/platform/fingerprint.h:68-76 | with the first argument fixed every 64-bit value is the fingerprint of exactly one second argument |
| `Fingerprint.NotCommutative` | tensorflow_libs/tensorflow/core/platform/fingerprint.h:57-76 | exchanging the arguments 0 and the inverse of `kMul` changes the fingerprint |
| `Fingerprint.KnownValue` | tensorflow_libs/tensorflow/core/platform/fingerprint.h:68-76 | one fingerprint worked out in full, in which every step of the code changes the value |
| `Bits.XorBits` | tensorflow_libs/tensorflow/core/platform/fingerprint.h:53 | a bit of the exclusive or is set exactly if the two bits differ |
| `Strides.ComputeStride` | tensorflow_libs/tensorflow/core/framework/ops_util.h:87-99 | each stride is the product of the later sizes, wrapped to the element type |
| `Strides.StridesExactIff` | tensorflow_libs/tensorflow/core/framework/ops_util.h:87-99 | for positive sizes no stride has wrapped exactly if the product of all sizes but the first fits the element type |
| `Strides.OffsetInBuffer` | tensorflow_libs/tensorflow/core/framework/ops_util.h:87-99 | every index in bounds has its offset in the buffer |
| `Strides.OffsetsInOrder` | tensorflow_libs/tensorflow/core/framework/ops_util.h:87-99 | offsets are ordered as indices are lexicographically, and distinct indices have distinct offsets |
| `Strides.OffsetsCover` | tensorflow_libs/tensorflow/core/framework/ops_util.h:87-99 | every position of the buffer is the offset of an index in bounds |
| `Strides.FillDimsAndValidateCompatibleShape` | tensorflow_libs/tensorflow/core/framework/tensor.h:777-788 | passes exactly if the number of sizes is right and their product agrees with the number of elements modulo 2 to the 64, and then has copied the sizes |
| `Strides.ShapedIsOneToOne` | tensorflow_libs/tensorflow/core/framework/tensor.h:777-821 | sizes that pass the check re-index the buffer one to one exactly if they are positive with a product below 2 to the 64, or some size is not positive and the buffer is empty |
| `Strides.NegativeSizesPass` | tensorflow_libs/tensorflow/core/framework/tensor.h:777-788 | [-2, -2] passes for a buffer of four elements and re-indexes nothing |
| `Strides.WrappedSizesPass` | tensorflow_libs/tensorflow/core/framework/tensor.h:777-788 | two positive sizes with the product 2 to the 64 plus 4 pass for a buffer of four elements, and do not re-index it one to one |
| `DataTypeSets.CtzUint32` | tensorflow_libs/tensorflow/core/framework/types.h:165-177 | the position of the lowest bit set |
| `DataTypeSets.ClzUint32` | tensorflow_libs/tensorflow/core/framework/types.h:179-191 | the distance of the highest bit set from the top, at any width |
| `DataTypeSets.Size` | tensorflow_libs/tensorflow/core/framework/types.h:213-225 | the number of members |
| `DataTypeSets.Iterator.Next` | tensorflow_libs/tensorflow/core/framework/types.h:146-157 | moves to the next member, or to the next position if no member is left |
| `DataTypeSets.Begin` | tensorflow_libs/tensorflow/core/framework/types.h:193-201 | the first member, or 0 |
| `DataTypeSets.End` | tensorflow_libs/tensorflow/core/framework/types.h:203-211 | one past the last member, or 0 |
| `DataTypeSets.Visit` | tensorflow_libs/tensorflow/core/framework/types.h:132-211 | walking from begin to end ends and visits exactly the contained positions, in ascending order |
| `DataTypeSets.OnesAreMembers` | tensorflow_libs/tensorflow/core/framework/types.h:213-225 | counting ones counts members |
| `DataTypeSets.Union` | tensorflow_libs/tensorflow/core/framework/types.h:227-229 | a type is contained in the union exactly if it is contained in either set |
| `CostEstimate.OpKernel.UpdateCostEstimate` | tensorflow_libs/tensorflow/core/framework/op_kernel.h:149-158 | the new estimate is at most the larger of the old one and the measurement and at most their average weighted nine to one; unless the product wraps, it is that average up to rounding, and at least the smaller minus one |
| `CostEstimate.OpKernel.UpdateAll` | tensorflow_libs/tensorflow/core/framework/op_kernel.h:134-158 | after enough cheap measurements `IsExpensive` is false, and after enough expensive ones without wrapping it is what the kernel was constructed with; the estimate is the iterated one |
| `CostEstimate.CheapBecomesCheap` | tensorflow_libs/tensorflow/core/framework/op_kernel.h:134-158 | with no measurement above 5009 the operation counts as cheap after 448 measurements and from then on, from any 64-bit estimate |
| `CostEstimate.CheapStaysCheap` | tensorflow_libs/tensorflow/core/framework/op_kernel.h:134-158 | with no measurement above 5009 a cheap operation stays cheap |
| `CostEstimate.ExpensiveBecomesExpensive` | tensorflow_libs/tensorflow/core/framework/op_kernel.h:134-158 | with every measurement at least 5010 and no wrapping, the operation counts as expensive after 5001 measurements and from then on |
| `CostEstimate.NextStaysExpensiveIff` | tensorflow_libs/tensorflow/core/framework/op_kernel.h:149-158 | one update: the estimate is above the threshold under every measurement from 5010 on exactly if the product, wrapped or not, is at least 45000 |
| `CostEstimate.RunsStayExpensiveIff` | tensorflow_libs/tensorflow/core/framework/op_kernel.h:149-158 | every run with measurements between 5010 and a bound stays above the threshold exactly if the estimate is above it, the bound is below 2049638230412172420, and the estimate does not wrap or wraps to a harmless value |
| `CostEstimate.WrapsToCheap` | tensorflow_libs/tensorflow/core/framework/op_kernel.h:149-158 | from the initial estimate, three measurements of at least 5010 bring the estimate to 501 |
| `CostEstimate.RacesStayBelow` | tensorflow_libs/tensorflow/core/framework/op_kernel.h:149-158 | however racing updates interleave and get lost, the estimate never exceeds the larger of the initial value and the measurements, wrapping included |
| `CostEstimate.RacesStayCheapIff` | tensorflow_libs/tensorflow/core/framework/op_kernel.h:149-158 | however updates with measurements up to 5009 race, the operation stays cheap exactly if it is cheap and no thread is about to store a value above the threshold |
| `CostEstimate.LateStore` | tensorflow_libs/tensorflow/core/framework/op_kernel.h:149-158 | a reachable state where that condition fails: with measurements of zero only, a late store makes a cheap operation expensive again |
| `FieldCodec.FieldRoundTrip` | tensorflow_libs/tensorflow/core/framework/tensor_util.h:119-171 | every value of every type is stored in its field as it is, and converted back unchanged, 16-bit floats in 32-bit fields included |
| `FieldCodec.Ranges` | tensorflow_libs/tensorflow/core/framework/tensor_util.h:93-117 | the values of each type, which the field has to hold |
| `FieldCodec.EncodeInjective` | tensorflow_libs/tensorflow/core/framework/tensor_util.h:119-192 | the field determines the values |
| `FieldCodec.EncodePrefix` | tensorflow_libs/tensorflow/core/framework/tensor_util.h:237-240 | the first k values are encoded in the first entries |
| `FieldCodec.TensorProto.NumValues` | tensorflow_libs/tensorflow/core/framework/tensor_util.h:205-208 | the number of values encoded |
| `FieldCodec.TensorProto.AppendUninitialized` | tensorflow_libs/tensorflow/core/framework/tensor_util.h:242-247 | room for the values at the end, what was there unchanged |
| `FieldCodec.TensorProto.AddValues` | tensorflow_libs/tensorflow/core/framework/tensor_util.h:224-229 | the values follow what was in the field, in order, each as it is, a complex one as its real and then its imaginary part |
| `FieldCodec.TensorProto.CopyValues` | tensorflow_libs/tensorflow/core/framework/tensor_util.h:231-235 | copies out exactly the values that were encoded, and writes nothing beyond them |
| `FieldCodec.TensorProto.Truncate` | tensorflow_libs/tensorflow/core/framework/tensor_util.h:237-240 | keeps the encoding of the first values |
| `FieldCodec.AddAllThenCopy` | tensorflow_libs/tensorflow/core/framework/tensor_util.h:205-247 | adding batch by batch, truncating and copying returns the beginning of the concatenation of the batches, for every type |
| `TensorShapes.TensorShapeRep.Copy` | tensorflow_libs/tensorflow/core/framework/tensor_shape.h:490-501 | a copy with a vector of its own if the original has one |
| `TensorShapes.TensorShapeRep.Move` | tensorflow_libs/tensorflow/core/framework/tensor_shape.h:503-510 | takes over the bytes; the other shape owns no vector any more |
| `TensorShapes.TensorShapeRep.AssignCopy` | tensorflow_libs/tensorflow/core/framework/tensor_shape.h:518-528 | assigns the shape, reusing, freeing or making a vector as needed |
| `TensorShapes.TensorShapeRep.AssignMove` | tensorflow_libs/tensorflow/core/framework/tensor_shape.h:530-540 | frees the vector it had, takes over the bytes; the other shape owns no vector any more; on itself it frees the vector once and loses the value |
| `TensorOwnership.InvStep` | tensorflow_libs/tensorflow/core/framework/tensor.h:916-1009 | every operation keeps each count equal to the number of tensors pointing at the buffer and each vector with exactly one owner |
| `TensorOwnership.RunInv` | tensorflow_libs/tensorflow/core/framework/tensor.h:916-1009 | the same in every state of every run |
| `TensorOwnership.BufferAliveIffPointedAt` | tensorflow_libs/tensorflow/core/framework/tensor.h:916-1009 | in every run a buffer is alive exactly while a tensor points at it |
| `TensorOwnership.ShapesValid` | tensorflow_libs/tensorflow/core/framework/tensor_shape.h:490-540 | no shape owns a vector that is gone, and no two shapes own the same one |
| `TensorOwnership.NothingLeaks` | tensorflow_libs/tensorflow/core/framework/tensor_shape.h:512-516 | when no tensor is left, all buffers and vectors made have been freed |
| `TensorOwnership.OthersUnchanged` | tensorflow_libs/tensorflow/core/framework/tensor.h:916-1009 | a tensor that an operation does not name keeps its shape and its buffer |
| `TensorOwnership.MakeMeans` | tensorflow_libs/tensorflow/core/framework/tensor.h:76-84 | a new tensor has the shape asked for and a new buffer that is counted once |
| `TensorOwnership.DropMeans` | tensorflow_libs/tensorflow/core/framework/tensor.h:188-196 | dropping a tensor frees exactly the buffer that no other tensor points at |
| `TensorOwnership.CopyMeans` | tensorflow_libs/tensorflow/core/framework/tensor.h:916-919 | a copy has the shape of the original and shares its buffer |
| `TensorOwnership.MoveMeans` | tensorflow_libs/tensorflow/core/framework/tensor.h:921-924 | a tensor constructed by moving takes the buffer, but the other keeps its shape, which was const |
| `TensorOwnership.AssignCopyMeans` | tensorflow_libs/tensorflow/core/framework/tensor.h:247-250 | assignment installs shape and buffer of the right-hand side, also from itself |
| `TensorOwnership.AssignMoveMeans` | tensorflow_libs/tensorflow/core/framework/tensor.h:1000-1009 | move assignment installs them too; the other tensor owns neither buffer nor vector any more |
| `TensorPool.Tensor.AssignMove` | tensorflow_libs/tensorflow/core/framework/tensor.h:1000-1009 | the code gives the tensors the cells of the specification, and does nothing on self-assignment |
| `TensorPool.Tensor.Move` | tensorflow_libs/tensorflow/core/framework/tensor.h:921-924 | the code copies the shape and takes the buffer |
| `TensorPool.Pool.Session` | tensorflow_libs/tensorflow/core/framework/tensor.h:916-1009 | every run of operations on tensor objects is a run of the system the lemmas are about |

## Left out

- Variant: exceptions thrown by constructors, `Encode` and `Decode`, and type names; the destructor, defined in a file that is not part of this model, is taken to clear the Variant.
- VariantContainer.Variant.AssignValue: the value is an argument of its own, so assigning from the object that the Variant itself stores is excluded, because it is destroyed before it is read.
- `DoLookup`, `DoCreate` and `DoDelete` are taken from their documented contracts: a lookup adds a reference, a create fails if and only if the key is present, and a delete drops the reference of the table.
- LookupMany.Lookup: no step of another thread in between, and the vector empty before; with other threads at work the call is a stage of `ResourceProtocol`.
- LookupMany.Release: no step of another thread between the call and the release; `ResourceSafety.ReferencesConserved` has them.
- ReferenceGraph.LookupThenUnref: no step of another thread between the lookup and the unref; `ResourceSafety.ReferencesConserved` has them.
- `ContainerInfo::Init` failing and a kernel whose handle is a pair of strings; `Compute` of a kernel is modelled from the lookup on.
- HandleOps.ComputeOne: one call at a time; under interleaving it is the case of one handle of the state machine for `ResourceHandlesOp`.
- Atomicity inside one `Ref` or `Unref`; weak memory orders.
- Processing times, buffered bytes and costs recorded in signed 64-bit integers are unbounded in `PipelineClock` and `PipelineTree`, so wrapping is not modelled there; it is in `CostEstimate`, `Fingerprint` and `Strides`.
- `Clone` of the concrete node kinds is abstract in model.h; it is taken to keep the id and the name, and what else a kind copies (ratios, parameters given at construction) is not modelled.
- Concurrent updates of a tree while it is copied or searched, and the output and processing time estimates of the node kinds.
- Floating-point rounding, signed zeros (`atan2` of a negative zero), and the values of `sin`, `cos` and `atan2` themselves.
- `matrix_float4x4_perspective` and the uniform scale: no more than the expressions they consist of.
- The camera before `init`, whose target and camera are read before they are set, and a camera at its target, where `normalize` has no value.
- Signed overflow in `Strides` wraps, as two's complement hardware does; the language leaves it undefined.
- The alignment predicates of ops_util.h, and `bit_casted_shaped`, which scales both sides of the same check.
- DataTypeSets.Visit: the compiler built-ins used with GCC are taken to do what the portable loops do.
- How many racing updates it takes until no late store is outstanding; it depends on the scheduler.
- `GetValue` for complex types, which copies one scalar, and the string specialisation of the proto helper.
- FieldCodec.TensorProto.Truncate: the new size is at most the current one, which the repeated field demands.
- `SlowCopyFrom`, `DestructorOutOfLine`, `CopyFromInternal` and the destructor of `Tensor`, which are only declared, are modelled by what they are for.
- The width of dimensions in the 16-bit and 32-bit representations, and partial shapes.
- Sub-buffers, allocators, slices and the contents of buffers.
- Declared-only TensorFlow interfaces, protobuf serialisation, logging, device contexts, and the user interface, Metal and text recognition code of the app.
