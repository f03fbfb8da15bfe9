# Verified models of torch-xpu-ops

This project models the parts of torch-xpu-ops in which the host code, or a kernel whose
source is in the repository, has to get something intricate right, and proves it for all
inputs, all runs or all reachable states.  `dafny verify dfyconfig.toml` checks everything.

**The XCCL process group.**

- `Keys.dfy`, `Rendezvous.dfy`, `Progress.dfy`, `Bootstrap.dfy`: how the ranks agree on
  communicator ids through a shared key-value store.  `Rendezvous` is the protocol as a
  transition system over any number of ranks; a run is any schedule of steps.  `Progress`
  says exactly when runs complete.  `Bootstrap` is the code of one rank, over string keys
  and string maps, proved to take exactly the steps of the protocol; rank objects that
  share one store stay together at a state that some schedule reaches, whichever goes on.
- `Traces.dfy`, `Coalescing.dfy`: the coalescing bits, the sequence numbers, the caches and
  the native group nesting of one process group, as a class with two ghost traces.
- `AllToAll.dfy`, `Decomposition.dfy`: collectives built from other operations, against
  what they should deliver.  Operations of a group take effect when the group ends, in an
  order the library chooses; `Decomposition` also has the emulated average.
- `NanCheck.dfy`, `Fp8.dfy`: the NaN check kernel, its work split and its 8-bit tests.
- `EventPool.dfy`: the recycling pool of events.

**Index and arithmetic kernels.**

- `StridedIndex.dfy`: offsets and slices of strided tensors.
- `Resample.dfy`, `NearestKernels.dfy`, `Antialias.dfy`: nearest-neighbour resampling with
  its gradient, and antialiased windows and weights, over exact reals.
- `ComplexBlas.dfy`, `DotProducts.dfy`: complex products from real ones and from lazily
  conjugated operands, over exact reals.
- `LazyCopy.dfy`: copies between devices, types and lazily conjugated or negated tensors,
  with transfers to the host that are only queued.
- `Nested.dfy`, `Padded.dfy`: padding ragged tensors and removing the padding.
- `Launches.dfy`: what a kernel launch leaves, whatever the order of its work-items.
- `Arithmetic.dfy`, `Collections.dfy`, `Complexes.dfy`: shared facts about products and
  remainders, options, sequences and traces, complex numbers.

## What the proofs found

Where a promise does not hold of the code, the code is kept as it is and the exact
condition is proved:

- Blocking communicator initialisation completes exactly when the ranks' creations are the
  projections of one global order.  Two ranks that create two communicators in opposite
  orders deadlock although every key is published (`Progress.OppositeOrdersDeadlock`).
- `checkUniformAllToAll` looks at one rank's counts, so ranks of one consistent exchange can
  take different branches.  A call of all ranks completes exactly when the check succeeds on
  all of them or on none, and a completed call delivers everything
  (`AllToAll.CallCompletesIff`; `AllToAll.BranchesCanDiverge` is a call that hangs).
- Without `XCCL_HAS_AVG`, `reduce_scatter` with AVG divides its output behind the call.
  Every rank gets the mean, for all contents and orders, exactly when the library averages
  itself, or the sizes are equal and no group is open, or there is one rank, or all
  tensors are empty (`Decomposition.AverageIff`; with sizes 1 and 2 a rank gets 1 for a
  mean of 1/2, `Decomposition.UnequalSizesAreNotAveraged`).
- The equal-size branch of `allgather` copies the rows of a flat tensor out behind the call.
  Every rank gets every input, for all contents, orders and uninitialised memory, exactly
  when the sizes differ, or no group is open, or all tensors are empty
  (`Decomposition.AllgatherIff`); in a region both of two ranks get what the flat tensor
  held before (`Decomposition.RegionGathersGarbage`).
- The NaN check reads every element exactly when there is a work-item for each head element
  and, in each block, one for each tail element (`NanCheck.EveryElementReadIff`).  Three
  bytes with work-groups of two miss a NaN (`NanCheck.SmallGroupsMiss`).
- `is_contiguous` also looks at dimensions of size 1, so it can be unset although all
  offsets are the identity (`StridedIndex.FlagAndIdentity`), as for one element of stride 5
  (`StridedIndex.UnsetFlagOnIdentity`).
- The nearest backward kernel is the gradient of the forward kernel exactly when no output
  pixel is clamped (`Resample.GradientIffUnclamped` for rows, `NearestKernels.ImagesAdjointIff`
  for whole images).  No pixel is clamped without a
  user-given scale, nor with one from which the output size was computed
  (`Resample.ComputedSizesUnclamped`); a call that passes both can lose a gradient, for
  example three output pixels for one input pixel at scale 1
  (`Resample.GivenScaleCanClamp`).
- `addmm` throws exactly when `beta != 0` and either `alpha == 0` and `self` has not as many
  elements as `out`, or a vector `self` of more than one element meets a vector `out`
  (`ComplexBlas.ReshapesIff`, `ComplexBlas.VectorBiasThrows`); on the way out it conjugates
  a conjugated `out` (`ComplexBlas.AddmmFallback`).
- `baddbmm` whose `self` is a single plain element of what `out` writes reads the real part
  it has just written, and then every imaginary part is off by `beta.im` times the change
  (`ComplexBlas.BaddbmmFallback`).  It is right on all contents exactly when there is no such
  overlap or `beta` is real (`ComplexBlas.BaddbmmRightIff`); one element in place with
  `beta == i` and `self == i` gives -1 - i for -1 (`ComplexBlas.InPlaceByUnitFails`).
- `_copy_xpu` sets the source's conj and neg bits on its contiguous temporary.  That is
  right if making the temporary keeps raw values; if it resolves them, the bits are applied
  twice (`LazyCopy.ConjugatedTwice`).
- A non-blocking copy to the host queues the transfer and flips the host tensor at once, and
  a copy that goes through a host temporary reads that temporary at once.  The copy is right
  for all contents and however long transfers take exactly when the bits are not applied
  twice, no host temporary is read that a queued transfer fills, and nothing that matters is
  flipped while a transfer is pending (`LazyCopy.RightIff`).  A conjugated device tensor
  holding -i can arrive as i (`LazyCopy.LandsAfterTheFlip`).
- `nested_from_padded` launches one block per block of the padded tensor, not one per
  constituent, and the kernel does not check.  If constituents fit, every access is in bounds
  and everything is delivered exactly when the numbers agree, or only empty constituents
  have no block, or the one block too many has no rows (`Padded.UnpadIff`).  So padding to an
  output size and removing the padding gives the ragged tensor back exactly when that size
  does not ask for more blocks than there are constituents (`Padded.RoundTripIff`); with
  one constituent of 1 x 1 and size 2 x 1 x 1 the second block writes past the output
  (`Padded.LargerBatchOverruns`).

## Hypotheses

- One thread drives one process group; coalesced regions are well bracketed and not nested;
  the counter of active groups is this group's own.  `isP2POp` is not part of this model:
  it is taken as "a send or receive outside any group".
- `store.get` blocks until the key is set; ids handed out by the runtime are distinct;
  creating a communicator either returns once the id is known or waits for all members
  (both are covered).  The id has the expected size.
- Maps of `Coalescing` are keyed by structured keys; `Keys.RenderInjective` shows that their
  texts never collide, and `Bootstrap` works on the texts.
- Native sends, receives, broadcasts and reduces of a group take effect between the group's
  end and the completion of the stream, in any order, and do what their names say.  Kernels
  queued on the stream while the group is open run before it.  Ranks that call different
  operations do not match: a receive is completed only by a send.
- Tensors that share memory share a buffer whose positions are numbered by the elements of
  the tensor that is written.  A one-dimensional tensor or a batch of matrices are the
  shapes of `ComplexBlas`.  `contiguous` copies unless the plane is contiguous already, and
  one plane of an interleaved complex buffer is so only with at most one element; `copy_`
  reads its source before it writes.
- No transfer is pending to the tensors a copy is called with, and its source is not changed
  before a queued transfer has read it.  Transfers to a host tensor come at any later moment,
  at the latest when the stream is synchronised; operations on one device run in order.
- Work-items of one launch run in any order.  Integers are unbounded (so the narrowing of
  sizes to 32 bits is not modelled), and floating-point numbers are reals in `Resample`,
  `NearestKernels`, `Antialias`, `ComplexBlas`, `DotProducts` and `LazyCopy`.

## Model

| member | source | states |
|---|---|---|
| `Keys.RenderInjective` | src/xccl/ProcessGroupXCCL.cpp:921-928 | device keys, counters, rank pairs and device/stream keys never have the same text unless they are the same key |
| `Keys.DecimalInjective` | src/xccl/xccl.h:445-452 | two numbers with the same decimal text are equal |
| `Keys.Rendered` | src/xccl/ProcessGroupXCCL.cpp:921-928 | the texts of a number, a pair and two stream keys |
| `Rendezvous.UniqueWriters` | src/xccl/xccl.h:447-460 | over every schedule each store key is set at most once, by rank 0 for counter keys and by the lower rank for pair keys |
| `Rendezvous.Agreement` | src/xccl/xccl.h:473-527 | over every schedule two ranks hold the same id exactly when they entered a communicator under the same key |
| `Rendezvous.PairsDoNotShiftGroupIds` | src/xccl/xccl.h:481-487 | the k-th group-wide communicator has the same id on all ranks that reached it, however many pair communicators each created before |
| `Rendezvous.UsesAgree` | src/xccl/ProcessGroupXCCL.cpp:761-765 | in every reachable state operations of two ranks ran on the same communicator id exactly when both are for the k-th device their rank uses, or both for the same two ranks |
| `Rendezvous.OwnUses` | src/xccl/ProcessGroupXCCL.cpp:761-765 | two operations of one rank ran on the same communicator exactly when they ask for the same device or the same peer |
| `Rendezvous.DevicesInOrder` | src/xccl/xccl.h:481-487 | the list of a program's devices holds each once, in the order of their first use |
| `Rendezvous.RunKeepsInv` | src/xccl/xccl.h:437-527 | every reachable state keeps the protocol invariant: each rank is on its plan, a key is set exactly when its writer has arrived, and ids are distinct |
| `Rendezvous.StepKeepsInv` | src/xccl/ProcessGroupXCCL.cpp:554-609 | each step of each rank keeps the protocol invariant |
| `Rendezvous.PlanNoRepeat` | src/xccl/ProcessGroupXCCL.cpp:543-552 | because communicators are cached, no rank goes through a store key twice |
| `Rendezvous.RunsAreBounded` | src/xccl/xccl.h:437-471 | every run is finite, with a bound computed from the programs |
| `Progress.CompletesIffMatched` | src/xccl/xccl.h:454-470 | when only the store blocks, a run that can go no further has finished all programs exactly when every key that is read is also in its writer's plan |
| `Progress.BlockingCompletesIffOrdered` | src/xccl/xccl.h:529-580 | when initialisation waits for all members, a run that can go no further has finished exactly when the plans are projections of one global order |
| `Progress.OppositeOrdersDeadlock` | src/xccl/ProcessGroupXCCL.cpp:920-941 | two ranks that create the group's and a pair's communicator in opposite orders finish exactly when initialisation does not block |
| `Progress.RunKeepsOrderInv` | src/xccl/xccl.h:546-580 | in every reachable state the order in which communicators became complete projects to what each rank has made |
| `Progress.OrderedIsMatched` | src/xccl/xccl.h:454-470 | plans that are projections of one global order have every read key in its writer's plan |
| `Progress.OrderedNeverStuck` | src/xccl/xccl.h:437-580 | with one global order no reachable state is stuck before all programs are finished, whether initialisation blocks or not |
| `Progress.PairMembers` | src/xccl/ProcessGroupXCCL.cpp:926-928 | the members of a pair's communicator are exactly the two ranks, and exactly those that can create it |
| `Bootstrap.Rank.BroadcastUniqueId` | src/xccl/xccl.h:473-527 | the counter advances for group-wide keys only; the writer publishes under exactly one key; a reader gets the published id or waits for that key |
| `Bootstrap.Rank.GetOrInitComm` | src/xccl/ProcessGroupXCCL.cpp:543-609 | the string-keyed code of a rank performs one protocol step, or two when the id is already there; a cached communicator is the one the protocol's operation runs on |
| `Bootstrap.Rank.FinishGet` | src/xccl/xccl.h:461-471 | returning from a blocked get is the protocol's step |
| `Bootstrap.Rank.FinishInit` | src/xccl/ProcessGroupXCCL.cpp:637-648 | filing the communicator is the protocol's step, changes no other entry, and the operation runs on it |
| `Bootstrap.GoOn` | src/xccl/ProcessGroupXCCL.cpp:543-648 | with any number of rank objects on one store, whichever goes on in whichever method, all of them model one state, which a schedule extended by this rank reaches, and the returned communicator is the one the operation runs on |
| `Bootstrap.FilesUpdate` | src/xccl/ProcessGroupXCCL.cpp:639-643 | filing under a key's text disturbs no other key |
| `Traces.GroupsOkAt` | src/xccl/ProcessGroupXCCL.cpp:576-579 | at every moment native groups are balanced, and every communicator was created at depth 0 |
| `Traces.NumbersFollowUnits` | src/xccl/ProcessGroupXCCL.cpp:767-776 | operations of a kind in one unit of work share one sequence number, later units get strictly larger ones |
| `Coalescing.NumbersExtend` | src/xccl/ProcessGroupXCCL.cpp:767-776 | counting up on the first operation of a kind in a unit keeps the counters equal to the numbers of units and operations |
| `Coalescing.CachesInsert` | src/xccl/ProcessGroupXCCL.cpp:637-643 | a new communicator gets a stream and an event under a key no other entry uses |
| `Coalescing.CreationCounts` | src/xccl/ProcessGroupXCCL.cpp:576-605 | initialisation creates one communicator, for its key, and closes and reopens every open group |
| `Coalescing.LaunchCounts` | src/xccl/ProcessGroupXCCL.hpp:317-350 | one launch per input on this communicator and stream, and one group around them where that is asked for |
| `Coalescing.LaunchesInside` | src/xccl/ProcessGroupXCCL.hpp:317-350 | the launches are inside that group |
| `Coalescing.ProcessGroup.StartCoalescing` | src/xccl/ProcessGroupXCCL.cpp:662-668 | begins one unit and one native group and keeps the invariant of bits, counters, caches and nesting |
| `Coalescing.ProcessGroup.EndCoalescing` | src/xccl/ProcessGroupXCCL.cpp:670-735 | ends the unit and its native group; the work object carries the unit's number, exists exactly for non-empty asynchronous regions, and the stream lookup finds its key |
| `Coalescing.ProcessGroup.GroupStart` | src/xccl/ProcessGroupXCCL.cpp:651-654 | the counter stays the native nesting depth |
| `Coalescing.ProcessGroup.GroupEnd` | src/xccl/ProcessGroupXCCL.cpp:656-659 | the counter stays the native nesting depth |
| `Coalescing.ProcessGroup.InitComm` | src/xccl/ProcessGroupXCCL.cpp:554-649 | creates at native depth 0, restores the depth it found, and only adds to the caches |
| `Coalescing.ProcessGroup.GetOrInitComm` | src/xccl/ProcessGroupXCCL.cpp:761-765 | returns the cached communicator or a new one and never changes an existing entry |
| `Coalescing.ProcessGroup.JoinRegion` | src/xccl/ProcessGroupXCCL.cpp:772-789 | binds the region; fails exactly when another device is bound, and then only: the communicator check cannot fail once the device check passed |
| `Coalescing.ProcessGroup.Enter` | src/xccl/ProcessGroupXCCL.cpp:767-789 | every operation is recorded under its unit's number; the multi-device error arises exactly inside a region bound to another device |
| `Coalescing.ProcessGroup.Collective` | src/xccl/ProcessGroupXCCL.cpp:743-869 | for every state: the error condition, the number, the caches, and the native calls with the stream used; all stream lookups find their key |
| `Coalescing.ProcessGroup.PickStream` | src/xccl/ProcessGroupXCCL.cpp:791-812 | an asynchronous collective runs on its communicator's stream, another on the caller's current one; the cached native stream always wraps that one, and no filed stream changes |
| `Coalescing.ProcessGroup.Launches` | src/xccl/ProcessGroupXCCL.hpp:317-350 | the launches, bracketed by a native group for coalesced fast paths, leave the depth unchanged |
| `Coalescing.ProcessGroup.PointToPoint` | src/xccl/ProcessGroupXCCL.cpp:903-1026 | inside a group the device's communicator, outside the pair's own with its own native group; all stream lookups find their key |
| `Coalescing.BothSidesMeet` | src/xccl/ProcessGroupXCCL.cpp:920-928 | outside a group the two sides of a transfer use one communicator key |
| `Coalescing.P2PKeysAgreeIff` | src/xccl/ProcessGroupXCCL.cpp:920-928 | two transfers outside groups use the same key exactly when they are between the same two ranks; inside a group the key is the device's |
| `Coalescing.P2PKeyIsCommKey` | src/xccl/ProcessGroupXCCL.cpp:920-941 | the key is the one under which the ranks agree on the communicator's id |
| `AllToAll.CheckUniform` | src/xccl/xccl.cpp:402-423 | true exactly when all counts equal the first one, it is positive, and all displacements are contiguous |
| `AllToAll.UniformIff` | src/xccl/xccl.cpp:402-423 | the check's condition is that all counts are one positive number and the segments follow each other |
| `AllToAll.PostAll` | src/xccl/xccl.cpp:458-479 | posts what the specification of the fallback lists |
| `AllToAll.PostsExactly` | src/xccl/xccl.cpp:458-479 | one send and one receive for every non-zero count, nothing else, nothing twice |
| `AllToAll.FallbackDelivers` | src/xccl/xccl.cpp:457-479 | every receive segment ends up holding the segment its sender meant for it |
| `AllToAll.FallbackTouchesNothingElse` | src/xccl/xccl.cpp:457-479 | positions outside all receive segments keep their contents |
| `AllToAll.OrderIrrelevant` | src/xccl/xccl.cpp:457-479 | the order in which matched transfers run does not matter |
| `AllToAll.GroupOutcomeUnique` | src/xccl/xccl.cpp:457-479 | neither the matching nor the order changes the outcome |
| `AllToAll.GroupCompletes` | src/xccl/xccl.cpp:457-479 | on consistent tables every post finds its partner |
| `AllToAll.FastPathAgrees` | src/xccl/xccl.cpp:442-455 | when the check holds on all ranks the native transpose equals what the fallback would deliver |
| `AllToAll.PostersMatchIff` | src/xccl/xccl.cpp:439-479 | the posts of the ranks that take the fallback find their partners among each other exactly when all ranks take the fallback or none does |
| `AllToAll.CompletedDelivers` | src/xccl/xccl.cpp:425-479 | whatever a completed call leaves, by either branch, every segment has arrived and nothing else is touched |
| `AllToAll.CallCompletesIff` | src/xccl/xccl.cpp:425-479 | a call of all ranks completes exactly when the check succeeds on all of them or on none, and then delivers |
| `AllToAll.BranchesCanDiverge` | src/xccl/xccl.cpp:402-423 | a consistent exchange on which the check holds on one rank and fails on another, and which therefore never completes |
| `Decomposition.PostAllgather` | src/xccl/ProcessGroupXCCL.cpp:1674-1682 | posts one broadcast per root, with the rank's own input only where it is the root: the list that the group is run from |
| `Decomposition.PostReduceScatter` | src/xccl/ProcessGroupXCCL.cpp:1853-1864 | posts one reduce per root, with the rank's own output only where it is the root: the list that the group is run from |
| `Decomposition.AllgatherCorrect` | src/xccl/ProcessGroupXCCL.cpp:1641-1685 | running the posted lists in any order, where an operation takes place only if all ranks name one root, every rank ends with every rank's input, exactly as the equal-size branch leaves it when no group is open |
| `Decomposition.AllgatherIff` | src/xccl/ProcessGroupXCCL.cpp:1641-1685 | whichever branch is taken: every rank gets every input, for all contents, orders and uninitialised flat tensors, exactly when the sizes differ, or no group is open, or all tensors are empty |
| `Decomposition.RegionGathersGarbage` | src/xccl/ProcessGroupXCCL.cpp:1659-1669 | two ranks with one element each in an open group: both outputs hold what the flat tensor held before the gather |
| `Decomposition.ReduceScatterCorrect` | src/xccl/ProcessGroupXCCL.cpp:1810-1867 | running the posted lists in any order, and whatever in-place reduces leave elsewhere, rank r ends with the reduction of all r-th inputs, as in the equal-size branch |
| `Decomposition.SameSizeIff` | src/xccl/ProcessGroupXCCL.cpp:28-35 | all shapes are equal; as many elements in another shape are not the same size |
| `Decomposition.SumGrows` | src/xccl/ProcessGroupXCCL.cpp:1575-1608 | the sum adds up the elements at the same place |
| `Decomposition.AverageOutput` | src/xccl/ProcessGroupXCCL.cpp:1810-1867 | whichever branch, order and leftovers: the output is the sum of the r-th inputs, divided exactly when the library averages or the sizes are equal and no group is open |
| `Decomposition.AverageIff` | src/xccl/ProcessGroupXCCL.cpp:1575-1608 | every rank gets the mean, for all contents, orders and leftovers, exactly when the library averages, or sizes are equal and no group is open, or there is one rank, or nothing to divide |
| `Decomposition.UnequalSizesAreNotAveraged` | src/xccl/ProcessGroupXCCL.cpp:1852-1867 | two ranks with tensors of one and two elements: 1 instead of the mean 1/2 |
| `NanCheck.Layout` | src/xccl/NanCheck_XPU.cpp:145-171 | head, whole packs and tail make up the tensor, and head and tail are shorter than a pack |
| `NanCheck.FirstAligned` | src/xccl/NanCheck_XPU.cpp:145-158 | the packs start at the first element whose address is a multiple of 16 bytes, if there is one |
| `NanCheck.LaunchGeometry` | src/xccl/NanCheck_XPU.cpp:188-203 | work-groups as large as the device or the tensor allows, as many as are needed, at most 24 |
| `NanCheck.CheckChunk` | src/xccl/NanCheck_XPU.cpp:118-132 | reports exactly a NaN in one of the eight packs a stride apart, all in bounds |
| `NanCheck.WalkPacks` | src/xccl/NanCheck_XPU.cpp:160-169 | the unrolled loop and the remainder loop visit the whole residue class of the work-item and report exactly its NaNs |
| `NanCheck.RunItem` | src/xccl/NanCheck_XPU.cpp:140-176 | a work-item reports exactly the NaNs among its elements, reading each of its packs once and nothing out of bounds |
| `NanCheck.EveryElementReadIff` | src/xccl/NanCheck_XPU.cpp:188-208 | every element is read by some work-item exactly when the launch covers head and tail |
| `NanCheck.LargeGroupsCover` | src/xccl/NanCheck_XPU.cpp:188-203 | a work-group limit of at least a pack's elements less one always covers |
| `NanCheck.PackReadByOne` | src/xccl/NanCheck_XPU.cpp:160-169 | each whole pack belongs to one work-item only |
| `NanCheck.LaunchDetects` | src/xccl/NanCheck_XPU.cpp:138-209 | for every length, alignment and element size, some work-item of a covering launch reports a NaN exactly when the tensor holds one |
| `NanCheck.UncoveredIsMissed` | src/xccl/NanCheck_XPU.cpp:171-175 | a NaN in an element no work-item reads is reported by none |
| `NanCheck.SmallGroupsMiss` | src/xccl/NanCheck_XPU.cpp:188-208 | a launch with work-groups of two on three bytes misses a NaN in the last one |
| `Fp8.AdditionFindsE4M3` | src/xccl/NanCheck_XPU.cpp:87-95 | the masked addition is non-zero exactly when one of eight bytes is an E4M3 NaN |
| `Fp8.AdditionFindsE5M2` | src/xccl/NanCheck_XPU.cpp:97-105 | the masked addition is non-zero exactly when one of eight bytes is an E5M2 NaN |
| `Fp8.NanBytes` | src/xccl/NanCheck_XPU.cpp:87-105 | the NaN bytes of both formats, listed |
| `Fp8.Fp8PackTest` | src/xccl/NanCheck_XPU.cpp:107-114 | the two word tests find exactly the sixteen-byte packs with a NaN |
| `Fp8.RunFp8Item` | src/xccl/NanCheck_XPU.cpp:138-176 | a work-item on an 8-bit tensor reports exactly the NaNs among its elements |
| `EventPool.XPUEventCache.CreateEvent` | src/xccl/XPUEventCache.cpp:26-47 | hands out the oldest idle event of the class or a new one, held by nobody else, and keeps the pool invariant |
| `EventPool.XPUEventCache.ReleaseEvent` | src/xccl/XPUEventCache.cpp:27-32 | the event goes to the end of its own class's list and the pool invariant is kept |
| `EventPool.Reuse` | src/xccl/XPUEventCache.cpp:37-41 | reusing keeps every event held once or idle once, and the number made equal to the peak held |
| `EventPool.Allocate` | src/xccl/XPUEventCache.cpp:42-44 | allocating happens only at a new peak, so the number made stays the peak held |
| `EventPool.Return` | src/xccl/XPUEventCache.cpp:27-32 | returning keeps every event held once or idle once in its own class |
| `EventPool.PeakIsMost` | src/xccl/XPUEventCache.cpp:37-44 | the peak is the most that was outstanding at any moment of the history |
| `StridedIndex.TensorInfo.constructor` | src/comm/TensorInfo.h:106-129 | copies the geometry; the flag is set exactly when each stride is the product of the later sizes |
| `StridedIndex.TensorInfo.ReduceDim` | src/comm/TensorInfo.h:132-135 | only that size changes, to 1 |
| `StridedIndex.TensorInfo.InnerSize` | src/comm/TensorInfo.h:145-151 | the number of elements inside one step of the dimension |
| `StridedIndex.TensorInfo.OuterSize` | src/comm/TensorInfo.h:154-160 | the number of positions outside the dimension |
| `StridedIndex.TensorInfo.Get` | src/comm/TensorInfo.h:164-199 | the loop computes the offset that the recursive specification defines |
| `StridedIndex.OffsetOfCoordinates` | src/comm/TensorInfo.h:164-199 | the element with coordinates c has the offset that is the sum of coordinates times strides |
| `StridedIndex.IdentityIffContiguous` | src/comm/TensorInfo.h:116-126 | all offsets are the identity exactly when every dimension of more than one step has the product of the later sizes as stride |
| `StridedIndex.FlagAndIdentity` | src/comm/TensorInfo.h:114-126 | the flag implies the identity; where it is unset although the identity holds, only dimensions of size 1 differ |
| `StridedIndex.UnsetFlagOnIdentity` | src/comm/TensorInfo.h:114-126 | one element with stride 5 has the flag unset although its offset is the identity |
| `StridedIndex.SliceOffsets` | src/comm/TensorInfo.h:132-199 | slice s of the reduced tensor plus k strides is the offset of element k of that slice in the original |
| `StridedIndex.SliceIdExpanded` | src/comm/TensorInfo.h:145-160 | the id of element k of slice s is (s / inner) * size * inner + k * inner + s % inner |
| `StridedIndex.SlicesInside` | src/comm/TensorInfo.h:132-160 | every element of every slice is an element of the tensor |
| `StridedIndex.SlicesEnumerate` | src/comm/TensorInfo.h:132-160 | every element of the tensor is element k of slice s for exactly one pair |
| `Resample.ScalesInverse` | src/ATen/native/xpu/UpSample.h:130-148 | the forward and the backward scale are inverse for every setting |
| `Resample.NearestContainsSample` | src/ATen/native/xpu/UpSample.h:130-200 | an output pixel copies the input pixel that contains its left edge, or its centre in the exact variant, or the last one if that lies beyond |
| `Resample.DoubleAndHalve` | src/ATen/native/xpu/UpSample.h:185-200 | doubling copies each pixel twice, halving takes the left pixel of two, or the right one in the exact variant |
| `Resample.IntervalIsFibre` | src/ATen/native/xpu/UpSample.h:185-217 | an interval of the backward index holds exactly the output pixels that copy that input pixel without being clamped, for both variants |
| `Resample.FibresIffUnclamped` | src/ATen/native/xpu/UpSample.h:185-217 | the intervals are the fibres of the forward map exactly when no output pixel is clamped |
| `Resample.DefaultScaleUnclamped` | src/ATen/native/xpu/UpSample.h:130-148 | without a user-given scale no output pixel is clamped |
| `Resample.IntervalsOrdered` | src/ATen/native/xpu/UpSample.h:202-217 | the intervals start at 0 and follow each other inside the output |
| `Resample.LastIntervalEnds` | src/ATen/native/xpu/UpSample.h:202-217 | they end at the end of the output exactly when no output pixel is clamped |
| `Resample.AdjointUpTo` | src/ATen/native/xpu/UpSample.h:202-217 | over the covered output pixels the backward sums are the transpose of the forward map, for all gradients and inputs |
| `Resample.GradientIffUnclamped` | src/ATen/native/xpu/UpSample.h:185-217 | the backward map is the transpose of the forward map for all rows exactly when no output pixel is clamped |
| `Resample.GradientConserved` | src/ATen/native/xpu/UpSample.h:202-217 | the stored gradients add up to the incoming gradients of the covered output pixels |
| `Resample.ComputedSizesUnclamped` | src/ATen/native/xpu/UpSample.h:130-148 | an output no larger than the input times the given scale clamps no pixel |
| `Resample.GivenScaleCanClamp` | src/ATen/native/xpu/UpSample.h:185-217 | three output pixels for one input pixel at scale 1: clamped, and the backward map is not the transpose |
| `NearestKernels.ForwardItem` | src/ATen/native/xpu/sycl/UpSampleNearest1dKernels.cpp:170-192 | a work-item writes its pixel of every batch as specified and nothing else |
| `NearestKernels.BackwardItem` | src/ATen/native/xpu/sycl/UpSampleNearest1dKernels.cpp:22-44 | a work-item writes, in every batch, the sum of the gradients of its interval and nothing else |
| `NearestKernels.LaunchCompletes` | src/ATen/native/xpu/sycl/UpSampleNearest1dKernels.cpp:75-103 | once all work-items have run, in any order, the result is the whole specified image |
| `NearestKernels.ImagesAdjointIff` | src/ATen/native/xpu/sycl/UpSampleNearest1dKernels.cpp:22-44 | over all batches and channels the backward image is the gradient of the forward image, for all images of these sizes, exactly when no output pixel is clamped or the images are empty |
| `Launches.LaunchOutcome` | src/ATen/native/xpu/sycl/UpSampleNearest1dKernels.cpp:75-103 | a launch whose work-items write positions of their own ends with what is wanted there and the old contents elsewhere, whatever the order |
| `Antialias.WindowInsideInput` | src/ATen/native/xpu/UpSample.h:377-393 | the window lies in the input and fits the weight buffer; it is non-empty exactly when its left edge is left of the end of the input |
| `Antialias.WindowIsSupport` | src/ATen/native/xpu/UpSample.h:377-393 | the window is exactly the input pixels whose centre lies within the support |
| `Antialias.Centres` | src/ATen/native/xpu/UpSample.h:377-386 | centres are one output pixel's width apart, the first half a width from the edge |
| `Antialias.LastCentre` | src/ATen/native/xpu/UpSample.h:377-386 | with the default scale the last centre is half a width from the other edge |
| `Antialias.BilinearIsTent` | src/ATen/native/xpu/UpSample.h:338-350 | the bilinear filter is the tent |
| `Antialias.WeightsFollowFilter` | src/ATen/native/xpu/UpSample.h:396-420 | the weights are in proportion to the filter's values at the centres of the window's pixels |
| `Antialias.OutsideWindowVanishes` | src/ATen/native/xpu/UpSample.h:338-393 | the bilinear filter vanishes on every pixel outside the window, so the window loses nothing |
| `Antialias.CenteredWindow` | src/ATen/native/xpu/UpSample.h:377-393 | a centre inside the input has a non-empty window around it |
| `Antialias.DefaultScaleCentered` | src/ATen/native/xpu/UpSample.h:151-165 | without a user-given scale every centre is inside the input |
| `Antialias.ComputeWeights` | src/ATen/native/xpu/UpSample.h:396-420 | writes the normalised weights, zeros after the window, and nothing beyond the buffer |
| `Antialias.WeightsSumToOne` | src/ATen/native/xpu/UpSample.h:396-420 | for any filter the weights of a window sum to 1 unless the raw ones sum to 0 |
| `Antialias.BilinearWeights` | src/ATen/native/xpu/UpSample.h:338-420 | the bilinear weights of every window are non-negative and vanish beyond it, and they sum to 1 exactly when the window is not empty |
| `Antialias.InterpolateSingleDim` | src/ATen/native/xpu/UpSample.h:423-438 | computes the weighted sum of the window |
| `Antialias.WeightedOfUnit` | src/ATen/native/xpu/UpSample.h:423-438 | each pixel is paired with its own weight: a unit weight picks its pixel |
| `Antialias.WeightedAdds` | src/ATen/native/xpu/UpSample.h:423-438 | the weighted sum is linear in the weights |
| `Antialias.InterpolatedBetween` | src/ATen/native/xpu/UpSample.h:376-438 | a bilinear antialiased pixel lies between the extremes of its window, for every window that is not empty |
| `ComplexBlas.ConjPhysicalGuard.Release` | src/ATen/native/xpu/Blas.cpp:44-52 | what was written to the temporary becomes the logical value of the guarded tensor |
| `ComplexBlas.Gauss` | src/ATen/native/xpu/Blas.cpp:82-91 | three real products combine to the complex row-by-column product, for every inner dimension |
| `ComplexBlas.MmFallback` | src/ATen/native/xpu/Blas.cpp:66-121 | out holds the complex product of the logical values, for every combination of conjugation bits and any sharing of memory |
| `ComplexBlas.ResultWanted` | src/ATen/native/xpu/Blas.cpp:174-204 | each of the three branches equals beta * C + alpha * A * B and looks at no operand whose scalar is zero |
| `ComplexBlas.SelfAtBelongs` | src/ATen/native/xpu/Blas.cpp:175-202 | when reshape_as succeeds, each element of out gets the element of self that broadcasting assigns to it |
| `ComplexBlas.BroadcastElement` | src/ATen/native/xpu/Blas.cpp:196-202 | broadcasting uses the one element of self that agrees with the position in every dimension of more than one step |
| `ComplexBlas.WantedElement` | src/ATen/native/xpu/Blas.cpp:174-204 | which element of self and of the product goes to each position of out, for every shape of self and out |
| `ComplexBlas.RowBias` | src/ATen/native/xpu/Blas.cpp:196-202 | a row bias of 5 and 7 is added to every row |
| `ComplexBlas.ReshapeKeepsOrder` | src/ATen/native/xpu/Blas.cpp:175-202 | reshape_as keeps the row-major order of the product and of self |
| `ComplexBlas.TimesOfUnit` | src/ATen/native/xpu/Blas.cpp:82-91 | the product takes rows of the one and columns of the other: a unit column picks an element |
| `ComplexBlas.ReshapesIff` | src/ATen/native/xpu/Blas.cpp:123-202 | reshape_as throws exactly for alpha == 0 and a self of another number of elements, or a vector self of several elements and a vector out |
| `ComplexBlas.VectorBiasThrows` | src/ATen/native/xpu/Blas.cpp:123-125 | self of size 2, mat1 of 2 x 1, mat2 of 1 x 1 and out of size 2 throw |
| `ComplexBlas.AddmmFallback` | src/ATen/native/xpu/Blas.cpp:126-207 | for matrices and vectors and any sharing of memory: it throws exactly when reshape_as does; otherwise out holds beta * C + alpha * A * B, and nothing else in its buffer changes; what out holds after a throw |
| `ComplexBlas.BaddbmmFallback` | src/ATen/native/xpu/Blas.cpp:211-284 | what out holds at every position: beta * C + alpha * A * B, and if self is a single plain element of what out writes, then with every imaginary part off by beta.im times the change of that element's real part |
| `ComplexBlas.BaddbmmRightIff` | src/ATen/native/xpu/Blas.cpp:255-281 | baddbmm is right for all contents exactly when self is not such an element or beta is real |
| `ComplexBlas.InPlaceByUnitFails` | src/ATen/native/xpu/Blas.cpp:255-281 | one element in place, beta == i, alpha == 0, self == i: -1 - i instead of -1 |
| `ComplexBlas.AddmmOut` | src/ATen/native/xpu/Blas.cpp:329-362 | the same with the shortcuts for an empty result and an empty inner dimension, whose copy fails exactly for a matrix self and a vector out |
| `ComplexBlas.BaddbmmOut` | src/ATen/native/xpu/Blas.cpp:364-397 | the same with the shortcuts for an empty result and an empty inner dimension, which overwrite nothing they still read |
| `DotProducts.DotComputes` | src/ATen/native/xpu/Blas.cpp:431-457 | for every combination of lazy bits the result is the sum of x * y of the logical values, or the mismatch error; the mutual recursion terminates |
| `DotProducts.VdotComputes` | src/ATen/native/xpu/Blas.cpp:459-487 | for every combination of lazy bits the result is the sum of conj(x) * y of the logical values, or the mismatch error |
| `DotProducts.MismatchIff` | src/ATen/native/xpu/Blas.cpp:398-425 | either call fails exactly for vectors of different types or lengths, whatever the bits |
| `DotProducts.SigmaOfUnit` | src/ATen/native/xpu/Blas.cpp:431-487 | the sums pair elements at the same index: a unit vector picks one |
| `LazyCopy.CopyDeviceToDevice` | src/ATen/native/xpu/Copy.cpp:104-173 | whichever of memcpy and the four kernels is chosen, the destination's logical value is the converted source |
| `LazyCopy.CopyHostDevice` | src/ATen/native/xpu/Copy.cpp:242-310 | raw bytes and the flips leave the source's logical value; a queued transfer to the host misses the flips that come before it, and what a host access in between finds |
| `LazyCopy.CopyXpu` | src/ATen/native/xpu/Copy.cpp:175-310 | terminates for all devices, types and layouts, blocking or not; what the destination holds when everything has arrived: the converted, expanded source, with the bits applied twice or flips missing or uninitialised memory instead where the code does that |
| `LazyCopy.CopyThroughTemporaries` | src/ATen/native/xpu/Copy.cpp:184-237 | the copies through temporaries compose to one copy, as far as the second one sees what the first one transfers, and each needs fewer temporaries |
| `LazyCopy.PickDestination` | src/ATen/native/xpu/Copy.cpp:200-217 | the first destination is contiguous, of the type that is copied, and the tensor itself where that is possible |
| `LazyCopy.TemporariesIff` | src/ATen/native/xpu/Copy.cpp:43-70 | which copies are direct: on one device, between devices with access, and of unexpanded blocks of one type and layout to or from the host |
| `LazyCopy.WantedElement` | src/ATen/native/xpu/Copy.cpp:104-173 | each element comes from the one the index map names; real types keep the real part, integers drop its fraction towards zero |
| `LazyCopy.ExpandMapRight` | src/ATen/native/xpu/Copy.cpp:196-214 | expanding takes the element at the same coordinates, with 0 where the source has one step |
| `LazyCopy.RightIff` | src/ATen/native/xpu/Copy.cpp:219-310 | the copy is right for all contents and however long transfers take exactly when bits are not applied twice, no host temporary is read that a queued transfer fills, and no flip that matters meets a pending transfer |
| `LazyCopy.RunStages` | src/ATen/native/xpu/Copy.cpp:224-237 | the two copies through the temporaries end with the converted value of the first, as far as the second one sees it |
| `LazyCopy.ConjugatedTwice` | src/ATen/native/xpu/Copy.cpp:219-224 | a conjugated host tensor holding -i arrives on the device as i if the temporary is resolved |
| `LazyCopy.LandsAfterTheFlip` | src/ATen/native/xpu/Copy.cpp:292-310 | a conjugated device tensor holding -i arrives on the host as i if the transfer comes after the host's conjugation |
| `Nested.PaddedTensorNumel` | src/ATen/native/nested/xpu/NestedTensorTransformerFunctions.cpp:21-35 | the number of elements of all constituents |
| `Nested.BatchOffsets` | src/ATen/native/nested/xpu/NestedTensorTransformerFunctions.cpp:122-137 | the prefix sums of the constituents' sizes, from 0 to the number of elements |
| `Nested.OffsetsPartition` | src/ATen/native/nested/xpu/NestedTensorTransformerFunctions.cpp:122-137 | every buffer position lies in exactly one constituent, and the last offset is the number of elements |
| `Nested.CoordinatesInvert` | src/ATen/native/nested/xpu/sycl/NestedTensorTransformerFunctionKernels.cpp:400-500 | the coordinates the three kernels compute are those of the position, in range |
| `Arithmetic.LinearInjective` | src/ATen/native/nested/xpu/sycl/NestedTensorTransformerFunctionKernels.cpp:400-500 | different coordinates have different positions |
| `Nested.AddPaddingItem` | src/ATen/native/nested/xpu/sycl/NestedTensorTransformerFunctionKernels.cpp:340-515 | a work-item fills every grain-th position of its block, the remainder included, and nothing else |
| `Nested.LaunchFills` | src/ATen/native/nested/xpu/sycl/NestedTensorTransformerFunctionKernels.cpp:549-607 | once all work-items of a launch have run, in any order and from any old contents, every position of every block holds what its work-item writes, and all others what they held |
| `Nested.LaunchExists` | src/ATen/native/nested/xpu/sycl/NestedTensorTransformerFunctionKernels.cpp:549-607 | there is such a run on all old contents |
| `Padded.ItemsDisjoint` | src/ATen/native/nested/xpu/sycl/NestedTensorTransformerFunctionKernels.cpp:549-607 | every output position belongs to exactly one work-item |
| `Padded.LaunchPads` | src/ATen/native/nested/xpu/sycl/NestedTensorTransformerFunctionKernels.cpp:549-607 | running the work-items of all blocks in any order on any old contents leaves exactly the padded tensor |
| `Padded.PaddedElement` | src/ATen/native/nested/xpu/sycl/NestedTensorTransformerFunctionKernels.cpp:340-515 | the element with coordinates c of block b is that of constituent b, or padding where it has none |
| `Padded.ApplyOutputSize` | src/ATen/native/nested/xpu/NestedTensorTransformerFunctions.cpp:171-182 | the requested size is taken, or rejected for its length or because it truncates |
| `Padded.PaddingOutcome` | src/ATen/native/nested/xpu/NestedTensorTransformerFunctions.cpp:139-182 | exactly which calls fail and how: nothing to pad, an output size of the wrong length, or one without room for some constituent; without an output size the least one with room is used |
| `Padded.ShortcutAgrees` | src/ATen/native/nested/xpu/NestedTensorTransformerFunctions.cpp:155-165 | flattening to two dimensions, padding and reshaping gives shape, contents and errors of the general path |
| `Padded.MetadataAt` | src/ATen/native/nested/xpu/NestedTensorTransformerFunctions.cpp:57-67 | where the kernel finds the sizes and the offset of a block: those of its constituent, and after the last one the padded tensor's sizes and the number of elements |
| `Padded.RemovePaddingItem` | src/ATen/native/nested/xpu/sycl/NestedTensorTransformerFunctionKernels.cpp:85-112 | a work-item of any block of the launch: whether all its accesses stay inside the metadata, the padded tensor and the output, and then it takes every grain-th element of its constituent and touches nothing else |
| `Padded.LaunchTakes` | src/ATen/native/nested/xpu/sycl/NestedTensorTransformerFunctionKernels.cpp:198-232 | running the removal work-items of all blocks in any order delivers every constituent that has a block |
| `Padded.UnpadIff` | src/ATen/native/nested/xpu/NestedTensorTransformerFunctions.cpp:69-106 | every access is in bounds and every launch delivers all constituents exactly when there are as many blocks as constituents, or only empty constituents have no block, or the one block too many has no rows |
| `Padded.LargerBatchOverruns` | src/ATen/native/nested/xpu/NestedTensorTransformerFunctions.cpp:86-94 | one constituent of 1 x 1 and a padded tensor of 2 x 1 x 1: the second block leaves the output |
| `Padded.AcceptedSizesFit` | src/ATen/native/nested/xpu/NestedTensorTransformerFunctions.cpp:168-186 | every size that padding accepts leaves room for all constituents |
| `Padded.RoundTripIff` | src/ATen/native/nested/xpu/NestedTensorTransformerFunctions.cpp:39-210 | for every padding value and every accepted output size the round trip stays in bounds and gives the ragged tensor back exactly when the size asks for no more blocks than constituents |
| `Padded.PadUnpad` | src/ATen/native/nested/xpu/NestedTensorTransformerFunctions.cpp:39-210 | a launch of the padding kernel followed by one of the removal kernel, each in any order and on any old contents, gives back the ragged tensor, for every padding value and all room in the blocks, if there is one block per constituent |

## Left out

- Bootstrap.Rank.BroadcastUniqueId: does not model ids of the wrong size in the store, an error path of its own.
- Coalescing.ProcessGroup.Collective: does not model exceptions other than the multi-device error, the work and future objects, profiling, NaN checks and graph capture; an exception that leaves a native group open is outside the hypotheses.
- Coalescing.ProcessGroup.PointToPoint: does not model the pre and post callbacks and the flight recorder.
- Coalescing.ProcessGroup.EndCoalescing: does not model recording events on the stream or resolving the future.
- Decomposition.AverageIff: does not model the other reductions' pre-multiplication, or the all-reduce and base variants of the same emulation.
- NearestKernels.BackwardItem: the two- and three-dimensional kernels, which apply the same index maps per dimension, are not modelled.
- NearestKernels.LaunchCompletes: work-items run one after the other in any order; that their positions are disjoint is what makes finer interleavings equivalent.
- Antialias.InterpolatedBetween: one dimension of the separable two-dimensional kernel; bicubic weights can be negative, so only their sum is stated (`Antialias.WeightsSumToOne`).
- ComplexBlas.MmFallback: the early return for an empty result; the oneMKL build.
- ComplexBlas.AddmmOut: resizing of out and the dispatch of matrix-vector products to it; the oneMKL build.
- DotProducts.DotComputes: the checks of dimension count and of the 32-bit stride bound, and the wrapping of the result as a lazily conjugated scalar.
- LazyCopy.CopyXpu: several streams, the staging memory of queued transfers from the host, and the lifetime of host temporaries; elements are complex, real or integer values without rounding.
- Padded.PadUnpad: three-dimensional ragged tensors; the transposing variant of the removal kernel, and tensors of more than four dimensions, which go to the generic implementation.
- Padded.UnpadIff: constituents larger than a block of the padded tensor, which have no elements to take; `NestedTensor_batch_offsets_from_size_tensor` is not part of this repository and is modelled from its name.
- Padded.ToPadded: non-contiguous nested tensors, which are rejected, and other element types or dimension counts, which go to the generic implementation; `NestedTensor_get_max_size` and `opt_size` are not part of this repository and are modelled from their names.
- Nested.AddPaddingItem: sizes and offsets are narrowed to 32 bits by the source.
- AllToAll.PostAll: buffers count in elements, not bytes; the four count and displacement arrays are one table.
- EventPool.XPUEventCache.CreateEvent: the per-thread map from devices to pools, a find-or-insert.
- `onecclGather` and `onecclScatter`, `TensorInfo::collapseDims`, cubic interpolation: easier members of the same kind, or code that is not in the repository.
- Everything that only forwards to kernels or to oneCCL, oneMKL and SYCL.
