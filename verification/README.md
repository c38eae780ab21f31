# wilupgu: a verified model

wilupgu dispatches GPU kernels through a checked host layer. This project models the parts of
it where a mistake would be hard to see, and proves what they promise.

**Kernels.** A kernel is a program of workgroups whose threads step in any order between
barriers, over shared scratch cells and global buffers (`Simt`). A kernel without races ends the
same way under every interleaving (`Schedules`). On that, the tiled matmuls, the tree reductions,
`transpose` and `gemv` are proved to leave what the single-threaded native code leaves
(`TiledMatmul`, `TreeReduction`, `TransposeKernel`, `GemvKernel`, `Native`, `NativeLaws`). As shaders
on bytes, the native ones stay inside the tensors a checked execute gives them (`Builtins`,
`NativeShaders`), and compute what their node's meta values say (`MetaLaws`). Numbers are abstract: the matmuls need only `x + 0 * 0 == x`, the reductions a commutative monoid.

**The wgpu backend.** Commands pile up in an encoder and `write_buffer` lands before the next
submit's commands (`WgpuQueue`). The backend is a class over that queue; every call sequence
answers as a machine that applies each call at once (`Wgpu`), which returns what was uploaded,
copied, cleared or computed (`WgpuLaws`).

**Plans.** A plan over ids is checked (`Plans`, `Rules`), built (`Builds`), filled (`Hollows`), bound
to a scope's slots in any map order (`Binding`), then executed (`Runs`), or recorded by address
and replayed (`Captures`, `CapturedRuns`, `Recordings`) on the CPU backend (`Cpu`), through a scope's checks
(`Scopes`, `ScopeLaws`); per-run meta fields are refreshed in between (`Dynamics`). An execute is a fold of the
plan's calls over a store by id, and a replay is an execute: a captured run, used in any way, is a
plain run of values (`PlainRuns`, `CapturedUse`).

**Tensors, values, memory.** Typed tensors over byte buffers are plain sequences of elements
(`Dtype`, `TypedTensors`, `HostAccess`). Deferred values with caches are plain evaluation
(`Deferred`). The buffer pool conserves buffers (`Pool`), and compare-and-swap areas hand out
disjoint ranges (`Areas`). Parity's worst element decides a slot (`Parity`).

## Where the code and its documentation differ

- `Scope::replay` finds tensors by address and says that a wrong pick among empty tensors can only
  make its check fail. For tensors with a buffer of their own that is so (`EmptyTensors`), but a
  failure is then possible where an execute passes: `ReplayRefusesEmpty` is such a call, and
  `Captures.Replay` gives the exact condition. The premise, that two buffers share an address only
  if both are empty, fails exactly for CPU areas with an empty part before their end
  (`Areas.SharedStartExactly`), and there a wrong pick can pass where an execute fails
  (`EmptyTensors.EmptyPartPasses`; `WrongPickOnlyFails` says exactly when not).
- Parity's `worst` counts a NaN as the furthest element. It counts an element whose error and
  tolerance are both infinite so too, and that one passes: standing first it hides a NaN after it
  (`Parity.MaskedNaN`). This is about `worst`: a NaN left in an `Output` slot is reported as
  unwritten besides.
- A live `Int4` tensor's length is rounded up to whole host words and a hollow one's is not, so a
  fill between runs of one plan can fail on length (`Hollows.FillFailsOnLength`).

## Assumptions

- Grids have z = 1 and cover the output; index products stay below 2^32, as the kernels' are `u32`.
- The first `Int4` element of a byte is its low half; kernels alone look at elements.
- While a capture is open only the capturing scope executes on the device.
- A slot belongs to the scope it is used with, and a resolver, a tensor or a recording is used by
  its one owner: Rust's compiler sees to that.
- Callers of the backends' unsafe methods keep their contracts (ranges inside buffers, slots as
  the shader expects).

## Model

| member | source | states |
|---|---|---|
| `Simt.AloneConcat` | src/tools/builtins/codes/cuda/matmul.cu:19-39 | running two stretches of one thread's code is running the first, then the second |
| `Schedules.EverySchedule` | src/tools/builtins/codes/cuda/matmul.cu:19-40 | the determinism every kernel proof uses: for a kernel whose threads, within a phase or across workgroups, never write a cell another touches, every interleaving that finishes leaves what each workgroup on its own leaves in the cells it touches, and nothing else changed |
| `Schedules.NoScheduleRaces` | src/tools/builtins/codes/cuda/sum.cu:9-17 | in every reachable state of every interleaving, two threads that can both step next never conflict on a cell |
| `Schedules.NoScheduleIsStuck` | src/tools/builtins/codes/cuda/matmul.cu:28-34 | until it is finished, every interleaving has a next step: no access is out of bounds and no barrier is waited at forever |
| `Schedules.EveryScheduleEnds` | src/tools/builtins/codes/cuda/matmul.cu:19-40 | every interleaving ends, within as many steps as there are instructions and barriers |
| `TiledMatmul.RefinesNative` | src/tools/builtins/codes/cuda/matmul.cu:4-40 | for all M, N, K, every covering grid and every interleaving, C ends as the native triple loop leaves it, past M * N too, and A and B are unchanged; only `x + 0 * 0 == x` is used of the numbers; `matmul_add` and `matmul_trp` (the other two `Variant`s) likewise |
| `TiledMatmul.KernelIsWellFormed` | src/tools/builtins/codes/cuda/matmul_trp.cu:19-39 | no phase of the tiled kernels has a race, and no index they compute in 32 bits leaves its buffer, ragged tiles included |
| `TiledMatmul.AllTiles` | src/tools/builtins/codes/wgsl/matmul.wgsl:19-58 | across the two barriers of each tile, after t tiles every thread's `sum` is the left fold of its first 16 t products, with zeros past K |
| `TiledMatmul.WorkgroupComputes` | src/tools/builtins/codes/cuda/matmul_add.cu:19-40 | a workgroup on its own leaves in each of its elements what native code leaves there, `+=` for the accumulating variant |
| `TreeReduction.LoadPhase` | src/tools/builtins/codes/cuda/dot.cu:4-22 | after the first phase a block's scratch cells hold its slice's items (products for `dot`), 0 past n |
| `TreeReduction.HalvingPhase` | src/tools/builtins/codes/cuda/sum.cu:12-17 | a halving phase leaves the sum of the cells in use as it was, in half as many cells |
| `TreeReduction.ScratchKeepsTheSum` | src/tools/builtins/codes/cuda/sum.cu:12-17 | after the phase with stride s the cells `scratch[0..s)` sum to the block's slice |
| `TreeReduction.KernelIsRaceFree` | src/tools/builtins/codes/cuda/sum.cu:4-22 | no cell is written by one thread and touched by another within a phase or from another block |
| `TreeReduction.EveryScheduleReduces` | src/tools/builtins/codes/cuda/sum.cu:4-22 | for every interleaving `partial[w]` ends as the sum of block w's slice (of products for `dot`), slots past n counting as 0, and the inputs and the rest of `partial` are unchanged |
| `TreeReduction.PartialsConserve` | docs/SHADERS.md:66-70 | the partials of any covering dispatch add up to what native code writes to `partial[0]` |
| `TreeReduction.CascadeConserves` | src/tools/builtins/codes/cuda/sum.cu:2-3 | repeating `sum` on the partials keeps the total at every level: a level of one value is native's result |
| `TreeReduction.CascadeEnds` | src/tools/builtins/codes/cuda/sum.cu:2-3 | with ceil(n / 256) blocks a pass, the levels shrink until one value is left |
| `TransposeKernel.RefinesNative` | src/tools/builtins/codes/cuda/transpose.cu:2-11 | every interleaving of a covering grid leaves what the native transpose leaves |
| `GemvKernel.RefinesNative` | src/tools/builtins/codes/cuda/gemv.cu:3-15 | every interleaving of a covering grid leaves what the native `gemv` leaves, with no law of the numbers used |
| `Native.Matmul` | src/tools/builtins/codes/native/matmul.rs:5-20 | the triple loops, in place on C: each element is its left fold (added to the old one by `matmul_add`, with B's rows and columns swapped by `matmul_trp`), and C past M * N stays |
| `Native.RowTimesColumn` | src/tools/builtins/codes/native/matmul_trp.rs:5-20 | the inner loop adds the products of one row and column in order, from 0 |
| `Native.Gemv` | src/tools/builtins/codes/native/gemv.rs:6-19 | the double loop, in place on C: one row's product, the rest of C stays |
| `Native.Transpose` | src/tools/builtins/codes/native/transpose.rs:5-15 | the double loop, in place on `dst`: the transpose, the rest of `dst` stays |
| `Native.Reduce` | src/tools/builtins/codes/native/dot.rs:5-12 | `partial[0]` is the sum of the terms, from 0, in order; the other partials stay |
| `NativeLaws.TransposeAt` | src/tools/builtins/codes/native/transpose.rs:5-15 | element (r, c) goes to (c, r) |
| `NativeLaws.TransposeTwice` | src/tools/builtins/codes/native/transpose.rs:5-15 | transposing twice restores the matrix |
| `NativeLaws.TransposedIsPlainOfTranspose` | src/tools/builtins/codes/native/matmul_trp.rs:5-20 | `matmul_trp(A, B)` is `matmul(A, transpose(B))`, for all shapes |
| `NativeLaws.WeightGradient` | docs/SHADERS.md:90-91 | `transpose` then `matmul_add` gives `dB += A^T * dC`, element by element |
| `NativeLaws.GemvIsOneRowMatmul` | src/tools/builtins/codes/native/gemv.rs:6-19 | `gemv` is `matmul` with M = 1, whatever M it is given |
| `NativeLaws.MatmulStaysInMinLens` | src/tools/builtins/mod.rs:124-128 | the matmuls depend on the first `min_lens` elements of each slot only, and leave the rest as it was |
| `NativeLaws.TransposeStaysInMinLens` | src/tools/builtins/mod.rs:136-138 | the same for `transpose` |
| `NativeLaws.GemvStaysInMinLens` | src/tools/builtins/mod.rs:130-134 | the same for `gemv` |
| `NativeLaws.ReductionStaysInMinLens` | src/tools/builtins/mod.rs:140-146 | the same for `sum` and `dot`: of the n partials only the first changes, and it depends on the first n elements only |
| `Builtins.CheckedIsContained` | src/safe/scope.rs:228-244 | a call that passes `check` on sound tensors has in each slot at least the elements its shader's `min_lens` asks for |
| `Builtins.ContainedIsRequired` | src/tools/builtins/mod.rs:120-146 | `min_lens` and the slice lengths under which the loops of the native matmuls, `gemv`, `transpose`, `dot` and `sum` are proved to index inside are the same condition |
| `NativeShaders.ReadsBack` | src/tools/builtins/codes/native/common.rs:4-17 | floats written to a slot are the floats read from it |
| `NativeShaders.Entry` | src/tools/builtins/codes/native/matmul.rs:5-20 | an entry point reads its slots' floats, runs the kernel's loops in place on the last, and writes these back: that is the code a builtin's shader has in `Cpu` |
| `NativeShaders.ResultStaysInMinLens` | src/tools/builtins/mod.rs:117-146 | what any of these kernels leaves in the first `min_lens` of its output depends on the first `min_lens` of each slot only, and past these nothing changes |
| `NativeShaders.AcceptedStaysInMinLens` | src/safe/scope.rs:178-244 | on sound tensors, passing `check` is enough: each slot then has the floats the native loops require, the call leaves their result, and any memory with the same first `min_lens` elements gets the same; the bytes past these, and every other block, stay |
| `NativeShaders.ExecuteBuiltin` | src/safe/scope.rs:178-225 | the same of an execute of a node with that shader in a scope, on any tensors and whatever its current meta: one `check` refuses changes no buffer, any other stays inside `min_lens` |
| `WgpuQueue.FreshWriteNeedsNoOrdering` | src/backends/wgpu.rs:407-418 | the meta write of a new node may land before commands still pending: the outcome is the same |
| `WgpuQueue.StagingCopy` | src/backends/wgpu.rs:251-287 | a copy to a fresh staging buffer takes what the source will hold once all queued before it is done, and disturbs nothing |
| `WgpuQueue.OneMoreCommand` | src/backends/wgpu.rs:132-144 | recording a command acts last, after all staged writes and pending commands |
| `Wgpu.Backend.Record` | src/backends/wgpu.rs:132-144 | a recorded command acts as if at once, and fewer than `submit_every` stay pending |
| `Wgpu.Backend.Submit` | src/backends/wgpu.rs:146-154 | submitting changes nothing of what the device holds once all is done, and leaves nothing pending |
| `Wgpu.Backend.WriteBuffer` | src/backends/wgpu.rs:243-249 | an upload or `update_meta` acts after every command before it: those see the old bytes |
| `Wgpu.Backend.DownloadRaw` | src/backends/wgpu.rs:251-287 | a download returns what the machine that acts at once holds |
| `Wgpu.Backend.CopyRaw` | src/backends/wgpu.rs:289-305 | owners are checked, nothing is recorded for 0 bytes, and the copy acts as if at once |
| `Wgpu.Backend.BuildNode` | src/backends/wgpu.rs:324-427 | a new node's meta holds its words, whatever is pending |
| `Wgpu.Backend.UpdateMeta` | src/backends/wgpu.rs:429-436 | runs recorded before it read the old words, runs after it the new |
| `Wgpu.Backend.ExecuteRaw` | src/backends/wgpu.rs:438-485 | owners and binding limits are checked in slot order, and the run acts as if at once |
| `Wgpu.Backend.Perform` | src/backend/mod.rs:98-103 | one call, of any kind, answers and acts as the machine that acts at once |
| `Wgpu.Backend.Drive` | src/backend/mod.rs:98-103 | for every sequence of calls and every `submit_every`, changed at any time, every reply is that of the machine that acts at once; while it isn't changed fewer than that many commands stay pending |
| `WgpuLaws.ExecuteRunsKernel` | src/backends/wgpu.rs:438-485 | what that is: an execute of this device's things, none too big to be bound, runs the kernel on the node's meta and the slots' bytes; a buffer bound for writing, in no other slot, then holds what the kernel left in its slot, and every buffer not bound for writing is as it was |
| `WgpuLaws.ExecuteRefused` | src/backends/wgpu.rs:443-460 | any other execute changes nothing, and says what is wrong with the first bad slot |
| `WgpuLaws.DownloadAfterExecute` | src/backends/wgpu.rs:251-287 | a download after an execute returns what the kernel left, whatever calls that don't write the buffer come between |
| `WgpuLaws.DownloadAfterUpload` | src/backends/wgpu.rs:243-287 | a download of what was uploaded is the data, likewise |
| `WgpuLaws.DownloadAfterClear` | src/backends/wgpu.rs:307-311 | and of what was cleared zeros, byte by byte |
| `WgpuLaws.DownloadAfterCopy` | src/backends/wgpu.rs:289-305 | and of what was copied what the source held |
| `WgpuLaws.DownloadAfterAlloc` | src/backends/wgpu.rs:215-241 | a new buffer has an id of its own, at least 4 bytes, whole words and no more than asked rounded up, all zero |
| `WgpuLaws.OthersRefused` | src/backends/wgpu.rs:215-311 | a refused copy, clear or allocation changes nothing and says why, the source first, the rounded size against the limit |
| `WgpuLaws.ExecuteAfterUpdateMeta` | src/backends/wgpu.rs:429-436 | an execute after `update_meta`, with any calls between that don't write that meta, runs the kernel on the new words |
| `WgpuLaws.NodeHoldsItsMeta` | src/backends/wgpu.rs:407-427 | a new node's meta is its words, then zeros up to the least size |
| `Blocks.WriteBackByName` | src/tools/plan/run.rs:388-400 | writing results back to blocks and to the ids that name them is the same, whichever blocks the ids got |
| `Rules.SlotKinds` | src/safe/rules.rs:53-69 | passes exactly when there is one tensor per slot, each of its slot's kind; else it says which of the two |
| `Rules.MetaTypes` | src/safe/rules.rs:72-94 | passes exactly when the values' types are the shader's meta |
| `Rules.NotAliasedExactly` | src/safe/rules.rs:163-184 | `not_aliased` passes exactly when no written slot's tensor is in another slot |
| `Rules.AliasingIsRenaming` | src/safe/rules.rs:163-184 | renaming tensors one to one changes no verdict: id-distinctness carries over to slot-distinctness |
| `Plans.NewRunSpec` | src/tools/plan/run.rs:51-68 | a plan is accepted, as it was given, exactly when each of its calls passes its checks; else the error is one of theirs |
| `Plans.PlanChecksExactly` | src/tools/plan/call.rs:38-44 | a call's checks pass exactly when its tensors are in the plan, of its slots' kinds, and unaliased |
| `ScopeLaws.FirstErrorInPlan` | src/tools/plan/run.rs:46-64 | and the error is the first thing wrong: a tensor not in the plan, then their number, then a slot's kind |
| `Plans.ReadyStays` | src/tools/plan/run.rs:75-83 | what was ready stays ready as more values become known |
| `Cpu.Device.ExecuteRaw` | src/backends/cpu.rs:214-257 | runs the node's code at once with its current meta, or, while recording, only records the call by address |
| `Cpu.Device.EndCapture` | src/backends/cpu.rs:298-309 | hands the recorded list to one new capture and stops recording |
| `Cpu.Device.Replay` | src/backends/cpu.rs:311-335 | runs the recorded calls in order on the recorded blocks, each with its node's meta now |
| `Cpu.Device.ReleaseCapture` | src/backends/cpu.rs:337-339 | releases a capture that is held, once |
| `Cpu.Node.UpdateMeta` | src/safe/mod.rs:548-555 | accepted exactly for one value of the right type per field; `lens` stay its shader's `min_lens` for its current meta; a bad meta changes nothing |
| `Cpu.InvokeAllByName` | src/tools/plan/run.rs:388-400 | a list of runs on blocks is the same list on the ids that name them |
| `Scopes.CheckPassesExactly` | src/safe/scope.rs:228-244 | `check` passes exactly when each slot has a tensor of its kind, long enough, accessed as its role says, and a written one is in no other slot |
| `ScopeLaws.FirstError` | src/safe/scope.rs:228-244 | if not it reports the first thing wrong: a slot's kind, then a slot's access or length, then a written tensor in another slot |
| `Scopes.Scope.Bind` | src/safe/scope.rs:91-100 | binds a tensor to a new slot, or refuses another device's |
| `Scopes.Scope.Execute` | src/safe/scope.rs:178-225 | checks first: a failed execute changes and records nothing; while capturing, scope and backend record the same call; else the node's code runs once |
| `ScopeLaws.ExecuteByRoles` | src/safe/scope.rs:178-225 | what running is, for any shader and roles: the code gets one word per meta value, in order, and each slot's bytes; every slot but an `Input` takes what the code leaves there, and no other buffer changes |
| `ScopeLaws.JobActs` | src/safe/scope.rs:178-225 | the same of a run's call, on its tensors by id |
| `MetaLaws.LensFromMeta` | src/tools/builtins/mod.rs:117-146 | a matmul's node with meta M, N, K has lens `M*K`, `K*N`, `M*N`; likewise `gemv`, `transpose` and the reductions, whose partials are one per workgroup |
| `MetaLaws.PartialsFit` | src/tools/builtins/mod.rs:140-146 | these are exactly what the GPU reduction's dispatch needs of its buffers |
| `MetaLaws.ExecuteSizes` | src/safe/mod.rs:168-177 | an execute of a builtin's node in terms of its meta values: it passes exactly when the tensors hold what the sizes take and are accessed right, and leaves the native kernel's result for those sizes in the last slot, and nothing else changes |
| `Scopes.Scope.EndCapture` | src/safe/scope.rs:287-302 | both lists stop together; a failed capture's raw capture is released |
| `Scopes.Scope.AbandonCapture` | src/safe/scope.rs:293-302 | a panic ends the capture on both sides and keeps no raw capture |
| `Scopes.Scope.Capture` | src/safe/scope.rs:304-342 | over any list of executes, failed ones included, ended by success, error or panic: no buffer changes, both lists agree and are off at the end, and a kept recording is the only owner of its raw capture |
| `Recordings.DropRecording` | src/safe/scope.rs:278-284 | dropping a recording releases its raw capture |
| `Recordings.Use` | src/safe/scope.rs:269-342 | over any captures, ended in any way, and drops, the device holds exactly one capture for each live recording, and no capture is released twice |
| `Scopes.Scope.Replay` | src/safe/scope.rs:344-409 | every recorded call is found and checked before anything runs; a failure changes nothing; else the raw calls run as recorded |
| `EmptyTensors.FirstsPassExactly` | src/safe/scope.rs:368-396 | whatever tensors are bound, a replay's check passes exactly when the first at each recorded address has the slot's kind and length, and no written slot's address is another's |
| `EmptyTensors.WrongPickOnlyFails` | src/safe/scope.rs:376-377 | "a wrong pick can only make `check` fail", for every `min_lens`, exactly when no first tensor at an argument's address is longer than the argument, or the arguments aren't told apart |
| `EmptyTensors.EmptyPartPasses` | src/safe/scope.rs:376-382 | in every state of every interleaving of carvers, an empty part of a CPU area before its end breaks that: bound after the part it shares its address with, its execute is refused as too short and what a replay finds for it passes |
| `EmptyTensors.FoundPassesExactly` | src/safe/scope.rs:368-396 | for tensors with blocks of their own it passes exactly when the arguments are long enough and told apart by address: a wrong pick among empty tensors can only make it fail |
| `EmptyTensors.NonEmptyToldApart` | src/safe/scope.rs:376-377 | tensors that aren't empty are always told apart |
| `EmptyTensors.EmptyTensorsConfuse` | src/safe/scope.rs:373-382 | any two empty tensors of one address, one read and one written: the call passes its check, and what is recorded of it is found in one slot twice and refused as aliased |
| `EmptyTensors.ReplayRefusesEmpty` | src/safe/scope.rs:352-409 | and it happens: two tensors of no bytes allocated on a new device, bound to a scope; their execute passes, the replay of its capture is refused |
| `Runs.BoundCheckIsLengths` | src/tools/plan/run.rs:285-328 | bound, a plan's call can only fail on its lengths: distinct ids are distinct slots, and kinds and roles were checked with the plan |
| `Runs.RecordedIsJob` | src/tools/plan/run.rs:403-409 | what a bound call runs is the plan's call on its ids' tensors, wherever they are |
| `Runs.Run.StoreFollows` | src/tools/plan/run.rs:388-400 | a run's effect on blocks is the fold of its calls over a store by id, and no other block changes |
| `Runs.Bound.ExecuteOne` | src/tools/plan/run.rs:403-409 | one bound call fails only with `TooShort`, or runs on its ids' tensors, or is recorded |
| `Runs.Bound.Execute` | src/tools/plan/run.rs:388-400 | leaves each id's tensor as folding the plan's calls in order over an id-keyed store does; on failure exactly the calls before the reported place took effect, and the error is `InCall` of `TooShort` |
| `Binding.BindTensors` | src/tools/plan/run.rs:285-300 | in whatever order the map is gone through, each id gets a slot of its own |
| `Binding.BindCalls` | src/tools/plan/run.rs:301-321 | each call is bound to its node's and its tensors' slots, with its roles, and per-run metas are tracked |
| `Binding.Bind` | src/tools/plan/run.rs:280-328 | fails exactly when the run has a hollow tensor (its own device given), and else gives a bound run that stands for the plan |
| `Dynamics.ReadDynamics` | src/tools/plan/run.rs:425-445 | fails exactly when a dynamic is unset, and gives each entry's meta with its per-run fields replaced |
| `Dynamics.ApplyDynamics` | src/tools/plan/run.rs:411-419 | fails only with `DynamicUnset`, exactly when one is unset, and then changes no meta; else, field by field, every per-run one has its dynamic's value and every other what it had |
| `Captures.Capture` | src/tools/plan/run.rs:447-465 | captures exactly when an execute would pass, touching no buffer; else the run comes back with the error and no capture is held |
| `Captures.ReplayCheckPasses` | src/safe/scope.rs:344-399 | a replay's check of a call passes exactly when an execute's does and its tensors are told apart |
| `Captures.Replay` | src/tools/plan/run.rs:561-566 | a replay leaves what an execute with the same metas leaves, and on a failed check changes no buffer; it passes exactly when an execute passes and empty tensors don't confuse it; without empty tensors it fails exactly where an execute fails, never as `NotBound` |
| `CapturedRuns.UploadTo` | src/tools/plan/run.rs:506-512 | an upload between replays changes that tensor only, and the run stays what was captured |
| `CapturedRuns.ZeroIn` | src/tools/plan/run.rs:513-518 | so does `zero` |
| `CapturedRuns.ApplyBetweenReplays` | src/tools/plan/run.rs:555-560 | `apply_dynamics` between replays: the next replay has the new metas |
| `CapturedRuns.OthersUnseen` | src/tools/plan/run.rs:506-518 | changing one tensor's block is seen by none of the run's others |
| `CapturedUse.Use` | src/tools/plan/run.rs:468-571 | over any uploads, clears, dynamics set and applied and replays of a captured run without empty tensors, each bind a new scope: every reply, and the store, metas and dynamics at the end, are the plain run's, where a passing replay is an execute by ids and a failing one changes nothing |
| `CapturedUse.DoExecute` | src/tools/plan/run.rs:388-400 | in place of a replay that passes, `Bound::execute` takes the plain run to the same state; where the replay fails it fails with that error and its call's place |
| `Builds.BuildTensor` | src/tools/plan/tensor.rs:83-95 | the tensor's kind, rounded length and first contents are its spec's |
| `Builds.Build` | src/tools/plan/run.rs:85-97 | a plan that passed `ready` is built exactly when every call has workgroups and, for the values given, no tensor shorter than its slot needs; each built call has its spec's shader, workgroups and tensors, and field by field the value given for it, or 0 where it is read before each run; a built run executes without failing until metas change |
| `Builds.BuildHollow` | src/tools/plan/run.rs:99-111 | with every tensor hollow and nothing allocated: a value not given fails it exactly when a call lacks one at the start or a length is not known as its tensor is built, and else it is built exactly when every call has workgroups and long enough tensors |
| `Hollows.FillFrom` | src/tools/plan/run.rs:203-231 | moves the live tensor of an id into its hollow place, or fails and changes nothing; neither run's calls can tell |
| `Hollows.HollowIsThat` | src/tools/plan/run.rs:99-112 | a hollow run as built is what the event of one more hollow run adds, as a fill is what `FillFrom` does |
| `Hollows.OwnershipIsLinear` | src/tools/plan/run.rs:99-112 | over any hollow builds and fills, each id's tensor is live in exactly one run, the same tensor, of its kind |
| `Hollows.PlansRunsAreLinear` | src/tools/plan/run.rs:86-112 | that holds from a plan's building on, of the tensors it built |
| `Hollows.FillFailsOnLength` | src/tools/plan/tensor.rs:97-106 | a fill fails on length exactly when an `Int4` length isn't whole host words: the live length is rounded up, the hollow one isn't |
| `TypedTensors.RangeIsInside` | src/safe/mod.rs:368-404 | every accepted range starts and ends 4-aligned inside the buffer, and a written one goes past its last element only at the tensor's end |
| `TypedTensors.ElementIsBytes` | src/backend/dtype.rs:174-196 | an element of a kind of whole bytes is its bytes in the buffer |
| `TypedTensors.UploadIsSliceUpdate` | src/safe/mod.rs:257-278 | `upload_at` succeeds exactly when kind and range fit on whole words, and is a slice update of the elements |
| `TypedTensors.DownloadIsSlice` | src/safe/mod.rs:280-298 | `download_range` gives the slice's elements; a partial-word `Int4` one is longer |
| `TypedTensors.RoundTrip` | src/safe/mod.rs:257-298 | downloading what was uploaded to a range gives the data back |
| `TypedTensors.CopyIsSliceUpdate` | src/safe/mod.rs:320-347 | a copy between tensors is a slice update, every other element unchanged |
| `HostAccess.UploadInto` | src/safe/mod.rs:261-278 | the same on the device's memory, no other block touched |
| `HostAccess.CopyBetween` | src/safe/mod.rs:320-347 | the same of `copy_into` between two tensors; a failure changes nothing |
| `HostAccess.CopySlots` | src/safe/scope.rs:131-161 | `Scope::copy`: one slot given twice is refused as `SameTensor`, and only that is; else a slice update, or a failure that changes nothing |
| `Dtype.WholeWords` | src/safe/mod.rs:150-154 | the least whole-host-word length holding `len` |
| `Dtype.BufferBytes` | src/safe/mod.rs:156-160 | the elements' bytes, rounded up to 4 |
| `Dtype.BytesFor` | src/backend/dtype.rs:227-230 | bits rounded up to bytes |
| `Deferred.Slot.Resolver` | src/tools/plan/deferred.rs:61-75 | only the first to ask for a given value gets its resolver; computed values have none |
| `Deferred.Slot.Resolve` | src/tools/plan/deferred.rs:131-137 | gives a value that had none, and no computed value is spoilt |
| `Deferred.Slot.Value` | src/tools/plan/deferred.rs:77-94 | a read ends, answers as evaluation without caches does, and keeps what it computed |
| `Deferred.Slot.ReadInputs` | src/tools/plan/deferred.rs:154-165 | inputs are read in order up to the first that isn't given |
| `Deferred.ComputedValue` | src/tools/plan/deferred.rs:154-165 | a relation has a value exactly when all its inputs have, and it is its function of theirs, item by item in their order |
| `Deferred.EvalStays` | src/tools/plan/deferred.rs:77-81 | once there is a value it stays, whatever is given later |
| `Deferred.Program.Step` | src/tools/plan/deferred.rs:35-95 | each make, give or read does that and no more; a read of a known handle answers as plain evaluation does |
| `Deferred.Program.RunAll` | src/tools/plan/deferred.rs:35-95 | over any run of makes, gives and reads: a successful read is repeated by every later one; of a fixed value it gives that, of a relation its function of the values of its inputs' handles, in order; each relation's function is called at most once, and no value has two resolvers |
| `Deferred.ReadyPlanBuilds` | src/tools/plan/run.rs:75-97 | a plan that was ready is ready whenever it is built |
| `Pool.Device.Take` | src/backend/pool.rs:33-40 | hands out a kept buffer exactly when one is kept for that kind and length |
| `Pool.Device.Recycle` | src/backend/pool.rs:42-54 | keeps the buffer, or hands it back exactly when keeping it would pass the limit |
| `Pool.Device.Drain` | src/backend/pool.rs:56-62 | empties the pool, handing out each kept buffer once |
| `Pool.Device.Alloc` | src/safe/mod.rs:80-107 | a kept buffer made for exactly this kind and rounded length, or a new one; fails for memory only when refused again with the pool emptied |
| `Pool.Device.Drop` | src/safe/mod.rs:430-439 | a dropped tensor's buffer is kept for its kind and length, or freed |
| `Pool.Serve` | src/safe/mod.rs:80-107 | over any allocations, drops and refusals: the byte count is the sum of the kept sizes and within the limit, and each buffer is owned by exactly one live tensor, or kept once, or freed |
| `Areas.RangesAreDisjoint` | src/backends/cuda.rs:536-551 | in every interleaving of carvers, the units handed out are inside the area and disjoint, CUDA's at multiples of 256, `next` is what was taken, and a refused carver still has no room |
| `Areas.BuffersAreDisjoint` | src/backends/cpu.rs:386-408 | in bytes: every buffer is inside its area from its first byte to its last, and no two overlap |
| `Areas.RefusedHasNoRoom` | src/backends/cpu.rs:386-398 | the bytes a refused carver asked for, rounded up to words, or to 256 on CUDA, are more than the area has left |
| `Areas.StartsDiffer` | src/backends/cpu.rs:382-399 | no two parts start at one place, but for empty ones of a CPU area |
| `Areas.EmptyPartSharesItsStart` | src/backends/cpu.rs:386-393 | in every state of every interleaving, an empty part of a CPU area that isn't the last thing carved starts where another part that isn't empty does |
| `Areas.SharedStartExactly` | src/safe/scope.rs:376-377 | two parts that aren't both empty share an address exactly in a CPU area with such an empty part; CUDA parts never do |
| `Areas.SharedStartHappens` | src/backends/cpu.rs:386-393 | a run where they do |
| `Areas.StepKeepsInv` | src/backends/cpu.rs:388-393 | each load, refusal, successful or failed compare-and-swap keeps that |
| `Areas.NobodyIsStuck` | src/backends/cpu.rs:388-393 | a carver that isn't done can always step, and one that has seen the latest `next` is done with its step |
| `Parity.WorstIsFirstFurthest` | src/tools/parity/mod.rs:337-357 | `worst` is None only for no pairs, and else the first element none is further over than |
| `Parity.FinitePassMeans` | src/tools/parity/mod.rs:333-357 | finite outputs pass exactly when they differ by at most `atol` plus `rtol` of the larger one, and are over by that difference |
| `Parity.OtherPassMeans` | src/tools/parity/mod.rs:89-92 | an infinity passes exactly against another number, if `rtol` is positive; a NaN never does |
| `Parity.WorstDecides` | src/tools/parity/mod.rs:89-92 | on finite or NaN outputs the worst element passes exactly when every element is within its tolerance, and a NaN anywhere makes it fail |
| `Parity.WorstDecidesUnlessMasked` | src/tools/parity/mod.rs:337-357 | on any outputs it decides exactly unless an element off by infinity, and allowed to be, stands before every other furthest one: then it passes whatever the others are |
| `Parity.MaskedNaN` | src/tools/parity/mod.rs:337-357 | such outputs: an infinity against 1 hides the NaN after it |

## Left out

- Driver, wgpu and NVRTC calls, device discovery, pipeline building and polling: foreign code. Of
  wgpu only the queue order its backend's comments state is modelled.
- CUDA streams and graphs: only `carve` of the CUDA backend is modelled.
- IEEE rounding, fused multiply-add and signed zeros: numbers are abstract; a float sum's start at
  0 is the monoid's zero. Parity has infinities and NaN, but exact arithmetic.
- WGSL `sum` and `dot`: their `select` evaluates a read past the end and discards it; the CUDA form
  is modelled. The WGSL matmuls, `gemv` and `transpose` are the CUDA ones.
- `gemv_add`, the elementwise and the fill kernels: only easy members.
- Data-dependent control flow in kernels: none of the modelled kernels has any, so a thread's work
  between two barriers is a list of instructions.
- `Run::edit`, `replace`, `CapturedRun::release` and `src/tools/spread`: not part of this model.
- Parity's `totals`, its reports with their unwritten and overrun elements, and its random inputs.
- I/O logging, error texts, `usize` and `u64` overflow of absurd sizes, and the `u32` counter of
  pending commands wrapping around.
- Freeing of device memory in the plan stack: a block stays once allocated. The pool has its own
  model, and `Builds` allocates anew; contents of a reused buffer are not modelled.
- Tensors carved from an area inside plans and scopes: `Areas` stands alone, but for what a replay
  finds at their addresses (`EmptyTensors`).
- A device that doesn't support a kind, outside `Pool`: the CPU backend supports all.
- Deferred values read by several threads at once: reads are sequential. Inputs and outputs of a
  relation share one type of amounts.
- The closure of `Scope::capture` is a list of executes and how it ends; calls other than executes
  inside it are not modelled.
- Update of a node's meta while it is bound twice, and foreign buffers handed to an upload: excluded
  by Rust's borrows.
- Cpu.Device.BeginCapture: a second begin panics in the code and is a precondition here.
- Areas.RangesAreDisjoint: an area's `usize` and `u64` sums are unbounded here.
- Scopes.Scope.Bind: tensors carved from an area are not bound here, so an empty part and the part
  that starts where it does are not in one scope; `Areas.SharedStartExactly` says when they could be.
- Builds.Build: a binary the backend doesn't accept, a workgroup limit and a refused allocation have
  no counterpart; the CPU backend takes native code, any workgroups, and aborts without memory.
- Builds.BuildHollow: the same.
- Plans.ReadyStays: deferred values enter plans as what is known of them at a moment; `Deferred`
  shows that this only grows.
