# Chunk scheduling engine of the network scheduler, in Dafny

This project models the parts of the network scheduler's chunk-scheduling
engine whose logic lives in three Rust files:

- `worker_state.rs`: the per-worker state machine. It assigns, removes and
  grows scheduling units against a fixed storage budget. It jails a worker,
  which frees all its units, and releases it. It tracks the first failed
  reachability probe. It detects stalled downloads by counting assigned
  chunks that the worker's reported block ranges do not cover.
- `scheduling_unit.rs`: scheduling units (a non-empty run of chunks whose id
  is the id of its first chunk) and the bundler. The bundler cuts the stream
  of new chunks into units of `unit_size` chunks. It carries a short trailing
  group into the next batch, where that group is filled and sent again under
  the same id.
- `storage.rs`: the ingestion step. It parses listed object keys into a
  prefix and a file name. It groups objects by prefix into chunks; a group
  needs a `blocks.parquet` file, and its size is the sum of its objects'
  sizes. It checks that block ranges continue the last accepted block without
  a gap, and advances its cursor only when the whole listing is accepted.

Files: `wrappers.dfy` (Option and Result), `data_chunk.dfy` (the chunk
record), `scheduling_unit.dfy`, `worker_state.dfy`, `storage.dfy`.

State that the Rust code updates in place is modelled as a Dafny class.
`WorkerState` has the source's fields. It also has a ghost map `accounted`,
which records the bytes each assigned unit was charged. `Accounted()` says
that `assignedBytes` is the exact total of that map. `DatasetStorage` keeps
the `lastKey`/`lastBlock` cursor. Loops stay loops: the bundler, the
object-group fold, the collection of chunks, the continuity check, the
missing-chunk count and the drain in `Jail`.

Values that the source reads from the global configuration or the clock are
parameters:

- `capacity` is the worker storage budget.
- `inactiveTimeout`, `unreachableTimeout` and `staleTimeout` are the timeouts.
- `now` is the current time, in milliseconds.

Two functions from files that are not part of this model are parameters too:

- `includes` is `RangeSet::includes`, from an external crate.
- `parseChunk` is `DataChunk::new`, which parses a chunk's key into its
  block range and id.

Where the documentation and the code differ, the model follows the code.
`try_expand_unit` keeps a grown unit only when the remaining capacity is
strictly greater than the growth. A description that says the unit stays
"if the delta fits" would allow equality, as `try_assign_unit` does. So on a
worker that is exactly full, expanding a unit by 0 bytes unassigns it. The
model has the strict comparison.

## Model

| member | source | states |
|---|---|---|
| `SchedulingUnits.SchedulingUnit.SizeBytes` | crates/network-scheduler/src/scheduling_unit.rs:25-27 | the total of the chunks' sizes, so no chunk is larger than its unit; `CompletedUnitKeepsId` shows it grows by exactly what is appended |
| `SchedulingUnits.SchedulingUnit.Id` | crates/network-scheduler/src/scheduling_unit.rs:29-33 | the first chunk's id; `CompletedUnitKeepsId` shows that a filled unit keeps it, and `FullPartAt` that a unit's id depends only on its position in the chunk stream |
| `SchedulingUnits.FromSlice` | crates/network-scheduler/src/scheduling_unit.rs:16-23 | needs a non-empty slice; the unit holds exactly that slice, `num_chunks` is its length, the id is the first chunk's id |
| `SchedulingUnits.SchedulingUnit.NumChunks` | crates/network-scheduler/src/scheduling_unit.rs:21-23 | a unit always has at least one chunk |
| `SchedulingUnits.CompletedUnitKeepsId` | crates/network-scheduler/src/scheduling_unit.rs:25-33 | filling a unit with more chunks keeps its id; its size grows by exactly the appended chunks' sizes, so it never shrinks |
| `SchedulingUnits.ChunksFlatten` | crates/network-scheduler/src/scheduling_unit.rs:74-76 | the groups of `chunks(unit_size)`, concatenated, give back the chunk list in order |
| `SchedulingUnits.ChunksShape` | crates/network-scheduler/src/scheduling_unit.rs:75-77 | groups are non-empty, at most `unit_size` long, and only the last may be shorter |
| `SchedulingUnits.FullPartRest` | crates/network-scheduler/src/scheduling_unit.rs:75-79 | a stream is its complete groups followed by a rest shorter than `unit_size` |
| `SchedulingUnits.FullPartFull` | crates/network-scheduler/src/scheduling_unit.rs:75-79 | each complete group has exactly `unit_size` chunks |
| `SchedulingUnits.FullPartAppend` | crates/network-scheduler/src/scheduling_unit.rs:69-76 | appending a batch leaves the earlier complete groups alone: only the carried rest is regrouped with the new chunks |
| `SchedulingUnits.FullPartAt` | crates/network-scheduler/src/scheduling_unit.rs:29-33 | the k-th complete group is the stream slice `[k*n, (k+1)*n)`, so its unit's id depends on the stream position only |
| `SchedulingUnits.BundleBatch` | crates/network-scheduler/src/scheduling_unit.rs:66-84 | one batch: carried chunks come before the new ones; the units sent are the `chunks(unit_size)` groups and concatenate to that list; all but the last are full; the new carry is the last unit exactly when it is short; a unit that was carried is re-sent first, with the same id, as a strict extension |
| `SchedulingUnits.SentShape` | crates/network-scheduler/src/scheduling_unit.rs:74-80 | the units made from the groups of carried chunks plus a batch give those chunks back in order, are at most `unit_size` long, all but the last are full, and the first continues a carried unit under its id, strictly longer when the carried unit was short |
| `SchedulingUnits.BundleChunks` | crates/network-scheduler/src/scheduling_unit.rs:58-88 | over any split of a stream into batches, the complete units sent are exactly the stream's consecutive groups of `unit_size`, in order, and the final carry holds the rest |
| `WorkerStates.MissingChunksZero` | crates/network-scheduler/src/worker_state.rs:184-191 | the missing-chunk count is zero iff every chunk of every assigned unit has reported ranges for its dataset that include its block range |
| `WorkerStates.CollectRangesLastWins` | crates/network-scheduler/src/worker_state.rs:103-107 | a ping's ranges map has one key per listed dataset, and a dataset listed twice keeps its last entry |
| `WorkerStates.WorkerState.constructor` | crates/network-scheduler/src/worker_state.rs:68-86 | a new worker is unjailed, has nothing assigned or stored, and has every timestamp set to `now` |
| `WorkerStates.WorkerState.Ping` | crates/network-scheduler/src/worker_state.rs:100-109 | records the ping time, version and ranges; a missing stored-bytes field counts as 0; nothing else changes; afterwards the worker is active for exactly `timeout` from the ping on, for every timeout |
| `WorkerStates.WorkerState.Dialed` | crates/network-scheduler/src/worker_state.rs:111-120 | a successful probe clears `unreachableSince`, so the worker is not unreachable at any time and for any timeout; a failed one sets it only if it was unset, so the first failure time is kept, and a first failure does not make the worker unreachable yet |
| `WorkerStates.WorkerState.IsActive` | crates/network-scheduler/src/worker_state.rs:122-124 | the last ping is less than the timeout ago (a ping in the future is excluded, where the source panics); a zero timeout makes no worker active, and a worker pinged just now is active for any positive one; `Ping` ties it to the ping time |
| `WorkerStates.InactiveStays` | crates/network-scheduler/src/worker_state.rs:122-124 | without a new ping, an inactive worker stays inactive as time passes |
| `WorkerStates.WorkerState.IsUnreachable` | crates/network-scheduler/src/worker_state.rs:126-133 | needs a recorded failure older than the timeout (a failure in the future is excluded, where the source panics); it never holds at the moment of the first failure; `Dialed` and `UnreachableStays` tie it to probes and to time |
| `WorkerStates.UnreachableStays` | crates/network-scheduler/src/worker_state.rs:126-133 | once unreachable, a worker stays unreachable as time passes, and being unreachable needs a recorded failure |
| `WorkerStates.WorkerState.RemainingCapacity` | crates/network-scheduler/src/worker_state.rs:135-139 | the budget minus the assigned bytes, saturating at 0: never above the budget, and assigned plus remaining reach the budget exactly when something remains |
| `WorkerStates.WorkerState.TryAssignUnit` | crates/network-scheduler/src/worker_state.rs:141-150 | succeeds iff the size fits the remaining capacity and the unit is new; on success it adds the unit and exactly its size, otherwise nothing changes; keeps bytes within capacity and equal to the charged total |
| `WorkerStates.WorkerState.RemoveUnit` | crates/network-scheduler/src/worker_state.rs:152-156 | a no-op for an unassigned unit; otherwise it removes the unit and its size (which must not underflow); given the charged size, the accounting stays exact |
| `WorkerStates.WorkerState.TryExpandUnit` | crates/network-scheduler/src/worker_state.rs:158-170 | if the remaining capacity strictly exceeds the growth, the growth is charged and the units are unchanged; otherwise the unit (which must be assigned) is removed with its old size; for an assigned unit the result is true iff it stays assigned; capacity and accounting are kept |
| `WorkerStates.WorkerState.CountMissingChunks` | crates/network-scheduler/src/worker_state.rs:172-191 | counts the assigned units' chunks that the reported ranges do not include; every assigned unit must be known |
| `WorkerStates.WorkerState.InGracePeriod` | crates/network-scheduler/src/worker_state.rs:200-204 | the last assignment is no later than `now` and less than `staleTimeout` ago: this needs a positive timeout, and with a positive timeout holds at the moment of assignment; `ResetDownloadProgress` starts one |
| `WorkerStates.WorkerState.CheckDownloadProgress` | crates/network-scheduler/src/worker_state.rs:193-229 | needs an unjailed worker; inside the grace period it reports progress and changes nothing; otherwise progress iff the count is 0 or strictly below the stored count, and only then is the count stored |
| `WorkerStates.WorkerState.ResetDownloadProgress` | crates/network-scheduler/src/worker_state.rs:231-234 | stores the current missing-chunk count and stamps the assignment time, so the worker is in its grace period for every positive stale timeout |
| `WorkerStates.WorkerState.Jail` | crates/network-scheduler/src/worker_state.rs:236-244 | sets the jail flag and reason, zeroes bytes and missing count, empties the units, and returns each previously assigned unit exactly once |
| `WorkerStates.WorkerState.Release` | crates/network-scheduler/src/worker_state.rs:246-250 | clears the jail flag and reason and touches nothing else |
| `WorkerStates.Replay` | crates/network-scheduler/src/worker_state.rs:141-170 | for a caller that knows each unit's current size, assigns only to an unjailed worker, and expands only units the worker holds and never to a smaller size: over any sequence of assign, remove, expand, jail and release calls, the assigned bytes stay the exact total of the assigned units' sizes and within capacity, and a jailed worker holds nothing |
| `WorkerStates.AssignWhileJailed` | crates/network-scheduler/src/worker_state.rs:141-150 | `try_assign_unit` has no jail check: a jailed worker accepts a unit, so the jail rule in `Replay` is the caller's |
| `WorkerStates.ExpandUnassignedDrifts` | crates/network-scheduler/src/worker_state.rs:158-165 | `try_expand_unit` charges the growth of a unit the worker does not hold: 5 bytes are assigned to no unit, so the expand rule in `Replay` is the caller's |
| `Storage.AsU64` | crates/network-scheduler/src/storage.rs:51 | the listed signed size cast to u64: a non-negative size is kept, a negative one wraps modulo 2^64 |
| `Storage.RSplitOnce` | crates/network-scheduler/src/storage.rs:47-50 | none iff the separator is absent; otherwise prefix, separator and suffix give back the string, and the suffix has no separator |
| `Storage.TryFrom` | crates/network-scheduler/src/storage.rs:45-57 | a missing key and a key without `/` are errors; otherwise the key splits at its last `/` into prefix and file name, and a missing size becomes 0 |
| `Storage.S3Object.Key` | crates/network-scheduler/src/storage.rs:37-39 | the prefix, a `/` and the file name, each at its fixed position in the key; `SplitKey` and `KeyRoundTrip` show that splitting at the last `/` gives both parts back |
| `Storage.SplitKey` | crates/network-scheduler/src/storage.rs:37-50 | joining a prefix and a `/`-free file name with `/` and splitting at the last `/` gives both back |
| `Storage.KeyRoundTrip` | crates/network-scheduler/src/storage.rs:37-57 | parsing the printed key of an object whose file name has no `/` gives the object back |
| `Storage.GroupByPrefix` | crates/network-scheduler/src/storage.rs:108-111 | groups are non-empty runs of consecutive objects with one prefix; neighbouring runs differ in prefix; together they are the listing in order |
| `Storage.DatasetStorage.ObjectsToChunk` | crates/network-scheduler/src/storage.rs:134-160 | an empty group and a group without `blocks.parquet` are errors; otherwise the chunk is parsed from the bucket, the last object's key and the sum of the sizes |
| `Storage.DatasetStorage.CollectGroupChunks` | crates/network-scheduler/src/storage.rs:108-113 | the loop over the prefix groups returns exactly the collected chunks, or the first group's error |
| `Storage.CollectChunksOk` | crates/network-scheduler/src/storage.rs:108-113 | collecting succeeds iff every group makes a chunk; then there is one chunk per group, in order, each from a group with `blocks.parquet`, parsed from its last key and total size |
| `Storage.CollectChunksFailed` | crates/network-scheduler/src/storage.rs:112-113 | the first group that fails decides the error; later groups do not change it |
| `Storage.FirstGapIffContinuous` | crates/network-scheduler/src/storage.rs:115-127 | the check finds no gap iff the first chunk begins at the expected block and each later one right after the previous end |
| `Storage.FindGap` | crates/network-scheduler/src/storage.rs:115-127 | the continuity loop returns exactly the first expected and found block that differ (`FirstGap`), which `FirstGapIffContinuous` ties to continuity |
| `Storage.ContinuousAdjacent` | crates/network-scheduler/src/storage.rs:117-126 | in an accepted list every chunk begins one block after the previous chunk ends |
| `Storage.NewChunksOk` | crates/network-scheduler/src/storage.rs:102-131 | an accepted listing yields one chunk per prefix group, in order, each with `blocks.parquet`, continuing from `last_block + 1` (or 0) without a gap |
| `Storage.GapRejected` | crates/network-scheduler/src/storage.rs:115-125 | a listing whose chunks do not continue from the cursor is rejected with a missing-blocks error |
| `Storage.GapExample` | crates/network-scheduler/src/storage.rs:118-124 | blocks 0-99 followed by 150-199 report that blocks from 100 on are missing |
| `Storage.DatasetStorage.constructor` | crates/network-scheduler/src/storage.rs:61-68 | a new reader starts with no last key and no last block |
| `Storage.DatasetStorage.ListAllNewChunks` | crates/network-scheduler/src/storage.rs:102-132 | an empty listing yields no chunks and keeps the cursor; otherwise the result is the grouped, validated and continuity-checked chunks; on success the cursor moves to the last object's key and the last chunk's end; on any error it is unchanged |

## Left out

- The replication-aware assignment pass (`scheduler.rs`) and the worker registry (`worker_registry.rs`) are not part of this model. `Replay` stands in for their calls on one worker.
- `data_chunk.rs` is not part of this model. Chunk ids are opaque strings, and `DataChunk::new` is the `parseChunk` parameter.
- `RangeSet` comes from an external crate. Its `includes` is the `includes` parameter, so the missing-chunk results hold for any inclusion test.
- Clock reads and the global configuration are parameters. The source's `elapsed().expect(..)` panics on a timestamp in the future; `IsActive` and `IsUnreachable` require the timestamp to be no later than `now`.
- `assigned_chunks` is folded into `CountMissingChunks`. Iterating a `HashSet` has no fixed order, so the count is specified by an order-free sum (`SumValues`). `Jail` returns the drained units in an unspecified order.
- Integer widths: `assigned_bytes` (u64) cannot overflow when bytes stay within a capacity below 2^64, so it is a `nat`. Overflow of the u32 `num_missing_chunks` sum, the u64 group-size sum in `objects_to_chunk`, and the u32 `last_block + 1` / `end + 1` is not modelled.
- WorkerStates.WorkerState.RemoveUnit: requires the size of an assigned unit to be at most `assignedBytes`. The source's u64 `assigned_bytes -= unit_size` panics in a debug build and wraps in a release build otherwise. Wrap-around is not modelled, because the accounting that `Replay` keeps holds every charged size within the assigned bytes.
- WorkerStates.WorkerState.TryExpandUnit: requires `oldSize <= newSize`, and, when the unit is dropped, the unit to be assigned with `oldSize <= assignedBytes`. The source's `new_size - old_size` and `assigned_bytes -= old_size` wrap in a release build otherwise, and its `assert!` panics for an unassigned unit. `Replay` keeps the second condition through its accounting. The first is a caller rule, because units only grow.
- SchedulingUnits.SchedulingUnit.SizeBytes: the u64 sum of the chunk sizes is unbounded here; overflow would need a unit larger than 2^64 bytes.
- WorkerStates.Replay: the worker does not enforce its two caller rules. `AssignWhileJailed` shows a jailed worker taking a unit. `ExpandUnassignedDrifts` shows bytes charged to no unit. The scheduler that keeps these rules (`scheduler.rs`) is not part of this model.
- The missing-blocks error message computes `begin - 1` in u32, which underflows (a panic in debug builds) when the offending chunk begins at block 0. The model returns the expected and the found block instead of the message.
- `WorkerState::jail_reason_str`, the `Display` impls, logging and serde attributes are formatting only.
- Bundler: the spawned task, the channels and the async receive are left out. The early return when the unit receiver is dropped is not modelled.
- Ingestion: the paginated listing (`list_all_new_objects`) is left out; `ListAllNewChunks` takes its result. Also left out: the polling loop with its sleeps, cancellation and sends (`get_incoming_chunks`), `S3Storage::new`, `get_incoming_units`, and scheduler-state persistence (`load_scheduler`, `save_scheduler`). These are network calls and serialisation of a scheduler that is not part of this model.
- The query gateway, the scheduler's message server, the CLI, metrics and the logs collector are I/O and process plumbing.
