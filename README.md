# image-download-config: discard policy and byte accounting

The pipeline configures a remote disk image. It then reads the image's
partition table and tries to mount every native Linux partition (type code
131). A partition that cannot be mounted has its whole extent discarded. A
mounted filesystem is trimmed when it offers trim. The image is then streamed
to a file. At the end the pipeline reports two totals: the bytes the disk
knows, and the bytes its block map asks to be written.

This project models those three steps:

- `selection.dfy`, module `Selection`: the partition-selection loop. The
  method `SelectPartitions` is proved against the reference function
  `Selected`.
- `planner.dfy`, module `Planner`: mounting with a discard fallback, then
  trimming.
  - The disk is a `Disk` object that only records the requests it receives:
    `Discarded(offset, size)` and `Trimmed(partition)`.
  - Each mount's result is an input, given as a function from partition
    number to `MountFailed` or `Mounted(hasTrim)`.
  - `ApplyDiscardPolicy` is proved to leave exactly `PlanEvents(partitions,
    outcome)` in the log. The lemmas below state what that log holds.
- `accounting.dfy`, module `Accounting`: `knownLength` and `bytesToWrite`.
  Both are `map` followed by `reduce((a, b) => a + b)` with no initial value.
  `ReduceAdd` models that reduce: it is an error on an empty array and
  otherwise a left fold seeded with the first element. It is proved equal
  to a reference sum.

The policy is modelled sequentially. Every mount attempt comes first, in
partition order, with its discard if it fails. Then every trim follows, in
the same order. This is the order the source's results are consumed in:
trimming starts only once every mount attempt has settled.

## Model

| member | source | states |
|---|---|---|
| Selection.Selected | index.js:51-56 | every selected number names a partition of the table (1 ≤ n ≤ number of partitions) |
| Selection.SelectedMembers | index.js:51-54 | n is selected if and only if partition n (1-based) has type 131 |
| Selection.SelectedIncreasing | index.js:51-54 | the selected numbers are strictly ascending, so each appears once |
| Selection.SelectPartitions | index.js:49-56 | the loop's `partitionNumbers` equals `Selected(partitions)`; `partitionsByNumber` has a key exactly for each selected number, mapped to `partitions[n-1]` |
| Planner.Disk.Discard | index.js:63 | a discard request appends `Discarded(offset, size)` to the disk's log and nothing else |
| Planner.Disk.Trim | index.js:73 | a trim appends `Trimmed(partition)` to the disk's log and nothing else |
| Planner.Slot | index.js:58-65 | the slot one mount attempt leaves: null when the mount fails, otherwise the filesystem of that partition with its trim flag; its contract is given by `Planner.MountSlots` |
| Planner.MountResults | index.js:58-66 | the filesystem list over the attempted numbers, one slot each, in order; its contract is given by `Planner.MountSlots` |
| Planner.FailureDiscards | index.js:58-66 | the discard requests issued while the attempted numbers are mounted in turn; its contract is given by `Planner.DiscardsFollowFailures` |
| Planner.TrimEvents | index.js:67-76 | the trim requests issued over a filesystem list; its contract is given by `Planner.TrimsFollowSlots` |
| Planner.PlanEvents | index.js:47-77 | everything the disk receives from the policy; its contract is given by `Planner.DiscardPerFailedPartition`, `Planner.TrimPerTrimmablePartition` and `Planner.TrimmedIff` |
| Planner.MountAll | index.js:58-66 | returns one slot per selected number, in order; the log grows by exactly the discards of the failed partitions, each taken from `partitionsByNumber` |
| Planner.TrimAll | index.js:67-77 | the log grows by one trim per non-null slot whose filesystem has trim; other slots add nothing and raise no error |
| Planner.ApplyDiscardPolicy | index.js:47-77 | the whole policy leaves exactly `PlanEvents(partitions, outcome)` appended to the disk's log |
| Planner.LookupCoversSelection | index.js:61 | the lookup `partitionsByNumber[number]` always succeeds for a selected number and yields that partition's own descriptor |
| Planner.MountSlots | index.js:58-66 | the filesystem list has one entry per selected partition, in order; an entry is null exactly when that mount failed, and otherwise is that partition's filesystem |
| Planner.FailedNumbersMembers | index.js:52-64 | the partitions whose mount fails are exactly the type-131 partitions with a failed mount, in ascending order with no repeats |
| Planner.TrimmedNumbersMembers | index.js:52-74 | the partitions to trim are exactly the type-131 partitions that mount with trim, in ascending order with no repeats |
| Planner.DiscardsFollowFailures | index.js:58-66 | over any list of attempted numbers, the discards issued match the failed numbers one to one, in order, each over that partition's `(offset, size)` |
| Planner.TrimsFollowSlots | index.js:67-76 | over any list of attempted numbers, the trims issued match the numbers that mounted with trim one to one, in order |
| Planner.DiscardPerFailedPartition | index.js:58-66 | the log opens with exactly one discard per failed partition, in order, each over that partition's own extent |
| Planner.TrimPerTrimmablePartition | index.js:67-77 | after the discards the log holds exactly one trim per trimmable partition, in order, and nothing else |
| Planner.TrimmedIff | index.js:69-75 | partition n is trimmed if and only if it has type 131 and its mount yields a filesystem with trim |
| Planner.OtherPartitionsUntouched | index.js:52-66 | a partition whose type is not 131 is never selected, never mounted, never discarded and never trimmed |
| Planner.DiscardOnlyOnFailure | index.js:60-64 | a partition that mounted is never discarded; a discarded partition is never trimmed |
| Planner.TwoPartitionScenario | index.js:58-77 | with two Linux partitions, the first mounting without trim and the second failing, the only request is the discard of the second's extent |
| Accounting.ReduceAdd | index.js:100-102 | `reduce((a, b) => a + b)` with no initial value, as used at index.js:100-102 and 111-113; its contract is given by `Accounting.ReduceAddIsSum` |
| Accounting.ChunkLength | index.js:99 | `Math.max(chunk.end - chunk.start + 1, 0)` for one chunk; its contract is given by `Accounting.InvertedChunkIgnored` and `Accounting.KnownLengthSpec` |
| Accounting.ChunkLengths | index.js:98-99 | the mapped array of clamped chunk lengths; its contract is given by `Accounting.ClampedTotalIsSum` |
| Accounting.KnownLength | index.js:98-102 | `knownLength`; its contract is given by `Accounting.KnownLengthSpec` |
| Accounting.RangeBytes | index.js:109-110 | the mapped array of `(end - start + 1) * 512` per block-map range; its contract is given by `Accounting.RangeBytesIsScaledCount` |
| Accounting.BytesToWrite | index.js:109-113 | `bytesToWrite`; its contract is given by `Accounting.BytesToWriteSpec` |
| Accounting.FoldAddIsSum | index.js:100-102 | a left fold of additions from an accumulator equals the accumulator plus the sum |
| Accounting.ReduceAddIsSum | index.js:100-102 | `reduce((a, b) => a + b)` without an initial value fails on the empty array, and otherwise equals the sum of the elements |
| Accounting.ClampedTotalIsSum | index.js:98-100 | the mapped chunk lengths add up to the sum over chunks of `max(end-start+1, 0)` |
| Accounting.RangeBytesIsScaledCount | index.js:109-110 | the mapped range byte counts add up to 512 times the total of `end-start+1` over the ranges |
| Accounting.KnownLengthSpec | index.js:98-102 | `knownLength` fails on an empty chunk list; otherwise it is the sum over chunks of `max(end-start+1, 0)`, and it is never negative |
| Accounting.InvertedChunkIgnored | index.js:99 | with an inverted chunk (end < start) inserted anywhere, `knownLength` succeeds and equals the clamped total of the other chunks; when the other chunks are non-empty, `knownLength` is unchanged by the insertion; a list holding only the inverted chunk gives 0 where the empty list is the reduce error |
| Accounting.KnownLengthAtMostCapacity | index.js:97-103 | for sorted, disjoint, well-formed chunks inside a disk of the given capacity, `knownLength` is defined and at most that capacity |
| Accounting.BytesToWriteSpec | index.js:109-113 | `bytesToWrite` fails on an empty range list; otherwise it is 512 times the total of `end-start+1` over the ranges, and so a multiple of 512 |
| Accounting.BlockCountMatchesClampedTotal | index.js:99-110 | for well-formed ranges, the unclamped and clamped totals agree and count at least one block per range |
| Accounting.BytesToWriteBounds | index.js:105-113 | for sorted, disjoint, well-formed block ranges within the first `blocks` blocks, `bytesToWrite` is at least 512 bytes per range and at most `512 * blocks` |
| Accounting.ExampleTotals | index.js:98-113 | chunks [0,1023] and [2048,4095] give 3072 known bytes; block ranges [0,1] and [4,7] give 3072 bytes to write |

## Left out

- The object-store client and its switch to unauthenticated `getObject`/`headObject` requests (index.js:15-29). This is a network client inside a foreign SDK.
- The disk library's own behaviour: how it records known chunks on reads, writes and discards, its "record reads" and "discard is zero" flags (index.js:31-37), and how `getBlockMapAsync` aligns and merges ranges (index.js:105). That library is not part of this model. Known chunks and block-map ranges are taken as given lists. `KnownLengthAtMostCapacity` and `BytesToWriteBounds` take as a premise the shape that the disk library keeps its chunks in: sorted, disjoint and within the disk.
- Configuration injection (index.js:42) and partition-table parsing (index.js:45). These are external libraries; the partition list is an input.
- The mount itself and the filesystem's trim (index.js:59, 73). The mount result is an input per partition number. A trim is one abstract `Trimmed` event; what the trim discards inside the filesystem is not modelled.
- The scoped release of mount handles and the concurrent start of all mounts and all trims (index.js:58-69). The model runs them one after another. The code does not release each mount before the next partition is processed. It starts every mount at once and holds all of them until every trim has finished. The model follows the code's order of effects (all discards, then all trims) and says nothing about handle lifetimes.
- A mount attempt that fails, followed by a discard that itself fails, is not modelled. The model treats every discard request as accepted.
- A trim that fails is not modelled. When a `trimAsync()` promise rejects, `Promise.map` rejects (index.js:69-76) and the pipeline stops before streaming. The request log is unaffected, because `Promise.map` starts every trim before any of them can settle. The model records every trim request and does not model the pipeline stopping.
- Capacity lookup, streaming the image to a file with a progress bar, and waiting for the stream to end (index.js:81-94). This is I/O.
- The read-back of `CONFIG.TXT` from the written file (index.js:116-129), and all console output. This is I/O and diagnostics.
- JavaScript number semantics. Offsets, sizes and totals are unbounded integers. The source computes them in double-precision floating point, which is exact only up to 2^53. The model does not capture NaN from a missing field, string concatenation, or loss of precision.
- Truthiness tests. `fs !== null` and `fs.trimAsync` (index.js:70-72) become a null slot and a `hasTrim` flag.
