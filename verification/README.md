# CrunchFS in Dafny

CrunchFS is a compressed filesystem in user space. The mounted program keeps each file as a table of zstd-compressed
chunk files with a text metadata record and a tab-separated index of paths; reads fetch chunks on a worker pool. A
second program in the same repository keeps each file as one data file of packed blobs behind a binary metadata file,
and edits whole files through open handles. This project models both and proves what they mean to their users: byte
strings by path, over every run of operations, every schedule of pool, readers and writers, and every crash point of a
persist.

The compressor is foreign code. It is a pair of functions about which only three things are known: decompressing a
compressed block gives the block back, a compressed block is not empty, and its size is bounded. The chunk size is any
positive number for the mounted program, and the 4096 of `src/compresslib.h` for the persisted format, where
`docs/metadata-format-v1.md` says 4 MiB: the code is followed.

## Layout

| file | content |
|---|---|
| Bytes.dfy | bytes, splice, slice and resize of flat files, the codec |
| ChunkedFile.dfy | one file as a chunk table: what it means, write, truncate, the dense and the clean-tail families |
| ChunkedRead.dfy | reading a range back, when that is exact, and which operations keep it so |
| FileRuns.dfy | runs of writes and truncates against a flat file |
| FileIds.dfy | metadata records and FNV-1a identifiers, and what these tell apart |
| Namespace.dfy, NamespaceSteps.dfy | the operations on index, records as they load, and chunk files; their agreement, and what one operation does to a map of byte strings |
| Mount.dfy | the same operations on what lies on disk: metadata texts, loaded and saved by each operation |
| MountRuns.dfy | runs on the disk: agreement, content, reads, statistics, restart |
| RecordRuns.dfy | times, mode and names in the records, over runs |
| StatsReads.dfy | what a reader finds at the statistics path |
| MountFailures.dfy | runs outside the guards, from the empty mount |
| FuseOps.dfy | the mounted operations as methods of objects, with their buffers, loops, texts and index file |
| ThreadPool.dfy | the worker pool as a step system |
| PooledRead.dfy | one pooled read among writers as a step system, on versions of the file with its size |
| Snapshots.dfy | when a pooled read returns what one version of the file holds |
| JointReads.dfy | any number of reads, workers and writers in one machine |
| CompressLib.dfy | the chunker and the dechunker |
| BinaryMeta.dfy | the binary metadata file |
| Persistence.dfy | whole-file persist, load, unlink, overwrite, and crashes between disk operations |
| Handles.dfy | open handles and their dirty flag, and runs of calls on the disk |
| Paths.dfy, Listing.dfy | path normalisation, directory listings, the index of logical paths |
| Numerals.dfy, TextMeta.dfy, Stats.dfy | numbers in text, text metadata and index, the totals of `/.cfs_stats` |

## Findings

Where the code does not meet the property its users would expect, the project keeps the code as it is, gives a lemma
with an input, and proves for which inputs the property holds.

- Behind a short chunk the read loop packs bytes instead of zero-filling (`ChunkedRead.ShortInteriorChunk`). All reads
  are exact if and only if no stored chunk is short (`ChunkedRead.AllReadsExact`); a write or truncate leaves none if and
  only if it fills its own last chunk and does not extend the file past a partial one (`ChunkedRead.WriteLeavesNoShort`,
  `ChunkedRead.TruncateLeavesNoShort`).
- A partial shrink leaves the last kept chunk untrimmed, so bytes that were cut off come back when the file grows
  (`FileRuns.CutComesBack`). Growth is zero-filled if and only if the file was already zero from the new size to the end
  of the chunk it cuts (`FileRuns.TruncateThenGrow`).
- `cfs_read` with size 0 at offset 0 of a nonempty file asks for 2^64 / C buffers, and no other read does
  (`ChunkedRead.BufferCountIs`, `ChunkedRead.ReadWraps`).
- A path with whitespace can lose its file. The words of a path are read back from the metadata text as keys and values
  (`TextMeta.SavedNameLoads`), so renaming a file to `a b` empties it and orphans its chunk files
  (`MountFailures.SpacedRename`). If no word is taken for a key, a rename keeps the content, without an orphan, if and only
  if the new name has an odd number of words or the file is empty (`MountRuns.KeylessRename`), and a create always does
  (`MountRuns.KeylessCreate`). Creating a path that was renamed away gives two paths one id
  (`MountFailures.RecreateSharesId`). Renaming a path onto itself loses its record and its chunks
  (`MountFailures.SelfRename`). For any names at all, every step of a run keeps every path's bytes, without an orphan, if
  and only if no create or rename does one of these, and the words of each new name leave a record that still describes
  the file (`MountRuns.RunInvIff`). The path that a record carries takes no part in this: no operation modelled here reads
  it.
- `/.cfs_stats` hides a file of that name (`MountFailures.ShadowedFile`); a file's reads return its content if and only if
  it has another name or happens to hold the statistics (`MountRuns.ReadsOwnBytesIff`).
- A task enqueued when every worker has left the stopped pool is stranded, and its waiter with it, in every continuation
  (`ThreadPool.LateTaskStrands`, `ThreadPool.StrandedForever`). Every accepted task completes if and only if there is no
  such task (`ThreadPool.RestMeansDone`).
- A pooled read of two or more chunks is no snapshot: with a writer between its tasks it returns bytes that no state of
  the file holds (`Snapshots.TornRead`). As long as no writer changes the clamp that the record put on the request, it is
  a snapshot under every schedule if and only if it touches one chunk (`Snapshots.SnapshotIff`). The record is loaded in
  an earlier critical section than the chunks, so a writer that changes the clamp can spoil a read of one byte
  (`Snapshots.OvertakenRead`). Which reads of one chunk are snapshots is exact for every history of the file
  (`Snapshots.HistoryIff`); for a truncate in between, those whose chunk it keeps or that read as zeros
  (`Snapshots.TruncateOvertakes`), and for a write, those whose clamp it keeps or whose bytes it does not change
  (`Snapshots.WriteOvertakes`). Each chunk by itself always is from one state.
- Compressing at an unaligned offset does not round-trip at that offset, and does at an aligned one
  (`CompressLib.RoundTripIffAligned`).
- Overwriting a persisted file passes through a state with new data behind old metadata. It cannot be read if and only if
  the new packed blobs are fewer bytes (`Persistence.TornUnreadableIff`, `Persistence.OverwriteFile`). The if-and-only-if
  reaches as far as being readable: which content is read then depends on the codec. It is the new one if both have the
  same table, the old one if its packed blobs are a prefix of the new (as when whole chunks are appended to), and can be
  neither (`Persistence.TornSameTable`, `Persistence.TornPrefix`, `Persistence.OverwriteMixes`).
- A tab or newline in a path, or a newline in an id, breaks the index file, and nothing else does
  (`TextMeta.IndexRoundTripIff`).

## Model

| member | source | states |
|---|---|---|
| ChunkedFile.WrittenByteAt | src/fuse_ops.cpp:161-178 | after a write, every file position holds the buffer's byte if the write covers it and its old byte otherwise |
| ChunkedFile.WrittenWellFormed | src/fuse_ops.cpp:161-183 | a write keeps every stored chunk decodable and within the table, and the recorded compressed size equal to the sum on disk |
| ChunkedFile.WriteRefines | src/fuse_ops.cpp:153-185 | a write is the POSIX splice if and only if no stale nonzero byte lies in the gap before it; a clean tail is enough and stays clean |
| ChunkedFile.TruncatedByteAt | src/fuse_ops.cpp:192-199 | a truncate zeroes the positions from the first dropped chunk on, and leaves every other stored byte, also those past the new size |
| ChunkedFile.TruncatedWellFormed | src/fuse_ops.cpp:192-200 | a truncate keeps the table well formed and its accounting exact, also across growth |
| ChunkedFile.TruncateRefines | src/fuse_ops.cpp:187-201 | a shrink yields the prefix, and a growth the zero-filled file if and only if nothing stale is stored there |
| ChunkedFile.TruncateCleanTail | src/fuse_ops.cpp:194-199 | a truncate keeps the tail clean if and only if the file is zero from the new size to the end of the chunk it cuts; growth, 0 and multiples of the chunk size always are |
| ChunkedFile.WriteDense | src/fuse_ops.cpp:161-180 | a write keeps every chunk before the last full if and only if it leaves no gap; an offset within the file never does |
| ChunkedFile.TruncateDense | src/fuse_ops.cpp:192-199 | a truncate keeps the table dense if and only if it does not grow the file past what its last chunk stores |
| ChunkedRead.AssembleAt | src/fuse_ops.cpp:140-149 | packing parts that are full but for the last puts each byte at its own position, and stops where the last part ends |
| ChunkedRead.ReadIsPrefix | src/fuse_ops.cpp:120-150 | a read whose chunks except the last are full or absent returns a prefix of the file's slice, of exactly the stated length |
| ChunkedRead.AllReadsExact | src/fuse_ops.cpp:120-150 | every nonempty read returns exactly its slice if and only if no stored chunk is short |
| ChunkedRead.DenseReadsExact | src/fuse_ops.cpp:106-151 | on a dense table a nonempty read returns exactly its slice |
| ChunkedRead.BufferCountIs | src/fuse_ops.cpp:122-125 | the 64-bit chunk count is the true one for every request inside a file but the empty one at 0, where it is 2^64 / C for a chunk size that divides 2^64 |
| ChunkedRead.ReadWraps | src/fuse_ops.cpp:120-125 | the buffers asked for are that wrapped count exactly for size 0 at offset 0 of a nonempty file, and for no other read |
| ChunkedRead.EmptyRead | src/fuse_ops.cpp:120-150 | an empty read anywhere else returns nothing |
| ChunkedRead.ReadFailsIff | src/fuse_ops.cpp:117-139 | on any disk, a read that does not wrap fails with the I/O error if and only if it starts inside the file and, from `off/C` to `(off+want-1)/C`, some chunk file is not empty and does not decompress, or to nothing, or to more than two chunks |
| ChunkedRead.ReadGives | src/fuse_ops.cpp:125-150 | on any disk, any other read returns the wanted range of its chunks joined as they decompress, with zeros for a missing or empty file, and nothing when it starts behind the first |
| ChunkedRead.AssembleIsRange | src/fuse_ops.cpp:140-150 | packing nonempty parts is taking a range of them joined |
| ChunkedRead.ShortInteriorChunk | src/fuse_ops.cpp:140-149 | two one-byte writes a chunk apart read back as two adjacent bytes |
| ChunkedRead.WriteLeavesNoShort | src/fuse_ops.cpp:161-180 | a write leaves no stored chunk short if and only if it fills its own last chunk and touches or does not outgrow the old one |
| ChunkedRead.TruncateLeavesNoShort | src/fuse_ops.cpp:192-199 | a truncate leaves no stored chunk short if and only if it does not grow the file past what its last chunk stores |
| FileRuns.DenseStep | src/fuse_ops.cpp:153-201 | a write at an offset within the file, or a truncate that does not grow it, keeps the table dense and acts on the flat file as POSIX says |
| FileRuns.DenseRun | src/fuse_ops.cpp:106-201 | any run of such steps means the flat run, and every nonempty read afterwards is a slice of its result |
| FileRuns.SparseStep | src/fuse_ops.cpp:153-201 | from a clean tail, a write anywhere or a tidy truncate acts as POSIX says and keeps the tail clean |
| FileRuns.SparseRun | src/fuse_ops.cpp:153-201 | any run of such steps means the flat run with zero-filled gaps |
| FileRuns.TruncateThenGrow | src/fuse_ops.cpp:192-199 | every growth after a truncate is zero-filled if and only if that truncate was tidy |
| FileRuns.CutComesBack | src/fuse_ops.cpp:192-199 | two bytes written, cut to one and grown to two read back as they were, where a flat file ends in zero |
| FileIds.HashPath | src/fuse_ops.cpp:92-96 | the 16-digit hexadecimal FNV-1a identifier of the path |
| FileIds.PathId | src/metadata.cpp:19-26 | an identifier is 16 lower-case hexadecimal digits |
| FileIds.IdIsHash | src/fuse_ops.cpp:92-96 | the id, read as a hexadecimal number, is the hash |
| FileIds.StepInjective | src/fuse_ops.cpp:93 | one step of the hash loses neither the hash so far nor the character |
| FileIds.OneByteDiffers | src/fuse_ops.cpp:92-96 | two paths of one length that differ in exactly one byte have different ids |
| FileIds.KnownIds | src/fuse_ops.cpp:92-96 | the ids of the empty string and of `a` are the published FNV-1a values |
| Mount.SavedLoads | src/metadata.cpp:56-91 | a record within its widths, with tokens for id and path, loads back from its text |
| Mount.KeylessFits | src/metadata.cpp:56-91 | the record of a path no word of which is taken for a key loads back as one that describes the file if and only if the words are odd in number or the file is empty |
| MountRuns.StepActs | src/fuse_ops.cpp:89-229 | under the guard on names, an operation on the texts is the operation on the records they load as, with the same status, up to how the record of a name with whitespace counts; exactly so for a name without |
| MountRuns.TokenGuard | src/metadata.cpp:56-91 | for a new name without whitespace the guard is that a create finds its id free and a rename names two paths |
| MountRuns.StepSound | src/fuse_ops.cpp:89-229 | an operation keeps index, records on disk, chunk files and accounting in agreement, and gives every path the bytes it should, if and only if a create finds its id free, a rename names two paths, and the words of a new name leave a record that describes the file |
| MountRuns.KeylessRename | src/fuse_ops.cpp:216-229 | for a new name no word of which is taken for a key, a rename does so if and only if the name has an odd number of words or the file is empty |
| MountRuns.KeylessCreate | src/fuse_ops.cpp:89-104 | for such a name, a create that finds its id free always does |
| MountRuns.RunInvIff | src/fuse_ops.cpp:89-229 | every step of a run of any operations does so if and only if every step meets the guard |
| MountRuns.RunStaysCanonical | src/metadata.cpp:76-91 | while no new name of such a run has whitespace, every text stays what is written for the record it loads as |
| MountRuns.RunLeavesNoOrphans | src/fuse_ops.cpp:179-229 | after any such run no text or chunk file is orphaned, every text loads, no id is shared, and every compressed size is the sum on disk |
| MountRuns.StepMeans | src/fuse_ops.cpp:89-229 | a guarded operation on the texts has the status and the effect of the same operation on a map from paths to byte strings |
| NamespaceSteps.AllowedIs | src/fuse_ops.cpp:153-201 | what the two disciplines of those guards allow: every write, growth and cut to a multiple of the chunk size, or every write that starts within the file and every cut |
| MountRuns.RunMeans | src/fuse_ops.cpp:89-229 | every guarded run has, operation by operation, the statuses of the same run on that map, ends with its content, and keeps all invariants |
| MountRuns.OthersUnchanged | src/fuse_ops.cpp:89-229 | an operation within the guard on names leaves the bytes of every path it does not name unchanged |
| RecordRuns.StepSets | src/fuse_ops.cpp:89-231 | one guarded operation, on the records as they load: a write or truncate sets the times of modification and change and nothing else but sizes, a create sets three times, the low nine mode bits and the chunk size, a rename sets the path, and all other paths keep everything |
| RecordRuns.OthersKeepRecords | src/fuse_ops.cpp:89-231 | and the whole record of every path that the operation does not name loads as before, its sizes included |
| RecordRuns.RunSets | src/fuse_ops.cpp:153-201 | after every guarded run from the empty mount, the time of modification of each file is that of its last nonempty write, truncate or creation, through renames, and all attributes are those that the operations set in turn |
| MountRuns.GaplessReads | src/fuse_ops.cpp:89-229 | after any gapless run, a nonempty read of any path but the statistics path returns exactly the slice of the abstract content, or no entry |
| MountRuns.SparseReads | src/fuse_ops.cpp:89-229 | after any sparse run such a read never fails, and returns a prefix of the slice where only its last chunk may be short |
| MountRuns.ReadsOwnBytesIff | src/fuse_ops.cpp:106-151 | reads of a path return its content if and only if it is not the statistics path or holds the statistics text |
| MountRuns.StatsAreExact | src/metadata.cpp:118-131 | on every sound mount with such texts nothing throws, and the totals are, in 64 bits, the sum of the logical sizes and the bytes of all chunk files |
| MountRuns.StatsAfterRun | src/metadata.cpp:118-131 | so they are after every guarded run whose new names have no whitespace |
| StatsReads.StatsRead | src/fuse_ops.cpp:43-50 | after every such run, each read of `/.cfs_stats` is a slice of one text of three lines, whose words are `logical_bytes`, a numeral, `compressed_bytes`, a numeral, `ratio` and what is printed for the first total over the second; the numerals parse to the two sums modulo 2^64 |
| MountRuns.RestartIff | src/metadata.cpp:32-48 | a restart gives the same mount back if and only if no indexed path has a tab or newline and no id a newline |
| MountRuns.SoundRestarts | src/metadata.cpp:12-48 | so a sound mount survives a restart if and only if no indexed path has a tab or newline |
| MountFailures.FirstTwoGuarded | src/fuse_ops.cpp:89-185 | creating any token path and writing a byte to it is a run within all the guards above, under either discipline |
| MountFailures.SpacedRename | src/fuse_ops.cpp:117-229 | created, written and renamed to a name with a space, a file reads as empty, and unlinking it leaves its chunk file |
| MountFailures.SelfRename | src/fuse_ops.cpp:216-229 | renamed onto itself, a file keeps its index entry and loses its record and its chunk file |
| MountFailures.SelfRenameLosesFile | src/fuse_ops.cpp:153-231 | after that, writes and truncates of the path find no file and change nothing, an unlink drops the index entry, and a rename moves it and saves a default record under no id |
| MountFailures.ShadowedFile | src/fuse_ops.cpp:106-114 | renamed to the statistics path, a file keeps its content and reads as the statistics |
| MountFailures.RecreateSharesId | src/fuse_ops.cpp:91-104 | create, rename away and create again leave two paths with one id, and the moved file reads as empty |
| FuseOps.ChunkStore.WriteChunk | src/chunk_store.cpp:19-32 | one chunk file becomes the compressed data, and its size is returned |
| FuseOps.ChunkStore.ReadChunk | src/chunk_store.cpp:34-54 | appends what the chunk file decompresses to; nothing and 0 when the file is missing, does not decompress, or gives more than two chunks |
| FuseOps.ChunkStore.RemoveFrom | src/chunk_store.cpp:56-60 | exactly the chunk files of one id in the index range are removed |
| FuseOps.ChunkStore.ChunkDiskSize | src/chunk_store.cpp:80-85 | the size of a chunk file, 0 for a hole |
| FuseOps.ChunkStore.SumDiskSizes | src/fuse_ops.cpp:181-182 | the loop computes the sum of the sizes on disk |
| FuseOps.MetaStore.constructor | src/metadata.cpp:12-17 | the index is what its file loads as; texts and index file stay as they are |
| FuseOps.MetaStore.Load | src/metadata.cpp:56-74 | the text is parsed into a fresh record: missing, throwing, or found |
| FuseOps.MetaStore.Save | src/metadata.cpp:76-91 | the text of the record is written under the id it carries |
| FuseOps.MetaStore.SaveIndex | src/metadata.cpp:44-48 | the index file lists exactly the entries of the index |
| FuseOps.MetaStore.IndexAdd | src/metadata.cpp:98-102 | one entry is set, and the index file rewritten to list the new index |
| FuseOps.MetaStore.IndexRemove | src/metadata.cpp:104-108 | one entry is removed, and the index file rewritten to list the new index |
| FuseOps.CopyPlan | src/fuse_ops.cpp:172-175 | each target range is nonempty, inside its chunk and at the file position of its buffer range, which stays inside the buffer: the clamp never fires |
| FuseOps.CopyPlanCovers | src/fuse_ops.cpp:163-175 | the buffer ranges are consecutive from 0 and end exactly at the buffer's length |
| FuseOps.CopyPlanPosition | src/fuse_ops.cpp:172-176 | a chunk position is written if and only if its file position is in the write, and from the byte at that distance |
| FuseOps.Memcpy | src/fuse_ops.cpp:170-176 | copies one range into the array and leaves the rest |
| FuseOps.PatchChunk | src/fuse_ops.cpp:164-177 | the read-modify-write of one chunk yields, at each position, the buffer's byte, the stored byte or zero |
| FuseOps.CrunchFs.constructor | src/fuse_ops.cpp:260-268 | start-up on any disk: the index from its file, texts and chunk files as they are; an index file that lists clean entries gives exactly these, and lists the index from then on |
| FuseOps.CrunchFs.CfsCreate | src/fuse_ops.cpp:89-104 | texts, index and status are those of the specified create on the disk, and the index file lists the index |
| FuseOps.CrunchFs.WriteChunks | src/fuse_ops.cpp:161-178 | the chunk loop stores the patched chunks, each once, and touches no other file |
| FuseOps.CrunchFs.CfsWrite | src/fuse_ops.cpp:153-185 | chunk files, text and status are those of the specified write on the disk |
| FuseOps.CrunchFs.CutFile | src/fuse_ops.cpp:192-199 | the three branches yield the specified truncated table |
| FuseOps.CrunchFs.CfsTruncate | src/fuse_ops.cpp:187-201 | chunk files, text and status are those of the specified truncate on the disk |
| FuseOps.CrunchFs.CfsUnlink | src/fuse_ops.cpp:203-214 | the specified unlink on the disk: the chunk count is what the text loads as, and a text that throws changes nothing |
| FuseOps.CrunchFs.CfsRename | src/fuse_ops.cpp:216-229 | the specified rename on the disk, target dropped first, and the record saved with the new path |
| FuseOps.CrunchFs.CollectOne | src/fuse_ops.cpp:128-136 | one task fails if and only if its chunk file is not empty and does not decompress, or to nothing, or to more than two chunks; else its slot is what the file decompresses to, or a chunk of zeros for a missing or empty file |
| FuseOps.CrunchFs.CollectChunks | src/fuse_ops.cpp:125-139 | the tasks in order set the error flag if and only if the file of some touched chunk does not decode, and else collect every chunk |
| FuseOps.CrunchFs.Pack | src/fuse_ops.cpp:140-150 | the packing loop fills a prefix of the buffer with the specified bytes and leaves the rest |
| FuseOps.CrunchFs.StatsContent | src/fuse_ops.cpp:43-50 | the statistics text carries the totals of the texts on disk |
| FuseOps.CrunchFs.ReadChunks | src/fuse_ops.cpp:120-150 | a read of a loaded record, with the chunk count computed in 64 bits, gives the specified result and buffer |
| FuseOps.CrunchFs.CfsRead | src/fuse_ops.cpp:106-151 | result and buffer are those of the specified read; a request that does not wrap gets the I/O error if and only if the file of a chunk it touches does not decode; the statistics path is served from the totals of the texts on disk |
| ThreadPool.InitInv | src/thread_pool.cpp:3-26 | a pool with at least one worker starts in the invariant |
| ThreadPool.FinishCounted | src/thread_pool.cpp:18-22 | the decrement of `active_` never wraps |
| ThreadPool.NextInv | src/thread_pool.cpp:6-42 | every step of workers, callers and destructor keeps the invariant, spurious wake-ups included |
| ThreadPool.PoolSafety | src/thread_pool.cpp:3-42 | after any run tasks have started in order and once, accepted tasks are queued, held or done, `active_` counts the workers that hold one, no wake-up is lost and no waiter sleeps for nothing |
| ThreadPool.WaitReturns | src/thread_pool.cpp:39-42 | `wait_all` lets its caller go if and only if every accepted task has finished, and then none is live |
| ThreadPool.JoinedIsDrained | src/thread_pool.cpp:28-32 | joined workers leave an empty queue, and every accepted task completed, if and only if no task came after the last had left |
| ThreadPool.LateTaskStrands | src/thread_pool.cpp:28-42 | a run in which a task pushed after stop finds no worker, and its client falls asleep in `wait_all` |
| ThreadPool.StrandedForever | src/thread_pool.cpp:6-42 | a stranded task stays queued in every continuation, and no caller inside `wait_all` returns |
| ThreadPool.LateWaiterNeverReturns | src/thread_pool.cpp:34-42 | the client of that run is inside `wait_all` after every continuation |
| ThreadPool.StepRank | src/thread_pool.cpp:6-42 | every step that is neither a new call nor a spurious wake-up lowers the rank |
| ThreadPool.RunIsBounded | src/thread_pool.cpp:6-42 | without new calls and spurious wake-ups every schedule ends within the rank |
| ThreadPool.RestMeansDone | src/thread_pool.cpp:6-42 | at rest a destructor that began has joined, and all accepted tasks are complete, with no caller asleep, if and only if none was pushed after the last worker had left |
| ThreadPool.RestIsReached | src/thread_pool.cpp:6-42 | from every state some schedule brings the pool to rest |
| PooledRead.TaskStepInv | src/fuse_ops.cpp:128-136 | every task step keeps the invariant of a running read |
| PooledRead.WriterStepInv | src/fuse_ops.cpp:159-190 | so does every step of a writer that holds the lock exclusively |
| PooledRead.EachChunkFromOneVersion | src/fuse_ops.cpp:125-139 | among writers, every chunk a read collects is what its file decompresses to, or zeros for a hole, between complete writer critical sections, and an error means that one such file did not decode |
| PooledRead.FinishedOne | src/fuse_ops.cpp:117-150 | a finished read of at most one chunk returns the chunk of one version under the clamp of the record loaded, whatever came in between |
| PooledRead.ScheduleIndependent | src/fuse_ops.cpp:117-150 | with no writer in between, every schedule of the tasks gives the sequential read, although tasks are skipped once the error is set |
| PooledRead.ScheduleFailsIff | src/fuse_ops.cpp:125-139 | and every such schedule ends in the I/O error if and only if the file of a chunk the request touches is not empty and does not decode |
| PooledRead.StepRank | src/fuse_ops.cpp:127-137 | every task step lowers the rank and no writer step raises it |
| Snapshots.OneChunkIsSnapshot | src/fuse_ops.cpp:117-150 | a read of at most one chunk whose clamp no writer changes is the read of one version under every schedule |
| Snapshots.HistoryIff | src/fuse_ops.cpp:117-150 | for any history of the file, a read of at most one chunk is a snapshot under every schedule if and only if the chunk of each version, under the clamp of the first, reads as some version does |
| Snapshots.TruncateOvertakes | src/fuse_ops.cpp:117-199 | for a truncate in between, if and only if it keeps the chunk or the range read as zeros before |
| Snapshots.WriteOvertakes | src/fuse_ops.cpp:117-183 | for a write in between, if and only if it keeps the clamp or changes no byte that the old record lets the read have |
| Snapshots.OvertakenRead | src/fuse_ops.cpp:117-199 | a file of one nonzero byte, truncated to nothing between the loading of its record and the task, reads as a zero, which neither version does |
| Snapshots.TornRead | src/fuse_ops.cpp:118-190 | a file of one byte over and over, one write of another over all of it between the first task and the others: the read is that of neither version, for every request of two or more chunks, though the size stays |
| Snapshots.SnapshotIff | src/fuse_ops.cpp:117-150 | a nonempty read of a file of any size, whose clamp no writer changes, is a snapshot under every schedule if and only if it touches one chunk |
| JointReads.InitInv | src/fuse_ops.cpp:106-151 | any number of reads and writers and at least one worker start in the invariant |
| JointReads.NextInv | src/fuse_ops.cpp:106-201 | every step of clients, workers, pool and writers keeps it, whichever of readers and writers the lock prefers |
| JointReads.NextShares | src/fuse_ops.cpp:118-190 | all reads of one file see the same file throughout |
| JointReads.ReturnedRead | src/fuse_ops.cpp:117-139 | when `wait_all` lets a read go, all its tasks, as many as the loaded record asks for, have finished and no task of anyone is live; each chunk is from one version since the record was loaded, a single chunk is that of one version under the clamp loaded, and with no writer completed since, the result is the sequential one |
| JointReads.ReturnedSnapshot | src/fuse_ops.cpp:117-150 | so a returning read of at most one chunk is a snapshot if no writer has changed its clamp |
| JointReads.StepRank | src/fuse_ops.cpp:106-201 | every step but a spurious wake-up lowers the rank |
| JointReads.RunIsBounded | src/fuse_ops.cpp:106-201 | every schedule without spurious wake-ups ends within the rank |
| JointReads.RestMeansReturned | src/fuse_ops.cpp:106-201 | at rest every read has returned from `wait_all` with all its tasks finished, and every writer is done: no cycle among pool, readers and writers |
| JointReads.EveryReadReturns | src/fuse_ops.cpp:106-201 | from any outset every schedule is bounded, and ends with every read returned |
| JointReads.SomeScheduleReturns | src/fuse_ops.cpp:117-139 | and from any outset there is such a schedule, after which all reads have returned |
| JointReads.LocksAreByFile | src/fuse_ops.cpp:26-34 | whether a lock can be had depends on the writers and reads of its own file alone |
| CompressLib.CompressFileChunks | src/conpresslib.cpp:62-86 | the pieces between chunk boundaries of the running offset, each compressed |
| CompressLib.DecompressFileChunks | src/conpresslib.cpp:91-125 | the specified unpacking, with the exception and the out-of-range copy as results |
| CompressLib.SplitCount | src/conpresslib.cpp:72-83 | an aligned cut has one piece per started chunk, none empty or longer than a chunk |
| CompressLib.RandomAccess | src/conpresslib.cpp:91-125 | unpacking from chunk `o / C` at offset `o` yields the slice of the original exactly when `o` is within it, nothing is asked for or no chunk is left |
| CompressLib.RoundTripIffAligned | src/conpresslib.cpp:62-125 | compressing and unpacking at one offset is the identity if and only if the offset is aligned or there is no data |
| BinaryMeta.LERoundTrip | src/passthrough_cfs.cpp:135-145 | reading a little-endian integer of `k` bytes undoes writing it |
| BinaryMeta.Encode | src/passthrough_cfs.cpp:278-306 | a metadata file is exactly 64 + 24 n bytes long |
| BinaryMeta.SaveMeta | src/passthrough_cfs.cpp:270-313 | the stream writes produce the encoded file |
| BinaryMeta.EncodedHeader | src/passthrough_cfs.cpp:270-292 | the saved header byte by byte: magic, version, codec, chunk size 00 10 00 00, level 1, zeros for flags and digest, and the size and row count at their offsets |
| BinaryMeta.EncodedRowBytes | src/passthrough_cfs.cpp:294-307 | each saved row, 24 bytes from 64 on: index, length, offset and size at 0, 4, 8 and 16, and zero padding |
| BinaryMeta.ReadHeader | src/passthrough_cfs.cpp:220-244 | the header is accepted if and only if it has 64 bytes, begins with 43 46 4D 31 01 01, and has 00 10 00 00 at 16; size and count come from their offsets |
| BinaryMeta.ReadRow | src/passthrough_cfs.cpp:248-256 | a row is read whole from its offsets, or the stream fails |
| BinaryMeta.SumFits | src/passthrough_cfs.cpp:263-267 | the 64-bit sum of fewer than 2^32 lengths never wraps |
| BinaryMeta.SumLengths | src/passthrough_cfs.cpp:263-266 | the wrapping sum is the true sum |
| BinaryMeta.LoadMeta | src/passthrough_cfs.cpp:214-268 | a file loads as a record if and only if that has fewer than 2^32 rows that sum to its size, and the file begins with what is saved for it, up to ignored bytes |
| BinaryMeta.LoadsIff | src/passthrough_cfs.cpp:214-268 | both directions of that, for any bytes and any record: every test of the load is one byte of the saved form |
| BinaryMeta.U32Is | src/passthrough_cfs.cpp:141-145 | a 32-bit field is the sum of its four bytes, least significant first |
| BinaryMeta.EncodedIs | src/passthrough_cfs.cpp:214-313 | of any record, what is read back are its size and its first `n mod 2^32` rows |
| BinaryMeta.RoundTripIff | src/passthrough_cfs.cpp:214-313 | load after save is the identity if and only if there are fewer than 2^32 rows and they sum to the size |
| BinaryMeta.ResaveLoads | src/passthrough_cfs.cpp:214-313 | every accepted file re-saves to one that loads to the same record and is no longer |
| Persistence.LoadLogicalFile | src/passthrough_cfs.cpp:361-391 | metadata, seeks, short reads and dechunking give the specified result |
| Persistence.TableOf | src/passthrough_cfs.cpp:330-346 | the rows recorded while writing carry each piece's length, its blob's offset and size |
| Persistence.PersistLoadIff | src/passthrough_cfs.cpp:315-391 | load after persist returns the content if and only if its chunk count fits 32 bits, and is refused otherwise |
| Persistence.WriteData | src/passthrough_cfs.cpp:319-354 | the data file ends up as the packed blobs, and every disk state on the way shows old or new files only |
| Persistence.WriteMeta | src/passthrough_cfs.cpp:270-313 | the metadata is replaced once the data is in place, with nothing torn on the way |
| Persistence.ReplaceIndex | src/passthrough_cfs.cpp:176-190 | the index file becomes the given entries and no other file changes |
| Persistence.AddIndexEntry | src/passthrough_cfs.cpp:192-199 | the index file lists its former entries and the path, and no other file changes |
| Persistence.RemoveIndexEntry | src/passthrough_cfs.cpp:201-208 | the index file lists its former entries but the path, and no other file changes |
| Persistence.PersistLogicalFile | src/passthrough_cfs.cpp:315-359 | data, metadata and index are stored, files of other ids never change, and every state on the way has old or new files, one of them new data behind old metadata |
| Persistence.OthersLoad | src/passthrough_cfs.cpp:315-359 | in every state on the way files of other ids exist and load as before |
| Persistence.PersistNewFile | src/passthrough_cfs.cpp:315-359 | at every disk state of a first persist the path is absent or loads to the whole content |
| Persistence.UnlinkLogicalFile | src/passthrough_cfs.cpp:479-498 | at every disk state of an unlink the path is absent, and in the end its files and its index entry are gone |
| Persistence.TornUnreadableIff | src/passthrough_cfs.cpp:352-357 | between the two renames the file is refused if and only if the new packed blobs are fewer bytes than the old, for every codec |
| Persistence.TornSameTable | src/passthrough_cfs.cpp:352-357 | there it loads the new content if both contents have the same table |
| Persistence.TornPrefix | src/passthrough_cfs.cpp:352-357 | there it loads the old content if its packed blobs are a prefix of the new |
| Persistence.AppendIsPrefix | src/conpresslib.cpp:62-86 | appending to a content of whole chunks appends to its packed blobs |
| Persistence.OverwriteFile | src/passthrough_cfs.cpp:315-359 | every disk state of an overwrite loads the old or the new content or is the one between the renames, and an unreadable one occurs if and only if the packed blobs shrink |
| Persistence.OverwriteMixes | src/passthrough_cfs.cpp:352-357 | between the renames a file can load as neither content |
| Handles.SessionRefines | src/passthrough_cfs.cpp:605-781 | any run of calls on a session shows the content of a file changed at once, and a clean handle equals what is persisted |
| Handles.FlushHandleIfDirty | src/passthrough_cfs.cpp:393-402 | a dirty handle is persisted and becomes clean, a clean one changes nothing, no other path is touched, and content that fits loads back |
| Handles.LoadHandle | src/passthrough_cfs.cpp:671-682 | a new handle holds the persisted content, or nothing and a dirty flag when truncating; a failed load gives none |
| Handles.LoadFailureIs | src/passthrough_cfs.cpp:214-268 | a load fails with the I/O error if and only if the data file is missing, the metadata is that of no record, or the data lacks a row; a load that fails otherwise throws |
| Handles.CfsOpen | src/passthrough_cfs.cpp:660-683 | the session's open, with its error codes |
| Handles.CfsCreate | src/passthrough_cfs.cpp:685-711 | the session's create, with its error codes |
| Handles.CfsRead | src/passthrough_cfs.cpp:713-729 | exactly the slice of the handle's data, or an error for a negative offset |
| Handles.CfsWrite | src/passthrough_cfs.cpp:731-749 | the session's write: a splice with a zero-filled gap, and the handle is dirty |
| Handles.CfsTruncate | src/passthrough_cfs.cpp:605-617 | the session's truncate through a handle |
| Handles.CfsTruncatePath | src/passthrough_cfs.cpp:619-635 | the persisted content becomes its resized self, a failed load changes nothing, a path without metadata is passed on, and no other path is touched |
| Handles.CfsRelease | src/passthrough_cfs.cpp:770-781 | a dirty handle is persisted, no other path is touched, and no handle is left |
| Handles.RunCalls | src/passthrough_cfs.cpp:605-781 | any run of open, create, write, truncate, flush and release on the disk: after the last release the persisted content is that of a file changed at once, and other paths keep their files |
| Paths.NormalizePath | src/passthrough_cfs.cpp:59-85 | the two loops return the canonical spelling of the path's nonempty components |
| Paths.NormalizeIsJoin | src/passthrough_cfs.cpp:59-85 | normalising a path is joining its nonempty components by single slashes |
| Paths.NormalizeIsNormal | src/passthrough_cfs.cpp:59-85 | leading slash, no double slash, no trailing slash but for the root; the components stay, and twice is once |
| Paths.NormalIffFixed | src/passthrough_cfs.cpp:59-85 | the normal paths are exactly the fixed points |
| Paths.NormalizeUnique | src/passthrough_cfs.cpp:59-85 | two paths normalise alike if and only if they have the same components |
| Listing.PathIsDirectChild | src/passthrough_cfs.cpp:794-815 | the string computation finds a child if and only if the parent's components are a proper prefix, with the next component as its name |
| Listing.DirectChildIs | src/passthrough_cfs.cpp:794-815 | prefix test, cut and first slash on normalised strings amount to a proper prefix of components, the next component, and whether more follow |
| Listing.ListBacking | src/passthrough_cfs.cpp:843-854 | the backing entries but for the hidden ones, in order |
| Listing.ShownKeepsOrder | src/passthrough_cfs.cpp:843-850 | the backing entries are shown in their order, all but `.`, `..` and `.crunchfs` |
| Listing.ListLogical | src/passthrough_cfs.cpp:861-874 | the indexed names below the directory are added behind them, each once |
| Listing.Readdir | src/passthrough_cfs.cpp:817-876 | the listing is exactly the visible backing entries and the first components of the indexed paths below the directory, each once |
| Listing.LoadIndex | src/passthrough_cfs.cpp:161-174 | the normalised nonempty lines of the index file |
| Listing.SaveIndex | src/passthrough_cfs.cpp:176-190 | the entries in some order, one to a line |
| Listing.IndexRoundTripIff | src/passthrough_cfs.cpp:161-190 | loading a saved index gives the same set if and only if its entries are normal paths without a newline |
| Numerals.PrintValue | src/metadata.cpp:82-89 | a printed number consists of digits of its base and has the printed value |
| Numerals.UnsignedRoundTrip | src/metadata.cpp:64-89 | parsing undoes printing, in every base, up to 64 bits, and throws beyond |
| Numerals.SignedRoundTrip | src/metadata.cpp:68-88 | the same for signed decimals within 64 bits |
| TextMeta.Save | src/metadata.cpp:76-91 | the loop of insertions writes the specified text |
| TextMeta.KnownText | src/metadata.cpp:76-91 | one saved record in full, its mode in octal |
| TextMeta.Load | src/metadata.cpp:56-74 | the token loop applies each key and value in turn |
| TextMeta.LoadTokensFields | src/metadata.cpp:60-89 | the token stream of a saved record alternates keys and values |
| TextMeta.RecordRoundTripIff | src/metadata.cpp:56-91 | load after save restores every field, into any record, if and only if path and id are nonempty and free of whitespace |
| TextMeta.SavedNameLoads | src/metadata.cpp:56-91 | for any path whatever, the saved record loads as the words behind the first say, read as keys and values; an odd number of words restores every size and time, an even number none |
| TextMeta.KeylessLoads | src/metadata.cpp:56-91 | where no word is taken for a key, only the parity of their number matters |
| TextMeta.SpacedRecord | src/metadata.cpp:56-91 | the record of a path with one space loads without an error, and with no size or time |
| TextMeta.LoadedBounded | src/metadata.cpp:56-74 | whatever the text, a record that loads is within 64 bits |
| TextMeta.LoadIndex | src/metadata.cpp:32-42 | the map that the tab-separated lines spell out, later lines winning |
| TextMeta.UntabbedLine | src/metadata.cpp:36-40 | a line without a tab is skipped wherever it stands |
| TextMeta.TabbedLine | src/metadata.cpp:36-40 | any other is split at its first tab, and replaces what was loaded for its path |
| TextMeta.SaveIndex | src/metadata.cpp:44-48 | the entries of the map in some order, one to a line |
| TextMeta.IndexRoundTripIff | src/metadata.cpp:32-48 | loading a saved index gives the same map if and only if no path has a tab or newline and no id a newline |
| TextMeta.IndexFileLoads | src/metadata.cpp:32-48 | an index file loads as the index it lists if and only if all entries are clean |
| Stats.AddText | src/metadata.cpp:124-128 | the token loop over one metadata text adds up its two sizes |
| Stats.AccumulateStats | src/metadata.cpp:118-131 | the 64-bit sums over all indexed paths in any order of the map, a missing file adding nothing; none if and only if a number does not parse |
| Stats.SavedTotals | src/metadata.cpp:80-128 | a saved record adds its logical and compressed size once each |
| Stats.ChunkPathInjective | src/chunk_store.cpp:15-17 | distinct chunks have distinct file names, whatever the ids |

## Left out

- zstd itself: a codec is two functions with the three facts above, and a failure result.
- Failed allocations, short writes and I/O errors of the backing directory: `cfs_write` ignores the result of
  `write_chunk`, and saving, persisting and renaming are taken to succeed; what fails here is only what the content of a
  file makes fail.
- 64-bit sizes and offsets: unbounded in the operations, with the widths of saved records as a guard of runs; the chunk
  count of `cfs_read`, the totals of the statistics, the parsed numbers, and the binary format with its sum and casts
  wrap or fail as in the code.
- Chunk identifiers: the FNV-1a id is computed as in the code, but that ids do not collide is a guard of create; the
  `std::hash` id of the persisted format is any function.
- FuseOps.CrunchFs.CollectChunks: runs the tasks in order; other schedules are `PooledRead` and `JointReads`.
- FuseOps.CrunchFs.CfsRead: how the stream prints the floating-point ratio is a parameter, and its tasks run in order.
- FuseOps.CrunchFs.ReadChunks: its tasks run in order, with no writer in between.
- FuseOps.CrunchFs.StatsContent: how the stream prints the floating-point ratio is a parameter.
- ThreadPool, PooledRead and JointReads are step systems on values, not objects, since their threads interleave.
- JointReads: one read for each client; the destructor of the pool is in `ThreadPool` only.
- The deletion of a lock object by `cfs_unlink`, and `unlink`, `chmod` or `rename` racing with other operations: operations
  on the namespace are single steps, and the versions of a file are those that writes and truncates leave.
- The rename of the persisted format and its crash consistency.
- Persistence.WriteMeta: the temporary metadata file is written in one disk operation, not field by field; it is not read
  before its rename.
- Persistence.UnlinkLogicalFile: for a path without metadata it returns false, where the code goes on to the backing
  directory.
- Handles: paths arrive normalised, a null handle is not modelled, and a path has one live handle at a time.
- Handles.RunCalls: asks that every content on the way has fewer than 2^32 chunks (16 TiB); more is persisted and refused
  at load, as `Persistence.PersistLoadIff` says.
- Listing.Readdir: the filler accepts every entry, the directory exists, and of several paths that give a directory one
  name, any may give it its type.
- Listing.SaveIndex: the entries come in any order, where the code's set is sorted.
- Iteration order of the unordered map and of directory entries: any order.
- `getattr`, `utimens`, `chmod`, `statfs`, `access`, links, `mknod`, `mkdir`, the flat `readdir` of the mounted program,
  registration with FUSE, options and `main`: calls passed through to the system.
