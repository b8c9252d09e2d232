# zfs-dedup: a verified model

zfs-dedup hashes every file of a ZFS dataset, groups equal chunks by hash, and lets the kernel share their blocks.
Its safety argument is that hashes may be stale or collide, the filters may answer yes too often, several threads may
work on the same file, and still no reader ever sees a changed byte, and every duplicate that can be shared is. This
project models that logic in Dafny and proves the argument.

`dafny verify dfyconfig.toml` checks everything, in about two minutes.

## How the model is laid out

| file | module | what it models |
|---|---|---|
| Base.dfy | Base | machine integers, `Option`, `Result`, division facts |
| Bloom.dfy | BloomFilter | the Bloom filter as a class over its word array |
| Cache.dfy | CacheTable | the cache entry encoding and the cache table |
| Hasher.dfy | Hashing | chunk hashing over readers that return short reads or fail |
| Scan.dfy | ScanProtocol | `hash_one` calls interleaved with writes, commits, pruning and restarts |
| Index.dfy | DupIndex | the two-pass, Bloom-filtered duplicate index |
| Coalesce.dfy | Coalescing | merging chunk pairs into capped runs |
| Plan.dfy, PlanFacts.dfy, Requests.dfy | RunPlanner, PlanFacts, Requests | runs per file pair, what every plan guarantees, the kernel's contract |
| Store.dfy | BlockStore | files as lists of block ids over a log of written blocks, and what a clone does |
| Steps.dfy | DedupSteps | the dedup phase as a step system: workers and outside writers interleave |
| Safety.dfy, Writers.dfy | Safety, FallbackWriters | contents are preserved, what writers must avoid for it, and exactly when not |
| Accounting.dfy | Accounting | the counters, and termination |
| Schedules.dfy, Sharing.dfy | Schedules, Sharing | every schedule ends the same, and what that end is |
| Rescan.dfy | Rescan | a second scan and dedup, in the same order or another |
| Kernel.dfy | SystemCalls | the system calls of a worker as a class; between them the others take any steps |
| Worker.dfy | DedupWorker | the worker's code as a class, and `dedup` as a method |
| PathText.dfy, Paths.dfy | PathText, InternedPaths | paths as byte strings, and the interned path table |
| Walk.dfy | WalkConsumer | the consumer loop of the walk, over all roots, into the path table |
| ScanRun.dfy | ScanRun | `hash_one` and its batches, `prune_key`, and the loop over datasets |
| EndToEnd.dfy | EndToEnd | a scan followed by a dedup, and both once more |

Code that updates state is a class or a method with loops, each proved against a specification function, an invariant
or a step system, and these carry the lemmas. The dedup phase is both: a step system, and the code of a worker whose
every call is proved to be a step of it, whatever the other workers and other processes do in between
(`SystemCalls.Kernel`). The code is followed for one worker, any of them; the others enter by the steps such code takes.
`dedup` ends with a run of the step system (`DedupWorker.CarriesOut`), so all results about
runs are results about it.

The store: a file is a block size, a size and a list of block ids; a block is written once. `View` is what readers see.
A clone copies block ids. An outside write gives a file any new block list and may append blocks, so nothing about the
allocator is assumed. In the step system one event is one system call or one local step of one worker
(`DedupSteps.Do`), or one write by another process; the two opens of a pair are one event. In compare mode reading the
source, reading the destination, comparing and cloning are four events; FIDEDUPERANGE is one. Every call may fail, a
dedupe may cover fewer bytes than asked, and an open may reach another inode than the one that was hashed.

## Main results

- **No reader can tell.** With FIDEDUPERANGE, under any number of workers and any writers, every reachable state has the
  contents the writes alone would have produced, for every plan, stale hash, collision and short dedupe
  (`Safety.AtomicDedupeIsInvisible`).
- **The userspace fallback** gives the same guarantee as long as no write hits a file while some worker holds it
  between its first read and its clone (`Safety.QuietWritesAreKept`); files that no worker opens may be written
  at any time (`Safety.UnscannedWritesAreKept`), and without writers every reachable state has the initial contents
  (`Safety.FallbackKeepsContents`). Otherwise it can lose a write: `FallbackWriters.LostWrite` is a run that does, for
  every block size and contents, with the plan `build_runs` makes. For every mode, schedule and writer, contents stay
  right at every point if and only if every clone is of two ranges that the writes alone would have left equal by then
  (`FallbackWriters.InvisibleIff`).
- **One plan, whatever the order.** The index is the plain group-by of all non-zero chunks for every truncation of the
  keys and every false positive (`DupIndex.BuildIndex`), the plan is the same for every iteration order
  (`RunPlanner.BuildRuns`, `RunPlanner.PlanIsUnique`), runs are exact, capped and as few as possible
  (`Coalescing.GreedyIsFewest`), no chunk is written twice or both read and written
  (`PlanFacts.DestinationsAreDisjoint`, `PlanFacts.SourcesAreNotWritten`), and the kernel accepts every request
  (`Requests.RequestIsAccepted`).
- **One end, whatever the schedule.** Without writers, if each open fails or reaches its file, exactly the prefixes verified
  so far have been redirected in every reachable state, whatever else fails (`Schedules.SettledBlocks`). Runs in which nothing fails terminate,
  can always be completed, and end with the same block pointers, outcomes and counters (`Accounting.RunIsBounded`,
  `Schedules.CleanRunsComplete`, `Schedules.ScheduleIndependence`). At the end duplicates are on the canonical's block
  (`Sharing.ClassPointsAtCanonical`). A second scan and dedup make the same plan and move nothing
  (`Rescan.RescanChangesNothing`), also if the second scan lists the files in another order
  (`EndToEnd.SecondRoundMovesNothing`).
- **The cache agrees with rehashing** in every reachable state of scans interleaved with writes
  (`ScanProtocol.CacheAgreesWithRehash`), so from any scan whose records still match, without hash collisions, equal
  chunks end up on one block (`EndToEnd.ScanThenDedupShares`).
- **The code does it.** `dedup`, run by any number of workers, carries out the whole plan as a run of the step system,
  for every interleaving (`DedupWorker.Dedup`); a worker's calls are on the descriptors of its own two opens
  (`DedupWorker.Worker.Pair`). The loop over datasets carries out one plan for each, from exactly the hashes it found,
  and leaves a cache on which an unchanged file is a hit (`ScanRun.Scan`, `ScanRun.RescanHits`,
  `EndToEnd.CarriedOutShares`).
- **Counters conserve** under every schedule, failure and writer (`Accounting.StatsConserve`,
  `Accounting.BytesConserve`), and every fold and reduce gives the workers' total (`Accounting.ReduceIsTotal`).
- **Every path is recoverable** from the path table (`InternedPaths.Paths.Path`), byte for byte if all its directories
  were pushed in normal form, as a walk from roots in normal form does (`WalkConsumer.Files`).

Four statements turned out to need a condition. Each has a lemma at inputs where it fails and is proved as an
equivalence.

- Contents in the fallback: above.
- A path comes back byte for byte exactly if its directory, but for a trailing slash, is the first pushed spelling of its
  root followed by the names below it, one slash after each (`InternedPaths.ComesBackExactlyIff`). Pushed after "//",
  "/" comes back as "//" (`InternedPaths.RootSpelledTwice`). As paths, by components, all come back.
- The collecting constructor of `Paths` gives a path back exactly if it ends in a name or is empty
  (`InternedPaths.ComesBackIff`): "/" comes back as "" (`InternedPaths.RootDoesNotComeBack`) and "a/.." as "a"
  (`InternedPaths.UpDoesNotComeBack`).
- The walk emits an inode at most once exactly if its unaliased entries, plus one if any entry has aliases, number at
  most one (`WalkConsumer.WalkEmits`): a file linked between two stats of it, or reached from two overlapping roots, is
  emitted twice (`WalkConsumer.EmittedTwice`).

## What is assumed

- The files handed to `dedup` are distinct inodes of one dataset (`Schedules.Tree` for the results about where blocks
  end up; the contents results do not need it).
- Files and chunk numbers fit the 32-bit index, one past the last chunk included (`DupIndex.Indexable`); the source
  stops with an assertion otherwise. `10 * n` keys fit 2^63 bits of a filter.
- The path arena and the directory table fit 32 bits, each directory counted once (`InternedPaths.Fits`); the source
  stops otherwise. Names read from a directory are plain: not empty, `.` or `..`, and without a slash.
- The cache does not change between the two passes of the index.
- A write gives an inode a (size, mtime, ctime, block size) it never had before (`ScanProtocol.Next`). Writes that
  change no byte, as the clone fallback's own timestamp change, are such writes too.
- XXH3-128 is any function; only the results that equal chunks end up on one block (`Sharing.EqualChunksShare`,
  `Rescan.RelistedDedupChangesNothing`, and `ScanThenDedupShares`, `SecondRoundMovesNothing` and `CarriedOutShares` in
  EndToEnd) ask that it be injective on the chunks present and miss the zero sentinel.
- `EndToEnd.CarriedOutShares`: no inode was found under two paths, and the records that were hit were true, as
  `ScanProtocol.CacheAgreesWithRehash` proves them to be while the stat holds.

## Model

| member | source | states |
|---|---|---|
| BloomFilter.Bloom.constructor | src/bloom.rs:13-21 | a fresh filter of the least power of two of bits that is at least 64 and ten a key, in whole words |
| BloomFilter.Bloom.Insert | src/bloom.rs:32-37 | sets exactly the seven probe bits of the key and clears none, so every key inserted so far stays a member |
| BloomFilter.Bloom.Contains | src/bloom.rs:39-44 | every key ever inserted is answered yes |
| BloomFilter.Bloom.CheckInsert | src/bloom.rs:47-51 | answers membership as of before the call, never no for a repeated key, then inserts |
| BloomFilter.Pos | src/bloom.rs:27-30 | every probe of every key lies inside the filter |
| BloomFilter.ProbesAreDistinct | src/bloom.rs:23-30 | the probes of a key are seven different positions, the first its low bits, in spite of the 64-bit wrap-around |
| BloomFilter.InsertAll | src/bloom.rs:32-51 | over any sequence of both kinds of insertion there is no false negative |
| CacheTable.DecodeEncode | src/cache.rs:45-80 | decoding an encoded entry gives the entry back, negative 128-bit timestamps included |
| CacheTable.EncodeDecode | src/cache.rs:45-80 | every buffer that decodes is reproduced byte for byte by encoding |
| CacheTable.DecodesExactlyEncodings | src/cache.rs:64-80 | exactly the encodings of entries decode, each the encoding of one entry only; every other buffer is refused |
| CacheTable.EncodeLayout | src/cache.rs:45-54 | every byte of an encoding: little-endian size, mtime, ctime and block size, then the hashes |
| CacheTable.EncodeInto | src/cache.rs:45-54 | fills the reserved page, in place, with the encoding and nothing else |
| CacheTable.Cache.PutMany | src/cache.rs:138-152 | one commit stores every entry of the batch, later ones winning |
| CacheTable.LookupAfterPut | src/cache.rs:121-152 | after a batch a file answers with exactly the last entry put for it, all others as before |
| CacheTable.Cache.Prune | src/cache.rs:158-173 | drops exactly the unseen records of the scanned datasets and returns the drop in table size |
| Hashing.ReadFull | src/hasher.rs:165-175 | under any short reads fills the buffer or reaches the end, and fails exactly if a read failed, with its error |
| Hashing.IsZero | src/hasher.rs:151-163 | true exactly for all-zero chunks of any length |
| Hashing.HashFd | src/hasher.rs:123-143 | fails exactly for block size 0 or if a read gives an error, with that error, and otherwise yields the chunk hashes of the whole stream |
| Hashing.ChunkHashesMeaning | src/hasher.rs:127-140 | there is a hash for each chunk that begins before the end: sixteen zero bytes if the chunk is all zero, else its XXH3 |
| Hashing.ChunkInBounds | src/hasher.rs:123-143 | there is a chunk number c exactly if c * blksz is before the end, exactly if its planned length is not 0 |
| Hashing.ChunkSize | src/hasher.rs:127-137 | chunk c has the byte count the planner computes for a file of that size; only the last may be short |
| ScanProtocol.EofStaysTrue | src/hasher.rs:241-247 | what was read up to the end under one stat is the file's content if that stat still holds |
| ScanProtocol.StepStaysTrue | src/hasher.rs:223-248 | no step of any scan, and no write at any moment of it, leaves a cache record or a result in flight that claims the current stat falsely |
| ScanProtocol.CommitStaysTrue | src/hasher.rs:203-221 | committing a batch after such writes keeps every record truthful |
| ScanProtocol.ScanHashes | src/hasher.rs:239-247 | a file without one can always be opened and read to its end, and is then hashed whole |
| ScanProtocol.CommitIsHit | src/hasher.rs:203-237 | what a batch hashed is a hit after the batch is committed, for a file that keeps its stat |
| ScanProtocol.CacheAgreesWithRehash | src/hasher.rs:223-248 | in every reachable state an entry that matches the current stat holds exactly the hashes of the current bytes |
| ScanProtocol.ResultEqualsRehash | src/hasher.rs:226-237 | a result, hit or miss, whose stat is still current equals a rehash |
| DupIndex.StreamMember | src/dedup.rs:220-238 | the visits are exactly the non-zero chunks of cached files, keyed by the file's block size and the cached hash |
| DupIndex.StreamOrdered | src/dedup.rs:106-109 | the visits come in strictly increasing (file, chunk) order |
| DupIndex.EachChunk | src/dedup.rs:222-238 | visits exactly that stream, or fails exactly if some record is corrupt |
| DupIndex.PreFilter | src/dedup.rs:186-201 | every key that repeats passes the pre-filter, for every truncation and every false positive |
| DupIndex.Collect | src/dedup.rs:203-212 | groups exactly the keys whose truncation passed, each with all its chunks |
| DupIndex.RetainIsNaive | src/dedup.rs:213-216 | dropping one-element groups of any sound pre-filter leaves the plain group-by |
| DupIndex.BuildIndex | src/dedup.rs:180-218 | the index equals the plain one-pass group-by restricted to repeated keys, and fails exactly on a corrupt record |
| DupIndex.GroupMeaning | src/dedup.rs:167-169 | a group is all chunks with its key, at least two, strictly increasing |
| DupIndex.RepeatedIsIndexed | src/dedup.rs:167-172 | two chunks with one key put that key into the index |
| Coalescing.GreedyIsExact | src/dedup.rs:135-157 | expanding the merged runs gives the pairs back, and every longer run is within MAX_RUN_BYTES |
| Coalescing.ConsecutiveIsOneRun | src/dedup.rs:138-157 | n consecutive chunks become one run if and only if n is 1 or they are at most 16 MiB |
| Coalescing.GreedyIsFewest | src/dedup.rs:138-157 | no capped runs that hold exactly these pairs, listed in any order, are fewer |
| Coalescing.Coalesce | src/dedup.rs:138-157 | with 32-bit sums, runs cover exactly the given pairs in destination order, capped, by the greedy merge |
| RunPlanner.NaiveIndexIsGrouped | src/dedup.rs:106-109 | no chunk is in two groups, and all of a group share the group's block size |
| RunPlanner.FanOut | src/dedup.rs:110-129 | pairs the canonical chunk with exactly the later members of equal, non-zero length, in any order of the groups |
| RunPlanner.BuildRuns | src/dedup.rs:110-133 | a file pair has runs exactly if it has planned chunk pairs, and they are the merge of exactly those |
| RunPlanner.PlanIsUnique | src/dedup.rs:110-133 | there is only one such plan, so hash map order does not show |
| PlanFacts.DestinationsAreDisjoint | src/dedup.rs:247-251 | over all runs of all pairs no chunk is the destination of two |
| PlanFacts.SourcesAreNotWritten | src/dedup.rs:247-251 | over all runs of all pairs no chunk is both source and destination |
| PlanFacts.PlannedIsRun | src/dedup.rs:118-126 | every planned chunk pair is in a run |
| PlanFacts.RunLenIsSum | src/dedup.rs:295-302 | a run's length is the sum of its chunk lengths, all but the last full |
| PlanFacts.RunLensAgree | src/dedup.rs:331-335 | the shrink check rejects no planned run: both sides have one non-zero length, the sum of their chunks |
| Requests.RequestIsAccepted | src/clone.rs:149-151 | every request has one block size, aligned offsets, a whole length or two ends of file, no overlap in one file, no 64-bit overflow |
| BlockStore.CloneContents | src/clone.rs:149-158 | an accepted clone overwrites exactly the destination range with the source range's bytes |
| BlockStore.CloneSharesBlocks | src/clone.rs:149-158 | afterwards both ranges point at the same blocks, also within one file |
| BlockStore.ClonePreservesView | src/clone.rs:149-158 | cloning equal ranges changes what no reader sees |
| DedupSteps.NextKeepsWf | src/dedup.rs:304-398 | every step and every write leaves a well-formed store |
| Safety.WorkKeepsContents | src/dedup.rs:369-398 | one step of one worker changes no contents, although others cloned since its reads |
| Safety.AtomicDedupeIsInvisible | src/dedup.rs:363-383 | with FIDEDUPERANGE every reachable state has the contents of the writes alone, for any plan, collision or short dedupe |
| Safety.QuietWritesAreKept | src/dedup.rs:386-397 | in every mode, if no write hits a file a worker holds past its first read, or the run is dry, every reachable state has the contents of the writes alone |
| Safety.UnscannedWritesAreKept | src/main.rs:199-207 | writes to files that no worker opens may come at any time |
| Safety.FallbackKeepsContents | src/dedup.rs:386-397 | in the fallback without writers every reachable state has the initial contents |
| Safety.DryRunChangesNothing | src/dedup.rs:394-397 | a dry run moves no block pointer, under any writers |
| FallbackWriters.SharingIsInvisibleIff | src/dedup.rs:386-397 | a clone is invisible if and only if its ranges are equal when it happens |
| FallbackWriters.InvisibleIff | src/main.rs:199-207 | in every mode and under any writers, contents are right at every point if and only if every clone is of ranges that the writes alone left equal |
| FallbackWriters.LostWrite | src/main.rs:199-207 | for every block size and contents, a run from the plan of two equal files in which a write between compare and clone is lost |
| Accounting.ReduceInAnySplit | src/dedup.rs:404-420 | for fixed contributions every fold and reduce, of any shape and order, gives the same totals |
| Accounting.ReduceIsTotal | src/dedup.rs:404-420 | every fold and reduce of the workers' counters is their total |
| Accounting.RunStaysTidy | src/dedup.rs:404-420 | in every reachable state each pair has at most one worker, each slot is settled once, and counters equal settled slots plus candidates in flight |
| Accounting.EndTotals | src/dedup.rs:404-420 | at the end every pair is over and the summed counters are those of the settled slots |
| Accounting.StatsConserve | src/dedup.rs:338-358 | candidates are verified plus mismatches plus failed runs; cloned equals verified, or 0 in a dry run; each counter is its number of outcomes |
| Accounting.BytesAddUp | src/dedup.rs:340-346 | in every mode bytes is the sum of what the verified runs were verified for, short dedupes included |
| Accounting.BytesConserve | src/dedup.rs:340-346 | in compare mode bytes is the sum of the chunk lengths over the destinations of verified runs |
| Accounting.RunIsBounded | src/dedup.rs:404-420 | the workers of any run take at most four steps per slot and three more each |
| Schedules.RunIsClonable | src/dedup.rs:330-339 | in every state the kernel accepts every planned request and both ranges can be read |
| Schedules.NothingIsSkipped | src/dedup.rs:331-335 | the shrink check never fires for a planned run |
| Schedules.MoveIsRedirect | src/dedup.rs:388-397 | sharing a prefix of a run points exactly its destination chunks at its source chunks' blocks |
| Schedules.SourceStaysHome | src/dedup.rs:247-251 | a source chunk is never redirected, whatever was settled |
| Schedules.FairRunIsSettling | src/dedup.rs:304-398 | without writers, whatever fails or falls short: contents stay, and blocks are where the verified prefixes put them |
| Schedules.SettledBlocks | src/dedup.rs:304-398 | in every reachable state of such a run a chunk of a verified prefix has its source's initial block, every other chunk its own |
| Schedules.CleanRunIsSteady | src/dedup.rs:304-398 | while nothing fails, contents stay, outcomes follow from the contents, and blocks are where the settled runs put them |
| Schedules.FinalBlocks | src/dedup.rs:304-398 | at the end a destination chunk has its source's initial block exactly if the run matched outside a dry run, else its own |
| Schedules.UncoveredBlocks | src/dedup.rs:304-398 | chunks no run covers keep their blocks |
| Schedules.ScheduleIndependence | src/dedup.rs:404-420 | block pointers, outcomes and counters are the same for every order, schedule and number of workers |
| Schedules.CleanRunsGoOn | src/dedup.rs:404-420 | until the phase is finished some worker can take a step |
| Schedules.CleanRunsComplete | src/dedup.rs:404-420 | every run in which nothing failed yet can be continued to one that completes |
| Sharing.ClassPointsAtCanonical | src/dedup.rs:110-127 | if all runs verify, every group member of the canonical's non-zero length points at the canonical's block |
| Rescan.SecondDedupChangesNothing | src/dedup.rs:306-361 | with one index, a second dedup of the same files, with its own plan and options, changes no block pointer |
| Rescan.RescanChangesNothing | src/dedup.rs:110-133 | after a dedup, a second list of the same files with truthful hashes gives the same plan, and its dedup changes no block pointer |
| Rescan.RelistedDedupChangesNothing | src/dedup.rs:110-127 | nor does it if the second scan lists the files in another order |
| Sharing.TruthfulRunsMatch | src/dedup.rs:110-157 | from truthful hashes without collisions every run verifies |
| Sharing.EqualChunksShare | src/dedup.rs:401-420 | then any two equal non-zero chunks of one block size end on one block, and contents are unchanged |
| EndToEnd.ScanIsTruthful | src/hasher.rs:223-248 | a scan whose records match the files gives the index truthful hashes |
| EndToEnd.ScanThenDedupShares | src/main.rs:237-286 | from such a scan, interleaved with any writes, a dedup in which nothing fails leaves equal chunks on one block |
| EndToEnd.SecondRoundMovesNothing | src/main.rs:237-286 | scan, dedup, scan again in any order, dedup again: the second dedup moves no block pointer |
| EndToEnd.HashedIsTruthful | src/hasher.rs:200-248 | what the loop hashed, from bytes that were read or from records that were true, gives the index truthful hashes |
| EndToEnd.CarriedOutShares | src/main.rs:237-286 | what the loop did for a dataset leaves equal chunks on one block, if files are as they were read and recorded, hashes do not collide, nothing failed and nobody wrote |
| SystemCalls.Kernel.Others | src/dedup.rs:404-420 | whatever others do, this worker's place and counters stand and its pair is not taken |
| SystemCalls.Kernel.DedupeRange | src/clone.rs:71-117 | shares a prefix that is equal, or finds the ranges different, or fails, as a step that settles the run so |
| SystemCalls.Kernel.CloneRange | src/clone.rs:149-158 | shares the ranges as they are by now, or fails, as a step that settles the run so |
| SystemCalls.Kernel.Join | src/dedup.rs:404-420 | waits until all workers are done, which happens |
| DedupWorker.Worker.VerifyAndClone | src/dedup.rs:369-398 | under any interference its calls are steps that settle the run as it reports; which calls it makes, and what it reports for each answer: one dedupe, or both reads and, if equal and not dry, a clone |
| DedupWorker.Worker.OpenBoth | src/dedup.rs:285-311 | opens the source read-only, then the destination, for writing unless dry, and returns their descriptors in that order, or the error of the first open that failed, after which no other is tried |
| DedupWorker.Worker.Count | src/dedup.rs:339-359 | one outcome, one counter; verified adds bytes and, unless dry, a clone; vanished adds nothing |
| DedupWorker.Worker.TryRun | src/dedup.rs:330-360 | skips exactly runs of length 0 or unequal lengths, without a call, and settles the others with exactly the counters of their outcome, as the answers to their calls say |
| DedupWorker.Worker.Pair | src/dedup.rs:306-361 | takes a pair through legal steps: gives up exactly if an open failed, else makes the calls of every run, in order, on the two descriptors it got, and settles each as their answers say; its counters are those the steps count |
| DedupWorker.Dedup | src/dedup.rs:404-420 | fails exactly on a corrupt record; else any number of workers carry out the one plan to its end, under any interference, as a run of the step system, with its totals |
| DedupWorker.CarriedOutMeaning | src/dedup.rs:404-420 | then every slot is settled, the totals are those of the slots, and contents are those the writes made, unless a write hit a file being compared |
| PathText.PushAddsName | src/walk.rs:74-77 | pushing a plain name appends one component, also after a root or a trailing slash |
| PathText.FileNameMeaning | src/walk.rs:55-58 | a path with a name is its parent and that name; without a parent it is empty or a root |
| PathText.BelowIsNeat | src/walk.rs:324-330 | every directory below a root in normal form is in normal form |
| PathText.CanonicalIsNeat | src/main.rs:158-163 | an absolute path of plain names is in normal form |
| InternedPaths.DirTextMeaning | src/walk.rs:67-79 | the text rebuilt from parent pointers is, as a path, the directory interned |
| InternedPaths.OneIdPerDirectory | src/walk.rs:50-65 | distinct ids are distinct directories, and parents have smaller ids |
| InternedPaths.PathTable.AddName | src/walk.rs:40-48 | the name can be read back at the returned place, and nothing stored moves |
| InternedPaths.PathTable.Intern | src/walk.rs:50-65 | returns the one id of the directory, adding only it and missing ancestors, in exactly their room, moving nothing |
| InternedPaths.PathTable.DirPath | src/walk.rs:67-79 | terminates and rebuilds the directory an id denotes, as its root was first spelled |
| InternedPaths.PathTable.Seal | src/walk.rs:81-83 | sealing changes no path |
| InternedPaths.Paths.Push | src/walk.rs:106-110 | records the file and its payload under its directory and keeps all earlier ones, whenever the new names fit |
| InternedPaths.Paths.Path | src/walk.rs:102-104 | returns, as a path, what was pushed, whatever was pushed later and after sealing, and exactly which text: the pushed one if all directories were in normal form |
| InternedPaths.ComesBackExactlyIff | src/walk.rs:50-79 | the text is the pushed one if and only if the directory spells its root as first pushed and has nothing redundant below it |
| InternedPaths.RootSpelledTwice | src/walk.rs:50-79 | a root entered as two slashes first comes back so for all files below it |
| InternedPaths.FromPaths | src/walk.rs:157-171 | pushes every path as its parent and name, in order, then seals; each comes back if and only if it ends in a name or is empty |
| InternedPaths.ComesBackIff | src/walk.rs:162-166 | a path is its parent and name if and only if it ends in a name or is empty |
| InternedPaths.RootDoesNotComeBack | src/walk.rs:162-166 | the root is collected as the empty path |
| InternedPaths.UpDoesNotComeBack | src/walk.rs:162-166 | a name followed by `..` is collected as the name |
| WalkConsumer.ArrivalsAreListed | src/walk.rs:250-264 | what reaches the loop are the files of all messages of the roots that could be read, each once, in order, with its directory and its root's device and dataset |
| WalkConsumer.WalkRoot | src/walk.rs:358-371 | pushes exactly the files the arrivals emit, one by one, into the path table, and carries the seen set |
| WalkConsumer.Files | src/walk.rs:250-274 | every item of the sealed table is a wanted file of some message, with its directory and its root's dataset; the inode of every wanted file is there, with stable link counts once; from roots in normal form, only directories in normal form |
| WalkConsumer.EmitsEachOnce | src/walk.rs:245-249 | then there are as many items as inodes of wanted files |
| WalkConsumer.EmittedExactly | src/walk.rs:358-371 | over all roots an inode is emitted once per unaliased entry, and once for all aliased ones unless seen before |
| WalkConsumer.EmittedArrived | src/walk.rs:358-371 | what is emitted is an eligible entry, with the name and directory it arrived under |
| WalkConsumer.WalkEmits | src/walk.rs:358-371 | exactly the non-excluded inodes of the roots' devices are emitted, and the exact condition for at most once |
| WalkConsumer.EmittedTwice | src/walk.rs:364-368 | an inode that arrives without aliases and once more is emitted twice |
| WalkConsumer.EmittedOnce | src/walk.rs:364-368 | with stable link counts every such inode is emitted exactly once |
| WalkConsumer.OrderIndependent | src/walk.rs:347-372 | whatever the order of arrival and the link counts, each inode is emitted equally often |
| ScanRun.HashOne | src/hasher.rs:223-248 | a hit exactly if the record matches the lstat; else the hashes of the whole opened file under its own stat; fails exactly for a failed lstat, open or read, a corrupt record, or block size 0, with that error |
| ScanRun.HashFiles | src/hasher.rs:200-221 | each batch is hashed against the table as the batches before left it; afterwards a file that was a miss answers with the stat and hashes found last, every other file as before; results are in order |
| ScanRun.FoundIsAnswered | src/hasher.rs:203-219 | what was found for a file, by a hit or by hashing it, is what the table answers afterwards |
| ScanRun.PruneKeyIsInjective | src/main.rs:16-21 | on one dataset distinct inodes have distinct keys |
| ScanRun.SurvivorsInOrder | src/main.rs:248-266 | the files kept are the results that hashed, each once, in order |
| ScanRun.Record | src/main.rs:245-266 | keeps exactly the files that hashed, in order, with exactly their probes in a filter of the size for all files, and counts busy files and errors |
| ScanRun.PruneUnseen | src/main.rs:275-282 | keeps a record of the dataset exactly if the filter cannot tell it from a hashed file, so none of those; other datasets stand; returns the drop in size |
| ScanRun.PruneKeepsIndex | src/main.rs:243-285 | dedup after pruning builds the index it would have built before |
| ScanRun.Refresh | src/main.rs:242-283 | stores what was found; prunes exactly if every scanned root is a mount point, and then exactly what the filter does not cover |
| ScanRun.RescanHits | src/main.rs:242-283 | a file that stays as it was found is a hit on what its dataset's scan left, pruned or not |
| ScanRun.ScanGroup | src/main.rs:237-286 | hashes every path, leaves the cache as Refresh does, carries out the plan of everything that hashed from exactly the hashes found, sums its bytes, and touches no other dataset's record |
| ScanRun.Scan | src/main.rs:234-286 | over all datasets: each starts from the cache the one before left, the first from the given one; it fails exactly at a corrupt record, which changes no store; stores change only by the runs reported, unscanned records stand, totals are all settled slots plus busy files, all hashed bytes, and all other failures |
| ScanRun.SumsAdd | src/main.rs:231-286 | the totals of two lists of datasets add up, and one dataset's are its settled slots, its failures and its hashed bytes |

## Left out

- WalkConsumer.Files: what each root's `walk_dir` sends is given, in any order of arrival; reading directories is a
  foreign call.
- ScanRun.Scan: the answers of lstat, open and read for each path are given; a file is not written while one
  `hash_one` reads it, which is `ScanProtocol`'s subject.
- Counters are unbounded; `usize` and `u64` overflow of totals is not modelled.
- The 64-bit words of the Bloom filter are sets of bit positions, not machine words.
- `each_chunk` is the sequence of the calls it makes, since its visitor is a closure.
- Sorting before the merge is an insertion sort; the library sort is only specified.
- The dedupe probe, ioctl layouts and errno numbers: foreign calls; their contracts are `BlockStore.Accepts` and `DedupSteps.DoDedupe`.
- The change of timestamps by FICLONERANGE during a dedup: no later step of the phase reads them.
- XXH3, aligned buffers and O_DIRECT: hashing is any function, reads may be short or fail.
- redb internals, compaction and file sizes: the table is a map with atomic commits.
- Mount discovery, remounting, `zpool` calls, argument parsing and messages: system plumbing and text.
- Bloom false-positive rate, `ChunkKeyHasher` and the mixing quality of `prune_key`: results hold for any collisions.
- `filter_map` and `shrink_to_fit` on path lists, which keep each file's place in the arena: easy members.
