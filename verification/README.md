# Verified models of five systems programs

This project models, in Dafny, the parts of the repository whose behaviour is hardest to see by
reading one function, and proves what they keep. `dafny verify dfyconfig.toml` checks everything.

| files | what they model |
|---|---|
| `Words`, `UInt256`, `UInt256Mul`, `UInt256Hex` | 256-bit arithmetic on four 64-bit limbs (`csf_assign01/uint256.c`) |
| `CacheModel`, `CacheAddress`, `CacheSim`, `CacheSets`, `CacheLru`, `CacheInclusion`, `CacheFifo`, `CacheCycles` | the set-associative cache simulator (`csf_assign03/cache.cpp`, `csim.cpp`) |
| `ParSortMerge`, `ParSort`, `ParSortRuns`, `ParSortReturns` | the parallel merge sort over forked processes (`csf_assign04/csf_assign04/parsort.c`) |
| `Rio`, `Framing`, `Connections` | the robust I/O functions and the message framing of the chat programs (`csf_assign05/csapp.c`, `connection.cpp`) |
| `ChatModel`, `ChatControl`, `ChatSemaphore`, `ChatOrder`, `ChatOwnership`, `ChatSafety`, `ChatProgress`, `ChatReplies`, `ChatLogin`, `ChatCommands`, `ChatReceivers`, `ChatDelivery`, `ChatBroadcast`, `ChatObjects` | the threads of the chat server (`csf_assign05/server.cpp`, `room.cpp`, `message_queue.cpp`) |

Code that updates state in place is modelled by methods and classes that are proved against
functions (`Cache` against `Step`, `ReadLineB` against `LineLength`, `Mul` against `Product`); the
theorems are about those functions. The two concurrent programs are transition systems with one
atomic action per step, and every theorem about them holds for every interleaving: a property of a
reachable state is proved as an invariant of every step, and runs are sequences of steps.
`ChatObjects` has the same server code as classes whose methods run undisturbed, and relates each of
them to the steps of one undisturbed thread.

What turned out about the code:

- The carry test of `uint256_add` misses the carry when both limbs are all ones and a carry comes in
  (`uint256.c:213`). `LostCarry` says by how much a sum falls short, `SumExactIff`,
  `DifferenceExactIff` and `ProductExactIff` say exactly when results are right, and
  `SumCounterexample`, `DifferenceCounterexample` and `ProductCounterexample` give operands for which
  they are not: (2^128 - 1) - 1 already comes out wrong. The low 128 bits are right for all operands.
- `is_power_of_two` accepts 0 (`csim.cpp:24-27`), so a cache with no blocks is accepted
  (`AcceptsZeroBlocks`); the cache theorems assume at least one set, one way and one byte per block.
- FIFO has inclusion only for one way or no widening (`FifoInclusionIff`); what a narrow cache holds is
  in a wider one, in whatever order, also when the wider one has room for every tag
  (`FifoContainedIff`).
- `message.h:8-12` allows encoded messages of `MAX_LEN` = 255 bytes, but `receive` passes `MAX_LEN` as
  the size of a terminated buffer, so 254 is the limit (`DocumentedLimitIsLost`, `RoundTripIff`).
- The server adds room and sender to a text, so it accepts commands whose delivery no client can read
  back whole (`AcceptedAndCut`); `DeliveryArrivesIff` is the exact limit. A room name may hold a colon,
  and then clients cut the delivery at the wrong place (`DeliveryNamesRoomIff`, `ColonRoomIsMisread`).
- With threshold 0 the parallel sort splits one cell into nothing and itself for ever; `EndsIff` says that
  every other call comes to an end, and `CanReturnIff` that the same calls can return. The safety theorems hold
  for every threshold.
- A login is not always answered once: after an invalid message `worker` replies and carries on
  (`server.cpp:207-213`), and a valid name with a wrong tag is accepted and then refused.
  `LoginAnsweredOnceIff` gives the exact condition, `InvalidLoginAnsweredTwice` and
  `JoinAsLoginAnsweredTwice` the runs, `LoginDialogue` all replies. Commands of a sender are answered once
  each (`SenderSession`).
- The length of a login is checked before its data is trimmed (`server.cpp:223`), so a carriage return logs
  in under the empty name (`EmptyNameIsAccepted`); `AcceptedLoginIff` says what is accepted.

Shifts and complements of unsigned words are the arithmetic that sections 6.5.7 and 6.5.3.3 of
ISO/IEC 9899:2011 define; `&` is computed bit by bit. `strtoul` in base 16 is modelled after section
7.22.1.4 and `%lx` and `%016lx` after section 7.21.6.1 of the same standard. `qsort` may write
anything into its range while it runs and leaves a sorted permutation there. `read` and `write` take
their outcomes (any transfer size, `EINTR`, another error) from a finite script that the theorems
quantify over, so they hold for every kernel behaviour with finitely many interruptions.

## Model

| member | source | states |
|---|---|---|
| UInt256.Add | csf_assign01/uint256.c:207-221 | the loop returns L + R less the lost carry, modulo 2^256 |
| UInt256.SumSplit | csf_assign01/uint256.c:207-221 | sum, lost carry and the carry out of the top limb make up the true sum exactly |
| UInt256.CarryOutExact | csf_assign01/uint256.c:211-218 | the carry test is right except for two all-ones limbs with a carry in, where it answers 0 |
| UInt256.StallsLose | csf_assign01/uint256.c:211-218 | the limb where the carry is lost is fixed by the operands: limb 1, or limb 2, never both |
| UInt256.SumExact | csf_assign01/uint256.c:207-221 | the value of every sum, with the error term |
| UInt256.SumExactIff | csf_assign01/uint256.c:207-221 | a sum is right modulo 2^256 exactly when neither limb 1 nor limb 2 loses its carry |
| UInt256.SumLow128 | csf_assign01/uint256.c:207-221 | the low 128 bits of a sum are always right |
| UInt256.SumCounterexample | csf_assign01/uint256.c:211-218 | 2^128 - 1 added to itself comes out 2^128 too small |
| UInt256.NegationExact | csf_assign01/uint256.c:228-232 | complement plus one is the exact two's complement negation for every value |
| UInt256.Sub | csf_assign01/uint256.c:224-235 | L - R modulo 2^256 with the error of one addition, low 128 bits always right |
| UInt256.DifferenceExactIff | csf_assign01/uint256.c:224-235 | a difference is right except exactly when limb 1, or limb 2, is all ones less 0 and what lies below is subtracted without a borrow and is not 0 |
| UInt256.DifferenceCounterexample | csf_assign01/uint256.c:224-235 | (2^128 - 1) - 1 comes out wrong |
| UInt256.ValueOfLimbs | csf_assign01/uint256.c:20-30 | every number below 2^256 has limbs that denote it |
| UInt256.ValueInjective | csf_assign01/uint256.c:20-30 | different limbs denote different numbers |
| UInt256Mul.LeftShift | csf_assign01/uint256.c:242-307 | all eight branches multiply by 2^shift modulo 2^256, for every shift from 0 to 255 |
| UInt256Mul.ShiftedExact | csf_assign01/uint256.c:242-307 | moving whole limbs and joining lanes is multiplication by the power of two |
| UInt256Mul.JoinedLane | csf_assign01/uint256.c:271-302 | the two parts added into a limb never overlap, so the addition does not wrap |
| UInt256Mul.ShiftOver192 | csf_assign01/uint256.c:248-257 | masking before the shift by more than 192 keeps exactly the bits that survive |
| UInt256Mul.BitIsSetExact | csf_assign01/uint256.c:309-338 | the bit test is the binary digit of the value, and 0 from bit 256 on |
| UInt256Mul.Mul | csf_assign01/uint256.c:340-357 | shift-and-add returns L * R less all lost carries, modulo 2^256, low 128 bits always right |
| UInt256Mul.ProductSplit | csf_assign01/uint256.c:347-354 | after every round accumulator, losses and a multiple of 2^256 make up the true partial product |
| UInt256Mul.LostShape | csf_assign01/uint256.c:347-354 | the losses are a multiple of 2^128, and zero exactly when no addition loses a carry |
| UInt256Mul.ProductExact | csf_assign01/uint256.c:340-357 | the value of every product, with the error term |
| UInt256Mul.ProductExactIff | csf_assign01/uint256.c:340-357 | a product is right modulo 2^256 exactly when none of its additions loses a carry |
| UInt256Mul.ProductLow128 | csf_assign01/uint256.c:340-357 | the low 128 bits of a product are always right |
| UInt256Mul.SmallProductExact | csf_assign01/uint256.c:340-357 | every product below 2^128 is exact |
| UInt256Mul.ProductCounterexample | csf_assign01/uint256.c:340-357 | 3 * (2^128 - 1) comes out wrong |
| UInt256Hex.StrtoulOfNumeral | csf_assign01/uint256.c:73-76 | spaces, sign, prefix and digits of a numeral are read as its value modulo 2^64, whatever follows it |
| UInt256Hex.StrtoulOfNothing | csf_assign01/uint256.c:73-76 | a string without digits after its spaces and sign is read as 0 |
| UInt256Hex.CreateFromHex | csf_assign01/uint256.c:33-131 | every group of any string goes to its limb, and hex digits of any length give their value modulo 2^256 |
| UInt256Hex.FormatAsHex | csf_assign01/uint256.c:135-195 | 1 to 64 lowercase digits without a needless leading zero that denote the value |
| UInt256Hex.ParseOfFormat | csf_assign01/uint256.c:33-195 | parsing what was printed gives the same limbs back |
| UInt256Hex.FormatOfParse | csf_assign01/uint256.c:33-195 | printing what was parsed from any string gives the digits of its limbs, for hex digits the canonical form of the last 64 |
| UInt256Hex.LastDigits | csf_assign01/uint256.c:41-46 | cutting to the last 64 digits is reduction modulo 2^256 |
| UInt256Hex.GroupsOfDigits | csf_assign01/uint256.c:41-117 | groups of 16 digits from the right are the limbs of the value |
| UInt256Hex.CanonicalUnique | csf_assign01/uint256.c:135-195 | a canonical string is the printed form of its value, so no two share a value |
| UInt256Hex.DigitsConcat | csf_assign01/uint256.c:143-191 | a number followed by a zero-padded limb prints as their combination |
| CacheAddress.HighestBitSet | csf_assign03/cache.cpp:18-24 | the position of the highest set bit |
| CacheAddress.LowSigExact | csf_assign03/cache.cpp:7-15 | shift and mask take out the m bits from bit n upwards |
| CacheAddress.DecodeExact | csf_assign03/cache.cpp:131-133 | the masks take set index and tag out of a 32-bit address, and the index is below setNum |
| CacheAddress.DecodeInjective | csf_assign03/cache.cpp:131-133 | two addresses share index and tag exactly when they lie in the same block |
| CacheAddress.IsPowerOfTwoExact | csf_assign03/csim.cpp:24-27 | the test accepts exactly the powers of two and 0 |
| CacheAddress.AcceptsExact | csf_assign03/csim.cpp:78-87 | exactly these are accepted: counts that are powers of two or 0, blocks of a power of two of at least 4 bytes, and every pair of store policies but one |
| CacheAddress.AcceptedSizes | csf_assign03/csim.cpp:78-87 | accepted sizes are powers of two exactly when neither count is 0 |
| CacheAddress.AcceptedDecodes | csf_assign03/cache.cpp:48-50 | accepted sizes give an index and offset with room for a tag exactly when neither count is 0 and a way is below 2^32 bytes |
| CacheAddress.AcceptsZeroBlocks | csf_assign03/csim.cpp:78-87 | a cache with no blocks passes the checks |
| CacheModel.RunInv | csf_assign03/cache.cpp:75-225 | after any trace every set has distinct tags, at most blockNum blocks, and no dirty block under write-through |
| CacheSim.OrdersArePermutation | csf_assign03/cache.cpp:80-123 | the order counters of a set of n blocks are a permutation of 0 .. n - 1 with n at most blockNum |
| CacheSim.OneVictim | csf_assign03/cache.cpp:100-113 | a full set has exactly one block of order blockNum - 1 |
| CacheSim.RefreshIsTouch | csf_assign03/cache.cpp:80-88 | raising the smaller orders and zeroing one is moving that block to the front of the list |
| CacheSim.Cache.constructor | csf_assign03/cache.cpp:27-53 | an empty cache for any sizes, in working order whenever the sizes can be decoded |
| CacheSim.Cache.AgeBelow | csf_assign03/cache.cpp:82-86 | the iterator loop ages exactly the blocks below the bound, in whatever order it visits them |
| CacheSim.Cache.Evict | csf_assign03/cache.cpp:100-114 | the loop removes the last block of the list and charges a write-back exactly when it is dirty |
| CacheSim.Cache.Refresh | csf_assign03/cache.cpp:81-88 | the counters go on representing the list, moved to front |
| CacheSim.Cache.AddBlock | csf_assign03/cache.cpp:116-123 | the new block becomes the head of the list |
| CacheSim.Cache.CountLoadHit | csf_assign03/cache.cpp:75-96 | list, counters and cycles after a load hit |
| CacheSim.Cache.CountLoadMiss | csf_assign03/cache.cpp:98-128 | list, counters and cycles after a load miss |
| CacheSim.Cache.CountStoreHit | csf_assign03/cache.cpp:146-170 | list, counters and cycles after a store hit |
| CacheSim.Cache.CountStoreMiss | csf_assign03/cache.cpp:174-213 | list, counters and cycles after a store miss, with and without write-allocate |
| CacheSim.Cache.Load | csf_assign03/cache.cpp:131-142 | a load refines one step of the list model |
| CacheSim.Cache.Store | csf_assign03/cache.cpp:215-225 | a store refines one step of the list model |
| CacheSim.Simulate | csf_assign03/csim.cpp:89-100 | the trace loop refines the list model's run over the load and store lines, and counts as many loads and stores as there are lines of each kind |
| CacheSim.AccessOfLine | csf_assign03/csim.cpp:91-98 | the access of a line comes after those of the earlier load and store lines, stores exactly for "s", at the line's address modulo 2^32 |
| CacheSim.TotalsOfLines | csf_assign03/csim.cpp:91-98 | the run has as many loads as lines with "l" and as many stores as lines with "s", and other lines contribute nothing |
| CacheSets.SetIndependence | csf_assign03/cache.cpp:131-225 | what a set holds after a trace depends only on the accesses that fall into it |
| CacheSets.OneSetCache | csf_assign03/cache.cpp:131-225 | set s holds what a one-set cache holds after just those accesses |
| CacheSets.TagsAfterTrace | csf_assign03/cache.cpp:75-213 | the tags of a set by order are decided by the replacement policy alone |
| CacheLru.LruIsTruncatedRecency | csf_assign03/cache.cpp:80-123 | LRU with write-allocate holds the blockNum most recently used tags, in order of use |
| CacheLru.FifoIsBoundedQueue | csf_assign03/cache.cpp:98-213 | FIFO holds the blockNum tags fetched last, under either write policy |
| CacheLru.HitIffReusedSoon | csf_assign03/cache.cpp:75-225 | an access hits exactly when its block was used before and fewer than blockNum other blocks of its set since |
| CacheLru.StackDistance | csf_assign03/cache.cpp:75-225 | the hit and miss counters grow by exactly that rule |
| CacheInclusion.IncludedStep | csf_assign03/cache.cpp:80-213 | every access keeps the smaller cache's tags a subsequence of the larger one's |
| CacheInclusion.Inclusion | csf_assign03/cache.cpp:80-213 | LRU inclusion: fewer ways hold a subsequence of more ways, under both store policies |
| CacheInclusion.MoreWaysMoreHits | csf_assign03/cache.cpp:75-225 | load hits and store hits never fall as blockNum grows |
| CacheFifo.FifoContainedIff | csf_assign03/cache.cpp:98-213 | with a bound on the tags, more FIFO ways hold all that fewer hold exactly for one way, no widening, or room for all tags |
| CacheFifo.FifoInclusionIff | csf_assign03/cache.cpp:98-213 | FIFO has inclusion over all traces exactly for one way or no widening |
| CacheFifo.AnomalyTrace | csf_assign03/cache.cpp:98-128 | for every 2 <= k < K there is a trace after which k ways hold a tag that K ways do not |
| CacheCycles.CycleAccount | csf_assign03/cache.cpp:91-212 | all cycles of a trace are accounted for by hits, misses and dirty evictions, under each policy |
| CacheCycles.WriteBackCycles | csf_assign03/cache.cpp:91-212 | the closed formula under write-back |
| CacheCycles.WriteThroughCycles | csf_assign03/cache.cpp:91-212 | the closed formula under write-through, and no block is ever dirty |
| CacheCycles.AccessCounts | csf_assign03/cache.cpp:131-225 | every access is one load or store and one hit or miss |
| CacheCycles.DirtyConservation | csf_assign03/cache.cpp:106-208 | write-backs plus resident dirty blocks equal the times a block became dirty, at most the number of stores |
| ParSortMerge.Merge | csf_assign04/csf_assign04/parsort.c:32-55 | the loop fills the buffer with the merge of the two halves and nothing beyond it |
| ParSortMerge.MergedSorted | csf_assign04/csf_assign04/parsort.c:32-55 | merging sorted halves gives a sorted sequence |
| ParSortMerge.MergedContents | csf_assign04/csf_assign04/parsort.c:32-55 | merging loses and invents no element |
| ParSortMerge.CompareI64 | csf_assign04/csf_assign04/parsort.c:19-29 | the sign of the comparison is the order of the operands |
| ParSortMerge.CopyBack | csf_assign04/csf_assign04/parsort.c:120-122 | the copy replaces exactly the range |
| ParSort.MergingKeepsInv | csf_assign04/csf_assign04/parsort.c:32-55 | each round of a merge that other processes interleave keeps buffer and rest a sort of the input |
| ParSort.BothSucceeded | csf_assign04/csf_assign04/parsort.c:87-115 | after two successful waits both halves are sorted and no descendant is alive |
| ParSort.WorkKeepsInv | csf_assign04/csf_assign04/parsort.c:57-125 | each action of merge_sort keeps the invariant of its process |
| ParSort.FailureKeepsInv | csf_assign04/csf_assign04/parsort.c:66-114 | so does a crash or a failed fork or waitpid anywhere |
| ParSort.StepKeepsInv | csf_assign04/csf_assign04/parsort.c:57-125 | every step of any process in the tree keeps the invariant of all and writes only inside the range |
| ParSort.InvFrame | csf_assign04/csf_assign04/parsort.c:57-125 | a process and its descendants depend on no cell outside their range |
| ParSortRuns.RunKeepsInv | csf_assign04/csf_assign04/parsort.c:57-125 | the invariant holds after any run of the process tree, failures included |
| ParSortRuns.SortedOnReturn | csf_assign04/csf_assign04/parsort.c:57-125 | if the call returns the range is a sorted permutation of the input, and in any case nothing else changed |
| ParSortRuns.WriterAlone | csf_assign04/csf_assign04/parsort.c:89-124 | a process that may write has no live descendant |
| ParSortRuns.WritersDisjoint | csf_assign04/csf_assign04/parsort.c:57-125 | processes that may write at the same time have disjoint ranges |
| ParSortRuns.StepWritesOwnCells | csf_assign04/csf_assign04/parsort.c:57-125 | every change of the array is made by a writer inside its own range |
| ParSortRuns.StepDecreasesRank | csf_assign04/csf_assign04/parsort.c:57-125 | every step but a write of qsort uses up work |
| ParSortRuns.RunIsBounded | csf_assign04/csf_assign04/parsort.c:57-125 | the number of such steps of any run is bounded by the size and the threshold |
| ParSortRuns.EndlessSplitting | csf_assign04/csf_assign04/parsort.c:57-74 | with threshold 0 a non-empty range has runs of any length, because one cell is split into itself and nothing |
| ParSortRuns.EndsIff | csf_assign04/csf_assign04/parsort.c:57-125 | the runs of a call are bounded exactly when the threshold is at least 1 or the range is empty |
| ParSortRuns.NeverStuck | csf_assign04/csf_assign04/parsort.c:57-125 | a tree whose root has not ended always has a process that can go on |
| ParSortReturns.NoFailureNoError | csf_assign04/csf_assign04/parsort.c:57-125 | over any run without a crash or a failed call no process ends otherwise than with success, so a call that has ended has sorted its range |
| ParSortReturns.CanReturn | csf_assign04/csf_assign04/parsort.c:57-125 | from every such state of a call with a threshold of at least 1 some continuation returns |
| ParSortReturns.CallCanReturn | csf_assign04/csf_assign04/parsort.c:57-125 | every run of a call without failures can be carried on until it returns |
| ParSortReturns.CanReturnIff | csf_assign04/csf_assign04/parsort.c:57-125 | a call can return exactly when the threshold is at least 1 or the range is empty |
| ParSortReturns.ExitStatusExplained | csf_assign04/csf_assign04/parsort.c:61-115 | after any run only ranges above the threshold were split, at their middle, and the exit status of every process names what it met |
| Rio.WriteN | csf_assign05/csapp.c:781-798 | all bytes are sent in order however the kernel cuts them, or a proper prefix and -1 |
| Rio.LineLengthExact | csf_assign05/csapp.c:877-900 | the line length is the only cut that respects newline, buffer size and end of stream |
| Rio.LinesConcat | csf_assign05/csapp.c:877-900 | cutting a stream into lines loses, repeats and moves no byte |
| Rio.RioBuffer.constructor | csf_assign05/csapp.c:843-848 | an empty buffer in front of the whole stream |
| Rio.RioBuffer.Refill | csf_assign05/csapp.c:815-826 | buffered plus unread bytes stay the remaining stream through any reads and interruptions |
| Rio.RioBuffer.Read | csf_assign05/csapp.c:811-836 | at least one and at most n bytes from the front of the remaining stream, 0 only at its end |
| Rio.RioBuffer.ReadLineB | csf_assign05/csapp.c:877-900 | the next line of the stream, terminated, whatever the sizes of the reads |
| Rio.ReadLines | csf_assign05/csapp.c:811-900 | successive calls return the lines of the pure splitter on the byte stream |
| Framing.FramedIsReceived | csf_assign05/connection.cpp:57-102 | a framed message is received with its tag and its data, the following bytes untouched |
| Framing.ReceivedIsFramed | csf_assign05/connection.cpp:57-102 | only framed messages are |
| Framing.RoundTripIff | csf_assign05/connection.cpp:57-102 | the round trip holds exactly for known tags, data without newline and NUL, and 254 encoded bytes |
| Framing.DocumentedLimitIsLost | csf_assign05/connection.cpp:81-83 | there is a message of the documented 255 bytes that does not survive |
| Framing.SplitJoin | csf_assign05/connection.cpp:89-91 | splitting at the first colon undoes joining, for tags without a colon |
| Framing.SplitExact | csf_assign05/connection.cpp:89-91 | the cut is at the first colon, and a line without one is tag and data alike |
| Framing.ReceivedClassified | csf_assign05/connection.cpp:81-101 | any line is cut so, and is a success exactly when its tag is one of the eleven of the protocol, otherwise invalid |
| Framing.ReceivedAtEnd | csf_assign05/connection.cpp:84-87 | the end of the stream leaves the caller's data and the tag "empty" |
| Framing.ColonlessIsInvalid | csf_assign05/connection.cpp:89-101 | a line without colon and NUL is invalid and keeps its bytes and newline |
| Framing.ConversationRoundTrip | csf_assign05/connection.cpp:57-102 | a sequence of messages arrives as sent exactly when every one of them is framed |
| Connections.StrLen | csf_assign05/connection.cpp:67-67 | the length of the string before the first NUL |
| Connections.Connection.constructor | csf_assign05/connection.cpp:16-21 | a connection reads the descriptor's stream from its start |
| Connections.Connection.Send | csf_assign05/connection.cpp:57-75 | the whole encoding goes out, or a proper prefix with EOF_OR_ERROR |
| Connections.Connection.Receive | csf_assign05/connection.cpp:77-102 | tag, data, result and rest of the stream are those of the pure function, and errors keep the data |
| Connections.Transmit | csf_assign05/connection.cpp:57-102 | with any transfer sizes on both sides, what arrives is what was sent exactly when every message is framed |
| ChatModel.RightTrimExact | csf_assign05/server.cpp:56-59 | trimming gives the one prefix that ends in no trimmed character and leaves out nothing else |
| ChatModel.AfterLogin | csf_assign05/server.cpp:202-238 | every login but an end of file is replied to, and only an end of file ends the thread at once |
| ChatModel.LoginCheck | csf_assign05/server.cpp:215-238 | only a name of letters and digits with a newline is accepted |
| ChatModel.AfterJoinRequest | csf_assign05/server.cpp:153-171 | a receiver looks a room up only after a well-formed join |
| ChatModel.AfterCommand | csf_assign05/server.cpp:62-149 | only a join with a newline looks a room up and only a sendall with a newline in a room broadcasts, each with its trimmed data, and only an end of file ends the thread without a reply |
| ChatControl.FindKeepsControl | csf_assign05/server.cpp:303-311 | looking up or creating a room keeps locks, names and members consistent |
| ChatControl.MembershipActs | csf_assign05/room.cpp:16-24 | so do insert and erase under the room's lock |
| ChatControl.CastEdgeActs | csf_assign05/room.cpp:26-33 | so do the beginning and end of a broadcast |
| ChatControl.TargetIsLive | csf_assign05/room.cpp:29-32 | the user a broadcast is about to enqueue to exists and is a member of the locked room |
| ChatControl.StepKeepsControl | csf_assign05/server.cpp:153-311 | every step of every thread keeps it clear who holds which lock, room and user |
| ChatSemaphore.QueueEffectKeepsSems | csf_assign05/message_queue.cpp:32-72 | each operation of a producer or consumer keeps the semaphore equation of every queue |
| ChatSemaphore.StepKeepsSems | csf_assign05/message_queue.cpp:32-72 | so does every step of every thread |
| ChatOrder.PushedInStep | csf_assign05/room.cpp:29-32 | a push turns the message pending for a member into the last one of its queue |
| ChatOrder.HistoryGrows | csf_assign05/room.cpp:26-28 | a broadcast that begins is pending for exactly the members |
| ChatOrder.MembershipKeepsOrder | csf_assign05/room.cpp:16-24 | joining and leaving fix where a user's part of the history begins and ends |
| ChatOrder.StepKeepsOrder | csf_assign05/server.cpp:153-190 | every step keeps every user in step with the history of its room |
| ChatOwnership.QueueEffectKeepsOwned | csf_assign05/message_queue.cpp:19-72 | an operation finds the message it moves, not freed, and leaves it in one place |
| ChatOwnership.StepKeepsOwned | csf_assign05/message_queue.cpp:19-72 | so does every step of every thread |
| ChatSafety.PopFindsMessage | csf_assign05/message_queue.cpp:65-69 | a consumer past the semaphore finds a message |
| ChatSafety.DestroyIsDefined | csf_assign05/server.cpp:252-257 | a user is destroyed with nobody holding its queue |
| ChatSafety.StepKeepsSafe | csf_assign05/server.cpp:62-311 | no step does anything undefined, and the invariants are inductive together |
| ChatSafety.ReachableIsSafe | csf_assign05/server.cpp:62-311 | no interleaving pops an empty deque, touches a destroyed user, frees twice or breaks the locking |
| ChatSafety.SemaphoreCounts | csf_assign05/message_queue.cpp:32-72 | queue length is semaphore value plus a pushed and not posted message plus a waited and not popped one |
| ChatSafety.OrderedBroadcast | csf_assign05/room.cpp:26-33 | under a free lock, what a member was sent, holds and has queued is the room's history since it joined |
| ChatSafety.OrderedUntilLeave | csf_assign05/server.cpp:179-257 | for ever after the leave, what a user was sent, lost, was destroyed with and has queued is the history between join and leave |
| ChatSafety.DeliveredInOrder | csf_assign05/server.cpp:179-189 | for ever after, what was delivered is a gapless stretch of the history that starts at the join and ends by the leave |
| ChatSafety.SameOrder | csf_assign05/room.cpp:26-33 | two users of a room see the messages they share in the same order |
| ChatSafety.MembersAreLive | csf_assign05/server.cpp:171-257 | every member is a live user, and a user about to be deleted is in no room |
| ChatSafety.MutualExclusion | csf_assign05/room.cpp:16-33 | no two threads are in the critical section of one lock |
| ChatSafety.OneOwner | csf_assign05/message_queue.cpp:19-72 | a message is in one hand, or one position of one queue, or freed, and never in two |
| ChatSafety.NothingLeaks | csf_assign05/message_queue.cpp:19-30 | when all workers are done every message has been freed |
| ChatSafety.RunExtends | csf_assign05/server.cpp:303-311 | over any run a room name keeps its room, and histories only grow |
| ChatSafety.LookupsAgree | csf_assign05/server.cpp:303-311 | two lookups at any two times return the same room exactly for the same name |
| ChatProgress.LockOrder | csf_assign05/message_queue.cpp:59-59 | a thread at the semaphore holds no lock, and a queue lock is only taken under a room lock or none |
| ChatProgress.HolderMoves | csf_assign05/room.cpp:26-33 | a lock holder that no queue lock blocks has a step towards letting go |
| ChatProgress.BlockedByReceiver | csf_assign05/message_queue.cpp:66-69 | the lock that blocks a broadcast is held by the receiver itself, which nothing blocks |
| ChatProgress.LetGo | csf_assign05/room.cpp:16-33 | every thread can be run until it holds no lock, helped only by receivers in its way |
| ChatProgress.NoDeadlock | csf_assign05/server.cpp:62-311 | from every reachable state some continuation leaves every lock free |
| ChatProgress.IdleIsCaughtUp | csf_assign05/message_queue.cpp:59-61 | a receiver that waits with nothing counted, under free locks, has been sent all since its join |
| ChatProgress.EveryBroadcastArrives | csf_assign05/server.cpp:179-188 | from every reachable state a receiver in its loop can be sent every message its room saw since its join |
| ChatReplies.StepSettles | csf_assign05/server.cpp:62-149 | a command opens a debt of one reply and a reply closes it |
| ChatReplies.OneReplyPerCommand | csf_assign05/server.cpp:62-149 | over any run a sender is sent as many replies as it gave commands, up to the one being answered |
| ChatReplies.RunAnswers | csf_assign05/server.cpp:202-251 | over any run the replies sent after a login and those still owed add up |
| ChatReplies.LoginAnsweredOnceIff | csf_assign05/server.cpp:202-251 | in any run with successful sends a login is answered once exactly for a known tag with a refused name or one of the two roles |
| ChatReplies.InvalidLoginAnsweredTwice | csf_assign05/server.cpp:207-222 | there is a run in which an invalid message, whichever it is, is answered twice |
| ChatReplies.JoinAsLoginAnsweredTwice | csf_assign05/server.cpp:231-250 | there is a run in which an accepted name under the tag join is answered twice |
| ChatLogin.LoginDialogue | csf_assign05/server.cpp:202-251 | from a login on, in any run, the replies are those the message calls for, in order, and then a sender takes commands, a receiver its join, and everyone else leaves |
| ChatLogin.RolesComeFromLogin | csf_assign05/server.cpp:231-251 | in every run only an accepted "rlogin" ever becomes a member, only an accepted "slogin" ever takes commands or broadcasts, and its name is the trimmed data |
| ChatLogin.RepliesArrive | csf_assign05/server.cpp:62-251 | in every run every reply is "ok" or "err" and is received as it was sent |
| ChatLogin.ActedTagsAreKnown | csf_assign05/connection.cpp:94-95 | every tag that the server acts on is one that receive lets through |
| ChatCommands.StepKeepsInCommand | csf_assign05/server.cpp:62-149 | every step of any thread keeps a command on the way to its own effect and its own reply |
| ChatCommands.SenderSession | csf_assign05/server.cpp:62-149 | over any run the commands of a sender have, one after the other, the room, the broadcast text and the reply that each has by itself, and each is answered once |
| ChatCommands.SendallBroadcasts | csf_assign05/server.cpp:118-130 | a sendall with a newline in a room adds one text to it, with its data trimmed at the end, and only then is answered "ok" |
| ChatCommands.QuitIsLast | csf_assign05/server.cpp:67-137 | after a quit or the end of the stream nothing more is received, and with its reply sent the thread leaves |
| ChatCommands.NoRoomUntilJoin | csf_assign05/server.cpp:79-117 | without a room, as after a leave, a sender broadcasts nothing and has none until a join with a newline |
| ChatReceivers.StepAttends | csf_assign05/server.cpp:153-190 | every step of any thread keeps a receiver on its way: reply, deliveries, and out after a failed send |
| ChatReceivers.ReceiverSession | csf_assign05/server.cpp:153-190 | over any run a receiver stays in the room it asked for exactly as long as its sends succeed, sends one reply and then every message it takes; any other request is refused once |
| ChatDelivery.DeliveryNamesRoomIff | csf_assign05/room.cpp:28-28 | cutting a delivery at its first colon gives the room back exactly when its name has no colon |
| ChatDelivery.AcceptedNameIsPlain | csf_assign05/server.cpp:223-231 | an accepted name holds no colon, newline or NUL |
| ChatDelivery.AcceptedLoginIff | csf_assign05/server.cpp:215-231 | a login is accepted exactly when it has a newline, is not just that, and trims to letters and digits |
| ChatDelivery.EmptyNameIsAccepted | csf_assign05/server.cpp:223-231 | a carriage return and a newline log in under the empty name |
| ChatDelivery.ColonRoomIsMisread | csf_assign05/server.cpp:79-80 | room "a:b" can be joined, and its deliveries are cut in the wrong place |
| ChatDelivery.ClientReadsBack | csf_assign05/receiver.cpp:74-80 | from a delivery as received, with its newline, a client's two cuts give room, sender and text back, for every accepted sender and room name without a colon |
| ChatDelivery.DeliveryArrivesIff | csf_assign05/room.cpp:28-31 | a broadcast reaches a client intact exactly when its parts are clean and at most 242 bytes together |
| ChatDelivery.AcceptedAndCut | csf_assign05/server.cpp:118-125 | there is a framed sendall command whose delivery does not arrive intact |
| ChatBroadcast.HistoryStep | csf_assign05/room.cpp:26-28 | in every reachable state a step adds to a room's history exactly the room, sender and text of the broadcast that it begins there, and nothing otherwise |
| ChatBroadcast.BroadcastIsSigned | csf_assign05/room.cpp:26-28 | in every run what a history gains comes from an accepted "slogin", under its name, and a client's two cuts give room, sender and text back unless the room's name has a colon |
| ChatBroadcast.EnqueueMidway | csf_assign05/message_queue.cpp:32-42 | each operation of an enqueue within a broadcast takes the member's queue one stage on and leaves all others as they are |
| ChatBroadcast.BroadcastUndisturbed | csf_assign05/room.cpp:26-33 | in whatever order an undisturbed broadcast takes the members, at its reply each has one message more with that text, and nothing else has changed but the history |
| ChatBroadcast.BroadcastCanFinish | csf_assign05/room.cpp:26-33 | and under free locks it can come to its reply by its own steps |
| ChatObjects.EnqueueUndisturbed | csf_assign05/message_queue.cpp:32-42 | the four steps of an enqueue that nothing interleaves append the message, count it and leave the lock free |
| ChatObjects.DequeueUndisturbed | csf_assign05/message_queue.cpp:59-69 | the four steps of a dequeue that nothing interleaves take the front message and leave the lock free |
| ChatObjects.MembershipUndisturbed | csf_assign05/room.cpp:16-24 | the three steps of a join or leave change only the members and leave the lock free |
| ChatObjects.FindUndisturbed | csf_assign05/server.cpp:303-311 | the three steps of a lookup give the name's room, a new empty one if there was none |
| ChatObjects.MessageQueue.Enqueue | csf_assign05/message_queue.cpp:32-42 | the message goes to the back, the count keeps up with the deque, and the queue is that of the undisturbed steps |
| ChatObjects.MessageQueue.Dequeue | csf_assign05/message_queue.cpp:44-72 | the front message, or none exactly when the deque is empty |
| ChatObjects.MessageQueue.Clear | csf_assign05/message_queue.cpp:19-26 | the destructor deletes every message once, front first |
| ChatObjects.ChatRoom.BroadcastMessage | csf_assign05/room.cpp:26-33 | every member's queue grows by one equal message, in whatever order it visits them |
| ChatObjects.ChatRoom.AddMember | csf_assign05/room.cpp:16-19 | the room stays fit for a broadcast, with one user more, and is that of the undisturbed steps |
| ChatObjects.ChatRoom.RemoveMember | csf_assign05/room.cpp:21-24 | the room stays fit for a broadcast, no other member leaves with the user, and the room is that of the undisturbed steps |
| ChatObjects.ChatServer.FindOrCreateRoom | csf_assign05/server.cpp:303-311 | the room of that name if there is one, otherwise a new empty one, no other name changes its room, and the map is that of the undisturbed steps |

## Left out

- `csf_assign03/another.cpp`, an older variant of the cache that is not built, and the output of the simulator.
- The hexdump programs of `csf_assign02`: finite formatting domains and printing.
- The client programs `sender.cpp` and `receiver.cpp`, `server_main.cpp`, socket setup, thread creation and the rest of `csapp.c`: thin wrappers of system calls.
- Real time: the one-second timeout of `dequeue` is a step that may always happen instead of a wait.
- The contents of the messages clients send: in the chat model a receive may deliver any message with any result, so the parsing of tags is in module Framing and the decisions on them in module ChatModel.
- Memory exhaustion, `malloc` and `mmap`; a failed `malloc` in `merge_sort` is a crash of its process.
- ChatModel: threads, rooms and queues are values and not objects, because the interleavings are the point; module ChatObjects has the classes, each method running undisturbed.
- ChatObjects.MessageQueue.Dequeue: waits no longer than until the count is known to be 0, because the second it waits has no counterpart in a sequential run.
- CacheAddress.DecodeExact: index and offset lengths add up to at least 1 and at most 31, because the code shifts a 32-bit word by their sum and by the rest.
- CacheAddress.IsPowerOfTwoExact: does not cover the least `int`, because subtracting 1 from it overflows.
- UInt256Mul.LeftShift: does not cover shifts of 256 and more, because the code then shifts a 64-bit word by 64 or more.
- UInt256Hex.CreateFromHex: the string is taken without its terminator; for other strings than hex digits no value is claimed beyond that of the groups, because the code has none in mind.
- CacheSim.Cache.constructor: a cache with 0 sets or 0 ways is constructed but no access to it is modelled, because the first one reads past the end of `data` or erases an uninitialised key.
- CacheSim.Simulate: the counters are unbounded numbers, because the `int` counters of the code overflow only after two thousand million cycles; tokenising the trace is not modelled.
- ParSortRuns.RunIsBounded: does not count the writes of `qsort`, whose number is the library's affair; positions are unbounded numbers, so `end + begin` does not wrap.
- `uint256_get_bits`, and the debugging output at `uint256.c:100`: nothing to prove.
