# SharedHashFile in Dafny

SharedHashFile keeps a hash table, IPC queues and a log in memory shared by several processes. This project models its
five hard parts and proves what they promise.

**The ticket lock** (`LockWord`, `TicketLock`, `LockFairness`, `LockReaders`). Three 8-bit tickets and their pad bytes live in one
64-bit word, changed by whole-word fetch-and-adds and single byte stores. The lock is a step system: one place in the code
per thread, one memory operation per step, any schedule. Ticket and counter arithmetic is proved on the packed word itself.
The order of tickets, mutual exclusion and progress are proved for every run in which at most 256 tickets are ever
outstanding, however many threads there are.

**MurmurHash3_x64_128** (`Murmur`). The loop over blocks, the tail switch and the finalizer, each with its inverse
written out.

**The window store** (`Bytes`, `TabHeap`, `TabFile`, `TabCopy`, `Directory`, `WindowModel`, `WindowOps`, `WindowRuns`,
`WindowLimits`, `TabMemory`, `WindowStore`, `Counters`, `UidCode`, `Store`). Bottom up: numbers in bytes; the heap of
records that parse back from their own bytes; one tab with its refs, counters and list of deleted records; the copy loop;
the redirect array; a window and the map from UID to record that it stands for; the calls on it; runs of calls and what
they answer; exactly when a put runs out of tabs; a mapped tab changed store by store; the same calls as loops over such
tabs; reference counters; the 32-bit UID; and the store of 256 windows. A call is first a function on values, whose meaning
on the map is proved, and then a method on the mapped tabs, proved equal to the function.

**The queues** (`QueueModel`, `QueueChains`, `QueueSet`, `QueueMachine`, `QueueRuns`, `QueueSchedules`, `QueueAnswers`,
`QueueAlone`). Each queue is a
sequence per shared queue and per process's push and pull pre-queue, with an owner for every item; the links in the shared
`qiids` array are proved to be exactly those sequences. The calls appear twice: as methods on the link arrays, one process
at a time, and as a machine on which any number of processes interleave, one load or store of shared memory per step, with
the pushes and pulls unlocked as in the code.

**Tab mappings and the log** (`TabMapping`, `LogBuffer`). How processes notice that a file grew or was replaced; and the
buffer that appenders fill under a lock while one thread writes it out without the lock.

## Where the code and its promise part

- The lock keeps its promises in every run with at most 256 tickets outstanding (`TicketLock.MutualExclusion`,
  `LockFairness.NoStarvation`). The design notes (src/shf.h:115) allow any number of readers: over all runs of n threads,
  mutual exclusion holds if and only if n is at most 256; with 257 threads two writers can be inside at once
  (`TicketLock.ExclusionThreshold`, `TicketLock.TwoWriters`).
- In fixed-length mode the link of a deleted record is written at bytes 5 to 8 of the record, while the guard asks only
  for key and value of 4 bytes together (src/shf.c:620-623). Deleting stays inside the record if and only if the two
  lengths together are less than 4 or at least 8 (`TabFile.LinkFits`, `TabFile.TwoRecords`).
- A counter key is present exactly when its wrapped sum is not zero, except that adding zero to an absent key creates it:
  the promise holds if and only if the sum is not zero or an even number of zero adds ends the sequence
  (`Counters.CounterPromise`, `Counters.ZeroAddCreates`).
- A put whose row is full parts its tab until the row has a place or no tab is left, and then aborts. It aborts if and
  only if the row's sixteen records agree with its own index in all the low bits that the tabs still unused can separate
  (`WindowLimits.OverflowsExactly`); with 11 tabs unused, if and only if they are all of its own index
  (`WindowLimits.OverflowsWhenCrowded`). The seventeenth put of one hash into a new window is an input
  (`WindowLimits.SeventeenthPutAborts`).
- The UID of the last place of the last window equals the value that means no UID (src/shf.h:354, src/shf.c:892): a call
  with it looks up the current key instead (`Store.PutUidReaches`). Sixteen puts into a new store bring one about
  (`Store.ReservedUidReturned`).
- A line that is shorter than the log but does not fit together with its prefix length is waited for in vain
  (`LogBuffer.WaitCanEnd`).
- The assertions after a file growth hold if and only if the growth factor is not zero; the setter tests the factor it
  replaces, not the one it is given (src/shf.c:1210), so it lets a zero in (`TabMapping.GrowthFits`).
- The design notes (src/shf.h:126) say only table splits move records; copying a value out can also shrink a tab
  (src/shf.c:978-984). The proofs follow the code: resolving a UID survives both.

## Model

| member | source | states |
|---|---|---|
| LockWord.AddSteps | src/shf.lock.h:207-210 | A fetch-and-add of one lane's unit to the whole 64-bit word steps that lane's two bytes by one and leaves the others, unless the lane is full |
| LockWord.AddBothSteps | src/shf.lock.h:246 | The writer's release steps the active-writer and active-reader lanes with one add |
| LockWord.ClearPad | src/shf.lock.h:247-248 | Storing zero to a pad byte reduces that lane to its ticket and changes no other lane |
| TicketLock.TicketsDecode | src/shf.lock.h:179-284 | In every interleaving of up to 65280 threads each ticket byte is its own counter modulo 256, and a pad byte never exceeds the number of threads between their add and their clear, so no carry reaches the next ticket |
| TicketLock.DecodeStep | src/shf.lock.h:212-284 | Every atomic step of every thread keeps the word decodable |
| TicketLock.OrderMove | src/shf.lock.h:212-284 | With at most 256 tickets outstanding every step keeps tickets in order: each outstanding ticket has one owner, active-reader has passed exactly the readers inside, and active-writer counts the releases |
| TicketLock.NoAlias | src/shf.lock.h:222 | With at most 256 tickets outstanding, comparing tickets modulo 256 is comparing the tickets themselves |
| TicketLock.MutualExclusion | src/shf.lock.h:212-284 | In every run of up to 65280 threads in which at most 256 tickets were outstanding before each turn, a writer that holds the lock is alone |
| TicketLock.NoOvertaking | src/shf.lock.h:212-284 | In such a run, when a wait ends with an earlier ticket still out, the one who enters is a reader and the earlier ticket is a reader's that is inside; nobody else is ever overtaken |
| TicketLock.SomeoneMoves | src/shf.lock.h:212-284 | In every state such a run reaches, unless all threads are idle, some thread can move |
| TicketLock.Drains | src/shf.lock.h:212-284 | From every state such a run reaches at most 6n turns let every waiting thread take and release the lock, with never more than 256 tickets out |
| TicketLock.FewAreBounded | src/shf.lock.h:212-284 | At most 256 threads never have more than 256 tickets outstanding, in any schedule |
| TicketLock.TwoWriters | src/shf.lock.h:212-231 | For every n above 256 there is a reachable state with two writers inside |
| TicketLock.ExclusionThreshold | src/shf.lock.h:212-284 | All reachable states of n threads are exclusive if and only if n is at most 256 |
| LockFairness.NoStarvation | src/shf.h:115-119 | From any moment of any run, under every schedule that gives each thread 1280 turns and however many threads arrive meanwhile, a thread waiting with ticket k enters with that ticket, if at most 256 tickets are ever outstanding |
| LockFairness.SomeoneReady | src/shf.lock.h:212-284 | While a thread waits, some thread with a ticket no later can take a step that counts at its next turn |
| LockFairness.StaysReady | src/shf.lock.h:212-284 | No turn of another thread takes that away |
| LockFairness.RoundPays | src/shf.lock.h:212-284 | Every round of turns reduces what tickets up to k still owe before k can enter |
| LockReaders.TicketKind | src/shf.lock.h:212-284 | In every run, as long as a thread's latest ticket is the one its lock call took, a reader call stands only where readers stand and a writer call only where writers stand, or it has released |
| LockReaders.CallGetsIn | src/shf.h:115-119 | No lock call starves: it gets the lock, as the reader or writer it asked to be and by the ticket it took, under every schedule that gives each thread 1280 turns, if at most 256 tickets are ever outstanding |
| LockReaders.ReaderGetsIn | src/shf.lock.h:252-277 | In every such run a reader whose earlier outstanding tickets are all readers' gets in by turns in which nobody releases or leaves |
| LockReaders.ReadersShare | src/shf.h:116 | For every k up to 256 and every n from k to 65280, a state in which k of n threads hold the lock together as readers is reachable |
| Murmur.FmixInverse | src/murmurhash3.c:62-71 | The 64-bit finalizer has an inverse |
| Murmur.BlockInverse | src/murmurhash3.c:94-103 | A block step gives back the old state from the block, and the block from the old state |
| Murmur.FinishInverse | src/murmurhash3.c:147-156 | The finalization has an inverse |
| Murmur.TailInjective | src/murmurhash3.c:118-138 | From one state, different tails of one length lead to different states |
| Murmur.OneBlockApart | src/murmurhash3.c:75-160 | Keys of one length that differ at most inside one 16-byte block have the same 128-bit hash only when they are equal |
| Murmur.TailApart | src/murmurhash3.c:75-160 | The same for keys that differ at most after the last whole block |
| Murmur.SeedsApart | src/murmurhash3.c:75-160 | One key has equal hashes for two seeds only when the seeds are equal |
| Murmur.KnownHash | src/murmurhash3.c:75-160 | A key of two blocks and eleven more bytes has the hash MurmurHash3 is known to give it for seed 0, and the value that follows for the store's seed 12345 (src/shf.c:456) |
| Murmur.EmptyHash | src/murmurhash3.c:75-160 | The empty key has hash zero for seed 0 |
| Murmur.Fmix64 | src/murmurhash3.c:62-71 | The finalizer, step by step, is the invertible function |
| Murmur.MixBlock | src/murmurhash3.c:94-103 | The loop body is the invertible block step |
| Murmur.MixTail | src/murmurhash3.c:118-138 | The tail switch is the injective tail step |
| Murmur.TailWord1 | src/murmurhash3.c:128-137 | The fall-through cases 8 to 1 assemble the bytes that are there into the word the injectivity results are about |
| Murmur.TailWord2 | src/murmurhash3.c:119-127 | The same for the cases 15 to 9 |
| Murmur.MurmurHash3_x64_128 | src/murmurhash3.c:75-160 | The loop over blocks, tail and finalization leave in out the hash the injectivity results are about |
| Bytes.U32RoundTrip | src/shf.c:602-603 | A 32-bit number stored in bytes is read back |
| TabHeap.EncodeParses | src/shf.c:596-608 | A record written anywhere parses back from its own bytes to its key and value |
| TabHeap.StartsApart | src/shf.c:596-609 | Records do not overlap |
| TabHeap.AppendCell | src/shf.c:596-612 | Appending a record extends the tiling by exactly that record |
| TabHeap.Recell | src/shf.c:551-561 | Rewriting one record at its own length leaves every other record where it is and moves the totals by that record alone |
| TabHeap.TotalsSum | src/shf.c:609-627 | Live and deleted bytes together are the whole heap |
| TabFile.PutKeeps | src/shf.c:539-612 | A put, at the end or into a deleted record, keeps the tab's invariant, adds exactly its entry and leaves every other entry as it was |
| TabFile.PutPlace | src/shf.c:547-612 | A put goes into the first deleted record in fixed mode if there is one, moving its bytes from free to used, and otherwise behind everything, leaving free bytes and list alone |
| TabFile.DeletedIsNext | src/shf.c:547-631 | In fixed mode with 8 bytes or more the next put in the tab goes exactly where the record just deleted was; in the other modes it goes behind everything |
| TabFile.DeleteKeeps | src/shf.c:614-631 | A delete keeps the invariant, removes exactly its entry and moves its bytes from used to free |
| TabFile.UpdateKeeps | src/shf.c:1102-1119 | Overwriting a value in place keeps the invariant and changes exactly that value |
| TabFile.ChainPop | src/shf.c:547-562 | Reusing the first deleted record leaves a chain of exactly the other deleted records, once each, ending at 0 |
| TabFile.ChainPush | src/shf.c:619-625 | Deleting a record puts it in front of the chain of exactly the deleted records |
| TabFile.UsedIsLivePlusFree | src/shf.c:539-631 | tab_used is the header plus tab_data_used plus tab_data_free |
| TabFile.NoRefsNoBytes | src/shf.c:614-631 | A tab with no used refs has no live bytes |
| TabFile.LinkFits | src/shf.c:619-625 | Deleting writes only the deleted record's bytes if and only if the fixed lengths together are below 4 or at least 8 |
| TabFile.TwoRecords | src/shf.c:619-625 | For lengths of 4 to 7 bytes together, a tab of two records where deleting the first overwrites the second |
| TabCopy.MoveRefKeeps | src/shf.c:633-649 | Copying a ref moves its entry to the same place of the new tab and changes nothing else in either tab |
| TabCopy.Copy | src/shf.c:699-705 | After the copy loop over the first n refs exactly the selected ones among them are in the new tab, at their own places, with their keys and values |
| TabCopy.NoFreeNoChain | src/shf.c:547-562 | A tab without garbage has nothing to reuse |
| Directory.SplitHalves | src/shf.c:740-748 | Parting a tab that owns the indexes r modulo m leaves it those that are r modulo 2m and gives the new tab those that are r + m modulo 2m |
| Directory.SplitSingle | src/shf.c:740-748 | A tab with one index keeps it and the new tab gets none |
| Directory.SplitKeeps | src/shf.c:740-748 | After every parting every tab owns nothing or one residue class modulo a power of two, and the classes partition the 2048 indexes |
| Directory.SplitInPlace | src/shf.c:740-748 | The loop with its tab_switch, in place, is that split |
| Directory.FreshDirectory | src/shf.c:422-433 | A new window's redirect array is such a directory |
| WindowModel.ShrinkKeeps | src/shf.c:678-720 | Shrinking keeps every entry at its place and the live bytes, and leaves no garbage |
| WindowModel.ShrinkTabKeeps | src/shf.c:678-720 | Shrinking a tab changes nothing any UID resolves to |
| WindowModel.PartAssertions | src/shf.c:757-760 | The assertions inside the parting loop never fire: every used ref of the parted tab goes to the old or the new tab |
| WindowModel.PartTabs | src/shf.c:722-779 | Parting distributes the entries of one tab over two by the new redirects, and touches no other tab |
| WindowModel.PartKeeps | src/shf.c:722-779 | Parting keeps the window's invariant and changes nothing any UID resolves to, and adds no garbage |
| WindowOps.FindCorrect | src/shf.c:917-941 | Lookup by key finds a record if and only if one matches, and then the one in the lowest place of its row |
| WindowOps.PutRefines | src/shf.c:781-858 | A put, through any number of partings and a shrink, adds one record under a UID that was free and changes nothing else; without garbage before there is none after |
| WindowOps.PutBoundsGarbage | src/shf.c:843-848 | After a put, through any partings, the tab written has tab_data_free at most tab_data_used * 20 modulo 2 to the 32, over 100, and so at most a fifth of tab_data_used while the product fits 32 bits |
| WindowOps.PutInPlace | src/shf.c:796-848 | A put whose row has a free place takes the lowest one unless the 32-bit tab_used would wrap, shrinks the tab exactly when its garbage is over that bound, and otherwise leaves the tab just with the record, its garbage kept |
| WindowLimits.OverflowsExactly | src/shf.c:722-839 | In every window a put overflows if and only if the sixteen places of its row are used by indexes that agree with its own in as many low bits as the unused tabs can still make its class fix |
| WindowLimits.PutOverflows | src/shf.c:722-839 | The same from any class of the index's tab, following the partings one by one |
| WindowLimits.OverflowsWhenCrowded | src/shf.c:796-839 | A row that holds sixteen records of the put's own index always overflows; with 11 tabs unused nothing else does |
| WindowLimits.RowFills | src/shf.c:781-858 | Sixteen puts of one hash into a new window are stored, in the sixteen places of their row |
| WindowLimits.SeventeenthPutAborts | src/shf.c:796-839 | And the seventeenth ends in the tab overflow |
| WindowOps.DeleteRefines | src/shf.c:942-1012 | A delete removes the record of its UID, says whether there was one, and changes nothing else |
| WindowOps.UpdateRefines | src/shf.c:1013-1019 | An update replaces a value by one of the same length, refuses any other, and changes nothing else |
| WindowOps.AtomAddRefines | src/shf.c:986-993 | An atomic add wraps at 64 bits in the first eight bytes of a value that has them, and changes nothing else |
| WindowOps.U64Bytes | src/shf.c:986-993 | The number added to is the first eight bytes, lowest first, and the new one is the only replacement of those eight bytes that reads as the sum |
| WindowOps.GetRefines | src/shf.c:972-985 | Copying out returns the record and, though it may shrink the tab, changes nothing; it leaves at most a quarter of the used bytes as garbage |
| WindowOps.GetShrinks | src/shf.c:972-985 | Copying out shrinks the tab exactly when its garbage is more than a quarter of what is used, and otherwise changes no byte |
| WindowOps.NewWindowEmpty | src/shf.c:406-433 | A new window satisfies the invariant and stands for the empty map |
| WindowRuns.RunRefines | src/shf.c:781-1043 | Every call, by UID or by key, is a call of the plain map and answers what the map says: the UID of a put, the record of a get, found or not, a value of the wrong length, the new sum |
| WindowRuns.RunsRefineMap | src/shf.c:781-1043 | From a new window every sequence of calls with its answers is a sequence of calls of the plain map with the same answers |
| WindowRuns.RunBoundsGarbage | src/shf.c:843-985 | Every put and copy of a run leaves its tab within those bounds |
| WindowRuns.UidKeeps | src/shf.c:678-1030 | A UID keeps resolving to its record through every parting and shrink while no call deletes or changes it |
| WindowRuns.PutUidResolves | src/shf.c:781-1030 | From a new window, over every sequence of calls, the UID a put returned resolves to what was put until a call deletes or changes it |
| WindowRuns.PutsLeaveNoGarbage | src/shf.c:1190-1203 | From a new window, over every sequence of puts and gets, no tab has a byte of garbage |
| TabMemory.StoreU32 | src/shf.c:602-603 | Four byte stores write a 32-bit number and nothing else |
| TabMemory.StoreBytes | src/shf.c:605-607 | A copy into the mapping replaces those bytes and nothing else |
| TabMemory.WrittenIs | src/shf.c:596-608 | The stores of an append, type, lengths, key and value in the code's order, leave exactly the record's bytes and keep the rest |
| TabMemory.MarkedIs | src/shf.c:617-624 | The stores of a deletion leave exactly the marked heap |
| TabMemory.TabMem.Grow | src/shf.c:563-590 | A growth makes room behind tab_used and keeps the tab |
| TabMemory.TabMem.AppendRecord | src/shf.c:539-612 | The append, store by store on the mapped bytes, into a reused record or behind tab_used, growing the file if need be, is the append of the model |
| TabMemory.TabMem.MarkDeleted | src/shf.c:614-631 | Marking a ref's record deleted, store by store, is the delete of the model |
| TabMemory.TabMem.FindInRow | src/shf.c:917-941 | The scan of a row returns the lowest ref with the index, bits, key length and key bytes asked for |
| TabMemory.TabMem.Overwrite | src/shf.c:1102-1119 | The copying callback replaces the value's bytes and nothing else |
| WindowStore.CopyOver | src/shf.c:633-649 | One ref copied between two mapped tabs |
| WindowStore.CopyAll | src/shf.c:699-705 | The nested copy loops over rows and refs are the copy of the model |
| WindowStore.ShrinkFile | src/shf.c:678-720 | The new tab file has the entries of the old one and no garbage |
| WindowStore.SharedWindow.constructor | src/shf.c:406-433 | A new window: one tab, every index redirected to it |
| WindowStore.SharedWindow.PartAt | src/shf.c:722-779 | Redirect loop, copy loop and shrink together are the parting of the model |
| WindowStore.SharedWindow.Put | src/shf.c:781-858 | The retry loop ends, each retry using up one of the 2048 tabs, with the model's outcome and UID |
| WindowStore.SharedWindow.FindKey | src/shf.c:891-941 | Lookup by key through the redirect array |
| WindowStore.SharedWindow.DeleteUid | src/shf.c:942-1012 | Delete by UID, in place |
| WindowStore.SharedWindow.UpdateUid | src/shf.c:1013-1019 | Update by UID, in place |
| WindowStore.SharedWindow.AtomAddUid | src/shf.c:986-993 | Atomic add by UID, in place |
| WindowStore.SharedWindow.GetUid | src/shf.c:972-985 | Copy out by UID, and the shrink it may start |
| WindowStore.SharedWindow.AddKeyVal | src/shf.c:1045-1070 | The add-create-delete call is the model's |
| Counters.AddKeySteps | src/shf.c:1045-1070 | One add to a key that is absent or an eight-byte number creates it, adds to it modulo 2 to the 64, or deletes it at zero |
| Counters.AddKeyMeans | src/shf.c:1045-1070 | The call on any key: put when there is no record, refused for a value under eight bytes, otherwise the wrapped sum in the first eight bytes of the record a lookup finds, which goes when the sum is zero; it aborts only in a put |
| Counters.CounterIs | src/shf.c:1045-1070 | After any sequence of adds the key is exactly: its wrapped sum if that is not zero, zero if an odd number of zero adds ends the sequence, absent otherwise |
| Counters.CounterPromise | src/shf.c:1045-1070 | Present exactly when the wrapped sum is not zero, holding that sum, if and only if the sum is not zero or an even number of zero adds ends the sequence |
| Counters.ZeroAddCreates | src/shf.c:1059-1065 | Adding zero to an absent key leaves it present with value zero |
| Counters.OtherKeysKeepCounter | src/shf.c:1045-1070 | An add to one key leaves every other key's counter alone |
| Counters.MixedAddsCount | src/shf.c:781-1070 | Over every run that mixes all calls and adds on any keys, a key that was absent and that only adds touch is what its own adds, in their order, make it |
| Counters.CounterInStore | src/shf.c:1045-1070 | So in the store it is what CounterIs says of its own adds, whatever happens to other keys in between |
| Counters.OthersKeepCounter | src/shf.c:781-1043 | Calls that do not put the key or touch its record leave its counter alone |
| UidCode.PackUnpack | src/shf.private.h:170-178 | Window, index, row and ref come back out of the 32-bit UID: its bits 0 to 7, 8 to 18, 19 to 27 and 28 to 31 |
| UidCode.UnpackPack | src/shf.private.h:170-178 | Every 32-bit UID is some place's |
| UidCode.CodesDiffer | src/shf.private.h:170-178 | Different places of the store have different UIDs |
| UidCode.NoneIsLast | src/shf.h:354 | Exactly one place has the UID that means none |
| UidCode.PartsOfHash | src/shf.c:799-802 | Any hash gives a window, index, row and bits in range |
| UidCode.HashBits | src/shf.c:799-802 | Bits 0 to 7, 16 to 26 and 32 to 40 of the hash are window, index and row, bits 64 to 84 are the bits kept in the ref, no other bit matters, and so every window and place is some hash's |
| Store.CallRefines | src/shf.c:781-1043 | Each of the five calls, on the window and place its UID or key names, is a call of one map from 32-bit UIDs to records with the same answer: a get gives the record, a delete removes it, an update or add gives it exactly the new value or says why not |
| Store.RunsRefineStore | src/shf.c:781-1043 | From a new store every sequence of calls with its answers is a sequence of calls of that map |
| Store.OnlyPutsAbort | src/shf.c:781-858 | No call but a put aborts, and a put exactly when the put on its window does |
| Store.CallBoundsGarbage | src/shf.c:843-985 | A call changes its own window alone and leaves the tab it wrote or copied from within the garbage bounds |
| Store.PutUidReaches | src/shf.c:892-955 | Calls with the UID a put returned reach that record whatever key is current, if and only if it is not the last place of the last window |
| Store.ReachedUnlessNone | src/shf.c:892-955 | Calls with a UID always work on its own place if and only if it is not the value that means none |
| Store.ReservedUidReturned | src/shf.c:781-858 | Sixteen puts into a new store whose last returns that value |
| QueueModel.RunConserves | src/shf.c:1567-1882 | In every sequence of whole steps of any number of processes every item stays in exactly one list or held by exactly one process |
| QueueSchedules.ChainsInMemory | src/shf.c:1567-1882 | After every single load and store of every interleaving of any number of processes: each item is in exactly one list or held by one process, and every list nobody is in the middle of changing is exactly its chain of next and last links, head, tail and size in shared memory |
| QueueSchedules.AccessesApart | src/shf.c:1567-1882 | In no reachable state are two processes about to access the same shared cell, so the unlocked pushes and pulls need no lock; and no access leaves the arrays |
| QueueSchedules.AccessIsOwn | src/shf.c:1567-1882 | Every access is to a link of an item the process holds or has in a pre-queue or, holding the lock, to a shared queue |
| QueueSchedules.RunRefines | src/shf.c:1567-1882 | Every interleaving of single accesses is a run of whole steps of the model, each body taking effect at one of its accesses |
| QueueSchedules.PullReturns | src/shf.c:1595-1604 | In every interleaving a pull takes the oldest item of the pull pre-queue, and nothing exactly when that list is empty |
| QueueAnswers.NothingMeansEmpty | src/shf.c:1567-1882 | In every interleaving, a pull or hybrid call that has returned took an item, unless at a moment of that same call its process held the lock while the shared queue and both its own pre-queues for it were empty |
| QueueAnswers.FullPushesFlushed | src/shf.c:1662-1665 | In every interleaving, a process that is in no call has fewer than max items in each of its push pre-queues |
| QueueAnswers.StageIs | src/shf.c:1567-1882 | Every step of a call goes on as the lengths of the lists demand |
| QueueAlone.PullEnds | src/shf.c:1567-1615 | In every interleaving, whenever the lock is free, a pull ends after finitely many turns of its process alone, does exactly what the whole call does, and if pre-queues or shared queue hold anything, the oldest of it is the caller's |
| QueueAlone.PullAlone | src/shf.c:1567-1615 | With items in its pre-queue the pull does so even while others hold the lock |
| QueueAlone.PushEnds | src/shf.c:1635-1667 | The same for a push: the item is then the newest of its queue |
| QueueAlone.HybridEnds | src/shf.c:1815-1882 | The same for the hybrid call |
| QueueSchedules.CallsInOrder | src/shf.c:1567-1882 | When only a's calls push to a queue and only b's pull from it, plain or hybrid, while all processes call and flush as they like: what was there and was pushed is in order what was pulled and is on its way, in every interleaving of accesses |
| QueueSchedules.CallsPulledIsPrefix | src/shf.c:1567-1882 | So the items pulled are a prefix of the items pushed |
| QueueRuns.StepKeeps | src/shf.c:1567-1882 | Every access of every process keeps the invariant and is at most one step of the model |
| QueueRuns.RegionsApart | src/shf.c:1567-1882 | No two processes have a cell in common that either may access |
| QueueRuns.FinishLocal | src/shf.c:1567-1882 | What a process has left to do reads and changes its own cells only |
| QueueModel.UnlockedCommutes | src/shf.c:1567-1667 | As whole steps, an unlocked link or take commutes with every step of another process, locked or not |
| QueueModel.InOrder | src/shf.c:1635-1787 | Over every run of whole steps in which only a links to a queue and only b takes from it, other processes' splices having nothing to splice: what was there and was pushed is in order what was pulled and is there |
| QueueModel.PulledIsPrefix | src/shf.c:1635-1787 | The items pulled are a prefix of the initial and pushed items |
| QueueModel.FlushFifo | src/shf.c:1701-1791 | A flush moves items but not their order, and after it an empty pull pre-queue means an empty queue |
| QueueModel.FlushBatches | src/shf.c:1701-1791 | List by list: all push pre-queues of the process go behind their shared queues, the refilled pull pre-queue gets what is there up to max, nobody else's lists change |
| QueueModel.PushBatches | src/shf.c:1662-1665 | A push touches shared queues only when it makes its pre-queue max items long, and then empties all of the process's |
| QueueModel.PullBatches | src/shf.c:1581-1604 | A pull takes from its pre-queue alone while that has items, and otherwise first moves up to max items there |
| QueueModel.HybridBatches | src/shf.c:1815-1882 | A hybrid call flushes exactly when its push made the pre-queue max items long or there is nothing to take |
| QueueModel.PushHeadFifo | src/shf.c:1635-1667 | For one process, a push appends to its queue and changes no other |
| QueueModel.PullTailFifo | src/shf.c:1567-1615 | For one process, a pull returns the oldest item, and none only when all three lists are empty |
| QueueModel.HybridIsPushThenPull | src/shf.c:1815-1882 | The hybrid call returns what a push followed by a pull returns and leaves the same queues |
| QueueChains.LinkChains | src/shf.c:1649-1657 | Linking an item at the head keeps every list's chain exact |
| QueueChains.TakeChains | src/shf.c:1595-1604 | Taking the tail item keeps every list's chain exact |
| QueueChains.TransferChains | src/shf.c:1721-1786 | Splicing the first k items of one list behind another keeps every list's chain, ends and size exact |
| QueueSet.Queues.constructor | src/shf.c:1344-1428 | All items start linked in order on queue 0 |
| QueueSet.Queues.LinkItem | src/shf.c:1649-1657 | The unlocked half of a push writes only links of items the process owns |
| QueueSet.Queues.TakeItem | src/shf.c:1584-1612 | The unlocked half of a pull writes only links of items in its own pull pre-queue |
| QueueSet.Queues.SpliceQueue | src/shf.c:1716-1744 | The locked splice of a push pre-queue |
| QueueSet.Queues.FillQueue | src/shf.c:1746-1788 | The locked refill walks to the last item that fits and cuts behind it |
| QueueSet.Queues.Flush | src/shf.c:1701-1791 | The flush is the model's, chains exact |
| QueueSet.Queues.PushHead | src/shf.c:1635-1667 | The push is the model's, chains exact |
| QueueSet.Queues.PullTail | src/shf.c:1567-1615 | The pull is the model's, and the item returned is held by the caller |
| QueueSet.Queues.PushHeadPullTail | src/shf.c:1815-1882 | The hybrid call is the model's |
| LogBuffer.StepKeeps | src/shf.c:2123-2378 | Every step of an appender or of the log thread keeps the unwritten bytes where the thread reads them |
| LogBuffer.NothingLost | src/shf.c:2123-2378 | In every interleaving, with partial and failed writes, bytes written followed by bytes pending are the accepted lines in lock order, and used never exceeds size |
| LogBuffer.AppendTakes | src/shf.c:2339-2372 | An attempt to append takes the whole line exactly when it is shorter than the log and fits behind what is there together with the prefix length |
| LogBuffer.WriteEnds | src/shf.c:2123-2147 | What write() answers decides whether another write or the end of the pass is next, and the end leaves exactly the bytes not written in front |
| LogBuffer.NextPass | src/shf.c:2178-2205 | After a pass begun in some second: none on an empty log; another in the same second only with 64 KB and no failed write; in another second always, unless a write failed in just that one |
| LogBuffer.DuringPass | src/shf.c:2123-2205 | During a pass the buffer is what it was at the start and behind it the lines accepted since, and what was written is the front of the first part |
| LogBuffer.FullPass | src/shf.c:2178-2205 | From its start to its end, a pass that wrote everything wrote exactly what was there, and leaves exactly the lines appended meanwhile |
| LogBuffer.WaitCanEnd | src/shf.c:2339-2373 | The log thread can make room for a waiting appender if and only if prefix length and line together are no longer than the log |
| LogBuffer.SharedLog.TryAppend | src/shf.c:2339-2372 | One locked turn of an appender: the line behind what is there, or nothing |
| LogBuffer.SharedLog.StartPass | src/shf.c:2178-2194 | Whether the thread starts to write |
| LogBuffer.SharedLog.WriteSome | src/shf.c:2123-2147 | One round of the unlocked write loop |
| LogBuffer.SharedLog.EndPass | src/shf.c:2196-2205 | What is left and what came in meanwhile moves to the front, in place |
| TabMapping.LookupFresh | src/shf.c:485-531 | A tab lookup ends mapped to the file on disk at its full size, whatever generation and size were mapped before |
| TabMapping.GrowKeeps | src/shf.c:563-590 | A growth keeps the grower on the whole file |
| TabMapping.ShrinkKeeps | src/shf.c:678-720 | A shrink keeps the protocol's invariant and leaves the shrinking process on the replacement |
| TabMapping.OpKeeps | src/shf.c:485-779 | Every find, put, growth, shrink and parting keeps the protocol's invariant |
| TabMapping.OpDoes | src/shf.c:485-779 | What every operation does, in full: a growth gives the same file its new size; a shrink adds a generation of the size the copy needs and leaves the former one saying 1; a parting does that and adds a tab its process is mapped to; other tabs' files, other processes and other mappings are untouched |
| TabMapping.RunsStayCurrent | src/shf.c:285-304 | Over every run of any number of processes: each operation does what it is for and ends on the current file at its size, every replaced file says 1, and count_mmap equals the unmaps a detach makes |
| TabMapping.GrowthFits | src/shf.c:563-592 | The record fits after a growth if and only if the growth factor is at least 1 |
| TabMapping.GrownSizeIs | src/shf.c:563-592 | A growth asks for the fewest whole pages that hold the old size and the factor times what is needed |

## Left out

- Real I/O: open, mmap, mremap, stat, ftruncate, unlink, fork and exec are abstract files with a generation, a size and
  a size field, or sequences of bytes.
- Calls on a window run one at a time. A copy under the reader lock may shrink the tab, so readers are not modelled as
  running beside each other.
- The lock and the window calls are separate models; that the calls take the lock is not modelled.
- The add-create-delete call is proved on one window and not lifted to the store of 256.
- WindowOps.Put: a tab whose heap would pass 2 to the 32 ends the put as HeapFull, where the code would go on with a
  32-bit position that wrapped.
- A put that aborts for lack of tabs ends the model's run, as the assertion ends the process.
- Puts in fixed-length mode take exactly the fixed lengths; the code does not check them.
- The window invariant is claimed for the modes in which a link fits (`Sound`); for the others there is the exact
  condition and the two-record example only.
- In `TabMemory` a growth is a larger array; a file of 2 to the 32 bytes or more, whose 32-bit size field wraps, is not
  modelled, nor is the check for space on the file system.
- A put with a NULL value (reserve bytes), the conditional delete by `shf_ttl`, and update callbacks other than the
  copying one.
- The raw-address calls `shf_get_key_val_addr` and `shf_get_uid_val_addr`: the addresses go stale.
- The statistics counters and `tab_refs_used`, which the copy loop counts twice (src/shf.c:611, src/shf.c:649).
- In the interleaved queue calls, acquiring and releasing the queue lock are single steps; the ticket lock behind them is
  modelled on its own, and the two are not composed.
- Reads of a process's own pre-queue records are not steps of their own: no other process sees them.
- `last` links are claimed for neighbours only: after a partial refill the new tail's `last` still names an item that
  left (src/shf.c:1771-1786), and nothing reads it.
- `shf_q_del`, `shf_q_take_item`, queue names and attaching to existing queues: thin uses of the table.
- The log's prefix text, syslog, redirected output, high-water warnings and the drain when the log stops. A log of size
  0, whose allocation and capacity differ (src/shf.c:2289, src/shf.c:2301).
- Memory ordering weaker than sequential consistency, in the lock, the queues and the log.
- Byte order: numbers in records, the hash's block reads and the UID's fields are little-endian.
- The spin lock, which the build does not select; race start, timeouts and time in seconds.
- The C++ wrapper, the command-line tools and the test programs.
