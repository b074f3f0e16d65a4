# Verified model of the qlog log transport

This project models the asynchronous log transport of qlog (`src/buffer`), its snapshot ring, and the
self-contained algorithms below it, and proves what they are for. `dafny verify dfyconfig.toml` checks it.

- `LogBuffer*.dfy`: the two-level log buffer as a transition system. Any number of writer threads move between
  the shared LP ring, private HP blocks and oversize side buffers; one reader merges them by per-thread sequence
  numbers. Main results: in-order delivery without loss or duplication, no sequence deadlock, recycling only of
  drained blocks, payloads always found, and that the reader's scans drain everything once writers rest
  (`LogBufferScan`); and the one failure of it all, a live payload thrown away across a wrap of the 32-bit number, with
  its exact condition under the recycling of side buffers (`LogBufferOrder`, `LogBufferRisk`) and a run that shows it
  (`LogBufferLoss`). What a thread has written and whether it has exited is read off the steps of a run
  (`LogBufferHistory`, `LogBufferExit`).
- `Miso*.dfy`: the multi-producer ring, one atomic access per step, with cursors that the code sees modulo 2^32,
  optimistic reservation and rollback, status words overwritten by payloads, lazy publication of the read cursor,
  and restart from a memory image (`MisoRecovery`), with runs whose images are refused or lose a chunk (`MisoImages`);
  when a request is refused and what a committed chunk holds, in terms of a run's steps (`MisoHistory`, `MisoBytes`), and
  that the reader alone delivers everything and gives all space back (`MisoDrain`).
- `Siso*.dfy`, `Snapshot.dfy`: the single-producer ring on bytes, as values (`SisoModel`, `SisoQueue`, `SisoRuns`)
  and as the class the code is (`SisoRing`), its recovery from arbitrary bytes, and the snapshot ring on top of it.
- `BlockList.dfy`, `Group*.dfy`: index-linked block lists and their rebuilding from arbitrary bytes; the concurrent
  group list with hand-over-hand reader-writer locks, which blocks are handed out (`GroupHistory`) and what the walks over
  it find (`GroupSearch`).
- `Limbs`, `LimbBits`, `ModArith`, `RsaMod`, `RsaBytes`, `Rsa`: limb arithmetic up to RSA encryption and decryption.
- `Aes*.dfy`: tables and what they mean in the field, rounds, key expansion and CBC, by position as the standards state
  them (`AesStandard`) and on the published examples of FIPS 197 (`AesVectors`).
- `XorBytes.dfy`, `Vernam.dfy`, `Utf.dfy`: the XOR stream in its vector forms; UTF-16 and UTF-8 conversion.

In the transition systems a step is one visible action of one thread; memory is sequentially consistent. Where an
operation works in place, a method on arrays or fields is proved against a function of values, and the properties
are proved of that function and of every run.

## Hypotheses

- Log buffer: a thread has at most 2^32 sequence numbers outstanding (`Outstanding`), and the search for a payload has
  thrown nothing away before the moment spoken of (`NoDrop`). The second one is needed: `verify_oversize_context`
  (`src/buffer/log_buffer.cpp:868-894`) orders 32-bit numbers with `<`, so across a wrap it takes a live payload
  for a stale one; the assertion in that branch is compiled out of a release build. `SideDropExact` says when a visited
  head is thrown away, `DropLosesPayload` what is lost, `KeptExactlyWithoutDrop` that the invariant holds over a run
  exactly without it, and `LosingRun` is a run with the loss.
- With the writers at rest the condition is `AtRisk`: two payloads of one thread in different wraps clash, and the later
  one's side buffer is searched first, in the order of the array as it is or as passes of recycling can turn it
  (`src/buffer/log_buffer.cpp:1342-1351` puts the last buffer into the place of a recycled one). `LosesExactly` is about a
  reader that goes step by step as the code does, makes a whole pass of recycling or none whenever the LP head cannot be
  read, since a timer decides that, and may come to the blocks in any order. The code's own scans (`LogBufferScan`) are
  among those paths.
- Multi-producer ring: no cached read cursor lags the write cursor by 2^32 blocks (`Window`), and a size plus its
  head does not overflow 32 bits (`src/buffer/miso_ring_buffer.cpp:289`). Recovery is claimed for images of
  protocol states; there the committed run is restored if and only if every chunk of it is nonempty, every wrap
  chunk fits behind its end, as the code tests (`src/buffer/miso_ring_buffer.cpp:203-210`), and the reader was not
  between clearing a wrap chunk's status and moving its cursor (`src/buffer/miso_ring_buffer.cpp:506-507`).
- A producer of that ring that the others have left behind, so far that the reader has published past the end of the blocks
  it wants, is refused by the same 32-bit test although there is room (`RefuseExact`, with a run in `StaleRefused`).
- Block lists: at most 65535 blocks to a group, and with exactly 65535 no chain without end. There the 16-bit counter
  of the validation walk (`src/buffer/block_list.cpp:122-141`) wraps and the walk never ends (`WalksForEver`); the
  code uses 2 or 16 blocks.
- XOR stream: the key is whole vectors and the call is one that ends (`CallEnds`, exact by `EndsExactly`); for the AVX2
  form also one whose unmasked head finds its key bytes before the key's end (`UnmaskedCallEnds`). Address and offset
  that agree modulo the vector width, as the callers are told to ensure, are enough (`CongruentEnds`).
- UTF-8 reserve: `len * 3` is computed in 32 bits (`src/layout/layout.cpp:277`), so the reserve is enough exactly
  while it does not wrap.

## Model

| member | source | states |
|---|---|---|
| `LogBufferTheorems.DeliveredInOrder` | src/buffer/log_buffer.cpp:661-806 | in every run, at every moment before which no side head was thrown away, what the reader has handed out from a thread is a prefix of what the thread's steps have written, read off the steps alone (the record of each HP commit, and of each LP entry reserved and then committed, in order), however the thread moves between LP ring, HP blocks and oversize buffers |
| `LogBufferHistory.CommittedIsWritten` | src/buffer/log_buffer.cpp:503-806 | in every run, drops or not, a thread's history is exactly the records its steps wrote, in the order of the commits |
| `LogBufferTheorems.NextKeeps` | src/buffer/log_buffer.cpp:661-906 | each of the 26 writer and reader steps but the throwing away of a side head keeps the invariant that ties every sequence number to one LP entry or HP block |
| `LogBufferTheorems.RunInv` | src/buffer/log_buffer.cpp:661-906 | the invariant holds in every state of every run up to the first thrown-away side head |
| `LogBufferTheorems.KeptExactlyWithoutDrop` | src/buffer/log_buffer.cpp:661-906 | the exact condition over a whole run: the invariant holds in all its states if and only if no side head was thrown away |
| `LogBufferReader.DropBreaks` | src/buffer/log_buffer.cpp:1164-1222 | the invariant never outlives a thrown-away side head |
| `LogBufferLoss.DropReached` | src/buffer/log_buffer.cpp:1164-1222 | a run of the writers and the reader that reaches a state of the invariant in which a live payload is thrown away |
| `LogBufferLoss.LosingRun` | src/buffer/log_buffer.cpp:1164-1222 | a run after which the reader has handed out A, B, D of a thread whose steps wrote A, B, C, D: not a prefix |
| `LogBufferTheorems.PendingAwaitsRemoved` | src/buffer/log_buffer.cpp:824-836 | in such a run, whenever the LP head is `seq_pending`, the number it waits for is an HP block of the same thread that is already marked removed and can be read |
| `LogBufferTheorems.NoDeadlock` | src/buffer/log_buffer.cpp:1399-1402 | in such a run, with no write half done and a record undelivered, an LP head or a block can be consumed |
| `LogBufferScan.DrainsAfterRun` | src/buffer/log_buffer.cpp:1415-1545 | after any such run that leaves the writers at rest, reading can throw a payload away if and only if the state is at risk, and if it is not, reading alone delivers exactly what the steps of every thread wrote and deletes the objects of exactly the threads whose steps have exited |
| `LogBufferRisk.LosesExactly` | src/buffer/log_buffer.cpp:1164-1360 | with the writers at rest, reading can come to throw a payload away if and only if two payloads of a thread in different wraps clash and the later one's side buffer is searched first, in the array as it is or as passes of recycling at halts before the earlier one turn it; all of it read off the state before the first call (`AtRisk`) |
| `LogBufferRisk.NeverDrops` | src/buffer/log_buffer.cpp:1164-1360 | from a state not at risk no path of the reader leads to a drop or to a state at risk |
| `LogBufferRisk.RecycledOrder` | src/buffer/log_buffer.cpp:1243-1360 | a pass of recycling at a halt takes exactly the buffers that the parents still in the LP ring and the last target leave idle, and turns the array as `Swept` says, with the last buffer put into the place of each erased one |
| `LogBufferOrder.SweepTurns` | src/buffer/log_buffer.cpp:1342-1351 | a pass can bring a buffer in front of one it stood behind, and the other way round, so neither order alone decides |
| `LogBufferRisk.OneWrapSafe` | src/buffer/log_buffer.cpp:868-894 | while all payloads lie in the wrap being read a state is not at risk, in whatever order the buffers stand |
| `LogBufferScan.DrainsAll` | src/buffer/log_buffer.cpp:1415-1545 | from every state at rest and not at risk, a path of reader steps that delivers everything |
| `LogBufferScan.ScansDeliverAll` | src/buffer/log_buffer.cpp:1415-1540 | the reader's own scan, LP ring until its head cannot be read, then a pass of recycling or none, then each listed block once, delivers everything when repeated more often than there are blocks to free and blocks to read, whatever the order of the lists and however it changes |
| `LogBufferScan.ScanWorks` | src/buffer/log_buffer.cpp:1415-1540 | every single scan, whether it recycles or not, delivers the rest or frees or reads out a block, and takes nothing back |
| `LogBufferScan.ScanExists` | src/buffer/log_buffer.cpp:1415-1540 | from every state at rest and not at risk a scan can be completed, in every order of the blocks and whether it recycles or not, without a drop, and recycling leaves no risk behind |
| `LogBufferTheorems.RecycledWhenDrained` | src/buffer/log_buffer.cpp:1005-1047 | a block goes back to the free list only when its writer has let go of it, it is marked removed, and every record ever committed to it was handed out |
| `LogBufferReader.DepartKeeps` | src/buffer/log_buffer.cpp:1005-1022 | leaving a block on the removed mark sampled at arrival, before the last empty batch, keeps the invariant while writers keep running |
| `LogBufferTheorems.PayloadFound` | src/buffer/log_buffer.cpp:1164-1222 | an oversize parent that has become its thread's next record finds its payload at the head of one of that thread's side buffers, and no other head is taken for it |
| `LogBufferTheorems.SideDestroyedEmpty` | src/buffer/log_buffer.cpp:1270-1360 | a side buffer disappears only when it is empty and no writer holds it |
| `LogBufferTheorems.FreedIsLast` | src/buffer/log_buffer.cpp:896-906 | once the reader has deleted a thread's record, no LP entry, block or side buffer payload of that thread is left and everything it committed was delivered |
| `LogBufferExit.ExitedIsDone` | src/buffer/log_buffer.cpp:44-115 | a thread is done exactly when its steps left its block with the finish mark or committed a finish entry |
| `LogBufferExit.RunMarks` | src/buffer/log_buffer.cpp:896-930 | in every run without a drop a thread that has exited and whose object is still there has a finish mark as its last entry or on its last block, not yet read |
| `LogBufferExit.FlaggedNotPicked` | src/buffer/log_buffer.cpp:532-562 | no writer locks a side buffer that a thread's exit has flagged since it was made |
| `LogBufferExit.TargetAlive` | src/buffer/log_buffer.cpp:1270-1300 | the buffer the reader remembers is the one the last payload was found in, and is never destroyed while remembered |
| `LogBufferReader.StaleVerdictExact` | src/buffer/log_buffer.cpp:868-894 | for a payload of the parent's number or a later one, the verdict `seq_invalid` comes out exactly when the two numbers lie in different wraps of the 32-bit counter, and `valid` exactly when they are equal |
| `LogBufferReader.StaleVerdictExample` | src/buffer/log_buffer.cpp:868-894 | number 2^32 - 1 takes number 2^32 to be stale |
| `LogBufferReader.SideDropExact` | src/buffer/log_buffer.cpp:1164-1222 | in a state of the invariant the search, at a side buffer of the parent's thread it visits in array order, throws that buffer's head away if and only if the head lies in another wrap than the number being read |
| `LogBufferReader.SearchDecides` | src/buffer/log_buffer.cpp:1164-1222 | at a visited buffer the search takes the head exactly when it is the payload of this very parent, and goes on exactly when it neither takes nor throws away |
| `LogBufferReader.DropLosesPayload` | src/buffer/log_buffer.cpp:1164-1222 | a side head thrown away was the payload of a parent still to be delivered, and no side buffer holds it afterwards |
| `LogBufferReader.SideDropNever` | src/buffer/log_buffer.cpp:1164-1222 | while all payloads lie in the wrap being read no side head is ever thrown away |
| `LogBufferReader.LpMissingNever` | src/buffer/log_buffer.cpp:1164-1222 | the branch that finds no payload for a parent is never taken |
| `LogBufferWriters.OsGiveUpKeeps` | src/buffer/log_buffer.cpp:503-647 | giving the number back and voiding the parent leaves no hole in the thread's sequence |
| `MisoTheorems.NextKeeps` | src/buffer/miso_ring_buffer.cpp:286-632 | each of the 25 steps, one atomic access of a producer or the reader each, keeps the invariant |
| `MisoTheorems.RunInv` | src/buffer/miso_ring_buffer.cpp:286-632 | the invariant holds in every state of every run, for any number of producers |
| `MisoTheorems.ReservationsTile` | src/buffer/miso_ring_buffer.cpp:328-392 | every cursor from the published read cursor to the write cursor belongs to exactly one reservation |
| `MisoTheorems.RollbackOfTopmost` | src/buffer/miso_ring_buffer.cpp:352-392 | a compare-and-swap that succeeds takes back the topmost reservation and no other |
| `MisoInv.AcceptFits` | src/buffer/miso_ring_buffer.cpp:343-366 | a reservation accepted against a stale read cursor, in 32-bit arithmetic, ends less than N blocks past the true one |
| `MisoHistory.RefuseExact` | src/buffer/miso_ring_buffer.cpp:338-357 | on unbounded cursors: the capacity test refuses if and only if the blocks wanted end more than N past the producer's cached cursor and, against the published one, more than N past it or before it |
| `MisoHistory.RefusedMeansNoRoom` | src/buffer/miso_ring_buffer.cpp:338-357 | in every run a request is refused at the first test only when the blocks asked for, behind the write cursor loaded, end more than N past the cursor published at that moment, or before it |
| `MisoHistory.RolledBackMeansNoRoom` | src/buffer/miso_ring_buffer.cpp:361-392 | in every run a reservation is taken back only when it ends at least N past the read cursor last reloaded for it |
| `MisoHistory.EndsOnly` | src/buffer/miso_ring_buffer.cpp:338-468 | a request ends with a refusal, with its reservation taken back or with its commit, and with nothing else: a wrap chunk makes the producer try again |
| `MisoImages.StaleRefused` | src/buffer/miso_ring_buffer.cpp:338-357 | a run in which a producer is refused although the ring is empty: the reader has published past the end of the blocks it wants |
| `MisoTheorems.WritersApart` | src/buffer/miso_ring_buffer.cpp:361-435 | blocks of two different accepted reservations never coincide in memory |
| `MisoTheorems.DeliveredInReservationOrder` | src/buffer/miso_ring_buffer.cpp:490-532 | what the reader has returned is exactly the committed chunks among the reservations it passed, in reservation order, without wrap chunks; the chunk in its hands has the bytes its producer committed |
| `MisoBytes.CommittedAsStored` | src/buffer/miso_ring_buffer.cpp:410-468 | in every run a committed chunk holds the bytes its producer's steps stored between writing the head and the commit, under the size asked for |
| `MisoTheorems.ReaderSeesTruth` | src/buffer/miso_ring_buffer.cpp:490-532 | the status byte under the reader is used or invalid exactly when the next reservation is committed or a wrap chunk, and unused exactly when it is absent or unfinished or the reader is between the two stores that skip a wrap chunk; it never meets payload bytes as a status |
| `MisoTheorems.OutsideIsUnused` | src/buffer/miso_ring_buffer.cpp:601-631 | every block outside the live window reads unused, although payloads overwrite interior status words |
| `MisoDrain.DrainsAll` | src/buffer/miso_ring_buffer.cpp:470-632 | from every state of the invariant with no reservation held, reader steps alone hand out every committed chunk, publish every block and come to rest |
| `MisoDrain.DrainsAfterRun` | src/buffer/miso_ring_buffer.cpp:286-632 | after any run that leaves no reservation held, the reader alone delivers every chunk committed in it, and then any known producer is granted any request shorter than the ring |
| `MisoDrain.WholeRingNever` | src/buffer/miso_ring_buffer.cpp:343-366 | a request for as many blocks as the ring has is never granted |
| `MisoDrain.ReadExact` | src/buffer/miso_ring_buffer.cpp:470-539 | between calls the reader is told empty, meets a wrap chunk or is handed a chunk exactly when the next reservation is absent or unpublished, is a wrap chunk, is committed |
| `MisoDrain.DiscardedIsNext` | src/buffer/miso_ring_buffer.cpp:562-577 | a chunk that was put back is what the next read gives |
| `MisoDrain.HeldBack` | src/buffer/miso_ring_buffer.cpp:579-632 | after a return the reader keeps back less than a quarter of the ring, and after an empty read nothing |
| `MisoDrain.SizeExact` | src/buffer/miso_ring_buffer.cpp:289-305 | in bytes: the block count is the least that holds head and payload, and a size is taken exactly up to the bytes of the ring and of the longest chunk |
| `MisoRecovery.TryRecover` | src/buffer/miso_ring_buffer.cpp:155-248 | the rebuild returns what the parse function gives for the image and leaves every block past the parsed run unused, or refuses and changes nothing |
| `MisoRecovery.ParseEndsExactly` | src/buffer/miso_ring_buffer.cpp:155-233 | on any image at all the parse loop, turn by turn, ends if and only if the parse is not `Stuck`, then within as many turns as there are blocks and with the answer of the parse |
| `MisoRecovery.RecoversCommittedRun` | src/buffer/miso_ring_buffer.cpp:155-248 | on the image of any state of the invariant the parse ends; it refuses exactly when it does not accept some reservation of the committed run and the reader was not between the two stores of a skip, and restores exactly the longest committed run if and only if it accepts all of them and the reader was not there |
| `MisoRecovery.SkippingLosesRun` | src/buffer/miso_ring_buffer.cpp:500-510 | a crash between the two stores of a skip: the parse ends at once and recovery clears every block, whatever was committed |
| `MisoRecovery.RestartsWithCommittedRun` | src/buffer/miso_ring_buffer.cpp:155-248 | under that exact condition the ring that comes up satisfies the protocol invariant again and will deliver exactly the committed run, in order |
| `MisoRecovery.ShortWrapParses` | src/buffer/miso_ring_buffer.cpp:203-210 | a wrap chunk of at most half the ring is accepted |
| `MisoImages.LongWrapRefused` | src/buffer/miso_ring_buffer.cpp:203-210 | a run, n = 16, whose image is refused: 12 blocks written and read, then a wrap chunk of 14 blocks from block 12 on |
| `MisoImages.EmptyChunkRefused` | src/buffer/miso_ring_buffer.cpp:186-201 | a run whose image is refused: one chunk of size 0 committed |
| `MisoImages.SkipLosesChunk` | src/buffer/miso_ring_buffer.cpp:500-510 | a run that ends between the two stores with a committed chunk unread, and whose image comes up as an empty ring |
| `SisoRuns.RefinesQueue` | src/buffer/siso_ring_buffer.cpp:105-363 | at every point of every interleaving of alloc, payload store and commit with read, return and batch read, delivered chunks are a prefix of committed ones, bytes and addresses alike, the ring holds exactly the rest, and chunks in the reader's hands are intact |
| `SisoRuns.RunInv` | src/buffer/siso_ring_buffer.cpp:105-363 | the invariant holds in every state of every run |
| `SisoRuns.EmptyMeansDrained` | src/buffer/siso_ring_buffer.cpp:210-243 | a read reports empty if and only if everything committed was delivered |
| `SisoRuns.CommitsWhatWasStored` | src/buffer/siso_ring_buffer.cpp:160-208 | over every run the chunk a commit appends has the size asked for and the bytes the steps stored since |
| `SisoRuns.RefusedMeansFull` | src/buffer/siso_ring_buffer.cpp:127-157 | over every run, in bytes: with b the least count of blocks that holds the chunk where the writer stands, an allocation is refused if and only if b exceeds the ring or the blocks not yet returned leave fewer than b |
| `SisoQueue.AllocExact` | src/buffer/siso_ring_buffer.cpp:118-157 | stale cached cursors and 32-bit wrap never change the verdict: it is the one the published cursors give |
| `SisoQueue.BlocksLeast` | src/buffer/siso_ring_buffer.cpp:127-146 | the count of blocks is the least that holds head and payload there, or the rest of the ring and the payload from byte 0 on, and a size is placeable exactly when that count fits the ring |
| `SisoQueue.AllocLeast` | src/buffer/siso_ring_buffer.cpp:118-157 | verdict, block count written to the head, and address of an allocation in bytes, from that least count |
| `SisoQueue.AllocKeeps` | src/buffer/siso_ring_buffer.cpp:118-182 | an allocation changes neither the queue nor what the reader holds; a granted one has a head that parses and free room |
| `SisoQueue.SameAddress` | src/buffer/siso_ring_buffer.cpp:105-116 | writer and reader compute the same payload address |
| `SisoQueue.ReportExact` | src/buffer/siso_ring_buffer.cpp:167-178 | the low-space test after the head was written gives what the ring before the allocation determines |
| `SisoQueue.PayloadApart` | src/buffer/siso_ring_buffer.cpp:105-182 | no payload byte falls on a head or in an unread or handed-out chunk |
| `SisoQueue.FillKeeps` | src/buffer/siso_ring_buffer.cpp:160-165 | a payload store changes that byte of the draft and nothing else |
| `SisoQueue.CommitKeeps` | src/buffer/siso_ring_buffer.cpp:184-208 | commit appends the draft to the queue |
| `SisoQueue.ReadKeeps` | src/buffer/siso_ring_buffer.cpp:210-243 | read hands out the oldest chunk, and reports empty exactly when there is none |
| `SisoQueue.ReturnKeeps` | src/buffer/siso_ring_buffer.cpp:245-265 | return removes the oldest chunk |
| `SisoQueue.NextKeeps` | src/buffer/siso_ring_buffer.cpp:313-340 | the next chunk of a batch is the oldest unread one, which moves to the held ones |
| `SisoQueue.BatchReturnKeeps` | src/buffer/siso_ring_buffer.cpp:342-363 | returning a batch gives up the held chunks and nothing else |
| `SisoQueue.EmptyRing` | src/buffer/siso_ring_buffer.cpp:35-43 | with all cursors equal the ring is empty, whatever its bytes |
| `SisoRing.SisoRingBuffer.AllocWriteChunk` | src/buffer/siso_ring_buffer.cpp:118-182 | the code on a byte array and cursor fields does what the value-level operation does, and reports low space exactly when the granted chunk takes the use of the ring over half of it, by the writer's cached and then the published cursor |
| `SisoRing.SisoRingBuffer.CommitWriteChunk` | src/buffer/siso_ring_buffer.cpp:184-208 | likewise; the queue grows by the payload |
| `SisoRing.SisoRingBuffer.ReadChunk` | src/buffer/siso_ring_buffer.cpp:210-243 | likewise; the result is the oldest chunk or empty |
| `SisoRing.SisoRingBuffer.ReturnReadChunk` | src/buffer/siso_ring_buffer.cpp:245-265 | likewise; the queue loses its oldest chunk |
| `SisoRing.SisoRingBuffer.BatchRead` | src/buffer/siso_ring_buffer.cpp:288-310 | a batch is open exactly when something is unread |
| `SisoRing.SisoRingBuffer.NextOfBatch` | src/buffer/siso_ring_buffer.cpp:313-340 | hands out the oldest unread chunk |
| `SisoRing.SisoRingBuffer.ReturnBatch` | src/buffer/siso_ring_buffer.cpp:342-363 | likewise |
| `SisoRing.SisoRingBuffer.Renew` | src/buffer/siso_ring_buffer.cpp:90-98 | empties the ring |
| `SisoRecovery.TryRecover` | src/buffer/siso_ring_buffer.cpp:404-479 | ends on every byte content; accepts if and only if the saved count is right and the saved cursors delimit a run of chunks |
| `SisoRecovery.WalkChunks` | src/buffer/siso_ring_buffer.cpp:435-468 | the validation walk accepts exactly the runs of chunks the writer could have left |
| `SisoRecovery.HeadExactly` | src/buffer/siso_ring_buffer.cpp:435-468 | the walk accepts a head exactly when its count is within what is left and is, in bytes, the least that holds a chunk of its size there |
| `SisoRecovery.CountBlocks` | src/buffer/siso_ring_buffer.cpp:410-417 | the block count is the largest power of two that fits |
| `SisoRecovery.AcceptedIsValid` | src/buffer/siso_ring_buffer.cpp:404-479 | whatever bytes are accepted, the ring that comes up satisfies the whole ring invariant |
| `SisoRecovery.ImageIsAccepted` | src/buffer/siso_ring_buffer.cpp:404-479 | the image of any valid ring is accepted and yields exactly its unread chunks |
| `Snapshot.LogSnapshot.WriteData` | src/runtime/log_snapshot.cpp:154-197 | the loop ends, the rebuild branch is unreachable, an unplaceable entry leaves the contents alone, and any other is appended after the fewest oldest entries that make room were dropped |
| `Snapshot.EmptyNeverFull` | src/buffer/siso_ring_buffer.cpp:127-157 | an empty ring never reports `err_not_enough_space` |
| `Snapshot.HalfRingPlaceable` | src/buffer/siso_ring_buffer.cpp:127-133 | a size is placeable at every position if and only if it is at most half the ring |
| `BlockList.Validate` | src/buffer/block_list.cpp:122-143 | the walk over arbitrary heads accepts exactly those from which an in-range chain of the right type runs to the empty index, with the 16-bit counter as it wraps |
| `BlockList.WalksForEver` | src/buffer/block_list.cpp:122-143 | with 65535 blocks and a chain without end the loop's condition holds and no test inside it fails after any number of blocks |
| `BlockList.LoopIsEndless` | src/buffer/block_list.cpp:122-143 | a block that is its own successor is such a chain |
| `BlockList.ListAcyclic` | src/buffer/block_list.cpp:122-143 | an accepted chain visits no block twice |
| `BlockList.ListsDisjoint` | src/buffer/group_list.cpp:26-67 | lists of different types share no block, so the duplicate-repair branch is unreachable |
| `BlockList.GroupData.Rebuild` | src/buffer/group_list.cpp:15-90 | after rebuilding from arbitrary heads, used and stage are the saved chains where those are sound and empty otherwise, and used, stage and free hold every block exactly once |
| `BlockList.GroupData.Collect` | src/buffer/group_list.cpp:31-64 | the maps hold exactly the blocks of the chain; the repair of a block on both lists is never reached |
| `BlockList.GroupData.RecoverList` | src/buffer/block_list.cpp:91-152 | a list comes back exactly when its saved geometry matches and it validates, else it is reset |
| `BlockList.Push` | include/qlog/buffer/block_list.hpp:271-300 | the chain gains the block in front |
| `BlockList.Pop` | include/qlog/buffer/block_list.hpp:245-269 | the chain loses its first block, or was empty |
| `BlockList.PushAfter` | include/qlog/buffer/block_list.hpp:302-354 | the chain gains the block behind the given one |
| `BlockList.Remove` | include/qlog/buffer/block_list.hpp:356-415 | the chain loses the given block |
| `GroupTopology.RunInv` | src/buffer/group_list.cpp:294-363 | the invariant holds in every state of every run of any number of allocating threads and the reader |
| `GroupTopology.NextKeeps` | src/buffer/group_list.cpp:294-363 | each of the 25 steps keeps it |
| `GroupTopology.BlocksInOnePlace` | src/buffer/group_list.cpp:294-363 | over every run each block of every group is on exactly one of free, stage and used, once, or in exactly one thread's hands |
| `GroupTopology.UnlinkedIsWhole` | src/buffer/log_buffer.cpp:1068-1138 | a group leaves the list only when every one of its blocks is on its free list |
| `GroupHistory.OutExactly` | src/buffer/group_list.cpp:294-363 | over every run, with the hand-outs and frees read off the steps: a block is out if and only if it is on stage, on used or in the reader's hands, if and only if it is neither free nor in the hands of a thread allocating it; and then its group is listed |
| `GroupHistory.GivenOnce` | src/buffer/group_list.cpp:294-363 | no block is given away while it is out, and one that is freed was out and is on the free list |
| `GroupHistory.UnlinkedNoneOut` | src/buffer/log_buffer.cpp:1085-1138 | a group is unlinked only when none of its blocks is out |
| `GroupSearch.DoomedExactly` | src/buffer/log_buffer.cpp:1100-1132 | the reader sets about unlinking the group it stands at if and only if none of its blocks is out |
| `GroupSearch.NewGroupOnlyWhenFull` | src/buffer/group_list.cpp:296-345 | a thread takes, makes or links a group only when it has found no free block in any group listed all along, and again none in the first under the write lock; it makes one only when the pool has none |
| `GroupSearch.ScanVisitsAll` | src/buffer/log_buffer.cpp:1068-1162 | when the reader's scan ends it has stood at every listed group, save those linked since it began |
| `GroupSearch.NoGroupLost` | src/buffer/group_list.cpp:294-400 | every group that exists is on the list, in the pool, or in one thread's hands on its way between them |
| `GroupTopology.PoolYields` | src/buffer/group_list.cpp:312-345 | taking a pooled or new group always yields a block |
| `GroupTopology.ReaderFindsGroup` | src/buffer/log_buffer.cpp:1079-1097 | the reader's search for the pointer to its group never runs off the list, and the pointer behind its previous group leads to it |
| `GroupSteps.AtListed` | include/qlog/buffer/group_list.hpp:209-257 | a thread at a group under its hand-over-hand lock is at a listed group, and never at the one being unlinked |
| `GroupTopology.CutSpare` | include/qlog/buffer/group_list.hpp:259-289 | when the reader stores the successor, nobody has a block of the group in hands |
| `Limbs.Add` | src/encryption/rsa.cpp:262-271 | sum with carry, with the result array equal to either operand |
| `Limbs.Sub` | src/encryption/rsa.cpp:273-283 | difference with borrow, with the result array equal to either operand |
| `Limbs.Compare` | src/encryption/rsa.cpp:249-260 | the sign of the comparison of the two numbers |
| `LimbBits.BitLen` | src/encryption/rsa.cpp:315-330 | the least number of bits that hold the number |
| `LimbBits.GetBit` | src/encryption/rsa.cpp:332-339 | bit i of the number |
| `RsaMod.ModAdd` | src/encryption/rsa.cpp:341-355 | (a + b) mod m for a, b < m, carry limb included, aliases allowed |
| `RsaMod.ModDouble` | src/encryption/rsa.cpp:357-370 | 2a mod m for a < m |
| `RsaMod.ModMul` | src/encryption/rsa.cpp:372-384 | a b mod m for a < m, with result and operands possibly one array |
| `RsaMod.ModPow` | src/encryption/rsa.cpp:386-398 | a^e mod m for every limb count, a < m and m > 1 |
| `RsaBytes.FromBytes` | src/encryption/rsa.cpp:285-297 | the limbs hold the big-endian number modulo 2^(32 l) |
| `RsaBytes.ToBytes` | src/encryption/rsa.cpp:299-313 | the bytes are the number modulo 256^len |
| `RsaBytes.ToMinBytes` | src/encryption/rsa.cpp:412-430 | the bytes are the number, without a leading zero |
| `RsaBytes.MinimalUnique` | src/encryption/rsa.cpp:412-430 | a number has one byte string without leading zero |
| `RsaBytes.NumHorner` | src/encryption/rsa.cpp:285-297 | one byte more at the end makes the number 256 times as large plus that byte |
| `Rsa.Encrypt` | src/encryption/rsa.cpp:724-782 | accepts exactly nonempty keys and plaintexts without leading zero below the modulus, and gives p^e mod n in as many bytes as the modulus |
| `Rsa.Decrypt` | src/encryption/rsa.cpp:784-835 | accepts exactly ciphertexts of the modulus's length below it, and gives c^d mod n in minimal bytes |
| `Rsa.DecryptUndoesEncrypt` | src/encryption/rsa.cpp:724-835 | under p^(e d) = p mod n what decryption returns is the plaintext, byte for byte |
| `Rsa.RoundTrip` | src/encryption/rsa.cpp:724-835 | encrypt accepts exactly the plaintexts below the modulus without leading zero, and decrypt(encrypt(p)) = p for each of them |
| `Rsa.WholeExponent` | src/encryption/rsa.cpp:400-403 | an exponent within the modulus's limbs is used whole, and the limbs are the fewest that hold the modulus's bytes |
| `AesTables.SboxInverse` | src/encryption/aes.cpp:264-297 | the second table undoes the first for all 256 entries |
| `AesSbox.SboxMeaning` | src/encryption/aes.cpp:264-279 | the first table is the affine map of section 5.1.1 of FIPS 197 applied to the field inverse, for every byte |
| `AesField.GfMul` | src/encryption/aes.cpp:55-67 | the shift-and-add loop is the polynomial product |
| `AesRound.MixInverse` | src/encryption/aes.cpp:190-222 | the inverse column mix undoes the mix on every column |
| `AesRound.MixIsMatrix` | src/encryption/aes.cpp:190-208 | the code's column mix is the matrix product of section 5.1.3 of FIPS 197 in the field |
| `AesRound.ShiftInverse` | src/encryption/aes.cpp:145-188 | the inverse row shift undoes the row shift |
| `AesCipher.MixColumnsIn` | src/encryption/aes.cpp:190-208 | the loop in place mixes every column |
| `AesCipher.InvMixColumnsIn` | src/encryption/aes.cpp:209-222 | likewise for the inverse |
| `AesCipher.ShiftRowsIn` | src/encryption/aes.cpp:145-165 | the byte moves in place are the row shift |
| `AesCipher.InvShiftRowsIn` | src/encryption/aes.cpp:167-188 | likewise for the inverse |
| `AesCipher.EncryptBlock` | src/encryption/aes.cpp:224-241 | the rounds in place are the cipher, and the rest of the buffer is untouched |
| `AesCipher.DecryptBlock` | src/encryption/aes.cpp:243-260 | likewise for the inverse cipher |
| `AesCipher.CipherInverse` | src/encryption/aes.cpp:224-260 | block decryption undoes block encryption for any round keys and number of rounds |
| `AesStandard.KeyWords` | src/encryption/aes.cpp:224-241 | byte i of column c of the key added in round r is byte i of word 4 r + c of the key schedule |
| `AesStandard.ShiftedBytes` | src/encryption/aes.cpp:145-165 | row i of column c after substitution and shift is the table's value for row i of column (c + i) mod 4 |
| `AesStandard.CipherIsStandard` | src/encryption/aes.cpp:224-241 | the cipher goes through the states of section 5.1 of FIPS 197: the first key, full rounds with words 4 r to 4 r + 3, and the last round without the mix |
| `AesVectors.Fips128` | src/encryption/aes.cpp:90-241 | the published ciphertext of appendix C.1 of FIPS 197, under every expansion of its key |
| `AesVectors.Fips192` | src/encryption/aes.cpp:90-241 | likewise for appendix C.2 |
| `AesVectors.Fips256` | src/encryption/aes.cpp:90-241 | likewise for appendix C.3 |
| `AesStandard.CbcByBlock` | src/encryption/aes.cpp:364-374 | block j of the ciphertext is the cipher of block j of the text combined with block j - 1 of the ciphertext, or with the IV for j = 0 |
| `AesCipher.CbcInverse` | src/encryption/aes.cpp:364-423 | CBC decryption undoes CBC encryption for every IV and every length that is a multiple of 16 |
| `AesCbc.KeyExpansion` | src/encryption/aes.cpp:90-132 | the loop gives the key schedule of section 5.2 of FIPS 197 |
| `AesCbc.Encrypt` | src/encryption/aes.cpp:327-374 | refuses exactly mismatched sizes, leaving the output alone, and otherwise writes the CBC encryption under the expanded key and nothing beyond it |
| `AesCbc.Decrypt` | src/encryption/aes.cpp:376-423 | likewise for decryption in place |
| `AesCbc.RoundTrip` | src/encryption/aes.cpp:327-423 | for keys of 128, 192 and 256 bits decryption gives the plaintext back |
| `Vernam.EncryptMasked` | src/encryption/vernam.cpp:70-215 | whenever they end, the scalar and the SSE loop equal the byte loop |
| `Vernam.EncryptAvx2` | src/encryption/vernam.cpp:221-305 | whenever its unmasked head stays within the key and its loop ends, so does the AVX2 loop |
| `Vernam.Vectors` | src/encryption/vernam.cpp:265-298 | the vector loop ends although one turn may make no progress |
| `Vernam.EndsExactly` | src/encryption/vernam.cpp:182-207 | the vector loop ends if and only if the key position it starts from is on a vector boundary of the key or fewer bytes are left than the key has from the vector start before it |
| `Vernam.CongruentEnds` | src/encryption/vernam.cpp:70-215 | a call whose address and offset agree modulo the vector width, as callers are told to ensure, ends in all three forms, and the unmasked head stays within the key |
| `Vernam.StreamInvolution` | src/encryption/vernam.cpp:70-137 | applied twice, the stream restores its input |
| `Vernam.StreamPieces` | src/encryption/vernam.cpp:70-137 | encrypting pieces at their own offsets is encrypting the whole |
| `Vernam.StreamOfZeros` | src/encryption/vernam.cpp:70-137 | a text of zeros turns into the key over and over, from wherever the key starts anew |
| `Utf.ToUtf8` | src/utility/utf_conversion.cpp:6-57 | the loops, ASCII runs included, write exactly the encoding |
| `Utf.ToUtf16` | src/utility/utf_conversion.cpp:59-101 | the loops write exactly the units the bytes give, well-formed or not, as long as no sequence is cut short by the end |
| `Utf.RawIsDecode` | src/utility/utf_conversion.cpp:59-101 | on well-formed bytes these units are the decoding |
| `Utf.DecodeEncode` | src/utility/utf_conversion.cpp:6-101 | to UTF-8 and back gives the text without its unpaired surrogates |
| `Utf.EncodeWellFormed` | src/utility/utf_conversion.cpp:6-57 | the encoding of every UTF-16 sequence is well-formed UTF-8 |
| `Utf.EncodeDecode` | src/utility/utf_conversion.cpp:6-101 | well-formed UTF-8 comes back byte for byte |
| `Utf.OrderKept` | src/utility/utf_conversion.cpp:6-101 | UTF-8 keeps the order of code points, byte by byte, and surrogate pairs keep it among themselves |
| `Utf.CleanIsPaired` | src/utility/utf_conversion.cpp:29-36 | removing unpaired surrogates leaves only pairs, and changes nothing exactly when there were none |
| `Utf.EncodeBound` | src/layout/layout.cpp:276-284 | the encoding has at most three bytes per unit |
| `Utf.ReserveExact` | src/layout/layout.cpp:276-284 | the reserve `len * 3 / 2 + 1` is enough for every text of `len` bytes if and only if `len * 3` does not wrap at 2^32 |

## Left out

- Multi-version recovery reading, the end-of-scan mark and the version arithmetic of `read_chunk_full_impl`; the log buffer model runs one version from an empty start, so one empty read is not claimed to mean that the buffer is drained.
- The order in which the reader walks blocks and groups: the run theorems let it arrive at any listed block, and the scans visit the listed blocks in any order; the split of the list into groups is left to the group list model.
- LogBufferRisk.LosesExactly: its paths may come to blocks one by one, where a scan of the code goes on to every listed block; which of those paths a given order of the block lists excludes is not worked out.
- Capacity in the log buffer model: LP space, block space and the policies for a full buffer only choose which writer step comes next, so all choices are allowed; the rings' own capacity is proved in their models.
- Local accesses folded into the next visible step: opening an HP block takes the number, pops the free block and stages it at once; storing a payload commits it and unlocks the side buffer at once.
- The C++ memory model: acquire and release pairs are sequentially consistent steps.
- MisoHistory.RefuseExact: the two result codes of a refusal, by whether twice the blocks wanted exceed the ring, are one refusal.
- The multi-producer ring's `low_space_flag`, worker wake-up, sleeping, frequency counting and other timing heuristics.
- The lock-free bodies of list push and pop (compare-and-swap with a 16-bit ABA mark) and of the reader-writer lock: the group list takes them as atomic operations.
- Checksums, memory-map files, directory scans and the creation of buffers.
- MisoRecovery.TryRecover: requires an image that does not hold the parser up; an image with an `invalid` block of length 0 keeps the original in place for ever, and the parse function calls that `Stuck` (`ParseEndsExactly`).
- Snapshot.LogSnapshot.WriteData: level and category filters are the caller's; a filtered entry only clears the continuity flag.
- Rsa.Decrypt: requires a modulus other than 1 and a result other than 0, because the original reads past its buffer when the result is 0 (`src/encryption/rsa.cpp:412-430`).
- RsaBytes.ToMinBytes: requires a number other than 0, for the same reason.
- Rsa.Encrypt: requires a nonempty plaintext, because the original reads its first byte before anything else.
- RSA key parsing (PEM, DER, SSH) and fingerprints.
- AES key and IV generation; modes other than CBC, which the code refuses.
- Vernam.EncryptMasked: the NEON form is not modelled; it is the SSE form with other instructions.
- Utf.ToUtf16: a last sequence cut short by the end of the input, for which the original reads past it, is outside its precondition, and so is a buffer without room for the result.
- BlockList.Validate: a chain without end in a group of 65535 blocks, on which the original never returns, is outside its precondition; so it is for `BlockList.GroupData.RecoverList` and `BlockList.GroupData.Rebuild`.
- Utf.ToUtf8: requires room for the result, which is what the caller reserves.
- `src/layout` beyond the reserve, `src/io`, `src/platform`, `src/global`, `src/config`, the log manager, the worker and hashing: formatting, files and wiring that no law above depends on.
