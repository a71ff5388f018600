# A verified model of the tunnel's packet rings, peer configuration and lists

The program is a multi-threaded IP tunnel written in C. This project models its five
stateful parts in Dafny and proves what they keep over all inputs and all runs.

| part | files | what is modelled |
|---|---|---|
| packet ring and its worker protocol | `RingModel`, `RingSafety`, `RingOrder`, `RingOfThree`, `RingReorder`, `RingAccounts`, `RingDelivery`, `RingLosses`, `RingAtomic`, `RingFifo`, `RingRecovery`, `RingQueue` | `ring.c` with the fill, commit and release parts of the loops of `workers.c` |
| slot memory and encapsulation | `PacketPool`, `Tunnel` | the byte pool of `init_ring_buffer`, what the workers write into it, and both ends, ring and bytes together, with the wire between them |
| byte ring | `ByteRing` | the mutex-protected ring of `ringtst.c` |
| configuration | `Config`, `PeerRecord`, `PeerLoading` | `load_config` of `state.c`, the peer record of `main.h`, the list of peers |
| lists and checksum | `IntrusiveList`, `Checksum` | `list.h`, `csum` of `util.c` |

`Bytes` holds the vocabulary they share. `dafny verify dfyconfig.toml` checks everything.

## How the packet ring is modelled

`RingModel` is a step machine. A step is a region that the program guards with a lock: the body of
`push`, one read into the claimed slot, the commit, the body of `pop`, the look at `full` with
its reset, the end of the consumer's sleep, the release. `Run` takes any interleaving of the
producer's and the consumer's steps. The state carries a history (`Log`) of the packets
accepted, sent and gone astray; nothing reads it back. `RingQueue.Queue` is the same ring as a
mutable record with arrays and loops, and each of its methods is proved to make one of these
steps. `RingAtomic` gives whole uninterrupted rounds as single updates and proves that they
are the runs in which no round is interrupted.

The queue record is malloc'ed (network.c:255, 393) and `init_ring_buffer` sets its lock, its
`full` flag and its slots, but not `in`, `out` and `sz`. So a run begins from
`Started(rsz, inPos, outPos, sz)` for any three 32-bit values, and each result says for which
of them it holds.

Assumptions: one producer and one consumer per ring; the regions named above are single
steps, so races inside them are not modelled: the plain increments of `sz`, the two-part wrap
of `in`, the write to `q->lock` in a reset, and the reads of `in` and `out` with which `push`
and `pop` compute their result after they have given up the queue lock (ring.c:110, 143). The
ring has at least three slots and fewer
than 2^31. A failed attempt at the queue lock changes nothing (`RingQueue.Queue.Push`,
`RingQueue.Queue.Pop`) and is no step of the machine. A read may leave any length and any
bytes in the slot, and is kept or followed by another, as often as it likes before the commit;
`Tunnel` takes `poll` to return only when there is something to read.
`poll`, `read`, `sendto`, `write`, name resolution, `atoi` and the memory of a new peer record
appear as parameters. A machine word is 64 bits for `unsigned long` and little-endian;
`total`, `lost` and ids do not overflow.

## What the proofs found

Each of these is a property of the code as it stands, proved with its exact condition or with
a concrete run.

- **The ring's first `in`, `out` and `sz` are whatever `malloc` returned.** No interleaving
  leaves the slots if and only if `in` starts below `rsz`; otherwise the first `push` does
  (`RingSafety.SafeStarts`, `RingSafety.FaultsOnPush`). From every start with `in` in range
  order holds as below. No waiting packet is written over by whole rounds if and only if the
  start is good: while `out` is 0 or above `rsz` the comparison of `in` with `out - 1` never
  holds and only `sz` keeps the producer from lapping the consumer
  (`RingAccounts.LosslessStarts`). A ring with `sz` 0 and `out` just after `in` is stalled
  before its first packet (`RingRecovery.StalledAtOnce`).
- **Order is lost only where `push` steps over a slot.** In every interleaved run, resets
  included, packets come out in the order they were read, unless some `push` steps over a slot
  that the consumer holds (`RingOrder.InterleavedOrder`). In every ring of more than three
  slots some run with such a push reorders, and in a ring of three none does
  (`RingReorder.OrderedSizes`).
- **A waiting packet is written over only through one of two events**, once the start is good:
  a push that steps over a held slot, or a reset between a push and its commit. Without them
  what comes out is exactly the first so many of the packets that are long enough, not in the
  last slot and not dropped by a reset (`RingDelivery.DeliveryLaw`). Each alone loses packets
  in rings of every size (`RingLosses.SteppingOverLoses`, `RingLosses.DisplacingLoses`), but
  the second only strays, packets committed where the consumer will not come
  (`RingLosses.OnlyStraysAreLost`).
- **The last slot is never delivered.** `pop` wraps at `rsz - 1` and the producer at `rsz`, so
  each lap loses one packet; `RingAccounts.Conservation` accounts for it under `parked`.
- **A full ring heals unless its consumer sleeps on `sz == 0`.** The consumer's wait at
  workers.c:212 and 434 needs `sz` to move, which a refused producer never does.
  `RingRecovery.HealsUnlessDormant` is the exact condition, and
  `RingRecovery.StallReachable` reaches the stall in a ring of any size. In every other state
  that interleaved runs reach, some interleaving takes another packet
  (`RingRecovery.GainsUnlessStalled`).
- **The byte ring admits one block too many.** With k + 1 blocks waiting the oldest has been
  overwritten and `pop` yields the newest (`ByteRing.ExactLaw`, `ByteRing.OverfullRingSkips`).
- **The order of keys in an entry matters.** `strncpy(..., 255)` into 16-byte buffers pads
  over the buffers behind them, so a peer's names all survive if and only if they come in the
  order of those buffers in memory (`PeerRecord.OrderMatters`,
  `PeerRecord.LaterNameWipesThoseBehind`).
- **The first section of a configuration is swallowed**, whatever it is called, and a section
  whose name is not recognised is read like the one before it (`Config.LoadConfig`,
  `PeerLoading.LoadedPeers`, `PeerLoading.UnknownNameContinues`).
- **Abbreviated keys count.** Most keys and values are compared with as many characters as were
  written, so `t` is a type, and a key `n` starts another peer under the last name
  (`PeerRecord.KeyMatches`, `PeerLoading.WhenAPeerStarts`).
- **The check word that goes out covers the payload, not the header**: ten words from 14 bytes
  into it, and whatever lies behind it where it is shorter (`PacketPool.SentBytes`).
- **`csum` is RFC 1071's sum for up to 65538 words and not beyond**
  (`Checksum.CsumIsRfc1071`, `Checksum.CsumFailsAt65539`).

## Model

| member | source | states |
|---|---|---|
| RingSafety.MutualExclusion | ring.c:83-144 | in every interleaved run, resets included, from every start with `in` in range: no index leaves the slots, no search spins for ever, no slot is held by both threads, a lock is 1 exactly while its slot is held, the consumer never holds the last slot, and `out` and `sz` stay in range once there |
| RingSafety.SafeStarts | ring.c:92 | no interleaved run leaves the slots if and only if `in` starts below `rsz`, whatever `out` and `sz` are |
| RingSafety.FaultsOnPush | ring.c:92-97 | with `in` at or above `rsz` a run leaves the slots if and only if the producer pushes in it |
| RingSafety.NoForgeryNoDuplicate | workers.c:63-87 | in every interleaved run from every start with `in` in range each packet passed on was committed and is what one kept read put into a slot, and none is passed on twice |
| RingSafety.StepSafe | ring.c:63-144 | no step of either thread faults, and each keeps the guarding of slots and the one place of each packet |
| RingSafety.RunSafeFrom | workers.c:172-213 | so does every run from a safe state |
| RingSafety.PushSearchBounded | ring.c:92-97 | the search of `push` ends inside the array at an unlocked slot and skips at most one slot, the consumer's |
| RingSafety.PopSearchBounded | ring.c:132-138 | the search of `pop` ends, skips at most slot 0 held by the producer, and never yields the last slot |
| RingSafety.RunTraced | workers.c:63-81 | the accepted packets come from the producer's kept reads in order, apart from lengths a reset has cleared |
| RingOrder.InterleavedOrder | workers.c:177-203 | in every interleaved run in which no push steps over a held slot, resets included, from every start with `in` in range, packets are passed on in the order accepted and in the order read |
| RingOrder.StepOrderly | ring.c:63-144 | each such step keeps waiting packets ordered by their distance from `out`, the held packet before them and the sent ones before that, strays of a reset or a lap apart; before the first packet is taken from an `out` outside the ring they are ordered by the producer's lap |
| RingOrder.RoundsInOrder | workers.c:177-203 | in every run of whole rounds from every start with `in` in range what is sent is a subsequence of what was accepted, and that of what was offered |
| RingOrder.RoundsUndisturbed | ring.c:92-97 | whole rounds never step over a held slot, so every run of them is covered |
| RingOfThree.ThreeInOrder | ring.c:92-97 | a ring of three slots keeps the order in every interleaved run from every such start, without that condition |
| RingReorder.SteppingOverReorders | ring.c:92-97 | in every ring of more than three slots some run passes packets on out of order |
| RingReorder.OrderedSizes | ring.c:92-97 | every interleaved run of a ring that starts empty keeps the order if and only if it has three slots |
| RingAccounts.Conservation | ring.c:122-143 | in every interleaved run, disturbed or not, from every start with `in` in range, each accepted packet above 14 bytes is in exactly one place: sent, in a slot the consumer visits, put into the last slot, dropped by a reset, or written over |
| RingAccounts.NothingLost | ring.c:98-107 | from a good start none is written over, in every interleaving without a stepped-over slot and without a reset between a push and its commit |
| RingAccounts.LosslessStarts | ring.c:100 | whole rounds write over no waiting packet if and only if the start is good; from every other start some run does |
| RingAccounts.RoundsConserve | ring.c:122-143 | so whole rounds from a good start leave each such packet in exactly one of the other four places |
| RingAccounts.NoOverwrite | ring.c:98-107 | an accepted push never claims a slot whose packet waits, in any state such runs reach |
| RingDelivery.DeliveryLaw | workers.c:177-203 | in every such interleaving from a good start, what was passed on is exactly the first so many of the accepted packets that are above 14 bytes, not in the last slot and not dropped by a reset, in order |
| RingLosses.OnlyStraysAreLost | ring.c:98-107 | from a good start without a stepped-over slot, resets at any time: a packet that once lies where the consumer will come to it is never written over |
| RingLosses.DisplacingLoses | ring.c:122-131 | in a ring of every size some run without a stepped-over slot writes over a waiting packet, after a reset between a push and its commit |
| RingLosses.SteppingOverLoses | ring.c:92-97 | in a ring of every size some run without such a reset does, after a push that steps over a held slot |
| RingAccounts.StepTidy | ring.c:63-144 | what keeps it so: waiting packets lie between `out` and `in`, and while the guard is out of action `in` is at most `sz`, or one more |
| RingAccounts.CommitAccountable | workers.c:82-86 | a commit adds its packet to those in the last slot if that is where it went, else to the waiting ones if it is long enough, and moves no other |
| RingAccounts.ReleaseAccountable | workers.c:183-203 | a release moves the packet it passes on from waiting to sent, and no other |
| RingAtomic.RoundIsActions | workers.c:172-213 | a producer or consumer round as one update is what its steps do when nothing comes between |
| RingAtomic.RoundsAreActions | workers.c:172-213 | a run of rounds is the interleaved run in which no round is interrupted |
| RingFifo.RefinesBoundedFifo | ring.c:83-144 | from every state in step, until the producer comes past the last slot or a reset begins a new lap, every run of rounds is exactly a bounded queue of rsz - 1 packets |
| RingFifo.RoundRefinesFifo | ring.c:98-107 | each round on the first lap is the queue's: accepted exactly when there is room, the head passed on exactly when long enough |
| RingFifo.StartRefinesFifo | workers.c:83-86 | so it is from every start with `out` at most `in` and `sz` their difference, the queue first holding that many blanks |
| RingFifo.ResetRefinesFifo | ring.c:63-72 | and after every reset, the queue then being empty |
| RingFifo.FirstLapShape | workers.c:83-86 | `sz` is `in` less `out` throughout the first lap if and only if it is so at the start |
| RingRecovery.HealsUnlessDormant | ring.c:122-131 | from every refused state that rounds reach from any start with `in` in range, a packet is accepted again within sz + 1 consumer rounds (within rsz, unless `sz` started above) if and only if the consumer is not asleep with `sz` 0; otherwise never |
| RingRecovery.HealingRounds | ring.c:100-131 | with `full` set and the consumer awake at most sz + 1 consumer rounds are needed |
| RingRecovery.GainsUnlessStalled | workers.c:205-212 | from every safe state some interleaving accepts another packet if and only if the ring is not stalled |
| RingRecovery.StalledAtOnce | workers.c:205-212 | a ring is stalled by the consumer's first look if and only if `sz` starts as 0 and `out` just after `in` |
| RingRecovery.StallIsPermanent | workers.c:212 | from a stalled state no interleaving of steps changes anything but `full` |
| RingRecovery.StallReachable | workers.c:205-212 | in a ring of any size that starts empty, sending rsz packets one at a time and polling once more ends in that stall |
| RingRecovery.RecheckEmpties | ring.c:63-72 | a look that finds `full` set leaves both positions, the counter, the flag and every length 0, counts exactly the waiting packets as dropped, and touches no lock, no bytes and no held slot |
| RingRecovery.NoResetUnlessTurnedAway | ring.c:125-127 | in every run from a state with `full` clear in which the producer is never turned away, `full` stays clear, no packet is dropped and no new lap begins: after a reset the next one needs another refused push |
| RingRecovery.TurnedAwaySetsFull | ring.c:100-101 | every push that is turned away sets `full`, and nothing clears it but a reset |
| RingQueue.AtomicLock | util.c:260-262 | the lock word becomes 1 if it was 0, and what it was is returned |
| RingQueue.AtomicUnlock | util.c:264-266 | the lock word becomes 0 if it was 1, and what it was is returned |
| RingQueue.Queue.constructor | ring.c:12-54 | init_ring_buffer on a record with any `in`, `out` and `sz` clears the lock, `full` and the slots and leaves the three as they are |
| RingQueue.Queue.ResetRing | ring.c:63-72 | the loop in place makes the machine's reset: positions, counter, `full` and every length are cleared and the queue lock is freed |
| RingQueue.Queue.LockNext | ring.c:92-97 | the search loop in place locks the slot the search function names |
| RingQueue.Queue.Push | ring.c:83-111 | LOCKFAIL without a change when the lock is taken; else the machine's push, returning the slot it claims or null with `full` set |
| RingQueue.Queue.Fill | workers.c:65-68 | one read's length and bytes go to the claimed slot only |
| RingQueue.Queue.Commit | workers.c:82-86 | unlocking, counting and moving `in` make the machine's commit |
| RingQueue.Queue.LockOldest | ring.c:134-138 | the cyclic search loop in place locks the slot the search function names |
| RingQueue.Queue.Pop | ring.c:113-144 | LOCKFAIL without a change when the lock is taken; else the machine's pop, returning the slot it claims or null |
| RingQueue.Queue.CheckFull | ring.c:125-130 | the end of an empty pop: reset exactly when `full` |
| RingQueue.Queue.Release | workers.c:183-203 | a packet above 14 bytes is passed on, the slot emptied, counted down and unlocked |
| RingQueue.Queue.ProducerRound | workers.c:49-87 | one uninterrupted producer turn is one update of the abstract ring, accepted exactly when not refused |
| RingQueue.Queue.ConsumerRound | workers.c:172-213 | one uninterrupted consumer turn is one update of the abstract ring, and passes on what that update sends |
| RingQueue.Queue.AwakeRound | workers.c:177-205 | the same from `pop` on |
| PacketPool.InitRingBuffer | ring.c:12-54 | for every size and every block size from 34 up: size / (chunks + 4) slots, each with the headers in front, zeros, and its footer, all passing validation |
| PacketPool.SlotsApart | ring.c:33-37 | slots lie one behind the other without overlap |
| PacketPool.SlotCount | ring.c:21-22 | the slots fit the given size and one more would not |
| PacketPool.Pool.constructor | ring.c:25-28 | a pool of one block more than slots, all zeros |
| PacketPool.Pool.PrepareSlot | ring.c:30-45 | one turn of the loop lays a prepared block over its slot and nothing else |
| PacketPool.Pool.PrepareAll | ring.c:30-45 | the loop prepares every slot |
| PacketPool.Pool.ValidRng | ring.c:56-62 | 1 exactly if the header word and the footer are intact |
| PacketPool.Pool.ValidateAll | ring.c:49-53 | true exactly if all slots are intact |
| PacketPool.Pool.FillForSending | workers.c:68-75 | payload, length and checksum written in place, in that order, leave the slot that `PacketPool.SentBytes` describes byte by byte |
| PacketPool.SentBytes | workers.c:68-75 | after such a fill the word at bytes 16 and 17, low byte first, is the payload length plus 20; the word at 24 and 25 is 0xffff less the RFC 1071 sum of the ten words that begin 14 bytes into the payload; the payload lies at 34; every other byte of the slot is as it was |
| PacketPool.Pool.FillFromWire | workers.c:287-289 | a frame read in place is laid over the slot's front |
| PacketPool.PreparedIntact | ring.c:30-53 | prepared slots have intact footers and show the header template |
| PacketPool.EncapsulationFits | workers.c:75 | the checksum's read past the slot stays within the pool's spare block |
| PacketPool.EncapsulationParts | workers.c:74-75 | an encapsulated frame is the header around its total length and check fields, those two, and the payload |
| PacketPool.FillStaysInside | workers.c:68-75 | a fill changes its own slot only, and no footer |
| PacketPool.FootersSurvive | workers.c:287 | all footers are intact after every run of fills of either kind |
| PacketPool.TemplateSurvives | workers.c:74-75 | in a sender's ring the rest of the header template survives every run of fills |
| PacketPool.Sending | workers.c:183-185 | what goes out for a payload: the sender's source address, the payload behind 34 bytes, nothing for 14 bytes or less |
| PacketPool.Receiving | workers.c:287-306 | what is read is accepted if and only if it is not empty and bytes 26 to 29 of the slot, stale where the frame is shorter, are the peer's address; what is written of a frame of more than 48 bytes is all but its first 34, of a shorter one nothing |
| PacketPool.RoundTrip | workers.c:404-407 | for every payload that fits, whatever the slots held: exactly payloads above 14 bytes are sent, the receiver accepts the frame exactly if its peer is the sender's source, and then writes exactly the payload |
| Tunnel.SlotCarries | workers.c:68-75 | a slot filled by tx_io carries its payload behind the sender's headers |
| Tunnel.SlotReadFrom | workers.c:287-306 | a slot filled by rx_io holds the frame, its length less the headers |
| Tunnel.OneCrossing | workers.c:183-185 | a packet carried across the wire into the other ring is delivered as its payload |
| Tunnel.SentIsTaken | workers.c:183-185 | at either end, over every run of steps and reads, what the ring has recorded as sent is byte for byte what the consumer finds in the slots of the pool |
| Tunnel.ReadIsFill | workers.c:282-306 | one read into the claimed slot: tx_io always keeps it under its length, rx_io keeps it under its length less 34 if and only if it is not empty and the slot shows the peer; a failed read leaves -1 and is made again |
| Tunnel.TakenLeaves | workers.c:183-203 | a release takes a packet exactly when tx sends, or rx writes, something of that slot with that length, and that is what leaves |
| Tunnel.AllTakenLeaves | workers.c:404-424 | so over every run, what leaves an end is what its consumer found in the slots, in order |
| Tunnel.FillsDescribeReads | workers.c:282-306 | over every run, every packet that a kept read filled in carries that payload behind the sender's headers, or is that frame with its length less 34, and if the frame reaches that far it is the peer's |
| Tunnel.PeerFramesRemain | workers.c:293-306 | frames kept for their source address are among those of the stream that show it |
| Tunnel.EndToEnd | workers.c:404-407 | for all interleavings and reads on both ends without a stepped-over slot, whatever the rings' sizes, starts and stale bytes: if the frames read with the peer's address are frames that left the sender, some missing, then the payloads that leave the receiver are payloads that were read, unaltered, in order, some missing |
| Tunnel.OnePayloadCrosses | workers.c:404-407 | and they do get through: with empty rings of any sizes and any stale bytes, every payload of more than 14 bytes that fits leaves as one frame, and that frame leaves the far end as exactly that payload; a shorter one does not leave |
| Tunnel.PreparedTemplated | ring.c:30-45 | the slots init_ring_buffer prepares meet what that asks of the sender's |
| ByteRing.ExactLaw | ringtst.c:47-85 | for every block size and length and every run, the j-th block handed out is the j-th taken in, unless k + 1 were waiting; then it is the one taken in k later |
| ByteRing.FifoExactlyWhenNotOverfull | ringtst.c:53-56 | with distinct blocks the run is first-in first-out if and only if no block was handed out with more than k waiting |
| ByteRing.GuardMeaning | ringtst.c:53-56 | the guard admits a block exactly while at most k are waiting |
| ByteRing.OverfullRingSkips | ringtst.c:47-85 | in every ring longer than a block, filling it up and popping once yields the last block put in |
| ByteRing.Accounting | ringtst.c:62-65 | after every run `total` counts what came in, `sz` what of it is left, `lost` the refusals, and rewound `in` less rewound `out` is `sz` modulo the k positions |
| ByteRing.LostCountsRefusals | ringtst.c:53-56 | `lost` grows by exactly the refused enqueues |
| ByteRing.ManyThreads | ringtst.c:95-128 | for any number of threads in any order of getting the mutex, blocks handed out are blocks some producer puts in, and the books balance |
| ByteRing.FirstTurn | ringtst.c:95-98 | the first turn of any producer, in any ring with a length above 0, puts its own block in and raises `total` and `sz` by one block |
| ByteRing.PositionsRoundUp | ringtst.c:50-52 | k is (rsz - bsz) / bsz rounded up |
| ByteRing.Queue.constructor | ringtst.c:39-45 | the new ring is the abstract initial state |
| ByteRing.Queue.Enqueue | ringtst.c:47-68 | the operation in place is the abstract one, and returns 1 exactly for a refusal |
| ByteRing.Queue.CopyIn | ringtst.c:60 | the copy in place writes one block and nothing else |
| ByteRing.Queue.Pop | ringtst.c:71-85 | the operation in place is the abstract one, null exactly when less than a block is left, else pointing at the block handed out |
| PeerRecord.KeyNamesAreRecognised | state.c:159-238 | every key written in full, as the program spells it, selects its own field and no other |
| PeerRecord.KeysSelectTheirFields | state.c:159-238 | the thirteen keys, spelt out, and the field each selects |
| PeerRecord.KeyMatches | state.c:159-238 | for every key: four fields are matched by their word alone, the others by it and by any of its abbreviations, the empty key included |
| PeerRecord.FirstMatchSelected | state.c:159-238 | of the fields a key matches, the one compared first is selected; without a match nothing is stored |
| PeerRecord.TypeSets | state.c:159-174 | for every value: "ingress", "egress" and "map", or an abbreviation, in that order, give IN, OUT and MAP; any other leaves the record as it was |
| PeerRecord.IpVersionSets | state.c:175-187 | "4" gives 4, "6" gives 6, any other value makes the program exit |
| PeerRecord.NamesSet | state.c:197-215 | for a name of any length, 255 characters from the start of its buffer change, the value and then NULs, and no others; a map interface also sets MAP, a peer address its resolution |
| PeerRecord.OthersSet | state.c:189-238 | each other key changes its own field only, to the value cut at 255 characters, 16000 for the secret |
| PeerRecord.DiesExactlyWhen | state.c:175-223 | the settings of an entry make the program exit if and only if an address does not resolve or an IP version is neither 4 nor 6 |
| PeerRecord.UnspoiledReadsBack | state.c:159-238 | in every entry, a setting that fits its buffer and that no later one spoils can be read back from the record: its text, its number, its resolved address, its direction |
| PeerRecord.TextIsLastSpoilers | state.c:197-215 | in any order of settings a text buffer reads as the last setting that spoils it: its value if that is the same key, nothing if it is another |
| PeerRecord.OrderMatters | main.h:36-39 | names given once each, in any order among other settings, all read back if and only if they come in the order of their buffers in memory |
| PeerRecord.LaterNameWipesThoseBehind | main.h:36-39 | of two names the later always reads back, and the earlier does if and only if it comes first in the order interface, tunnel, map interface, peer address; otherwise it reads as empty |
| PeerRecord.MapUntilType | state.c:201-204 | once an entry has given a map interface the direction is MAP until a later type |
| Config.Scanner.constructor | state.c:26-34 | the scanner starts in front of the whole stream |
| Config.Scanner.Scan | state.c:37 | each scan takes the next token off the stream |
| Config.SkipMapping | state.c:39-119 | the first branch's loop runs to the first block end and keeps nothing but a key |
| Config.StoreMapping | state.c:137-271 | the loop over one entry feeds its pairs in order and stops with the token behind it |
| Config.LoadEntries | state.c:136-276 | the loop over entries feeds them all and consumes the sequence |
| Config.LoadSection | state.c:121-284 | from a section's tokens to its result: the kind is set by the key, which `PeerLoading.AnnouncedByName` spells out, its entries are fed under it in order, and the stream ends up behind it |
| Config.LoadConfig | state.c:36-292 | on the tokens of any well-formed configuration it terminates, having consumed the stream unless it exits, with the result of feeding every section but the first; what that is, `PeerLoading.LoadedPeers` says |
| PeerLoading.FeedPeerEntry | state.c:151-258 | an entry that starts with `name` finishes the peer before it and builds its own under the next id |
| PeerLoading.LoadedPeers | state.c:121-292 | with any sections behind the first, the peers are the entries of those whose name begins with "symmetric-peers" and of unrecognised ones that follow such a section, numbered from 1 in file order; or it exits as soon as one cannot be built |
| PeerLoading.AnnouncedByName | state.c:131-134 | a name that begins with "symmetric-peers" announces symmetric peers, one that begins with "assymetric-peers" asymmetric ones, any other what the section before it did |
| PeerLoading.AsymmetricAddsNothing | state.c:131-151 | an asymmetric section in front of any others adds no peer and uses up no id |
| PeerLoading.AsymmetricBetween | state.c:131-151 | between two symmetric sections it adds nothing, and both are loaded as if they were one |
| PeerLoading.UnknownNameContinues | state.c:131-134 | a section with any other name behind a symmetric one is loaded as part of it |
| PeerLoading.NothingAnnounced | state.c:131-134 | in front of all others it adds nothing |
| PeerLoading.WhenAPeerStarts | state.c:147-258 | for any key and value among symmetric peers: a new peer starts if and only if there is none, or the key is "name" or an abbreviation, or the current name does not begin with the last peer's; its record has the current name and the next id, and the one before goes to the list; otherwise the value is stored in the field its key selects |
| PeerLoading.EntrySaysItsSettings | state.c:151-238 | an entry written for a name and settings is read back as that name and those settings |
| PeerLoading.ConfigRoundTrip | state.c:121-292 | a configuration written for n peers is loaded as exactly n peers with ids 1 to n, their names and every setting that fits and is not spoiled, directions included; it exits if and only if some setting cannot be resolved |
| PeerLoading.AddToPeerList | util.c:19-23 | adding peers one after the other leaves a well-formed list of them in reverse |
| PeerLoading.LoadAndVisit | network.c:165 | after loading a written configuration the backward traversal visits the peers in file order with ids 1 to n, and the forward traversal in reverse |
| IntrusiveList.ListIsDetermined | list.h:29-45 | the pointers alone determine a list's contents and order |
| IntrusiveList.InitListHead | list.h:29-31 | the head becomes an empty list |
| IntrusiveList.Insert | list.h:39-45 | a link goes in between two neighbours of a circle |
| IntrusiveList.ListAdd | list.h:55-58 | a new link is prepended |
| IntrusiveList.ListAddTail | list.h:68-71 | a new link is appended |
| IntrusiveList.Unlink | list.h:80-84 | a link's neighbours are joined and the rest stays a circle |
| IntrusiveList.ListDel | list.h:91-96 | the link leaves the list with its pointers cleared |
| IntrusiveList.ListDelInit | list.h:102-106 | the link leaves the list and becomes an empty one |
| IntrusiveList.ListMove | list.h:113-117 | the link leaves one list and is prepended to another |
| IntrusiveList.ListMoveWithin | list.h:113-117 | the link moves to the front of its own list, also from next to the head |
| IntrusiveList.ListMoveTail | list.h:124-128 | the link leaves one list and is appended to another |
| IntrusiveList.ListMoveTailWithin | list.h:124-128 | the link moves to the end of its own list, also when it is there already |
| IntrusiveList.ListEmpty | list.h:134-137 | true exactly for a list without links |
| IntrusiveList.Splice | list.h:139-150 | a nonempty list's links all go in front of another's, and its own head keeps its stale pointers |
| IntrusiveList.ListSplice | list.h:157-161 | the same, and an empty list adds nothing |
| IntrusiveList.ListSpliceInit | list.h:170-176 | the same, and the list emptied is a list again |
| IntrusiveList.ForEach | list.h:192-194 | the traversal ends and visits each entry once in list order |
| IntrusiveList.ForEachPrev | list.h:201-203 | the backward traversal ends and visits each entry once in reverse order |
| Checksum.ComputeCsum | util.c:145-154 | the loop over any number of words an `int` counts fits the accumulator and yields the two-fold checksum |
| Checksum.CsumIsRfc1071 | util.c:152-154 | for every such buffer the result is RFC 1071's if and only if the second fold does not carry |
| Checksum.CsumIsRfc1071UpTo65538 | util.c:145-154 | every buffer of up to 65538 words meets that |
| Checksum.CsumFailsAt65539 | util.c:152-154 | that bound is tight |
| Checksum.StoredChecksumVerifies | util.c:145-154 | storing the checksum in its zero word makes the checksum of the whole 0 (RFC 791, section 3.1) |
| Checksum.OnlyStoredChecksumVerifies | util.c:145-154 | no other word does, except 0xffff in place of 0 |
| Checksum.OrderDoesNotMatter | util.c:150-151 | permuting the words does not change the result (RFC 1071, section 2) |
| Checksum.ByteOrderIndependence | util.c:150-154 | swapping the bytes of every word swaps those of the result (RFC 1071, section 2) |

## Left out

- RingReorder.SteppingOverReorders: stepping over a held slot can reorder and need not; which of such runs reorder is not characterised.
- RingAccounts.NothingLost: both exclusions are needed, but which runs with either event write over a waiting packet is not characterised; what they write over is counted (`RingAccounts.Conservation`).
- RingFifo.RefinesBoundedFifo: whole rounds only; an interrupted release leaves `sz` above the number of waiting packets.
- RingRecovery.HealsUnlessDormant: the bound counts consumer rounds made while the producer keeps being refused; for interleaved steps `RingRecovery.GainsUnlessStalled` gives no bound.
- Tunnel.EndToEnd: that no other host sends frames with the peer's address is a hypothesis on the wire; frames longer than a read's limit are taken as cut to it.
- PacketPool.Sending: says which bytes go out, not that the IPv4 header verifies; the program checksums payload bytes and stores the length in host order (workers.c:74-75).
- PacketPool.InitRingBuffer: block sizes below 34, where the headers do not fit the slot, and a failing `calloc`.
- PeerRecord.TextIsLastSpoilers: values of 255 characters and more, after which `strncpy` leaves the buffer without a terminator.
- PeerLoading.ConfigRoundTrip: names of 255 characters and more, which `strncpy` copies without a terminator into a buffer whose last byte nothing sets; the model takes the buffer to read as the 255 characters. So it does for such keys and names in Config.LoadConfig and PeerLoading.LoadedPeers.
- Config.LoadConfig: token streams that are not those of a mapping from names to sequences of flat mappings; on these the inner loop can stop consuming tokens.
- Checksum.ByteOrderIndependence: within the bound of 65538 words, like the two lemmas about stored checksums.
- Several producers or consumers on one packet ring, and the choice of ring by the I/O loops (workers.c:49, workers.c:269).
- Races inside one step of the packet ring, memory ordering, and the queue lock being freed by a reset during a push.
- Sockets, TUN and TAP devices, ARP and DNS of network.c: their results are parameters.
- Load balancing, mapping threads, statistics, signals, argument parsing, CPU pinning, start-up of the cipher library.
- `xstate.c`, and the fragmentation and packet types that specification.md describes and no code implements.
