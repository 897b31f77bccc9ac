# Verified models of TADR's display and synchronization code

TADR is a DLL that sits beside the Total Annihilation engine.  This project models those of its
parts that carry real algorithms, and proves what they are for.

## The allied build-queue protocol

Allies show each other's build queues.  Each client scans its own orders into a *snapshot* (a
sorted, duplicate-free list of at most 1200 records) and replicates it to every subscribed ally
over an unreliable channel, as *transactions* cut into chunks of five records: a *full* one, or
a *delta* on the last acknowledged snapshot.

| file | content |
|---|---|
| `Words`, `Records`, `WireFormat` | 32-bit arithmetic and serial order; records and canonical snapshots; the packet |
| `Diff`, `Transmitter`, `Receiver` | differences and their application; the two classes of the protocol header, each method proved against a transition function |
| `Chunking`, `Link` | reassembly from chunks; one direction of replication as a step system whose network keeps every packet ever sent, with safety over every run |
| `Convergence`, `Leftovers` | what reliable exchanges achieve, from every reachable idle state; why leftovers in the network do no harm |
| `Collect`, `Budget`, `Driver` | the scan's hash table, the token bucket, and the driver's packet, prepare and send loops |
| `Agenda`, `Duties` | what is due to a peer, as a list and over time: reports, rounds, leases, displays |
| `GameTick`, `ClientLaws` | a client's whole state, its ticks and packets, and the bound on what it sends; whom it serves and hears, and when it scans |
| `Refinement`, `TickRuns`, `ClientRuns` | two drivers, and why each run of theirs is a run of two links; why ticks and packets are such runs; two whole clients |
| `Standstill` | how two drivers get into the deadlock, and that they stay there |

**A deadlock in the protocol.**  Convergence fails in one family of states, and `Convergence`
proves that this is the whole family: both sides hold a nonzero sequence, not the same one, the
receiver does not ask for a full snapshot, and the current snapshot is the one the transmitter
believes acknowledged.  Then neither side has anything to say.  Two drivers get there by
themselves: a report that unsubscribes clears the transaction in flight (line 179 of
AlliedBuildQueueSync.cpp) before the acknowledgement in that same report is read (line 186), so
a snapshot that did arrive counts as lost; when the queue then changes back, nothing is sent.
`Standstill` gives such a run for every pair of snapshots, and proves of the very state in which
it ends, with all the packets of that run still in the network, that no further run ends the
deadlock as long as that queue stays as it is and neither side drops the other's slot or its
display.  One packet has to be left out: a report from before anything was shown, which carries
sequence zero, makes the transmitter forget its base whenever it arrives.

## The other parts

| file | content |
|---|---|
| `Md5` | `Md5Spec` writes RFC 1321 down; `Md5Streaming` is the class, whose digest is the standard's for every split into `Update` calls |
| `OccupantIndex`, `ExplosionDedup` | the stamped index of airborne units equals a rebuild from scratch, and what a lookup finds in it; dedup under nested explosions |
| `ErrorDiffusion`, `Gather`, `MinimapRender` | serpentine error diffusion: bounds, an exact balance, and the same drawing without accumulators; the resampler around it |
| `ChatWrap` | wrapping a message into lines |
| `ChatPosition`, `ChatHistory`, `ChatColumns` | where the chat is anchored, its retained history as a log, and the columns drawn from it |
| `Whiteboard` | the spatial hash of drawn elements against the plain set of them |
| `EnginePatches` | the all-or-nothing patch transaction and the slot allocator |
| `Machine` | decoding and execution of the fragment of IA-32 that the code patches use |
| `CobDispatch`, `GridClaim`, `Trampoline` | three patch builders: the bytes they emit, executed, do what is intended, compared with the original bytes where the sources hold these |

Where a class updates its fields in place, so does the class here; its methods are proved
against functions on values, and the theorems are about those functions.

**Code against comments.**  A comment in ChatLayout.cpp (lines 178-181) says that a burst of 30
or more lines in one frame at worst repeats a line.  The code instead keeps the newest n mod 30
of n lines and drops the others; `ChatHistory.SpanOfWritten` states this.

## Model

| member | source | states |
|---|---|---|
| Link.ReplicationSafety | src/DDraw/AlliedBuildQueueProtocol.h:94-225 | over every run of scans, sends, lost, duplicated and reordered deliveries, cancels and resets of either side: what the receiver shows is exactly the snapshot prepared under its sequence, and the transmitter's base is the snapshot of its acknowledged sequence |
| Link.DeltaMeetsItsBase | src/DDraw/AlliedBuildQueueProtocol.h:187-222 | in every reachable state, a delta that gets installed is applied to the very snapshot it was computed from |
| Link.OnlyALostBaseNeedsFull | src/DDraw/AlliedBuildQueueProtocol.h:188-220 | the size limit never rejects what a transmitter sends: only a delta on another base raises "need full" |
| Link.DeliveryOutcome | src/DDraw/AlliedBuildQueueProtocol.h:174-224 | a chunk of any transaction ever prepared either commits its target on its base, is stored, or changes nothing but "need full" |
| Link.PerformKeepsInv | src/DDraw/AlliedBuildQueueProtocol.h:94-225 | every step of either side and of the network keeps the replication invariant |
| Link.OnlyTheseEndIt | src/DDraw/AlliedBuildQueueProtocol.h:103-117 | a transaction in flight ends with its acknowledgement, a report that wants no more, the lease or the transmitter, and, if it is a delta, with a report of a lost base, and goes on unchanged after every other step |
| Link.OnlyTheseMoveTheBase | src/DDraw/AlliedBuildQueueProtocol.h:103-117 | the base moves to what is in flight with its acknowledgement, is forgotten when a report of a lost base meets no full transaction in flight, and stays in every other case |
| Link.FullStaysInFlight | src/DDraw/AlliedBuildQueueProtocol.h:111-116 | a full transaction survives any mixture of sends, deliveries, scans and reports that ask for data, however many of them tell of a lost base |
| Link.ControlIsReport | src/DDraw/AlliedBuildQueueSync.cpp:171-174 | the checks on reports admit exactly what receivers send, whatever the unused records hold |
| Convergence.TwoRoundsConverge | src/DDraw/AlliedBuildQueueProtocol.h:103-144 | from every reachable idle state, two reliable exchanges (any delivery order, any repetition, any old reports that ask for data heard between the chunks) end with both sides holding the current snapshot, if and only if the state is not the deadlock; a deadlocked state is unchanged by them |
| Convergence.TakenRound | src/DDraw/AlliedBuildQueueProtocol.h:103-224 | one exchange suffices when the receiver can take the chosen transaction, whatever old reports are heard on the way; only if it is a delta and one of them tells of a lost base, the snapshot is shown but not yet known to be, and the next transaction is full |
| Convergence.RefusedRound | src/DDraw/AlliedBuildQueueProtocol.h:188-189 | a refused delta leaves the receiver unchanged but for "need full", and one report makes the transmitter forget its base |
| Convergence.DeadlockPersists | src/DDraw/AlliedBuildQueueProtocol.h:111-120 | however many exchanges follow with the same snapshot, a deadlock stays |
| Convergence.CancellingReportDeadlocks | src/DDraw/AlliedBuildQueueSync.cpp:173-186 | from any synchronized state an exchange whose acknowledging report also unsubscribes ends in the deadlock once the queue changes back, because the transaction is cancelled before its acknowledgement is read |
| Convergence.DeadlockIsReachable | src/DDraw/AlliedBuildQueueSync.cpp:179-186 | for any two different snapshots some run of the link ends idle, showing one while the other is current, with nothing left to send |
| Standstill.DriversStayStuck | src/DDraw/AlliedBuildQueueSync.cpp:153-276 | for any two different snapshots some run of two drivers, each sending only what is due, ends with both idle and subscribed, one showing the second while the other believes that it holds the first; and however the drivers go on with all the packets still in the network, as long as that queue is the first snapshot, no slot or display is dropped and no report from before anything was shown arrives late, the first is never shown |
| Standstill.GetsStuck | src/DDraw/AlliedBuildQueueSync.cpp:153-276 | the run that leads there: the queue is the first snapshot, then the second, and the last report before the receiver stops asking cancels what it acknowledges |
| Standstill.Transfers | src/DDraw/AlliedBuildQueueSync.cpp:236-274 | a scan, all chunks and their arrival bring the other driver to show the snapshot and owe an acknowledgement |
| Leftovers.UndisturbedReassembly | src/DDraw/AlliedBuildQueueProtocol.h:187-212 | after any run with growing sequences below 2^31, the transaction in flight, once begun at a receiver that can take it, commits exactly when its last missing chunk arrives, whatever old packets are delivered in between |
| Leftovers.EverythingElseIsStale | src/DDraw/AlliedBuildQueueProtocol.h:187-193 | in such a run every packet in the network is a chunk of the transaction in flight or stale for it |
| Refinement.DriversDisplaySnapshots | src/DDraw/AlliedBuildQueueSync.cpp:153-276 | two drivers, any interleaving of changed wishes, ticks, scans, sends, failed sends and arrivals: each displays exactly the snapshot the other scanned under the displayed sequence |
| ClientRuns.ClientsDisplayScans | src/DDraw/AlliedBuildQueueSync.cpp:153-276 | two whole clients, any ticks and games with any outcome a tick can have, packets from each other and from others in any order, any number of times or never, until a sequence counter comes around: each displays exactly the scan that the other drew the displayed sequence for |
| TickRuns.TickIsRun | src/DDraw/AlliedBuildQueueSync.cpp:195-276 | any tick, one that leaves the game included, does to each peer's record, and sends it, what some run of the driver's actions does, and prepares only the scan just made, only under a sequence it drew |
| TickRuns.TickDraws | src/DDraw/AlliedBuildQueueSync.cpp:236-246 | a tick moves the sequence counter on by the number of sequences it draws |
| TickRuns.PacketIsRun | src/DDraw/AlliedBuildQueueSync.cpp:164-193 | so does a packet, with the change of ownership before it is heard |
| Refinement.ActKeepsMirrored | src/DDraw/AlliedBuildQueueSync.cpp:153-276 | every driver action is a run of steps of the two one-way links |
| Diff.DifferenceThenApply | src/DDraw/AlliedBuildQueueProtocol.h:125-136 | merging two canonical snapshots into operations and replaying them on the first gives exactly the second |
| Diff.FullThenApply | src/DDraw/AlliedBuildQueueProtocol.h:137-141 | replaying a full transaction on nothing gives exactly the snapshot |
| Diff.DifferenceSize | src/DDraw/AlliedBuildQueueProtocol.h:125-136 | the operations are one for each record that only one side has |
| Diff.DifferenceEmpty | src/DDraw/AlliedBuildQueueProtocol.h:120-136 | there is nothing to send exactly when the snapshots agree |
| Transmitting.FullExactlyWhenNotShorter | src/DDraw/AlliedBuildQueueProtocol.h:137-141 | full is chosen exactly when there is no base or the difference is not shorter than the snapshot; either way at most as many operations as records |
| Transmitting.TransactionMeansTarget | src/DDraw/AlliedBuildQueueProtocol.h:118-144 | whichever kind is chosen, applying it where it may be applied yields the new snapshot |
| Transmitting.ChunksPartition | src/DDraw/AlliedBuildQueueProtocol.h:145-159 | the chunks in index order concatenate to the operations, all but the last are full, none is empty unless alone, at most 240 |
| Transmitting.Transmitter.Acknowledge | src/DDraw/AlliedBuildQueueProtocol.h:103-117 | the in-place update is the specified transition, which promotes the target only for the sequence in flight and forgets the base on zero |
| Transmitting.Transmitter.Prepare | src/DDraw/AlliedBuildQueueProtocol.h:118-144 | starts exactly when idle with something to send; the new state is the specified one |
| Transmitting.Transmitter.Merge | src/DDraw/AlliedBuildQueueProtocol.h:127-135 | the two-index loop computes the recursive difference |
| Transmitting.Transmitter.Chunk | src/DDraw/AlliedBuildQueueProtocol.h:149-159 | fills the packet that carries the chunk's slice of the operations |
| Chunking.ChosenIsSendable | src/DDraw/AlliedBuildQueueProtocol.h:118-144 | what is chosen from two scanned snapshots consists of valid records, within all limits |
| Chunking.ChunkIsWellFormed | src/DDraw/AlliedBuildQueueProtocol.h:145-159 | every chunk passes the envelope and all structural checks of the receiver, and carries its slice |
| Chunking.ChunkStep | src/DDraw/AlliedBuildQueueProtocol.h:187-223 | a chunk of the pending transaction commits its target if it was the last one missing, and else only adds its index |
| Chunking.FirstChunk | src/DDraw/AlliedBuildQueueProtocol.h:190-212 | the first chunk starts reassembly afresh whatever older transaction was pending |
| Chunking.Reassembly | src/DDraw/AlliedBuildQueueProtocol.h:174-223 | after a first chunk, any further mixture of chunks, duplicates and stale packets commits exactly the target, when and only when no index is missing |
| Receiving.AcceptInvariant | src/DDraw/AlliedBuildQueueProtocol.h:174-224 | for any packet, however malformed: records stay canonical, valid and at most 1200; buffer sizes agree; the sequence moves only to a newer one; only a full commit clears "need full" |
| Receiving.StreamInvariant | src/DDraw/AlliedBuildQueueProtocol.h:174-224 | the same over any stream of packets |
| Receiving.AnsweredWhenThereIsNews | src/DDraw/AlliedBuildQueueProtocol.h:173-223 | a packet is answered if and only if it is well-formed and the receiver then shows its transaction, or cannot take the newer delta it belongs to |
| Receiving.RefusedDelta | src/DDraw/AlliedBuildQueueProtocol.h:187-189 | a newer delta on another base is answered at once, with a plea for a full snapshot, and changes nothing else |
| Receiving.FirstCopyStands | src/DDraw/AlliedBuildQueueProtocol.h:198-207 | under the pending sequence neither another copy of a chunk nor a packet that disagrees about size, kind or base changes anything |
| Chunking.WellFormedIsChunk | src/DDraw/AlliedBuildQueueProtocol.h:176-186 | the structural checks admit exactly the chunks of transactions that a transmitter may send, whatever their unused records hold |
| Receiving.Receiver.Accept | src/DDraw/AlliedBuildQueueProtocol.h:174-224 | the in-place method decides and updates as specified, with every index in bounds |
| Receiving.Receiver.Check | src/DDraw/AlliedBuildQueueProtocol.h:176-186 | returns whether the packet passes all structural checks |
| Receiving.Receiver.Ingest | src/DDraw/AlliedBuildQueueProtocol.h:190-224 | reassembly and commit in place are the specified transition |
| Receiving.Receiver.StoreChunk | src/DDraw/AlliedBuildQueueProtocol.h:200-207 | the first copy of a chunk is kept, later copies change nothing |
| Receiving.Receiver.Replay | src/DDraw/AlliedBuildQueueProtocol.h:211-218 | the remove and add loop is the recursive application |
| Receiving.Receiver.Commit | src/DDraw/AlliedBuildQueueProtocol.h:209-223 | installs the canonicalized replay, or raises "need full" if that is too long |
| Records.EqualIsIdentity | src/DDraw/AlliedBuildQueueProtocol.h:43-54 | equivalence under the order is equality, so deduplication never merges different records |
| Records.LessIsNumeric | src/DDraw/AlliedBuildQueueProtocol.h:43-50 | the order is that of the numbers spelled by x, y, z, unit type and rotation |
| Records.CanonicalUnique | src/DDraw/AlliedBuildQueueProtocol.h:55-59 | a set of records has one canonical sequence |
| Records.Canonicalized | src/DDraw/AlliedBuildQueueProtocol.h:55-59 | the canonical sequence has exactly the given elements |
| Records.Canonicalize | src/DDraw/AlliedBuildQueueProtocol.h:55-59 | sorting and dropping adjacent equals yields it |
| Records.Same | src/DDraw/AlliedBuildQueueProtocol.h:60-64 | comparison decides equality of snapshots |
| WireFormat.WireRoundTrip | src/DDraw/AlliedBuildQueueProtocol.h:81-92 | a valid record and its remove flag survive the wire, and the encoding passes the receiver's test |
| WireFormat.ValidWireIsEncoding | src/DDraw/AlliedBuildQueueProtocol.h:182-186 | the receiver's test admits exactly the encodings of valid records |
| WireFormat.RotationBits | src/DDraw/AlliedBuildQueueProtocol.h:84-90 | the arithmetic forms used in the model are the bit expressions, for every byte |
| Words.NewerIsSerialOrder | src/DDraw/AlliedBuildQueueProtocol.h:65-68 | the comparison is the serial order of section 3.2 of RFC 1982, asymmetric, undecided exactly at half the ring |
| Words.DrawnDistinct | src/DDraw/AlliedBuildQueueSync.cpp:239 | the driver's counter repeats exactly with period 2^32 - 1 |
| Words.DrawnNewer | src/DDraw/AlliedBuildQueueSync.cpp:239 | for all draws: a later one is newer exactly while fewer than 2^31 steps lie between, the skip over zero counted |
| Collecting.Scanner.Probe | src/DDraw/AlliedBuildQueueSync.cpp:126-131 | linear probing terminates, at the record's slot if it is kept and at a free slot otherwise |
| Collecting.Scanner.Place | src/DDraw/AlliedBuildQueueSync.cpp:132-133 | placing at that slot keeps the table consistent with the kept records |
| Collecting.Scanner.Collect | src/DDraw/AlliedBuildQueueSync.cpp:98-140 | the snapshot is the canonical form of the first up to 1200 distinct candidates, none dropped by canonicalizing, and is what the transmitter demands |
| Collecting.FirstDistinctMeaning | src/DDraw/AlliedBuildQueueSync.cpp:124-136 | the kept records are the distinct ones of a prefix of the candidates, of all of them unless the limit was reached |
| Collecting.CanonicalizingDropsNone | src/DDraw/AlliedBuildQueueSync.cpp:138-139 | canonicalizing distinct records keeps their number, so the final resize never cuts |
| Budgeting.Budget.Take | src/DDraw/AlliedBuildQueueProtocol.h:232-240 | the in-place update, with its 32-bit products and sums, is the specified bucket |
| Budgeting.OneGrant | src/DDraw/AlliedBuildQueueProtocol.h:232-240 | no grant exceeds the burst, less than one packet of credit is left over, and grant and credit never exceed what time paid for |
| Budgeting.WindowConserves | src/DDraw/AlliedBuildQueueProtocol.h:232-240 | over any window, grants and remaining credit never exceed initial credit and rate times time |
| Budgeting.WindowBound | src/DDraw/AlliedBuildQueueProtocol.h:232-240 | a window of T milliseconds grants at most (999 + rate T) / 1000 packets |
| Budgeting.NothingLost | src/DDraw/AlliedBuildQueueProtocol.h:232-240 | while calls come often enough that no cap applies, the balance is exact |
| Budgeting.PauseGrantsBurst | src/DDraw/AlliedBuildQueueProtocol.h:232-240 | a pause that earns the burst grants exactly the burst and saves nothing; a shorter one grants exactly what it earned; more than a second earns no more than a second |
| Driving.Driver.HandlePacket | src/DDraw/AlliedBuildQueueSync.cpp:164-193 | a packet in the right envelope updates its sender's slot as specified and no other; a fresh request makes the next tick scan |
| Driving.Driver.SetWanted | src/DDraw/AlliedBuildQueueSync.cpp:208-213 | a change of the wish to see queues is owed to every peer |
| Driving.Driver.RefreshAll | src/DDraw/AlliedBuildQueueSync.cpp:214-226 | each slot is reset, its lease ended or its display dropped as specified; returns whether a subscriber remains |
| Driving.Driver.PrepareForAll | src/DDraw/AlliedBuildQueueSync.cpp:236-246 | every idle subscriber draws the next sequence, in slot order, and prepares against the scan |
| Driving.Driver.SendLoop | src/DDraw/AlliedBuildQueueSync.cpp:248-276 | terminates within its grant; every packet was due at its peer; without a failure either the grant is spent or no peer has anything due; after one, the refused packet's peer is as before but for its retry |
| Driving.Driver.Turn | src/DDraw/AlliedBuildQueueSync.cpp:252-274 | one turn finds exactly what is due at the peer |
| Driving.FairBetween | src/DDraw/AlliedBuildQueueSync.cpp:249-276 | between two packets to one peer every other peer that still has something due got one |
| Driving.AllQuiet | src/DDraw/AlliedBuildQueueSync.cpp:250-276 | ten misses in a row mean that no peer has anything due |
| Agendas.SentIsOfAgenda | src/DDraw/AlliedBuildQueueSync.cpp:250-276 | what one loop sends a peer, followed by what is still due to it, is the list of what was due at first: one report if one is due, then the rest of the round |
| Agendas.OneReport | src/DDraw/AlliedBuildQueueSync.cpp:257-262 | one loop sends a peer at most one report, before any chunk |
| Agendas.ReportRests | src/DDraw/AlliedBuildQueueSync.cpp:256-261 | a report once sent is due again exactly when its interval of two seconds, or five for a peer not heard from, has passed and there is anything to tell |
| Agendas.RoundRests | src/DDraw/AlliedBuildQueueSync.cpp:263-272 | a finished round is repeated exactly when its retry time has come, from its first chunk |
| Duties.NewsIsReported | src/DDraw/AlliedBuildQueueSync.cpp:193 | data that is answered makes a report due at every later time, before any chunk; it carries what is shown, or zero, the wish and whether the peer is served |
| Duties.RefusalIsReported | src/DDraw/AlliedBuildQueueSync.cpp:189-193 | a newer delta on another base is reported with sequence zero |
| Duties.DisplayIsReported | src/DDraw/AlliedBuildQueueSync.cpp:189-193 | a snapshot brought to the display, or brought again, is reported under its sequence |
| Duties.SilenceKeeps | src/DDraw/AlliedBuildQueueSync.cpp:188-193 | data that is not answered makes no report due and is no news of the display |
| Duties.LostBaseIsForgotten | src/DDraw/AlliedBuildQueueSync.cpp:186 | a report of a lost base makes the next transaction a full one, unless a full one is under way, which goes on |
| Duties.LeaseHolds | src/DDraw/AlliedBuildQueueSync.cpp:221-222 | over any actions without a further report a subscription holds if and only if every tick comes within the lease of the last request; with it ends the transaction |
| Duties.RequestSubscribes | src/DDraw/AlliedBuildQueueSync.cpp:175-184 | a request subscribes from that moment; the first one is answered by a report, a repeated one leaves the next report when it was |
| Duties.DisplayLasts | src/DDraw/AlliedBuildQueueSync.cpp:223-224 | over any actions without a packet a display stays as it is if and only if every tick of a running game comes before it is stale, and is dropped as a whole otherwise |
| Duties.OnlyBuildingsShown | src/DDraw/AlliedBuildQueueSync.cpp:189-192 | whatever packets arrive, a display names only buildings that this game knows |
| Duties.NothingShownUnwanted | src/DDraw/AlliedBuildQueueSync.cpp:188 | while a player does not want to see queues, nothing that arrives is ever shown |
| GameTicks.Sync.OnGameTick | src/DDraw/AlliedBuildQueueSync.cpp:195-276 | before sending, the state is exactly what leaving, restarting, refreshing, scanning and preparing make of it; every packet sent was due and is within the one grant, which is entered in the ledger; unless the network refuses, nothing due is left or the grant is spent |
| GameTicks.Sync.HandlePacket | src/DDraw/AlliedBuildQueueSync.cpp:153-194 | packets from nobody, or for another game or player than the last tick's, change nothing |
| GameTicks.Sync.Reset | src/DDraw/AlliedBuildQueueSync.cpp:88-97 | everything but the sequence counter starts over |
| GameTicks.SentInWindow | src/DDraw/AlliedBuildQueueSync.cpp:248-275 | over any stretch of ticks, resets included, at most (999 + 800 T) / 1000 packets are sent in T milliseconds |
| ClientLaws.TickSendsAgenda | src/DDraw/AlliedBuildQueueSync.cpp:248-276 | what a tick sends a peer is the head of what is due to it, and all of it unless the network refuses or the grant is spent |
| ClientLaws.OnlyAlliesServed | src/DDraw/AlliedBuildQueueSync.cpp:216-221 | whatever a tick sends goes to an ally; after it every ally has its own slot, and all others are empty |
| ClientLaws.StrangersGetNothing | src/DDraw/AlliedBuildQueueSync.cpp:153-276 | a slot whose player is never an ally stays empty and nothing is ever sent to it, whatever ticks and packets come |
| ClientLaws.OnlyAlliesHeard | src/DDraw/AlliedBuildQueueSync.cpp:157-164 | only an ally's packet of the game and player of the last tick changes anything, and no other slot |
| ClientLaws.TickRemembersGame | src/DDraw/AlliedBuildQueueSync.cpp:204-206 | which game and player that is |
| ClientLaws.WishIsTold | src/DDraw/AlliedBuildQueueSync.cpp:208-213 | when a player changes its mind about seeing queues, the first packet due to every ally it has says so |
| ClientLaws.NewGameForgets | src/DDraw/AlliedBuildQueueSync.cpp:88-97 | another player or an earlier time starts from nothing shown, nobody subscribed and no base, but for the sequence counter |
| ClientLaws.LeavingForgets | src/DDraw/AlliedBuildQueueSync.cpp:200-207 | so does leaving a game |
| ClientLaws.ScansKeepDistance | src/DDraw/AlliedBuildQueueSync.cpp:227-229 | after a scan another is due exactly when the interval has passed and somebody is subscribed |
| ClientLaws.RequestMakesScanDue | src/DDraw/AlliedBuildQueueSync.cpp:177 | a fresh request makes a scan due at once |
| ClientLaws.ScanReachesAll | src/DDraw/AlliedBuildQueueSync.cpp:236-246 | after a scan every subscriber is being sent the snapshot, is still being sent an earlier one, or is known to have it |
| Md5Streaming.Md5.Update | src/DDraw/Md5.cpp:87-115 | after any calls the state is that of the concatenation of their data; ignored once the digest was taken |
| Md5Streaming.Md5.HexDigest | src/DDraw/Md5.cpp:117-154 | the result is the standard's digest of the message (sections 3.1 to 3.5 of RFC 1321), and taking it again changes nothing |
| Md5Streaming.Md5.Transform | src/DDraw/Md5.cpp:51-85 | compresses one block as in section 3.4 of RFC 1321 |
| Md5Streaming.Md5.Rounds | src/DDraw/Md5.cpp:63-79 | the loop over rotating variables performs the 64 steps |
| Md5Streaming.Md5.Pad | src/DDraw/Md5.cpp:121-129 | pads with one bit and the fewest zeros that reach 448 modulo 512 |
| Md5Streaming.Md5.FeedPortion | src/DDraw/Md5.cpp:97-114 | one portion of the copy loop keeps state and buffer in agreement with all bytes fed |
| Md5Streaming.RotatedIsStep | src/DDraw/Md5.cpp:74-78 | moving four variables is one step on renamed registers |
| Md5Streaming.MixIsAuxiliary | src/DDraw/Md5.cpp:69-72 | the source's bit expressions are the functions F, G, H, I |
| Md5Streaming.IndexIsOrder | src/DDraw/Md5.cpp:69-72 | the source's index formulas are the standard's word orders |
| Md5Streaming.ShiftIsRotation | src/DDraw/Md5.cpp:31-36 | the source's shift table holds the standard's rotations |
| Md5Streaming.AbsorbAppend | src/DDraw/Md5.cpp:97-114 | absorbing two portions is absorbing their concatenation |
| Md5Spec.BytesRoundTrip | src/DDraw/Md5.cpp:54-61 | writing a word as four bytes and reading it back are inverse to each other |
| Md5Spec.HexReadsBack | src/DDraw/Md5.cpp:141-151 | the two digits of a byte read back as the byte |
| Md5Streaming.LengthByte | src/DDraw/Md5.cpp:131-136 | each appended length byte is the standard's |
| OccupantIndex.Index.Rebuild | src/DDraw/AreaDamageOverflow.cpp:530-594 | unless some cell still carries the stamp drawn, every cell reads as the first six distinct indices, in unit order, of the qualifying units whose clamped footprint covers it; with distinct indices, entries plus saturations are all covered (unit, cell) pairs; a zero unit count means that every cell is empty |
| OccupantIndex.Index.SelectorsNameCovering | src/DDraw/AreaDamageOverflow.cpp:249-271 | after it, selector 2 + k names the k-th of those units, or none |
| OccupantIndex.Index.Lookup | src/DDraw/AreaDamageOverflow.cpp:232-272 | which unit a selector names, through the unit count, the map check and the stamp |
| OccupantIndex.Index.IndexUnit | src/DDraw/AreaDamageOverflow.cpp:413-460 | every covered cell gains the unit, no other cell changes, and each covered cell accounts for one entry or one saturation |
| OccupantIndex.Index.InsertAt | src/DDraw/AreaDamageOverflow.cpp:435-457 | a cell gains the unit unless it has it or is full, stale contents read as empty; only full cells saturate |
| OccupantIndex.Index.InsertInto | src/DDraw/AreaDamageOverflow.cpp:443-457 | the slot loop is insertion into the cell's list |
| OccupantIndex.Index.constructor | src/DDraw/AreaDamageOverflow.cpp:344-360 | a fresh index reads as empty everywhere |
| OccupantIndex.InsertIsFirstSix | src/DDraw/AreaDamageOverflow.cpp:443-457 | inserting one by one takes the first six distinct |
| OccupantIndex.CoveringMeaning | src/DDraw/AreaDamageOverflow.cpp:413-590 | a unit covers a cell exactly when its footprint lies over it and it flies, alive, on its own, on the map and within the unit table |
| OccupantIndex.CandidatesOf | src/DDraw/AreaDamageOverflow.cpp:232-272 | the engine's own two slots are named whatever the index says; the index names nobody on another map, outside its cells, or beyond six |
| ExplosionDedup.HitTable.GetOccupantIndex | src/DDraw/AreaDamageOverflow.cpp:224-317 | returns the unit that the index lookup names, unless absent, outside the table or already returned by the running bracket or a later one |
| ExplosionDedup.HitTable.Bracket | src/DDraw/AreaDamageOverflow.cpp:623-633 | restores the outer generation; unless the counter wraps inside, a bracket with all brackets nested in it returns exactly the specified units |
| ExplosionDedup.ReturnedOnce | src/DDraw/AreaDamageOverflow.cpp:299-316 | no bracket returns a unit twice |
| ExplosionDedup.LookedAtIsReturned | src/DDraw/AreaDamageOverflow.cpp:299-316 | every unit in range that a bracket looks at is returned by it, unless one nested in it already returned it |
| ChatWrap.WrapChat | src/DDraw/GiveCommands.cpp:402-426 | writes the first lines of the unlimited wrapping, up to the limit |
| ChatWrap.LinesAreGood | src/DDraw/GiveCommands.cpp:408-424 | every line is nonempty, at most 63 characters and does not start with a space |
| ChatWrap.InkPreserved | src/DDraw/GiveCommands.cpp:405-424 | all characters but spaces are kept, in order |
| ChatWrap.LinesInPlace | src/DDraw/GiveCommands.cpp:405-424 | every line stands in the text in order, with nothing but spaces before, between and behind, and ends with the text, before a space, or within sixty-four characters without a space |
| ChatWrap.LineBound | src/DDraw/GiveCommands.cpp:402-426 | n characters need at most 2 (n / 64) + 1 lines |
| ChatWrap.BoundReached | src/DDraw/GiveCommands.cpp:402-426 | 127 characters without a space reach the bound |
| ChatWrap.MessageFits | src/DDraw/GiveCommands.cpp:469 | no line of a message of at most 191 characters is ever dropped |
| ErrorDiffusion.ImageConserves | src/DDraw/MapParse.cpp:604-638 | sixteen times the total of average minus chosen colour is exactly what is left in the last row and the guards plus rounding residues minus clamp corrections, per channel |
| ErrorDiffusion.ScanConserves | src/DDraw/MapParse.cpp:608-633 | the same balance within a row, after every pixel |
| ErrorDiffusion.DiffuseConserves | src/DDraw/MapParse.cpp:615-632 | the same balance for one pixel |
| ErrorDiffusion.AccumulatorsBounded | src/DDraw/MapParse.cpp:608-637 | at every moment of every row every accumulator lies within 16 * 255 of zero |
| ErrorDiffusion.ImageBounded | src/DDraw/MapParse.cpp:604-638 | what a row passes to the next stays within 9 * 255 |
| ErrorDiffusion.ResidueIsSmall | src/DDraw/MapParse.cpp:270-273 | rounding leaves at most 8 sixteenths |
| ErrorDiffusion.ImageUsesSubset | src/DDraw/MapParse.cpp:622-623 | only entries the snap can yield are used |
| ErrorDiffusion.ClampIsNearest | src/DDraw/MapParse.cpp:618-620 | the clamp gives the nearest channel value |
| ErrorDiffusion.Err16IsNearest | src/DDraw/MapParse.cpp:268-273 | sixteenths are rounded to the nearest unit, halves away from zero |
| DiffusionGather.DitheredExactly | src/DDraw/MapParse.cpp:599-639 | rows are what dithering draws if and only if with some errors each pixel is the entry for its average and the errors it receives: 7 of the pixel drawn before, 3, 5 and 1 of the row above, the direction alternating |
| DiffusionGather.ExactColoursStay | src/DDraw/MapParse.cpp:599-639 | an image whose every average is snapped to an entry of that very colour is drawn as it is |
| MinimapRender.Render | src/DDraw/MapParse.cpp:497-644 | refuses exactly what it checks for; else every pixel comes from the mean of its box, through the diffusion if it is wanted and memory was found, directly otherwise, and uses only palette indices that occur in the source |
| MinimapRender.Diffuser.Dither | src/DDraw/MapParse.cpp:604-638 | the in-place image loop with swapped rows and alternating direction is the specified diffusion |
| MinimapRender.Diffuser.DitherRow | src/DDraw/MapParse.cpp:607-637 | one row in either direction is the scan of the mirrored row |
| MinimapRender.Diffuser.Pixel | src/DDraw/MapParse.cpp:610-632 | one pixel, with every tap inside the guarded rows |
| MinimapRender.Average | src/DDraw/MapParse.cpp:574-590 | the truncated mean of the box, again a colour |
| MinimapRender.BuildSubset | src/DDraw/MapParse.cpp:199-224 | the indices that occur in the image, ascending |
| MinimapRender.BoxInBounds | src/DDraw/MapParse.cpp:562-572 | every box is nonempty and inside the source |
| MinimapRender.BoxesPartition | src/DDraw/MapParse.cpp:562-572 | when the source is at least as large as the destination, the boxes partition it |
| MinimapRender.BoxStartIsExact | src/DDraw/MapParse.cpp:556-570 | each box begins in the source cell that holds its exact start |
| MinimapRender.StretchedBoxIsCell | src/DDraw/MapParse.cpp:556-572 | when the source is smaller, each box is one source cell |
| MinimapRender.MeanIsBetween | src/DDraw/MapParse.cpp:574-592 | the mean of a box lies between the extremes of its pixels |
| MinimapRender.BoxTotalOf | src/DDraw/MapParse.cpp:574-588 | each pixel of a box counts once in its total, and no other |
| MinimapRender.SourceSizeIs | src/DDraw/MapParse.cpp:520-526 | the meaningful part of the stored image is twice the size asked for, as far as there is one |
| EnginePatches.Patcher.Install | src/DDraw/EngineLimits.cpp:504-559 | either all patches are in place or memory is what it was: too late an installation, a mismatch or a failure at any write changes nothing, even if regions overlap |
| EnginePatches.Patcher.Uninstall | src/DDraw/EngineLimits.cpp:562-570 | after an installation, memory is again what it was before |
| EnginePatches.Patcher.Validate | src/DDraw/EngineLimits.cpp:219-234 | succeeds exactly if all expected bytes are there, before anything is written |
| EnginePatches.Patcher.RestoreApplied | src/DDraw/EngineLimits.cpp:256-269 | undoing in reverse order restores the original |
| EnginePatches.RestoreConfined | src/DDraw/EngineLimits.cpp:256-269 | each undo step confines the difference to the patches before it, whatever they overlap |
| EnginePatches.PatchedAt | src/DDraw/EngineLimits.cpp:542-551 | after installation each byte is that of the last patch covering it, and otherwise unchanged |
| EnginePatches.SlotPool.Allocate | src/DDraw/EngineLimits.cpp:90-115 | returns null exactly when no slot is free, and else the first free slot in round-robin order |
| CobDispatch.SpliceDispatches | src/DDraw/CobDispatchTable.cpp:226-263 | executed with any word, the 38 bytes leave to the table entry of bits 12 to 19, or to the error path without bit 28; only edx and flags change |
| CobDispatch.SpliceRefinesOriginal | src/DDraw/CobDispatchTable.cpp:37-41 | wherever the original window decides by itself, the splice reaches the same address |
| CobDispatch.OriginalDispatches | src/DDraw/CobDispatchTable.cpp:37-41 | what the original bytes do, executed |
| CobDispatch.TargetIsHandlerOfKey | src/DDraw/CobDispatchTable.cpp:43-48 | a table with the handler of 0x10000000 + 4096 i at i serves every word the handler of word & 0x100FF000 |
| CobDispatch.KeyBits | src/DDraw/CobDispatchTable.cpp:34-41 | word & 0x100FF000 is bit 28 and bits 12 to 19 |
| CobDispatch.SpliceStaysInVm | src/DDraw/CobDispatchTable.cpp:123-135 | with a table that passed the range test no word makes the splice leave the interpreter |
| CobDispatch.BuildPatchBytes | src/DDraw/CobDispatchTable.cpp:226-263 | the running-offset loop writes exactly the splice, with the `jz` at the expected address |
| CobDispatch.TableEntriesInRange | src/DDraw/CobDispatchTable.cpp:126-135 | decides the range test |
| Machines.RunConcatenated | src/DDraw/CameraBounds.h:88-100 | code in front of other code runs as it would alone |
| Machines.RunListing | src/DDraw/CobDispatchTable.cpp:215-225 | the bytes of an assembler listing run as its instructions read |
| GridClaim.ClientsAgree | src/DDraw/GridClaimTieBreak.h:41-56 | two clients to which the same units lay claim, each claim through its own site and memory, in whatever order, record a unit of the same index, as long as all memories agree on the indices |
| GridClaim.LowestHolds | src/DDraw/GridClaimTieBreak.cpp:109-188 | with the patches in place, claims taking turns through any of the six sites leave the cell with the lowest index of all that claimed or held it |
| GridClaim.ClientsDisagree | src/DDraw/GridClaimTieBreak.h:12-32 | with the original code, through whichever sites, a client that sees no unit as a remote human's keeps the first claimant, and one that sees all of them so the last |
| GridClaim.PatchDecides | src/DDraw/GridClaimTieBreak.cpp:145-188 | the 17 bytes, executed, branch to the evict target exactly on a strictly lower claimant index and else fall through; only the scratch register and flags change |
| GridClaim.OriginalDecides | src/DDraw/GridClaimTieBreak.cpp:51-87 | the original bytes, executed, leave by the same two ways out at every site, on whether the incumbent's owner is an active remote human |
| GridClaim.BuildPatch | src/DDraw/GridClaimTieBreak.cpp:145-188 | succeeds exactly when the target is in reach of a short jump, and writes the patch for it |
| GridClaim.SitesPatchable | src/DDraw/GridClaimTieBreak.cpp:109-118 | all six sites are in reach |
| Trampolines.Calls | src/DDraw/CameraBounds.h:88-100 | entered at its base the trampoline calls the helper with return address, registers and flags on the stack, for all addresses modulo 2^32 |
| Trampolines.Resumes | src/DDraw/CameraBounds.h:88-100 | a helper that leaves the stack as it found it may change all registers and flags: the replayed code runs as on entry and control passes to the continuation |
| Trampolines.BuildTrampoline | src/DDraw/CameraBounds.h:88-100 | writes exactly the trampoline, and nothing behind it |
| Trampolines.PhaseHookResumes | src/DDraw/TABugFix.cpp:2632-2633 | the small-map hook replays the load that its jump overwrote |
| Whiteboard.ElementHandler.GetArea | src/DDraw/ElementHandler.cpp:113-187 | returns exactly the elements of the closed rectangle whose cells are scanned, once each |
| Whiteboard.ElementHandler.DeleteBetween | src/DDraw/ElementHandler.cpp:78-111 | removes exactly the elements of the half-open rectangle whose cells are scanned; the rest of each bucket keeps its order |
| Whiteboard.ElementHandler.DeleteOn | src/DDraw/ElementHandler.cpp:73-76 | deletes exactly what lies in the square around the point, for every point |
| Whiteboard.ElementHandler.AddElement | src/DDraw/ElementHandler.cpp:59-66 | appends to the element's own bucket and to no other; the set is the union of the buckets; no bucket lists an element twice unless it is added again |
| Whiteboard.ElementHandler.MoveTextElement | src/DDraw/ElementHandler.cpp:195-221 | an identical element at the new place takes the old one's |
| Whiteboard.ElementHandler.ClearBucket | src/DDraw/ElementHandler.cpp:94-109 | collecting and then removing from the back leaves exactly what the rectangle does not hold |
| Whiteboard.ScanComplete | src/DDraw/ElementHandler.cpp:113-128 | a scan reaches the cell of every coordinate between its ends if and only if the ends lie in one stretch of 65536 or their cells are the first and the last |
| Whiteboard.MapScanComplete | src/DDraw/ElementHandler.cpp:113-128 | on coordinates 0 to 65535 the scan of an ordered rectangle misses nothing |
| ChatHistory.History.Consume | src/DDraw/ChatLayout.cpp:149-187 | each call changes what is remembered as the specified look does; `LogOfAnyRun` says what that comes to |
| ChatHistory.History.Append | src/DDraw/ChatLayout.cpp:141-145 | the log gains the line, and the buffer holds its last 512 |
| ChatHistory.SpanOfWritten | src/DDraw/ChatLayout.cpp:175-186 | of n lines written between two frames the consumer finds the newest n mod 30, hence all of them if and only if n < 30 |
| ChatHistory.LogIsComplete | src/DDraw/ChatLayout.cpp:149-187 | over any run of frames with fewer than 30 new lines each and a clock that does not run back, the log of a consumer abreast of the ring gains all that was written, in order, once |
| ChatHistory.LogOfAnyRun | src/DDraw/ChatLayout.cpp:149-187 | over any frames since installation, whatever they bring and however often the clock runs back, the log is what was written after the last frame whose clock had run back (of n lines a frame the newest n mod 30), or, if there is none, the lines visible in the first frame and what was written after it |
| ChatHistory.History.HoldsKept | src/DDraw/ChatLayout.cpp:141-187 | the buffer holds the last 512 lines of that |
| ChatHistory.History.KeepsNewest | src/DDraw/ChatLayout.cpp:141-187 | from any look on, the first and resetting ones included, after such frames the buffer holds the last 512 lines of what that look left and of all that was written since |
| ChatHistory.RingHoldsNewest | src/DDraw/ChatLayout.cpp:116-123 | the ring ends with the newest lines written to it |
| ChatColumns.ChatDrawer.WalkChat | src/DDraw/ChatLayout.cpp:420-720 | a frame adds to the log what the ring gained, and draws in each column the newest of its visible lines, as many as exist, are allowed and fit, or the scrolled window of the history; nothing is ever drawn above the top bar |
| ChatColumns.LaidBelowBar | src/DDraw/ChatLayout.cpp:568-717 | whatever is drawn from an anchor below the top bar stays below it, whichever way the column grows |
| ChatPosition.Position.Resolve | src/DDraw/ChatPosition.cpp:186-243 | every resolved place lies right of the sidebar and below the top bar, and within the screen or the space reserved at its bottom |
| ChatPosition.Position.MovesWithOffset | src/DDraw/ChatPosition.cpp:186-243 | the place moves pixel for pixel with each offset from the anchor's own place, until the edge of the viewport |
| ChatPosition.PixelsAre | src/DDraw/ChatPosition.cpp:233-234 | percent offsets are cut towards zero |
| ChatPosition.Position.Install | src/DDraw/ChatPosition.cpp:282-287 | configured offsets and line counts are brought to the nearest value in range |
| ChatPosition.Position.EnsureApplied | src/DDraw/ChatPosition.cpp:360-373 | the applied place follows the resolved one and never leaves the viewport |
| ChatColumns.ChatDrawer.DrawLive | src/DDraw/ChatLayout.cpp:597-652 | the loop over the ring draws each column's lines, but for those trimmed, one below the other |
| ChatColumns.ChatDrawer.CountLines | src/DDraw/ChatLayout.cpp:531-550 | counts the visible lines of each column |
| ChatColumns.ChatDrawer.PickHistory | src/DDraw/ChatLayout.cpp:503-524 | picks the player column's retained lines, newest first |
| ChatColumns.ChatDrawer.DrawHistory | src/DDraw/ChatLayout.cpp:657-717 | brings the offset into range and draws the window it names |
| ChatColumns.ChatDrawer.WalkBack | src/DDraw/ChatLayout.cpp:483-493 | the walk back through the ring ends at the oldest entry |
| ChatColumns.NewestOnAnchor | src/DDraw/ChatLayout.cpp:568-603 | a column that grows up on a screen of known height ends exactly on the anchor |
| ChatColumns.NoneBelowHud | src/DDraw/ChatLayout.cpp:568-580 | a column that grows down stays above the bottom bar if and only if its first line does |
| ChatColumns.PlayerColumnIsFull | src/DDraw/ChatLayout.cpp:552-603 | a player column that leaves lines out, though neither its limit nor the ring demands it, has no room for one more |
| ChatColumns.SystemColumnIsFull | src/DDraw/ChatLayout.cpp:552-603 | nor has such a system column |
| ChatColumns.PlayerColumnHolds | src/DDraw/ChatLayout.cpp:552-652 | a player column holds the newest lines in order, within its limit, from the anchor unless it grows up, one line height apart |
| ChatColumns.SystemColumnHolds | src/DDraw/ChatLayout.cpp:552-652 | so does a system column, from the engine's own place if the columns are split and from the anchor otherwise |
| ChatColumns.ColumnsPartition | src/DDraw/ChatLayout.cpp:531-550 | every visible line goes to exactly one of the columns |
| ChatColumns.ScrolledIsEarlier | src/DDraw/ChatLayout.cpp:657-717 | a scrolled column is what it would be if the newest lines had not been written, but for the row that tells their number |
| ChatColumns.ModesOf | src/DDraw/ChatLayout.cpp:212-222 | which display modes show which channels |
| ChatColumns.KindsOf | src/DDraw/ChatClassify.h:5-27 | which lines are of which kind |
| ChatColumns.LiveTail | src/DDraw/ChatLayout.cpp:657-717 | at offset zero scrollback draws what an unscrolled column of the same lines would |

## Left out

- Sequences are assumed not to be reused in the step system of `Link`; `Words.DrawnDistinct` and `Words.DrawnNewer` give the exact range in which the driver's counter guarantees that.
- OccupantIndex.Index.Rebuild: says nothing of a rebuild whose stamp some cell still carries, 2^32 - 1 rebuilds old; guards against several rebuilds in one tick are not modelled.
- ExplosionDedup.HitTable.Bracket: says nothing of what is returned while the 32-bit generation counter wraps; a missing cell is a place without units; the build with the dedup-cap fix off is not modelled.
- Driving.Driver.SendLoop: counts turns without the 32-bit wrap of the next-peer counter, which would once shift the turn order; the network's answer to the n-th send is a parameter.
- Collecting.Scanner.Collect: the hash function is an arbitrary parameter, and the walk over units and orders (with its guard of 8192 orders) is a list of candidate records.
- GameTicks.Sync.OnGameTick: which slots are authorized, the players' ids and the wish to see queues are parameters.
- Refinement.DriversDisplaySnapshots: a scan that gives a peer nothing new consumes a sequence and has no other effect; it is not an event of its own.
- ClientRuns.ClientsDisplayScans: covers runs in which neither client draws more than 2^32 - 11 sequences; each client keeps the other in one slot throughout, and both start from an empty network.
- Standstill.DriversStayStuck: speaks of the drivers' actions; the run it gives happens at one instant, without ticks and packet budgets in between.
- Transmission statistics, key state, and everything that draws the displayed queues.
- Md5Streaming.Md5.Transform: the words of a block are assembled with sums instead of shifts and disjunctions; the constants T are the source's table, not derived from the sine.
- MinimapRender.Render: the choice of the nearest palette entry is an arbitrary function into the subset (its OKLab arithmetic is floating point); products are unbounded where the source relies on its 4096 limit.
- The float-scaled resampling of the TNT picture in MapParse.cpp.
- EnginePatches.Patcher.Install: a write either happens whole or not at all, and writing back succeeds; the lists of patches themselves are not modelled.
- EnginePatches.SlotPool.Allocate: a slot is free or not; what the engine stores in it, and how it frees it, is not modelled.
- Machines.RunListing: only the instructions that the patches contain; arithmetic flags other than zero and carry are not tracked, the stack is separate from other memory, and code is run up to the first branch taken.
- CobDispatch.SpliceDispatches: the 256 handler addresses are a parameter; the refinement of the original window uses the first three.
- GridClaim.LowestHolds: covers what the six patched comparisons decide, not the engine's bookkeeping after the branch; the installation loop with its rollback has the shape proved in `EnginePatches`.
- Trampolines.Resumes: the helper itself (the camera clamp) is not modelled, only that it returns with the stack as it found it.
- Whiteboard.ElementHandler.DeleteBetween: assumes that no element was added twice, as no caller does; the source would free such an element two times. Coordinates are unbounded, so the wrap of x - 10 at the ends of the 32-bit range is not seen.
- Whiteboard.ElementHandler.MoveTextElement: assumes a text element, whose text the constructor has already cut to 50 characters.
- ChatHistory.History.Append: the line counter is unbounded.
- ChatColumns.ChatDrawer.WalkChat: the engine renderer, glyphs, colours, logos and horizontal positions; a screen of unknown height has height zero.
- ChatPosition.Position.EnsureApplied: writing the engine's four constants, and the line limit it sets for the engine's own renderer.
- The `/give` command's parsing and its effect on resources (GiveCommands.cpp).
- AutoTeam, challenge-response hashing, lag-switch guard, notification queue, dialogs and panels.
