# Clippy: verification model

Clippy keeps the clipboards of several machines in step. A node notices a change of its own clipboard, turns
it into a payload, cuts the payload into chunks, and broadcasts them as frames to its peers; a peer puts the
chunks back together and writes the content into its own clipboard, taking care not to send on what it has
just received. The peers find each other by service announcements and keep one connection per pair.

This project models the four parts that carry one copy from machine to machine and proves what they promise,
over all inputs, all streams and all interleavings:

* **chunks** (`Wire`, `Messages`, `Payloads`, `Chunking`, `Reassembly`, `Streams`, `Transfers`, `Frames`,
  `Delivery`, `Amplification`): the two messages on the protobuf wire, payload validation, cutting, and the
  shared reassembler;
* **clipboard** (`Ledger`, `Coalescing`, `Clipboard`, `Echo`, `Copies`, `EchoFree`, `Mesh`, `Inboxes`): the ledger of remembered
  writes, the coalescing of native changes, and how much of what a node or a whole mesh emits is not its users';
* **connections** (`Peers`, `Backoff`, `Discovery`, `Manager`, `PeerLink`, `PeerRuns`, `Pair`, `TieBreak`,
  `DialLoop`): one peer's slot, dial loop and discovery record under every interleaving, and two nodes with all
  their sockets;
* **glue** (`Runtime`, `Broadcasting`, `Prefixes`, `OncePerPeer`, `Capacity`): broadcasting and frame handling.

Objects that the program changes in place (`Reassembler`, `PendingLedger`, `ClipboardManager`, `PeerState`,
`ManagedConn`, `Manager`, `Runtime`) are classes whose methods are proved equal to functions on values; the
state machines and theorems use those same functions. Each critical section is one step of a state machine;
what happens between releasing a lock and the follow-up decided under it is a step of its own, and so is a
clock reading taken before the ledger's lock.

What the model assumes: SHA-256, UTF-8 validity, URL recognition and JPEG decoding are arbitrary functions
(the hash has 32 bytes; nothing needs it to be injective); the protobuf library emits fields in field-number
order and leaves out default values (Protocol Buffers Encoding guide, "Base 128 Varints" and "Length-Delimited
Records"); `int` is 64 bits wide; time, randomness and the outcomes of dials, native writes and network events
are inputs of the steps; a native report carries exactly the bytes that were written, each change is reported at
most once, and a failed native write leaves the clipboard as it was and unreported.

## What the code does not promise

Five properties one might expect are false, and the model says exactly when they hold:

* A chunk size so large that its sum with the payload length overflows makes `ChunkPayload` panic or, larger
  still, return an empty list, although every check passes (`Transfers.OutcomeExactly`,
  `Transfers.FirstOverflowPanics`, `Transfers.HugeChunkSizeSendsNothing`).
* A received copy can be sent on. Let `d` bound the delay from the clock reading of a remote write to the
  watcher's reading for its report and to the return of a failed write, and let `skew` bound how long a reading
  waits for the ledger's lock. For positive `d` a node is free of echoes exactly when `d + 2 * skew` is at most the
  ledger's time (`EchoFree.EchoFreeExactly`). Otherwise a report comes late (`EchoFree.LateReportEscapes`), an older reading
  taken under the lock last pulls the expiry back (`EchoFree.StaleRememberEscapes`), an operation read later drops
  the entry before a timely question reaches it (`EchoFree.OvertakenReportEscapes`), or a slow failure's `forget`
  takes back a later write's `remember` (`EchoFree.SlowFailureEscapes`). One emission per such event is the worst
  that can happen (`Echo.EmissionsAreAccounted`).
* `remember` followed by `forget` restores every count but can leave a later expiry (`Ledger.RememberThenForget`).
* Doubling the backoff turns negative unless twice the configured maximum fits 64 bits
  (`Backoff.ClosedFormExactly`).
* Two sockets dialled by the smaller id can refuse each other, one at each end, if it dialled both without
  waiting; with its dial loop in the model one of the two competing sockets is always down already
  (`TieBreak.UndisciplinedDialsCanCollide`, `DialLoop.RefusedOnlyAmongTheDead`).

## Model

| member | source | states |
|---|---|---|
| Wire.VarintRoundTrip | internal/clipwire/clipwire.proto:14-29 | decoding the varint of any 64-bit word, ten-byte ones included, gives the word and leaves the bytes after it |
| Wire.WordRoundTrip | internal/clipwire/clipwire.proto:15 | every signed 64-bit number survives its two's-complement word |
| Wire.VarintSpells | internal/clipwire/clipwire.proto:14-29 | a varint spells its number seven bits a byte, lowest first, every byte but the last marked as continued, and none more than needed |
| Wire.FieldsRoundTrip | internal/clipwire/clipwire.proto:14-29 | decoding the encoding of any list of records in range gives the list back |
| Messages.PayloadRoundTrip | internal/clipwire/clipwire.proto:14-21 | a payload marshals exactly when its MIME type is UTF-8, and then decodes to itself, for every timestamp and with default fields left out |
| Messages.ChunkRoundTrip | internal/clipwire/clipwire.proto:23-29 | every chunk, valid or not, decodes from its own encoding |
| Messages.PayloadEncoding | internal/clipwire/clipwire.proto:14-21 | an encoding is the timestamp's record and then bytes that do not depend on the timestamp |
| Messages.ChunkOnTheWire | internal/clipwire/clipwire.proto:23-29 | the exact bytes of every chunk: its five fields in order, each under the tag of its number and type, empty ones left out |
| Messages.PayloadOnTheWire | internal/clipwire/clipwire.proto:14-21 | the exact bytes of every payload the marshaller accepts |
| Messages.DecodedMarshals | internal/clipwire/clipwire.proto:19 | whatever bytes arrive, a payload that decodes has a UTF-8 MIME type and can be marshalled again |
| Messages.WordsAreTruncated | internal/clipwire/clipwire.proto:16-26 | a 32-bit field takes the one number of its range that the varint is congruent to modulo 2^32 |
| Messages.SetSkipsUnknown | internal/clipwire/clipwire.proto:14-21 | a record the payload message does not know changes nothing, wherever it stands |
| Messages.SetChunkSkipsUnknown | internal/clipwire/clipwire.proto:23-29 | nor does one the chunk message does not know |
| Payloads.ValidateDecidesValidity | internal/clipwire/payload.go:78-117 | validation passes exactly on payloads of an acceptable kind, size and MIME type whose size field and hash match the data |
| Payloads.PayloadRefusedExactly | internal/clipwire/payload.go:78-117 | each refusal is given exactly when its check is the first to fail |
| Payloads.NewPayloadMakesValidPayloads | internal/clipwire/payload.go:37-75 | construction succeeds on exactly the acceptable content, and a payload is valid with given fields exactly when construction with those makes it |
| Payloads.ContentRefusedExactly | internal/clipwire/payload.go:37-75 | each refusal of content is given exactly when its check is the first to fail |
| Payloads.ValidPayloadMarshals | internal/clipwire/chunking.go:35-38 | the marshal error of a valid payload cannot happen, and its encoding decodes to it |
| Payloads.EncodingLength | internal/clipwire/payload.go:14-16 | a valid payload's encoding is non-empty, at most 69 bytes longer than the content, and at most 20,000,069 bytes |
| Chunking.PieceCountExactly | internal/clipwire/chunking.go:40 | the chunk count is the length divided by the chunk size, rounded up, exactly when the sum does not overflow; otherwise it is zero or negative |
| Chunking.ChunkPayload | internal/clipwire/chunking.go:27-56 | the loop yields the specified outcome: an error, the chunks in order, an empty list or a panic |
| Chunking.PiecesRejoin | internal/clipwire/chunking.go:42-53 | the pieces in order join to the encoding: nothing lost, repeated or reordered |
| Reassembly.Reassembler.Add | internal/clipwire/chunking.go:79-141 | the table and the answer are those of the value function the theorems are about, on every path |
| Reassembly.ChunkRefusedExactly | internal/clipwire/chunking.go:143-166 | validation passes exactly the well-formed chunks and names the first thing wrong with any other |
| Reassembly.ChunkMeetsTransfer | internal/clipwire/chunking.go:87-109 | a well-formed chunk is refused exactly for other metadata or other data under its number, ignored exactly as a repetition, and otherwise stored |
| Reassembly.FullWhenCounted | internal/clipwire/chunking.go:111-113 | pigeonhole: as many sequence numbers below n as n are all of them |
| Reassembly.CountedMeansComplete | internal/clipwire/chunking.go:119-126 | once the count is reached every piece is there, so the missing-piece exit is never taken, and the joined length is the sum of the stored lengths |
| Reassembly.CheckCompleteOk | internal/clipwire/chunking.go:111-140 | a transfer stays in the table exactly while it has fewer pieces than its total |
| Reassembly.AddToTransferKeepsInvariant | internal/clipwire/chunking.go:87-113 | a transfer in flight keeps keys below its total, between one and total-1 non-empty pieces and a counter equal to the stored bytes modulo 2^64; an answer "incomplete" leaves it in the table |
| Reassembly.AddChunkKeepsTable | internal/clipwire/chunking.go:79-141 | every chunk, valid or not, keeps that invariant for the whole table |
| Reassembly.RefusedChangesNothing | internal/clipwire/chunking.go:80-105 | a chunk refused by validation, metadata or conflict changes nothing, and no chunk touches another id's transfer |
| Streams.RunKeepsTable | internal/clipwire/chunking.go:79-141 | the table invariant holds after any stream |
| Streams.StreamProjection | internal/clipwire/chunking.go:87-105 | on any stream the shared reassembler behaves, per transfer id, as one reassembler fed only that id's chunks |
| Streams.InterleavingIsIrrelevant | internal/clipwire/chunking.go:87-127 | two streams with the same chunks per id in the same order leave the same table and the same answers per id |
| Streams.FirstWriterHistory | internal/clipwire/chunking.go:100-109 | in every reachable state each stored piece is the first of its sequence number since the transfer last entered the table, and nothing seen since is missing |
| Streams.DeliveredIntegrity | internal/clipwire/chunking.go:79-141 | whatever the stream, a delivered payload is valid, hashes to its transfer id, and decodes from the first pieces since the transfer opened, in order, which add up to the declared size modulo 2^64; the transfer is gone |
| Streams.EndsExactly | internal/clipwire/chunking.go:111-140 | every last missing chunk takes its transfer out of the table, and the answer is the right one for the pieces in order: a size error exactly when they do not add up to the declared size, then undecodable, invalid, hashing to another id, or delivered |
| Streams.DeliveredInFull | internal/clipwire/chunking.go:114-117 | with pieces within the default frame limit a delivery adds up to exactly the declared size |
| Streams.ReceivedBytesExact | internal/clipwire/chunking.go:109 | under the default frame limit the counter is the true sum of the stored lengths: it never wraps |
| Transfers.Collecting | internal/clipwire/chunking.go:88-113 | until the last missing sequence number arrives a transfer holds exactly the pieces seen and answers without completing, also when late copies conflict |
| Transfers.DeliveryInAnyOrder | internal/clipwire/chunking.go:79-141 | all chunks in any order, with repeats before completion and any other transfers in between: "incomplete" without error up to the last missing chunk, which delivers the original payload and removes the entry |
| Transfers.SentAndReceivedExactly | internal/clipwire/chunking.go:27-56 | a payload gets through exactly when it is valid, the chunk size is positive and the sum in the count does not overflow; otherwise no chunk is sent |
| Transfers.OutcomeExactly | internal/clipwire/chunking.go:27-41 | for a valid payload: the size error exactly for a size below one, chunks exactly while the sum fits, a panic exactly while the wrapped sum is at least one chunk size below zero, otherwise an empty list |
| Transfers.FirstOverflowPanics | internal/clipwire/chunking.go:40-41 | counterexample: the smallest chunk size that overflows makes every valid payload panic |
| Transfers.HugeChunkSizeSendsNothing | internal/clipwire/chunking.go:40 | counterexample: with the largest chunk size every valid payload becomes an empty list without an error |
| Transfers.SameCopyChunks | internal/clipwire/chunking.go:42-53 | two copies of one content at times of equal encoded length agree in every chunk but the first, and there exactly when the times agree |
| Transfers.ResumedTransfer | internal/clipwire/chunking.go:88-127 | after a cut broadcast and a later full one of the same content: exactly one delivery, with the last chunk, of the payload sent first; the second chunk 0 is refused unless the times agree |
| Frames.FramesFit | internal/clipwire/payload.go:14-16 | a valid payload makes at most 20,000,069 bytes and at most twenty frames, each within the default frame limit |
| Frames.DataFitsFrame | internal/app/runtime.go:260-264 | a decoded chunk's data is never longer than its frame |
| Frames.HandedOverById | internal/app/runtime.go:259-282 | what the clipboard is handed with one hash is what the transfer of that id completes |
| Frames.CountersAreExact | internal/netmesh/manager.go:44 | with frames up to the default limit no byte counter wraps, whatever the frames contain |
| Delivery.EndToEnd | internal/app/runtime.go:240-282 | every frame of a valid payload at least once, in any order, among any foreign or broken frames: the clipboard is handed that payload exactly once, with the last missing frame, and nothing before |
| Delivery.CutAndRepeated | internal/app/runtime.go:246-273 | the first frames of a copy and later all frames of the same copy, among any foreign frames: exactly one payload is handed over, the one sent first |
| Amplification.HandOversNeedFirstFrames | internal/clipwire/chunking.go:87-140 | whatever frames arrive, repeated, cut, resumed or made up: with one hash no more payloads are handed over than first-chunk frames of that id came in, one fewer while such a chunk still waits |
| Amplification.ReceiveNeverAmplifies | internal/app/runtime.go:259-278 | each frame, over all transfers together: a payload handed over uses up a first piece held or just received |
| Ledger.PendingLedger.Prune | internal/osclip/pending.go:87-93 | the loop removes exactly the expired entries |
| Ledger.PendingLedger.Remember | internal/osclip/pending.go:33-44 | the entries become those of the value function: expired ones gone, this key's count one higher with a new expiry |
| Ledger.PendingLedger.Consume | internal/osclip/pending.go:46-66 | entries and answer are those of the value function: a hit takes one from a live count |
| Ledger.PendingLedger.Forget | internal/osclip/pending.go:68-85 | takes one from the count, live or not, without looking at the clock |
| Ledger.RememberThenForget | internal/osclip/pending.go:33-85 | restores keys and counts; restores the entries exactly when the key was not live or had the same expiry |
| Ledger.ExpiryIsLatest | internal/osclip/pending.go:41-43 | every entry expires one ttl after its key's latest remembering |
| Ledger.LazyRefinesEager | internal/osclip/pending.go:33-93 | with a clock that never runs back, the lazily pruned ledger holds at every time the counts of one whose keys die exactly at their expiry; no stored count is below one |
| Ledger.ConsumeAnswersEagerly | internal/osclip/pending.go:46-66 | `consume` says yes exactly when the eager ledger has the key alive |
| Ledger.RemembersAreConserved | internal/osclip/pending.go:33-93 | per key, remembered = suppressed + effectively forgotten + expired + current count, on every run |
| Clipboard.ClipboardManager.ApplyRemote | internal/osclip/manager.go:130-156 | remembers before it writes, forgets if the write fails, writes the normalized bytes, and does neither on a refusal |
| Clipboard.ClipboardManager.Watch | internal/osclip/manager.go:164-188 | a nil report changes nothing; another is passed on exactly when the ledger does not know it |
| Clipboard.AdmitsExactly | internal/osclip/manager.go:137-144 | a payload is refused before it touches the ledger exactly when it is missing, invalid or an undecodable JPEG |
| Clipboard.WritesExactly | internal/osclip/manager.go:271-304 | what is written: a text or URL as its own bytes, a PNG as its own bytes, a JPEG as the PNG made of it, each under its native format |
| Clipboard.ChangeCrossesNodes | internal/osclip/manager.go:223-304 | a payload built from an observed change is admitted at every node, which writes the same bytes under the same format and knows them by the same key |
| Clipboard.ApplyEndsExactly | internal/osclip/manager.go:130-156 | each of the four ends of an application has its exact condition and its exact effect on the ledger |
| Clipboard.AppliedWriteIsIgnoredOnce | internal/osclip/manager.go:146-153 | an applied write adds one suppression of its bytes within the ledger's time, a failed one adds none, whatever the ledger held |
| Coalescing.ProcessWindow | internal/osclip/manager.go:194-235 | collecting into a map keyed by format and then emitting gives the specified emissions of the window |
| Coalescing.ProcessObserved | internal/osclip/manager.go:191-237 | the outer loop gives the specified emissions of the whole run |
| Coalescing.BuildDescribes | internal/osclip/manager.go:223-234 | a payload built from a change is valid and exists exactly when the content is acceptable; it has the change's data, the kind URL exactly for a web URL, the MIME type of a PNG exactly for an image, and the clock reading of its own format |
| Coalescing.RunEmitsInOrder | internal/osclip/manager.go:191-237 | on every run emissions describe observed changes (data, kind, MIME type and the reading of their own window), in window order, text before image within a window |
| Coalescing.FormatIsSubsequence | internal/osclip/manager.go:213-217 | the emissions of one format keep the order of the observed changes of that format |
| Coalescing.NothingElseIsLost | internal/osclip/manager.go:213-234 | a change is emitted exactly when no later one of its format shares its window and its content is acceptable |
| Echo.EmissionsAreAccounted | internal/osclip/manager.go:146-187 | on every run, with clock readings reaching the ledger in any order within the skew, and for every content: emissions are at most the user's copies plus one per report or failure later than the ledger's time less the skew |
| Copies.NoCopyIsSwallowed | internal/osclip/manager.go:164-217 | and not too few: on every run each change the user made waits for its report, got lost before it, waits for its window's end, came to it, or is offset by one remembered remote write of the same content |
| EchoFree.EchoFreedom | internal/osclip/manager.go:172-187 | within the delay and skew the ledger's time covers, a node emits each content at most as often as its user copied it: received copies are never sent on |
| EchoFree.EchoFreeExactly | internal/osclip/manager.go:146-187 | the condition is exact: every run within delay `d` is free of echoes if and only if `d` plus twice the skew is at most the ledger's time (or nothing remote is ever reported) |
| EchoFree.LateReportEscapes | internal/osclip/pending.go:50-56 | counterexample: a report one ledger time after its remembering is emitted, with no copy made and every reading used at once |
| EchoFree.StaleRememberEscapes | internal/osclip/manager.go:147-148 | counterexample: two readings reach the lock in the other order, the older pulls the expiry back, and a report in time of its own write is emitted |
| EchoFree.OvertakenReportEscapes | internal/osclip/manager.go:173 | counterexample: a report read in time asks after another operation, read later, has dropped the entry, and is emitted |
| EchoFree.SlowFailureEscapes | internal/osclip/manager.go:150-153 | counterexample: a failed write as slow as the ledger's time takes back a later write's entry, and that one's immediate echo is emitted |
| Mesh.RunPaid | internal/app/runtime.go:182-282 | in a mesh of N nodes exchanging frames, the first-chunk frames under way, the first pieces held and the payloads handed to clipboards together number at most N-1 per emission |
| Mesh.AppliedIsBounded | internal/app/runtime.go:259-282 | no clipboard storm: payloads ever handed to a clipboard are at most N-1 for every copy, late report and slow failure anywhere, whatever frames are lost, cut or reordered |
| Mesh.MeshEmissionsAreAccounted | internal/app/runtime.go:182-282 | the one-node account holds for every node of the mesh, for every behaviour of the network |
| Mesh.PromptMeshIsQuiet | internal/app/runtime.go:182-282 | under the one-node condition on delay and skew, no node of the mesh sends on what it received, and at most N-1 payloads are handed to a clipboard per copy made by a user |
| Inboxes.EachNodeRuns | internal/app/runtime.go:182-282 | every run of a mesh is, at each node, a run of that node alone, so whatever holds of one node holds of each |
| Inboxes.NothingHandedOverIsLost | internal/app/runtime.go:259-282 | on every run of a mesh each node's reassembler holds what the frames that reached it make, and each payload they complete waits to be applied or has begun to be, exactly once |
| Inboxes.PublishedExactly | internal/app/runtime.go:240-257 | after a window exactly every frame of every payload it emits is put on the wire, for exactly the nodes that frame reaches |
| Inboxes.FramesAreConserved | internal/app/runtime.go:240-257 | on every run what was emitted is under way, delivered or dropped: no frame appears or disappears by itself |
| Inboxes.DeliveredInTheMesh | internal/app/runtime.go:240-282 | end to end between nodes of a mesh: when every frame of a valid payload has reached a node, in any order among all others, that payload is the one with its hash that waits there or is being applied |
| Peers.OneDials | internal/netmesh/manager.go:619-621 | of two different nodes exactly one dials, and none dials itself |
| Peers.TheSmallerDials | internal/netmesh/manager.go:619-621 | a node dials exactly when its id comes first in byte order: smaller at the first difference, or a proper beginning of the other |
| Peers.EndsPreferTheSame | internal/netmesh/manager.go:623-628 | each end compares only its own directions, and both prefer a link exactly when the smaller id dialled it |
| Peers.AnnouncementReadsBack | internal/netmesh/discovery.go:163-174 | the record reads back as the last announcement, dialling uses exactly what it said, and the connection part is untouched |
| Peers.OfferChangesExactly | internal/netmesh/manager.go:440-472 | what an offer changes: a name that was given, and exactly if accepted the slot, connected and the backoff |
| Peers.PreparingChangesExactly | internal/netmesh/discovery.go:217-229 | a dial that any of the seven checks refuses leaves the record as it was, backoff included; one that passes them all changes the backoff alone, by one bump |
| Peers.EndChangesExactly | internal/netmesh/manager.go:474-489 | the end of a connection empties the slot exactly if it held it, and asks for a reconnect exactly if moreover the peer is discovered and this node dials it |
| Peers.PruningForgets | internal/netmesh/discovery.go:144-153 | a stale peer keeps its name and its connection part and nothing it announced; any other is untouched |
| Peers.ManagedConn.Enqueue | internal/netmesh/connection.go:112-129 | appends the frame or changes nothing; each refusal has its reason, and a full queue is reported only when full |
| Peers.ManagedConn.Close | internal/netmesh/connection.go:189-198 | afterwards the connection counts as ended, whether or not it did before; its queue is untouched |
| Peers.PeerState.TriggerReconnect | internal/netmesh/connection.go:52-57 | afterwards a token is buffered, whether or not one was before |
| Peers.PeerState.ResetBackoff | internal/netmesh/connection.go:59-63 | clears the backoff and nothing else |
| Peers.PeerState.BumpBackoff | internal/netmesh/connection.go:65-76 | stores and returns the next backoff, wrapping as a 64-bit duration does |
| Peers.PeerState.PrepareDial | internal/netmesh/discovery.go:217-229 | goes ahead exactly when both guards pass, and only then changes the backoff |
| Peers.PeerState.AttachConnection | internal/netmesh/manager.go:433-472 | the new record, whether the connection was accepted, and which one gives way: whenever the slot's connection is replaced, it is the one named for closing, and otherwise none is |
| Peers.PeerState.HandleConnectionClosed | internal/netmesh/manager.go:474-489 | clears the slot only for the connection that holds it, and asks for a reconnect exactly when it did and this node dials a discovered peer |
| Peers.PeerState.Announce | internal/netmesh/discovery.go:164-174 | the record becomes the announced one |
| Peers.PeerState.PruneIfStale | internal/netmesh/discovery.go:144-153 | a record is wiped exactly when discovered and not heard of for too long |
| Peers.PeerState.EnsureDialLoop | internal/netmesh/manager.go:374-385 | true for exactly the first caller |
| Backoff.ResolvedIsConfigured | internal/netmesh/manager.go:567-575 | accepted options are positive and ordered, with a second and thirty for what is not positive and the rest kept; refused ones are exactly those whose minimum in force exceeds the maximum in force |
| Backoff.ClosedFormExactly | internal/netmesh/connection.go:65-76 | the n-th backoff is min(max, min*2^(n-1)) for every n exactly when twice the maximum fits 64 bits; otherwise some backoff is negative |
| Backoff.JitterBounds | internal/netmesh/discovery.go:364-373 | the wait lies between half the base and the base, and is the base itself for a base of 1 and zero below |
| Backoff.JitterIsSpread | internal/netmesh/discovery.go:364-373 | every wait from half the base to just below twice that half is drawn, each by exactly one random number |
| Backoff.NthWait | internal/netmesh/discovery.go:192-203 | the n-th wait since a reset lies in the half-open range from half of the closed form to the closed form |
| Discovery.ParseText | internal/netmesh/discovery.go:289-320 | the map-filling loop accepts exactly the acceptable records, reading each key's last value, and every other record gets the complaint of the first check it fails |
| Discovery.WellFormedExactly | internal/netmesh/discovery.go:289-297 | an entry is well formed exactly when it is a non-empty key without an equals sign, an equals sign and any value |
| Discovery.AdvertisedIsUnderstood | internal/netmesh/discovery.go:247-320 | every node reads back what a node advertises, whatever characters id and name hold, exactly when trimming leaves them usable |
| Discovery.NormalizeAddresses | internal/netmesh/discovery.go:322-338 | only given, specified addresses, no two printing alike, and every usable one represented |
| Discovery.PeerFromEntry | internal/netmesh/discovery.go:256-287 | yields a peer exactly for acceptable entries, everything read from the entry, and every peer it yields can be dialled; every other entry gets the complaint of the first check it fails |
| Discovery.HostExactly | internal/netmesh/discovery.go:273-276 | the host is the host name without one closing dot, and the instance name exactly where nothing is left |
| Manager.HeardKeepsTable | internal/netmesh/discovery.go:163-179 | hearing of a peer keeps: the local id is not in the table, discovered exactly when dialable, connected exactly when the slot is taken |
| Manager.HearingWakesTheDialer | internal/netmesh/discovery.go:163-179 | after an announcement its peer's record is the announced one; exactly the dialling node gets a token and a started loop for it, and may dial exactly if the slot is empty; its connection and every other peer are untouched |
| Manager.PruningKeepsTable | internal/netmesh/discovery.go:135-155 | so does pruning, which makes every stale peer undiscovered and leaves every other peer, and every slot, as it was |
| Manager.AdmittingKeepsTable | internal/netmesh/manager.go:393-420 | so does entering an inbound peer that passed the header checks |
| Manager.ConnectionsKeepView | internal/netmesh/manager.go:433-489 | so do offering a connection to the slot, its end, and a prepared dial |
| Manager.Manager.GetOrCreatePeer | internal/netmesh/manager.go:357-372 | returns the peer filed under the id, entering a blank one only if there is none |
| Manager.Manager.HandleServiceEntry | internal/netmesh/discovery.go:157-180 | an acceptable entry of another node files what is read from it under that peer, wakes it and changes no other; any other entry, the node's own included, changes nothing |
| Manager.Manager.PruneStalePeers | internal/netmesh/discovery.go:135-155 | the loop prunes every peer and keeps the table's invariant |
| Manager.Manager.HandleWebSocket | internal/netmesh/manager.go:387-431 | a refused request changes nothing; otherwise a connection is offered, closed again exactly if refused, and any connection that thereby leaves a slot is the one named as superseded; the table's invariant stays |
| Manager.RefusesExactly | internal/netmesh/manager.go:387-418 | each of the five refusals is the answer exactly when its check is the first to fail |
| Manager.Manager.Broadcast | internal/netmesh/manager.go:240-264 | an oversized frame goes to nobody; another is appended for every connected peer except those reported as failed, each of them connected and with a reason true of its connection |
| PeerLink.StepKeepsSlot | internal/netmesh/manager.go:445-489 | every step keeps the slot invariant: connected exactly when taken, its connection started and running, every other one on its way out |
| PeerLink.StepKeepsLoops | internal/netmesh/manager.go:374-385 | every step keeps one dial loop per set flag, started or about to be |
| PeerLink.StepKeepsDiscovery | internal/netmesh/discovery.go:135-180 | every step keeps discovered exactly when dialable, and a discovered peer of the dialling node has its loop or someone about to start it |
| PeerLink.StepKeepsBackoff | internal/netmesh/discovery.go:192-213 | every step keeps the backoff equal to the number of bumps since the last reset applied in turn |
| PeerLink.StepLosesNothing | internal/netmesh/discovery.go:176-215 | every step keeps: whoever should dial is awake |
| PeerRuns.NoLostReconnect | internal/netmesh/discovery.go:176-215 | after every run, if this node should dial, a token is buffered, a trigger or a loop start is pending, or the loop is attempting |
| PeerRuns.WantedDialIsNear | internal/netmesh/discovery.go:182-215 | and at most five of the node's own steps, no event from outside among them, lead from there into a dial |
| PeerRuns.OwnStepsSettle | internal/netmesh/discovery.go:182-215 | however a node's own steps are scheduled there are only so many of them, and where none is left to take a wanted dial is under way: no busy loop, no sleep through a wanted dial |
| PeerRuns.OnlyTheSmallerIdDials | internal/netmesh/discovery.go:176-179 | whatever is announced and whatever ends, the node with the larger id never starts a loop, buffers a token or asks for a reconnect |
| PeerRuns.WakesHaveReasons | internal/netmesh/connection.go:52-57 | on every run each trigger has one of three reasons, and each waking by the channel uses up one trigger |
| PeerRuns.SlotInvariant | internal/netmesh/manager.go:445-489 | after every run connected says whether the slot is taken, its connection runs, and a started connection outside it is closing or closed |
| PeerRuns.OnlyTheSlotStaysOpen | internal/netmesh/connection.go:131-198 | after every run each connection outside the slot is closed or one step of the node away from it; on shutdown two steps close the one in the slot |
| PeerRuns.OneDialLoop | internal/netmesh/manager.go:374-385 | after every run a peer has at most one dial loop |
| PeerRuns.SecondGuardNeverRefuses | internal/netmesh/discovery.go:221-226 | after every run the second guard passes whenever the first does |
| PeerRuns.BackoffOnEveryRun | internal/netmesh/discovery.go:192-213 | after every run the backoff is the closed form of the dials prepared since the last reset |
| PeerRuns.HeardPeersStay | internal/netmesh/discovery.go:144-153 | a peer stays discovered through any run that prunes it in time, and the first late prune forgets it |
| PeerRuns.StaleReportKeepsSuccessor | internal/netmesh/manager.go:475-479 | the end of a connection that is not in the slot changes neither the record nor the pending triggers |
| PeerRuns.PreferredLeavesOnlyByItself | internal/netmesh/manager.go:446-462 | a preferred-direction connection keeps the slot through every run in which it does not itself end |
| PeerRuns.OutOfTheSlotForGood | internal/netmesh/manager.go:433-489 | a connection once out of the slot never holds it again |
| PeerRuns.OwnDialIsTaken | internal/netmesh/manager.go:491-533 | a dial that succeeds always gets the slot at the node that made it |
| Pair.NextKeepsOk | internal/netmesh/manager.go:433-489 | every step of two nodes with any number of sockets keeps, per end: in the slot, or refused, superseded, reported or dropped; and nothing goes down without a cause |
| Pair.SettledEndsAgree | internal/netmesh/manager.go:433-489 | in every settled state the two slots agree, hold the only live socket if there is one, and every other socket is closed at both ends |
| Pair.Settles | internal/netmesh/connection.go:131-198 | once no more sockets open or break, every run of offers, closes and first reports has at most six steps per socket, and no such step is left exactly when all has settled |
| TieBreak.Verdict | internal/netmesh/manager.go:445-462 | at either node the decision depends only on who dialled the two sockets |
| TieBreak.PreferredSurvives | internal/netmesh/manager.go:433-472 | for any two different ids, the only socket dialled by the smaller is never refused or superseded at either end, in any interleaving with sockets dialled by the larger; unbroken, it holds every slot it was offered to |
| DialLoop.RunIsDisciplined | internal/netmesh/discovery.go:192-201 | every run with the smaller id's dial loop in it is a run of the pair in which that node opens a socket only when none it dialled is in the making or holds its slot |
| DialLoop.OneLivePreferred | internal/netmesh/discovery.go:182-215 | on all those runs, of two sockets the smaller id dialled the earlier is down |
| DialLoop.RefusedOnlyAmongTheDead | internal/netmesh/manager.go:452-462 | and one of them is refused only while another holds the slot, one of the two being down |
| DialLoop.OwnDialsAreTaken | internal/netmesh/manager.go:529-533 | and never at the node that dialled it |
| TieBreak.UndisciplinedDialsCanCollide | internal/netmesh/manager.go:452-453 | counterexample: two dialled without waiting can refuse each other, one at each end |
| Broadcasting.RunKeepsOk | internal/netmesh/manager.go:240-264 | on every run each queue's history is consecutive stretches of the broadcasts, and each connection in its slot is up to date with the one under way |
| Prefixes.QueuesHoldPrefixes | internal/app/runtime.go:240-257 | a connection attached between broadcasts is sent exactly a prefix of each later broadcast in turn, whatever happens to it and all others |
| Prefixes.LogsAreStretches | internal/netmesh/connection.go:112-129 | a connection attached in mid-broadcast is sent a stretch of that one and then prefixes; what is queued is a tail of it that fits the queue |
| Prefixes.EveryoneIsCutAlike | internal/app/runtime.go:246-254 | when a broadcast ends at frame f, every continuously connected peer has exactly the frames before f, and f exactly unless its connection refused f; without a refusal all frames were sent, or all up to one over the frame limit |
| Prefixes.NothingOversized | internal/netmesh/manager.go:241-243 | on every run no frame over the limit is placed in any queue |
| OncePerPeer.EachPeerOnce | internal/netmesh/manager.go:245-261 | on every run, of all the connections a peer ever had at most one was given a frame of a broadcast, and once, also when the connection is replaced meanwhile |
| Prefixes.QueuesStayShort | internal/netmesh/manager.go:39 | after k broadcasts of at most m frames begun with an empty queue, at most k*m frames are queued even if none drains |
| Capacity.ThreePayloadsFit | internal/app/runtime.go:240-257 | three payloads fit an empty queue of the default length: no enqueue on it can report a full queue |
| Capacity.NoFrameIsTooLarge | internal/netmesh/manager.go:241-243 | with at least the default frame limit a broadcast of a payload starts with its first frame and ends, if no peer fails, with its last: never because of a frame's size |
| Runtime.ChunkedExactly | internal/app/runtime.go:241-244 | at the default chunk size exactly the valid payloads are cut, into frames within the limit |
| Runtime.Runtime.HandleFrame | internal/app/runtime.go:259-282 | bad frames and chunks change neither clipboard nor ledger; a completed payload is applied exactly once |
| Runtime.Runtime.ReadPump | internal/netmesh/connection.go:142-155 | the read loop hands over what the binary frames complete, in order; no frame ends it |
| Runtime.OnlyBinaryCounts | internal/netmesh/connection.go:146-149 | a message counts exactly when it is binary, wherever it arrives |
| Runtime.Runtime.BroadcastPayload | internal/app/runtime.go:240-257 | an invalid payload sends nothing and is refused for what is wrong with it; a broadcast stops only at a frame over the limit or one some connection refused for a reason true of it, each connection then having exactly the frames before it, and it too unless it refused it; with nothing cancelled, the default limit and room for every frame, everything is sent |

## Left out

- WebSocket, HTTP, mDNS, TLS and TCP: a dial, a handshake, a broken socket and a received message are steps or inputs; ping and pong deadlines are part of "broken".
- Wire.DecodeField: the deprecated group wire types are decoding errors here, while the protobuf library skips unknown groups; no encoder of this program writes them.
- Unknown fields a decoder keeps and would write out again: decoded messages are never re-encoded by the program.
- SHA-256, UTF-8 validation, URL parsing, JPEG decoding and PNG encoding: arbitrary functions, passed as `Env`.
- White-space trimming and the printing of addresses: arbitrary functions, passed as `Discovery.Library`.
- Discovery.NormalizeAddresses: the final sort is not modelled; what is proved does not depend on the order.
- `Peers`, status, peer logging, the control socket, the command line and the launchers: they read state and print it.
- Reassembly.Reassembler.Add: the per-transfer record is a value stored in the map, not a shared object; no second reference to it exists in the program.
- Clipboard.ClipboardManager.ApplyRemote: as a method it runs by itself; its clock reading and critical sections interleave with everything else in `Echo`.
- Echo: a native change reported twice, a report whose bytes differ from what was written, and a failed write that changed the clipboard all the same are not covered.
- Mesh: the queues between the nodes are frames under way in any order; that a peer gets each frame at most once is `OncePerPeer.EachPeerOnce`, not a second proof inside `Mesh`.
- PeerLink: `dialPeer` is its outcome; the addresses it tries, and a handshake answered under another id, are failed dials.
- Pair: a pump that ends for a reason of its own (a handler error, a failed write) counts as the socket breaking.
- Manager.Manager.Broadcast: as a method it runs by itself; a peer's slot changing between two peers or two frames is covered by `Broadcasting`.
- Memory held by transfers that never finish, and wall-clock progress: the code promises nothing about them.
- Shutdown: cancellation only stops dial loops and closes slots; waiting for goroutines is not modelled.
- `Send` to a single peer: the broadcast of one frame to one connection.
