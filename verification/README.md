# Proofs about the pokebot's protocols, solvers and searches

This project models the parts of the pokebot whose correctness rests on an
argument rather than on one function, and proves that argument for every input,
every run and every reachable state.

- **The PABotBase2 stack** (`adapters/pabotbase`). `Crc` is the table-driven
  CRC-32C against a bit-serial register, `CrcStandard` that register against the
  division of polynomials the standard describes; `Packets` the incremental
  parser; `WireFormat` the bytes of packets and messages place by place; `Links`
  the sliding-window link as a class over value functions, `LinkRuns` what its
  peer hears of everything it sends and sends again over its whole life;
  `SlidingWindow` and `WindowRuns` one direction of a link over channels that
  lose packets, with absolute numbers beside the 8-bit ones; `WindowDrain` how
  such a direction always comes to rest, `Duplex` both directions over shared
  wires, `ClientGate` what the client's own gate is worth; `Messages` the message
  stream; `Stack` all of them together; `CommandQueue` and `QueueRuns` the
  client's and the device's command queues.
- **The event-script compiler** (`tools/world/compile_events.py`).
  `EventConditions` decides branches, `EventCompiler` enumerates paths,
  `EventMeaning` and `EventRuns` give scripts a small-step meaning and prove the
  paths mean the same, `EventOrder` that the taken sides come first, `EventLimits`
  shows what the assumptions are for.
  `Obtain` is the obtainability fixed point of the same file.
- **The catch-odds solver** (`crates/agent/src/catch_odds.rs`). `CatchOdds` is
  the recursion and its optimality, `CatchPlays` what its numbers are, play by
  play, `CatchSolver` the memo over packed keys,
  `CatchBelief` the damage outcomes, the belief and the choice.
- **Emulator lockstep** (`adapters/emulator-libretro`): `Lockstep` is one
  emulator's half of a session, `LockstepSides` such a half by itself over any
  events, `LockstepRuns` a host and its guest through any number of connections,
  each of which the host's core may refuse.
- **The bag** (`crates/agent/src/bag.rs`): `BagSearch` and `BagAudit`, against a
  list that scrolls under the cursor in whatever way the game likes.
- **The run stamp** (`apps/pokebot-cli/src/scenario.rs`): `CivilTime`.
- **The WiFi controller** (`adapters/esp32-wifi`): `WifiLink` and `WifiFinish`.

`Bytes`, `Seqs`, `Walks` and `Wrappers` hold what several of these share.

Integers that wrap in the program wrap here (8-bit sequence numbers and command
ids, 16-bit stream offsets and script vars, 32-bit ticks and saturating frame counts, the 64-bit
cast of milliseconds). Sockets, clocks, random numbers, the screen reader and the
game are environment steps or parameters. Probabilities are real numbers.

## What turned out to be conditional

Some promises hold only under a condition. The code is modelled as it is, the
condition is proved to be exact where it says "exactly", and the lemmas named
give the inputs that break the promise without it.

- Over channels that lose packets a gate on the span from the oldest
  unacknowledged packet to the next is safe exactly up to 128
  (`WindowRuns.SpanGateIsSafeUpToTheWindow`). The client's gate counts instead,
  packets and commands, and lets cancels through: it is safe exactly when it
  allows one unacknowledged packet and a command with its cancel fits 128, or
  when no acknowledgement is ever lost, no cancel is sent and the device's queue
  of commands fits 128 packets (`ClientGate.ClientGateIsSafeIff`). An
  acknowledgement lost again and again lets commands finish past its packet, so
  the queue alone bounds nothing. Where nothing is lost it is enough that what a
  pump can overshoot by fits (`ClientGate.ClientGateIsSafeWithoutLoss`). A pump
  keeps the limit itself exactly when a command needs no more than one packet
  (`CommandQueue.PumpKeepsTheLimitOnlyForOnePacket`).
- A reset that is retransmitted carries the retransmit flag in its opcode, is
  therefore checked against the session and not the fixed seed, and is rejected
  unless the two are equal (`Packets.ResentResetIsRejected`).
- A burst of four bytes passes the check exactly when it turns a packet into or
  out of a reset and differs by the matching amount (`Packets.BurstAccepted`).
- Stream data is acknowledged whenever it is well formed, also too far ahead of
  the window to be stored, which the comment on `accept_stream` denies: outside
  the window the top bit it looks at is always set
  (`Links.TooFarAheadIsAckedToo`).
- HMs rank before TMs exactly up to number 100
  (`BagSearch.HmsComeFirstUpToAHundred`).
- A message comes back exactly when its body is at most 65531 bytes. How a
  stream is cut matters exactly when a corrupt length is complete before its
  last byte (`Messages.CutsAgreeIffSoundToTheLast`).
- A late reply from before a cancel is taken for that of a newer command exactly
  when commands may be sent 256 or more after one whose reply is still out: an
  idle client's holds have elapsed in all runs that keep a gap to such commands
  exactly when the gap is at most 256 (`QueueRuns.IdleIsSoundOnlyWithinTheIds`;
  the run that breaks a wider one, `QueueRuns.StaleReplyIsTakenForANewOne`,
  leaves no more than one message unread each way, so no gate on packets stops
  it).
- Lockstep holds for all runs of at most so many frames exactly up to one frame
  more than the 32-bit count can tell
  (`LockstepRuns.LockstepHoldsUntilCountsSaturate`). Across connections no side
  believes its peer further than it is exactly when no frame ends while the port
  already writes to a newer connection whose Connected is untaken and to which
  the peer still listens, not having turned it away
  (`LockstepRuns.SafeIffClean`, `LockstepRuns.OldCountLeaksIntoANewSession`).
- The compiler needs more than that no label is entered twice: that no lost var
  is read, that a written var is compared with its own kind of value, symbols
  for equality only and only where no other name has the same number, which the
  compiler does not know (`EventMeaning.SymbolsComparableExactly`), that a
  counted var stays within 16 bits, that a flag's jump uses EQ, NE or LT
  (`EventMeaning.FlagCodesAreThose`), and that what was compared is not written
  before the branch reads it. `EventLimits` has a script for each of these that
  no compiled path tells. A call's second jump to a shared tail is cut because
  the trail is never popped. It ends on every script in which no label calls
  itself, through however many others (`EventCompiler.RankedIffNotRecursive`).
- What is left without a reason for being unobtainable is all cyclic, as the
  last pass takes it to be, exactly when each such species has a method that
  needs a species of the table (`Obtain.AllReasonlessCircleIff`). A trade for a
  species in no table, a species without a method and one that evolves from a
  species without a method break it (`Obtain.ReasonlessWithoutACycle`,
  `Obtain.NeedingOneWithoutIsNoCircle`).
- A sleep of no actions would have the memo key of paralysis, and one of 255
  actions that of no status at the next odd number of hit points
  (`CatchSolver`); neither can be reached.
- A reading of the HP bar that some HP can give leaves the true HP in the belief
  exactly when it is within half a pixel of what the bar shows for that
  (`CatchBelief.TrueHpIsBelieved`).
- In the TM Case an item that sorts before every row of a case too long to show
  whole is looked for upwards for ever (`BagSearch.SearchEndsIff`).
- The audit takes a cursor on the first row shown for the top of the list; that
  is right exactly when the list is not scrolled there (`BagAudit`).
- Stamps sort as times do exactly up to the last second of the year 9999.
- A neutral refused just as the reconnect limit passes leaves a link that is up
  and was never neutralised; the next input goes out on it (`WifiLink`).

## Model

| member | source | states |
|---|---|---|
| Crc.BuildTable | adapters/pabotbase/src/crc.rs:6-24 | the nested loops fill the table byte by byte, eight reflected shifts each; that the shifts are those of CRC-32C is CrcStandard.BitStepDivides |
| Crc.StepIsEightShifts | adapters/pabotbase/src/crc.rs:26-30 | one table step is eight bit steps of the reflected register |
| Crc.TableCrcIsBitSerialCrc | adapters/pabotbase/src/crc.rs:6-30 | for every seed and string the table-driven CRC is the register fed one bit at a time; that this register is the standard's is CrcStandard.TableCrcIsTheStandards |
| CrcStandard.PolyIsTheGenerator | adapters/pabotbase/src/crc.rs:4 | the constant's bits are the generator of CRC-32C, mirrored |
| CrcStandard.BitStepDivides | adapters/pabotbase/src/crc.rs:6-24 | one shift of the register is one bit of dividing by the generator |
| CrcStandard.TableCrcIsTheStandards | adapters/pabotbase/src/crc.rs:4-30 | for every seed and string the CRC holds the remainder of dividing its bits, lowest first, by the generator of section 12.1 of RFC 3720, starting from the seed's; the reference shares nothing with the table |
| CrcStandard.HeldTells | adapters/pabotbase/src/crc.rs:26-30 | nothing is lost in that reading: the remainder tells the register |
| CrcStandard.CheckValue | adapters/pabotbase/src/crc.rs:36-41 | the CRC of "123456789" from a seed of ones is 0x1CF96D7C, whose complement is the published check value |
| Crc.CrcComposes | adapters/pabotbase/src/crc.rs:26-30 | the CRC of a concatenation is the CRC of the rest seeded with that of the first part |
| Crc.SeedDeterminesCrc | adapters/pabotbase/src/crc.rs:26-30 | over the same bytes, two CRCs agree exactly when their seeds do |
| Crc.BurstDifference | adapters/pabotbase/src/crc.rs:26-30 | two strings that differ in four consecutive bytes have equal CRCs exactly when the bytes differ by what the shifted seeds do |
| Packets.Parser.Reset | adapters/pabotbase/src/packet.rs:102-104 | forgets the unfinished packet |
| Packets.Parser.Push | adapters/pabotbase/src/packet.rs:106-142 | its loop returns the results and keeps the buffer that feeding the bytes one by one does |
| Packets.ParsingIgnoresChunking | adapters/pabotbase/src/packet.rs:106-142 | for every string, session and split, pushing the pieces gives the results and final buffer of pushing the whole |
| Packets.GarbageIsSkipped | adapters/pabotbase/src/packet.rs:106-142 | bytes without the magic produce nothing and leave nothing behind |
| Packets.VerifyEncoded | adapters/pabotbase/src/packet.rs:78-92 | an encoded packet verifies to itself exactly when it was sealed with the seed its opcode is checked against, and is a checksum failure otherwise |
| Packets.EncodedIsOneResult | adapters/pabotbase/src/packet.rs:106-150 | an encoded packet parses to exactly one result |
| Packets.WireParsesToItsPackets | adapters/pabotbase/src/packet.rs:78-150 | encoded packets separated by magic-free garbage parse to exactly those packets |
| Packets.ResentResetIsRejected | adapters/pabotbase/src/packet.rs:152-164 | a reset with the retransmit flag is a checksum failure unless the session equals the reset seed |
| Packets.BurstAccepted | adapters/pabotbase/src/packet.rs:152-170 | a change confined to four consecutive body bytes is a checksum failure exactly unless it makes up for the change of seed |
| Packets.BurstRejected | adapters/pabotbase/src/packet.rs:152-170 | such a change is always rejected when it keeps the packet a reset or not one |
| Packets.CorruptOpcodeCanPass | adapters/pabotbase/src/packet.rs:155-164 | a corrupted version request that verifies as a reset |
| WireFormat.PacketOnTheWire | adapters/pabotbase/src/packet.rs:1-4 | a packet's bytes are magic, number, length with 256 as 0, opcode and payload, and then, from the highest power down, the remainder of all these bits |
| Links.Link.constructor | adapters/pabotbase/src/link.rs:47-60 | a new link starts both sequence spaces and the stream at 0 |
| Links.Link.Reset | adapters/pabotbase/src/link.rs:63-66 | the same state again, keeping only the packet size |
| Links.Link.SetMaxPacketBytes | adapters/pabotbase/src/link.rs:72-74 | a size in range is kept, any other is clamped to the nearest that leaves room for a byte of stream |
| Links.Link.PushReliable | adapters/pabotbase/src/link.rs:187-199 | numbers the packet, keeps it unacknowledged with the seed it was sealed with, and returns its encoding; that what is kept can be sent again and heard is LinkRuns.EveryOperationIsHeard |
| Links.Link.SendRequest | adapters/pabotbase/src/link.rs:85-92 | a reset is sealed with the reset seed, every other request with the session |
| Links.Link.SendStream | adapters/pabotbase/src/link.rs:96-107 | the loop sends exactly the packets of the reference split, each numbered and kept |
| Links.StreamPacketsEncodable | adapters/pabotbase/src/link.rs:96-107 | every packet of a split fits the packet size |
| Links.SplitCarriesEverything | adapters/pabotbase/src/link.rs:96-112 | the payloads of a split concatenate to the data, in exactly packets_for packets |
| Links.Link.Acknowledge | adapters/pabotbase/src/link.rs:120-124 | drops exactly the packets of that number and tells whether there were any |
| Links.Link.Tick | adapters/pabotbase/src/link.rs:127-141 | resends exactly the packets due, flagged, in order, each sealed with the seed it was first sealed with, and restarts their clocks; what a peer makes of those bytes is LinkRuns.EveryOperationIsHeard |
| Links.Link.AcceptControl | adapters/pabotbase/src/link.rs:143-150 | marks the slot when it is in the window and releases what it completes |
| Links.Link.AcceptStream | adapters/pabotbase/src/link.rs:152-164 | stores a packet in the window once and tells whether to acknowledge, also when it is old |
| Links.Link.Advance | adapters/pabotbase/src/link.rs:178-185 | releases the consecutive packets from the head in order and moves the head past them |
| Links.Link.TakeStream | adapters/pabotbase/src/link.rs:166-168 | hands over what is ready and keeps nothing |
| Links.TooFarAheadIsAckedToo | adapters/pabotbase/src/link.rs:152-164 | stream data is acknowledged exactly when it has an offset, in the window or not; outside it nothing is stored |
| LinkRuns.WriteTold | adapters/pabotbase/src/link.rs:96-107 | packet k of a write carries the number and the stream place counted on from all that was sent before, both wrapped, and the k-th piece of the data |
| LinkRuns.AccountKept | adapters/pabotbase/src/link.rs:62-199 | every operation of an endpoint, new sessions and packet sizes included, keeps its state what an account of its life without wrapping says, each kept packet's seed being the one its opcode selects |
| LinkRuns.ResentIsHeard | adapters/pabotbase/src/link.rs:127-141 | the bytes of a tick parse, in the sender's session, to exactly the packets that went out two ticks before and were not acknowledged, in order, flagged and valid, but for a reset |
| LinkRuns.EveryOperationIsHeard | adapters/pabotbase/src/link.rs:62-199 | after every life of an endpoint the bytes of its next operation, parsed in its session, are exactly what the account says was sent or sent again: valid, in order, with nothing left in the parser, a resent reset apart |
| SlidingWindow.WindowIsExact | adapters/pabotbase/src/link.rs:152-177 | within 128 of the head, the 8-bit window test tells exactly whether a packet is new; outside it bit 7 of the difference is set |
| SlidingWindow.AdvanceReleases | adapters/pabotbase/src/link.rs:178-185 | releasing keeps the receiver in step with the absolute stream and leaves the head empty |
| SlidingWindow.AckHitsOwnPacket | adapters/pabotbase/src/link.rs:120-124 | an acknowledgement retires the packet it was sent for and no other |
| SlidingWindow.SendKeepsInv | adapters/pabotbase/src/link.rs:187-199 | a send within the window keeps the invariant |
| SlidingWindow.TickKeepsInv | adapters/pabotbase/src/link.rs:127-141 | retransmission keeps the invariant |
| SlidingWindow.LoseDataKeepsInv | adapters/pabotbase/src/link.rs:96-198 | losing any packet keeps it |
| SlidingWindow.LoseAckKeepsInv | adapters/pabotbase/src/link.rs:96-198 | losing any acknowledgement keeps it |
| SlidingWindow.DeliverKeepsInv | adapters/pabotbase/src/link.rs:152-185 | delivery, of a new or an old packet, keeps it |
| SlidingWindow.AckKeepsInv | adapters/pabotbase/src/link.rs:120-124 | an acknowledgement, fresh or late, keeps it |
| SlidingWindow.StepKeepsInv | adapters/pabotbase/src/link.rs:84-198 | every step of sender, channels and receiver keeps the invariant |
| SlidingWindow.InvIsSafe | adapters/pabotbase/src/link.rs:84-198 | under the invariant the released bytes are a prefix of those sent, every retired packet was received and no number is mistaken for another |
| WindowRuns.RunKeepsInv | adapters/pabotbase/src/link.rs:84-198 | so does every run that respects the gate |
| WindowRuns.AllAckedIsAllDelivered | adapters/pabotbase/src/link.rs:84-198 | with nothing unacknowledged, everything sent was released |
| WindowRuns.SpanGateIsSafeUpToTheWindow | adapters/pabotbase/src/link.rs:84-198 | every run under a gate on the span is safe exactly when the gate is at most 128 |
| WindowRuns.StepStaysContiguous | adapters/pabotbase/src/link.rs:96-198 | over channels that lose nothing, unacknowledged packets stay consecutive |
| WindowDrain.ThreeTicks | adapters/pabotbase/src/link.rs:127-141 | three ticks put every unacknowledged packet, or its acknowledgement, under way |
| WindowDrain.EverythingCanArrive | adapters/pabotbase/src/link.rs:84-198 | whatever a run has lost, it can go on without sending or losing until nothing is unacknowledged and every byte sent was released |
| Duplex.MoveKeeps | adapters/pabotbase/src/link.rs:84-198 | every move of two links over shared wires is a step of one direction and keeps both, each wire carrying one side's packets and its acknowledgements of the other's in order |
| Duplex.BothDirectionsAreSafe | adapters/pabotbase/src/link.rs:84-198 | both directions are safe in every run over the two wires, whatever they lose |
| ClientGate.ClientGateIsSafeIff | adapters/pabotbase/src/client.rs:435-452 | over losing channels every run under the client's gate is safe exactly when one packet may be unacknowledged and a command with its cancel fits the window, or no acknowledgement is lost, no cancel sent and the queue of commands fits it |
| ClientGate.UnsoundRun | adapters/pabotbase/src/client.rs:343-352 | for every other gate a run in which a packet stays lost while the queue or cancels let commands through, or its acknowledgement does while commands finish |
| ClientGate.ClientGateIsSafeWithoutLoss | adapters/pabotbase/src/client.rs:435-452 | where nothing is lost the span is the count and the gate is safe when the limit, less one, with a command and its cancel fits the window |
| Messages.MessageReader.Push | adapters/pabotbase/src/message.rs:75-97 | its loop returns the messages and keeps the buffer of the reference reading |
| Messages.MessageReader.Reset | adapters/pabotbase/src/message.rs:98-100 | forgets what is unread |
| Messages.ReadingIgnoresChunking | adapters/pabotbase/src/message.rs:75-97 | on streams without a corrupt length, any split reads the same messages and keeps the same rest |
| Messages.CutsAgreeIffSoundToTheLast | adapters/pabotbase/src/message.rs:75-97 | every cut of a stream reads alike exactly when no corrupt length is complete before its last byte |
| Messages.CorruptLengthMakesChunkingMatter | adapters/pabotbase/src/message.rs:83-87 | one such stream: a corrupt length drops a message that came in the same piece but not in the next |
| Messages.MessagesRoundTrip | adapters/pabotbase/src/message.rs:59-97 | encoded messages read back as the same list, with an unfinished rest kept |
| Messages.MessageComesBackIffItFits | adapters/pabotbase/src/message.rs:59-66 | one message comes back exactly when its body is at most 65531 bytes |
| Messages.PrefixReadsPrefix | adapters/pabotbase/src/message.rs:75-97 | a prefix of the stream reads a prefix of the messages |
| WireFormat.MessageOnTheWire | adapters/pabotbase/src/message.rs:1-2 | a message that fits is its length, low byte first and itself included, then opcode, id and body |
| Stack.ArriveInAnyOrder | adapters/pabotbase/src/link.rs:152-185 | packets within the window may arrive in any order and repeatedly |
| Stack.OneWriteArrives | adapters/pabotbase/src/link.rs:96-185 | the packets of one write, in any order and with repeats, release exactly its data |
| Stack.WholeStackRoundTrip | adapters/pabotbase/src/message.rs:59-97 | messages encoded, split, sealed, parsed, received in any order inside a window and read in any pieces come out as the same list |
| Stack.RunReadsTheMessages | adapters/pabotbase/src/link.rs:84-198 | in every safe run over losing channels the reader has a prefix of the messages, and all of them once nothing is unacknowledged |
| Stack.EveryMessageCanBeRead | adapters/pabotbase/src/message.rs:75-97 | from wherever a run has come it can go on without loss until the reader has all the messages written |
| CommandQueue.PumpSendsInOrder | adapters/pabotbase/src/client.rs:435-452 | a pump sends the first holds in order under consecutive wrapping ids |
| CommandQueue.PumpFills | adapters/pabotbase/src/client.rs:435-452 | never more than the capacity is in flight, and a pump stops only for want of room, acknowledgements or holds, or at an id still in flight |
| CommandQueue.PumpOvershootsByLessThanACommand | adapters/pabotbase/src/client.rs:436-450 | a pump exceeds the packet limit by less than what one command needs |
| CommandQueue.PumpKeepsTheLimitOnlyForOnePacket | adapters/pabotbase/src/client.rs:436-450 | every pump keeps the limit it began within exactly when a command needs at most one packet |
| CommandQueue.Client.Pump | adapters/pabotbase/src/client.rs:435-452 | the loop sends what the reference pump does, ends in its state, a write that fails ending it with its command counted as in flight |
| CommandQueue.Client.Enqueue | adapters/pabotbase/src/client.rs:358-367 | the chunks of an input hold its buttons, carry all its milliseconds and are full but for the last |
| CommandQueue.MillisAreTheFewest | adapters/pabotbase/src/client.rs:361 | an input's milliseconds are the fewest that last as long, as 64 bits |
| CommandQueue.Client.Neutral | adapters/pabotbase/src/client.rs:343-357 | forgets local holds and ids in flight, and sends a cancel exactly when some were |
| CommandQueue.Client.OnReply | adapters/pabotbase/src/client.rs:551-560 | removes exactly the reply's id |
| CommandQueue.Device.OnMessage | adapters/pabotbase/src/device.rs:222-246 | a cancel drops queue and sink, a command is held behind the others, after a cancel when one was asked for on the next |
| CommandQueue.ReplacingIsCancellingLater | adapters/pabotbase/src/device.rs:222-246 | over any messages, asking to replace on the next command leaves queue and sink as a cancel right before the next command that can be held does |
| CommandQueue.Device.Poll | adapters/pabotbase/src/device.rs:84-97 | reports exactly the commands at the front whose holds have elapsed, in order |
| QueueRuns.IssueIsTheClients | adapters/pabotbase/src/client.rs:436-450 | the machine sends exactly when a round of the client's pump would, and as it does, while the link allows |
| QueueRuns.DeliverIsTheDevices | adapters/pabotbase/src/device.rs:222-246 | the machine's delivery is the device's |
| QueueRuns.ReportIsTheDevices | adapters/pabotbase/src/device.rs:84-97 | the machine's report is one round of the device's poll |
| QueueRuns.IdsOfConsecutive | adapters/pabotbase/src/client.rs:437-450 | up to 256 consecutive commands have distinct ids |
| QueueRuns.StepKeeps | adapters/pabotbase/src/client.rs:334-452 | every step of client, channels, device and sink keeps conservation and the numbering |
| QueueRuns.RunKeeps | adapters/pabotbase/src/client.rs:334-452 | so does every run in which each command is sent less than 256 after any whose reply from before a cancel is still out |
| QueueRuns.IdleIsSound | adapters/pabotbase/src/client.rs:376-382 | in such runs the ids in flight are distinct and at most the capacity, and an idle client's holds since the last neutral have all elapsed in the sink in order |
| QueueRuns.IdleIsSoundOnlyWithinTheIds | adapters/pabotbase/src/client.rs:376-382 | over all runs that keep a gap and leave at most some number of messages unread each way, one or more, an idle client's holds have all elapsed exactly when the gap is at most 256 |
| QueueRuns.BetweenCancelsIsUnambiguous | adapters/pabotbase/src/client.rs:435-452 | a run without a neutral keeps any gap |
| QueueRuns.ConservedBetweenCancels | adapters/pabotbase/src/client.rs:358-382 | between cancels the holds in the sink, on the way and local are everything queued, in order and in milliseconds |
| QueueRuns.StaleReplyIsTakenForANewOne | adapters/pabotbase/src/client.rs:551-560 | for every wider gap a run from the start, with never more than one message unread each way, in which a late reply makes the client idle with a hold in the device not elapsed |
| QueueRuns.IdleCanBeReached | adapters/pabotbase/src/client.rs:334-452 | from every state of such runs one without a neutral leads to an idle client with everything queued elapsed |
| EventConditions.NegationIsExact | tools/world/compile_events.py:317-331 | a negated condition holds exactly where the condition does not |
| EventConditions.VarBounds | tools/world/compile_events.py:359-386 | no bounds are returned exactly when no integer from -2^31 to 2^31 meets every comparison; otherwise exactly the values that meet them, ends included |
| EventConditions.CheckConsistent | tools/world/compile_events.py:389-402 | tells whether the condition contradicts the path: the opposite flag test, or comparisons no value meets |
| EventConditions.TrueIsConsistent | tools/world/compile_events.py:389-402 | a condition that holds is never pruned |
| EventConditions.CoherentIsFeasible | tools/world/compile_events.py:389-402 | conditions that were each consistent when added hold together in some state |
| EventCompiler.RankedIffNotRecursive | tools/world/compile_events.py:590-603 | labels can be ranked below their callers exactly when none calls itself through any chain |
| EventCompiler.JumpUsesUpALabel | tools/world/compile_events.py:581-588 | a goto that is followed leaves fewer labels outside the trail |
| EventCompiler.CallWork | tools/world/compile_events.py:590-595 | an inlined call leaves less to do before the next goto, when calls have no cycle |
| EventCompiler.ReturnWork | tools/world/compile_events.py:597-603 | and so does a return |
| EventCompiler.PathsNonEmpty | tools/world/compile_events.py:528-537 | every script has a path |
| EventCompiler.Compiler.Compile | tools/world/compile_events.py:528-537 | a missing entry is told; otherwise the paths are the enumeration's first 512, truncated exactly when there are more; what the enumeration means, its notes included, is EventRuns.EveryRegularRunIsCompiled |
| EventCompiler.Compiler.Emit | tools/world/compile_events.py:539-543 | adds one path, or marks the list truncated when full |
| EventCompiler.Compiler.Branch | tools/world/compile_events.py:545-579 | emits the paths of the taken side and goes on with the other, as the condition is decided, pruned or open |
| EventCompiler.Compiler.Follow | tools/world/compile_events.py:581-595 | a goto goes on at a new label and is cut at one in the trail, a call pushes its return, and a missing label is noted as what it is with how it was to be reached; that a run which stops there has that note is EventRuns.EveryRegularRunIsCompiled |
| EventCompiler.Compiler.Ret | tools/world/compile_events.py:597-603 | a return goes on at the caller, or ends the path |
| EventCompiler.Compiler.Run | tools/world/compile_events.py:628-718 | from any command and state it produces exactly the enumeration's paths |
| EventMeaning.PlainDescribes | tools/world/compile_events.py:706-829 | straight-line commands keep the path state a description of the run |
| EventMeaning.TestedIsTheTest | tools/world/compile_events.py:668-705 | the condition read off a readable branch is what the machine tests |
| EventMeaning.FlagCodesAreThose | tools/world/compile_events.py:691-705 | a checked flag is read as the register says exactly for EQ, NE and LT |
| EventMeaning.SymbolsComparableExactly | tools/world/compile_events.py:346-355 | for symbols the condition is exact: the compiler, going by names, is right just where the numbers tell them apart |
| EventMeaning.DecidedIsRight | tools/world/compile_events.py:334-356 | for any numbers of the constants, a readable condition decided from the path is decided rightly, and an undecided one holds as it did at the start |
| EventMeaning.RunHasPath | tools/world/compile_events.py:628-718 | for any numbers of the constants, a regular run from any described state is told by an enumerated path whose notes are those it had and exactly what the run leaves untold |
| EventMeaning.PathsAreExclusive | tools/world/compile_events.py:545-579 | no initial state meets the conditions of two paths without opaque notes |
| EventMeaning.StopsAreThose | tools/world/compile_events.py:581-603 | a run that is over stops at an end, a return with no caller, the end of a label or a label no script defines, and the last is among what it leaves untold, by name |
| EventMeaning.CompiledPathsMeanTheRun | tools/world/compile_events.py:545-718 | a finished regular run has a path with its effects whose notes are exactly the tests the compiler could not read and the missing label; a path without notes that holds tells only a run that leaves nothing untold |
| EventMeaning.EveryPathIsFeasible | tools/world/compile_events.py:389-402 | every enumerated path of a numeric script is taken from some initial state's point of view: its conditions hold together |
| EventMeaning.CompileWhole | tools/world/compile_events.py:528-543 | the compiler returns the whole enumeration, or its first 512 paths and says so |
| EventRuns.RegularRunEnds | tools/world/compile_events.py:581-603 | a run that enters no label twice by goto ends |
| EventRuns.EveryRegularRunIsCompiled | tools/world/compile_events.py:545-718 | every such run, from every initial state and for any numbers of the constants, is told by an emitted path whose conditions held at the start, whose effects are exactly the run's and whose notes name the missing label it stopped at, if it did; every path without notes whose conditions held tells it too, and then it stopped at an end, a return with no caller or the end of a label |
| EventOrder.TakenSideIsFirst | tools/world/compile_events.py:545-579 | of two regular runs that part at a branch the one that jumps is told by an earlier path, so a list cut off keeps the taken sides |
| EventLimits.LostVarBreaksMeaning | tools/world/compile_events.py:811-829 | a script that tests a var whose value the path lost: no path tells its run |
| EventLimits.WrittenSinceComparedBreaksMeaning | tools/world/compile_events.py:668-705 | a var or flag written between its comparison and the branch: no compiled path tells the run |
| EventLimits.MisreadBranchBreaksMeaning | tools/world/compile_events.py:668-705 | a written var compared with another kind of value, a written symbol compared for order, or a flag read with GE: no compiled path tells the run |
| EventLimits.SharedNumberBreaksMeaning | tools/world/compile_events.py:346-355 | a var set to one constant and compared with another of the same number: no compiled path tells the run |
| EventLimits.CountingPastTheLimitBreaksMeaning | tools/world/compile_events.py:811-829 | a var counted past 16 bits and compared: no compiled path tells the run |
| EventLimits.SharedTailIsCut | tools/world/compile_events.py:581-586 | a script that calls twice a routine with a goto: no path tells its run |
| Obtain.ComputeObtainable | tools/world/compile_events.py:1478-1486 | the in-place loop ends with exactly the species that have a finite derivation |
| Obtain.ClosedHasAll | tools/world/compile_events.py:1478-1486 | any set that a pass adds nothing to holds every derivable species: the result is the least fixed point |
| Obtain.SameAnswer | tools/world/compile_events.py:1478-1486 | the order of the table does not matter |
| Obtain.UsableIsBySource | tools/world/compile_events.py:1425-1435 | a method is usable exactly when it is not barred and needs nothing, or one of its sources is there |
| Obtain.Gather | tools/world/compile_events.py:1505-1515 | a species' turn adds what its methods give, though it reads the reasons it writes |
| Obtain.Explain | tools/world/compile_events.py:1489-1515 | the reasons loop ends at its least fixed point: exactly the reasons with a finite explanation |
| Obtain.FinishReasons | tools/world/compile_events.py:1516-1518 | every unobtainable species ends with a reason |
| Obtain.ReasonlessIsCircular | tools/world/compile_events.py:1516-1518 | a species left without one has only methods whose sources are left without one too, or are in no table |
| Obtain.ReasonlessGoesOnIff | tools/world/compile_events.py:1516-1518 | a species left without a reason needs another such species exactly when one of its methods needs a species of the table |
| Obtain.PassingOnForEverIsACircle | tools/world/compile_events.py:1516-1518 | such a species leads on to others without end exactly when it leads into a circle of them |
| Obtain.AllReasonlessCircleIff | tools/world/compile_events.py:1516-1518 | all such species lead into circles exactly when each has a method that needs a species of the table |
| Obtain.ReasonlessWithoutACycle | tools/world/compile_events.py:1516-1518 | tables that leave a species without a reason though nothing is cyclic: a trade for a species in no table, and no method |
| Obtain.NeedingOneWithoutIsNoCircle | tools/world/compile_events.py:1516-1518 | a table in which one species alone meets that condition and leads into no circle |
| CatchOdds.BestIsLawful | crates/agent/src/catch_odds.rs:237-333 | at every state the chances are nonnegative and sum to at most 1, the value is P(catch) less the weight of P(lead faints), and no more balls are expected thrown than held |
| CatchOdds.QLawful | crates/agent/src/catch_odds.rs:256-321 | every possible choice keeps those laws |
| CatchOdds.MoreBallsAreWorthNoLess | crates/agent/src/catch_odds.rs:237-333 | the value never falls as balls rise |
| CatchOdds.BestOfIsBest | crates/agent/src/catch_odds.rs:245-250 | nothing possible beats the fold's result, which is giving up or the first of the choices worth as much |
| CatchOdds.NoPolicyBeatsBest | crates/agent/src/catch_odds.rs:237-333 | no policy, whatever it makes of what it has seen, is worth more from any state |
| CatchOdds.GreedyAttainsBest | crates/agent/src/catch_odds.rs:237-333 | the policy that plays the solver's choices has exactly the solver's outlook |
| CatchPlays.PlaysAreThose | crates/agent/src/catch_odds.rs:256-333 | the plays listed are exactly the courses an attempt can take: at each turn a draw luck has there, its chance written out, until one ends it |
| CatchPlays.FollowIsItsPlays | crates/agent/src/catch_odds.rs:237-333 | following any policy, P(catch), P(foe faints) and P(lead faints) are the summed chances of the plays that end so, the balls are what plays throw on average, the value is the catches less the weighted faints, and all chances sum to 1 |
| CatchPlays.BestIsWorthTheBestPlays | crates/agent/src/catch_odds.rs:237-333 | the solver's outlook is that of the plays of the policy it plays, and no policy's plays are worth more |
| CatchSolver.KeyIsSum | crates/agent/src/catch_odds.rs:198-205 | the bitwise or of the shifted fields is their sum, for fields in range |
| CatchSolver.KeysCollideOnlyOnAsleepZero | crates/agent/src/catch_odds.rs:198-205 | two packed keys are the same exactly when all fields are, but for paralysis and a sleep of no actions |
| CatchSolver.LongestSleepSpills | crates/agent/src/catch_odds.rs:198-205 | out of range, a sleep of 255 actions has the key of no status at the same hit points when they are odd, else at one more |
| CatchSolver.KeyIsInjective | crates/agent/src/catch_odds.rs:198-205 | on the statuses an attempt can reach keys are injective |
| CatchSolver.ReachableStays | crates/agent/src/catch_odds.rs:166-173 | a sleep never counts down to none |
| CatchSolver.Solver.Solve | crates/agent/src/catch_odds.rs:237-253 | the memoised recursion returns what the plain one does and keeps the memo right; what that is worth is CatchPlays.BestIsWorthTheBestPlays |
| CatchSolver.Solver.Choose | crates/agent/src/catch_odds.rs:256-321 | its loops over outcomes and sleep lengths return the plain outlook of each choice |
| CatchSolver.Solver.FoeMoves | crates/agent/src/catch_odds.rs:324-333 | the foe's turn, then the next, as the plain recursion has it; what it means is CatchPlays.FollowIsItsPlays |
| CatchBelief.AddOutcome | crates/agent/src/catch_odds.rs:493-496 | adds a chance to its damage and to no other, without a duplicate entry |
| CatchBelief.Outcomes | crates/agent/src/catch_odds.rs:490-506 | the damages are distinct, their chances sum to 1, and of 256 parts of a hit each has fifteen for every normal roll that deals it and one for every critical roll, and the miss deals none |
| CatchBelief.UnitsAreTheNearest | crates/agent/src/catch_odds.rs:497 | damage in units is rounded to the nearest, up from halfway |
| CatchBelief.BarHps | crates/agent/src/catch_odds.rs:510-519 | some HP is always believed |
| CatchBelief.BarHpsAreAlive | crates/agent/src/catch_odds.rs:510-519 | every HP believed is between 1 and the maximum |
| CatchBelief.PixelsAreWholeShares | crates/agent/src/catch_odds.rs:511 | an HP fills one of 48 pixels for each whole share of the maximum, and at least one |
| CatchBelief.TrueHpIsBelieved | crates/agent/src/catch_odds.rs:510-519 | a reading some HP can give leaves the true HP in the belief exactly when it is within half a pixel of its bar, or past it at an end; any other reading believes one HP, its share of the maximum |
| CatchBelief.SleepersSleepOn | crates/agent/src/catch_odds.rs:522-539 | a sleeping foe is believed to sleep on for what is left of one to four actions, or for one |
| CatchBelief.Believe | crates/agent/src/catch_odds.rs:349-386 | the nested loops list the scenarios' HPs and statuses in order with their weights |
| CatchBelief.WeightsSumToOne | crates/agent/src/catch_odds.rs:379 | the weights sum to 1 |
| CatchBelief.EntriesWeighAlike | crates/agent/src/catch_odds.rs:379 | an entry weighs one part in scenarios times HPs times statuses |
| CatchBelief.UnitsCoverTheHp | crates/agent/src/catch_odds.rs:382 | HP in units is rounded up |
| CatchBelief.BelievedExactly | crates/agent/src/catch_odds.rs:378-385 | believed are each scenario at each HP the bar allows and each status, and nothing else |
| CatchBelief.BeliefIsValid | crates/agent/src/catch_odds.rs:378-385 | the believed statuses can all be reached and are all none or all some |
| CatchBelief.AverageIsLawful | crates/agent/src/catch_odds.rs:398-405 | the averaged outlook keeps the laws of an outlook |
| CatchBelief.Weigh | crates/agent/src/catch_odds.rs:398-405 | the loop averages a choice over the belief and tells whether it is possible throughout |
| CatchBelief.Decide | crates/agent/src/catch_odds.rs:388-414 | no possible choice, nor RUN, is worth more than 1e-9 above the decision; its outlook is its choice's average, and every earlier choice is worth less |
| CatchBelief.AverageIsAnUpperBound | crates/agent/src/catch_odds.rs:398-405 | a choice's average bounds every policy that starts with it |
| CatchBelief.ImpossibleIsNowherePossible | crates/agent/src/catch_odds.rs:398-405 | over such a belief a choice is possible throughout or nowhere |
| CatchBelief.NoBlindPolicyBeatsTheDecision | crates/agent/src/catch_odds.rs:388-414 | no policy whatever that starts alike in all scenarios is worth more than 1e-9 above the decision |
| Lockstep.HostSession.Dispatch | adapters/emulator-libretro/src/host.rs:270-326 | what each event does to the session, a host's core answering for each player; what that comes to over any events is LockstepSides.ConnectedIffUp and CountsSinceUp |
| Lockstep.HostSession.Drain | adapters/emulator-libretro/src/host.rs:259-268 | takes every event that has arrived, in order, without waiting |
| Lockstep.HostSession.LinkBeforeFrame | adapters/emulator-libretro/src/host.rs:199-240 | takes every event that has arrived and then waits while ahead, in order; it gives up only when none came in time |
| Lockstep.HostSession.LinkAfterFrame | adapters/emulator-libretro/src/host.rs:243-253 | counts the frame when connected and reports that count |
| LockstepSides.ConnectedIffUp | adapters/emulator-libretro/src/host.rs:270-326 | over any events, answers, frames and stalls a side is connected exactly while a connection lasts that came up, a host's only if its core accepted; a guest's core runs a session exactly then, a host's always |
| LockstepSides.CountsSinceUp | adapters/emulator-libretro/src/host.rs:243-305 | since then it has counted its frames, as far as 32 bits go, and knows the last report |
| LockstepSides.StalledUntilTheCountMoves | adapters/emulator-libretro/src/host.rs:204-232 | once it has given up waiting it runs free, any number of frames, until it hears another count, and is then held again while ahead |
| LockstepSides.HeldWhileAhead | adapters/emulator-libretro/src/host.rs:204-212 | one that has not given up is held exactly while ahead of what it has heard |
| LockstepRuns.TakingConnects | adapters/emulator-libretro/src/host.rs:278-297 | a guest that takes a Connected is connected, its core's session with it; a host exactly if its core accepts, and else it writes no more |
| LockstepRuns.RunKeepsRoles | adapters/emulator-libretro/src/host.rs:167-176 | in every run the host's core session stays started and the guest's lasts as long as it is connected |
| LockstepRuns.StepKeeps | adapters/emulator-libretro/src/host.rs:199-326 | every clean step of host and guest, their ports and the wires keeps what is known of the peer, through new connections, accepted or refused, and with events taken inside frames |
| LockstepRuns.ReportsNeverLead | adapters/emulator-libretro/src/host.rs:278-305 | in every clean run, stalls or not, no side believes its peer further in their connection than it is |
| LockstepRuns.SafeIffClean | adapters/emulator-libretro/src/link_port.rs:242-247 | a run is safe from that, whatever is delivered and the host's core answers, exactly when no frame ends between a new writer and its untaken Connected while the peer still listens |
| LockstepRuns.LockstepHolds | adapters/emulator-libretro/src/host.rs:199-253 | in every clean run without a stall, whatever the host's core answers, the counts of each connection differ by at most a frame until the slower one saturates |
| LockstepRuns.LockstepHoldsUntilCountsSaturate | adapters/emulator-libretro/src/host.rs:243-253 | such runs of at most n frames a side keep within a frame exactly for n up to the largest count and one |
| LockstepRuns.DeliveryEnds | adapters/emulator-libretro/src/link_port.rs:242-260 | reading and taking what is under way comes to an end |
| LockstepRuns.SlowerSideIsFree | adapters/emulator-libretro/src/host.rs:204-212 | with everything delivered the side that is not ahead is not held |
| LockstepRuns.NeverDeadlocks | adapters/emulator-libretro/src/host.rs:199-240 | in every clean run, with a connection up, some delivery or frame is possible, and a frame once everything is delivered |
| LockstepRuns.SaturatedRunsAlone | adapters/emulator-libretro/src/host.rs:243-253 | a run from the start to saturated counts, after which one side runs two frames alone |
| LockstepRuns.OldCountLeaksIntoANewSession | adapters/emulator-libretro/src/link_port.rs:242-243 | a run from the start in which a frame ended between the new writer and its Connected reports the old count to the new peer |
| BagSearch.SpanOfSorted | crates/agent/src/bag.rs:169-185 | in a sorted case the first row shown ranks least and the last greatest |
| BagSearch.RankIsTheOrder | crates/agent/src/bag.rs:169-216 | of machines there are and CANCEL, ranks tell the case's order: HMs by number, TMs by number, CANCEL |
| BagSearch.HmsComeFirstUpToAHundred | crates/agent/src/bag.rs:208-216 | an HM ranks before all TMs exactly up to number 100 |
| BagSearch.SortedIsInOrder | crates/agent/src/bag.rs:169-185 | rows of such machines are sorted by rank exactly when they are in that order |
| BagSearch.CaseDecisionIsRight | crates/agent/src/bag.rs:160-185 | in the TM Case it presses A on the item only, and fails only when the item is absent |
| BagSearch.PlainDecisionIsRight | crates/agent/src/bag.rs:186-204 | so it does in other pockets |
| BagSearch.MovesToTheItem | crates/agent/src/bag.rs:136-156 | with the item on screen each press is one row closer and the item stays on screen |
| BagSearch.ComesDown | crates/agent/src/bag.rs:190-203 | after the top, each Down sees one row more |
| BagSearch.PressMakesProgress | crates/agent/src/bag.rs:99-204 | every press of a search that can end makes progress |
| BagSearch.SearchEnds | crates/agent/src/bag.rs:99-204 | from any scroll and cursor and however the game scrolls, it ends on the item when it is there and fails only when it is not |
| BagSearch.HopelessNeverEnds | crates/agent/src/bag.rs:169-178 | looking by rank for what would sort first in a long case presses Up for ever |
| BagSearch.SearchEndsIff | crates/agent/src/bag.rs:99-204 | a fresh search ends exactly when it is not that |
| BagSearch.ScrollAtEdgesIsLegal | crates/agent/src/bag.rs:136-156 | a list that scrolls only at its edges is one of the games meant |
| BagAudit.MergeRows | crates/agent/src/bag.rs:687-691 | the loop adds the rows not seen before, in order |
| BagAudit.MergeExtends | crates/agent/src/bag.rs:687-691 | merging overlapping views extends the rows without gap or repeat |
| BagAudit.AuditReadsThePocket | crates/agent/src/bag.rs:637-714 | where the cursor reaches the first row only at the top, the audit observes exactly the pocket's items in order |
| BagAudit.ScrollInTheMiddleKeepsTop | crates/agent/src/bag.rs:665-674 | a list that keeps the cursor in the middle while it scrolls is such a game |
| BagAudit.ScrollAtEdgesDoesNotKeepTop | crates/agent/src/bag.rs:665-674 | one that scrolls only at its edges is not |
| BagAudit.TopRowMustBeTheTop | crates/agent/src/bag.rs:665-674 | begun with the cursor on the first row shown, it reads the whole pocket exactly when the list is not scrolled |
| CivilTime.DaysNeverFallBack | apps/pokebot-cli/src/scenario.rs:133-135 | the cast of the days never falls back for any 64-bit time |
| CivilTime.YearOfEraIsRight | apps/pokebot-cli/src/scenario.rs:136-139 | the year formula finds the year of every day of a 400-year era |
| CivilTime.CivilStarts | apps/pokebot-cli/src/scenario.rs:132-143 | the first day is 1970-01-01 |
| CivilTime.CivilCounts | apps/pokebot-cli/src/scenario.rs:132-143 | every day is a valid date of the Gregorian calendar (section 3.2.1 of ISO 8601:2004) and the next day is the next date |
| CivilTime.CountingInverts | apps/pokebot-cli/src/scenario.rs:132-143 | counting the days to a date gives back the number it came from |
| CivilTime.CivilInverts | apps/pokebot-cli/src/scenario.rs:132-143 | every date from 1970 on is the civil date of its number |
| CivilTime.StampIsTwoNumbers | apps/pokebot-cli/src/scenario.rs:144-149 | up to the year 9999 a stamp is sixteen characters |
| CivilTime.StampsSortUpToYear9999 | apps/pokebot-cli/src/scenario.rs:132-150 | stamps up to a time sort as their times do exactly when it is in the year 9999 or before |
| WifiLink.Client.WriteLine | adapters/esp32-wifi/src/lib.rs:258-268 | a line that goes out whole is logged under a new number; one that does not marks the link lost |
| WifiLink.Client.RequestNeutral | adapters/esp32-wifi/src/lib.rs:236-250 | a neutral that is not accepted leaves the link lost, or up when it was refused |
| WifiLink.Client.EnsureConnected | adapters/esp32-wifi/src/lib.rs:175-228 | the loop reopens until a neutral is accepted or the time is over |
| WifiLink.Client.Send | adapters/esp32-wifi/src/lib.rs:393-435 | the request loop repeats only what never left or may be repeated |
| WifiLink.OutcomeTellsTheLastRound | adapters/esp32-wifi/src/lib.rs:393-435 | done exactly by the round whose line went out and was accepted last, rejected by one refused, done by inference by a timed one unanswered; no earlier round sent a line that was answered or may not be repeated |
| WifiLink.TimedInputIsWrittenAtMostOnce | adapters/esp32-wifi/src/lib.rs:393-435 | through every run of failures and reconnects one timed input is written at most once, and exactly once unless the device was unreachable |
| WifiLink.RequestKeepsClean | adapters/esp32-wifi/src/lib.rs:175-228 | a request leaves every link neutralised first exactly when it did not give up on a refused neutral |
| WifiLink.NeutralComesFirst | adapters/esp32-wifi/src/lib.rs:175-250 | in every session without that, an accepted neutral precedes everything else on a reopened link |
| WifiLink.RefusedNeutralIsForgotten | adapters/esp32-wifi/src/lib.rs:190-217 | after it, the next input goes out on a link never neutralised |
| WifiFinish.Bookings.Book | adapters/esp32-wifi/src/lib.rs:340-345 | a command is due a grace after the queue it joins has played |
| WifiFinish.Bookings.AcceptedNeutral | adapters/esp32-wifi/src/lib.rs:302-322 | a neutral drops the queue and is due a grace from now, unless already finished |
| WifiFinish.Bookings.OnFinished | adapters/esp32-wifi/src/lib.rs:537-539 | the device's word removes its command and no other |
| WifiFinish.Bookings.Fail | adapters/esp32-wifi/src/lib.rs:500-506 | the link is down since the first failure after the device was last heard |
| WifiFinish.Bookings.Hear | adapters/esp32-wifi/src/lib.rs:524-545 | whatever the device says ends the time it was down; an error it reports fails the connection all the same |
| WifiFinish.Bookings.IsIdle | adapters/esp32-wifi/src/lib.rs:437-467 | infers exactly what is due, never before its play has ended a grace ago; fails exactly when a broken connection has been down for the limit, all of it in silence; else it is idle once everything accepted and the grace have passed |
| WifiFinish.PlayEndGrows | adapters/esp32-wifi/src/lib.rs:340-345 | a queue never ends earlier for what is added |
| WifiFinish.PlayEndIsWhenNothingIsLeft | adapters/esp32-wifi/src/lib.rs:340-345 | the queue has played out just when a device that plays without a pause has nothing left |

## Left out

- Parsing inside a link, sockets, serial ports, threads and their locks: channels and clocks are steps.
- Links.Link: keeps pending packets as values and seals them when they are written; the original stores the unsealed bytes. A control packet and a stream packet go through the same window; the reset itself is a fresh start of both ends.
- SlidingWindow.StepKeepsInv: models one direction; Duplex.MoveKeeps puts two on shared wires.
- ClientGate.ClientGateIsSafeIff: all commands take as many packets, and so do all cancels; a reply from before a cancel that is read late is not modelled there. Requests with replies wait on a count of their own (client.rs:317-328), which is left out.
- ClientGate.ClientGateIsSafeWithoutLoss: says when the gate is safe, not that any wider one fails. Channels stay in order, as a serial line does; reordering channels are not modelled.
- WindowDrain.EverythingCanArrive: a continuation exists; that the channels let it happen is theirs to grant.
- CommandQueue.Client: the link is the count of its unacknowledged packets; requests with replies, logs and the handshake are left out.
- CommandQueue.Device.OnMessage: whether a command decodes is an input, since button maps are finite tables; other messages, resets and the stream-ready flag are left out.
- QueueRuns.IdleIsSound: the streams below deliver in order; a lost packet is the link's business.
- EventCompiler.Compiler: models end, return, goto, call, their conditional forms, compare, checkflag, set and clear, setvar, addvar, subvar and say. Path states are values that a fork copies. Operands that name another var, copyvar, switch and case, typed quantities, VAR_RESULT sources, yes/no boxes, specials, movement and trainer battles are left out, as is all reading of source files.
- EventMeaning.TestedIsTheTest: vars keep 16 bits, but the operands of comparisons are taken as they are written.
- EventRuns.EveryRegularRunIsCompiled: is about untruncated enumeration; EventMeaning.CompileWhole tells when that is.
- CatchOdds.BestIsLawful: the catch formula, damage rolls and hazards are given chances; float rounding is not modelled.
- CatchSolver.Key: hit points are unbounded, where the key has 32 bits for them and so does their type; the hasher is left out.
- CatchBelief.Decide: takes the scenarios' games as given; which moves become choices and how stats become damage is left out.
- LockstepRuns.LockstepHolds: stalls are excluded there and allowed in ReportsNeverLead. The byte records, the hello, unplugging the cable and what the core does with packets are left out.
- BagSearch.SearchEnds: rows read exactly and presses are never dropped; the USE prompt comes after. The search state is a value that each call returns, where the original updates it in place.
- BagAudit.AuditReadsThePocket: confirmed readings only; counts, retries, settling, the Start menu and closing are left out.
- CivilTime: formats numbers only; the file store and the commit stamp are left out.
- WifiLink.NeutralComesFirst: a try at reopening has one of five outcomes and the time limit is the end of the list of tries; a write that fails is taken not to have left the host, as the original assumes.
- WifiFinish.Bookings: one connection's bookings; reopening starts an empty one that takes over how long the device has been down, so what was outstanding is dropped and not inferred.
- Obtain.Explain: the tables it reads are given; reading them from the game's data is left out.
- Perception, world model, planner, executor, fleet, viewer, shiny hunting, battle heuristics, asset extraction and command line: mostly tables, text and process plumbing, which would add easy members.
