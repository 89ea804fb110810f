# Verified model of the auto-battler game server

The server seats eight players in a room and alternates ready, battle and creep stages. In a battle,
pairs of avatars activate six relics each per cycle until one of them is at zero HP or ten cycles are
over. This project models the parts of the server that keep state, in Dafny, and proves what they
keep. Sockets, threads, logging and sleeping are outside; every random draw, shuffle and departure of
a player is an arbitrary value, so the results hold for all of them.

| files | what they model |
|---|---|
| `Framing.dfy`, `PacketConstruct.dfy` | size-prefixed frames in a byte stream, and the receive loop that rebuilds them from arbitrary chunks |
| `Packets.dfy`, `PacketContents.dfy`, `Batches.dfy` | packed packet layouts, why equal bytes are equal packets, and the batches a room sends in one piece |
| `MemoryStream.dfy`, `ByteGrowth.dfy` | the growing byte stream, and how much its growth moves in 32-bit arithmetic |
| `Bits.dfy`, `BitStream.dfy`, `BitGrowth.dfy` | the bit stream: unaligned writes and reads, and exactly which runs of writes its 32-bit doubling can hold |
| `Matching.dfy`, `BattleManager.dfy`, `Room.dfy` | opponent matching by least meetings, the pairwise histories, and the roster of a room |
| `Fairness.dfy`, `Repeats.dfy`, `Pairings.dfy` | what rounds of matching add up to, when a round repeats a pair, and why every matching is fit for a battle |
| `ServerQueue.dfy` | the linked matchmaking queue as a first-in-first-out line |
| `Items.dfy`, `BattleStats.dfy`, `Avatar.dfy` | the relics as short programs of calls, the numbers of a fighter, and the avatar object they change in place |
| `BattleRules.dfy`, `BattleLaws.dfy` | a pair of fighters as a machine that takes one move at a time, what whole runs of it keep, and what each call and move comes to in numbers |
| `BattleStage.dfy`, `StageLoops.dfy` | the stage loops over all pairs up to the last bell, proved to be runs of that machine on the schedule their draws give |
| `Entrance.dfy`, `Creeps.dfy`, `CreepEntrance.dfy` | how an opponent list becomes a battle and a party a creep stage, and how both go on |
| `Draws.dfy` | weighted draws, activation orders, ticket tiers |
| `InventorySpec.dfy`, `Client.dfy` | the client: health, tickets, sixteen inventory slots and their handlers |
| `Basics.dfy` | shared constants and the concatenation of a sequence of sequences |

Objects of the source that are updated in place are classes here, with the same fields and methods. A
method is proved against a function of the old state; the lemmas are about those functions, about runs
of events, or about the loops. Relic code is a sequence of calls (`Items.Program`) that one
interpreter performs on the avatars, so that a statement about every call reaches every relic.

## What the code does that its words do not say

* The repository's README (line 65) promises opponents that do not overlap. A round repeats a pair if
  and only if its shuffled queue is stuck: as pair after pair is taken off it, at some point the player in
  front has met everybody still waiting (`Repeats.Stuck`, `Repeats.RoundRepeats`,
  and on the battle manager's own records `Repeats.SelectionRepeats`). With eight fresh players it can
  happen in the second round, whatever the attack states and coins (`Repeats.EightCanRepeat` gives
  the run). With four players every three rounds are a complete round robin
  (`Fairness.FourPlayerFairness`).
* The receive loop reads both bytes of a size field even when a chunk ended after the first one.
  Whether a call still delivers the right packets is decided by the stale byte it reads:
  `PacketConstruct.CallExact` gives the condition, in both directions, for every buffer and chunk,
  `PacketConstruct.RunExact` for whole runs of calls; `PacketConstruct.HalfSizeMisread` is a concrete
  failure.
* Doubling a 32-bit bit capacity wraps above 12000 * 2^18 bits. A run of writes below 2^32 bits finds
  all its bytes inside the buffer if and only if every write that ends above that limit starts and
  ends at a whole byte (`BitGrowth.CallsExact`); a full stream of that size and one more bit is a run
  that misses it (`BitGrowth.WrappingRunFails`). The bits moved by growing stay below twice the head
  up to one byte past the limit and no longer (`BitGrowth.MovedExact`, `BitGrowth.MovingBreaks`).
* The byte stream holds what is written at any head below 2^32, but once doubling has wrapped each
  write copies the whole buffer. Growing has moved less than twice the bytes written while doubling
  wrapped at most once, and for streams of packets exactly then (`ByteGrowth.PacketsBounded`); a full
  buffer of 2^31 bytes and two writes of one byte break it (`ByteGrowth.TwoMoreBytes`,
  `ByteGrowth.BoundBreaks`).
* Making a creep raises the room's counter, and rewards are looked up afterwards: who beats a creep is
  paid for the next one. That is the same reward exactly for the first two creeps and the last
  (`Creeps.PaidForTheNext`).
* A fight against a ghost is not recorded in any history (`Matching.RecordsAfterRound` counts pairs of
  real opponents only).
* A new relic keeps the upgrade number of the slot it lands in, so adding is worth exactly one if and
  only if that number is zero (`InventorySpec.AddWeight`); in every reachable inventory it is
  (`InventorySpec.StepKeepsGood`).
* The combination handler does not return outside the ready stage and does not ask for three different
  slots; the model does the same, and `InventorySpec.CombineWeight` counts each emptied slot once.
* A ticket is spent even when no slot is free for what it gives (`Clients.Client.UseItemTicket`).

## Model

| member | source | states |
|---|---|---|
| Framing.SplitSound | Server/Server/Server.cpp:275-324 | cutting a stream into frames loses and reorders nothing; every piece is as long as its size field says, the rest is an incomplete frame |
| Framing.SplitUnique | Server/Server/Server.cpp:292-315 | packets written back to back, followed by an incomplete one, can be cut in only one way |
| Framing.SplitResume | Server/Server/Server.cpp:284-322 | the kept tail and the next bytes give the same frames as the whole stream |
| PacketConstruct.FromBoundary | Server/Server/Server.cpp:292-323 | a call that starts at a packet boundary hands on exactly the frames of its chunk and keeps exactly the tail |
| PacketConstruct.CallExact | Server/Server/Server.cpp:275-324 | any call delivers exactly the frames of tail plus chunk, and keeps exactly the new tail, if and only if the stale byte behind a half-received size field does no harm |
| PacketConstruct.RunExact | Server/Server/Server.cpp:275-324 | over any run of chunks, after every single call the packets handed on are the frames of what has arrived and the buffer holds the incomplete tail, if and only if no call of the run is harmed by a stale byte |
| PacketConstruct.ChunkingDoesNotMatter | Server/Server/Server.cpp:275-324 | over such a run the packets handed on are the frames of the concatenated stream in order, and the buffer holds the incomplete tail |
| PacketConstruct.WholeSizesHarmless | Server/Server/Server.cpp:295-303 | a run none of whose chunks ends inside a size field is never harmed |
| PacketConstruct.HalfSizeMisread | Server/Server/Server.cpp:295-303 | a chunk ending one byte into a packet makes the next call take the wrong size |
| PacketConstruct.Connection.PacketConstruct | Server/Server/Server.cpp:275-324 | the receive loop on the persistent buffer and `mPrevSize` delivers the frames of tail plus chunk and keeps the new tail, for chunks up to the whole receive buffer; every copy stays inside the buffers and the loop ends |
| PacketConstruct.Connection.Rebuild | Server/Server/Server.cpp:292-323 | the loop itself computes `Call`, wherever that neither reads nor copies outside the buffers |
| Packets.FieldRoundTrip | Server/Server/PacketStruct.h:126-142 | a little-endian field of any width gives its value back |
| Packets.FieldsRoundTrip | Server/Server/PacketStruct.h:124-140 | laying the packed structure over the written bytes shows every field as written, whatever follows |
| Packets.WritesDeclaredSize | Server/Server/PacketStruct.h:126-856 | each of the 26 packet layouts is written with exactly the bytes its packed structure declares (three of them, cs_StartMatching, cs_sc_ChangeItemSlot and cs_sc_UseEmoticon, are written by clients only) |
| Packets.EncodeIsFrame | Server/Server/PacketStruct.h:126-142 | a written packet is a frame: its first two bytes are its length |
| Packets.BatchRoundTrip | Server/Server/Server.cpp:843-857 | any batch of packets written back to back is cut into exactly these packets by the receive rule |
| Packets.PacketRoundTrip | Server/Server/PacketStruct.h:126-142 | header and fields of a packet survive encoding and reading |
| PacketContents.EqualEncodings | Server/Server/PacketStruct.h:126-856 | packets whose values fit their fields and whose bytes are equal are the same packet |
| Packets.WritePacket | Server/Server/PacketStruct.h:131-135 | writing a packet to the growing stream appends its encoding |
| Batches.BatchBytes | Server/Server/Server.cpp:843-857 | a batch is as long as the declared sizes of its packets together |
| Batches.ReadyFits | Server/Server/Room.cpp:509-544 | the ready-stage batch of at most eight clients takes at most 463 bytes |
| Batches.EntranceFits | Server/Server/Room.cpp:642-687 | entering a battle or creep stage takes at most 1024 bytes |
| Batches.ReadyEndFits | Server/Server/Room.cpp:567-590 | the batch at the end of the ready stage takes at most 408 bytes |
| Batches.ResetFits | Server/Server/Room.cpp:736-757 | the slot resets of a cycle take at most 128 bytes |
| Batches.OneTicket | Server/Server/Room.cpp:1298-1353 | the checks of one move write one ticket packet at most |
| Batches.RoundFits | Server/Server/Room.cpp:763-852 | a half round of battle or creep stage takes at most 732 bytes, whatever the fights it reports |
| Batches.CycleFits | Server/Server/Room.cpp:1003-1066 | the end of a cycle takes at most 664 bytes |
| Batches.GoodbyesFit | Server/Server/Room.cpp:1072-1106 | the goodbyes after the bell take at most 64 bytes |
| Batches.BatchArrives | Server/Server/Server.cpp:843-857 | such a batch fits the 1300-byte send buffer and arrives as its packets |
| MemoryStream.OutputMemoryStream.ReallocBuffer | Server-Library/Source/MemoryStream.cpp:3-9 | growing keeps what was written and moves the old capacity once |
| MemoryStream.OutputMemoryStream.Write | Server-Library/Source/MemoryStream.cpp:11-26 | appends the bytes at any head below 2^32; capacity and moved bytes are those of `ByteGrowth.Step` |
| MemoryStream.InputMemoryStream.Read | Server-Library/Source/MemoryStream.cpp:29-42 | hands out the next bytes and leaves the rest |
| MemoryStream.WriteAll | Server-Library/Source/MemoryStream.cpp:11-26 | a run of writes appends everything in order; capacity and moved bytes are those of `ByteGrowth.Run` |
| MemoryStream.ReadAll | Server-Library/Source/MemoryStream.cpp:29-42 | reading with the counts of the items gives the items and stops behind them |
| MemoryStream.RoundTrip | Server-Library/Source/MemoryStream.cpp:3-42 | what is written item by item to an output stream is read back from an input stream over its bytes, at any total below 2^32 |
| ByteGrowth.StepBounded | Server-Library/Source/MemoryStream.cpp:3-26 | after a write growing has moved less than twice what was written if and only if doubling had not wrapped before or little enough had been moved |
| ByteGrowth.RunBounded | Server-Library/Source/MemoryStream.cpp:3-26 | over any run below 2^32 bytes the bound holds while doubling has wrapped at most once, and never again after it has wrapped four times; up to 2^31 bytes it does not wrap |
| ByteGrowth.NoWrap | Server-Library/Source/MemoryStream.cpp:13-19 | up to 2^31 bytes doubling never wraps |
| ByteGrowth.PacketsBounded | Server-Library/Source/MemoryStream.cpp:3-26 | for writes of at most 2048 bytes the bound holds if and only if doubling has wrapped at most once |
| ByteGrowth.TwoMoreBytes | Server-Library/Source/MemoryStream.cpp:13-19 | after 2^31 bytes two writes of one byte keep the bound only if at most two bytes had been moved |
| ByteGrowth.BoundBreaks | Server-Library/Source/MemoryStream.cpp:13-19 | three writes to a fresh stream break the bound |
| BitStream.MergeBit | Server-Library/Source/MemoryBitStream.cpp:13-30 | one byte write keeps the bits below the offset and sets those above from the data, whatever garbage was there |
| BitStream.ExtractBit | Server-Library/Source/MemoryBitStream.cpp:86-104 | one byte read assembles exactly the requested bits of two bytes and zeros above |
| BitGrowth.FitsExact | Server-Library/Source/MemoryBitStream.cpp:6-11 | after the 32-bit wrapping of doubling a write finds all its bytes if and only if it fits, doubling does not wrap, or it ends at a byte boundary |
| BitGrowth.StepFound | Server-Library/Source/MemoryBitStream.cpp:3-34 | in a state that writes lead to, a byte write finds its bytes if and only if it ends within 12000 * 2^18 bits or at a whole byte |
| BitGrowth.RunExact | Server-Library/Source/MemoryBitStream.cpp:3-34 | every byte write of a run below 2^32 bits finds its bytes if and only if all that end above the limit end at whole bytes |
| BitGrowth.CallsExact | Server-Library/Source/MemoryBitStream.cpp:36-52 | the same for runs of whole calls: those that end above the limit start and end at whole bytes |
| BitGrowth.OneBitTooMany | Server-Library/Source/MemoryBitStream.cpp:6-11 | whatever filled the stream up to the limit, one more bit misses the buffer |
| BitGrowth.WrappingRunFails | Server-Library/Source/MemoryBitStream.cpp:6-11 | a call of 12000 * 2^18 bits and one of a single bit from a fresh stream do not all find their bytes |
| BitGrowth.MovedExact | Server-Library/Source/MemoryBitStream.cpp:54-75 | growing has moved less than twice the head if and only if the head is at most a byte past the limit |
| BitGrowth.MovingBreaks | Server-Library/Source/MemoryBitStream.cpp:54-75 | two whole bytes past the limit growing has moved too much |
| BitStream.GrowthLegal | Server-Library/Source/MemoryBitStream.cpp:54-75 | the new capacity holds the write, stays below 2^32 and is a whole number of bytes |
| BitStream.OutputMemoryBitStream.ReallocBuffer | Server-Library/Source/MemoryBitStream.cpp:54-75 | growing keeps every written bit |
| BitStream.OutputMemoryBitStream.WriteByteBits | Server-Library/Source/MemoryBitStream.cpp:3-34 | appends exactly the low bits of the byte, across bytes and reallocations |
| BitStream.OutputMemoryBitStream.WriteBits | Server-Library/Source/MemoryBitStream.cpp:36-52 | appends the first bits of the source, also beyond the doubling limit when it starts and ends at whole bytes there; all bits moved by growth are less than twice the head exactly up to one byte past the limit |
| BitStream.InputMemoryBitStream.ReadByteBits | Server-Library/Source/MemoryBitStream.cpp:86-104 | gives the next bits and nothing above them |
| BitStream.InputMemoryBitStream.ReadBits | Server-Library/Source/MemoryBitStream.cpp:106-121 | gives the next bits of any count |
| BitStream.NumberRoundTrip | Server-Library/Header/MemoryBitStream.h:45-52 | a number below 2^n survives its n bits |
| BitStream.WriteString | Server-Library/Header/MemoryBitStream.h:64-72 | a string is its 32-bit length and its characters, wherever the buffer can hold it |
| BitStream.ReadString | Server-Library/Header/MemoryBitStream.h:136-145 | reading where such a string begins gives it back and stops behind it |
| BitStream.StringRoundTrip | Server-Library/Header/MemoryBitStream.h:64-145 | a string of any length that 32-bit heads allow is read back from the bytes sent |
| BitStream.HoldsExact | Server-Library/Source/MemoryBitStream.cpp:36-52 | a sequence of writes below 2^32 bits finds all its bytes if and only if it is aligned above the limit |
| BitStream.RoundTrip | Server-Library/Source/MemoryBitStream.cpp:3-121 | any sequence of writes that the buffer can hold, read back with the same counts from the byte-length prefix, gives the low bits of each datum and zeros above |
| Matching.MinIndex | Server/Server/BattleManager.cpp:36-48 | the first of those who met the player least often |
| Matching.ExactCover | Server/Server/BattleManager.cpp:34-124 | a round of n players has 2*ceil(n/2) entries; the real ones are a permutation of the players; a ghost only with odd n, in the last pair; everybody's record is kept |
| Matching.PairsInOrder | Server/Server/BattleManager.cpp:65-75 | in every pair of a round the first has no lower attack state than the second |
| Matching.CoinsDecide | Server/Server/BattleManager.cpp:65-75 | rounds that differ in their coins have the same pairs and records; a pair is turned exactly when its states are equal and its own coins differ |
| Matching.RecordsAfterRound | Server/Server/BattleManager.cpp:76-124 | a round adds one to exactly the counts of the pairs that met for real |
| BattleManager.StoredCount | Server/Server/BattleManager.cpp:171-181 | the count of b at a is the number of rounds they met, and equals that of a at b |
| BattleManager.HistoryAfterRound | Server/Server/BattleManager.cpp:76-124 | a round keeps all counts right |
| BattleManager.HistoryShuffled | Server/Server/BattleManager.cpp:28-30 | a shuffle keeps all counts right |
| BattleManager.HistoryLeft | Server/Server/BattleManager.cpp:136-150 | a departure keeps all counts right |
| BattleManager.GetBattleCount | Server/Server/BattleManager.cpp:171-181 | the search loop gives the stored count, zero for strangers |
| BattleManager.AddBattleCount | Server/Server/BattleManager.cpp:183-192 | adds one to the entry of that client only |
| BattleManager.DropHistory | Server/Server/BattleManager.cpp:194-204 | erases exactly the entries of that client |
| BattleManager.LeastMet | Server/Server/BattleManager.cpp:36-48 | the minimum loop finds `MinIndex` of those behind the first |
| BattleManager.BattleManager.SetClients | Server/Server/BattleManager.cpp:11-21 | fresh records: everybody knows exactly the others, with count zero |
| BattleManager.BattleManager.GetBattleOpponent | Server/Server/BattleManager.cpp:23-134 | after any shuffle: an exact cover with the higher attack state first in every pair, records kept as a permutation, counts right for the log with this round added |
| BattleManager.BattleManager.MatchAll | Server/Server/BattleManager.cpp:34-124 | the erase-and-append loop computes `PairUp` and leaves the matching list empty |
| BattleManager.BattleManager.RemoveClient | Server/Server/BattleManager.cpp:136-150 | removes the client and its entry in every other record |
| Fairness.RoundTotal | Server/Server/BattleManager.cpp:76-80 | each round adds exactly 2*floor(n/2) to the sum of all counts |
| Fairness.StepKeepsHistory | Server/Server/BattleManager.cpp:23-134 | shuffle and round together keep the histories right and raise the total as they should |
| Fairness.FourRound | Server/Server/BattleManager.cpp:34-80 | with four players a round plays one of the three pairings that was played least |
| Fairness.FourPlayerFairness | Server/Server/BattleManager.cpp:23-134 | from equal counts c, any 3k rounds of four players leave every count at c + k |
| Fairness.GhostFight | Server/Server/BattleManager.cpp:84-117 | with an odd number the last pair is the odd player out and the ghost of one of those who have met it least |
| Repeats.RoundRepeats | Server/Server/BattleManager.cpp:34-124 | a round pairs two players again who have met if and only if its shuffled queue is stuck, whatever the attack states and coins |
| Repeats.SelectionRepeats | Server/Server/BattleManager.cpp:23-134 | for the manager's records and log: somebody meets an earlier opponent in the new round if and only if the shuffled records are stuck |
| Repeats.EightCanRepeat | Server/Server/BattleManager.cpp:11-134 | from fresh records of eight players two rounds exist that pair the same two players twice, whatever the attack states and coins of both |
| Room.Room.AddClients | Server/Server/Room.cpp:28-46 | the clients are appended unless the room is full; roster, size and battle manager agree afterwards if and only if the room was empty or full before |
| Room.Room.RemoveClient | Server/Server/Room.cpp:48-73 | removes one member everywhere; an empty room is reset |
| Room.Room.Init | Server/Server/Room.cpp:133-142 | an empty roster |
| Room.Room.ApplyRandomBattleOpponent | Server/Server/Room.cpp:121-131 | with two or more clients the opponent list has every member once for real and nobody against itself, with the higher attack state first in every pair: it is fit for `Entrance.Battle` |
| ServerQueue.ServerQueue.AddClient | Server/Server/ServerQueue.cpp:18-38 | the linked chain represents the line with one more at the end |
| ServerQueue.ServerQueue.RemoveClient | Server/Server/ServerQueue.cpp:40-69 | the first occurrence leaves the line |
| ServerQueue.ServerQueue.Unlink | Server/Server/ServerQueue.cpp:46-66 | rewiring one node removes exactly its entry |
| ServerQueue.ServerQueue.TryCreateRoom | Server/Server/ServerQueue.cpp:71-98 | with eight or more, the first eight leave in order; otherwise nothing changes |
| ServerQueue.ServerQueue.StartMatching | Server/Server/Server.cpp:370-375 | arrival and room creation are one step of the line; between critical sections fewer than eight wait |
| ServerQueue.FirstInFirstOut | Server/Server/Server.cpp:370-375 | rooms in order plus the line are the arrivals minus the departures, in order |
| Items.TablesMatchTiers | Server/Server/Items.h:902-906 | a tier's table holds relics of that tier only |
| Items.EveryRelicListed | Server/Server/Items.h:902-906 | every player relic is in the table of its tier, and no table repeats one |
| Items.EveryRelicHealsFirst | Server/Server/Items.h:54-889 | no relic, at any level and with any draw, heals its user after hurting it |
| BattleStats.TargetEvolves | Server/Server/BattleAvatar.h:126-172 | any call on an enemy keeps it sound, at the same maximum, and at zero if it was at zero |
| BattleStats.SelfEvolves | Server/Server/BattleAvatar.h:126-370 | any call on oneself keeps the avatar sound; only healing revives, only self-damage kills |
| BattleLaws.StrikeLaw | Server/Server/BattleAvatar.cpp:129-131 | offence raises a strike and weakening lowers it by exactly their amounts, never below zero |
| BattleLaws.BlowLaw | Server/Server/BattleAvatar.cpp:133-137 | HP and defence together lose the strike, the defence first |
| BattleLaws.OneBlow | Server/Server/BattleAvatar.cpp:133-137 | there is only one way to take a blow like that |
| BattleLaws.TargetLaw | Server/Server/BattleAvatar.h:126-172 | what each call on an enemy changes, by how much, and nothing else |
| BattleLaws.SelfLaw | Server/Server/BattleAvatar.h:126-370 | the same for each call on oneself |
| BattleLaws.CallsInOrder | Server/Server/BattleAvatar.cpp:89-101 | the calls of a relic act one after the other |
| BattleLaws.ActivationLaw | Server/Server/BattleAvatar.cpp:89-101 | an activation counts itself, then makes the relic's calls, then the pastry heals unless HP is zero |
| BattleLaws.CounterLaw | Server/Server/BattleAvatar.cpp:220-240 | a counter lands its hit, heals by its healing and uses both up |
| BattleLaws.TurnLaw | Server/Server/Room.cpp:770-833 | after an activation that leaves both standing an attack is countered where counters count, and the actor bleeds; otherwise the activation's numbers stand |
| BattleLaws.CycleEndLaw | Server/Server/Room.cpp:1013-1020 | at the end of a cycle the bomb goes off unless ignored, and everything that lasts one cycle is gone |
| BattleLaws.MoveLaw | Server/Server/Room.cpp:763-1088 | every move of a running fight changes its numbers accordingly; in a creep stage the creep does not counter |
| BattleStats.ActivationSound | Server/Server/BattleAvatar.cpp:89-101 | activating any relic keeps both avatars sound, revives nobody, and counts one activation |
| BattleStats.CounterSound | Server/Server/BattleAvatar.cpp:220-240 | counters keep both sound and revive nobody |
| Clients.Client.ToDamage | Server/Server/Client.h:272-276 | the client loses the damage, not below zero |
| Avatar.BattleAvatar.SetAvatar | Server/Server/BattleAvatar.cpp:50-87 | a newcomer with 50 + 10*min(5, round) HP and its client's six relics |
| Avatar.BattleAvatar.SetCreep | Server/Server/Room.cpp:1703-1784 | a ghost without a client, with the creep's relics and HP |
| Avatar.BattleAvatar.FitmentEffect | Server/Server/BattleAvatar.cpp:103-109 | the fitments of all six relics, in order |
| Avatar.FittedSums | Server/Server/BattleAvatar.cpp:103-109 | fitting adds the fitments up: maximum HP and HP, defence and attack state grow by their sums, nothing else changes |
| Avatar.TierSumLaw | Server/Server/BattleAvatar.cpp:242-253 | the damage is one for each relic of tier One worn up to five for each of tier Five |
| Avatar.BattleAvatar.ToDamage | Server/Server/BattleAvatar.cpp:121-138 | HP and defence together lose the strike, which offence raises and weakening lowers, the defence first; or it is ignored once |
| Avatar.BattleAvatar.ToPiercingDamage | Server/Server/BattleAvatar.cpp:160-171 | the strike passes the defence |
| Avatar.BattleAvatar.ToDefensive | Server/Server/BattleAvatar.h:126-129 | defence grows by the amount and the ribbons |
| Avatar.BattleAvatar.ToWeakening | Server/Server/BattleAvatar.h:141-150 | weakening, unless the cape wards it off |
| Avatar.BattleAvatar.ToBleeding | Server/Server/BattleAvatar.h:152-161 | bleeding, unless warded off |
| Avatar.BattleAvatar.ToReducedHealing | Server/Server/BattleAvatar.h:163-172 | reduced healing, unless warded off |
| Avatar.BattleAvatar.SetInstallBomb | Server/Server/BattleAvatar.h:306-316 | a bomb, unless warded off |
| Avatar.BattleAvatar.ToHeal | Server/Server/BattleAvatar.h:174-178 | healing, reduced and not above the maximum |
| Avatar.BattleAvatar.EffectBleeding | Server/Server/BattleAvatar.h:384-387 | bleeding passes the defence |
| Avatar.BattleAvatar.EffectBomb | Server/Server/BattleAvatar.cpp:202-218 | HP and defence together lose the bomb's damage, the defence first, and the bomb is gone; or it is ignored once and stays |
| Avatar.BattleAvatar.InitCycle | Server/Server/BattleAvatar.cpp:140-158 | everything that lasts one cycle is cleared, nothing else |
| Avatar.BattleAvatar.EffectCounter | Server/Server/BattleAvatar.cpp:220-240 | pending counters act once, and never after the finish |
| Avatar.BattleAvatar.ToDamageCharacter | Server/Server/BattleAvatar.cpp:255-280 | hurts the client at most once in the avatar's life, never for a ghost, only in the room, only at zero or after the bell |
| Avatar.BattleAvatar.IncreaseItemTicket | Server/Server/BattleAvatar.cpp:323-350 | a real client in the room gets that many tickets of that kind and no other; a ghost or one that left gets nothing |
| Avatar.BattleAvatar.Perform | Server/Server/BattleAvatar.h:126-370 | one call of a relic changes the two avatars as the specification says and nothing else |
| Avatar.BattleAvatar.ActiveItem | Server/Server/BattleAvatar.cpp:89-101 | the relic at that position of the order acts on both avatars |
| Avatar.BattleAvatar.GetDamage | Server/Server/BattleAvatar.cpp:242-253 | one more than the tier of each relic worn |
| BattleRules.CheckedDuel | Server/Server/Room.cpp:780-792 | a check changes no numbers and ends the fight exactly when somebody is at zero |
| BattleRules.TurnSound | Server/Server/Room.cpp:770-833 | a turn revives nobody, keeps the flags in step, settles the accounts, counts one activation |
| BattleRules.StepSound | Server/Server/Room.cpp:763-1088 | so does every move; a finished pair is left alone |
| BattleRules.ZeroIsAbsorbing | Server/Server/Room.cpp:763-1088 | over any run of moves: 0 <= HP <= maximum, zero is final, flags agree, a finished pair never changes, an unfinished one has both HPs positive |
| BattleRules.SettledThroughout | Server/Server/Room.cpp:780-792 | a real client in the room has been hurt exactly if its avatar is at zero |
| BattleRules.CharacterDamagedExactly | Server/Server/Room.cpp:1071-1088 | after the bell: exactly if its avatar is at zero or its fight was undecided; never through a ghost |
| BattleRules.StepRewards | Server/Server/Room.cpp:1298-1353 | a move reaches one reward if the creep falls in it and none otherwise, over all its checks |
| BattleRules.CreepRewardOnce | Server/Server/Room.cpp:1287-1592 | over a creep stage a player is rewarded once if its creep fell, never otherwise |
| BattleRules.TurnGain | Server/Server/Room.cpp:1298-1353 | over both checks of a turn a player gains one reward exactly if its creep is at zero after it, it is no ghost and it is in the room |
| BattleStage.PenaltyLaw | Server/Server/Room.cpp:782-783 | what a beaten client pays: the tiers of the winner's relics, counted from one, and twice the round |
| BattleStage.CheckFinish | Server/Server/Room.cpp:1298-1315 | the finish check on the avatar objects, what each client pays, and the reward of the player |
| BattleStage.AnswerAndBleed | Server/Server/Room.cpp:795-803 | counter and bleeding between the two checks |
| BattleStage.TakeTurn | Server/Server/Room.cpp:770-833 | a whole turn on the objects is the turn of the machine, and each client pays at most once in it; a player in the room is rewarded exactly if its creep is at zero after it |
| BattleStage.StageAfter | Server/Server/Room.cpp:763-833 | a move of one pair keeps all pairs on their runs and all accounts and rewards right, although clients are shared with ghosts |
| BattleStage.PairTurn | Server/Server/Room.cpp:763-833 | a turn of one pair, with the relic at that position of the order |
| BattleStage.PairEndCycle | Server/Server/Room.cpp:1008-1039 | bombs and the end of a cycle for one pair |
| BattleStage.PairTimeUp | Server/Server/Room.cpp:1077-1082 | the bell for one pair |
| StageLoops.FlagsAgree | Server/Server/Room.cpp:763-833 | at any time both avatars of a pair carry the same finish flag, and fight with positive HP |
| StageLoops.HalfRound | Server/Server/Room.cpp:763-833 | one side of every fighting pair acts; at position i its effect count is i + 1 |
| StageLoops.EndCycles | Server/Server/Room.cpp:1003-1039 | every fighting pair has gone through a whole cycle |
| StageLoops.DrawQueues | Server/Server/Room.cpp:727-734 | in a battle everybody still fighting, in a creep stage every player gets the order its draws of this cycle give; the others keep theirs |
| StageLoops.CycleBegins | Server/Server/Room.cpp:725-734 | with those orders every pair that fights starts the cycle |
| StageLoops.ScheduleGrows | Server/Server/Room.cpp:760-1001 | a move in its place keeps a fight on the schedule |
| StageLoops.Rounds | Server/Server/Room.cpp:760-1001 | six rounds, each the first and then the second avatars; stopped by the first round that finds the room closed, or when all are finished |
| StageLoops.Cycle | Server/Server/Room.cpp:725-1067 | a cycle with the orders its draws give: every fight, decided or not, has kept to the schedule, and those still undecided made all their turns and the end of the cycle |
| StageLoops.Bell | Server/Server/Room.cpp:1071-1088 | every pair is judged, the finished ones without a move |
| StageLoops.Stage | Server/Server/Room.cpp:725-1088 | the whole stage: every pair is where a run of the machine leads whose moves keep to the schedule, the n-th cycle in the order of the n-th draws; undecided pairs went through ten cycles or up to the round that closed the room; real clients are hurt at most once and, if it was completed, exactly when they lost or were undecided, and lose exactly what they owe; in a creep stage each player wins at most the one reward the counter gives, and exactly when its creep is at zero if it stayed |
| StageLoops.HurtAsJudged | Server/Server/Room.cpp:780-792 | what the stage invariant says of the clients' health: what a beaten avatar owes for the winner's relics and the round, ten and the round for an undecided fight, once |
| StageLoops.RewardedAsGood | Server/Server/Room.cpp:1287-1592 | what the stage invariant says of the clients' rewards: one at most, only for a fallen creep, and one if so and the player stayed |
| StageLoops.StageRewards | Server/Server/Room.cpp:1287-1592 | the moves of a pair in a creep stage reach exactly one reward if its creep is at zero |
| StageLoops.StageZeroIsAbsorbing | Server/Server/Room.cpp:725-1088 | at any moment of a stage, who was at zero before is at zero now |
| Pairings.MatchedOpponents | Server/Server/BattleManager.cpp:23-134 | what the matching gives is always fit for a battle: everybody once for real, nobody against itself |
| Entrance.GetRandomCopyItem | Server/Server/BattleAvatar.cpp:173-200 | the draw's one of the copyable relics, or the bare tool |
| Entrance.CopyLaw | Server/Server/BattleAvatar.cpp:173-200 | a copyable relic of the enemy if there is one, the bare tool otherwise |
| Entrance.EveryCopyDrawn | Server/Server/BattleAvatar.cpp:173-200 | every copyable relic is what some draw gives |
| Entrance.LastBurger | Server/Server/Room.cpp:651-663 | the last hamburger's draw counts; without one it stays Fillet |
| Entrance.Fitting | Server/Server/Room.cpp:650 | HP and its maximum are 50 + 10*min(5, round) and the fitments, defence and attack state grow by theirs, nothing is pending |
| Entrance.Prepare | Server/Server/Room.cpp:648-677 | fitted by what was brought, hamburgers chosen by their draws, each tool turned into its draw's copy, other slots as they were |
| Entrance.PrepareAll | Server/Server/Room.cpp:648-677 | everybody so, the first of a pair copying from what the second brought, the second from what the first has got |
| Entrance.Summon | Server/Server/Room.cpp:634-640 | one new avatar per entry with the round's HP and its player's attack state, a ghost for a complemented id |
| Entrance.Arrange | Server/Server/Room.cpp:703-721 | a pair is finished exactly if a client of it has left, and turned exactly if its second avatar has the higher attack state |
| Entrance.Enter | Server/Server/Room.cpp:629-721 | from an opponent list to a stage ready to fight: everybody fitted and equipped as above, arranged, pairs kept together |
| Entrance.Battle | Server/Server/Room.cpp:615-1088 | a whole battle from an opponent list: every fight starts fitted and keeps to its schedule; each player is hurt at most once although it may fight twice, pays exactly what it owes, and after a full battle has paid exactly if it lost or was undecided |
| Creeps.PaidForTheNext | Server/Server/Room.cpp:1784-1838 | looking the reward up after the counter was raised gives a creep's own reward exactly for the first two creeps and the last |
| CreepEntrance.Enter | Server/Server/Room.cpp:1176-1211 | each player fitted with its hamburgers chosen, against a creep with the relics and HP the counter asks for; the counter is raised |
| CreepEntrance.CreepStage | Server/Server/Room.cpp:1161-1636 | a whole creep stage of a party: every fight keeps to its schedule; each player pays once at most, exactly what it owes, and wins the next creep's reward once if its creep fell, and exactly then if it stayed |
| Draws.PickExact | Server/Server/Client.cpp:396-411 | a draw picks a slot exactly if it lies in that slot's interval |
| Draws.PickInRange | Server/Server/Client.cpp:201-211 | a draw below the sum always picks something unused: the loop never runs past the end |
| Draws.DrawsProportional | Server/Server/Client.cpp:385-412 | the number of draws that pick a slot is its weight, zero if it was used |
| Draws.GetItemActiveQueue | Server/Server/Client.cpp:380-417 | for all positive weights and all draws every slot appears exactly once, each where its draw puts it |
| Draws.DrawnExact | Server/Server/Client.cpp:385-412 | the next slot of an order is k exactly when k is still free and the draw lies in k's stretch of the weight that is left |
| Draws.EveryOrderDrawn | Server/Server/Client.cpp:385-412 | every order of the six slots can come up |
| Draws.Select | Server/Server/Client.cpp:396-411 | the subtracting loop computes that pick |
| Draws.RowsAddUp | Server/Server/Client.h:119-128 | the rows of the probability table add up to 100 |
| Draws.TierProportional | Server/Server/Client.cpp:201-211 | exactly the table's number of the 100 draws gives each tier |
| Draws.NormalTicket | Server/Server/Client.cpp:194-220 | without a ticket nothing; otherwise tier k exactly if the draw lies in the stretch of k in the round's row, and there the relic the second draw picks |
| Draws.TicketsProportional | Server/Server/Client.cpp:194-220 | over the 100 draws a normal ticket gives each tier exactly as often as the table says |
| Draws.EvenlyDrawn | Server/Server/Client.cpp:216-219 | over the draws of a table each of its relics comes up once |
| Draws.TierTicket | Server/Server/Client.cpp:223-260 | the first draw picks one of the ticket's two tiers, the second a relic of it |
| InventorySpec.WeightUpdate | Server/Server/Item.h:36-75 | writing one slot changes a relic's weight by the two shares |
| InventorySpec.OnePerKind | Server/Server/Client.cpp:265-301 | there are as many first relics as kinds stored |
| InventorySpec.DefaultEquipment | Server/Server/Client.cpp:265-301 | exactly min(6, stored kinds) relics are equipped, the first of each kind in order; all relics with levels, slot numbers and weights are kept |
| InventorySpec.SwapKeepsRelics | Server/Server/Client.cpp:157-168 | a swap keeps the multiset of relics with levels, and the frame of the slots |
| InventorySpec.SwapLaw | Server/Server/Client.cpp:157-168 | the two slots have exchanged relics and levels, the others are untouched |
| InventorySpec.DropLaw | Server/Server/Server.cpp:624-657 | the slot is free at level zero, the others are untouched |
| InventorySpec.UpgradeLaw | Server/Server/Server.cpp:742-790 | a legal request leaves the relic one level higher in the first slot, frees the second and touches no other; every other request changes nothing |
| InventorySpec.AddLaw | Server/Server/Client.cpp:170-191 | only the first free slot, storage first, changes, and holds the relic at level zero |
| InventorySpec.CombineLaw | Server/Server/Server.cpp:659-721 | the three slots are emptied, then only the first free slot changes and holds the drawn relic at level zero |
| InventorySpec.AddWeight | Server/Server/Client.cpp:170-191 | adding is worth one if and only if the free slot has upgrade zero |
| InventorySpec.UpgradeWeight | Server/Server/Server.cpp:742-790 | an upgrade conserves the weight of every relic |
| InventorySpec.CombineWeight | Server/Server/Server.cpp:659-721 | a combination loses what its distinct slots held and gains the new relic |
| InventorySpec.StepKeepsGood | Server/Server/Server.cpp:624-796 | every event keeps free slots at upgrade zero and upgrades at most two |
| InventorySpec.StepWeight | Server/Server/Server.cpp:624-796 | swap, equip and upgrade conserve; adding counts one if a slot is free; dropping loses 2^upgrade |
| InventorySpec.Conservation | Server/Server/Server.cpp:624-796 | over any run of events the weight of every relic is what it was plus what the events added and took |
| Clients.Client.constructor | Server/Server/Client.cpp:50-67 | sixteen free slots with their numbers and weights |
| Clients.Client.SwapItem | Server/Server/Client.cpp:157-168 | exchanges contents, not frames |
| Clients.Client.AddItem | Server/Server/Client.cpp:170-191 | the first free slot, storage first, gets the relic |
| Clients.Client.FindEmptyItemSlotIndex | Server/Server/Client.cpp:350-368 | the first free slot, storage first, or 16 |
| Clients.Client.DropItem | Server/Server/Server.cpp:624-657 | the drop handler |
| Clients.Client.UpgradeItem | Server/Server/Server.cpp:723-796 | in the ready stage, with two different slots holding one relic at one level below the highest, the first goes up a level and the second is freed; otherwise nothing changes |
| Clients.Client.CombineItems | Server/Server/Server.cpp:659-721 | the combination handler with its up to ten draws, each giving the relic that its two numbers pick between the lowest and the highest tier |
| Clients.Client.DrawNewItem | Server/Server/Server.cpp:699-710 | the first draw that differs from all three, or the tenth |
| Clients.Client.GetRandomItemTypeByCombination | Server/Server/Client.cpp:370-378 | a tier drawn evenly between the two, and a relic drawn evenly from it |
| Clients.Client.UseItemTicket | Server/Server/Server.cpp:481-600 | in the ready stage a ticket of that kind and no other is spent, and the relic its draws give goes to the first free slot |
| Clients.Client.TrySetDefaultUsingItem | Server/Server/Client.cpp:265-311 | the equipping loops compute `Equipped`, and say whether anything was equipped |

## Left out

- Sockets, completion ports, accepting, disconnecting, address parsing, logging, sleeping and real time are not part of this model.
- Threads: every locked section and every stage step is one step; a departure falls between two steps, and room recycling with its unguarded windows is not modelled.
- The random engine: draws, shuffles and coins are arbitrary values, taken within their range by the remainder where they are parameters; the client's own choices are arbitrary too.
- `ItemBase.h` and the headers in the `reoul` directory are not part of this model: a wrapped constant is its value, and tier One is index 0.
- The byte stream's vectors and strings, the fixed-point conversions, byte swapping and linking contexts, which are asymmetric, about rounding, or easy.
- Packet contents apart from their layout: which numbers of an avatar or client go into which packet.
- Checks of client-supplied ids, and the replies of the handlers.
- Items.Program: items 17 and 32 multiply floating-point numbers in the source; the model uses the integer the product stands for.
- BitStream.OutputMemoryBitStream.WriteBits: what a write that misses its buffer overwrites; `BitGrowth.CallsExact` says exactly which runs contain one.
- BitStream.ReadString: the text on the wire is a ghost parameter; the method reads exactly that text, it does not model a malformed length.
- PacketConstruct.Connection.PacketConstruct: a read behind a full receive buffer, or a size field below 2 or above 1300 makes the source leave its buffers; the outcome `Broken` stands for it and nothing is said beyond it.
- StageLoops.Stage: the source finds out who left by asking the room; here an arbitrary player may leave before any step, and none comes back.
- ServerQueue.ServerQueue.RemoveClient: a client that queued twice keeps its second entry, as in the source; who may queue is decided elsewhere.
