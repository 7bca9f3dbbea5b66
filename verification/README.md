# sql-replay, verified

`sql-replay` turns recorded MySQL traffic (packet captures and slow query logs)
into statements, spools them to disk, and replays them against a server. This
project models its engines and proves what they promise. Stateful parts are
classes and loops, each proved against a specification function; the laws are
lemmas about those functions.

| part | files |
|---|---|
| wire reassembly and protocol | `TcpStream`, `Reassembly`, `Framing`, `SegmentTimes`, `PacketAssembler`, `Wire`, `Protocol`, `Matching`, `Connection`, `ConnDecoder`, `Conversations`, `Logins`, `EngineSteps`, `Flows`, `PcapEngine` |
| replay scheduler | `Scheduler`, `SchedulerInvariants`, `SchedulerSafety`, `SchedulerDatabases` |
| spool | `Grouping`, `Spool`, `SpoolBuild` |
| write gate | `WriteGate`, `WriteGateScan` |
| fingerprints and placeholders | `Utf8`, `Fingerprints`, `Padding`, `ListCollapse`, `Shadows`, `Literals`, `Interpolation`, `Templates`, `StatementClasses`, `FingerprintUtf8`, `FingerprintScan`, `InterpolationScan` |
| slow query log | `SlowLog`, `SlowLogRoundTrip`, `SlowLogEntries`, `SlowLogParser`, `ScannerAgreement` |
| aggregation | `Digest`, `Median` |

`Bytes` holds the shared vocabulary. `dafny verify dfyconfig.toml` checks everything.

How the parts are stated:

- A TCP sender cuts segments from one true byte stream. `Consistent` says what a
  stream holds of it; `Run` is the reassembly of any list of segments.
- Framing has a reference decoder of one whole byte string; the assembler class
  equals it for every way of cutting the string into chunks.
- A connection decoder is a function of the packets of both directions. The
  parts of a payload that are only field extraction come in as a `Codec` value,
  and hold for every codec.
- The engine refines `AfterSegment`, a function of its whole state and one
  captured segment, and carries ghost books of what every connection was fed and
  what was sunk. `Flows` shows that this function treats each pair of endpoints
  by itself; `Conversations` and `Logins` lead from the segments of a connection
  to its events and their timestamps.
- The scheduler is a step system: any session may move, the environment decides
  the outcome of connects, `USE` statements and queries, and may ask for
  shutdown between any two steps. A database is tracked twice, as the tool
  believes it and as the server has it.
- Text scanners work on bytes with UTF-8 validity explicit, or on characters
  (the write gate). Specification functions read the rest of the text; the
  methods advance an index.
- A slow-log parser is a function of its state and one line. How a date, a user
  name, an id or a number is read from a header comes in as a `Fields` value.

## Findings

What turned out not to hold without a condition, each with the exact condition
where there is one, and with a concrete failing input:

- A longer segment at an occupied out-of-order offset is dropped
  (`StepCoversIff`, `LongerSegmentIsLost`); a segment buffered already still
  counts towards the cap (`OverflowsIff`).
- A SYN in mid-stream makes delivered bytes come out again, and what goes on from
  there is never delivered; it is harmless exactly when it repeats the sequence
  number while nothing has arrived
  (`SynHarmlessIff`, `SynReplaysTheStream`, `SynStopsTheStream`).
- A pipelined batch is matched first-in first-out exactly when no response's
  next continuation id is the next response's start id (`BatchMatchesIff`), and
  some batches fail (`SomeRoundsCollide`).
- A connection's statements all come out exactly unless a COM_QUIT left
  statements in flight, or the chunk that broke the framing completed some
  (`EveryStatementOnce`, `QuitLosesAStatement`, `OversizedLosesAStatement`); no
  chunk of at most 64 MiB does (`SmallChunksDiscardNothing`).
- A delivered byte does not always bear the time it was first carried: a segment
  that overlaps a buffered one in part takes its bytes over
  (`OverlapTakesOver`); without such overlaps it does (`DeliveredTimes`).
- An empty conditional comment is inert unless a star follows it directly; then
  exactly when the comment its slash and that star open hides nothing that
  matters (`ClosedConditionalIsNeutralIff`, `UnspacedConditionalFlips`).
- On dedicated connections an event can run in another database than its own,
  exactly when its session holds a `USE` that leaves that database while the tool
  believes it current, tagged with it or untagged behind an event of it
  (`DatabaseFailsIff`, `UntaggedUseMisleads`).
- Placeholders that touch each other or a single-quoted string merge into one
  literal, so template and execution normalize alike exactly when nothing touches
  (`ExecutionNormalizesAlike`), and share a class exactly when the marks lost lie
  inside collapsed lists (`ExecutionSharesClassIff`). The rule that no placeholder
  touches a single quote is not enough: `??` fails as well
  (`TouchingPlaceholdersSplitTheClass`); `in (??)` does not
  (`ListsHideTouching`).
- A statement survives the slow log exactly when no line of it ends in a carriage
  return, it does not start like metadata, and no header-looking line of it stands
  outside its strings and comments (`SurvivesIff`); a string literal loses the
  carriage return at the end of a line (`CrInAString`).
- The column list of a class digest depends on the order of events exactly when
  the shape varied (`ColumnsDependOnOrderIff`).
- Two column lists hash alike exactly when their names split into the same pieces
  at zero bytes (`HashedAlikeIff`, `ZeroByteMergesNames`); a list is told from all
  lists without zero bytes exactly when it has none (`ToldApartIff`), and from all
  others exactly when it is one piece or none (`UniqueIff`).

## Model

| member | source | states |
|---|---|---|
| TcpStream.UnwrapExact | crates/sql-replay/src/pcap.rs:197-209 | The unwrapped offset is congruent to the sequence number, no natural congruent offset is nearer to the stream position, and one closer than 2^31 is the result |
| TcpStream.CandidatesUnwrap | crates/sql-replay/src/pcap.rs:197-209 | Trying the window of the position and its two wrapping 64-bit neighbours finds that offset, k = 0 included |
| TcpStream.SeqStream.OnSyn | crates/sql-replay/src/pcap.rs:186-195 | A SYN restarts the stream at the next sequence number, drops the buffer and leaves the overflow mark |
| TcpStream.SeqStream.RelOf | crates/sql-replay/src/pcap.rs:197-209 | The loop over candidates returns the unwrapped offset |
| TcpStream.SeqStream.OnData | crates/sql-replay/src/pcap.rs:211-249 | One segment changes the stream and delivers chunks exactly as the specification step does: retransmission, overlap, gap, cap and occupied offset |
| TcpStream.SeqStream.Drain | crates/sql-replay/src/pcap.rs:251-267 | Every buffered segment the position reaches is delivered, in order of offset |
| Reassembly.RelOfCut | crates/sql-replay/src/pcap.rs:197-209 | For a segment within 2^31 of the position the unwrapping inverts the numbering of the sender, across any number of wraps |
| Reassembly.StepDelivers | crates/sql-replay/src/pcap.rs:211-267 | One segment extends the delivered prefix by true bytes only; the buffer keeps holding true slices strictly beyond the position, their exact size, and the cap |
| Reassembly.StepCoversIff | crates/sql-replay/src/pcap.rs:211-249 | One segment adds exactly its own bytes to those held if and only if it reaches the position or fits the rest of the cap, and no shorter one is stored at its offset |
| Reassembly.OverflowsIff | crates/sql-replay/src/pcap.rs:231-243 | The buffer overflows exactly when a segment past the position does not fit the rest of the cap, even one that is buffered already |
| Reassembly.StepBuffers | crates/sql-replay/src/pcap.rs:231-248 | A segment adds at most its own length to the buffered bytes |
| Reassembly.RunDelivers | crates/sql-replay/src/pcap.rs:211-267 | For any order, duplication and overlap of segments of one true stream the delivered bytes are exactly the prefix up to the position |
| Reassembly.RunHolds | crates/sql-replay/src/pcap.rs:211-267 | With equal lengths at equal offsets and no overflow, a byte is delivered or buffered exactly when it was held before or some segment carried it |
| Reassembly.PositionIsFirstMissing | crates/sql-replay/src/pcap.rs:211-267 | The position is exactly the first byte no segment carried |
| Reassembly.OrderDoesNotMatter | crates/sql-replay/src/pcap.rs:211-267 | Two lists of segments that carry the same bytes end at the same position with the same delivered bytes |
| Reassembly.NoOverflow | crates/sql-replay/src/pcap.rs:231-237 | Segments that fit the cap together never overflow the buffer |
| Reassembly.OverflowIsFinal | crates/sql-replay/src/pcap.rs:218-220 | After an overflow nothing is delivered any more |
| Reassembly.LongerSegmentIsLost | crates/sql-replay/src/pcap.rs:244-247 | A longer segment at an occupied offset is dropped, and the bytes only it carried stay missing |
| Reassembly.SynHarmlessIff | crates/sql-replay/src/pcap.rs:186-195 | A SYN leaves the stream unchanged if and only if it repeats the sequence number while nothing has been delivered or buffered |
| Reassembly.SynReplaysTheStream | crates/sql-replay/src/pcap.rs:186-195 | Bytes already delivered, sent again, deliver nothing by themselves and all come out again behind a repeated SYN |
| Reassembly.SynStopsTheStream | crates/sql-replay/src/pcap.rs:186-195 | After a SYN repeated in mid-stream the segments that go on from the position deliver nothing |
| Reassembly.ArrivedIs | crates/sql-replay/src/pcap.rs:211-267 | When a stretch of the stream has arrived whole, in any segments that reach no further, exactly its bytes are delivered and nothing stays buffered |
| SegmentTimes.DeliveredTimes | crates/sql-replay/src/pcap.rs:211-267 | Every delivered byte bears the timestamp of a segment that carried it, and of the first such segment when no two segments overlap in part |
| SegmentTimes.OverlapTakesOver | crates/sql-replay/src/pcap.rs:238-267 | A segment that reaches the position and overlaps a buffered one gives its own, later timestamp to bytes that were carried before |
| Framing.DecodeAppend | crates/sql-replay/src/mysqlproto.rs:190-259 | Decoding more bytes resumes exactly where decoding stopped |
| Framing.RestIsShort | crates/sql-replay/src/mysqlproto.rs:248-258 | The bytes kept for the next chunk are fewer than 2^24 + 3, so the check after the loop never fires |
| Framing.DecodeInvertsEncode | crates/sql-replay/src/mysqlproto.rs:198-246 | Decoding inverts 0xffffff-fragment encoding if and only if no payload exceeds the cap |
| Framing.PacketsStartAtMessages | crates/sql-replay/src/mysqlproto.rs:198-246 | Each decoded packet starts where the bytes of its message do |
| Framing.PacketsGrow | crates/sql-replay/src/mysqlproto.rs:190-259 | Another chunk only adds packets, and a broken stream stays as it was |
| Framing.PacketsStartInside | crates/sql-replay/src/mysqlproto.rs:198-246 | Every packet starts at a byte that has been fed |
| Framing.ChunkingDoesNotMatter | crates/sql-replay/src/mysqlproto.rs:190-259 | Any two cuts of one byte stream into chunks give the same packets and the same broken flag |
| Framing.BreakingChunkIsSilent | crates/sql-replay/src/mysqlproto.rs:190-259 | A chunk of at most 64 MiB that breaks the framing completes no packet |
| PacketAssembler.Assembler.Feed | crates/sql-replay/src/mysqlproto.rs:190-259 | The packets returned are exactly those the chunk completes, with the timestamp of the chunk that holds their first byte; an intact stream keeps less than 2^24 + 3 bytes |
| PacketAssembler.Assembler.TakeFragments | crates/sql-replay/src/mysqlproto.rs:198-251 | The loop over complete fragments emits the packets of the reference decoder |
| PacketAssembler.Assembler.Accept | crates/sql-replay/src/mysqlproto.rs:212-244 | A continuation is refused exactly when it would exceed the cap, and otherwise joined |
| PacketAssembler.Assembler.PruneMarks | crates/sql-replay/src/mysqlproto.rs:252-255 | Only marks of wholly consumed chunks are dropped |
| PacketAssembler.Assembler.TsFor | crates/sql-replay/src/mysqlproto.rs:261-273 | Despite pruning, the last mark at or before an offset is that of the chunk that holds it |
| Wire.SegmentsToMessages | crates/sql-replay/src/mysqlproto.rs:160-273 | When all bytes of the sender have arrived in some segment, the decoded packets are exactly the messages it framed, in order |
| Matching.ContinuationsPass | crates/sql-replay/src/mysqlproto.rs:382-448 | Packets that continue a response close nothing |
| Matching.FirstPacketDecides | crates/sql-replay/src/mysqlproto.rs:382-448 | The first packet of a response not mistaken for a continuation closes the oldest request, and the rest of the response passes |
| Matching.CommandAsks | crates/sql-replay/src/mysqlproto.rs:520-633 | A command puts in flight exactly its own request: the statement of a readable query, of a database change or of an expandable execution with its own time, text, user and database, a prepare, or one without event; and nothing when the server does not answer it |
| Matching.CommandsQueue | crates/sql-replay/src/mysqlproto.rs:520-633 | Commands sent back to back queue exactly their own requests, in order, whatever number of packets they span |
| Matching.BatchMatchesIff | crates/sql-replay/src/mysqlproto.rs:382-448 | A batch sent before its responses is matched first-in first-out if and only if no continuation id of a response is the start id of the next |
| Matching.RoundMatchesIff | crates/sql-replay/src/mysqlproto.rs:382-614 | The same for one round of commands and responses from an empty queue |
| Matching.OneAtATimeNeverCollides | crates/sql-replay/src/mysqlproto.rs:382-448 | A command that follows the complete previous response can never collide, for responses of any length with ids modulo 256 |
| Matching.ConversationMatches | crates/sql-replay/src/mysqlproto.rs:382-614 | Over any number of rounds every statement is closed by the first packet of its own response, in send order, and nothing stays in flight |
| Matching.CollisionLosesAResponse | crates/sql-replay/src/mysqlproto.rs:382-448 | When ids collide the later response is taken for more of the earlier one |
| Matching.SomeRoundsCollide | crates/sql-replay/src/mysqlproto.rs:382-448 | Two one-packet commands sent together collide when the first is answered in 256 packets |
| Connection.PacketConserves | crates/sql-replay/src/mysqlproto.rs:341-363 | One packet keeps the books: emitted plus in flight equals in flight before plus newly sent |
| Connection.InputsConserve | crates/sql-replay/src/mysqlproto.rs:341-363 | So does any run of chunks in both directions, once the statements completed in the chunk that breaks the framing are counted as discarded |
| Connection.SmallChunksDiscardNothing | crates/sql-replay/src/mysqlproto.rs:341-363 | No chunk of at most 64 MiB discards a statement |
| Connection.OnlyQuitFinishes | crates/sql-replay/src/mysqlproto.rs:341-380 | The decoder is finished exactly when a COM_QUIT is among the packets it handled |
| Connection.EveryStatementOnce | crates/sql-replay/src/mysqlproto.rs:341-380 | Every statement the client packets carry is emitted exactly once and in send order, unanswered ones counted as missing, if and only if no COM_QUIT left statements in flight and the chunk that broke the framing completed none; chunks of at most 64 MiB never do; a second finish emits nothing |
| Connection.QuitLosesAStatement | crates/sql-replay/src/mysqlproto.rs:341-380 | A query followed by COM_QUIT before its answer is sent and never emitted |
| Conversations.ChunksArePackets | crates/sql-replay/src/mysqlproto.rs:341-363 | Chunks of one direction, however cut, act on the decoder as the packets they complete |
| Conversations.BytesBecomePackets | crates/sql-replay/src/mysqlproto.rs:190-259 | Behind a clean assembler the bytes of framed packets become these packets, times aside |
| Conversations.PacketTimes | crates/sql-replay/src/mysqlproto.rs:261-273 | Each of these packets bears the time of the chunk its first byte came in |
| Conversations.OversizedLosesAStatement | crates/sql-replay/src/mysqlproto.rs:350-353 | A query, and in the same chunk a packet above the cap: the query is sent and never emitted |
| Conversations.RoundHeard | crates/sql-replay/src/mysqlproto.rs:341-448 | One round of commands and responses goes from segments to events, its packets bearing the times of segments that carried their first bytes, and leaves the connection at rest |
| Conversations.SegmentsToEvents | crates/sql-replay/src/pcap.rs:402-423 | From the segments of both directions, in any order within a round, repeated and overlapping, every statement of the conversation comes out once, in send order, closed by the first packet of its own response; both bear the timestamp of a segment that carried their first byte, the first one when no two segments overlap in part |
| Logins.LoginRests | crates/sql-replay/src/mysqlproto.rs:382-470 | From the segments of the greeting, the login and any further authentication packets the decoder reaches rest without an event, knowing the version, thread id, user, database and whether queries carry attributes |
| Logins.ConnectionToEvents | crates/sql-replay/src/pcap.rs:402-423 | From the first byte of a connection to its end: login and rounds, in any segments, yield the statements closed by their own responses, and nothing is left to flush |
| ConnDecoder.Decoder.OnData | crates/sql-replay/src/mysqlproto.rs:341-363 | A chunk changes the decoder and emits events as the specification does; a chunk that breaks the framing discards its own packets |
| ConnDecoder.Decoder.OnServerPacket | crates/sql-replay/src/mysqlproto.rs:382-448 | Response packets are matched, answered requests emitted and prepared statements registered as specified |
| ConnDecoder.Decoder.OnCommand | crates/sql-replay/src/mysqlproto.rs:520-633 | Each command byte has its specified effect on the queue, the statements and the counters |
| ConnDecoder.Decoder.OnLogin | crates/sql-replay/src/mysqlproto.rs:467-518 | TLS, compression and unsupported logins end decoding with their disposition |
| ConnDecoder.Decoder.Finish | crates/sql-replay/src/mysqlproto.rs:367-380 | The end of the connection flushes what is in flight unless COM_QUIT finished the decoder |
| Flows.FlowsAreIndependent | crates/sql-replay/src/pcap.rs:342-454 | After any capture, the connection tracked for a pair of endpoints and what each of its connections was fed are those of its own segments alone |
| Flows.InterleavingDoesNotMatter | crates/sql-replay/src/pcap.rs:342-454 | Two captures that show a pair of endpoints the same segments in the same order feed its connections the same |
| PcapEngine.Engine.OnSegment | crates/sql-replay/src/pcap.rs:342-454 | One parsed segment changes connections, ids, counters, sink and feeds exactly as the specified step does, and keeps the books of all connections |
| PcapEngine.Engine.OnSegments | crates/sql-replay/src/pcap.rs:711-825 | So does a whole capture, segment by segment |
| PcapEngine.Engine.Track | crates/sql-replay/src/pcap.rs:375-400 | A fresh SYN that repeats nothing buries the connection before it; a pair not known is admitted |
| PcapEngine.Engine.Hear | crates/sql-replay/src/pcap.rs:405-423 | The segment is reassembled in its own direction, and what that delivers goes to the decoder and to the feed of its connection |
| PcapEngine.Engine.Settle | crates/sql-replay/src/pcap.rs:437-453 | A connection that is reset, closed from both ends or beyond decoding is buried; otherwise its events are sunk |
| PcapEngine.Engine.ReplaceOnSyn | crates/sql-replay/src/pcap.rs:382-392 | A fresh SYN that is no retransmission buries the connection before it |
| PcapEngine.Engine.Admit | crates/sql-replay/src/pcap.rs:394-400 | A new connection is counted once and numbered in order of appearance |
| PcapEngine.Engine.Deliver | crates/sql-replay/src/pcap.rs:412-423 | The chunks are appended to what the connection was fed; its decoder and the shared buffer end where these inputs lead |
| PcapEngine.Engine.AssignSession | crates/sql-replay/src/pcap.rs:507-522 | The first event of a connection fixes its session id: the thread id when free, else a synthetic one |
| PcapEngine.Engine.UnusedId | crates/sql-replay/src/pcap.rs:513-519 | The id given is the thread id when no connection has it, else the next synthetic one, and no connection has it |
| PcapEngine.Engine.DrainEvents | crates/sql-replay/src/pcap.rs:503-526 | The buffered events go to the sink under the id of their connection, and the buffer is empty |
| PcapEngine.Engine.Finalize | crates/sql-replay/src/pcap.rs:467-484 | A connection is flushed, sunk completely, and counted in exactly one disposition |
| PcapEngine.Engine.Flush | crates/sql-replay/src/pcap.rs:467-473 | What is in flight is flushed and everything sunk under the id of the connection |
| PcapEngine.Engine.CountDisposition | crates/sql-replay/src/pcap.rs:474-482 | Exactly one counter of dispositions moves; a connection that lost packets counts as broken whatever its decoder says |
| PcapEngine.Engine.Accumulate | crates/sql-replay/src/pcap.rs:486-492 | The counters of the connection are added to those of the file |
| PcapEngine.Engine.Finish | crates/sql-replay/src/pcap.rs:457-463 | At the end of the file every tracked connection is buried, in some order; the dispositions add up to the connections, every connection has had all its events sunk, and two events share a session id exactly when they share a connection |
| PcapEngine.ScanPcap | crates/sql-replay/src/pcap.rs:711-825 | For a whole capture: what each connection was fed is what the segments of its own flow say, the sink got exactly the events of these inputs, each connection under its own session id, and the dispositions add up |
| PcapEngine.IdsIdentify | crates/sql-replay/src/pcap.rs:503-526 | No two connections ever share a session id |
| PcapEngine.AllDead | crates/sql-replay/src/pcap.rs:457-463 | When no connection is live, every connection has had everything sunk |
| SchedulerSafety.NextKeepsInv | crates/sql-replay/src/replay.rs:726-998 | Every step of every session keeps the invariant on permits, connections, records and the wire |
| SchedulerSafety.CapacityIsRespected | crates/sql-replay/src/replay.rs:612-653 | In every interleaving permits, and idle plus used plus opening connections, stay within the cap, pooled connects exceed it by no more than the connections lost, and a session waits for a permit only while holding nothing |
| SchedulerSafety.OnlyClearedEventsAreSent | crates/sql-replay/src/replay.rs:831-844 | Only statements that pass the write gate are sent, none twice, and none that was recorded as skipped or not run |
| SchedulerSafety.EventsRunInTheirDatabase | crates/sql-replay/src/replay.rs:960-981 | In every interleaving without override an event tagged with a database runs only while the server has that database selected |
| SchedulerSafety.CountersAddUp | crates/sql-replay/src/replay.rs:479-523 | At any moment the counters equal the events recorded, in total and per fingerprint |
| SchedulerSafety.EveryEventIsRecorded | crates/sql-replay/src/replay.rs:709-998 | When all sessions are done, executed, skipped, errors and not-run add up to all events, in total and per fingerprint, for any abort instant, connect failure or fatal error |
| SchedulerSafety.OnlyPermitsBlock | crates/sql-replay/src/replay.rs:933-947 | A session stands still only when done or waiting for a permit |
| SchedulerSafety.Progress | crates/sql-replay/src/replay.rs:745-998 | No reachable state short of the end is stuck |
| SchedulerSafety.NextLowersMeasure | crates/sql-replay/src/replay.rs:745-998 | Every step lowers an explicit measure |
| SchedulerSafety.RunsAreBounded | crates/sql-replay/src/replay.rs:745-998 | No run is longer than the measure of its first state |
| SchedulerSafety.UntaggedUseMisleads | crates/sql-replay/src/replay.rs:846-882 | On a dedicated connection a captured USE does not update the tracked database, and the next event can run in the wrong one |
| SchedulerDatabases.StraysHaveTraps | crates/sql-replay/src/replay.rs:846-981 | On dedicated connections an event runs in another database only behind a USE of its session that left its database while the tool believed it current |
| SchedulerDatabases.TrapCloses | crates/sql-replay/src/replay.rs:846-981 | Whenever a session holds such a USE and a later event, some interleaving sends that event into the database of the USE |
| SchedulerDatabases.DatabaseFailsIff | crates/sql-replay/src/replay.rs:846-981 | Some interleaving runs an event outside its database if and only if connections are dedicated and some session holds such a pair, read off the configuration |
| Grouping.OrderIsExact | crates/sql-replay/src/replay.rs:539-556 | Session ids are listed once each, and exactly those that have events |
| Grouping.GroupSessions | crates/sql-replay/src/replay.rs:539-556 | The loop returns one list per session in first-appearance order, each in capture order |
| Spool.Le32Inverts | crates/sql-replay/src/spool.rs:338-344 | The length prefix reads back as the length modulo 2^32 |
| Spool.ReadAllRecords | crates/sql-replay/src/spool.rs:309-327 | Reading a region of records to its end gives back the events, when no record exceeds its prefix |
| Spool.TilesDisjoint | crates/sql-replay/src/spool.rs:218-233 | Regions laid end to end stay within the file and never overlap |
| Spool.PassA | crates/sql-replay/src/spool.rs:180-209 | The first pass counts, sizes and lists the sessions of the included events and finds the earliest timestamp |
| Spool.Layout | crates/sql-replay/src/spool.rs:218-233 | Regions are laid end to end in first-appearance order, each as large as its session, and write positions start at them |
| Spool.WriteKeepsFile | crates/sql-replay/src/spool.rs:241-258 | A positioned write behind what a region holds changes no other region, unless a region is overrun |
| SpoolBuild.PassB | crates/sql-replay/src/spool.rs:239-258 | After the second pass each region holds the records that pass saw; a session unknown to the first pass ends the build |
| SpoolBuild.AllFull | crates/sql-replay/src/spool.rs:260-275 | The last check passes exactly when every region is full |
| SpoolBuild.BuildSpool | crates/sql-replay/src/spool.rs:174-287 | The build succeeds exactly when the second pass saw the sessions of the first and as many bytes for each; then regions tile the file and hold exactly the records of the second pass |
| SpoolBuild.SpoolCursor.NextEvent | crates/sql-replay/src/spool.rs:309-328 | One call reads the next record of the region, or reports its end, an overrun or a corrupt record |
| SpoolBuild.Drain | crates/sql-replay/src/spool.rs:309-328 | Reading to the end yields the events of the region |
| SpoolBuild.RegionsReadBack | crates/sql-replay/src/spool.rs:174-328 | Whatever the second pass saw, each region of a successful build reads back as exactly the events of its session in that pass |
| SpoolBuild.SpoolRefinesGrouping | crates/sql-replay/src/spool.rs:174-328 | From one unchanged capture the regions read back as the in-memory groups of the included events, in the same order |
| SpoolBuild.BuildUnchanged | crates/sql-replay/src/spool.rs:174-287 | A capture read twice alike always builds, unless the filters left nothing of it |
| WriteGate.TrailingMeans | crates/sql-replay/src/classify.rs:208-254 | The scan finds exactly the texts in which content follows a code-level semicolon |
| WriteGate.LexAppend | crates/sql-replay/src/classify.rs:208-254 | Text that ends outside strings and block comments lexes independently of what a new line adds |
| WriteGate.SecondStatementIsWrite | crates/sql-replay/src/classify.rs:23-55 | After any text that ends in the normal state a further statement makes the whole a write |
| WriteGate.FuzzGuardIsWrite | fuzz/fuzz_targets/classify.rs:30-109 | For every input the independent lexer ends normally on, appending the guard statement classifies as a write |
| WriteGate.InertSkips | crates/sql-replay/src/classify.rs:208-347 | Both scanners run over an inert prefix as if it were not there |
| WriteGate.PaddingIsNeutral | crates/sql-replay/src/classify.rs:23-97 | Padding with blanks, complete comments and empty conditional comments never changes the class |
| WriteGate.ClosedConditionalIsNeutralIff | crates/sql-replay/src/classify.rs:208-347 | An empty conditional comment, with or without version, is neutral in front of a text if and only if the text does not start with a star, or what the comment opened by its slash and that star hides does not change the class |
| WriteGate.UnspacedConditionalFlips | crates/sql-replay/src/classify.rs:258-346 | Without the space an empty conditional comment can swallow the statement |
| WriteGateScan.HasTrailingStatement | crates/sql-replay/src/classify.rs:208-254 | The index loop decides exactly whether content follows a semicolon |
| WriteGateScan.TokenScanner.Next | crates/sql-replay/src/classify.rs:280-344 | The cursor yields the next word with the depth it starts at |
| WriteGateScan.ClassifySelectTail | crates/sql-replay/src/classify.rs:59-68 | The loop over the words of a SELECT decides as specified |
| WriteGateScan.ClassifyWithTail | crates/sql-replay/src/classify.rs:72-83 | The loop over the words of a WITH decides as specified |
| WriteGateScan.ClassifyAnalyzeTail | crates/sql-replay/src/classify.rs:87-97 | The loop over the words of an EXPLAIN ANALYZE decides as specified |
| WriteGateScan.ClassifySql | crates/sql-replay/src/classify.rs:23-55 | The classification equals the specification on every text |
| WriteGateScan.EndStateOf | fuzz/fuzz_targets/classify.rs:30-109 | The nested loops of the independent lexer compute its specified end state |
| Utf8.SplitAt | crates/sql-replay/src/fingerprint.rs:93-113 | Valid text splits at every character boundary |
| Fingerprints.PassBehindMark | crates/sql-replay/src/fingerprint.rs:11-83 | What stands before a placeholder in the output is never touched again and never matters |
| Fingerprints.CaseDoesNotMatter | crates/sql-replay/src/fingerprint.rs:11-83 | Upper-casing the query changes nothing, also inside unterminated strings, comments and identifiers |
| Padding.TrailingWs | crates/sql-replay/src/fingerprint.rs:11-90 | Trailing white space changes nothing but trimmed space, also behind an unterminated token |
| Padding.PaddingDoesNotMatter | crates/sql-replay/src/fingerprint.rs:11-90 | White space on both sides is invisible in the normalized text |
| ListCollapse.CollapseTwice | crates/sql-replay/src/fingerprint.rs:221-289 | Each collapsing pass is idempotent |
| ListCollapse.CollapseValid | crates/sql-replay/src/fingerprint.rs:221-289 | Each collapsing pass keeps text valid UTF-8 |
| StatementClasses.CaseAndPadding | crates/sql-replay/src/fingerprint.rs:11-90 | Letter case and surrounding white space never change the class of a statement |
| FingerprintUtf8.FingerprintValid | crates/sql-replay/src/fingerprint.rs:11-289 | The fingerprint of valid UTF-8 is valid UTF-8 through every stage, so no conversion back to a string fails |
| FingerprintUtf8.ExecutionValid | crates/sql-replay/src/mysqlproto.rs:1049-1146 | An execution of a valid statement with valid parameters is valid UTF-8, and so is its fingerprint |
| FingerprintScan.SkipString | crates/sql-replay/src/fingerprint.rs:142-161 | The skipper ends just past the closing quote or at the end, though its index may run past it |
| FingerprintScan.SkipNumber | crates/sql-replay/src/fingerprint.rs:164-196 | The skipper ends behind the literal: hex, decimal, fraction, exponent only with a digit |
| FingerprintScan.ReadToken | crates/sql-replay/src/fingerprint.rs:17-82 | One round of the loop consumes and emits as specified |
| FingerprintScan.NormalizeText | crates/sql-replay/src/fingerprint.rs:11-87 | The main loop, trimming and semicolon stripping compute the normalized text |
| FingerprintScan.GroupEnd | crates/sql-replay/src/fingerprint.rs:292-311 | A group of placeholders is recognized and its end found |
| FingerprintScan.CollapseInLists | crates/sql-replay/src/fingerprint.rs:221-244 | The loop computes the specified pass over IN lists |
| FingerprintScan.CollapseValuesLists | crates/sql-replay/src/fingerprint.rs:247-288 | The loop computes the specified pass over VALUES lists |
| FingerprintScan.ComputeFingerprint | crates/sql-replay/src/fingerprint.rs:11-90 | The whole function computes the specified fingerprint |
| InterpolationScan.IdsAreExact | crates/sql-replay/src/fingerprint.rs:326-346 | Below 2^32 classes an id stands for exactly one text |
| InterpolationScan.FingerprintRegistry.Intern | crates/sql-replay/src/fingerprint.rs:337-346 | A known class keeps its id, a new one gets the next; no id ever changes |
| Literals.ReadsBack | crates/sql-replay/src/mysqlproto.rs:1049-1065 | MySQL reads a string literal back as the parameter (section 9.1.1 of the MySQL 8.0 Reference Manual), unless a quote follows it |
| Literals.SkipsExactly | crates/sql-replay/src/fingerprint.rs:142-161 | The string skippers consume exactly a complete literal, unless a quote follows it |
| Literals.LiteralIsString | crates/sql-replay/src/mysqlproto.rs:1049-1065 | A literal is one complete single-quoted string |
| Literals.LiteralValid | crates/sql-replay/src/mysqlproto.rs:1049-1065 | A literal of valid text is valid text |
| Literals.StringLiteral | crates/sql-replay/src/mysqlproto.rs:1049-1065 | The loop over characters computes the literal |
| Interpolation.PartIsValid | crates/sql-replay/src/mysqlproto.rs:1081-1133 | Every slice falls on character boundaries, even behind a backslash that skipped half a character |
| Interpolation.ImageWeaves | crates/sql-replay/src/mysqlproto.rs:1074-1146 | The filled-in text is the pieces between the placeholders with the values between them |
| Interpolation.SqlWeaves | crates/sql-replay/src/mysqlproto.rs:1074-1146 | The statement itself is the same pieces with question marks between them |
| Interpolation.ImageValid | crates/sql-replay/src/mysqlproto.rs:1074-1146 | Valid values in valid text give valid text |
| InterpolationScan.Interpolate | crates/sql-replay/src/mysqlproto.rs:1074-1146 | The loop fills the code-level placeholders in order, or gives nothing when their number is not as expected or values run short; it never slices inside a character |
| Templates.TokenSync | crates/sql-replay/src/mysqlproto.rs:1081-1146 | A part that is no string and no placeholder is one step of the fingerprint loop, on the template and on its execution alike |
| Templates.AfterString | crates/sql-replay/src/mysqlproto.rs:1049-1146 | Behind a string the run on the execution is the run on the template with the marks of all parts that merge into that string dropped |
| Templates.WholeText | crates/sql-replay/src/mysqlproto.rs:1049-1146 | For all complete string values the run on the execution is the run on the template with all but the last mark of each touching group dropped |
| Templates.ShadowedShows | crates/sql-replay/src/fingerprint.rs:11-83 | With those marks kept it is the run on the template itself |
| Templates.ShadowsAreTouches | crates/sql-replay/src/mysqlproto.rs:1081-1146 | There is such a mark exactly when two placeholders or strings touch |
| Shadows.CutSemicolonsAlike | crates/sql-replay/src/fingerprint.rs:84-90 | Semicolons and space are stripped alike, whether the extra marks are kept or dropped |
| Shadows.ListsAlike | crates/sql-replay/src/fingerprint.rs:221-311 | A list is recognized alike, whether the extra marks are kept or dropped |
| Shadows.FoldedDrops | crates/sql-replay/src/fingerprint.rs:221-289 | Dropping the extra marks commutes with collapsing lists |
| StatementClasses.ExecutionNormalizesAlike | crates/sql-replay/src/mysqlproto.rs:1049-1146 | For string parameters an execution normalizes like its template if and only if no placeholder touches a single-quoted string or another placeholder |
| StatementClasses.ExecutionSharesClassIff | crates/sql-replay/src/fingerprint.rs:11-90 | Template and execution have one fingerprint if and only if all extra marks of touching placeholders and strings lie inside lists that are collapsed, read off the template |
| StatementClasses.ExecutionSharesClass | crates/sql-replay/src/fingerprint.rs:11-90 | In particular whenever nothing touches |
| StatementClasses.ListsHideTouching | crates/sql-replay/src/fingerprint.rs:221-311 | In an IN list of two adjacent placeholders they touch, and yet the template and all its executions have one fingerprint |
| StatementClasses.TouchingPlaceholdersSplitTheClass | crates/sql-replay/src/mysqlproto.rs:1049-1146 | Two adjacent placeholders merge into one literal, and no execution falls into the class of the template |
| InterpolationScan.InternExecution | crates/sql-replay/src/fingerprint.rs:337-346 | Below 2^32 classes template and execution get one class id if and only if no mark in shadow is left outside collapsed lists; then the execution adds no text, and otherwise exactly its own |
| SlowLog.ScanNewline | crates/sql-replay/src/slowlog.rs:416-465 | Scanning on behind a newline is scanning on with the next line |
| SlowLog.LinesScanAsOneText | crates/sql-replay/src/slowlog.rs:356-362 | Folding the scanner over the lines equals one scan of the joined text |
| SlowLog.RunTracks | crates/sql-replay/src/slowlog.rs:153-211 | After any lines the parser knows whether it stands inside a string or a comment of the statement so far |
| SlowLog.FinishOnce | crates/sql-replay/src/slowlog.rs:174-177 | No log yields an empty statement, and finish yields nothing a second time |
| SlowLogRoundTrip.SurvivesIff | crates/sql-replay/src/slowlog.rs:153-211 | A logged statement is read back whole if and only if no line of it ends in a carriage return, it does not start like metadata, and no header-looking line of it stands outside strings and comments |
| SlowLogRoundTrip.CrIsLost | crates/sql-replay/src/slowlog.rs:153-154 | Whatever else the lines hold, when one ends in a carriage return the text being read behind them is shorter than the statement |
| SlowLogRoundTrip.CrInAString | crates/sql-replay/src/slowlog.rs:153-154 | A carriage return at the end of a line inside a string literal is gone from the literal, with no header in sight |
| SlowLogEntries.UseParses | crates/sql-replay/src/slowlog.rs:502-518 | The use line of any database name, backticks included, parses back to the name |
| SlowLogEntries.EntryRun | crates/sql-replay/src/slowlog.rs:153-211 | The lines of an entry complete the statement before it and leave this one pending with its own fields, or for those it omits what the log said last |
| SlowLogEntries.LogRoundTrip | crates/sql-replay/src/slowlog.rs:153-211 | Rendering any list of entries and parsing the lines reports exactly these entries in order; user, id, database and date carry over from earlier entries when omitted, timestamp, schema and query time do not |
| SlowLogParsing.ScanSqlState | crates/sql-replay/src/slowlog.rs:416-465 | The loop computes the specified state, though its index may run past the end |
| SlowLogParsing.SlowLogParser.PushLine | crates/sql-replay/src/slowlog.rs:153-172 | One line changes the parser and completes a statement as specified |
| SlowLogParsing.SlowLogParser.ConsumeMetaLine | crates/sql-replay/src/slowlog.rs:180-211 | Headers, banners, use and timestamp lines have their specified effect, any other line begins a statement |
| SlowLogParsing.SlowLogParser.HandleHeader | crates/sql-replay/src/slowlog.rs:213-290 | Each kind of header updates its own fields |
| SlowLogParsing.SlowLogParser.HandleBanner | crates/sql-replay/src/slowlog.rs:294-328 | A restart banner forgets database and timestamp; column headers are swallowed |
| SlowLogParsing.SlowLogParser.AppendQueryLine | crates/sql-replay/src/slowlog.rs:356-362 | The line joins the text and the state follows it |
| SlowLogParsing.SlowLogParser.TakeQuery | crates/sql-replay/src/slowlog.rs:364-398 | The pending statement is cut of its semicolon and reported with the fields of its entry, which are then reset |
| SlowLogParsing.ParseLog | crates/sql-replay/src/slowlog.rs:153-177 | Pushing all lines and finishing yields the specified statements |
| ScannerAgreement.ScannersAgree | crates/sql-replay/src/slowlog.rs:416-465 | The slow-log scanner ends a text outside strings and comments if and only if interpolation takes a question mark on the next line for a placeholder |
| Digest.RowOrderDoesNotMatter | crates/sql-replay/src/target.rs:93-99 | The state of the digest is the same for every order of the rows |
| Digest.OneChangedRowShows | crates/sql-replay/src/target.rs:93-99 | Changing the hash of exactly one row always changes both the sum and the xor |
| Digest.HashedAlikeIff | crates/sql-replay/src/target.rs:101-116 | Two column lists hash the same bytes if and only if their names split into the same pieces at zero bytes |
| Digest.ToldApartIff | crates/sql-replay/src/target.rs:101-116 | A column list is told from every list without zero bytes if and only if it holds none itself |
| Digest.UniqueIff | crates/sql-replay/src/target.rs:101-116 | A column list is told from every other list at all if and only if it splits into at most one piece |
| Digest.ZeroByteMergesNames | crates/sql-replay/src/target.rs:101-116 | The name a, zero, b and the two names a and b hash alike |
| Digest.ChecksumBuilder.SetColumns | crates/sql-replay/src/target.rs:86-91 | The first result set with columns wins |
| Digest.ChecksumBuilder.AddRow | crates/sql-replay/src/target.rs:93-99 | The fields stay the state of the rows seen |
| Digest.ChecksumBuilder.Finish | crates/sql-replay/src/target.rs:101-116 | The checksum is that of the columns and rows seen |
| Digest.AggShape | crates/sql-replay/src/replay.rs:389-405 | The columns kept are those of the first checksummed event, and the flag says whether a later one differed from it |
| Digest.ShapeVariedIff | crates/sql-replay/src/replay.rs:389-405 | The shape flag is set if and only if two checksummed events had different column lists |
| Digest.InterleavingDoesNotMatter | crates/sql-replay/src/replay.rs:389-405 | Counters, digest input and shape flag are the same for every interleaving of sessions |
| Digest.ColumnsDependOnOrderIff | crates/sql-replay/src/replay.rs:389-405 | The reported column list is the same for every order of events if and only if the shape did not vary |
| Digest.FpChecksumAgg.Add | crates/sql-replay/src/replay.rs:389-405 | The fields stay the aggregate of the outcomes seen |
| Median.KthIff | crates/sql-replay/src/aggregate.rs:20-30 | The value at index k of the sorted list is the only one with at most k values below it and more than k not above it |
| Median.MedianIsWithin | crates/sql-replay/src/aggregate.rs:20-30 | The median lies between any bounds of the values, so the narrowing cast loses nothing |
| Median.PassOrderDoesNotMatter | crates/sql-replay/src/aggregate.rs:20-30 | The order of the passes is irrelevant |
| Median.MedianKeepsOrder | crates/sql-replay/src/aggregate.rs:20-30 | Pointwise order of two metrics survives the median, floored means included |
| Median.OutliersDoNotMatter | crates/sql-replay/src/aggregate.rs:20-30 | When fewer than half of the passes are arbitrarily wrong the median stays between two values of the others |
| Median.HalfIsTooMany | crates/sql-replay/src/aggregate.rs:20-30 | Half of the passes can carry the median beyond any bound |
| Median.AggregateIsOrdered | crates/sql-replay/src/aggregate.rs:120-155 | p50, p95, p99 and max stay in order in the aggregate |
| Median.SortInPlace | crates/sql-replay/src/aggregate.rs:20-22 | The vector is sorted in place |
| Median.MedianU64 | crates/sql-replay/src/aggregate.rs:20-30 | The method returns the median of the values it was given |

## Left out

- StatementClasses.ExecutionSharesClassIff: string parameters only; numbers, hexadecimal literals and NULL are rendered without quotes by code that is not modelled.
- Conversations.SegmentsToEvents: commands before their responses; the segments of different rounds may not be mixed, except that old ones may be repeated.
- Logins.ConnectionToEvents: likewise, the parts of a login arrive one after the other.
- SlowLogEntries.LogRoundTrip: every entry has a header line, no header ends in a carriage return, and a timestamp is digits the number reader accepts; its statement survives (no carriage return ends a line, by `SurvivesIff` a necessary condition) and neither is empty nor ends in white space, which the parser trims.
- Digest.RowOrderDoesNotMatter: different row multisets may still collide; only the change of exactly one row is proved to show.
- Packet capture framing, link layers, and IP and TCP header stripping: the engine starts at a parsed segment.
- Greeting, login and prepared-statement field extraction, and the rendering of binary parameter values as SQL text: they come in as parameters of the decoder. The string literals they rest on are modelled.
- The list of server versions seen and the warnings made from the counters: no effect on events.
- Overflow of 64-bit counters, of synthetic session ids and of the `i32` parenthesis depth: they are unbounded here; sequence numbers, stream offsets, packet ids, record lengths, class ids and digest sums wrap as in the program.
- Pacing, real time and latencies in floating point: timestamps are integers, waiting is a step that may be delayed forever by other sessions' steps.
- Read errors of the spool during a replay: sessions read their events without failing; the cursor itself reports overruns and corrupt records.
- The pool's final disconnects, file-descriptor hints and the choice of the connection cap: no effect on what is sent or counted.
- JSON and xxh3: JSON is any encoding with decode-after-encode, the hash any function of its input.
- Temporary files and their unlinking: the spool file is a byte sequence under positioned writes.
- The slow-log dialect label and the reading of dates, numbers and header fields: parameters of the parser.
- Floating-point medians, grouping of report rows by class and decade, and the rest of the report: filters and field copies around the integer median.
- `is_nondeterministic`: a heuristic list of function names with no specification.
- Report formatting, comparison, command line, memory tuning, signals and the MySQL client: I/O and presentation.
