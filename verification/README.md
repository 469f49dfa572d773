# Verified model of the game server cluster

The server is a cluster of processes: a login server hands users to gates, gates hold the users' connections and pass
them to game servers, and all of them talk over one hand-written TCP session class. This project models the parts
whose correctness does not depend on Boost.Asio, MySQL or protobuf, and proves what they are for.

| Files | Part of the server |
|---|---|
| `Framing`, `Sending`, `Reconnects`, `TcpSession`, `MessageFormat`, `EndToEnd` | the TCP session: cutting a byte stream into frames, packing a queue into batches with one write in flight, client sessions that connect again, the ten-byte header, and both ends put together |
| `GateModel`, `GateProofs`, `Admission`, `UserManager`, `ObjMap` | a gate's bookkeeping of transaction ids: awaited, online, waiting to reconnect; who gets in, and who stays out |
| `GameModel`, `GateManager` | the game server's end of the link |
| `Cluster`, `Orphans`, `Presence` | one gate and any number of game servers joined by connections that come and go: what each side may rely on about the other, and exactly when |
| `GateFindings`, `Accounts`, `Scenarios` | where the gate's bookkeeping falls short, with exact conditions and runs that get there |
| `SubsetSearch` | the search for elements that add up to a checksum |
| `Crc32`, `Md5`, `Cipher` | checksum, digest and table cipher |
| `DoubleBuffer` | the two-queue hand-over used by callbacks, task threads, server and client |
| `Packet`, `PacketStreams`, `Containers`, `Truncation`, `Restarts` | the nested-container serializer, its buffers, and packets whose bytes run out |
| `Balancing` | the least-loaded gate and the idle game server |
| `Vectors` | published values of the CRC and the digest, a frame and a packet byte for byte |
| `Bytes` | bytes, little-endian words, flattening |

## How it is built

What the source changes in place is a class or a method with a loop here (`TcpSession.Session`,
`UserManagers.UserManager`, `GateManagers.GateManager`, `ObjMap.ObjMap`, `Md5.Context`, `SubsetSearch.Combine`,
`Cipher.EncryptInto`, `Crc32.TableCrc32`, `DoubleBuffer.CallBackMgr`, `PacketStreams`, `Balancing`); its contract equates the new state with a
function of the old one. The functions form state machines and specifications about which the theorems are proved.
Locked regions are atomic steps; reads, write completions, timers, closes and link events are chosen freely, so the
theorems range over every interleaving.

Parameters stand for what lies outside: the compression library, the frame decoder, the random nonce, the ten
dictionary rows of the cipher, the clock, the idle game server offered to a login, the element order of sets and maps,
and the garbage in freshly allocated headers.

Logins are processed whenever a message of a session can be: also before the session's on_accept, since the read is
started first (`common/tcpsession.cpp` lines 83 and 89) and callbacks are polled before the message queue is swapped
(`common/tcpserver.cpp` lines 330 and 333).

That no game server is left with a session the gate has forgotten is not true of every run. `Cluster.Careful` is the exact
condition on a step: no login over an id that its game server still knows or will know, and no registration handled too
early. `Cluster.NoOrphans` proves that careful runs leave no orphan, `Orphans.OrphanIff` that every careless step can.
`Scenarios.OrphanByLateAccept` and `Scenarios.OrphanWithoutOrder` are runs from a fresh cluster that get there.

The rows about the message header model the calls cited; the header itself is written and read in
`common/message_interface.cpp` (lines 22 to 109). Likewise the packet's buffers are in `common/thread_buffer.h` (lines 151 to
224).

## What does not hold

The code is modelled as it is. Where it falls short of what one would expect, a lemma names the input and another the
exact condition.

- A payload of at most one byte is sent with an uninitialised header; the mask of any message is only or-ed onto stale
  memory (`MessageFormat.MessageRoundTrip`, `MessageFormat.ShortPayload`). The mask matters only where a compression
  library is installed; the programs of the repository all pass none (`gateserver/main.cpp` line 29 and its siblings), so
  `MessageFormat.DirtyMaskIsRejected` needs a configuration they do not use.
- Payloads of 64991 to 64999 bytes pass the length check but their frame never fits a batch; the session then starts
  empty writes for ever (`Sending.GuardAdmitsOversize`, `Sending.BlockedForEver`).
- A client session connects again without being reset, and a failed write leaves its busy flag set: from then on it
  never sends anything, on any connection (`Reconnects.SilentForEverIff`, `Reconnects.ReconnectedWritesIff`). A connection
  lost while a write is outstanding is enough.
- Closing empties the send queue without adjusting the byte count, which is why the accounting has a term for bytes
  given up (`Sending.Accounted`).
- After `digest()` with 56 to 63 bytes in the last block, continuing the same object is wrong (`Md5.ResumableIff`).
- A session that logs in again while it still holds an id - because its game server went away, or because its on_accept
  came after its first login - leaves a stale online entry; a later kick of the old id hits the new user
  (`GateFindings.OnlinesStaySoundIff`, `GateFindings.StaleKickMisfires`). If the game server still knows the old id, its
  session there is orphaned (`Scenarios.OrphanByLateAccept`).
- A registration that overtakes the close of an earlier connection can leave orphans (`Scenarios.OrphanWithoutOrder`).
- A kicked user is parked for a reconnect and may come back, to a game server that has removed it
  (`GateFindings.KickedMayReturnIff`, `GateFindings.KickedReturnsToNothing`); no reconnect is ever announced to the game
  server (`GateFindings.ReconnectStaysOffline`).
- The account of an online user may be unknown to the gate. `Accounts.AccountsStayKnownIff` lists exactly the steps that
  lose one: the everyday case is a user who drops and logs in again through the login server
  (`Accounts.DropAndReturn`), another the reconnect timer of an earlier close (`Accounts.StaleTimerForgetsAccount`).
- The game server crashes when a user goes offline before its hero has arrived (`GateManagers.GateManager.OfflineUser`).
- A gate that registers with the wrong version is told to close and registered nevertheless
  (`GateManagers.GateManager.ParseGateRegister`).
- A packet read to its last byte starts over instead of refusing further reads (`Truncation.PastTheEnd`), so a packet cut
  exactly behind a scalar or a size word may decode to a value nobody wrote: a head of six bytes does
  (`Truncation.TruncatedHeadIff`), and so does a list before a counter (`Restarts.SizeForACounter`). Every other cut is
  refused or overruns (`Truncation.CutIsRefused`); `Restarts.CutIsAcceptedIff` is the exact condition for any type.
- A string whose size word claims more bytes than are left is copied from behind the packet; the only check is an assertion
  after the copy, which release builds leave out, and the position then wraps as a 32-bit number
  (`Truncation.OverrunIff`).

## Model

| member | source | states |
|---|---|---|
| Framing.ChunkingIndependence | server/server/dreamheroes_server-master/common/tcpsession.cpp:360-411 | For every byte stream and every way of cutting it into reads, the messages delivered, the verdict (open, bad length, rejected frame) and the bytes held back equal those of one greedy parse of the whole stream |
| Framing.ParseSplits | server/server/dreamheroes_server-master/common/tcpsession.cpp:371-403 | Parsing a concatenation is parsing the first part and feeding the second to what was left over |
| Framing.LeftoverIsIncomplete | server/server/dreamheroes_server-master/common/tcpsession.cpp:379-402 | What is kept after a read is a strict prefix of one frame, shorter than MAX_MESSAGE_LEN, and a suffix of the stream; nothing is kept after a close |
| Framing.ParseFrames | server/server/dreamheroes_server-master/common/tcpsession.cpp:371-399 | Well-formed frames laid end to end parse to exactly their messages, once each and in order, whatever follows |
| Framing.ParsePrefix | server/server/dreamheroes_server-master/common/tcpsession.cpp:371-399 | Any byte prefix of well-formed frames delivers a prefix of their messages and is never rejected |
| Framing.BadLengthIff | server/server/dreamheroes_server-master/common/tcpsession.cpp:371-399 | A stream of ten bytes or more is closed at once if and only if its first length field is below 10 or above 65000 |
| TcpSession.Session.HandleReadSome | server/server/dreamheroes_server-master/common/tcpsession.cpp:360-411 | One read handler on the real buffers does to the reading state exactly one Feed of the chunk; error, invalid session and rejected frame have their own outcomes; whenever a read is re-armed the leftover leaves room for a full read in the double-size buffer |
| TcpSession.Session.CutFrames | server/server/dreamheroes_server-master/common/tcpsession.cpp:371-399 | The cutting loop terminates and delivers exactly the parse of the buffer, leaving its rest in place |
| TcpSession.Session.MoveToFront | server/server/dreamheroes_server-master/common/tcpsession.cpp:400-402 | The leftover is moved to the front unchanged |
| TcpSession.Session.UncompressMessage | server/server/dreamheroes_server-master/common/tcpsession.cpp:250-266 | A decodable frame is delivered; an undecodable one requests a close and delivers nothing |
| TcpSession.Session.SendMessage | server/server/dreamheroes_server-master/common/tcpsession.cpp:218-239 | Queueing a message takes exactly the Send step, including the queue limit that closes instead of posting a write |
| TcpSession.Session.PackBatch | server/server/dreamheroes_server-master/common/tcpsession.cpp:336-349 | The packing loop copies exactly the longest fitting run of queued messages into the sending buffer, in order, and removes it from the queue |
| TcpSession.Session.WriteMessage | server/server/dreamheroes_server-master/common/tcpsession.cpp:321-358 | Takes exactly the write step: deduct the size sent, then start a batch unless closed, busy or empty |
| TcpSession.Session.CompleteWrite | server/server/dreamheroes_server-master/common/tcpsession.cpp:418-423 | A completed write clears the busy flag and leaves its size still to be deducted |
| TcpSession.Session.FinishWrite | server/server/dreamheroes_server-master/common/tcpsession.cpp:424-424 | The deferred deduction of one completed write, in any order among those pending |
| TcpSession.Session.FailWrite | server/server/dreamheroes_server-master/common/tcpsession.cpp:426-427 | A failed write closes the session and drops the queue |
| TcpSession.Session.OnClose | server/server/dreamheroes_server-master/common/tcpsession.cpp:287-319 | Empties the queue and disconnects; the byte count keeps the dropped bytes |
| TcpSession.Session.constructor | server/server/dreamheroes_server-master/common/tcpsession.h:64-75 | A fresh session with its three buffers satisfies the invariant |
| Sending.StepKeepsInv | server/server/dreamheroes_server-master/common/tcpsession.cpp:218-239 | Every step keeps: byte count = queued + in flight + completed but not deducted + given up by a close; at most one write outstanding, of at most MAX_MESSAGE_LEN bytes; bytes written are a prefix of those accepted with nothing missing while connected; a waiting message always has something due that will send it |
| Sending.AccountingOverRuns | server/server/dreamheroes_server-master/common/tcpsession.cpp:413-428 | All of the above after any interleaving of sends, posted calls, completions, deductions, closes and errors |
| Sending.QuiescentMeansSent | server/server/dreamheroes_server-master/common/tcpsession.cpp:321-358 | When nothing is due any more on a connected session below its limit, the queue is empty, every accepted byte has been written in order, and the count is zero |
| Sending.LimitIff | server/server/dreamheroes_server-master/common/tcpsession.cpp:218-239 | A limited connection is closed by a message if and only if that brings the bytes accepted and not yet deducted to thirty full batches; otherwise a write is posted |
| Sending.ClosedRun | server/server/dreamheroes_server-master/common/tcpsession.cpp:178-201 | Over every run after a close no message is accepted and no write started; at most the outstanding one still ends |
| Sending.BatchBounds | server/server/dreamheroes_server-master/common/tcpsession.cpp:336-349 | A batch never exceeds MAX_MESSAGE_LEN and stops only at a message that does not fit |
| Sending.StepProgress | server/server/dreamheroes_server-master/common/tcpsession.cpp:321-358 | If every queued message fits a batch, each step of the I/O service uses up work that was already due |
| Sending.RunIsFinite | server/server/dreamheroes_server-master/common/tcpsession.cpp:321-358 | A run is no longer than the work due at its start plus what was sent meanwhile, so all writes finish |
| Sending.EmptyBatchIff | server/server/dreamheroes_server-master/common/tcpsession.cpp:337-349 | A batch from a non-empty queue takes nothing exactly when the first message is larger than the buffer |
| Sending.GuardAdmitsOversize | server/server/dreamheroes_server-master/common/tcpsession.cpp:136-163 | The length check of send_message admits exactly the payload lengths 64991 to 64999 whose uncompressed frame never fits a batch and blocks the connection; every other admitted frame is written whole |
| Sending.BlockedForEver | server/server/dreamheroes_server-master/common/tcpsession.cpp:336-357 | Behind an oversize message no step but an error close ever writes another byte |
| Sending.BlockedRun | server/server/dreamheroes_server-master/common/tcpsession.cpp:336-357 | The same over every run |
| Sending.BlockedCycle | server/server/dreamheroes_server-master/common/tcpsession.cpp:351-357 | The empty write that is started completes into the very same state: it repeats for ever |
| Reconnects.SilentForEverIff | server/server/dreamheroes_server-master/common/tcpclient.cpp:77-144 | Over every life of a client session, through any number of connections: some further course of events can still get a byte onto the network if and only if none of its writes has ever failed |
| Reconnects.StuckStepIff | server/server/dreamheroes_server-master/common/tcpsession.cpp:413-428 | One step: a client gets stuck by a failed write and by nothing else, connecting again does not free it, and a stuck client writes nothing |
| Reconnects.CanWriteIff | server/server/dreamheroes_server-master/common/tcpsession.cpp:321-358 | From any state, a byte can still be written if and only if the busy flag is down or stands for an outstanding write |
| Reconnects.ReconnectedWritesIff | server/server/dreamheroes_server-master/common/tcpclient.cpp:77-106 | After a reconnect the next message is handed to the network whole if the last connection left the busy flag down, and stays in the queue if not |
| TcpSession.Session.HandleConnect | server/server/dreamheroes_server-master/common/tcpclient.cpp:77-106 | A connection made raises the connected flag of the same session and changes nothing else; on_connect is due exactly when the flag was down |
| TcpSession.Session.BeginReadMessage | server/server/dreamheroes_server-master/common/tcpsession.cpp:241-248 | What the last connection left half read is forgotten and a read is started; the sending side is untouched |
| EndToEnd.DeliveredIsPrefix | server/server/dreamheroes_server-master/common/tcpsession.cpp:321-428 | At every moment of every run of the sender, with errors and closes, and however the network re-chunks the bytes, the receiver has delivered a prefix of the queued messages in order and has not rejected anything |
| EndToEnd.DeliveredExactly | server/server/dreamheroes_server-master/common/tcpsession.cpp:321-428 | Once the sender is quiescent, still connected and below its limit, a receiver of all written bytes has delivered exactly the queued messages, once each and in order, with nothing left over |
| EndToEnd.PayloadsDelivered | server/server/dreamheroes_server-master/common/tcpsession.cpp:136-163 | The same for payloads of every length send_message accepts, through the real header format, on both paths - compressing or plain - and decoding, for payloads that meet the exact conditions of the round trip |
| EndToEnd.SurvivesIff | server/server/dreamheroes_server-master/common/tcpsession.cpp:250-285 | A queued payload comes back from its frame if and only if it survives: the condition PayloadsDelivered asks of each one |
| MessageFormat.MessageRoundTrip | server/server/dreamheroes_server-master/common/tcpsession.cpp:250-280 | For every payload length send_message accepts, 1 to 64999, and every lawful compression library: the payload comes back from its frame if and only if what is sent fits a frame, has two bytes or more or meets a stale length field that happens to be right, and is seen as compressed exactly if it is - or the library turns the plain payload into itself |
| MessageFormat.PlainRoundTrip | server/server/dreamheroes_server-master/common/tcpsession.cpp:282-285 | The exact condition for the path that does not compress, under a library other sessions may use |
| MessageFormat.MadeArrivesIff | server/server/dreamheroes_server-master/common/tcpsession.cpp:250-285 | A frame made of any payload opens to given data if and only if its framing is accepted and its payload opens to them |
| MessageFormat.MadeHeader | server/server/dreamheroes_server-master/common/tcpsession.cpp:282-285 | The header holds a truthful length and, in its last four bytes, the CRC of the payload as a word that a load on the same machine returns; the compression flag is set if asked for or if the uninitialised mask already had it |
| MessageFormat.ShortPayload | server/server/dreamheroes_server-master/common/tcpsession.cpp:282-285 | A payload of at most one byte is framed if and only if the uninitialised header happens to hold the right length, and comes back if and only if, besides, no library takes it for compressed or the library turns it into itself |
| MessageFormat.DirtyMaskIsRejected | server/server/dreamheroes_server-master/common/tcpsession.cpp:250-285 | A concrete frame from dirty memory that the receiver closes the connection over |
| MessageFormat.PackIff | server/server/dreamheroes_server-master/common/tcpsession.cpp:270-280 | A payload of at most 512 bytes travels as it is, a longer one compressed if and only if the library makes it shorter |
| Vectors.FrameOfDigits | server/server/dreamheroes_server-master/common/tcpsession.cpp:282-285 | One frame spelled out byte for byte: the length and the CRC with their low bytes first, the flag in the high bit of the mask |
| Crc32.TableIsBitwise | server/server/dreamheroes_server-master/common/crypt.cpp:8-62 | Each of the 256 table constants is eight steps of the bitwise reflected division by 0xEDB88320 (section 8 of RFC 1952) |
| Crc32.DoOneIsStep | server/server/dreamheroes_server-master/common/crypt.cpp:127-127 | One table step, with its sign-extended byte, equals eight bitwise steps |
| Crc32.TableCrc32 | server/server/dreamheroes_server-master/common/crypt.cpp:140-156 | The table-driven, eight-way unrolled loop computes the bitwise CRC of every input from every start value, and 0 for a null pointer |
| Crc32.CrcChains | server/server/dreamheroes_server-master/common/crypt.cpp:140-156 | The CRC of a followed by b is the CRC of b started from the CRC of a |
| Crc32.BurstDetected | server/server/dreamheroes_server-master/common/crypt.cpp:130-139 | Two different messages of equal length that agree outside 32 consecutive bits, at any bit offset, have different CRCs |
| Crc32.FourByteChangeDetected | server/server/dreamheroes_server-master/common/crypt.cpp:130-139 | In particular every change confined to four consecutive bytes is detected |
| Crc32.Checksum | server/server/dreamheroes_server-master/common/crypt.cpp:136-139 | Accepts exactly the CRC of the data |
| Vectors.CrcOfDigits | server/server/dreamheroes_server-master/common/crypt.cpp:140-156 | The published check value: the CRC of the digits 1 to 9 is 0xCBF43926 |
| Md5.Transform | server/server/dreamheroes_server-master/common/md5.cpp:215-297 | The 64 unrolled operations on in-place rotated variables are the 64 table-driven steps of section 3.4 of RFC 1321 |
| Md5.Decode | server/server/dreamheroes_server-master/common/md5.cpp:315-321 | Sixteen little-endian words of a block |
| Md5.Context.Update | server/server/dreamheroes_server-master/common/md5.cpp:147-179 | After any update the chaining words are the fold over the complete 64-byte blocks of everything absorbed, the buffer starts with the remainder, and the count words hold eight times the length modulo 2^64; the rest of the buffer is stated too |
| Md5.Context.Final | server/server/dreamheroes_server-master/common/md5.cpp:184-212 | The digest is that of the message with the padding and length of sections 3.1 and 3.2 of RFC 1321; state and counts come back, and what the clobbered buffer then stands for is stated exactly |
| Md5.Context.Ask | server/server/dreamheroes_server-master/common/md5.cpp:96-102 | digest() returns the one-shot value and always recomputes |
| Md5.Context.Reset | server/server/dreamheroes_server-master/common/md5.cpp:105-115 | Starts an empty message |
| Md5.PaddedLength | server/server/dreamheroes_server-master/common/md5.cpp:198-204 | The padded message is a whole number of blocks |
| Md5.CountsAdd | server/server/dreamheroes_server-master/common/md5.cpp:156-159 | The two 32-bit count words with the wrap test add eight times the length modulo 2^64 |
| Md5.CountBytes | server/server/dreamheroes_server-master/common/md5.cpp:195-204 | The encoded counts are the 64-bit bit length, low byte first |
| Md5.ResumableIff | server/server/dreamheroes_server-master/common/md5.cpp:184-212 | After digest() the object still stands for the same message if and only if fewer than 56 bytes stood in the last block, or the tail happened to equal the padding bytes that overwrite it |
| Md5.EarlyAsksAreHarmless | server/server/dreamheroes_server-master/common/md5.cpp:96-102 | Below the padding edge, asking for digests any number of times between updates changes nothing |
| Md5.NotResumable | server/server/dreamheroes_server-master/common/md5.cpp:184-212 | Once 56 one-bytes have been digested, a second digest() is that of 56 zero bytes, and one after any update that of 56 zero bytes and the update |
| Vectors.DigestOfNothing | server/server/dreamheroes_server-master/common/md5.cpp:30-61 | The digest of the empty message is the one published in section A.5 of RFC 1321, through all 64 steps, the padding and the byte order of the result |
| Md5.Selects | server/server/dreamheroes_server-master/common/md5.cpp:30-30 | F takes the bits of its second argument where the first is set, and those of the third where it is not |
| Md5.SelectsBackwards | server/server/dreamheroes_server-master/common/md5.cpp:31-31 | G is F with the third argument selecting |
| Md5.Parity | server/server/dreamheroes_server-master/common/md5.cpp:32-32 | H is the parity of its arguments |
| Md5.Flips | server/server/dreamheroes_server-master/common/md5.cpp:33-33 | I flips the bits of its second argument where the first is set or the third is not |
| Md5.Rotates | server/server/dreamheroes_server-master/common/md5.cpp:37-37 | All sixteen rotations in use are rotations of the 32-bit word |
| Cipher.InitDictionary | server/server/dreamheroes_server-master/common/crypt.cpp:80-96 | The triple loop builds the reverse of every row (value 256 truncated to 0 where a value is missing) |
| Cipher.ReverseUndoesIff | server/server/dreamheroes_server-master/common/crypt.cpp:83-94 | The reversed row undoes a row on every byte if and only if the row is duplicate-free |
| Cipher.ReverseIsInverse | server/server/dreamheroes_server-master/common/crypt.cpp:83-94 | For a duplicate-free row it is the inverse on the other side too |
| Cipher.RoundTripIff | server/server/dreamheroes_server-master/common/crypt.cpp:97-125 | Decrypting an encryption returns the input for every key, nonce and input if and only if every row is duplicate-free |
| Cipher.ThereAndBack | server/server/dreamheroes_server-master/common/crypt.cpp:97-125 | What becomes of the byte at each position through both directions |
| Cipher.EncryptInto | server/server/dreamheroes_server-master/common/crypt.cpp:97-111 | In place, every byte is replaced through the row chosen by the nonce and its position and mixed with the key, and the nonce appended; key 0 changes nothing |
| Cipher.DecryptInto | server/server/dreamheroes_server-master/common/crypt.cpp:112-125 | The loop, also in place, recovers the plaintext prefix and its length |
| SubsetSearch.Search | server/server/dreamheroes_server-master/common/utilities.h:199-210 | For a length of at most 1024 success is reported exactly when some non-empty set of elements adds up to the target; the result is such a set of the smallest size at strictly decreasing positions; on failure the output is untouched; longer inputs are refused |
| SubsetSearch.Combine | server/server/dreamheroes_server-master/common/utilities.h:158-197 | The recursion over the overwritten index array finds a solution extending the chosen positions or has ruled out every one |
| SubsetSearch.AnyPrefix | server/server/dreamheroes_server-master/common/utilities.h:172-180 | The running sum hits the target exactly when some non-empty prefix of the choice does |
| SubsetSearch.CollectPrefix | server/server/dreamheroes_server-master/common/utilities.h:182-193 | The first hit is collected into the output |
| SubsetSearch.SolutionListed | server/server/dreamheroes_server-master/common/utilities.h:158-197 | Every solving set appears among the decreasing lists the search enumerates, at its own size |
| SubsetSearch.DescendingSolves | server/server/dreamheroes_server-master/common/utilities.h:182-193 | A decreasing list with the right sum is a solving set of as many elements |
| GateProofs.StepKeepsTokens | server/server/dreamheroes_server-master/gateserver/user_manager.cpp:10-183 | Every gate step - announcement, kick, accept, login before or after it, close, either timer, link up or down - keeps the ids unique |
| Cluster.TokensUnique | server/server/dreamheroes_server-master/gateserver/user_manager.cpp:10-183 | After every run, careful or not, the wait, online and reconnect maps are disjoint, at most one session object holds any id, awaited and reconnecting ids are held by none, and no id is recorded for two accounts |
| GateProofs.StepKeepsBackedIff | server/server/dreamheroes_server-master/gateserver/user_manager.cpp:29-183 | A gate step leaves an id that a game server still knows without an owner if and only if it is an accepted login of the session that holds it; every other step takes the id over, parks it, or removes it there by the message it posts |
| GateProofs.StepKeepsActive | server/server/dreamheroes_server-master/gateserver/user_manager.cpp:29-183 | Messages go to active game servers only, and only link events change which are active |
| Admission.RefusedLogin | server/server/dreamheroes_server-master/gateserver/user_manager.cpp:149-183 | A refused client's session waits to be closed and keeps its ids, the id asked for is no longer awaited, nobody else is affected and nothing is posted |
| Admission.ConnectedLogin | server/server/dreamheroes_server-master/gateserver/user_session.cpp:72-87 | A connected session is left alone, whatever login it sends |
| Admission.AcceptedLogin | server/server/dreamheroes_server-master/gateserver/user_manager.cpp:149-183 | An accepted user is online on this session; a new one plays on the idle game server, which is told its id and announced account, one that comes back where it played, and nobody is told |
| Admission.KickReaches | server/server/dreamheroes_server-master/gateserver/user_manager.cpp:29-58 | A kick reaches an online, awaited or parked user: no login under its id is accepted on any session, its session is told to close, all other ids are as before |
| Admission.KickedStaysOut | server/server/dreamheroes_server-master/gateserver/user_manager.cpp:29-58 | After any further run in which no close parks its id, no login under a kicked id is accepted |
| Admission.WayBackIff | server/server/dreamheroes_server-master/gateserver/user_manager.cpp:118-136 | An issued id that is neither awaited nor parked becomes so again by one step only: the close of a session that still plays under it on an active game server |
| Admission.KickedIsGoneIff | server/server/dreamheroes_server-master/gateserver/user_manager.cpp:29-58 | A kick settles the matter at once if and only if no session holds the id |
| Admission.GoneForGood | server/server/dreamheroes_server-master/gateserver/user_manager.cpp:10-183 | Over every run, an id that nobody holds and that is neither awaited nor parked never comes back |
| Admission.AnnouncedOnce | server/server/dreamheroes_server-master/gateserver/user_manager.cpp:149-167 | Over every run a user is announced to a game server at most once, and not at all once it is no longer awaited |
| Admission.CloseOutcome | server/server/dreamheroes_server-master/gateserver/user_manager.cpp:118-136 | A closed session is free again; its user is parked and reported offline if it was playing on an active game server, otherwise its account is forgotten and the game server told to remove it |
| Admission.LostLinkOutcome | server/server/dreamheroes_server-master/gateserver/user_manager.cpp:59-93 | A lost game server: its online users are told to leave and its reconnects forgotten, all other sessions are left alone |
| Admission.AnnounceOutcome | server/server/dreamheroes_server-master/gateserver/user_manager.cpp:10-23 | An announced user is awaited under the account first announced while a timer runs, and kicked before if still online |
| Admission.ExpiredWait | server/server/dreamheroes_server-master/gateserver/user_manager.cpp:24-28 | When the wait timer fires the id is no longer awaited, and no login under it is accepted unless it is parked |
| Admission.AcceptOutcome | server/server/dreamheroes_server-master/gateserver/user_session.cpp:100-104 | A session taken from the accept queue waits for a login and keeps the ids it held |
| Admission.StepKeepsTimed | server/server/dreamheroes_server-master/gateserver/user_manager.cpp:10-28 | Every step starts and spends exactly its timers, and every awaited or parked id has a running one |
| Admission.AlwaysTimed | server/server/dreamheroes_server-master/gateserver/user_manager.cpp:10-148 | Over every run no id is awaited or parked without a timer that ends it |
| Admission.RegistersIff | server/server/dreamheroes_server-master/gateserver/game_manager.cpp:61-76 | Game servers register under the ids 1 to 254 and no others |
| GateProofs.OwnerIsUnique | server/server/dreamheroes_server-master/gateserver/user_session.cpp:11-86 | The session that holds an owned id is the one bound to that game server, and the id is not parked |
| Cluster.StepKeepsInv | server/server/dreamheroes_server-master/gameserver/gate_manager.cpp:53-127 | Every careful step of gate, game servers and connections keeps the link invariant: what a game server knows or is about to learn over the current connection is backed by the gate, and closing the registered connection leaves nothing behind that could still be added to |
| Cluster.NoOrphans | server/server/dreamheroes_server-master/gameserver/gate_manager.cpp:53-127 | Along every run of careful steps, with the messages to a game server drained, each session it keeps belongs to an id held by an open gate session bound to that server or waiting at the gate to reconnect to it |
| Orphans.OrphanIff | server/server/dreamheroes_server-master/gameserver/gate_manager.cpp:53-127 | The exact condition: from any state careful steps have led to, a step makes it possible for careful steps to reach an orphan if and only if the step is not careful - it logs a session in over an id its game server knows or will know, or has a registration handled while the connection registered before is the current one or still announces users, or while users are left for the new one |
| Orphans.OrderIsEnough | server/server/dreamheroes_server-master/gameserver/gate_session.cpp:58-81 | A registration handled when every earlier connection has been seen closing is always careful |
| Orphans.CarelessLogin | server/server/dreamheroes_server-master/gateserver/user_session.cpp:72-87 | Every login over an id still expected at the game server can leave an orphan, with no further login or registration |
| Orphans.EarlyForMessages | server/server/dreamheroes_server-master/gameserver/gate_session.cpp:58-81 | So can every registration handled while the connection registered before still announces users, for any number of connections open |
| Orphans.EarlyForUsers | server/server/dreamheroes_server-master/gameserver/gate_session.cpp:58-81 | So can every registration of the current connection while users from before are left |
| Orphans.EarlyForCurrent | server/server/dreamheroes_server-master/gameserver/gate_session.cpp:58-81 | So can every registration of a stale connection in place of the current one |
| Presence.PlayersArePresent | server/server/dreamheroes_server-master/gateserver/user_manager.cpp:29-183 | The other way round: along every run with registrations handled in order, once the messages have arrived over a connection that still stands, an active game server has a session for every id that a connected gate session plays under there or that waits to reconnect to it, unless that id was kicked |
| Presence.StepPresent | server/server/dreamheroes_server-master/gateserver/user_manager.cpp:29-183 | Every gate step announces the ids it binds to a game server and removes none that stays bound, kicked ids aside |
| Presence.StepPresentIff | server/server/dreamheroes_server-master/gateserver/user_manager.cpp:29-58 | Step by step: ids bound to a game server all stay known there if and only if the step is not a kick that reaches an id bound there |
| Cluster.DrainSnoc | server/server/dreamheroes_server-master/gameserver/gate_session.cpp:14-43 | Draining a queue of messages is processing them one by one |
| Scenarios.OrphanWithoutOrder | server/server/dreamheroes_server-master/gameserver/gate_manager.cpp:53-68 | A run from a fresh cluster in which the game server handles the new registration before it sees the old connection close, and keeps a user the gate has forgotten |
| Scenarios.OrphanByLateAccept | server/server/dreamheroes_server-master/common/tcpsession.cpp:73-92 | A run from a fresh cluster without any lost link that leaves an orphan: a login is handled before the on_accept of its session, which then lets a second login take the session away |
| Scenarios.SecondLoginIsCareless | server/server/dreamheroes_server-master/gateserver/user_session.cpp:72-87 | Its last login is a careless step from a reached state that satisfies the invariant: what CarelessLogin asks for does happen |
| Scenarios.FindingsAreReached | server/server/dreamheroes_server-master/gateserver/user_manager.cpp:10-183 | The state the findings about kicks, reconnects and accounts speak of is reached from a fresh cluster |
| Scenarios.ReloginIsReached | server/server/dreamheroes_server-master/gateserver/user_manager.cpp:59-93 | So is the state in which a session that was told to close logs in again |
| GateFindings.HangupPurgesIff | server/server/dreamheroes_server-master/gameserver/gate_manager.cpp:53-68 | A closing connection takes the gate's users with it exactly when it is the registered one, or there are none |
| GateFindings.OnlinesStaySoundIff | server/server/dreamheroes_server-master/gateserver/user_manager.cpp:149-183 | The online map names sessions that hold the entry's id after a step if and only if the step is not an accepted login of a session that still held an online id |
| GateFindings.StaleKickMisfires | server/server/dreamheroes_server-master/gateserver/user_manager.cpp:29-41 | After such a login, kicking the old id closes the session of the new one |
| GateFindings.KickedMayReturnIff | server/server/dreamheroes_server-master/gateserver/user_manager.cpp:29-41 | A kicked online user is parked for a reconnect when its session closes if and only if the session was connected and its game server is still active |
| GateFindings.KickedReturnsToNothing | server/server/dreamheroes_server-master/gateserver/user_manager.cpp:118-183 | It can then log in again, to a game server that was told to remove it and is not told of its return |
| GateFindings.ReconnectStaysOffline | server/server/dreamheroes_server-master/gateserver/user_manager.cpp:170-179 | A reconnect posts nothing, so the session the close marked offline stays offline |
| Accounts.AccountsStayKnownIff | server/server/dreamheroes_server-master/gateserver/user_manager.cpp:10-183 | While every online user's account is recorded, a step keeps it so if and only if it is not a kick that takes another online user's entry away, not a login whose account is still recorded for an earlier id, not the return of an id whose account was lost, and not a reconnect timer firing for a user who has come back |
| Accounts.DropAndReturn | server/server/dreamheroes_server-master/gateserver/user_manager.cpp:46-57 | A user who drops and logs in again through the login server is online without a recorded account |
| Accounts.StaleTimerForgetsAccount | server/server/dreamheroes_server-master/gateserver/user_manager.cpp:137-148 | The timer started by an earlier close erases the account of a user who has come back and stays online |
| UserManagers.UserManager.KickUser | server/server/dreamheroes_server-master/gateserver/user_manager.cpp:29-58 | The objects' new state and the messages sent are those of the model's kick: the id is online nowhere; the session it was on is told to close, and one that was not online is neither awaited nor parked |
| UserManagers.UserManager.AddToWait | server/server/dreamheroes_server-master/gateserver/user_manager.cpp:10-23 | Likewise for an announcement, kicking a user still online first; the login server is told that the user is awaited |
| UserManagers.UserManager.CheckConn | server/server/dreamheroes_server-master/gateserver/user_manager.cpp:149-183 | All outcomes of a login: awaited with and without an idle game server, reconnecting, unknown; the session is connected if accepted and waits to be closed if not, and its id is not yet assigned |
| UserManagers.UserManager.ParseLoginGame | server/server/dreamheroes_server-master/gateserver/user_session.cpp:72-87 | A connected session is left alone; an accepted one is connected under the id, a refused one waits to be closed with its old ids; everything else is the model's login step |
| UserManagers.UserManager.CheckClose | server/server/dreamheroes_server-master/gateserver/user_manager.cpp:118-136 | Parks or forgets a closing session's user, with the matching message and timer |
| UserManagers.UserManager.OnClose | server/server/dreamheroes_server-master/gateserver/user_session.cpp:106-112 | Closing is the model's close step |
| UserManagers.UserManager.OnAccept | server/server/dreamheroes_server-master/gateserver/user_session.cpp:100-104 | An accepted session waits for its login |
| UserManagers.UserManager.RemoveUsers | server/server/dreamheroes_server-master/gateserver/user_manager.cpp:59-93 | The walk over a copy of the online map tells every online session of the lost game server to close, and its reconnects are forgotten |
| UserManagers.UserManager.EventCallRemoveWait | server/server/dreamheroes_server-master/gateserver/user_manager.cpp:24-28 | The wait timer |
| UserManagers.UserManager.EventCallRemoveReconn | server/server/dreamheroes_server-master/gateserver/user_manager.cpp:137-148 | The reconnect timer, which erases the account entry even of a user that has come back |
| UserManagers.UserManager.RemoveActiveGameClient | server/server/dreamheroes_server-master/gateserver/game_manager.cpp:77-98 | A closing client takes its game server down only if it is the registered one; otherwise nothing changes |
| UserManagers.UserManager.AddActiveGameClient | server/server/dreamheroes_server-master/gateserver/game_manager.cpp:61-76 | The last client to register an id is the registered one; ids outside 1 to 254 are refused |
| UserManagers.UserSession.SetState | server/server/dreamheroes_server-master/gateserver/user_session.cpp:11-49 | Only becoming disabled clears the ids |
| GateManagers.GateManager.RemoveGate | server/server/dreamheroes_server-master/gameserver/gate_manager.cpp:53-68 | Purges users and slot only for the connection registered under its id |
| GateManagers.GateManager.RemoveUserByGate | server/server/dreamheroes_server-master/gameserver/gate_manager.cpp:101-117 | The erasing loop removes exactly the users of that gate |
| GameModel.AddOutcome | server/server/dreamheroes_server-master/gameserver/gate_manager.cpp:75-99 | A new user plays for its account through its gate; a known id is never taken over, and only its own account through its own gate puts it online again |
| GameModel.IdentityKept | server/server/dreamheroes_server-master/gameserver/gate_session.cpp:14-43 | Whatever a gate sends, a session that stays on the game server keeps its account and gate, and a message touches only the id it names |
| GateManagers.GateManager.AddUser | server/server/dreamheroes_server-master/gameserver/gate_manager.cpp:75-99 | New session, reconnect of the same user, or a refusal that changes nothing and returns null |
| GateManagers.GateManager.OfflineUser | server/server/dreamheroes_server-master/gameserver/gate_manager.cpp:119-127 | Marks the one session offline, and crashes exactly for a user whose hero has not arrived |
| GateManagers.GateManager.RemoveUser | server/server/dreamheroes_server-master/gameserver/gate_manager.cpp:178-187 | Erases the one session |
| GateManagers.GateManager.AddGate | server/server/dreamheroes_server-master/gameserver/gate_manager.cpp:19-34 | Registers within 1 to 254, refuses otherwise |
| GateManagers.GateManager.ParseGateRegister | server/server/dreamheroes_server-master/gameserver/gate_session.cpp:58-81 | A gate with the wrong version is told to close and registered all the same |
| GateManagers.GateManager.ParseMessage | server/server/dreamheroes_server-master/gameserver/gate_session.cpp:14-43 | The three user messages are the model's receive step under the connection's gate id; only an offline message for a user without a hero crashes |
| ObjMap.ObjMap.AddData | server/server/dreamheroes_server-master/common/common_template.h:95-104 | Never overwrites, and says whether it added |
| ObjMap.ObjMap.GetData | server/server/dreamheroes_server-master/common/common_template.h:79-94 | Finds exactly the keys of the map, with their values |
| ObjMap.ObjMap.EraseData | server/server/dreamheroes_server-master/common/common_template.h:108-118 | Erases one key and hands back its value |
| ObjMap.ObjMap.EraseValue | server/server/dreamheroes_server-master/common/common_template.h:137-169 | The erasing walk drops exactly the entries with the value (WIN32 branch) |
| ObjMap.ObjMap.GetKey | server/server/dreamheroes_server-master/common/common_template.h:120-136 | The smallest key with the value, if there is one |
| ObjMap.ListsOnce | server/server/dreamheroes_server-master/common/common_template.h:75-186 | A map's ordered entries are determined by the map |
| DoubleBuffer.StepKeepsOneQueue | server/server/dreamheroes_server-master/common/task_thread_pool.cpp:22-59 | Every step of producers and consumer keeps: consumed items, the rest of the drained queue and the current queue are together everything pushed, in order |
| DoubleBuffer.FirstInFirstOut | server/server/dreamheroes_server-master/common/tcpserver.cpp:332-354 | Along every interleaving the consumed items are a prefix of those pushed, each once, and all of them when the consumer rests on an empty queue |
| DoubleBuffer.DrainedAlone | server/server/dreamheroes_server-master/common/tcpclient.cpp:196-218 | A swap makes an empty queue current; a push never touches the queue being drained |
| DoubleBuffer.DrainEndsWithTheSwapped | server/server/dreamheroes_server-master/common/tcpserver.cpp:341-354 | A drain handles exactly the queue it swapped out, however much is pushed meanwhile |
| DoubleBuffer.DrainHandlesTheSwapped | server/server/dreamheroes_server-master/common/tcpserver.cpp:345-354 | At every moment of a drain a front part of that queue is handled and the rest is left |
| DoubleBuffer.DrainEnds | server/server/dreamheroes_server-master/common/call_back.cpp:18-24 | A drain ends: pushes add nothing to its work, each consumer step takes some away, and one is always possible |
| DoubleBuffer.CallBackMgr.Poll | server/server/dreamheroes_server-master/common/call_back.cpp:7-25 | Runs every callback queued before the swap once and in order, terminates although callbacks push more, and leaves exactly those for the next poll |
| DoubleBuffer.CallBackMgr.Push | server/server/dreamheroes_server-master/common/call_back.h:45-51 | Appends to the current queue |
| Packet.RoundTrip | server/server/dreamheroes_server-master/common/packet_interface.h:35-282 | For every nested type and value with sizes below 2^32 and whatever follows in the buffer, reading what was written returns the same value and leaves the position just behind it - or at the start, when a read took the buffer's last byte |
| Packet.DecodedIsTyped | server/server/dreamheroes_server-master/common/packet_interface.h:165-282 | Whatever bytes arrive, a value read without an exception and without overrunning the packet has the type asked for, with sets and maps ordered and free of duplicates |
| Packet.ReadIsStable | server/server/dreamheroes_server-master/common/packet_interface.h:35-282 | Writing a value that was read from arbitrary bytes and reading it again changes nothing |
| Packet.CollectAscending | server/server/dreamheroes_server-master/common/packet_interface.h:251-282 | Inserting a set's elements, or assigning a map's entries, in iteration order rebuilds it |
| Containers.SetKeepsTheFirst | server/server/dreamheroes_server-master/common/packet_interface.h:251-265 | For every strict weak order and every sequence of elements on the wire, the set read holds exactly the first of each group of like elements |
| Containers.MapKeepsTheLast | server/server/dreamheroes_server-master/common/packet_interface.h:267-282 | Likewise the map read binds every key to the value that came last for it |
| Vectors.PacketOfStrings | server/server/dreamheroes_server-master/common/packet_interface.h:35-123 | One packet spelled out byte for byte: four-byte sizes, low byte first, everything in the order written |
| Packet.WriteSucceedsIff | server/server/dreamheroes_server-master/common/packet_interface.h:29-123 | Writing a value succeeds if and only if the whole encoding ends strictly before the buffer's end, and then appends exactly its bytes |
| Truncation.PastTheEnd | server/server/dreamheroes_server-master/common/packet_interface.h:165-168 | After a read to the last byte a further read succeeds if and only if it fits the whole packet again, and then returns its first bytes |
| Truncation.OverrunIff | server/server/dreamheroes_server-master/common/packet_interface.h:192-201 | Reading a string overruns the packet if and only if its size word claims more bytes than are left |
| Truncation.NoOverrun | server/server/dreamheroes_server-master/common/packet_interface.h:175-282 | A type without strings never overruns |
| Truncation.CutIsRefused | server/server/dreamheroes_server-master/common/packet_interface.h:165-282 | A packet cut short anywhere in the encoding of any value, except exactly behind a scalar or a size word, is never read as a value: inside a string's text the reading overruns the packet, anywhere else it throws |
| Truncation.TruncatedFieldsIff | server/server/dreamheroes_server-master/common/packet_interface.h:165-187 | A struct of scalars read from too few bytes is accepted if and only if they end behind one of its fields and the other fields are accepted from the start again |
| Truncation.TruncatedHeadIff | server/server/dreamheroes_server-master/common/packet_interface.h:129-160 | A packet head cut short is accepted if and only if exactly six bytes are left, and then with a flag nobody wrote |
| Restarts.CutIsAcceptedIff | server/server/dreamheroes_server-master/common/packet_interface.h:165-282 | For every type, value and place of the cut: a packet cut short in the middle of a value is accepted if and only if the cut falls exactly behind a scalar or a size word and all that was still to be read can be read from the packet's first byte |
| Restarts.CutRestarts | server/server/dreamheroes_server-master/common/packet_interface.h:165-282 | Such a cut has exactly the outcome - end position, exception or overrun - of reading the remaining items from the packet's first byte |
| Restarts.SecondFromFirst | server/server/dreamheroes_server-master/common/packet_interface.h:165-282 | A pair whose packet ends behind its first half is read, or fails, with the second half read from the first half's bytes |
| Restarts.SizeForACounter | server/server/dreamheroes_server-master/common/packet_interface.h:165-282 | Every list of scalars followed by a four-byte counter, cut behind the list, is accepted with the list's own size word for a counter |
| PacketStreams.PacketSn.Put | server/server/dreamheroes_server-master/common/packet_interface.h:35-123 | The recursive operators with their loops append exactly the encoding, or throw exactly when it does not fit |
| PacketStreams.SendBuffer.Write | server/server/dreamheroes_server-master/common/packet_interface.h:29-30 | Copies behind the position or throws, leaving the contents |
| PacketStreams.PacketUsn.Get | server/server/dreamheroes_server-master/common/packet_interface.h:175-282 | The recursive operators have the outcome the bytes determine - the value, an exception, or an overrun - whatever the target held before |
| PacketStreams.PacketUsn.GetItems | server/server/dreamheroes_server-master/common/packet_interface.h:203-282 | The element loops with one reused temporary build the container from the bytes alone, and stop at the first exception or overrun |
| PacketStreams.RecvBuffer.Read | server/server/dreamheroes_server-master/common/packet_interface.h:165-168 | Reads and advances, rewinding at the exact end, or throws |
| PacketStreams.RecvBuffer.Take | server/server/dreamheroes_server-master/common/packet_interface.h:198-199 | Copies a string's bytes and advances, or overruns the packet |
| Balancing.GapBounded | server/server/dreamheroes_server-master/login/gate_manager.cpp:63-129 | Over any run of hand-overs without report or expiry the gap between the most and the least loaded gate never exceeds the larger of its initial value and one |
| Balancing.GiveConserves | server/server/dreamheroes_server-master/login/gate_manager.cpp:63-91 | Each hand-over adds one user to exactly one gate, as long as there is one |
| Balancing.LevelsOut | server/server/dreamheroes_server-master/login/gate_manager.cpp:63-129 | After exactly as many hand-overs as it takes to fill every gate up to a common height, every gate is at that height |
| Balancing.GateManager.GetIdleGate | server/server/dreamheroes_server-master/login/gate_manager.cpp:108-129 | The slot returned has no more users than any registered gate - players reported plus hand-overs of the last forty seconds - and fewer than any before it; none if and only if no gate is registered |
| Balancing.GateManager.GiveUserToGate | server/server/dreamheroes_server-master/login/gate_manager.cpp:63-91 | The gate with the fewest users, reported and handed over, takes the user: one hand-over is recorded there and nothing else changes at any gate, the account and the waiting session are set, the gate is told; without a gate, an account or a session nothing changes |
| Balancing.GateSession.BalanceInfoEvent | server/server/dreamheroes_server-master/login/gate_session.cpp:47-69 | Keeps exactly the entries of the last forty seconds, in order |
| Balancing.RecentTwice | server/server/dreamheroes_server-master/login/gate_session.cpp:47-69 | Cleanups in between do not matter: a later cleanup keeps the same entries with or without them, and no recent entry is dropped |
| Balancing.GameManager.GetIdleGameClient | server/server/dreamheroes_server-master/gateserver/game_manager.cpp:120-148 | The early-exit scan returns null iff no game server is active, otherwise the chosen one |
| Balancing.ChosenIs | server/server/dreamheroes_server-master/gateserver/game_manager.cpp:120-148 | Chosen means: the lowest-indexed active server below the limit if there is one, otherwise the lowest-indexed one with the fewest players |
| Balancing.ChosenIsUnique | server/server/dreamheroes_server-master/gateserver/game_manager.cpp:120-148 | There is at most one |

## Left out

- Sockets, threads, DNS, the accept pool, session reuse and the ban list; reads and writes are events and locked regions are steps.
- TcpSession.Session.HandleReadSome: the message goes to a plain sequence, not through the server's double-buffered queue, and `reset()` with session reuse is not modelled.
- Sending.RunIsFinite: the compression worker threads that may reorder calls of send_message before they queue anything are not modelled.
- EndToEnd.DeliveredExactly: one connection; what a client that connects again may still send is the subject of `Reconnects`.
- Reconnects.SilentForEverIff: connection attempts that fail change nothing and are left out; the events of two connections are those of one session, since the source does not tell them apart.
- SubsetSearch.Search: sums are unbounded integers; in the source a sum outside the range of int is undefined behaviour.
- Crc32.TableCrc32: the register is 32 bits wide, as `unsigned long` is on Windows.
- Md5.Context.Update: inputs are shorter than 2^32 - 64 bytes, because the 32-bit index loop of the source does not terminate on longer ones; reading from files and printing digests are not modelled.
- Cipher.RoundTripIff: the 2560 dictionary constants and rand() are parameters; the calls of the cipher in the message format are commented out in the source.
- Packet.WriteSucceedsIff: position plus length is not wrapped at 2^32, which would take a single item of nearly four gigabytes.
- Packet.RoundTrip: scalars are runs of bytes of a given width; the packet head and user-defined structs are nested pairs.
- Containers.MapKeepsTheLast: for orders that are strict weak orders, which std::map asks for; under any other the container's behaviour is undefined.
- Packet.DecodedIsTyped: nothing is claimed about a reading once a string has overrun the packet.
- DoubleBuffer.CallBackMgr.Poll: what a callback pushes is a function of the callback; pushes by other threads during a drain are covered by the step theorems, as is dropping messages of sessions that are gone.
- Balancing.GateManager.GiveUserToGate: no session is registered in two slots at once.
- UserManagers.UserManager.CheckConn: the idle game server is a parameter, chosen by Balancing.GameManager.GetIdleGameClient.
- UserManagers.UserManager.OnAccept: the close timers of sessions are left out; a close may happen at any time instead.
- UserManagers.UserManager.KickUser: the maps are built-in ones with the operations of `ObjMap`, not objects of that class.
- Cluster.NoOrphans: one gate; other gates' users in the same game server are left out. Login is taken to issue fresh transaction ids; in the source an id is a CRC-32 of name, password, address and the time in seconds, so ids can repeat. One connection object stands for one connection; in the source a close can be reported twice (`common/tcpsession.cpp` lines 410 and 427), so a reused GateSession may be purged under its next connection.
- Orphans.OrphanIff: for a gate with at least one session object and game servers with ids from 1 to 254.
- Presence.PlayersArePresent: nothing is claimed about kicked ids, which the findings show to be forgotten, nor over a connection the game server has closed.
- ObjMap.ObjMap.EraseValue: the branch for other platforms, which advances an erased iterator, is not modelled.
- parseChangeGS and parseExitGame, which nobody sends or registers; call_back_mgr::clear, whose loop test is inverted.
- Hero data, database, configuration, logging, memory pools, the virtual client and generated protobuf code.
