# Verified models of the modem loader and the thermal controllers

This project models two parts of the repository in Dafny and proves properties of them.

**The kickstart loader (`ks/`).** `Crc.dfy` holds the frame check sequence of section C.2 of
RFC 1662, `Hdlc.dfy` the octet-stuffed framing of section 4.2, `Comm.dfy` the byte transport with
its partial reads and writes and its SDIO padding, `Dload.dfy` the DMSS download, `EscapeCount.dfy` and
`LongestFrame.dfy` how long its frames can get, `MemoryDump.dfy` the memory-dump phase of the Sahara
protocol, `Sahara.dfy` the protocol's state machine, and `SaharaProgress.dfy` how far it gets with a target
that plays its part. The loader has no receiver for its own frames, so the receiver the RFC describes, and a loader that obeys
WRITE and GO, are part of the specification.

**Thermal control (`thermal-engine/`).** `ErrorRing.dfy` holds the error history of a controller,
`Bitmask.dfy` the 32-bit membership masks, `Pid.dfy` what each handler of the PID algorithm does to
the whole state, `PidInvariant.dfy` what all handlers and so all runs keep, `PidBatch.dfy` what a
configuration change leaves behind, `PidMonitor.dfy` the thread that is woken by event flags to run the
handlers, `PidEffects.dfy` what each handler does to a controller in readings, errors and levels,
`PidSampling.dfy` when a client stops being sampled, `PidImport.dfy` the loop that imports the
configuration, `PidCode.dfy` the code of all of these on its arrays and rings, and `SpeakerCal.dfy` the equilibrium detector. `Bytes.dfy`, `Numbers.dfy` and
`Options.dfy` are shared.

Code that changes state in the source is a method or a class here. Each such method is proved equal to
a function on values, and the properties are proved about that function: for every message, image,
table, batch, reading and target, for runs of any length, and for every pattern of failing system
calls unless a row says otherwise. System calls, the target, sensors and clocks appear as parameters:
scripts of results, streams of bytes, or a function saying which calls succeed.

## What the proofs found

- A download that returns SUCCESS may have gone unacknowledged: a reply of fewer than two bytes leaves
  the acknowledgement of an earlier frame in the buffer, and that is the byte compared. For every image
  there is a download whose GO nobody acknowledged (`Dload.StaleAckAccepted`); SUCCESS means that every
  frame was acknowledged exactly if every reply had two bytes or more (`Dload.AcknowledgedIff`).
- The buffer for an encoded WRITE frame is 3083 bytes, while a frame can have 3089 and no more
  (`LongestFrame.WriteFrameBound`, `LongestFrame.LongestWriteFrame`). A file of 1536 bytes 0x7e is enough
  to go past it (`LongestFrame.FlagsOverflow`); `Dload.WriteFrameFits` gives the exact condition.
- When write() takes only part of a piece of a memory dump the host warns and goes on, and the phase is
  reported complete (`MemoryDump.ShortWriteUnnoticed`). It is complete exactly if that never happens
  (`MemoryDump.DumpExactIff`).
- A READ_DATA request that goes beyond the end of the file, but asks for no more bytes than the file has,
  is answered with what the buffer held before, in a run with any file (`Sahara.StaleBytesSent`). The
  answer is free of it exactly if the request ends within the file (`Sahara.AnswerIndependent`).
- While it waits for DONE_RESP the host looks only at the third word of what arrives: it succeeds on a
  DONE_RESP exactly if the first word happens to be that packet's id (`Sahara.SuccessAfterDone`), and a
  whole transfer succeeds on a READ_DATA instead (`Sahara.SuccessWithoutDoneResp`).
- The configuration validator accepts an entry that breaks the order of the set points if the entry
  carries a value in a field its mask does not name (`PidBatch.OrderKeptIff`, `PidBatch.OrderCanBreak`).
  The client library fills such fields with INT_MIN (thermal-engine/client/thermal_client.c:1237-1241,
  1370-1371), so only a client that writes to the socket itself can send one.
- A configuration entry that disables an instance and changes its period is left half applied exactly when
  the new period has no group, none can be made, and the instance cannot be enabled again
  (`PidBatch.EntryAtomic`). Without an entry of the kind above that never happens
  (`PidBatch.AtomicInAllRuns`); after one it can, from an ordinary configuration
  (`PidBatch.StuckReachable`).
- If the clock cannot be read when timers have expired, the timer handler returns with their flag already
  cleared, and nothing wakes the thread for them until another timer goes off. `PidMonitor.LostIff` says
  exactly when, for any turn, and `PidMonitor.LostReachable` that it happens from any configuration with a
  hot client. Otherwise no notification is lost (`PidMonitor.MonitorSafe`).
- A mitigating client stops being sampled exactly when the timer handler's call to start its group's timer
  again fails, and then for good: while anybody in the group mitigates no handler starts it
  (`PidSampling.SampledThroughoutIff`). That too happens from any configuration with a hot client
  (`PidSampling.StopReachable`).
- `pid_algo_init` does not get past a section without a sampling period: it continues without moving to the
  next. The loop ends exactly if none is reached before 32 clients have been taken on
  (`PidImport.EndsIff`). The newer parser raises a period of zero to the minimum
  (thermal-engine/thermal_config_v2.c:1260-1261); the older raises only a period that is given
  (thermal-engine/thermal_config.c:849-854).

## Model

| member | source | states |
|---|---|---|
| Crc.TableEntry | ks/crc.c:52-86 | each of the 256 table entries is eight steps of the bit-serial register with polynomial 0x8408 on its index |
| Crc.CharSignIrrelevant | ks/crc.c:160 | the table index does not depend on whether `char` is signed |
| Crc.TableStepIsEightBits | ks/crc.c:160 | one table-driven step equals feeding the eight bits of the byte, least significant first |
| Crc.TableFoldRefinesFeed | ks/crc.c:155-162 | over any message and from any register the table-driven fold equals the bit-serial one |
| Crc.FeedLinear | ks/crc.c:155-162 | the register is linear: the difference of two runs is the run of the difference |
| Crc.SixteenBits | ks/crc.c:155-162 | sixteen bits that bring a zero register back to zero are all zero |
| Crc.BurstDetected | ks/crc.c:128-162 | two buffers of any one length that differ only within 16 consecutive bits and both pass the check are equal |
| Crc.OwnBytesPass | ks/crc.c:102-138 | any message followed by its own check bytes passes |
| Crc.ResidueCharacterisation | ks/crc.c:102-138 | a message with a two-byte tail passes if and only if the tail is its check sequence, low byte first |
| Crc.CoveredWhole | ks/crc.c:104-105 | the bit length `length * 8` covers the whole buffer if and only if it does not wrap at 32 bits |
| Crc.CalculateCrc | ks/crc.c:155-162 | the loop returns the complemented bit-serial register over the whole bytes of `bitLen` |
| Crc.SetCrc | ks/crc.c:102-110 | exactly the two bytes after the data change, to the check sequence of what is covered; unless the length wraps the result passes |
| Crc.CheckCrc | ks/crc.c:128-138 | SUCCESS exactly when the residue is good, which is exactly when the last two bytes are the check sequence of the rest |
| Hdlc.UnstuffAll | ks/hdlc.c:81-90 | a receiver that is not mid-escape takes back exactly the stuffed octets |
| Hdlc.FrameReceived | ks/hdlc.c:71-112 | whatever a receiver was doing, one frame makes it deliver exactly that packet next and leaves nothing behind |
| Hdlc.StreamRoundTrip | ks/hdlc.c:71-112 | the concatenated frames of any list of packets are received as that list |
| Hdlc.StreamInjective | ks/hdlc.c:71-112 | a stream of frames splits in only one way |
| Hdlc.FrameShape | ks/hdlc.c:71-112 | the flag octet is only at the two ends, and the length is n + 4 plus the escapes, between n + 4 and 2n + 6 |
| Hdlc.FrameOctets | ks/hdlc.c:71-112 | a frame is 0x7e, the packet and its check sequence with 0x7e sent as 0x7d 0x5e and 0x7d as 0x7d 0x5d, and 0x7e |
| Hdlc.HdlcEncode | ks/hdlc.c:71-112 | the frame of the packet is written over the front of the buffer, the rest is unchanged, and its length is returned |
| Hdlc.StuffPacket | ks/hdlc.c:81-90 | the data loop appends the stuffed data |
| Hdlc.StuffCrc | ks/hdlc.c:92-107 | the check-sequence loop appends the stuffed check bytes, low byte first |
| Comm.Port.TxData | ks/comm.c:383-440 | under every script of write results the bytes sent are a prefix of the padded data, and it succeeds if and only if the writes before the first failing one take all of it |
| Comm.Port.PadForSdio | ks/comm.c:385-402 | on SDIO the data are followed by zeros up to a multiple of four |
| Comm.Port.RxData | ks/comm.c:454-559 | under every script of select and read results the bytes received land in order at the front of the buffer; on success exactly `size` of them, with the padding consumed |
| Comm.Port.ReceiveLoop | ks/comm.c:476-550 | the retry loop ends as specified, with everything read so far in place |
| Comm.Port.ReadChunk | ks/comm.c:497-500 | one read goes to the caller's buffer until it is full and then to the padding buffer, never past either |
| Comm.WriteRunShape | ks/comm.c:408-423 | the write loop never passes the end, and succeeds exactly when everything is written |
| Comm.WriteOutcome | ks/comm.c:408-423 | how a transmission ends, from the results of the writes alone: it sends what those before the first failing one take, succeeds if and only if that is everything, and else fails if and only if one of them is negative |
| Comm.PaddedBytes | ks/comm.c:385-402 | nothing is added other than on SDIO, and there one, two or three zero bytes where the length leaves three, two or one over |
| Comm.ReadRunShape | ks/comm.c:476-550 | the read loop never passes the end nor what is available, and success means everything was read |
| Comm.ReadSucceeds | ks/comm.c:476-550 | a receive succeeds however its bytes are cut up and however often it has to try again in between, by EAGAIN or an empty SDIO read, if that is less than a thousand times in a row and nothing else goes wrong |
| Comm.ReadFails | ks/comm.c:480-535 | a select that finds nothing, an error that is not EAGAIN, or an empty read other than on SDIO fails the receive if it comes before everything else has |
| Comm.ReadGivesUp | ks/comm.c:503-515 | the thousandth try in a row that brings nothing fails |
| Comm.SentIsWire | ks/comm.c:383-440 | under every script of write results, transmissions that all succeed put exactly the padded packets on the wire |
| Comm.TransportRoundTrip | ks/comm.c:383-559 | under every list of write scripts and every list of select and read scripts that end in success, receiving with the sizes sent returns the packets sent and leaves what follows them on the wire |
| Comm.ByteByByte | ks/comm.c:383-559 | any non-empty packets can be sent and received with success one byte at a time, so the round trip is not empty |
| Comm.WireAligned | ks/comm.c:385-402 | with SDIO every sequence of transmissions stays aligned to four bytes |
| Bytes.ByteRoundTrip | ks/dload_protocol.c:319-325 | a value below 256 survives the cast to a byte |
| Bytes.Be16RoundTrip | ks/dload_protocol.c:324-325 | two big-endian bytes give back any 16-bit number |
| Bytes.Be32RoundTrip | ks/dload_protocol.c:320-323 | four big-endian bytes give back any 32-bit number |
| Bytes.Le32RoundTrip | ks/sahara_packet.h:240-255 | four bytes in the host's order give back any 32-bit number |
| Dload.ApplyWrite | ks/dload_protocol.c:318-327 | the loader stores a WRITE packet's data at its address, wrapping at 32 bits, and nothing else |
| Dload.ApplyGo | ks/dload_protocol.c:422-427 | a GO packet names exactly its 32-bit address |
| Dload.WritesLoad | ks/dload_protocol.c:312-376 | the chunks of an image leave memory holding exactly the image |
| Dload.RecordAt | ks/dload_protocol.c:311-376 | record k carries the bytes from 1536 k on at exec_address + 1536 k, 1536 of them unless it is the last; there are ceil(n / 1536), and one for an empty image |
| Dload.WireLoads | ks/dload_protocol.c:311-391 | through framing, check sequence and padding the loader obeys exactly the packets sent |
| Dload.EndToEnd | ks/dload_protocol.c:311-391 | for every image and address the bytes on the wire load exactly the image at exec_address, leave all other memory alone, and GO names exec_address |
| Dload.ExchangeSuccess | ks/dload_protocol.c:343-375 | SUCCESS means every frame went out whole and in order, and no reply of two bytes or more carried anything but ACK |
| Dload.ExchangeSucceedsIff | ks/dload_protocol.c:343-375 | a list of packets gets across if and only if each has its turn, in which the writes take the whole padded frame, select finds something, the read does not fail and a reply of two bytes or more has 2 as its second; and if the first reply is shorter, the buffer held 2 there |
| Dload.AcknowledgedSucceeds | ks/dload_protocol.c:343-375 | every image gets across when every frame is taken whole and answered by an acknowledgement frame, stuffed and checked like any other |
| Dload.AcknowledgedIff | ks/dload_protocol.c:343-375 | given SUCCESS, every reply carries ACK if and only if every reply has at least two bytes |
| Dload.StaleAckAccepted | ks/dload_protocol.c:364-374 | for every image a whole download returns SUCCESS though the reply to GO, the last, is too short to carry a verdict |
| Dload.WriteFrameFits | ks/dload_protocol.c:298 | a WRITE frame fits its buffer exactly when it needs at most 3072 - n escapes, and always for n up to 1531 |
| LongestFrame.WriteFrameBound | ks/dload_protocol.c:298-332 | no WRITE frame is longer than 3089 bytes |
| LongestFrame.LongestWriteFrame | ks/dload_protocol.c:298-332 | a WRITE frame of 3089 bytes, with its check sequence worked out |
| LongestFrame.FlagsOverflow | ks/dload_protocol.c:241-332 | a file of 1536 bytes 0x7e is loaded at 0x7E7E7E2E and its first frame is longer than the 3083 bytes allocated |
| Dload.GoFrameFits | ks/dload_protocol.c:415-440 | a GO frame never passes the 14 bytes allocated for it: no address whose four octets all need escaping has a first check octet that does too |
| Dload.LoadAddressNamed | ks/dload_protocol.c:241-293 | exec_address is the word at 12 or 24 of the header minus 40 or 80, wrapping at 32 bits; bytes that a short file lacks are those of the buffer |
| Dload.ComState.SendAndAwaitAck | ks/dload_protocol.c:343-375 | transmit, wait, read, compare: the bytes sent, the result and the byte left in the receive buffer |
| Dload.ComState.Exchange | ks/dload_protocol.c:332-375 | one packet is encoded and exchanged as the first step of the specified run |
| Dload.ComState.FillWrite | ks/dload_protocol.c:318-327 | the packet buffer holds the WRITE packet, address and size most significant byte first |
| Dload.ComState.SendChunk | ks/dload_protocol.c:313-375 | one record is the next chunk of the file |
| Dload.ComState.UploadChunks | ks/dload_protocol.c:312-376 | the loop exchanges the WRITE packets of the whole image in order, stopping at the first failure |
| Dload.ComState.Execute | ks/dload_protocol.c:415-498 | GO is sent as segment and offset of the address and must be acknowledged |
| Dload.ComState.UploadDblImage | ks/dload_protocol.c:224-400 | it returns SUCCESS if and only if every frame is taken whole and accepted as in Dload.ExchangeSucceedsIff, and then every receiver and loader not in the middle of a valid frame end up with the image loaded and started |
| MemoryDump.TableValid | ks/sahara_protocol.c:361-373 | whatever bytes arrive as the table, it is valid exactly when no region is empty |
| MemoryDump.TableRoundTrip | ks/sahara_protocol.c:361-373 | the table a target lays out, entry by entry, is the table that is read |
| MemoryDump.PiecesTile | ks/sahara_protocol.c:522-547 | piece i of a region starts i mebibytes in and only the last is shorter: the pieces tile it, and there are ceil(length / 2^20) |
| MemoryDump.LastEntryFirst | ks/sahara_protocol.c:373-434 | the last table entry is read first, then the others in the same way |
| MemoryDump.WholePlanLength | ks/sahara_protocol.c:522-547 | a table needs the sum of ceil(length / 2^20) reads |
| MemoryDump.EnterInv | ks/sahara_protocol.c:361-547 | entering the phase with any table establishes its invariant |
| MemoryDump.PassInv | ks/sahara_protocol.c:399-547 | whatever the target answers, an iteration whose write to disk is not short keeps it: the reads left are the plan's tail, mem_base + length is constant for the entry, the open file holds exactly what has been read, failures count the current streak |
| MemoryDump.SavedFile | ks/sahara_protocol.c:434-463 | of entries with one file name the lowest is the one that stays |
| MemoryDump.DumpExact | ks/sahara_protocol.c:351-547 | under any pattern of failed receives and any amounts written, a phase that completes has received every piece once and changed no file but the regions'; if no write was short it has saved target memory [base, base + length) for every region |
| MemoryDump.DumpExactIff | ks/sahara_protocol.c:419-427 | with distinct file names a phase that completes has saved every region byte for byte if and only if no write to disk took less than it was given |
| MemoryDump.ShortWriteUnnoticed | ks/sahara_protocol.c:419-427 | a phase that is reported complete with a short write and a file that lacks its byte, for every memory and disk |
| MemoryDump.DumpTerminates | ks/sahara_protocol.c:401-547 | however it ends, every MEMORY_READ asks for the next missing piece of the plan, there are at most 5 for each piece, and within that many answers the phase is over |
| MemoryDump.DumpCompletes | ks/sahara_protocol.c:401-547 | when the host's own calls succeed, only five failures in a row keep the phase from finishing |
| MemoryDump.PassFailsIff | ks/sahara_protocol.c:399-547 | an iteration of the region state fails if and only if it is the fifth receive in a row that fails, what has come cannot be written, or the next request or file name cannot be made |
| MemoryDump.EnterFailsIff | ks/sahara_protocol.c:436-547 | the table state ends the phase at once for an empty table, and else fails if and only if the name of the first file or the first request cannot be made |
| MemoryDump.Dumper.constructor | ks/sahara_protocol.c:139-142 | no entries, no failures, no file |
| MemoryDump.Dumper.OpenDebugFile | ks/sahara_protocol.c:434-463 | the current entry's file is opened and truncated |
| MemoryDump.Dumper.SendMemoryRead | ks/sahara_protocol.c:522-547 | the next piece of the current entry is asked for, or the phase is finished |
| MemoryDump.Dumper.CopyTable | ks/sahara_protocol.c:361-373 | the copy loop yields the table in the receive buffer |
| MemoryDump.Dumper.ReceiveTable | ks/sahara_protocol.c:351-547 | the table is taken over and its last entry started on |
| MemoryDump.Dumper.TakePiece | ks/sahara_protocol.c:409-427 | the piece is taken off its entry in place, and what write() takes of it is appended to the open file |
| MemoryDump.Dumper.ReceiveRegion | ks/sahara_protocol.c:399-547 | one pass through the region state does what the specification says, entry fields updated in place |
| Sahara.WordRoundTrip | ks/sahara_packet.h:280-288 | a field of a received packet is the number the target put there |
| Sahara.StepFollows | ks/sahara_protocol.c:144-647 | every iteration makes at most one exchange, and it is one the protocol allows: DONE exactly for END_IMAGE_TX with status 0, raw bytes only for READ_DATA, HELLO_RESP exactly for HELLO with the right status and mode |
| Sahara.RunSafety | ks/sahara_protocol.c:144-647 | that holds in every run against every target; SUCCESS comes only on a packet with status word 1 after a DONE, or on RESET_RESP after a RESET when the last answered mode is the requested one, exit 5 only when it is not; and no READ_DATA goes unanswered in a run that does not fail |
| Sahara.SuccessAfterDone | ks/sahara_protocol.c:586-618 | waiting for DONE_RESP the host succeeds if and only if the third word is 1, so on a DONE_RESP if and only if the first word is 6 too |
| Sahara.PacketWords | ks/sahara_packet.h:280-288 | the words of a packet laid out byte by byte are read back |
| Sahara.SuccessWithoutDoneResp | ks/sahara_protocol.c:586-618 | for every configuration a whole run ends in SUCCESS on a READ_DATA packet in place of DONE_RESP |
| Sahara.StepFailures | ks/sahara_protocol.c:399-413 | outside the region phase no failed receive is held against the target |
| Sahara.ReadDataAnswer | ks/sahara_protocol.c:924-976 | a request is answered if and only if it is valid, with the file's bytes from the offset on and then what the buffer holds beyond them, as many bytes as were asked for |
| Sahara.AnswerIndependent | ks/sahara_protocol.c:936-967 | the answer does not depend on the buffer or on fresh memory if and only if offset + length is within the file, and then it is file[offset..offset+length] |
| Sahara.StaleBytesSent | ks/sahara_protocol.c:936-967 | for every file of every configuration a run of HELLO and a READ_DATA past its end sends the front of the buffer |
| Sahara.ImageReassembled | ks/sahara_protocol.c:253-281 | between two HELLOs all raw bytes come from one file, and requests that tile it bring exactly its bytes across |
| Sahara.ForcedOnce | ks/sahara_protocol.c:195-208 | between two forced modes the memory-debug image has ended: a mode is forced at most once for each arming |
| Sahara.RegionIsRun | ks/sahara_protocol.c:389-585 | against a target whose answers are its memory the host's region phase is a run of MemoryDump |
| Sahara.DumpWithinRun | ks/sahara_protocol.c:351-585 | so a dump inside any run that goes on, no write being short, has saved every region, within five requests for each piece |
| Sahara.Transfer.constructor | ks/sahara_protocol.c:119-142 | the initial state of a transfer, armed unless a memory-debug image is named |
| Sahara.Transfer.ReceiveHello | ks/sahara_protocol.c:148-222 | version check, forced or echoed mode, HELLO_RESP; anything else is reset |
| Sahara.Transfer.ReceiveCommand | ks/sahara_protocol.c:224-349 | dispatch on the command, unknown ones and failed CMD_EXEC reset, a HELLO out of turn goes back to waiting |
| Sahara.Transfer.ReceiveEndImage | ks/sahara_protocol.c:230-251 | DONE or RESET by status, re-arming when the memory-debug image ends |
| Sahara.Transfer.ReceiveMemoryDebug | ks/sahara_protocol.c:282-313 | a table length that is a whole number of entries is read, any other reset |
| Sahara.Transfer.ReceiveReadData | ks/sahara_protocol.c:253-281 | the image is looked up once, a missing one answered with RESET whose result is ignored |
| Sahara.Transfer.SendImage | ks/sahara_protocol.c:924-976 | validation, growing the buffer, reading at the offset and sending as many bytes as asked |
| Sahara.Transfer.Realloc | ks/sahara_protocol.c:942-948 | what fits is kept, the rest is whatever memory held |
| Sahara.Transfer.ReadImage | ks/sahara_protocol.c:950-952 | the file's bytes replace the front of the buffer, as far as the file goes |
| Sahara.Transfer.ReceiveTable | ks/sahara_protocol.c:351-547 | the table state, falling through to the first request |
| Sahara.Transfer.ReceiveRegion | ks/sahara_protocol.c:389-585 | the region state, with the retry and the end of the phase |
| Sahara.Transfer.FinishDumpPass | ks/sahara_protocol.c:522-584 | after the last region the mode is switched, or in memory-debug mode the target reset |
| Sahara.Transfer.Iterate | ks/sahara_protocol.c:144-647 | one iteration of the main loop is one step of the machine |
| Sahara.Transfer.StartSaharaBasedTransfer | ks/sahara_protocol.c:119-648 | the main loop is a run of the machine, and so safe |
| SaharaProgress.DoneStep | ks/sahara_protocol.c:587-618 | DONE_RESP with status 0 leads back to waiting for HELLO and with status 1 to SUCCESS |
| SaharaProgress.ImagesCross | ks/sahara_protocol.c:144-618 | for every list of registered images, if the target says HELLO, asks for slices that make up the file, ends with status 0 and answers DONE, with 0 until the last image and then with 1, the run ends in SUCCESS, every packet is answered as it should be, and what is sent for each image is that file |
| SaharaProgress.RefusedIff | ks/sahara_protocol.c:148-349 | a packet is answered by RESET and the wait for RESET_RESP if and only if HELLO is due and it is not one, or it is a failed END_IMAGE_TX, a MEMORY_DEBUG whose length is no multiple of 52, a CMD_READY whose commands fail, or unknown |
| SaharaProgress.MovesTo | ks/sahara_protocol.c:148-349 | which state every other packet leads to |
| SaharaProgress.RefusalEnds | ks/sahara_protocol.c:620-643 | once refused, and after any packets that are not RESET_RESP, RESET_RESP ends the run: in SUCCESS if the mode last answered is the one asked for, else with exit 5 |
| SaharaProgress.HelloAnswer | ks/sahara_protocol.c:165-216 | HELLO is answered with status 0 for version 2 and 3 for any other, and with the mode asked for while that is to be forced, else its own |
| SaharaProgress.TableAsked | ks/sahara_protocol.c:282-313 | after HELLO and MEMORY_DEBUG the host has asked for exactly the address and length named and waits for the table |
| SaharaProgress.DumpCrosses | ks/sahara_protocol.c:282-643 | a whole memory dump: if the target answers with its memory whenever something comes and no five receives in a row fail, then within five receives for each piece every region is in its file, and the run goes on with SWITCH_MODE 0 to HELLO or, asked for a dump, with RESET, and then RESET_RESP gives SUCCESS |
| SaharaProgress.FailsIff | ks/sahara_protocol.c:144-647 | for each state the exact condition on what arrives and on the results of the calls under which an iteration fails |
| Bitmask.HasSet | thermal-engine/pid_algorithm.c:304 | setting a bit sets that bit and no other |
| Bitmask.HasClear | thermal-engine/pid_algorithm.c:312-313 | clearing a bit clears that bit and no other |
| Bitmask.Empty | thermal-engine/pid_algorithm.c:945-967 | a mask is zero exactly when none of its 32 bits is set |
| Bitmask.HasFirst | thermal-engine/pid_algorithm.c:978-982 | the mask of n clients has exactly the bits below n, also for 32 |
| ErrorRing.HistoryIsRecent | thermal-engine/pid_algorithm.c:105-124 | after any calls the history is the last three samples of all that was fed in, each as often as its count says, zero-filled; cutting counts off at three loses nothing |
| ErrorRing.TotalPushed | thermal-engine/pid_algorithm.c:112-123 | replacing the oldest samples changes the total by what leaves and what comes |
| ErrorRing.ErrHistory.GetErr | thermal-engine/pid_algorithm.c:90-103 | index 0, -1, -2 are the last three samples and any other index wraps, despite the truncated remainder |
| ErrorRing.ErrHistory.SetCurrErr | thermal-engine/pid_algorithm.c:105-124 | the history is shifted by the clamped count, and the running total is the sum of the slots |
| Pid.FindGroup | thermal-engine/pid_algorithm.c:265-268 | the first group with the period, or none |
| Pid.FindClient | thermal-engine/pid_algorithm.c:417-421 | the first instance with the description, or none |
| Pid.SteadyRate | thermal-engine/pid_algorithm.c:792-800 | errors that change at a steady rate leave no derivative term |
| Pid.SteadyError | thermal-engine/pid_algorithm.c:792-800 | a constant error leaves only the integral term, which with gains that are not negative moves the level towards the set point |
| PidInvariant.SampledOk | thermal-engine/pid_algorithm.c:747-825 | for any gains, reading and sample count the level stays in [min_op_lvl, max_op_lvl] and the remembered adjustment within the width of that range |
| PidInvariant.ThreshInv | thermal-engine/pid_algorithm.c:868-970 | the threshold handler keeps the invariant, and with timer calls succeeding makes every group enabled exactly when its mask is non-empty even if it was not |
| PidInvariant.OverrideInv | thermal-engine/pid_algorithm.c:656-697 | the override handler keeps it |
| PidInvariant.TimerInv | thermal-engine/pid_algorithm.c:699-866 | the timer handler keeps it and restarts what expired: an enabled group is always ticking or waiting to be handled |
| PidInvariant.DisableAdjustInv | thermal-engine/pid_algorithm.c:367-407 | enabling and disabling keep it, whatever timer calls fail |
| PidInvariant.MoveInv | thermal-engine/pid_algorithm.c:301-333 | moving a client between groups keeps membership, also when the new timer cannot be started |
| PidInvariant.SamplingAdjustInv | thermal-engine/pid_algorithm.c:255-336 | a change of period keeps it, and periods stay distinct also when a timer cannot be created |
| PidInvariant.ApplyEntryInv | thermal-engine/pid_algorithm.c:497-612 | a configuration entry keeps it, with its rollback |
| PidInvariant.BootInv | thermal-engine/pid_algorithm.c:1063-1184 | group creation at start-up establishes it |
| PidInvariant.StepInv | thermal-engine/pid_algorithm.c:1012-1043 | every event keeps it |
| PidInvariant.AllRuns | thermal-engine/pid_algorithm.c:972-1045 | in every run, whatever timer calls fail: a client's bit is set in a group exactly when it is mitigating and the group is its own, disabled clients are idle, periods are distinct, controllers are in bounds; if none fails, a group is enabled exactly when its mask is non-empty, and ticks |
| PidBatch.EntryAtomic | thermal-engine/pid_algorithm.c:497-612 | after a valid entry the instance has wholly what was requested or wholly what it had if and only if it is not stuck; no other instance changes |
| PidBatch.StuckNeeds | thermal-engine/pid_algorithm.c:497-612 | some pattern of failing timer calls leaves an entry stuck if and only if it disables and changes the period, the instance could not be enabled again, and no group has the new period |
| PidBatch.StuckHappens | thermal-engine/pid_algorithm.c:596-601 | in any state an enabled instance at 70 and 60 is left half way by two accepted batches when timer calls fail |
| PidBatch.EntrySucceeds | thermal-engine/pid_algorithm.c:497-612 | with timer calls succeeding, room for a group and an instance that may be enabled, a valid entry takes effect wholly |
| PidBatch.ConfigAtomic | thermal-engine/pid_algorithm.c:480-615 | an invalid entry leaves the whole state unchanged; otherwise, under any timer failures, each named instance has all or nothing and the others are untouched if and only if no entry gets stuck at its turn, which one that could be undone before the batch never does |
| PidBatch.OrderKeptIff | thermal-engine/pid_algorithm.c:451-475 | what the validator accepts keeps clear point below set point exactly when no unnamed field hides a crossing |
| PidBatch.OrderCanBreak | thermal-engine/pid_algorithm.c:451-462 | an accepted entry that breaks the order |
| PidBatch.ConfigOrder | thermal-engine/pid_algorithm.c:480-615 | a batch of clean entries keeps the order, even partly applied |
| PidBatch.OrderInAllRuns | thermal-engine/pid_algorithm.c:972-1045 | in every run of such batches each clear point stays below its set point |
| PidBatch.LongInAllRuns | thermal-engine/pid_algorithm.c:255-299 | in every run no group gets a period below the minimum, if the configuration has none |
| PidBatch.SettledAtomic | thermal-engine/pid_algorithm.c:480-615 | with set points in order and no period below the minimum every batch that names nobody twice is atomic |
| PidBatch.AtomicInAllRuns | thermal-engine/pid_algorithm.c:480-615 | after any run of clean batches from a configuration with ordered set points and periods of at least the minimum, under any timer failures, every batch that names nobody twice is refused whole or is atomic |
| PidBatch.StuckReachable | thermal-engine/pid_algorithm.c:596-601 | from one configured client two batches, the first not clean, leave it disabled with the old period |
| PidMonitor.MonitorIsRun | thermal-engine/pid_algorithm.c:972-1045 | whatever comes in before and between the handlers, the thread's state is that of a run of handlers and callbacks |
| PidMonitor.MonitorAtomic | thermal-engine/pid_algorithm.c:972-1045 | so in every run of the thread with clean requests a batch is atomic |
| PidMonitor.WakeHeard | thermal-engine/pid_algorithm.c:1012-1043 | one turn of the loop leaves no threshold or timer notification both unhandled and unflagged, except of timers if the clock fails |
| PidMonitor.LostIff | thermal-engine/pid_algorithm.c:713-719 | any turn of the loop keeps that if and only if the clock can be read, or no timer was waiting when the flags were copied, or another timer goes off after that |
| PidMonitor.MonitorSafe | thermal-engine/pid_algorithm.c:972-1045 | every run of the thread keeps the invariant; if no timer call fails timers follow masks; if the clock never fails no notification is lost, and then every mitigating client's timer is armed or its expiry is flagged |
| PidMonitor.LaunchDecides | thermal-engine/pid_algorithm.c:978-1006 | when the loop begins a client mitigates if and only if it is enabled and reads no less than its clear point |
| PidMonitor.LostReachable | thermal-engine/pid_algorithm.c:713-719 | from every configuration with an enabled hot client, all timer calls succeeding, its first expiry is lost if the clock fails in that turn |
| PidEffects.CountIsPeriods | thermal-engine/pid_algorithm.c:722-733 | the sample count is the number of whole periods that have passed, at most three |
| PidEffects.CorrectionDrive | thermal-engine/pid_algorithm.c:763-800 | the adjustment is p (e0 - e1) + i e0 ts + (d / ts) (e0 - 2 e1 + e2) in degrees and seconds, times the units, rounded towards zero |
| PidEffects.TimerControls | thermal-engine/pid_algorithm.c:699-866 | after a timer event with the clock readable every mitigating client of an expired group has set point minus reading in its history as often as periods have passed, and its level has moved by the remembered and the rounded adjustment within the device; every other client is as it was |
| PidEffects.TimerFollows | thermal-engine/pid_algorithm.c:779-825 | with gains that are not negative, an error at or below zero, not above the last and not rising faster strictly lowers the level, down to the lowest, once the proportional or the integral term alone comes to a unit; and the mirror image |
| PidEffects.ExpiryControls | thermal-engine/pid_algorithm.c:188-196 | a timer that goes off is acted on in that turn: whoever mitigates in its group is controlled by its own reading, and nobody else is touched |
| PidEffects.ThreshDecides | thermal-engine/pid_algorithm.c:868-942 | a client whose threshold was reached mitigates from at or above its clear point, starting at its highest level, until at or below it; who does not mitigate starts afresh, disabled clients are left alone, and nothing stays to be looked at |
| PidEffects.OverrideSets | thermal-engine/pid_algorithm.c:656-697 | every enabled client with an overshoot gets the set points configured, raised by it if the mode is on, with no remembered adjustment, a history of zeros and its threshold flagged; the others stay as they are |
| PidEffects.OverrideTakesEffect | thermal-engine/pid_algorithm.c:656-697 | two turns after a new override mode each of them mitigates or not as it reads against that clear point |
| PidEffects.EntryTakesEffectIff | thermal-engine/pid_algorithm.c:497-612 | a valid entry takes effect if and only if it does not ask for an instance to be enabled that may not be, the group of a new period can be made, and the timer of the group a mitigating client moves to runs or can be started: no other failing call matters |
| PidEffects.ConfigNotifies | thermal-engine/pid_algorithm.c:497-612 | under any timer failures, an instance of which a request changes anything that can be queried has its threshold flagged and a history of zeros, one that is disabled is at its highest level, and no other flag is raised |
| PidEffects.ChangeTakesEffect | thermal-engine/pid_algorithm.c:480-615 | in the turn after such a request, if nothing else comes in, the instance mitigates if and only if it is enabled and reads no less than its clear point, or more if it mitigated before |
| PidEffects.QuietTurn | thermal-engine/pid_algorithm.c:1012-1043 | a turn in which nothing comes in clears the flags and runs the handlers they name: override, timer, threshold, configuration |
| PidEffects.AcceptedIff | thermal-engine/pid_algorithm.c:410-478 | an entry is accepted if and only if the first instance with its description exists and it names something, a switch of 0 or 1, a period of at least 50 ms, and set points that are values and in order, with the instance's own where a field holds INT_MIN |
| PidEffects.BootAt | thermal-engine/pid_algorithm.c:1124-1181 | what start-up makes of each configured controller: idle, at the highest level, with its set points, in the group of its period, at most 1000000 ms |
| PidSampling.SamplingStopsIff | thermal-engine/pid_algorithm.c:857-865 | over any event throughout which a client mitigates in a ticking group, the group goes on ticking if and only if it is not that the timer handler's call to restart it fails |
| PidSampling.StoppedStays | thermal-engine/pid_algorithm.c:945-969 | no event starts the timer of a group that has stopped while a client mitigates in it |
| PidSampling.SampledThroughoutIff | thermal-engine/pid_algorithm.c:972-1045 | over any run throughout which a client mitigates in its group, under any timer failures, it is still sampled at the end if and only if no restart of its group failed on the way |
| PidSampling.StopReachable | thermal-engine/pid_algorithm.c:857-865 | from every configuration with an enabled hot client, if the calls of the start succeed and the next fails it mitigates in a group that has stopped |
| PidImport.StaysThere | thermal-engine/pid_algorithm.c:1082-1086 | a section without a period, once reached, is a fixed point of the loop |
| PidImport.EndsIff | thermal-engine/pid_algorithm.c:1063-1184 | the import ends if and only if no such section is reached before 32 clients, and then within as many passes as there are sections |
| PidImport.DoneIsBoot | thermal-engine/pid_algorithm.c:1063-1184 | when it ends the clients are, in order and up to 32, the sections that are of a PID, not switched off by an error, with a period, and found |
| PidImport.InitsUsable | thermal-engine/pid_algorithm.c:1067-1122 | those sections and no others are taken on |
| PidImport.InitsProper | thermal-engine/thermal_config.c:849-854 | with a parser that leaves periods at zero or at least the minimum, whatever is taken on has at least the minimum |
| PidImport.OnePeriodlessHangs | thermal-engine/pid_algorithm.c:1082-1086 | a configuration of one such section is never finished |
| PidCode.PidAlgo.constructor | thermal-engine/pid_algorithm.c:84-88 | no clients, no groups and empty rings |
| PidCode.PidAlgo.NewRings | thermal-engine/pid_algorithm.c:1191-1204 | a ring of zeros for each client, none shared |
| PidCode.PidAlgo.PushErr | thermal-engine/pid_algorithm.c:105-124 | pushing onto one client's ring changes that client's history alone |
| PidCode.PidAlgo.PidThreshNotify | thermal-engine/pid_algorithm.c:126-146 | the threshold bit and the event flag are raised |
| PidCode.PidAlgo.PidSetTimer | thermal-engine/pid_algorithm.c:148-170 | the timer takes its value only if the calls succeed |
| PidCode.PidAlgo.NotifyAndFlush | thermal-engine/pid_algorithm.c:574-584 | the threshold bit is raised and the error history flushed |
| PidCode.PidAlgo.HandleDisableConfigAdjust | thermal-engine/pid_algorithm.c:367-407 | enabling is validated; disabling idles the client and leaves its group |
| PidCode.PidAlgo.FindSamplingGroup | thermal-engine/pid_algorithm.c:265-268 | the search loop finds the first group with the period |
| PidCode.PidAlgo.HandleSamplingAdjust | thermal-engine/pid_algorithm.c:255-336 | the group is found or made and the client moved to it |
| PidCode.PidAlgo.MoveClient | thermal-engine/pid_algorithm.c:301-335 | join, start, leave, stop, in that order, with the join undone when the start fails |
| PidCode.PidAlgo.EnterGroup | thermal-engine/pid_algorithm.c:304-318 | the client joins, and leaves again if the timer cannot be started |
| PidCode.PidAlgo.AdjustThreshold | thermal-engine/pid_algorithm.c:877-942 | hysteresis, level, history and mask of one client |
| PidCode.PidAlgo.AdjustTimer | thermal-engine/pid_algorithm.c:945-969 | a group's timer follows its mask |
| PidCode.PidAlgo.HandleThreshSig | thermal-engine/pid_algorithm.c:868-970 | both loops of the handler |
| PidCode.PidAlgo.OverrideOne | thermal-engine/pid_algorithm.c:661-696 | one client's set points follow the override mode |
| PidCode.PidAlgo.HandleOverrideSig | thermal-engine/pid_algorithm.c:656-697 | every client in turn |
| PidCode.PidAlgo.Regulate | thermal-engine/pid_algorithm.c:747-825 | the error goes into the client's ring, and its three values, read back from there, give the new level |
| PidCode.PidAlgo.LastErrs | thermal-engine/pid_algorithm.c:763-769 | indices 0, -1 and -2 of the ring are the history, newest first |
| PidCode.PidAlgo.Compute | thermal-engine/pid_algorithm.c:779-825 | reset, adjustment and clamping of one controller |
| PidCode.PidAlgo.SampleOne | thermal-engine/pid_algorithm.c:735-825 | only a mitigating member of the group is regulated |
| PidCode.PidAlgo.SampleGroup | thermal-engine/pid_algorithm.c:722-855 | the sample count and every member of an expired group |
| PidCode.PidAlgo.HandleTimerSig | thermal-engine/pid_algorithm.c:699-866 | expired groups are sampled, then restarted: every mitigating client of one is controlled as PidEffects.TimerControls says and every other client is as it was; if the clock fails nothing changes |
| PidCode.PidAlgo.FindInstance | thermal-engine/pid_algorithm.c:417-421 | the search loop finds the first instance with the description |
| PidCode.PidAlgo.ValidateClientConfig | thermal-engine/pid_algorithm.c:410-478 | the index of the instance, negative exactly when the entry is invalid |
| PidCode.PidAlgo.TryDisable | thermal-engine/pid_algorithm.c:508-521 | the enable or disable step of an entry |
| PidCode.PidAlgo.TrySampling | thermal-engine/pid_algorithm.c:523-536 | the sampling step |
| PidCode.PidAlgo.AdjustSetPoints | thermal-engine/pid_algorithm.c:538-572 | the two set-point steps, which cannot fail |
| PidCode.PidAlgo.ApplyConfig | thermal-engine/pid_algorithm.c:497-612 | one entry with its error handler |
| PidCode.PidAlgo.ValidateAll | thermal-engine/pid_algorithm.c:488-495 | the instances of a batch, if every entry is valid |
| PidCode.PidAlgo.ApplyAll | thermal-engine/pid_algorithm.c:497-612 | the second pass applies each entry in turn |
| PidCode.PidAlgo.HandleConfigSetSig | thermal-engine/pid_algorithm.c:480-615 | all entries are validated before any is applied: an invalid batch changes nothing, and a valid one is atomic if set points are in order and no period is below the minimum; whatever it changes is flagged |
| PidCode.PidAlgo.AddPid | thermal-engine/pid_algorithm.c:1124-1181 | a client joins the group of its period or makes it |
| PidCode.PidAlgo.PidAlgoInit | thermal-engine/pid_algorithm.c:1063-1189 | where the import loop ends it takes on the accepted sections in order, up to 32, and fails if and only if there are none |
| PidCode.PidAlgo.OverrideNotify | thermal-engine/pid_algorithm.c:172-186 | only a new override mode is noted and flagged |
| PidCode.PidAlgo.ConfigParameterSetNotify | thermal-engine/pid_algorithm.c:207-250 | up to 32 entries replace the last request, and are flagged if there are any |
| PidCode.PidAlgo.PidTimerExpired | thermal-engine/pid_algorithm.c:188-196 | the expired group is marked and flagged |
| PidCode.PidAlgo.Turn | thermal-engine/pid_algorithm.c:1012-1043 | one turn of the loop copies and clears the flags and runs the handlers they name, as PidMonitor says |
| PidCode.PidAlgo.PidAlgoMonitor | thermal-engine/pid_algorithm.c:972-1045 | the thread is a run of the handlers and keeps their invariant, timers follow masks if no timer call fails, and if the clock never fails no notification is lost and whoever mitigates goes on being sampled |
| SpeakerCal.Extremes | thermal-engine/speaker_cal.c:271-308 | the recorded minimum and maximum are attained and bound every reading of the window |
| SpeakerCal.FitsIsClose | thermal-engine/speaker_cal.c:310-330 | comparing extremes is the same as comparing every two readings of every sensor |
| SpeakerCal.SteadyOf | thermal-engine/speaker_cal.c:230-269 | for any readings, with the seeds -273000 and 300000 counted in, a round is steady if and only if the hottest is within sensor_delta of the single sensor and at most max_temp, and no further above the coldest than temp_range cast to int |
| SpeakerCal.SteadyIff | thermal-engine/speaker_cal.c:230-269 | for an array with readings between the seeds: if and only if every reading is at most max_temp, no two differ by more than temp_range, and one that no other exceeds is within sensor_delta of the single sensor |
| SpeakerCal.SteadyEmpty | thermal-engine/speaker_cal.c:230-269 | an array without sensors is as hot as its seed |
| SpeakerCal.WindowHolds | thermal-engine/speaker_cal.c:249-332 | the count is the length of a run of steady rounds whose readings are all within the long range |
| SpeakerCal.Soundness | thermal-engine/speaker_cal.c:249-364 | whenever a temperature is reported, in the last K rounds no reading of the array is above the maximum or further from another than the range, the hottest is within the delta of the single sensor, and no sensor differs over them by more than long_sample_range; the value is the coldest reading of the last, plus offset, in degrees rounded towards zero; nobody has cancelled |
| SpeakerCal.CancelNeeds | thermal-engine/speaker_cal.c:223-364 | a run is cancelled only by the flag |
| SpeakerCal.Liveness | thermal-engine/speaker_cal.c:223-354 | once rounds are calm an uncancelled run reports within 2K - 1 of them, whatever window was open before |
| SpeakerCal.LivenessIsTight | thermal-engine/speaker_cal.c:223-354 | after 2K - 2 calm rounds a run may still be waiting, for every K of at least 2 |
| SpeakerCal.Calibration.ReadSensors | thermal-engine/speaker_cal.c:224-247 | readings, minimum and maximum of one round |
| SpeakerCal.Calibration.Extend | thermal-engine/speaker_cal.c:271-292 | the extremes take in the new round |
| SpeakerCal.Calibration.Open | thermal-engine/speaker_cal.c:293-308 | the extremes restart from the new round |
| SpeakerCal.Calibration.WithinLongRange | thermal-engine/speaker_cal.c:310-330 | every sensor's extremes are within the long range |
| SpeakerCal.Calibration.Poll | thermal-engine/speaker_cal.c:224-332 | one round lengthens the window exactly when it is steady and still fits |
| SpeakerCal.Calibration.Calibrate | thermal-engine/speaker_cal.c:223-364 | the loop reports, is cancelled or still waits as the rounds determine |

## Left out

- Dload.ComState.UploadDblImage: assumes that every WRITE frame of the image fits the buffer the caller allocates, because the source writes past it otherwise; `Dload.WriteFrameFits` says when it does. The query for the maximum write size is left out, since the loop never uses it.
- Hdlc.HdlcEncode: assumes a buffer large enough for the frame, which callers of the source do not always provide.
- Comm.TransportRoundTrip: is about transfers that succeed. An empty packet is received with success only over SDIO, where the loop falls through; elsewhere its receive fails.
- Comm.Port.RxData: models fixed-size reads; with is_command_packet set one read may go beyond the declared length, so received Sahara commands are taken as whole packets.
- Comm.Port.ReceiveLoop: leaves out the change of the expected length in the middle of a command packet, for the same reason.
- MemoryDump.Dumper.OpenDebugFile: names a file by the entry's own name. The path and the upload prefix, the same for every file of a run, are left out, but for the failure when the whole name is too long.
- MemoryDump.DumpExact: assumes that no region is empty and that the file name field is a NUL-terminated string.
- Sahara.RunSafety: logs an exchange when its answer is handed to tx_data, whether or not that succeeds; a MEMORY_READ that cannot be sent is logged as no answer. prev_mode, which only the CMD_EXEC exchange reads, is left out.
- Sahara.Transfer.ReceiveCommand: takes the CMD_EXEC exchange as one step that succeeds or fails.
- Sahara.Step: has no branch for an unrecognized state, since no iteration ends in one.
- Sahara.ReadDataAnswer: assumes that image files do not change while they are served, that reads are complete, and that lseek accepts the offset, which a 32-bit off_t refuses from 2 GiB on.
- Sahara.Transfer: keeps the descriptor of the served image apart from that of a dump file. The source has one field for both, which a dump overwrites; every dump leaves for a state that looks the image up again or ends the run.
- PidInvariant.AllRuns: takes each handler as one atomic step, so the mutexes and the condition variable are left out; `PidMonitor` has the event flags, and lets callbacks in between handlers. Levels, temperatures and errors are unbounded integers, gains are reals rounded towards zero at the end, and a minimum operating level is at most the maximum.
- PidBatch.ConfigAtomic: assumes each instance is named at most once in a batch, since entries are validated before any is applied; and so, of a run, does PidSampling.SamplingStopsIff, since an entry could move a client away and the next move it back.
- Pid.SAMPLING_MS_MINIMUM: is 50, which is 100 in a build for SENSORS_8960 (thermal-engine/inc/thermal_config.h:19-23); the proofs need only that it is above zero and at most 100.
- PidMonitor.MonitorSafe: assumes that the timers of the first groups can be created, since otherwise the thread ends at once.
- PidCode.PidAlgo: the error branches after the sampling step are left out, since setting a set point cannot fail. Sensor and device registration and requests to the device are left out.
- PidCode.PidAlgo.PidAlgoInit: is called only where the source's loop ends, which `PidImport.EndsIff` characterises; elsewhere it never returns.
- PidCode.PidAlgo.ConfigParameterSetNotify: gets the entries for this algorithm; that messages for others are passed over, and requests of too many messages refused, is left out.
- SpeakerCal.Calibration.Calibrate: the alarm between rounds is left out; the cancel flag is given as the loop reads it.
- Allocation failures, logging, throughput timing, wakelocks and the serial port set-up.
- The image file list is a map from ids to files.
- The FM, WLAN, Bluetooth and NFC test tools, mdm-helper, qcks and the system daemon: dispatch over drivers and short transition tables.
