# A model of seztuner, with proofs

seztuner drives a network tuner with two receivers. This project models the parts of it that
compute something, in Dafny, and proves what those parts are for.

| file | what it models |
|---|---|
| `Gf2.dfy` | the bit-serial division register of Annex A of ISO/IEC 13818-1: linearity, invertibility, error bursts |
| `MpegCrc.dfy`, `FrameCrc.dfy` | the two byte-at-a-time checksums and the checks made with them |
| `KnownAnswers.dfy` | their published check values |
| `Framing.dfy`, `StreamSession.dfy` | frames of the control channel: printer, stream reader, datagram reader; a writer and a reader on one connection |
| `Transport.dfy`, `Reassembly.dfy`, `RawPackets.dfy` | transport-stream packets, what reassembly means, without buffers, and what the bytes of any packet mean to it |
| `Psi.dfy`, `Vct.dfy` | the section header with its version machine, and the tables, as functions |
| `Decoder.dfy`, `ProgramMap.dfy`, `StalePrograms.dfy` | whole runs of packets: tables end to end, versions, resets; the program map on the PID stored for it; the program array entry by entry |
| `Mpgatsc.dfy` | the decoder as the program runs it, with fixed buffers and fields updated in place |
| `Mpgts.dfy`, `Handshake.dfy`, `Polling.dfy`, `DemuxThread.dfy` | feeding a datagram; the reset handshake between the two threads as a state machine; how the waiting side ends; the demultiplexer thread on real decoders |
| `Tuner.dfy`, `Scan.dfy` | antenna, amplifiers and GPIO word; the interleaved channel scan |
| `Jobs.dfy`, `ChannelIds.dfy`, `TuningOrder.dfy` | sampling channels on two receivers; collecting channel tables; which channels that tunes |

Bytes are the integers from 0 to 255. Checksums work on bit vectors; `Bytes.dfy` relates the two, and
proves that the arithmetic used for a field is the mask the program applies. Loops that update variables
and objects that update fields are methods and classes here too; each is proved against a function, and the
theorems are about the function. In `Mpgatsc.Mpgatsc` two ghost fields, the packets since the last reset and
the tables it left, say what the buffers and table fields must hold, and `DemuxThread.Shared` ties two such decoders
to the state machine of the handshake. In `Framing`, `Tuner`, `Scan` and `Jobs` a ghost
field `broken` is set by the calls into the device or the network when they fail, and in `Scan` and `Jobs` a ghost
field `trace` is extended by every such call; no other code changes them, and the theorems are about them.

Findings about the program, each with a lemma:

- One bit of the version field is not extracted (mpgatsc.cpp:154, 156). A decoder follows a broadcaster from version `v`
  to the next exactly when `v % 8 != 7`, so it stops updating after at most eight versions (`Psi.NextVersionIsFollowed`,
  `Decoder.VersionsOverARun`).
- A table with a version to follow takes that version even when it is thrown away, and later sections of the version are
  ignored. A program table is stored exactly when it is whole, the only section and of a length divisible by four
  (`Psi.PatArrives`), a channel table exactly when it is whole, the only section and of protocol version 0
  (`Psi.VctArrives`), a program map exactly when it is whole and the only section (`Psi.PmtArrives`).
- A reset keeps the program array, so a program the new stream does not list may read as in the old one. After a reset a run
  leaves what it leaves in a new decoder exactly when the kept array is no larger than the one the run needs
  (`Decoder.ResetIsFreshExactly`). Program by program, exactly when it reads as in a new decoder is
  `StalePrograms.ProgramAfterReset`.
- The reset flag is cleared before the decoder is reset. Sections are never stale, but in that window the tables can
  still be whatever they were (`Handshake.StaleTablesInTheWindow`), the channel text included
  (`Handshake.EveryTextCanBeStale`).
- The frequency table is read two entries too far (tuner.cpp:291). Among channels 2 to 49 the band switched is wrong
  exactly for 5, 6, 12 and 13 (`Tuner.BandIsRight`), the amplifier on an antenna exactly for 12 and 13
  (`Tuner.AmpIsRight`); channels 50 and 51 read past the table.
- The low bits of the GPIO word get the number of each amplifier (tuner.cpp:197) where the table above them has one bit for
  each (tuner.cpp:188-195). They are as the table means exactly when both amplifiers are off or Vhf1, or one is Vhf1 and
  the other Uhf1 (`Tuner.AmpBitsAsMeant`).
- `get_ch_id` starts every round at the front of the list (main.cpp:82). A channel is tuned exactly when fewer of those
  before it are left than there are receivers (`TuningOrder.TunedExactly`), so while the first two do not finish no
  other channel is ever tuned (`TuningOrder.OthersStarve`).
- A frame comes back from the reader exactly when its payload is shorter than 65536 bytes (`Framing.FrameRoundTrip`).

## Model

| member | source | states |
|---|---|---|
| Gf2.RunLinear | mpgatsc.cpp:103-119 | the division register is linear over GF(2) in its start value and its input together |
| Gf2.RunInjective | mpgatsc.cpp:103-119 | different register values stay different under the same input |
| Gf2.ShortInputLeavesTrace | mpgatsc.cpp:103-119 | up to 32 input bits inject into the zero register: only zero bits leave it zero |
| Gf2.BurstChangesRegister | mpgatsc.cpp:103-119 | two inputs that differ only within 32 consecutive bits end in different registers |
| Gf2.Absorb | mpgatsc.cpp:103-119 | feeding a word bit by bit is the same as adding it to the register and clocking zeros |
| Gf2.OwnBitsEmptyTheRegister | mpgatsc.cpp:137-138 | a register runs empty on a 32-bit word exactly when the word is its own value |
| MpegCrc.Mpeg2Crc | mpgatsc.cpp:103-119 | the loop over a mutable register computes the checksum function of the bytes |
| MpegCrc.Remainders | mpgatsc.cpp:109-116 | the eight constants are the remainders of the eight bits of a byte after eight clocks |
| MpegCrc.ByteStepIsDivision | mpgatsc.cpp:106-117 | the eight conditional additions of a byte equal eight clocks of division by 0x04c11db7, on every register and byte |
| MpegCrc.CrcIsDivision | mpgatsc.cpp:103-119 | on every byte string the checksum is the remainder of the bitwise division of its bits |
| MpegCrc.CrcOkMeansEmptyRegister | mpgatsc.cpp:136-142 | the stored big-endian checksum matches exactly when the register over the whole section is 0 |
| MpegCrc.Sealed | mpgatsc.cpp:137-138 | appending the checksum of a body gives a section that passes |
| MpegCrc.BurstIsRejected | mpgatsc.cpp:136-142 | any change confined to 32 consecutive bits of a good section of the same length, in body or checksum, is rejected |
| KnownAnswers.MpegCheckValue | mpgatsc.cpp:103-119 | the section checksum of the digits 1 to 9 is 0x0376e6e7 |
| FrameCrc.TunerCalcCrc | socket.cpp:51-67 | the loop computes the frame checksum function of the bytes |
| FrameCrc.ByteStepMirror | socket.cpp:54-65 | reversing the bits turns one checksum's byte step into the other's |
| FrameCrc.CrcsAreMirrorImages | socket.cpp:51-67 | reversing the 32 bits of the complemented frame checksum gives the section checksum of the bytes with their bits reversed, for every byte string |
| FrameCrc.FrameOkMeansResidue | socket.cpp:143-148 | a frame is good exactly when the mirrored register over all of it, checksum included, ends in one fixed value |
| FrameCrc.FrameBurstIsRejected | socket.cpp:385-389 | a change confined to 32 consecutive bits of a good frame of the same length is rejected |
| KnownAnswers.FrameCheckValue | socket.cpp:51-67 | the frame checksum of the digits 1 to 9 is 0xcbf43926 |
| Framing.PktAddCrc | socket.cpp:69-81 | writes the frame of the payload into the buffer in place and nothing after it |
| Framing.CheckCrc | socket.cpp:143-148 | the byte comparison accepts exactly the good frames |
| Framing.FrameLayout | socket.cpp:69-81 | a frame byte by byte: 0, the type, the length high byte first, the payload, and the checksum of all of it |
| Framing.Socket.Write | socket.cpp:330-343 | under any partial writes the connection gets exactly the frame; only a failing system call stops it, and then a proper part was sent |
| Framing.Socket.Fill | socket.cpp:360-369 | under any partial reads the buffer gets exactly the next bytes of the stream; it fails only if a system call fails or the stream has too few |
| Framing.Socket.Read | socket.cpp:345-396 | takes exactly one frame off the stream and returns its type and payload, or reports it corrupt, as the stream parser says; it fails only if a system call fails or the stream ends within the frame |
| Framing.Socket.SendAll | socket.cpp:330-343 | any list of packets written one after another puts exactly their stream on the connection, unless a system call fails |
| Framing.Socket.ReceiveAll | socket.cpp:345-396 | reading in any pieces returns exactly the packets the stream parser finds, and a beginning of them if a system call fails |
| StreamSession.Writer.Step | socket.cpp:330-343 | each system call of the write loop extends what is written, which is always a beginning of the stream of all packets |
| StreamSession.Reader.Step | socket.cpp:345-396 | each system call of the read loop adds bytes to the frame at hand; a frame is checked and received exactly when it is whole |
| StreamSession.ReadMore | socket.cpp:371-396 | whatever pieces are read while more is written, a whole frame is the next packet and passes its check |
| StreamSession.Session | socket.cpp:330-396 | any list of packets written to one end while it is read from the other, system calls in any order and of any size: what is received is always a beginning of the list, and all of it with nothing left unless a system call fails |
| Framing.FrameRoundTrip | socket.cpp:69-81 | the stream parser undoes the printer exactly when the payload is shorter than 65536 bytes |
| Framing.StreamSnoc | socket.cpp:330-343 | one more packet written extends the stream by its frame |
| Framing.StreamRoundTrip | socket.cpp:345-396 | the stream parser recovers any list of packets from its stream in order, with nothing left over |
| Framing.UdpPktRecv | socket.cpp:137-167 | of datagrams of any size, accepts exactly those that are one frame, and leaves type and payload with the length moved out in place |
| Framing.DatagramIsOneFrame | socket.cpp:156-161 | the datagram reader and the stream reader accept the same single frames, with the same type and payload |
| Framing.DamagedFrameIsNotAccepted | socket.cpp:143-153 | a printed frame damaged within 32 consecutive bits is not accepted as a datagram |
| Bytes.BitIsMask | mpgatsc.cpp:543-570 | the arithmetic bit test is the mask test, for each of the eight masks |
| Bytes.RxVersionIsMask | mpgatsc.cpp:154-156 | the arithmetic version field is `(b & 0x2f) >> 1` |
| Transport.Classify | mpgatsc.cpp:539-590 | a packet's payload to collect is never empty and never more than 184 bytes |
| Transport.MakePacket | mpgatsc.cpp:555-600 | a packet printed with any adaptation field and any pointer field is read back as its PID and payload |
| RawPackets.PacketMeaning | mpgatsc.cpp:539-615 | what any packet means, by its bytes: its PID, whether it counts, and where the payload to collect starts |
| RawPackets.IdlePacketsDoNotCount | mpgatsc.cpp:539-568 | packets with a wrong sync byte, the error bit or no payload can be left out of any run: sections delivered, bytes pending and tables stay the same |
| RawPackets.DamagedPacketsDoNotCount | mpgatsc.cpp:543-546 | in particular all packets whose byte 1 is 0x80 or more |
| RawPackets.SectionAmongDamage | mpgatsc.cpp:537-633 | a section on PID 0 or 0x1ffb is parsed whatever damaged packets lie between its own |
| RawPackets.NothingBeforeStart | mpgatsc.cpp:591-604 | without a unit start nothing of a PID is collected or delivered |
| RawPackets.SectionLength | mpgatsc.cpp:617-619 | the length of a section by its second and third byte |
| RawPackets.NothingFromOutside | mpgatsc.cpp:583-589 | a unit start whose pointer leaves the packet delivers nothing and leaves the tables |
| RawPackets.PendingIsLost | mpgatsc.cpp:583-589 | and what was collected of its PID is lost, of every other PID kept |
| Reassembly.Delivered | mpgatsc.cpp:617-624 | what is delivered is exactly one section by its own length field |
| Reassembly.TruncationIsHarmless | mpgatsc.cpp:606-614 | cutting at 0x1003 bytes leaves room for new payload and never changes whether a section is complete, or which |
| Reassembly.PendingIsIncomplete | mpgatsc.cpp:617-630 | what is remembered between packets is never a complete section |
| Reassembly.CutSectionComesOutOnce | mpgatsc.cpp:537-633 | a section cut into packets with any pointer and adaptation fields is delivered byte for byte, once, whatever came before |
| Reassembly.QuietUntilNextStart | mpgatsc.cpp:603-604 | after a delivery nothing more is delivered until the next unit start |
| Reassembly.PidsDoNotInterfere | mpgatsc.cpp:555-630 | the sections of a PID are those of its own packets alone, for every interleaving |
| Reassembly.InterleavingIsIrrelevant | mpgatsc.cpp:555-630 | two interleavings with the same packets of a PID deliver the same sections of it |
| Vct.WholeTextLength | mpgatsc.cpp:345-350 | at most 255 lines, known or not, have at most 65280 characters together |
| Vct.TextFits | mpgatsc.cpp:288-293 | no table gives more lines than its count byte says, also when its loops leave the section |
| Vct.EntryCount | mpgatsc.cpp:288-361 | lines written before and after an overrun together never exceed the count |
| Vct.ListStays | mpgatsc.cpp:364-385 | the walk over a well-formed descriptor list stays inside it, also with one odd byte at its end |
| Vct.FixedReadBack | mpgatsc.cpp:294-353 | name, major number, minor number, modulation and descriptor length of an encoded channel are read back |
| Vct.ChannelsReadBack | mpgatsc.cpp:274-362 | one entry a channel, in order, each describing its channel, for any list of channels with well-formed descriptors |
| Vct.OneEntry | mpgatsc.cpp:288-361 | of any table, well formed or not: when an entry is lost, kept, the last one, or followed by another, and where that begins |
| Vct.StrayDescriptor | mpgatsc.cpp:364-385 | a descriptor longer than what is left of its list makes the walk leave it |
| Vct.LineOf | mpgatsc.cpp:345-350 | the text is the lines of the entries in order, each of at most 255 characters |
| Psi.AcceptedExactly | mpgatsc.cpp:121-189 | when a section is accepted, both ways, and with which version |
| Psi.BadSectionChangesNothing | mpgatsc.cpp:131-152 | a bad checksum or a long header marked "next" leaves every table as it was |
| Psi.RepeatIsIgnored | mpgatsc.cpp:387-534 | the same section twice in a row leaves what it left once, for every table |
| Psi.PatArrives | mpgatsc.cpp:387-455 | a program table on PID 0 with a version to follow always takes it; its programs are stored exactly when it is whole, single and of a length divisible by four; nothing else changes, and either way no later section of that version is looked at |
| Psi.ShortPatArrives | mpgatsc.cpp:131-143 | a program table with a short header is always stored, read from byte 3, exactly when its length leaves 1 modulo 4 |
| Psi.VctArrives | mpgatsc.cpp:457-517 | the same of a channel table on PID 0x1ffb, taken exactly when it is whole, single and of protocol version 0: names of 14 bytes for ids 0xc8 and 0xc9, of 32 for 0xda |
| Psi.MgtArrives | mpgatsc.cpp:458-462 | a guide table takes its version and changes nothing else |
| Psi.PmtArrives | mpgatsc.cpp:519-534 | the same of a program map on the PID stored for program 3, whose clock PID is taken exactly when it is whole and single |
| Psi.OthersChangeNothing | mpgatsc.cpp:387-534 | a section of any other PID or table id changes nothing |
| Psi.MapPid | mpgatsc.cpp:401-423 | the PID stored for program 3 is the last one listed that is not 0, and stays without one |
| Psi.TablesMoveVersions | mpgatsc.cpp:146-168 | each section leaves a version alone, takes the first one, or moves it by one modulo 32 |
| Psi.AtMostEightVersions | mpgatsc.cpp:154-166 | a version variable never goes back and takes at most eight values between resets |
| Psi.NextVersionIsFollowed | mpgatsc.cpp:153-166 | the next version of a broadcaster is followed exactly when the current one is not 7 modulo 8 |
| Decoder.VersionsOverARun | mpgatsc.cpp:153-166 | the same over every run of packets after a reset, for all four version variables |
| Decoder.StoreLast | mpgatsc.cpp:442-453 | the array holds the last PID listed for a program |
| Decoder.StoredPrograms | mpgatsc.cpp:401-453 | after a program table the use count is one past the largest program and within the allocation; every listed program has its last PID and every other is 0 or what the kept array had |
| Decoder.TablesDependOnOwnPid | mpgatsc.cpp:387-534 | program tables depend only on PID 0 and ATSC tables only on their PID, over every interleaving |
| Decoder.CutSectionIsParsed | mpgatsc.cpp:537-633 | if a PID carries one section cut into packets, its tables are what that section says |
| Decoder.DamagedSectionIsIgnored | mpgatsc.cpp:136-142 | a section damaged within 32 consecutive bits, cut into packets, leaves its PID's tables as they were |
| Decoder.PatSection | mpgatsc.cpp:391-415 | a printed program table is one section with a good checksum and the header and entries given |
| Decoder.PatEndToEnd | mpgatsc.cpp:392-455 | a fresh decoder fed any interleaving whose PID 0 is one program table, cut into packets, holds exactly that table |
| Decoder.VctEndToEnd | mpgatsc.cpp:464-498 | the channel list of a TVCT or CVCT with names of 14 bytes, or of an SVCT with names of 32, cut into packets on PID 0x1ffb is decoded entry by entry, in order, with names, numbers and modulation |
| Decoder.NoTextUntilTable | mpgatsc.cpp:464-498 | after a reset there is no channel text exactly until the first channel table is accepted |
| ProgramMap.PmtEndToEnd | mpgatsc.cpp:519-534 | whatever came before, a program map cut into packets on the PID stored for program 3 leaves its clock PID and its version, with packets of any PID but 0 in between |
| ProgramMap.MapStays | mpgatsc.cpp:519-534 | packets of any other PID leave both |
| ProgramMap.PatThenPmt | mpgatsc.cpp:387-534 | in a new decoder, a program table and then a program map on the PID it lists for program 3 leave that map's clock PID and version |
| Decoder.TextStaysSmall | mpgatsc.cpp:274-362 | over every run of packets, whatever tables it carried, the channel text stays within 255 lines and 65280 characters |
| Decoder.ResetIsVisiblyFresh | mpgatsc.cpp:37-54 | after a reset every run leaves what it leaves in a new decoder, but for the program array |
| Decoder.ResetIsFreshExactly | mpgatsc.cpp:37-54 | after a reset a run of packets leaves exactly what it leaves in a new decoder if and only if the kept array is no larger than the one the new decoder has then |
| StalePrograms.ProgramAfterReset | mpgatsc.cpp:426-453 | over every run after a reset, exactly when a program reads as in a new decoder: the kept array is no larger, or the program was listed since the new decoder last replaced its array, or the kept array has 0 for it |
| StalePrograms.KeptArray | mpgatsc.cpp:426-453 | an array larger than a new decoder's is never replaced, and holds the last PID of all tables of the run or what it held before |
| StalePrograms.NewArray | mpgatsc.cpp:426-453 | a new decoder's array holds the last PID listed since it was replaced, or 0 |
| Decoder.StaleProgramsAfterReset | mpgatsc.cpp:426-440 | for the first table after a reset, exactly when a program it does not list reads differently from a new decoder |
| Decoder.StaleProgramExists | mpgatsc.cpp:426-440 | a concrete array and table where it does |
| Mpgatsc.ShortSectionsFail | mpgatsc.cpp:131-149 | no section of fewer than six bytes with a known id passes, so the version byte read is always the section's own |
| Mpgatsc.MpgParseHdr | mpgatsc.cpp:121-189 | the header check on a buffer depends on the section's bytes alone, though it reads up to byte 7 first |
| Mpgatsc.AtscParseHdr | mpgatsc.cpp:191-203 | the same with the protocol version |
| Mpgatsc.ParseDescriptors | mpgatsc.cpp:364-385 | the loop says whether the descriptor walk stays in the section |
| Mpgatsc.ParseVct | mpgatsc.cpp:274-362 | the loop over a channel table gives the entries the table function gives |
| Mpgatsc.Mpgatsc.constructor | mpgatsc.h:37-58 | a new decoder is valid, with no packets and fresh tables |
| Mpgatsc.Mpgatsc.Init | mpgatsc.cpp:27-54 | clears every counter and table but keeps buffers and program array, and is again a decoder with no packets |
| Mpgatsc.Mpgatsc.CountPrograms | mpgatsc.cpp:401-423 | the first loop finds the largest program and the last non-zero PID of program 3 |
| Mpgatsc.Mpgatsc.GrowPat | mpgatsc.cpp:426-440 | the array is kept or replaced by a larger blank one |
| Mpgatsc.Mpgatsc.StorePids | mpgatsc.cpp:442-453 | the second loop stores every entry; its error branch is unreachable |
| Mpgatsc.Mpgatsc.ParsePat | mpgatsc.cpp:392-455 | a PAT updates the fields in place as the table function says; its entry count never wraps |
| Mpgatsc.Mpgatsc.ParsePsip | mpgatsc.cpp:457-517 | an ATSC table updates its fields as the table function says |
| Mpgatsc.Mpgatsc.ParsePmt | mpgatsc.cpp:522-530 | a PMT updates its fields as the table function says |
| Mpgatsc.Mpgatsc.ParseTbl | mpgatsc.cpp:387-534 | all tables together, from the section's bytes alone |
| Mpgatsc.Mpgatsc.CounterBelowSection | mpgatsc.cpp:599-630 | after every packet a PID's counter is short of its section's length, which is at most 0x1002 |
| Mpgatsc.Mpgatsc.StartUnit | mpgatsc.cpp:591-600 | a unit start makes or reuses the buffer and touches no other PID |
| Mpgatsc.Mpgatsc.Append | mpgatsc.cpp:606-614 | more payload is appended within the buffer, always some of it, and no other PID is touched |
| Mpgatsc.Mpgatsc.Finish | mpgatsc.cpp:617-631 | a section is parsed exactly when it is complete, whatever stale bytes the buffer holds |
| Mpgatsc.Mpgatsc.ThreadDemux | mpgatsc.cpp:537-633 | fixed buffers and counters refine the specification over histories: each packet delivers what the run of packets of its PID delivers, and buffers and tables stay those of the run |
| Mpgts.FeedDatagram | mpgts.cpp:58-85 | a datagram feeds its seven packets in order up to the first bad sync byte; other sizes feed none |
| Mpgts.CheckReset | mpgts.cpp:49-53 | a raised flag is cleared and leaves a decoder with no packets |
| Handshake.DatagramLayout | mpgts.cpp:58-84 | a datagram of 1328 bytes is its header of 12 and its seven packets, with nothing over |
| Handshake.FedExactly | mpgts.cpp:73-84 | the packets fed end with the first whose sync byte is wrong, or with the last |
| DemuxThread.BadExactly | mpgts.cpp:58-84 | a datagram ends the thread exactly when it has 1328 bytes and one of its seven packets starts with a wrong byte |
| DemuxThread.Shared.ControlStep | mpgts.cpp:162-174 | each step of start_ts on the shared flag is the next one of the state machine for that channel, and leaves the decoders alone |
| Polling.LooksDecide | mpgts.cpp:162-178 | over every run, start_ts has given up exactly when three looks since it raised the flag each found it up, and has succeeded exactly when one of at most three found it clear |
| Polling.RealLooksDecide | mpgts.cpp:162-178 | the same of the threads on the shared flag, whatever they did before |
| DemuxThread.Shared.Turn | mpgts.cpp:30-86 | a whole turn on two real decoders, with the control thread stepping in anywhere, is a run of the state machine that begins with this wake-up; each channel is fed the packets of its datagram up to the first bad sync byte, which ends the thread |
| DemuxThread.Shared.DecoderIsFresh | mpgts.cpp:162-174 | once start_ts saw the flag clear, outside the window, the real decoder's fields are those of a new one fed what came since the reset, but for the program array |
| DemuxThread.Shared.ThreadMain | mpgts.cpp:28-90 | the same after any number of turns |
| Handshake.RunsKeepInv | mpgts.cpp:28-90 | over every interleaving the last reset is not older than the last raise once the flag is seen clear, unless it is about to happen |
| Handshake.NoStaleSections | mpgts.cpp:162-174 | once start_ts saw the flag clear, each section delivered is what a new decoder delivers from the packets since the reset, all demultiplexed after the raise |
| Handshake.TablesAreFresh | mpgts.cpp:162-174 | then, outside the window between clearing and reset, the tables are those of a new decoder, but for the program array |
| Handshake.StaleTablesInTheWindow | mpgts.cpp:49-53 | from every reachable state in which the demultiplexer thread waits, on either channel, start_ts can see the flag clear while the tables are still the old ones |
| Handshake.StaleTextInTheWindow | mpgatsc.h:66 | in particular the channel text of the old stream, on either channel, for any channel table cut into packets in any way |
| Handshake.EveryTextCanBeStale | mpgatsc.h:66 | every channel table can be that text |
| Tuner.BandIsRight | tuner.cpp:286-302 | up to channel 49 the frequency used is that of two channels up, and the band switched is right exactly when the channel is not 5, 6, 12 or 13 |
| Tuner.ChannelPlan | tuner.cpp:577-629 | the frequency of every channel number |
| Tuner.AmpIsRight | tuner.cpp:293-308 | up to channel 49 the amplifier is the one for the channel's own band exactly on the cable or when the channel is not 12 or 13 |
| Tuner.TunedServes | tuner.cpp:293-308 | by channel number: on an antenna the VHF amplifier up to channel 11 and the UHF one from 12 to 49, the external one on the cable |
| Tuner.DividerIsExact | tuner.cpp:312-324 | up to channel 49 the divider and band byte sent are those of the channel two up and of no other frequency or band |
| Tuner.WantedByNumber | tuner.cpp:286-324 | by channel number: the divider is 16 times 44 MHz above the frequency two channels up, the band byte 1 up to channel 4, 2 up to 11 and 4 up to 49 |
| Tuner.PastTheTable | tuner.cpp:286-324 | channels 50 and 51 are tuned to whatever follows the table, exactly if it is below 862 |
| Tuner.CanTuneExactly | tuner.cpp:275-306 | which calls can be done, by channel number |
| Tuner.WordFields | tuner.cpp:181-218 | the two filter fields read back what was put in and the kept bits do not change |
| Tuner.SelectionIsUnique | tuner.cpp:200-217 | a GPIO word decodes to one pair of amplifiers |
| Tuner.WordByAmp | tuner.cpp:173-218 | both filter fields and the low bits of the word, amplifier by amplifier |
| Tuner.AmpBitsAsMeant | tuner.cpp:187-197 | exactly for which pairs of amplifiers the low bits are those of the program's own table |
| Tuner.KeptBits | tuner.cpp:181-185 | the bits kept are those of 0x80f0 |
| Tuner.ConsistentIsRight | tuner.cpp:173-340 | in a consistent state whose word selects its amplifiers, each receiver that is on up to channel 49 has the filter field, divider and band byte its channel number and the antenna call for |
| Tuner.RunsAreConsistent | tuner.cpp:240-340 | over every run of successful calls each channel is off, or as tuned under the antenna in force with its chip told the channel's setting |
| Tuner.LastAntennaDecides | tuner.cpp:240-273 | after any switches among connected antennas the state is that of the last switch alone |
| Tuner.Tuner.constructor | tuner.h:25-32 | a new tuner is consistent, with both channels off |
| Tuner.Tuner.SetAmp | tuner.cpp:173-238 | a successful change writes a word that selects both amplifiers, keeps the bits of 0x80f0, and changes one channel |
| Tuner.Tuner.Init | tuner.cpp:54-75 | success leaves both channels off and a word that says so; only a failing device call prevents it |
| Tuner.Tuner.SetFreq | tuner.cpp:275-340 | tunes that channel alone, tells its chip the divider and band, and up to channel 49 selects the amplifier that the channel number and the antenna call for; it fails wherever there is no antenna or no band, and otherwise only if a device call fails |
| Tuner.Tuner.SetAntenna | tuner.cpp:240-273 | retunes every channel that is on, as if tuned under the new antenna, and the word matches; only a failing device call prevents it |
| Tuner.Tuner.RunCalls | tuner.cpp:54-340 | init and any calls after it: unless a device call fails or a call cannot be done, the state is that of the run, the last word keeps its bits of 0x80f0, and each receiver that is on up to channel 49 has its filter field, and its chip the divider and band byte, that its channel number and the antenna call for |
| Tuner.FreqAfterTune | tuner.h:93-99 | get_freq reports the channel just set, -1 after turning off, and for the other receiver what it reported before |
| Tuner.FreqSurvives | tuner.h:93-99 | get_freq keeps reporting the channel last set over every run of tunings of the other receiver and switches among connected antennas |
| Scan.TuneRound | tuner.cpp:430-437 | each receiver with an index left in the round is tuned to it |
| Scan.SampleRound | tuner.cpp:442-446 | the receivers of the round are sampled once each on the channel they are tuned to, and the locked ones appended, within the table's size |
| Scan.Scan | tuner.cpp:421-471 | for any table size and receiver count: every channel is sampled exactly once, on a receiver tuned to it at that moment; the result is increasing and holds exactly the channels whose bit was set; with two receivers the positions shown are 0, 1, 2 and so on up to the number of rounds, within the maximum; only a failing call stops it |
| Scan.LockedIsVisited | tuner.cpp:444-445 | what locked was visited, and no more often |
| Scan.QSortSorts | tuner.cpp:468 | the sorted list has the same elements as often |
| Scan.ShowNext | tuner.cpp:354-380 | each round shows the next position, and the last is not past the maximum |
| Scan.FiftyChannels | tuner.cpp:354-380 | the table of 50 channels takes 26 rounds, and the last position is the maximum |
| Jobs.Visit | main.cpp:275-307 | one look at a receiver: its job is gone exactly if its second is over or its answer locks, and a lock is appended to the strong list |
| Jobs.FreeReceiver | main.cpp:275-311 | the wait ends with a free receiver, and every other receiver keeps its job |
| Jobs.RetirePass | main.cpp:322-358 | one pass looks at every receiver once, in order; it counts none exactly when none is left busy |
| Jobs.IssueAll | main.cpp:266-319 | the channels tuned on the device are those of the list, in order, each on a receiver just found free |
| Jobs.Sample | main.cpp:254-360 | for any receiver count, unless a device call fails: the channels tuned are the list in order, the trace of what was done is a proper one with no receiver left busy, and the list made is its strong channels, never longer than the input; both waits end |
| Jobs.EveryJobEnds | main.cpp:275-350 | in such a trace every tuned channel gets one verdict before its receiver is tuned again: it locks on the last answer asked of it, within its second, or its second passes with every answer 3 or less |
| Jobs.StrongIffAnswered | main.cpp:295-302 | a channel is in the strong list exactly when its receiver answered more than 3 between its tuning and the next |
| Jobs.NothingLost | main.cpp:266-358 | at every moment the channels tuned are those running, strong and weak, each as often |
| Jobs.StrongIsDuplicateFree | main.cpp:261-262 | channels tuned once each give a duplicate-free strong list, and each of them is strong or weak but not both |
| TuningOrder.TuneWindow | main.cpp:82-97 | the start of a round leaves the receivers reporting the first channels left, unless a device call fails or a call cannot be done |
| TuningOrder.TunedExactly | main.cpp:82-191 | after any rounds a channel that is left is tuned in the next one exactly when fewer of those before it are left than there are receivers |
| TuningOrder.OthersStarve | main.cpp:82-191 | as long as none of the first channels finishes, one for each receiver, no other is tuned in any round |
| TuningOrder.FinishedWasTuned | main.cpp:82-191 | a channel finishes only after a round that tuned it |
| ChannelIds.TakeFinished | main.cpp:169-186 | in-place removal with an index decremented through zero leaves exactly the unfinished positions in order, and the text of the finished ones is appended |
| ChannelIds.TakenExactly | main.cpp:169-187 | a position is taken exactly when it was in the round and its receiver finished, and kept otherwise |
| ChannelIds.TextsOfTwo | main.cpp:169-181 | with two receivers, the texts of the finished ones in the order of the receivers |
| ChannelIds.TextsFit | main.cpp:173-175 | the texts of decoders after any runs since their resets meet the bound that the appending relies on |
| ChannelIds.Append | main.cpp:173-181 | one doubling always makes room for one more table |
| ChannelIds.NothingLost | main.cpp:169-187 | finished and remaining channels together are the list, for any receiver count |
| ChannelIds.RoundsLoseNothing | main.cpp:82-191 | collected plus remaining is the original list over any number of rounds |

## Left out

- Sockets, select calls, threads, terminal handling and interface enumeration (`iface.cpp`, `find`, `open`, `close`, `rawgetch`): reads and writes are nondeterministic and move at least one byte or fail.
- Hardware register sequences (`set_modulation`, `get_demod*`, `set_demod*`, `get_mse`): calls that may fail or give any answer; the register that `scan` saves and restores, and the version `init` reads.
- Text layout: a formatter is a parameter, its lines are cut at 255 characters; the channel label in front of a line, `iconv` and all diagnostics are not modelled.
- The return value of `parse_tbl` and `parse_mgt`, which only decide what is printed, and the MGT body, which changes no state.
- Dump files, and allocation failures.
- Framing.UdpPktRecv: a datagram of one to three bytes is told apart as `TooShort`; what the program reads when its length arithmetic goes below zero is not modelled.
- Framing.Socket.Read: a frame longer than the caller's buffer is told apart as `RunsOff`; what the program then writes over is not modelled. A read at the end of the stream fails here, where the program would go on asking.
- Mpgatsc.ParseVct: where the loops leave the section, the lines written so far are kept and up to the remaining count of further lines may follow, of any content: the bytes read there are not modelled.
- Vct.ChannelsReadBack: descriptor lists are well formed.
- Jobs.Sample: the pauses between looks. A failing call ends the function, and nothing is said of the list made until then.
- Tuner.Tuner.SetFreq: of the bytes for the tuner chip only the divider and the band byte are modelled. Consistency is stated for successful calls; after a failed device call the program's state is partial. What lies after the frequency table is a parameter.
- Scan.Scan: the antenna is fixed; antenna detection with its carried-over list and progress interpolation is not modelled. The library's sort is a function.
- ChannelIds.TakeFinished: the wait for lock before a round is outside; which receivers finished is given.
- DemuxThread.Shared.Turn: the thread's test of a flag and its clearing are one step, as in `Handshake`; the datagram of each socket is given.
- Handshake.NoStaleSections: a failing select or receive call ends the demultiplexer thread; only a bad sync byte does so here. That the flag is cleared in time is not claimed.
- Continuity counters, and a second section in the payload of the same packet, which the program does not handle either.
- The channel number kept beside a decoder for printing, and the addresses and ports of streams.
