# A verified model of the SSTP server

This project models the parts of the SSTP server whose correctness rests on
interleaving, re-queueing, in-place buffers and negotiation, and proves what they
promise. `dafny verify dfyconfig.toml` checks the whole project.

**Kernel data plane** (`kmod/`). `TxMachine` is the transmit path of one attached session
as steps that interleave freely: `start_xmit`, the inline LCP echo responder, the batching
worker, SEND_CONTROL and the write-space hook. A producer's look at the queue length and
its append are separate steps. `TxProgress` proves that everything queued gets out;
`TxChannel` is the same code in its own form, with the batch and header arrays and the
bytes handed to the socket, and `TxRefine` proves it to be a run of the machine. `RxPath`
is the receive side: the 8192-byte buffer, parsed and compacted in place, and the worker
whatever the socket answers. `Rings` holds
the two rings with modular indices, `ControlPairing` the protocol between them and the
session task, `Echo` the inline responder.

**Framing and reassembly.** `SstpFraming` is the packet header of [MS-SSTP] sections 2.2.1
and 2.2.3 with the kernel's and the userspace parser; `Reassembly` is what holds for any
parser whose verdicts are stable under extension; `UserReader` is the session's read loop.

**PPP server** (`src/ppp/`). `Fsm` is the negotiation automaton beside the table of section
4.1 of RFC 1661, `FsmRuns` its whole runs. `PppOptions`, `LcpVerdict` and `IpcpVerdict` are
the option lists and the server's verdicts, `PppCodec` the packets, `Utf8` the text of a
reject message. `PppModel` is the driver as functions over an arbitrary automaton;
`PppDriver` is the same driver as the classes the source has, and `PppDrive` drives them
over any calls. `PppRuns`, `PppReplies` and `PppFrames` state what every run does, `PppSaid`
what it says in numbers and bytes, `PppTable` how the packets of driver and automaton follow
RFC 1661, `SessionWrite` how the session puts them on the wire, and `PppTimers` what its one
timer slot covers. `PppPeer` is a cooperative peer that knows only the packets it is sent,
and `PppHandshake` the conversation with it.

**Netlink** (`src/netlink.rs`, `src/kppp/netlink.rs`). `Netlink` is the attribute tree and
its walk, `NetlinkBuilder` the buffer that patches nested lengths in place, `NetlinkWalk`
the two readers.

**Accounting** (`src/auth/accounting.rs`, `src/session.rs`). `AcctIds` is the identifier
allocator and the life of a slot, `AcctTrace` the records a session submits.

Integers are unbounded; widths that matter (the 12-bit SSTP length, 16-bit Lengths, one-byte
identifiers and option lengths, 32-bit counters) are written out. Netlink fields use
little-endian host order. Assumed of the surroundings: `kernel_sendmsg` takes everything,
takes nothing and owes a write-space callback, or fails; `start_xmit` and the push inside
`ppp_output_wakeup` run under the channel lock; the random challenge, the socket's answers,
the authentication verdicts, clocks and kernel counters are inputs.

## Where a promise is false

- A frame longer than 4095 bytes is not read back: SEND_CONTROL admits a body of 4092
  bytes, and an Echo-Request without the Address and Control bytes can be two bytes too long
  for its reply (`SstpFraming.EncodedStreamParses`, `SstpFraming.ControlBodyTooLong`,
  `Echo.ReplyReadsBackIffShort`).
- The userspace reader waits for ever on a complete control packet with a body under four
  bytes, and ends the session on an unknown message type; the kernel's parser does neither
  (`SstpFraming.ParsersAgree`, `SstpFraming.RuntControlBlocks`).
- `src/ppp/fsm.rs` calls itself a verbatim transcription of the table in section 4.1 of
  RFC 1661. It departs from it in the cells of `Fsm.Departs` (`Fsm.TableAgreement`).
- A session does not survive every frame it reads: a PPP frame too long for its 4095-byte
  buffer aborts it. Echo-Requests of Length 4088 and 4089 do that where the kernel answers
  (`Echo.SameBytesIffShort`, `Echo.LongEchoAborts`), and so do option lists whose answer is
  longer than 4083 bytes (`PppFrames.FrameFitsIffAnswerShort`, `PppFrames.LongRequestAborts`,
  `PppHandshake.BareListAborts`).
- The restart timer does not cover every negotiation: a layer can stop its own
  (`FsmRuns.SilentAfterAck`), and LCP and IPCP share one slot, so either can take it from the
  other (`PppTimers.OneSlotCoversIff`, `PppTimers.TakeoverIsReached`).
- `src/ppp/fsm.rs` has an event for a Configure-Ack with our identifier; the driver raises it
  for any identifier. While the layer is not open that at most makes the server ask once
  more; an Ack that finds it open, such as the one of the second copy of a retransmitted
  request, takes it down (`PppPeer.AckWelcomeIffNotOpen`, `PppPeer.IpcpAckWelcomeIffNotOpen`,
  `PppTimers.SecondAckTakesItDown`, `PppTimers.SecondIpcpAckTakesItDown`).
- The comment on `handle_chap` has a stray Challenge dropped; it is taken for a Response
  (`PppSaid.ChallengeTakenForResponse`).
- A Terminate-Ack does not copy its request's identifier (`PppTable.TerminateAckIdentifier`).
- `kmod/sstp_demux.c` breaks out of its receive loop on EPIPE as already closed; when it is
  the socket that answers EPIPE it is not, and the session is stranded
  (`RxPath.RxSession.RxWorker`, `RxPath.StrandedByEpipe`).
- A late reclaim can remove the slot of a later accounting transaction, after a full sweep
  of the identifiers (`AcctIds.ReclaimCanHitALaterTransaction`).
- The walk gives a netlink tree back unless some attribute type already carries the nest
  flag (`Netlink.RoundTripIffPlain`).

Where code and comments disagree the code is followed: `src/ppp/driver.rs` speaks of a timer
slot per layer where `src/session.rs` keeps one; `kmod/sstp_internal.h` calls the workqueue
ordered where `kmod/sstp_attach.c` makes it unbound, so the two workers interleave here.

## Model

| member | source | states |
|---|---|---|
| TxMachine.NoStalledSender | kmod/sstp_chan.c:49-202 | in every reachable open state a queued or held packet has somebody to send it: the worker is running or queued, a producer is about to queue it, or a write-space callback is owed, and a worker past its last look into the queue does not count; with the worker idle and a packet held, at least 32 are queued |
| TxMachine.OccupancyBound | kmod/sstp_chan.c:68-144 | in every reachable state queue and hand together hold at most 64 + 8 + 1 packets, and a batch being sent has 1 to 8 frames and at most 14336 bytes |
| TxMachine.WireInOrderAndReadable | kmod/sstp_chan.c:109-180 | in every reachable state the data frames on the wire are a prefix of the append order, and while every frame fits 4095 bytes the demultiplexer reads exactly them back |
| TxMachine.InvKept | kmod/sstp_chan.c:89-202 | every step of every actor keeps order, record, weight, bound and liveness invariants |
| TxProgress.EveryPacketGetsOut | kmod/sstp_chan.c:98-201 | from every reachable open state every schedule of ordinary steps reaches a quiet state, with everything appended on the wire in order, a fitting packet that ppp_generic had among it |
| TxProgress.BusyAdvances | kmod/sstp_chan.c:98-201 | every ordinary step of every actor makes a lexicographic measure smaller |
| TxProgress.SomebodyCanMove | kmod/sstp_chan.c:98-201 | in an open state that is not quiet some ordinary step is enabled |
| TxChannel.Channel.StartXmit | kmod/sstp_chan.c:49-74 | zero exactly when the packet must be held; otherwise appended with the worker queued, or dropped, counted if too long |
| TxChannel.Channel.BuildBatch | kmod/sstp_chan.c:109-144 | the arrays hold the longest run of the queue within both caps, each packet behind its own six-byte header, the queue keeps the rest, and the total is the length of the bytes they encode to |
| TxChannel.FillHeader | kmod/sstp_chan.c:126-133 | the six bytes of a packet's header at its stride, the earlier headers untouched |
| TxChannel.Gather | kmod/sstp_chan.c:126-149 | the iovec of a batch is the concatenation of the encoded data frames |
| TxChannel.Channel.ReHead | kmod/sstp_chan.c:171-179 | a refused batch goes back in front of the queue in its old order |
| TxChannel.Channel.Transmit | kmod/sstp_chan.c:149-195 | bytes, queue, counters, fatal alert and closing flag after each answer of the socket, the total compared being the length of what is sent |
| TxChannel.TakeBatchWeighs | kmod/sstp_chan.c:119-143 | the total counted while filling a batch is the weight of the packets in it |
| TxChannel.TakeBatchIsLongest | kmod/sstp_chan.c:111-144 | a batch is the longest run of the queue with at most eight packets and, beyond the first, 14336 bytes |
| TxChannel.DataByBytes | kmod/sstp_chan.c:126-133 | the six header bytes of a packet in numbers |
| TxChannel.Channel.TxWorker | kmod/sstp_chan.c:89-202 | for every queue and all answers: packets sent, queue left, requeue, wakeup, abort and its alert are those of the send loop as a function, and the socket holds their encoding |
| TxChannel.AlertsOnAbort | kmod/sstp_chan.c:182-194 | the loop tells the session task exactly when it aborts, once |
| TxChannel.TakeBatchSplits | kmod/sstp_chan.c:111-144 | batch and remaining queue concatenate to the queue before |
| TxChannel.DataBytesLength | kmod/sstp_chan.c:119-143 | an encoded batch is as long as its packets weigh |
| TxRefine.SendLoopIsARun | kmod/sstp_chan.c:98-195 | every way through the send loop is a run of the interleaving machine that puts on the wire exactly the packets sent |
| TxChannel.Channel.SendControl | kmod/sstp_event.c:226-300 | return code, socket bytes, counters, fatal alert and closing flag for every body size and answer; zero exactly when the whole encoded frame was taken |
| RxPath.RxSession.Store | kmod/sstp_demux.c:231-289 | a receive lands behind what is buffered |
| RxPath.RxSession.Compact | kmod/sstp_demux.c:322-340 | the unparsed tail moves to the head of the buffer, byte for byte |
| RxPath.RxSession.FrameAt | kmod/sstp_demux.c:164-186 | the verdict on the header at an offset of the buffer |
| RxPath.RxSession.ParseAndCompact | kmod/sstp_demux.c:322-337 | parse and compaction together keep the session in step with the whole stream |
| RxPath.RxSession.DemuxParse | kmod/sstp_demux.c:160-227 | frames delivered, offset, closing flag and events equal the one-shot parse of the buffer |
| RxPath.RxSession.RecvOnce | kmod/sstp_demux.c:231-289 | what each return code means for buffer, stream, events and closing flag, whatever errno the socket answers |
| RxPath.RxSession.RxWorker | kmod/sstp_demux.c:291-349 | whatever the socket answers the session stays in step with the one-shot parse of the bytes received and none is lost; the buffer has room at every receive; the worker leaves neither closed nor requeued exactly when its last receive would block or the socket answered EPIPE; it closes the session exactly when the last answer is to be reported, and emits exactly that: the close, the record type, the errno, or the framing error |
| RxPath.StrandedByEpipe | kmod/sstp_demux.c:310-314 | a socket that answers EPIPE strands a session: it is not closed, no event is emitted, the bytes behind stay unread |
| SstpFraming.LeftoverBound | kmod/sstp_demux.c:164-180 | after an error-free parse at most 4094 bytes remain |
| Reassembly.ChunkingInvariance | kmod/sstp_demux.c:291-349 | for any parser stable under extension, packets, leftover and first error do not depend on how the stream is cut |
| SstpFraming.KernelParseIsStable | kmod/sstp_demux.c:160-186 | the demultiplexer's verdict on a frame does not change when bytes follow |
| SstpFraming.UserParseIsStable | src/sstp/frame.rs:70-98 | neither does the userspace codec's |
| SstpFraming.HeaderByBits | kmod/sstp_demux.c:164-186 | both parsers' verdict on every buffer, bit by bit of the header and by message type |
| SstpFraming.EncodedByBits | kmod/sstp_event.c:252-270 | the encoded header bit by bit |
| SstpFraming.EncodedStreamParses | kmod/sstp_demux.c:160-227 | encoded frames are read back if and only if each fits the 12-bit length |
| SstpFraming.ControlBodyTooLong | kmod/sstp_event.c:252-270 | the 4092-byte body that SEND_CONTROL admits ends the reading session |
| SstpFraming.ParsersAgree | src/sstp/frame.rs:70-128 | the two parsers agree on a stream if and only if it holds no short or unknown control packet |
| SstpFraming.RuntControlBlocks | src/session.rs:1281-1292 | a short control packet blocks the userspace reader whatever follows |
| UserReader.Reader.OnRead | src/session.rs:1266-1476 | cursor, handling and single compaction stay in step with the one-shot parse of everything read |
| UserReader.NewSessionReader | src/session.rs:1266-1292 | the session's parser is one the reader's contract covers |
| UserReader.Reader.ParseBuffered | src/session.rs:1278-1467 | the walk handles exactly the complete packets and stops where the parse does |
| Rings.EventRing.Emit | kmod/sstp_event.c:34-65 | the ring is a queue of 15: append, or when full replace the newest of the same type and count a drop |
| Rings.EventRing.Read | kmod/sstp_event.c:77-96 | the oldest event, and the queue without it |
| Rings.CtrlRing.Enqueue | kmod/sstp_demux.c:202-221 | the ring is a queue of 7 that drops the new frame when full |
| Rings.CtrlRing.Dequeue | kmod/sstp_event.c:184-190 | the oldest frame, and the queue without it; nothing exactly when empty |
| Rings.EventsConserved | kmod/sstp_event.c:34-103 | in every run emitted = read + queued + dropped, and first-in first-out while nothing was dropped |
| ControlPairing.EventsAndFramesStayPaired | kmod/sstp_demux.c:189-222 | in every interleaving of the kernel's emitters with the session's reader no event is dropped, the ring keeps room, the i-th control event handled fetches the i-th frame queued and carries its length, and the session takes that for no frame exactly when the length is zero |
| Echo.HandleLcpEcho | kmod/sstp_demux.c:60-109 | what counts as an Echo-Request, and the reply queued for it when there is room |
| Echo.BuildReply | kmod/sstp_demux.c:86-104 | the buffer filled in place is the reply |
| Echo.DeliverPpp | kmod/sstp_demux.c:120-149 | what reaches ppp_generic, what is answered here, what is counted malformed |
| Echo.SameBytesIffShort | src/ppp/driver.rs:1127-1146 | on a payload the responder answers, a session with LCP Opened writes the same SSTP packet, byte for byte, if and only if the request's Length is at most 4087, and otherwise aborts |
| Echo.LongEchoAborts | src/session.rs:2307-2329 | at Length 4088, in one SSTP packet, the kernel answers and the session aborts |
| SessionWrite.WritePpp | src/session.rs:2307-2329 | the packet coalesced in the 4095-byte buffer is the encoded data frame, and there is none exactly when it does not fit |
| SessionWrite.AllOrAbort | src/session.rs:1691-1703 | an answer goes out whole if and only if each of its frames fits the buffer |
| Echo.ResponderReadsRequest | kmod/sstp_demux.c:67-77 | the responder takes what the driver reads as an Echo-Request exactly when its Length is at least eight |
| Echo.ReplyReadsBackIffShort | kmod/sstp_demux.c:80-107 | the reply's packet reads back if and only if the request's Length is at most 4087 |
| Fsm.TableAgreement | src/ppp/fsm.rs:278-703 | sends, notifications, counter and next state equal the table of section 4.1 of RFC 1661 in exactly the cells outside `Departs` |
| Fsm.TableIsLawful | src/ppp/fsm.rs:398-474 | Configure-Ack answers only a good request, Nak or Reject only a bad one, Echo-Reply only an echo |
| FsmRuns.OpenedMeansAgreed | src/ppp/fsm.rs:278-703 | in every run an Opened layer last answered with an Ack and had its latest request acknowledged; up and down alternate |
| FsmRuns.GivesUp | src/ppp/fsm.rs:714-765 | with nothing coming in a layer retransmits as often as its counter says, re-arming each time, then finishes |
| FsmRuns.TimerCoversNegotiation | src/ppp/fsm.rs:479-622 | one layer with a timer to itself: the timer runs in every negotiating state of a run if and only if the run takes no uncovering step |
| FsmRuns.SilentAfterAck | src/ppp/fsm.rs:486-493 | a peer that acknowledges first and falls silent leaves Ack-Rcvd with no timer |
| PppOptions.ParseEncoded | src/ppp/lcp.rs:259-290 | option lists are read back as encoded |
| PppOptions.EncodeParsed | src/ppp/lcp.rs:259-290 | and a list without a malformed option is the encoding of what was read |
| LcpVerdict.Classify | src/ppp/driver.rs:271-318 | verdict, Reject body and captured MRU of the walk equal their definition on the parsed list |
| LcpVerdict.RefusedIsFilter | src/ppp/driver.rs:290-311 | the Reject lists, in order, exactly the options of types other than 1, 3, 5, 7 and 8, and is empty exactly when there are none |
| LcpVerdict.MruIsTheLast | src/ppp/driver.rs:280-289 | the MRU captured is that of the last two-byte MRU option |
| LcpVerdict.NoMruKeeps | src/ppp/driver.rs:280-289 | without one the MRU known before stays |
| LcpVerdict.RejectBound | src/ppp/driver.rs:300-311 | a Reject is no longer than the options |
| LcpVerdict.ConvergesByTheSecond | src/ppp/driver.rs:271-318 | a peer that drops rejected types has a good second request |
| IpcpVerdict.Consider | src/ppp/driver.rs:429-490 | by type number, an option nothing was assigned for goes to the Reject as it came, one that differs from what was assigned puts that in the Nak, any other changes neither |
| IpcpVerdict.Classify | src/ppp/driver.rs:419-507 | verdict and body of the walk equal their definition and obey the rule in numbers: good exactly if every option is as assigned, else a Reject of those nothing was assigned for, else a Nak of those that differ, a malformed list bad with an empty body |
| IpcpVerdict.GoodMeansAllFine | src/ppp/driver.rs:419-507 | good exactly when well formed and every option is 3 with the address, 129 or 131 with the DNS server, or 130 or 132 with the NBNS server that was assigned |
| IpcpVerdict.RejectsAre | src/ppp/driver.rs:478-489 | a Reject lists, in order, exactly the options of these types with nothing assigned and of all other types |
| IpcpVerdict.NaksAre | src/ppp/driver.rs:430-477 | a Nak lists, in order, what was assigned for each option that differs from it, and nothing else |
| IpcpVerdict.RuledByNumber | src/ppp/driver.rs:419-533 | the rule in numbers holds of every verdict |
| IpcpVerdict.BodyBound | src/ppp/driver.rs:437-544 | a Reject is no longer than the options, a Nak at most three times as long |
| IpcpVerdict.NakBoundIsTight | src/ppp/driver.rs:430-445 | the factor three is attained |
| IpcpVerdict.ConvergesByTheThird | src/ppp/driver.rs:419-533 | whatever well-formed options a peer starts from, dropping rejected types and adopting Nak'd values makes its third request good |
| PppCodec.EnvelopeReadsBack | src/ppp/lcp.rs:160-184 | an envelope reads back with Length equal to its size if and only if the size fits 16 bits |
| PppCodec.FrameReadsBack | src/ppp/frame.rs:107-158 | a written frame decodes to its protocol and packet |
| PppCodec.WireByBytes | src/ppp/driver.rs:1266-1283 | a frame byte by byte |
| PppCodec.FrameForms | src/ppp/frame.rs:107-158 | a frame decodes alike with and without Address and Control and with a one-byte protocol |
| PppCodec.PacketByLength | src/ppp/lcp.rs:160-184 | a packet decodes exactly if its Length covers the header and is covered by the buffer, and bytes behind it are ignored |
| PppCodec.PapReadsBack | src/ppp/auth.rs:70-98 | credentials come through as sent |
| PppCodec.ChapReadsBack | src/ppp/auth.rs:221-275 | CHAP value and name come through as sent |
| PppCodec.EncodePacketFrame | src/ppp/driver.rs:1266-1283 | the buffer filled in place is the frame |
| PppDriver.LcpServer.ClassifyConfigureRequest | src/ppp/driver.rs:271-318 | the event, and the Reject body and MRU kept |
| PppDriver.LcpServer.RenderSend | src/ppp/driver.rs:1093-1157 | identifier bump and encoded frame of each send |
| PppDriver.IpcpServer.RenderSend | src/ppp/driver.rs:1159-1200 | identifier bump and encoded frame of each IPCP send |
| PppDriver.Ppp.RenderLcpStep | src/ppp/driver.rs:1017-1054 | frames, phase, challenge, timers and finish after an LCP step |
| PppDriver.Ppp.RenderIpcpStep | src/ppp/driver.rs:1056-1072 | frames, event, timers and finish after an IPCP step |
| PppDriver.Ppp.HandleChap | src/ppp/driver.rs:920-1004 | which responses raise an event, with what in it |
| PppDriver.ReservedIsZero | src/ppp/driver.rs:963-970 | the reserved bytes of an MS-CHAPv2 response are zero |
| PppDriver.Ppp.AdvanceToNetwork | src/ppp/driver.rs:829-875 | MTU merged, a new IPCP server opened, its frames and event passed on |
| PppRuns.EveryAnswerIsRight | src/ppp/driver.rs:734-1004 | in every run under every automaton NetworkUp follows an Accept, at most once each, with the latest one's addresses and the smaller of its MTU and the peer's MRU; verdict packets carry protocol and identifier of the last credential packet and say in numbers what the verdict was; credential events carry the bytes of the frame and the challenge last sent; challenges and Protocol-Rejects are numbered from zero; a verdict is answered exactly when its method is in flight, an Accept leads to the network phase, a Reject ends the session |
| PppSaid.VerdictIsSaid | src/ppp/driver.rs:734-827 | Accept is PAP code 2 or CHAP 3 with the response given, Reject PAP 3 with a counted message of at most 11 bytes or CHAP 4 with at most 255 of the message, the error given, or one made of the message as text |
| PppSaid.FrameSaid | src/ppp/driver.rs:683-1004 | name, password, response, NT-Response and flags of an event are the bytes at their places in the frame; a Protocol-Reject carries the frame from its protocol on, cut to 1496 bytes |
| PppSaid.CallNumbers | src/ppp/driver.rs:683-709 | each challenge and each Protocol-Reject carries its own counter, which moves by one |
| PppSaid.OnlyInItsPhase | src/ppp/driver.rs:631-678 | credentials are looked at only while authenticating and by the method agreed, IPCP only in the network phase, and an unknown protocol is rejected exactly while LCP is open |
| PppSaid.ChallengeTakenForResponse | src/ppp/driver.rs:920-926 | a peer's Challenge of the right size raises the event a Response would |
| PppTable.LcpSpeaksTheTable | src/ppp/driver.rs:237-258 | every LCP packet code in every state: next state, up, down and finished, and exactly the packet codes that come back, by the table of section 4.1 of RFC 1661, or nothing at all in the cells that depart from it |
| PppTable.IpcpSpeaksTheTable | src/ppp/driver.rs:393-410 | the same for IPCP |
| PppTable.TimeoutsSpeakTheTable | src/ppp/driver.rs:713-726 | and for a timeout of either |
| PppTable.RejectClosesLcp | src/ppp/driver.rs:877-885 | behind the verdict packet of a Reject LCP is closed by the table: from Opened a Terminate-Request follows |
| PppTable.TriesByNumber | src/ppp/fsm.rs:714-765 | ten Configure-Requests and two Terminate-Requests at most |
| PppTable.FirstLcpFrame | src/ppp/driver.rs:1093-1157 | the server's first frame byte by byte, for each authentication method |
| PppTable.FirstIpcpFrame | src/ppp/driver.rs:829-875 | its first IPCP frame byte by byte, with its own address |
| PppTable.TerminateAckIdentifier | src/ppp/driver.rs:1093-1157 | a Terminate-Ack carries the request's identifier if and only if the last Configure-Request had the same |
| PppReplies.RepliesAnswerTheRequest | src/ppp/driver.rs:1093-1200 | in every run with a lawful automaton each Configure-Ack, Nak, Reject and Echo-Reply carries the identifier of the frame just received and exactly the body that calls for, by type number; an IPCP Ack carries what was granted |
| PppFrames.EveryFrameReadsBack | src/ppp/driver.rs:1202-1283 | in every run over frames up to 4091 bytes each frame written decodes to its packet with Length equal to its size |
| PppFrames.FrameFitsIffAnswerShort | src/ppp/driver.rs:1202-1283 | in every run with a lawful automaton a frame fits the session's buffer if and only if it is no answer, or the answer the inbound frame calls for is at most 4083 bytes |
| PppFrames.ShortRequestsFit | src/ppp/driver.rs:535-544 | up to 4083 bytes of LCP options or echoed data and 1361 of IPCP options, it is |
| PppFrames.LongRequestAborts | src/session.rs:2307-2329 | 2042 options in one packet without the Address and Control bytes call for one that does not fit |
| PppDrive.Drive | src/ppp/driver.rs:604-1073 | the classes driven over any calls answer, to the byte, as the driver on values does; every frame decodes with Length equal to its size, and all that the run theorems say of events, verdicts, challenges, answers and sizes holds of the bytes |
| Utf8.LossyIsText | src/ppp/driver.rs:816-821 | the reject message is made text, and is kept as it is if and only if it was |
| PppHandshake.EveryCooperativeSessionComesUp | src/ppp/driver.rs:604-1073 | with the source's own automaton, in every interleaving of a cooperative peer's requests, revisions, acknowledgements and credentials, each repeated as it likes, with the server's timeouts, by PAP, CHAP-MD5 and MS-CHAPv2 alike: every frame fits, the network is reported exactly when both layers are open, once and with the addresses granted; there are at most twelve moves that are not repetitions, and one more for each Ack that nothing was owed for; until the network is up one of them can be made |
| PppHandshake.EveryMoveGetsOn | src/ppp/driver.rs:604-1073 | every move keeps what the peer can tell from packets in agreement with phase and automata, and brings the end nearer unless it repeats |
| PppHandshake.BareListAborts | src/session.rs:2307-2329 | 681 to 2041 bare IP-Address options, which one packet carries, are answered with a Nak that does not fit the buffer |
| PppPeer.ShortListsFit | src/ppp/driver.rs:419-544 | an IPCP list of up to 1361 bytes fits, with every answer to it and every revision of it |
| PppPeer.BareListFitsIff | src/ppp/driver.rs:430-445 | a list of bare IP-Address options does if and only if there are at most 680 |
| PppPeer.IpcpRevisedList | src/ppp/driver.rs:419-533 | a revision made from a Nak or Reject as received is never rejected again, and the second is acknowledged |
| PppPeer.AckWelcomeIffNotOpen | src/ppp/driver.rs:237-258 | after a Configure-Ack of any identifier peer and server still agree on where LCP stands if and only if it is not open; open, it goes to Req-Sent and down |
| PppPeer.IpcpAckWelcomeIffNotOpen | src/ppp/driver.rs:393-410 | the same for IPCP, which goes to Req-Sent with its open flag still set |
| PppTimers.SecondAckTakesItDown | src/ppp/fsm.rs:479-522 | a session that does: opened, one timeout, the peer's request, and an Ack of each of the server's two requests leave LCP in Req-Sent, down and without a timer |
| PppTimers.SecondIpcpAckTakesItDown | src/ppp/fsm.rs:479-522 | a session in which IPCP does |
| PppTimers.OneSlotCoversIff | src/session.rs:1704-1720 | over whole sessions with the one timer slot: each negotiating layer owns the running timer at every point if and only if no call makes a layer's own uncovering step or comes, while one layer is negotiating, in a cell that starts the other's timer |
| PppTimers.TakesOverIff | src/ppp/driver.rs:1017-1072 | that guard on state and input holds before a call if and only if the call does start one layer's timer while the other is negotiating |
| PppTimers.CallDecides | src/session.rs:1045-1050 | one call, or one expiry, keeps that exactly when it is no such call |
| PppTimers.RequestTakesTheSlot | src/ppp/driver.rs:631-678 | a Configure-Request on open LCP takes the slot from a negotiating IPCP, which is left as it was without a timer |
| PppTimers.TakeoverIsReached | src/session.rs:1704-1720 | whatever the credentials and addresses, a PAP session reaches a point where any such request does |
| Netlink.RoundTripIffPlain | src/netlink.rs:181-235 | the walk gives an encoded tree back if and only if no type carries the nest flag |
| Netlink.AttrByBytes | src/netlink.rs:181-235 | an attribute byte by byte, nest flag and padding included |
| NetlinkBuilder.MessageBuf.PadTo4 | src/netlink.rs:248-252 | zero bytes up to the next multiple of four |
| NetlinkBuilder.MessageBuf.PushStruct | src/netlink.rs:174-177 | the struct is appended and padded to four bytes, anywhere; right after the outer header it joins the message's prefix and the message goes on |
| NetlinkBuilder.MessageBuf.PushAttrBytes | src/netlink.rs:181-190 | a leaf joins the innermost open nest |
| NetlinkBuilder.MessageBuf.NestBegin | src/netlink.rs:216-224 | a nest opens and its offset goes on the stack |
| NetlinkBuilder.MessageBuf.NestEnd | src/netlink.rs:227-234 | the patched buffer is the rendering with the nest closed into its parent |
| NetlinkBuilder.MessageBuf.Finalize | src/netlink.rs:238-246 | outer length exact, size aligned, attributes read back as the tree built |
| NetlinkBuilder.OffsetsIncrease | src/netlink.rs:216-235 | the nest stack is aligned, strictly increasing and inside the buffer |
| NetlinkBuilder.WellBracketed | src/netlink.rs:181-235 | operations are well bracketed and build a tree exactly when they are its linear form |
| NetlinkBuilder.BuiltMessageReadsBack | src/netlink.rs:126-253 | any well-bracketed sequence leaves an aligned message that reads back as the tree it spells |
| NetlinkBuilder.EncodeAddRoute | src/kppp/netlink.rs:491-530 | the message and family header in numbers, exact length, and the attributes a reader gets, gateway and metric only when given |
| NetlinkBuilder.FinishedReads | src/netlink.rs:126-253 | a finished buffer is one whole message to the reader, with the type, flags and sequence number it was made with |
| NetlinkWalk.DrainAcks | src/netlink.rs:370-395 | the loop equals draining the messages walked, on every buffer, the error negated in 32 bits |
| NetlinkWalk.ReadMsg | src/netlink.rs:373-393 | type, sequence number and error field read in place decide the turn |
| NetlinkWalk.DrainShrinks | src/netlink.rs:370-395 | draining only removes |
| NetlinkWalk.DrainsExactly | src/netlink.rs:361-395 | on concatenated messages exactly the numbers acknowledged before the first kernel error go, and that error is reported negated, in numbers on the bytes |
| NetlinkWalk.FindStats64 | src/kppp/netlink.rs:156-178 | the loop equals the search on the bytes |
| NetlinkWalk.SearchFindsFirst | src/kppp/netlink.rs:154-178 | on any encoded list the first statistics attribute is returned if it holds 32 bytes |
| NetlinkWalk.StatsReadBack | src/kppp/netlink.rs:135-151 | the four counters come through as written |
| AcctIds.PeerState.Allocate | src/auth/accounting.rs:243-255 | the first free identifier in cyclic order; none exactly when all 256 are in flight |
| AcctIds.ReclaimHitsOthersOnlyAfterASweep | src/auth/accounting.rs:301-323 | in every run, between two grants of an identifier all were granted or seen in flight; a reclaim takes the slot of another transaction if and only if its identifier was granted again, and then that one is later and such a sweep came between |
| AcctIds.ReclaimCanHitALaterTransaction | src/auth/accounting.rs:318-323 | a run in which it does |
| AcctTrace.Account | src/session.rs:2112-2298 | the class driven over any inputs hands over exactly those records |
| AcctTrace.EverySessionIsBalanced | src/session.rs:2223-2298 | every session submits nothing if nobody was accepted before the data path came up, and otherwise Start, one Interim for each update and one Stop, all for the last user accepted by then; each shows octets and packets of the last sample up to its own update, zero before the first, and its own time; octets and time never go back while clock and kernel counters do not |
| AcctTrace.OctetsRecovered | src/auth/accounting.rs:433-456 | octets and gigawords recover the 64-bit count |
| AcctTrace.PacketsWrap | src/session.rs:2239-2245 | packet counts are the kernel's exactly below 2^32 |

## Left out

- TLS, kTLS installation, hashing, key derivation and random numbers: wrappers around a library.
- The RADIUS packet codec, client sockets, retries, dynamic authorization and the auth bridges: they rest on a crate that is not part of the repository.
- The SSTP call state machine, crypto binding and the HTTP preamble.
- Kernel object lifetime: reference counts, work cancellation, freeing of buffers, attach and detach, allocation failure.
- EAP codecs, IPv6CP, the CLI, control socket, listeners, metrics, TUN and privilege handling.
- The other netlink encoders: each is a straight sequence of the builder's operations.
- TxChannel.Channel.TxWorker: runs alone; interference between its steps is in TxMachine, which it is proved to refine.
- TxMachine.WireInOrderAndReadable: says nothing of the bytes after a short write, where the stream is no longer framed.
- RxPath.RxSession.DemuxParse: delivers data and control frames to one list; the control queue and echo paths are in Rings, ControlPairing and Echo.
- Fsm.TableAgreement: the automaton is a function on values rather than a class; nothing aliases it.
- PppHandshake.EveryCooperativeSessionComesUp: the lists are those whose answers and revisions fit one packet, as beyond them the session aborts; the peer sends no Ack into an open layer, as that takes it down; and the server does not run out of retransmissions.
- FsmRuns.TimerCoversNegotiation: one layer with a timer to itself; the slot shared by both is in PppTimers.OneSlotCoversIff.
