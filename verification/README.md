# Verified model of tdvmm

tdvmm runs a container stack in a microVM on virtual time: an idle guest's clock jumps
to its next timer, unless the guest holds live connections to the outside. This project
models the parts of tdvmm on which that promise rests, and proves what they promise.

**The egress channel.** Guest connections are multiplexed over a serial port to a host
backend that resolves, connects and relays. `EgressCodec` is the frame format,
`EgressSession` what one frame, answer or turn does to one stream, `EgressHost` the
session table against an arbitrary guest, `EgressBackend` and `EgressChannel` the mutable
backend and its UART. `Forwarder` is the guest's id allocation. `MuxLink` puts both ends of
a stream and the pipes between them together as steps; `MuxInv`, `MuxGuest`, `MuxHost` and
`MuxProof` prove flow control and byte order for every interleaving of it, over any number
of uses of its id; `MuxSystem` carries that to all streams at once. `MuxFresh` and
`MuxExact` say exactly when a client that takes a used id is touched by nothing of its
earlier uses, `MuxRisk` and `MuxFeed` exactly when it cannot be given their bytes; `MuxLift`
is what those need to build runs, and `MuxReuse` builds one that goes wrong. `EgressSim`,
`EgressGuest` and `EgressSystem` put the mutable program together, from the clients to the
sockets, and show that every run of it is a run of the mux.

**Virtual time.** `VecBits`, `Interrupts` and `Lapic` are the local APIC: bitmaps as sets,
interrupt nesting as a stack, and the mutable registers. `TimerMath`, `EventQueue` and
`Timers` are the timer arithmetic, the queue and the servicing of both. `VirtualClock` is
the shared offset, `Doorbell` the race between the vCPU loop, a host timer and its signal
handler, and `Park` the fast-forward park with its gate, over the real backend.

**Archives.** `Ustar`, `UstarIo`, `Artifact`, `ArtifactRead` and `ArtifactVerify` write,
seal, read and verify the artifact; `ArtifactLoad` compares the two readers. `CpioOrder`,
`Newc` and `Cpio` write the initramfs segment with its hard link groups.

**The YAML emitter.** `YamlReader` and `YamlPlain` state how the three flow styles are
read, `YamlBlocks` how block collections are; `YamlAnalysis`, `YamlResolve`, `YamlPieces`,
`YamlDouble` and `YamlEmitter` print scalars, `YamlTree` and `YamlDump` whole documents, and
show exactly when what is printed reads back. `YamlPatterns` has the implicit types of YAML
1.1 as regular expressions, and `YamlTags` holds the emitter's hand-written resolver against
them.

**The verdict path.** `LineReader` frames lines; `Verdict` is the agent's record, the bridge
that forwards it and the host that ends the run on it.

`Prelude` and `HexText` hold what several of these share. `dafny verify dfyconfig.toml`
checks everything.

## What the proofs found

- A frame whose error reason is `Other(0)` to `Other(5)` does not survive the codec, because
  those codes have names. `EgressCodec.RoundTripIff` gives the exact condition.
- Stream ids are reused as soon as they are free, and frames do not say which use of an id
  they belong to. A client that takes an id while a connection of an earlier use is about to
  come up takes that connection's OPEN_OK for its own, and then its bytes
  (`MuxReuse.ThirdClient`, a run of the whole mux in which the ids come around twice).
  `MuxFeed.MuxBytesExact` gives the exact condition, a check of what is on its way down, the
  host's session and what is on its way up on that id; `MuxFeed.MuxFlowExact` does so for
  flow control. Order and flow control hold in every run up to the bytes so given, which
  `MuxSystem.MuxByteOrder` and `MuxSystem.MuxFlowControl` count.
- `verify` checks the first member of a name and `run` loads the last. A file with a second
  kernel passes the one and is refused by the other (`ArtifactLoad.DoubledKernel`);
  `ArtifactLoad.CleanLoadsIff` is exact.
- A thread held up between reading the clock and setting the doorbell's timer sets it that
  late (`Doorbell.HeldUpArming`).
- At a margin of 80 columns or more, forty levels deep, the double-quoted style can fold twice
  around a space. The backslash that protects the space then escapes the next fold, and the
  text reads back with two more characters. `YamlEmitter.Emitter.EmitScalar` holds exactly
  when `YamlEmitter.Tears` does not; `DeepMarginTears` is an instance, and
  `YamlDump.DeepItemTears` a whole document. `YamlDump.EmitYaml` is the exact condition for
  documents.
- The emitter's resolver does not know sexagesimal floats, which its comment lists
  (`src/compose/yaml_emitter.rs:134`). The string `1:30.5` is printed plain and a reader takes
  it for a float (`YamlDump.HalfPastReadsAsFloat`). `YamlTags.AgreesWithReader` says exactly
  where resolver and reader agree, and `YamlTree.KeepsTagIff` which scalars keep their tag.
- The emitter panics on a string that starts with a sign and a colon, and on no other
  (`YamlResolve.ResolvePanicsIff`).
- A `finish` sent over the host's own control line is recorded by the agent but never becomes
  a verdict, and it blocks every later one. `Verdict.OneVerdict` says exactly when the host
  gets a verdict.
- A line over 64 KiB is cut at a place that depends on how its bytes arrive;
  `LineReader.ChunkingExact` says for which streams framing does not depend on that.
- An archive whose tree holds a file named like the cpio trailer unpacks short; `Newc.UnpacksIff`
  is exact.

## Model

| member | source | states |
|---|---|---|
| EgressCodec.EncodeSucceedsIff | tdvmm-proto/src/egress.rs:234-285 | encoding succeeds exactly for frames whose host name and payload fit their fields |
| EgressCodec.DecodeInvertsWire | tdvmm-proto/src/egress.rs:234-355 | an encoded frame decodes, whatever follows it, to itself up to the reason codes that alias a named reason, consuming exactly its own bytes |
| EgressCodec.RoundTripIff | tdvmm-proto/src/egress.rs:104-130 | a frame survives encode and decode if and only if it is not an `OpenErr` whose `Other` code is one of the six named ones |
| EgressCodec.WireInvertsDecode | tdvmm-proto/src/egress.rs:290-355 | whatever bytes decode are exactly the encoding of the decoded frame |
| EgressCodec.DecodeStable | tdvmm-proto/src/egress.rs:290-355 | a verdict on a byte stream, frame or error, never changes when more bytes arrive |
| EgressCodec.PrefixNeedsMore | tdvmm-proto/src/egress.rs:290-355 | every proper prefix of an encoded frame is incomplete, never an error |
| EgressCodec.ParseSplit | src/egress.rs:481-509 | parsing a stream in two pieces, keeping the undecoded tail, yields the frames, tail and error of parsing it at once |
| EgressCodec.ParseConserves | src/egress.rs:481-509 | frames parsed plus bytes kept are exactly the bytes fed |
| EgressCodec.ParseOfWire | src/egress.rs:481-509 | any prefix of a stream of whole frames parses to the first of them, and what is left over starts the next one |
| EgressSession.HandleFrameKeepsValid | src/egress.rs:511-594 | a guest frame leaves a session within its buffer caps and half-close rules |
| EgressSession.RunOpenIoKeepsValid | src/egress.rs:684-761 | a service turn leaves an open session open and within its caps, or ends it |
| EgressSession.ChunkedConserves | src/egress.rs:731-740 | the DATA frames cut from the window buffer carry its bytes, all of them, in order |
| MuxHost.TurnFrames | src/egress.rs:726-750 | a good service turn frames the released bytes in order, then at most one CLOSE, and that only when nothing is left to release |
| MuxHost.TurnKeepsBytes | src/egress.rs:684-761 | after a good turn every byte the socket yielded is framed or still buffered, every byte the client pushed is written, buffered or in flight, and a CLOSE means nothing is left |
| MuxHost.HandleUpKeeps | src/egress.rs:511-594 | the host taking any guest frame, also an OPEN that finds the last use still there, keeps the link invariant |
| MuxHost.ServiceKeeps | src/egress.rs:684-761 | so does any service turn |
| MuxGuest.CloseIsLast | tdvmm-agent/src/forwarder.rs:489-492 | a handler that acts on the CLOSE of its own connection has been given every byte the socket yielded |
| MuxGuest.ReceiveKeeps | tdvmm-agent/src/forwarder.rs:402-500 | the handler taking any frame, its own or one left behind, keeps the link invariant |
| MuxProof.NextKeeps | tdvmm-agent/src/forwarder.rs:381-508 | every step of either end, on one stream, keeps the link invariant |
| MuxProof.RunKeeps | tdvmm-agent/src/forwarder.rs:381-508 | so does every run, over any number of uses of the id |
| MuxProof.FlowControl | src/egress.rs:726-736 | in every good state of a stream that is up: host credit + DATA in flight + guest ungranted + WINDOW in flight = 32 KiB plus the bytes the client was given of other uses; with nothing in flight the host can send |
| MuxProof.ByteOrder | src/egress.rs:703-750 | in every good state, for every use of the id: what the client has is first any bytes of other uses, then a prefix of what its own socket yielded, all of it once its CLOSE came; written is a prefix of pushed; only RST follows a CLOSE |
| MuxProof.AfterClose | src/egress.rs:741-750 | after a CLOSE an incarnation frames nothing but resets |
| MuxSystem.InstallView | src/egress.rs:633-660 | what one stream queues on the shared pipe does not show on another |
| MuxSystem.StepProjects | src/egress.rs:473-480 | every step of the whole mux, seen from any one stream, is a step of that stream or of none |
| MuxSystem.RunProjects | tdvmm-agent/src/forwarder.rs:181-233 | every run of the whole mux, seen from any one stream, is a run of its link |
| MuxSystem.MuxRunKeeps | tdvmm-agent/src/forwarder.rs:181-233 | so every run of the whole mux keeps every stream's invariant |
| MuxSystem.MuxFlowControl | tdvmm-agent/src/forwarder.rs:472-488 | the same equation for every stream that is up, in every interleaving of all streams: what a client was given of other uses is exactly what the window gains |
| MuxSystem.MuxByteOrder | tdvmm-agent/src/forwarder.rs:472-492 | end-to-end order for every use of every id in every interleaving, with no client left out: after any bytes of other uses come the first bytes of its own socket, all of them once its CLOSE came; bytes to the socket are a prefix of what the client sent |
| MuxFresh.MuteTurn | src/egress.rs:684-761 | a session with no backlog, nothing left to read or release and no CLOSE owed stays silent through any turn |
| MuxFresh.IdleIsClean | tdvmm-agent/src/forwarder.rs:365-376 | on one stream: a client that takes an idle id acts on frames of its own connection only, in every run from there |
| MuxExact.MuxFreshExact | tdvmm-agent/src/forwarder.rs:365-376 | in every state of the whole mux, for the client accepted next: it acts on frames of its own connection only, in every run from there, if and only if nothing of its id is on its way down and the host cannot speak on it before it sees the new OPEN |
| MuxRisk.FrameRisk | src/egress.rs:511-594 | the host handling any frame makes no client exposed that was not, whatever the flags and the table |
| MuxRisk.TurnRisk | src/egress.rs:684-761 | neither does any service turn |
| MuxRisk.UnexposedIsWhole | tdvmm-agent/src/forwarder.rs:402-500 | on one stream: a client that takes an id where it is not exposed is given no byte of another use, in any run from there |
| MuxRisk.UnexposedIsBalanced | tdvmm-agent/src/forwarder.rs:472-488 | on one stream: where the second kind of exposure is ruled out, no such byte was given whenever the stream is up |
| MuxLift.LiftLocal | tdvmm-agent/src/forwarder.rs:381-508 | what one stream can do by itself it can do among all the others |
| MuxLift.LiftRoute | tdvmm-agent/src/forwarder.rs:181-233 | the next frame of a stream can be routed, whatever is in front of it |
| MuxLift.LiftHandle | src/egress.rs:481-531 | the host can come to a stream's next frame, whatever is in front of it, with the table no fuller |
| MuxFeed.MuxBytesExact | tdvmm-agent/src/forwarder.rs:402-500 | in every state of the whole mux, for the client accepted next: what it has is a prefix of what its own socket yielded, in every run from there, if it is not exposed; and only if, when the other streams leave room in the session table or can come to |
| MuxFeed.MuxFlowExact | tdvmm-agent/src/forwarder.rs:472-488 | the same for flow control: whenever its stream is up the four amounts make up the window, in every run, if and (with room or room to come) only if it is not exposed before its own connection or asks for none |
| MuxFeed.EndableIsRoom | src/egress.rs:684-761 | in every state of the whole mux: room can come while the stream stays as it is, unless 256 sessions of other streams are beyond the reach of any socket error |
| MuxReuse.Visitors | tdvmm-agent/src/forwarder.rs:365-376 | the counter comes around: clients on all the other ids come and go, and stream 1 is as it was |
| MuxReuse.ThirdClient | tdvmm-agent/src/forwarder.rs:402-424 | a run of the whole mux, the id counter going around twice, after which the next client on stream 1 is exposed, and a further run after which it has bytes its own socket never yielded |
| Forwarder.Registry.constructor | tdvmm-agent/src/forwarder.rs:365-376 | an empty registry |
| Forwarder.Registry.Register | tdvmm-agent/src/forwarder.rs:365-376 | the first free id from the wrapping counter on is taken, every id skipped was in use, and the counter is one past it; none is found exactly when all are in use |
| Forwarder.FirstFreeIsOne | tdvmm-agent/src/forwarder.rs:365-376 | the counter and the ids in use determine the id taken |
| Forwarder.Registry.Remove | tdvmm-agent/src/forwarder.rs:504-508 | teardown frees exactly that id |
| EgressHost.HostRunKeeps | src/egress.rs:511-660 | every run of frames, answers, polls and turns against an arbitrary guest keeps the session table consistent |
| EgressHost.TableMirrorsWorld | src/egress.rs:787-822 | in every run: open sockets are exactly the sessions past Resolving, outstanding lookups exactly `resolving`, one each, a session is Resolving iff its id is, and a connected socket is shut down for writing iff the guest has closed its half |
| EgressHost.EmptyTableHoldsNothing | src/egress.rs:404-409 | the table is empty with nothing resolving if and only if no socket is open and no lookup outstanding |
| EgressHost.AnswerIsOwn | src/egress.rs:598-629 | a Resolving session moves only on the answer to its own incarnation's request, however late answers and reused ids mix |
| EgressBackend.Connector.StartResolve | src/egress.rs:210-210 | a lookup joins the outstanding ones under a fresh ticket |
| EgressBackend.Connector.TakeResolved | src/egress.rs:214-214 | any of the outstanding lookups come back, each once |
| EgressBackend.Connector.StartConnect | src/egress.rs:222-222 | a fresh socket opens, or the attempt fails at once |
| EgressBackend.Connector.PollConnect | src/egress.rs:225-225 | any answer but an unnamed reason, and it is on record |
| EgressBackend.Connector.Read | src/egress.rs:229-229 | bytes got are no more than asked for and join what the sockets of the stream have yielded |
| EgressBackend.Connector.Write | src/egress.rs:233-233 | of the bytes offered, the part accepted joins what the sockets of the stream have taken, however much is claimed |
| EgressBackend.Connector.ShutdownWrite | src/egress.rs:236-236 | the socket is half closed if there is one, and nothing happens if not |
| EgressBackend.Connector.CloseSocket | src/egress.rs:239-239 | the socket is gone, half closed or not |
| EgressBackend.EgressBackend.constructor | src/egress.rs:375-398 | an empty table in a world with no sockets |
| EgressBackend.EgressBackend.QuiescentIffIdle | src/egress.rs:404-409 | the backend is quiescent if and only if no socket is open, no lookup outstanding, no byte unparsed, and every byte of every frame handed over |
| EgressBackend.EgressBackend.DrainToGuest | src/egress.rs:435-442 | takes a prefix of the pending bytes and leaves the rest |
| EgressBackend.EgressBackend.UnshiftToGuest | src/egress.rs:444-449 | puts bytes back in front, in order |
| EgressBackend.EgressBackend.Enqueue | src/egress.rs:1108-1115 | a frame's bytes go behind the pending ones |
| EgressBackend.EgressBackend.ResetStream | src/egress.rs:787-793 | the stream is dropped with its socket and a RST is queued |
| EgressBackend.EgressBackend.FailOpenWith | src/egress.rs:803-809 | the stream is dropped with its socket and an OPEN_ERR is queued |
| EgressBackend.EgressBackend.HandleOpen | src/egress.rs:533-552 | takes exactly the OPEN step of the table: refuse, reset or start resolving |
| EgressBackend.EgressBackend.HandleData | src/egress.rs:554-577 | takes exactly the DATA step: buffer, overrun reset, or ignore |
| EgressBackend.EgressBackend.HandleClose | src/egress.rs:579-594 | takes exactly the CLOSE step of the table, the half-close of the socket included |
| EgressBackend.EgressBackend.DropStream | src/egress.rs:811-815 | takes exactly the RST step of the table |
| EgressBackend.EgressBackend.GrantCredit | src/egress.rs:523-528 | takes exactly the WINDOW step: saturating credit |
| EgressBackend.EgressBackend.HandleFrame | src/egress.rs:511-531 | dispatches every frame to its step |
| EgressBackend.EgressBackend.IngestAndParse | src/egress.rs:481-509 | handles exactly the whole frames of the buffered bytes and keeps the rest; a framing error handles none |
| EgressBackend.EgressBackend.HarvestResolves | src/egress.rs:598-629 | the answers taken from the resolver are acted on, every one, in turn, and nothing else |
| EgressBackend.EgressBackend.ActOnAnswer | src/egress.rs:598-629 | one answer is one Harvest step of the table, decided by what the resolver found and whether the connect could be started |
| EgressBackend.EgressBackend.Connect | src/egress.rs:605-627 | the stream connects, or its open fails, as the resolver and the connector answered |
| EgressBackend.EgressBackend.RunConnecting | src/egress.rs:661-682 | polling a connect is one Poll step of the table, with the poll that the connector gave |
| EgressBackend.EgressBackend.FinishConnect | src/egress.rs:664-673 | a connected socket is announced, and a CLOSE that came before is applied to it |
| EgressBackend.EgressBackend.ServeSession | src/egress.rs:636-657 | one session's turn is one step of the table, and every other session stays |
| EgressBackend.EgressBackend.ServiceSessions | src/egress.rs:633-660 | every session past Resolving gets exactly one turn, in some order |
| EgressBackend.EgressBackend.Pump | src/egress.rs:473-480 | handles exactly the frames parsed, then every answer of one delivery in turn, then every session past Resolving exactly once; the table, with what the connector's sockets yielded and took, stays equal to the run of steps taken, and every queued frame byte is handed over or pending |
| EgressBackend.EgressBackend.RunOpenIo | src/egress.rs:684-761 | an open session's turn is one Turn step of the table, and its transfer is what the connector answered: writes until one took nothing, then reads until one gave nothing or the window was full |
| EgressBackend.TransferBytes | src/egress.rs:686-729 | the bytes that leave the session are those its socket took, the bytes that join it those its socket yielded; a failure or an end is what the last answer said |
| EgressBackend.EgressBackend.FinishTurn | src/egress.rs:731-760 | frames the window, announces the end once, and drops a drained session |
| EgressBackend.EgressBackend.FrameWindow | src/egress.rs:731-740 | frames exactly the bytes credit allows, in payload-sized chunks |
| EgressBackend.FlushToSocket | src/egress.rs:686-701 | what leaves the buffer is, byte for byte, what the socket took; writing stops only at a write that took nothing, and failed iff that write did |
| EgressBackend.ReadWindow | src/egress.rs:703-729 | what goes behind the window buffer is, byte for byte, what the socket yielded, and never exceeds the window; reading stops only at a full window or a read that gave nothing, and ended or failed iff that read said so |
| EgressBackend.WholeFrames | src/egress.rs:481-509 | the parse loop returns exactly the frames, offset and error of the specification |
| EgressBackend.OthersStay | src/egress.rs:633-660 | serving one stream leaves every other session as it was |
| EgressChannel.EgressChannel.constructor | src/egress.rs:940-951 | an empty FIFO over a fresh backend |
| EgressChannel.EgressChannel.EnqueueRawBytes | src/egress.rs:1001-1001 | the UART takes some prefix of what it is offered, or nothing |
| EgressChannel.EgressChannel.OfferChunk | src/egress.rs:996-1019 | a partly accepted chunk keeps every byte in order between FIFO and backend |
| EgressChannel.EgressChannel.FeedFifo | src/egress.rs:996-1019 | whatever the FIFO accepts, no byte is lost, repeated or overtaken; and bytes stay pending only behind a full FIFO or a refused offer |
| EgressChannel.EgressChannel.Pump | src/egress.rs:992-1029 | captured guest bytes reach the parser, the frames in them the table, pending bytes the FIFO until it is full or refuses |
| EgressChannel.EgressChannel.PioWrite | src/egress.rs:960-963 | a written byte waits for the next pump |
| EgressChannel.EgressChannel.PioRead | src/egress.rs:967-971 | a read takes the oldest byte of the FIFO |
| EgressSim.StepSim | src/egress.rs:511-761 | every step of the session table is a step of the mux on the same stream: same session, same lookup, the same frames queued in the same place, and the same bytes through its socket, both ways |
| EgressSim.SimRun | src/egress.rs:473-480 | so any stretch of the table's run is a run of the mux, when the frames it handles are those that wait in the pipe |
| EgressSim.HostForGuest | tdvmm-agent/src/forwarder.rs:226-228 | in no run does the host send an OPEN or a WINDOW |
| EgressGuest.React | tdvmm-agent/src/forwarder.rs:402-500 | what a handler does with a message, failed replies and partial writes to the client included, is the mux's step on its stream: same frames sent, and the client's connection took the bytes that the mux delivers |
| EgressGuest.Deliver | tdvmm-agent/src/forwarder.rs:472-488 | DATA is written to the client and makes a grant once enough is delivered; a failed write, after the bytes it did put out, makes a RST |
| EgressGuest.ReadClient | tdvmm-agent/src/forwarder.rs:447-466 | so is a read of the client: DATA with the bytes that its connection gave, CLOSE at its end, RST on its error |
| EgressGuest.ClientSide.Write | tdvmm-agent/src/forwarder.rs:477-480 | a client gets all of the bytes, or some first part of them and the write fails |
| EgressGuest.ClientSide.Read | tdvmm-agent/src/forwarder.rs:450-464 | a client sends some bytes, at most a buffer full, or ends, or fails |
| EgressGuest.EnterSim | tdvmm-agent/src/forwarder.rs:395-399 | so is a new client, its id and its OPEN |
| EgressGuest.RouteSim | tdvmm-agent/src/forwarder.rs:218-233 | so is routing a frame |
| EgressSystem.EgressSystem.constructor | tdvmm-agent/src/forwarder.rs:365-376 | a fresh guest over a fresh channel |
| EgressSystem.EgressSystem.Enter | tdvmm-agent/src/forwarder.rs:381-399 | a new client is an Accept of the mux, and its OPEN goes on the tty |
| EgressSystem.EgressSystem.Send | tdvmm-agent/src/forwarder.rs:131-139 | frames go on the tty whole, behind what is there |
| EgressSystem.EgressSystem.Commit | tdvmm-agent/src/forwarder.rs:402-508 | a handler's move is the mux's, with the registry and its clients kept in step |
| EgressSystem.EgressSystem.TakeMessage | tdvmm-agent/src/forwarder.rs:402-500 | the handler takes a message |
| EgressSystem.EgressSystem.ReadUp | tdvmm-agent/src/forwarder.rs:447-466 | the up thread reads its client |
| EgressSystem.EgressSystem.Leave | tdvmm-agent/src/forwarder.rs:436-442 | the handler frees its id |
| EgressSystem.EgressSystem.WriteByte | src/egress.rs:960-963 | a byte out of the port is the next of the frames sent |
| EgressSystem.EgressSystem.ReadByte | src/egress.rs:967-971 | a byte in from the port is the next of the frames queued |
| EgressSystem.EgressSystem.DemuxRead | tdvmm-agent/src/forwarder.rs:181-215 | a read of any size routes exactly the frames completed by it, each as the mux does; framing is never lost |
| EgressSystem.EgressSystem.RouteOne | tdvmm-agent/src/forwarder.rs:218-233 | routing one frame is one step of the mux |
| EgressSystem.EgressSystem.Pump | src/egress.rs:992-1029 | a pump handles exactly the frames completed, and all it does is a stretch of the mux's run; framing is never lost |
| EgressSystem.EgressSystem.Run | tdvmm-agent/src/forwarder.rs:381-508 | any order of all of these is a run of the mux that agrees with the program on every handler, session, lookup, byte in flight and byte delivered |
| EgressSystem.EgressSystem.ClientBytes | tdvmm-agent/src/forwarder.rs:472-492 | the order promise of the bytes: what a client got is, after any bytes of other uses, a prefix of what its socket yielded, all of it once its CLOSE came; what its socket took is a prefix of what it sent; and, use after use of the id, these are exactly the bytes that the connector's sockets yielded and took |
| EgressSystem.EgressSystem.StreamFlow | tdvmm-agent/src/forwarder.rs:472-488 | flow control in the program's own counters: the session's credit and the handler's ungranted bytes with what is in flight |
| EgressSystem.EgressSystem.OwnBytesOnly | tdvmm-agent/src/forwarder.rs:402-500 | a client that was accepted where it was not exposed has a prefix of its own socket's bytes |
| VecBits.SetAdds | src/lapic.rs:156-158 | setting a bit adds its vector to the set and no other |
| VecBits.ClearRemoves | src/lapic.rs:159-161 | clearing a bit removes its vector and no other |
| VecBits.HighestIsMax | src/lapic.rs:167-178 | the bitmap's highest vector is the maximum of the set, none iff the set is empty |
| Interrupts.InjectedIsHigher | src/lapic.rs:281-307 | a deliverable vector is pending, the highest, and of a strictly higher class than the task priority and everything in service |
| Interrupts.DeliverableIff | src/lapic.rs:294-307 | a vector is deliverable if and only if the APIC is enabled, the vector is the highest pending, and its class, a sixteenth of it, is above that of the task priority and of every vector in service |
| Interrupts.InterruptsNest | src/lapic.rs:281-307 | in every run of raises, priority changes, injections and EOIs: injections outrank everything in service, ISR has one vector per class, EOI retires the latest unretired injection |
| Interrupts.RunNestKeeps | src/lapic.rs:350-358 | ISR is exactly the stack of unretired injections, classes rising |
| Interrupts.DrainDelivers | src/lapic.rs:294-307 | from an idle enabled APIC, inject-then-EOI delivers every pending vector of 16 or more once, in strictly descending order, and stops |
| Interrupts.DrainRound | src/lapic.rs:425-431 | one such round takes the highest vector out and changes nothing else |
| Lapic.Lapic.constructor | src/lapic.rs:224-253 | soft-disabled, nothing pending, timer masked and disarmed |
| Lapic.Lapic.SyncTprFromCr8 | src/lapic.rs:266-268 | the task priority is CR8 in its upper four bits |
| Lapic.Lapic.DeliverableVector | src/lapic.rs:294-307 | on the bitmaps, the priority decision on the sets |
| Lapic.Lapic.AckInjected | src/lapic.rs:350-353 | the vector moves from IRR to ISR |
| Lapic.Lapic.RaiseVector | src/lapic.rs:356-358 | the vector joins IRR |
| Lapic.Lapic.EndOfInterrupt | src/lapic.rs:425-431 | the highest vector leaves ISR; an empty ISR stays |
| Lapic.Lapic.WriteIcr | src/lapic.rs:436-457 | fixed delivery to this CPU raises the vector, anything else does nothing |
| Lapic.Lapic.WriteSvr | src/lapic.rs:406-406 | the software enable bit is the register's, and nothing pending changes |
| Lapic.Lapic.WriteTpr | src/lapic.rs:402-402 | the task priority is the low byte, and nothing pending changes |
| Lapic.Lapic.WriteTimerDcr | src/lapic.rs:417-417 | the divisor changes, what is armed stays |
| Lapic.Lapic.WriteLvtTimer | src/lapic.rs:511-521 | a change of mode disarms, a same-mode write leaves the timer running |
| Lapic.Lapic.WriteTimerIct | src/lapic.rs:523-544 | arms, disarms or ignores by mode and count; a period is kept only for a periodic timer |
| Lapic.Lapic.TimerCurrentCount | src/lapic.rs:546-555 | the count left in the counting modes, zero when disarmed or due |
| Lapic.Lapic.FireTimerIfDue | src/lapic.rs:585-606 | fires iff due: raises unless masked, then disarms or moves to the first boundary after now |
| Lapic.CatchUp | src/lapic.rs:589-594 | missed periods coalesce: the loop ends at the first boundary of the phase after now |
| TimerMath.TimerDivisor | src/lapic.rs:472-486 | the divide value lies between 1 and 128 |
| TimerMath.DivisorOfCode | src/lapic.rs:472-486 | for every register value: the divide value is two to the power of the code in bits 0, 1 and 3 plus one, the last code stands for one, and the other bits do not count |
| TimerMath.SpanAndCount | src/lapic.rs:488-509 | a span is count times divisor times ratio to within a cycle, and a count read is the cycles left over that to within one, where nothing is cut to size |
| TimerMath.ReadBack | src/lapic.rs:493-509 | a just-armed count reads back as at most itself, exactly itself iff its span had no remainder, and at worst one less when a count takes a cycle or more |
| TimerMath.WholeCycles | src/lapic.rs:493-499 | when one count is a whole number of cycles, every count is, so every count reads back exactly |
| TimerMath.CountFalls | src/lapic.rs:502-509 | the current count never rises with time and is zero from the deadline on |
| TimerMath.NextBoundaryIsFirst | src/lapic.rs:589-594 | the next boundary is after now, within a period of it, and no boundary lies between |
| TimerMath.CatchUpTwice | src/lapic.rs:589-594 | catching up in two steps ends where one step would |
| Lapic.ModeBits | src/lapic.rs:138-141 | which bits of the timer register make which mode |
| EventQueue.Root | src/events.rs:47-60 | the heap's root is earliest by deadline, then by insertion |
| EventQueue.EventQueue.constructor | src/events.rs:70-75 | empty |
| EventQueue.EventQueue.Push | src/events.rs:90-98 | the event joins with the next sequence number |
| EventQueue.EventQueue.PeekDeadline | src/events.rs:102-104 | the minimum over everything pending |
| EventQueue.EventQueue.PopDue | src/events.rs:116-121 | takes out the earliest event iff it is due; otherwise nothing is due |
| EventQueue.EventQueue.Clear | src/events.rs:110-112 | nothing is pending |
| EventQueue.DrainDue | src/events.rs:90-121 | a drain fires exactly the due events, once each, by deadline with ties in insertion order, and leaves the rest as it was |
| EventQueue.EveryEventFiresOnce | src/events.rs:90-121 | whatever is done to a queue: every event pushed has fired once, is pending, or was pending at a clear; all pushed events are distinct; and pending, in insertion order, is exactly what no drain has found due and no clear has met |
| Timers.MinDeadline | src/main.rs:1298-1303 | the earlier of two optional deadlines |
| Timers.MirrorDeadlines | src/main.rs:1332-1338 | the queue holds the APIC deadline and the horizon, in that order |
| Timers.ServiceTimers | src/main.rs:1326-1359 | the APIC timer fires once iff due, the horizon iff reached; what is later stays queued |
| Timers.BoundaryTarget | src/main.rs:1298-1303 | right after a service, the queue and live deadline together give the earlier of the live deadline and the horizon, later than now |
| Timers.ServicedTwice | src/main.rs:1326-1359 | servicing now and later is servicing once, later |
| Timers.ServiceWhileParked | src/main.rs:1326-1359 | any non-decreasing services of a parked APIC leave the state one at the last time would, and the horizon fires iff that time reached it |
| VirtualClock.KvmOffset.constructor | src/vtsc.rs:157-162 | the offset KVM starts with |
| VirtualClock.KvmOffset.Write | src/vtsc.rs:291-305 | the attribute write takes effect or fails |
| VirtualClock.Clock.constructor | src/vtsc.rs:171-188 | the cache starts as KVM's offset |
| VirtualClock.Clock.BumpOffset | src/vtsc.rs:225-236 | cache and KVM move together by a non-negative amount or not at all; refused exactly on a negative amount or overflow |
| VirtualClock.Clock.JumpTo | src/main.rs:1591-1636 | the jump lands exactly on the deadline; it is refused exactly when the distance does not fit a signed count or the offset would overflow |
| VirtualClock.ExactLanding | src/vtsc.rs:199-204 | in wrapping arithmetic, raising the offset by the distance lands on the target |
| VirtualClock.VtscMonotone | src/vtsc.rs:199-236 | virtual time never runs backwards over later host readings and larger offsets, and advances by exactly their sum |
| VirtualClock.NeverBackwards | src/vtsc.rs:199-236 | over readings of a host counter that never falls under offsets that never fall, with no wrap, virtual time never falls |
| VirtualClock.HostCounter.constructor | src/vtsc.rs:199-204 | no reading yet |
| VirtualClock.HostCounter.Read | src/vtsc.rs:199-204 | a reading is at least as late as every one before, under an offset at least as high |
| VirtualClock.ConversionNeverLate | src/vtsc.rs:116-125 | waiting the converted nanoseconds is never longer than the cycles and, where nothing is cut to 64 bits, less than a nanosecond shorter; it converts back to at most them, and to less than a cycle and a nanosecond below |
| Doorbell.RunKeeps | src/doorbell.rs:124-161 | every interleaving of loop, host timer and handler keeps the arming invariant |
| Doorbell.NoLostWakeup | src/doorbell.rs:134-161 | whenever the guest runs with a deadline pending: KVM_RUN returns at once, a signal is pending, or the live timer goes off by the earliest deadline, late by no more than passed between reading the clock and setting the timer |
| Doorbell.HeldUpArming | src/doorbell.rs:145-159 | that gap is real: held up for any time between the two, the timer is set that late |
| Doorbell.JumpPassesNothing | src/main.rs:1602-1636 | a jump lands on the queue's minimum, and puts the deadline the timer was set for behind, so the arming cache is never stale |
| Doorbell.FlagsTell | src/doorbell.rs:122-194 | in every interleaving: KVM_RUN is cut short iff a signal came since the loop last cleared the way, a fire is seen once, and a signal waits until delivered |
| Doorbell.NothingArmed | src/doorbell.rs:134-161 | in every interleaving: with nothing armed no timer is live |
| Park.DevicesRaise | src/main.rs:1517-1519 | other devices may raise any vectors, and do nothing else |
| Park.PumpEgress | src/main.rs:1535-1537 | the boundary pump leaves no captured guest byte unparsed, and fails exactly when framing is lost |
| Park.QuiescentIffIdle | src/egress.rs:827-832 | the gate is open if and only if there is no socket, no lookup, and no byte between guest and world |
| Park.TryJump | src/main.rs:1580-1636 | with no interrupt deliverable: the jump is made iff the deadline is ahead, the bound and the gate allow it and the clock takes it; it lands on the queue minimum and moves the offset by exactly the distance; each refusal happens exactly in its own case |
| Park.JumpNow | src/main.rs:1591-1636 | the host sample and the jump: safe or not at all, and the readings stay in step with the offset |
| Park.ServiceDue | src/main.rs:1514-1534 | at a reading of the clock the timers are serviced as due, the queue holds what is still awaited, and the horizon is seen iff it is due |
| Park.ServiceBoundary | src/main.rs:1514-1579 | service, look for the end of the run and pump: what is due has fired, the horizon ends the run iff it has come, lost framing ends it only when framing is lost, and no captured byte stays behind |
| Park.DeliverOrJump | src/main.rs:1580-1644 | the park ends on a deliverable interrupt, if and only if there is one; without one the clock jumps, unless the gate is closed, nothing is queued, or the first deadline has come |
| Park.ParkTurn | src/main.rs:1514-1644 | one turn services what is due, ends on a deliverable interrupt, and without one jumps safely, unless the gate is closed, nothing is queued or the first deadline has come; the tripwire fires only when the gate was switched off |
| Park.FastForwardPark | src/main.rs:1514-1644 | however long the park, virtual time moves only by safe jumps, made with no interrupt deliverable, and by their sum |
| Park.GuestStep | src/main.rs:846-944 | between parks the guest may write any APIC register that matters, change CR8 or touch its port, and the loop come to a boundary, in any order, and everything stays valid |
| Park.WholeRun | src/main.rs:1514-1644 | jump safety over a whole run: however the guest runs and parks, every offset bump happens with no deliverable interrupt, no open socket, no outstanding lookup and no byte in between, lands on the queue minimum, and the offset is the sum of the jumps; and virtual time, whenever it was read, never ran backwards |
| Park.RunGuest | src/main.rs:846-944 | any number of guest steps, each at a reading of the clock, keeps everything valid and the readings in step |
| Park.ServiceIsAMove | src/main.rs:1326-1359 | what a service leaves armed is what the doorbell interleavings allow |
| Ustar.ParseOctal | src/artifact/tar.rs:306-313 | a parsed field is smaller than its width allows, so sizes never overflow |
| Ustar.OctalReads | src/artifact/tar.rs:152-161 | a written octal field reads back, whatever follows its NUL |
| Ustar.HeaderReads | src/artifact/tar.rs:126-147 | a header reads back as the name and size it was built for, checksum included |
| Ustar.ReadHeader | src/artifact/tar.rs:259-287 | content starts a block later, inside the file, and sizes stay below 2^36: iteration advances by a block or more and ends on any bytes |
| Ustar.ArchiveScans | src/artifact/tar.rs:104-121 | scanning a written archive finds its members in order and nothing else |
| Ustar.ArchiveHolds | src/artifact/tar.rs:192-198 | each with the content it was written with |
| UstarIo.WriteOctal | src/artifact/tar.rs:152-161 | the field is laid over the header in place |
| UstarIo.UstarHeader | src/artifact/tar.rs:126-147 | the array filled in place is the specified header, checksum last |
| UstarIo.HashingWriter.constructor | src/artifact/tar.rs:80-82 | nothing written or hashed |
| UstarIo.HashingWriter.Write | src/artifact/tar.rs:90-95 | what is hashed and counted is what the sink took |
| UstarIo.HashingWriter.WriteAll | src/artifact/tar.rs:104-121 | all bytes in as many writes as it takes, or a prefix and an error |
| UstarIo.HashingWriter.WriteMember | src/artifact/tar.rs:104-116 | header, content and padding |
| UstarIo.Entries.constructor | src/artifact/tar.rs:186-189 | the cursor at the first header |
| UstarIo.Entries.Next | src/artifact/tar.rs:238-254 | the next entry of the scan, ending after an error or the trailer; the bytes ahead shrink |
| UstarIo.Entries.Read | src/artifact/tar.rs:192-198 | the member's content, or an error when it claims more than the file has |
| UstarIo.Entries.Sha256 | src/artifact/tar.rs:201-213 | the hash of the content, fed in chunks |
| Artifact.Seal | src/artifact/builder.rs:105-131 | sealing fails exactly on a member over the cap, the first of which is named, or an unprintable manifest; otherwise the manifest records the payloads' hashes |
| Artifact.WriteTo | src/artifact/builder.rs:150-161 | unless the sink refuses a write, it holds the archive of the four members in order, and the returned identity is the hash of what it holds |
| ArtifactRead.SealedItems | src/artifact/builder.rs:150-161 | a reader of a sealed file meets manifest, lock, kernel and initramfs, in order, with their contents |
| ArtifactRead.ReadForRun | src/artifact/read.rs:73-101 | on any bytes: the specified outcome, which `ArtifactLoad.RunMeans` says in terms of the members |
| ArtifactRead.VerifyMembers | src/artifact/read.rs:50-68 | passes exactly when every payload hashes to its manifest record; otherwise it names the first that does not, and whether it is unrecorded or different |
| ArtifactRead.SealedRuns | src/artifact/read.rs:73-101 | sealing, writing and reading gives back payloads and manifest, and the check on load passes, for every hash |
| ArtifactVerify.CheckMembers | src/artifact/read.rs:141-155 | each record with a member is checked against the first of its name, the others are missing |
| ArtifactVerify.Verify | src/artifact/read.rs:124-156 | on any bytes: the specified report |
| ArtifactVerify.ReportSays | src/artifact/read.rs:141-155 | the report has one line for every record and no other: a check, with both hashes and whether they agree, if the archive has a member of that name, and the name among the missing if not |
| ArtifactVerify.AllOkMeans | src/artifact/read.rs:115-119 | a report is clean exactly when every record has a member with the recorded hash |
| ArtifactVerify.SealedVerifies | src/artifact/read.rs:124-156 | a sealed artifact cannot fail verification, for every hash and every JSON codec that parses what it prints |
| ArtifactLoad.RunMeans | src/artifact/read.rs:73-101 | on any bytes: a run gets a payload if and only if the archive scans to its end, every member of a known name can be read and all four names occur; and then each part is the last member of its name |
| ArtifactLoad.CleanLoadsIff | src/artifact/read.rs:50-68 | a file with a clean report passes the check on load if and only if each payload name is recorded and its last member hashes like its first |
| ArtifactLoad.DoubledKernel | src/artifact/read.rs:73-156 | a sealed file with a second, different kernel at its end: `verify` passes, `run` refuses |
| Newc.RecordReads | src/cpio.rs:146-168 | a written record reads back, fields, name and data, and leaves what follows |
| Newc.UnpacksIff | src/cpio.rs:171-185 | an archive unpacks to the records written, exactly when none is named like the trailer |
| CpioOrder.BlockWrites | src/cpio.rs:334-353 | each block writes exactly the entries that belong there, data with the entry itself |
| CpioOrder.OrderIsPermutation | src/cpio.rs:334-353 | the output is a permutation of the entries; an entry carries data exactly when it is a directory, has one name only, or is the last of its names |
| CpioOrder.OrderIsSorted | src/cpio.rs:334-353 | every group stands where its last name does, that name after the others and the others in reverse; with the permutation this is the whole order |
| Cpio.Renumber | src/cpio.rs:309-318 | inode numbers are dense and go by first appearance |
| Cpio.NumbersDiffer | src/cpio.rs:309-318 | no two files share a number |
| Cpio.CountGroups | src/cpio.rs:320-326 | the number of archived links of every group |
| Cpio.NothingLeft | src/cpio.rs:355-357 | after the last entry nothing is held back |
| Cpio.Cpio.constructor | src/cpio.rs:135-137 | an empty buffer |
| Cpio.Cpio.PadZeros | src/cpio.rs:140-142 | zero bytes |
| Cpio.Cpio.Header | src/cpio.rs:146-162 | magic, thirteen hex fields, name and padding |
| Cpio.Cpio.Data | src/cpio.rs:165-168 | data padded to four bytes |
| Cpio.Cpio.Trailer | src/cpio.rs:171-184 | the end record |
| Cpio.Cpio.PadTo512 | src/cpio.rs:188-190 | whole blocks, nothing changed before |
| Cpio.RdevReads | src/cpio.rs:281-292 | a device keeps its number: major and minor put together again give back its lower 44 bits, all that the fields can hold; anything else has none |
| Cpio.Cpio.WriteEntry | src/cpio.rs:383-410 | the entry's record, with its name, mode, links, device number and payload; refused, with nothing written, exactly when the payload does not fit its size field |
| Cpio.Cpio.WriteReversed | src/cpio.rs:344-348 | the held-back links, last first, without data |
| Cpio.Cpio.EmitEntry | src/cpio.rs:334-353 | what reaching an entry writes is its block |
| Cpio.Cpio.WriteRootfsSegment | src/cpio.rs:297-362 | the segment fails exactly on an oversized payload; else it holds a record for each entry, in group order, with that entry's name, mode, links, device and inode number and its payload or none, in whole blocks, and unpacks to exactly these records if and only if none is named like the trailer |
| YamlAnalysis.AnalyzeScalar | src/compose/yaml_emitter.rs:188-348 | the one-pass flags mean what they should: plain exactly for printable one-line text without indicators or edge spaces, single-quoted exactly for printable text with no space beside a break |
| YamlResolve.ResolvePanicsIff | src/compose/yaml_emitter.rs:38-119 | the resolver panics exactly on a sign followed by a colon |
| YamlTags.IntExact | src/compose/yaml_emitter.rs:74-119 | the resolver takes for an integer exactly what the integer pattern of YAML 1.1 matches |
| YamlTags.FloatExact | src/compose/yaml_emitter.rs:121-157 | and for a float exactly what this pattern matches, which is not that of YAML 1.1 |
| YamlTags.DateExact | src/compose/yaml_emitter.rs:159-168 | and for a date exactly four digits, a dash and three characters or more |
| YamlTags.TimestampCaught | src/compose/yaml_emitter.rs:159-168 | every timestamp is caught by that |
| YamlTags.ResolvesIff | src/compose/yaml_emitter.rs:38-71 | tag by tag, what a plain text resolves to: words, patterns, or a string |
| YamlTags.AgreesWithReader | src/compose/yaml_emitter.rs:38-71 | a reader of the implicit types takes a text for null, a boolean or an integer if and only if the resolver does, and for a string what the resolver does, unless it is a sexagesimal float |
| YamlTags.MissedIsStr | src/compose/yaml_emitter.rs:121-157 | the resolver takes every sexagesimal float for a string |
| YamlTags.HalfPastIsMissed | src/compose/yaml_emitter.rs:134-134 | `1:30.5` is one |
| YamlPieces.SingleReads | src/compose/yaml_emitter.rs:498-552 | single-quoted pieces read back as the text they stand for (sections 6.5 and 7.3.2 of YAML 1.2.2) |
| YamlPieces.EscapeReads | src/compose/yaml_emitter.rs:350-366 | every escape reads as the character it was printed for |
| YamlPieces.DoubleReads | src/compose/yaml_emitter.rs:554-617 | double-quoted pieces read back piece by piece (sections 6.5 and 7.3.1) |
| YamlPieces.ReadingIsMeaning | src/compose/yaml_emitter.rs:592-612 | reading gives the text meant exactly when no continuation is torn |
| YamlPlain.PlainReads | src/compose/yaml_emitter.rs:438-496 | plain words and gaps read back as the text they stand for (section 7.3.3) |
| YamlEmitter.Emitter.constructor | src/compose/yaml_emitter.rs:379-388 | nothing written, at column zero |
| YamlEmitter.Emitter.WriteLineBreak | src/compose/yaml_emitter.rs:394-399 | a fresh line |
| YamlEmitter.Emitter.WriteIndent | src/compose/yaml_emitter.rs:401-415 | to the margin, on a new line unless already on a fresh one |
| YamlEmitter.Emitter.WriteIndicator | src/compose/yaml_emitter.rs:417-427 | the indicator, set off by a space when needed |
| YamlEmitter.Emitter.SingleStep | src/compose/yaml_emitter.rs:510-548 | one character of the single-quoted scan: the pieces so far mean the text so far |
| YamlEmitter.Emitter.WriteSingleQuoted | src/compose/yaml_emitter.rs:498-552 | the pieces mean the text and are set so as to read back, whatever the column, margin and folds; and a single space inside the text is folded exactly when it comes past the width |
| YamlEmitter.Emitter.PlainStep | src/compose/yaml_emitter.rs:452-494 | one character of the plain scan: words and gaps so far mean the text so far |
| YamlEmitter.Emitter.WritePlain | src/compose/yaml_emitter.rs:438-496 | words and gaps that mean the text and read back; a single space is folded exactly when it comes past the width |
| YamlEmitter.Emitter.WriteDoubleQuoted | src/compose/yaml_emitter.rs:554-617 | pieces that mean the text; one is torn exactly where a margin of 80 or more folds twice around a space |
| YamlEmitter.Emitter.IncreaseIndent | src/compose/yaml_emitter.rs:429-436 | two columns further in, none for an indentless sequence, column zero at the root |
| YamlEmitter.Emitter.EmitScalar | src/compose/yaml_emitter.rs:620-650 | panics exactly on a sign and a colon; otherwise the style is the one its text, tag and place call for; the text reads back, in every context up to the margin, if and only if it can be single-quoted or is not torn; text and tag read back if and only if moreover a reader takes the print for that tag; what a reader makes of it otherwise is given too; keys stay on one line, and the emitter is left off the indentation |
| YamlEmitter.DeepMarginTears | src/compose/yaml_emitter.rs:592-612 | tearing happens: an item that is a tab before a space, forty levels deep, is printed so that it does not read back |
| YamlBlocks.ItemEndsScalar | src/compose/yaml_emitter.rs:775-798 | what ends an item or entry ends a scalar in it (section 6.1 of YAML 1.2.2) |
| YamlTree.ScalarReads | src/compose/yaml_emitter.rs:752-756 | a printed scalar reads as a node at the root, after a colon and after a dash |
| YamlTree.EmptyReads | src/compose/yaml_emitter.rs:730-747 | so do the empty collections |
| YamlTree.JoinedEntriesRead | src/compose/yaml_emitter.rs:778-785 | entries printed one under the other read as the mapping of them (section 8.2.2) |
| YamlTree.JoinedItemsRead | src/compose/yaml_emitter.rs:792-796 | items printed one under the other read as the sequence of them (section 8.2.1) |
| YamlTree.MappingReads | src/compose/yaml_emitter.rs:775-787 | such a mapping reads as a node in every place: on the next line after a colon, on the same line after a dash |
| YamlTree.SequenceReads | src/compose/yaml_emitter.rs:789-798 | such a sequence likewise, its dashes in the column of the key after a colon |
| YamlDump.EmitLeaf | src/compose/yaml_emitter.rs:752-756 | a scalar in its place: it keeps text and tag exactly when it is not torn there and a reader takes the print for its tag |
| YamlDump.EmitEmpty | src/compose/yaml_emitter.rs:730-747 | an empty collection in its place |
| YamlDump.StartLine | src/compose/yaml_emitter.rs:401-415 | the line break or the gap before a key or dash, by place |
| YamlDump.EmitEntry | src/compose/yaml_emitter.rs:779-784 | key, colon and value, each reading as itself |
| YamlDump.EmitItem | src/compose/yaml_emitter.rs:793-795 | a dash and its item |
| YamlDump.EmitBlockMapping | src/compose/yaml_emitter.rs:775-787 | panics exactly when a key or value does; otherwise the print reads as a mapping, the one given exactly when every scalar in it is kept |
| YamlDump.EmitBlockSequence | src/compose/yaml_emitter.rs:789-798 | likewise a sequence, indentless under a key |
| YamlDump.EmitNode | src/compose/yaml_emitter.rs:728-758 | likewise any node in any place |
| YamlDump.EmitYaml | src/compose/yaml_emitter.rs:718-724 | for every tree: dumping panics exactly on a scalar or key that is a sign and a colon; otherwise the document reads, and as the tree if and only if every scalar is kept, its text where it stands and its tag by a reader's patterns |
| YamlDump.HalfPastReadsAsFloat | src/compose/yaml_emitter.rs:121-157 | a document that does not read back: the string `1:30.5` is printed plain and read as a float |
| YamlTree.KeepsTagIff | src/compose/yaml_emitter.rs:38-71 | a string keeps its tag exactly when it is no sexagesimal float; null, booleans and integers exactly when printed plain; a float when moreover it matches the pattern |
| YamlDump.DeepItemTears | src/compose/yaml_emitter.rs:592-612 | a document that does not read back: forty sequences, one in the other, around such an item |
| LineReader.LineReader.constructor | tdvmm-agent/src/bridge.rs:44-47 | nothing read |
| LineReader.LineReader.Fill | tdvmm-agent/src/bridge.rs:50-58 | a read joins the buffer |
| LineReader.LineReader.Next | tdvmm-agent/src/bridge.rs:70-80 | the next line, or an unterminated tail over the cap |
| LineReader.LineReader.FillAndDrain | tdvmm-agent/src/bridge.rs:50-80 | frames and buffer are the drain of what was there; nothing lost; the buffer stays within the cap |
| LineReader.Serve | tdvmm-agent/src/bridge.rs:50-80 | read after read: frames and buffer concatenate to the bytes fed |
| LineReader.ChunkingIsInvisible | tdvmm-agent/src/bridge.rs:68-81 | when no line is over the cap and the tail at most one byte over, frames and leftover depend only on the byte stream |
| LineReader.ChunkingExact | tdvmm-agent/src/bridge.rs:50-81 | any two ways in which the stream can arrive, in reads of at most the reader's size, give the same frames if and only if the stream is so bounded |
| Verdict.Agent.constructor | tdvmm-agent/src/agent.rs:125-127 | no verdict recorded |
| Verdict.Agent.DoFinish | tdvmm-agent/src/agent.rs:162-179 | the first finish is recorded, a later one refused |
| Verdict.Agent.Handle | tdvmm-agent/src/agent.rs:129-157 | only an accepted finish changes the record |
| Verdict.ParseEvent | tdvmm-agent/src/bridge.rs:375-395 | no workload line becomes an event of a reserved kind |
| Verdict.Bridge.constructor | tdvmm-agent/src/bridge.rs:130-136 | no connection, nothing sent |
| Verdict.Bridge.WriteEvent | tdvmm-agent/src/bridge.rs:211-216 | the event goes up under the next number, or the loop ends |
| Verdict.Bridge.HandleCtlLine | tdvmm-agent/src/bridge.rs:297-316 | the event is decided and forwarded whether or not the connection takes its reply |
| Verdict.Bridge.HandleControlLine | tdvmm-agent/src/bridge.rs:264-274 | a host command is served and answered |
| Verdict.Bridge.Dispatch | tdvmm-agent/src/bridge.rs:130-257 | whatever is ready next is one step of the guest |
| Verdict.Bridge.RunLoop | tdvmm-agent/src/bridge.rs:130-257 | any sequence of them is a run |
| Verdict.DriverRun.constructor | src/driver.rs:50-63 | no verdict |
| Verdict.DriverRun.OnAgentLine | src/driver.rs:69-155 | the first finish event decides and stays decided |
| Verdict.HostHears | src/driver.rs:93-116 | the host's verdict is the one finish event among the lines |
| Verdict.RunKeepsTold | tdvmm-agent/src/bridge.rs:201-257 | in every interleaving at most one finish event goes up, and it is the recorded verdict's |
| Verdict.DecisionIsAStep | tdvmm-agent/src/bridge.rs:297-316 | the finish event that went up is that of the one deciding step, if there is one |
| Verdict.OneVerdict | tdvmm-agent/src/bridge.rs:297-316 | the host gets a verdict if and only if some step of the run decides: an accepted finish, on a known connection of a running loop, whose event was written; then code and message are those that step asked for, the code is the agent's record, and the run passes iff it is zero |
| Verdict.VerdictStays | src/driver.rs:93-116 | once set, the host's verdict never changes |
| Verdict.HostFinishIsSilent | tdvmm-agent/src/bridge.rs:264-274 | a finish on the host's own line is recorded, never comes back as a verdict, and blocks a container's, which the host counts as a failed command |
| Verdict.TallyIs | src/driver.rs:117-122 | the host counts every command mirrored to it, and every one that failed |
| Verdict.RunNumbered | tdvmm-agent/src/bridge.rs:186-222 | in every interleaving the events that go up are numbered from one without a gap, and no more connections than the limit are open |

## Left out

- MuxSystem.MuxFlowControl: as long as the bytes given of other uses do not drive the credit counter to its limit of 2^64, where it saturates.
- MuxSystem.MuxByteOrder: only that bytes written to a socket are a prefix of what the client sent, since the host half-closes a socket before its backlog is flushed.
- MuxFeed.MuxBytesExact: that an exposed client can be given foreign bytes is proved when the other streams leave room in the session table or can come to; `MuxFeed.EndableIsRoom` says they can unless 256 of their sessions are stuck, and then the exposure may lie in an earlier OPEN that is refused. The other direction needs no room. Likewise `MuxFeed.MuxFlowExact`.
- EgressSystem.EgressSystem.Enter: a tty write never fails, since the original ends the process or the connection on one.
- EgressSystem.EgressSystem.ReadUp: one client read is one DATA frame, as READ_CHUNK is below the payload limit.
- EgressBackend.Connector.ShutdownWrite: shuts down any socket there is, connected or not; the original applies the call again once connected, and so does the model.
- EgressBackend.Connector.Read: yields no more than it is asked for, which is the size of the buffer it is given.
- Lapic.Lapic.FireTimerIfDue: requires that the next boundary stays below 2^64; beyond that the catch-up loop wraps and may not end. `Park` returns `OutOfRange` there.
- Lapic.CatchUp: likewise below 2^64.
- Doorbell.NoLostWakeup: a state machine over values rather than a mutable object, because the handler interrupts `arm` between its steps; host and virtual time do not wrap, and the doorbell is enabled.
- VirtualClock.ConversionNeverLate: whether the host's timer goes off in time once set is the host's affair.
- Park.ParkTurn: console input, the agent's lines and the IOAPIC appear as interrupts raised and runs finished at will; the real-rate wait is a turn that does nothing.
- Park.FastForwardPark: follows any number of turns, a parameter, since a park may last for ever.
- YamlEmitter.Emitter.WriteSingleQuoted: only for text the analysis admits to that style, as its only caller does; likewise `WritePlain`.
- YamlResolve.ResolvePlain: works on code points where the original counts bytes in one length test; the two differ only on text that is never printed plain.
- YamlAnalysis.AnalyzeScalar: the flow-plain and block flags, which nothing uses, are not modelled.
- Ustar.HeaderReads: names are bytes; the reader's replacement of invalid UTF-8 is not modelled, and names hold no NUL and fit their field, as the four constant names do.
- Cpio.Cpio.WriteRootfsSegment: at most 2^32 entries, so that inode numbers do not wrap.
- Forwarder.Registry.Register: the original spins for ever when all 65536 ids are taken; the model gives up after one round.
- epoll, DNS, sockets, UART registers, signals and KVM calls: parameters and arbitrary choices of the environment.
- JSON, SHA-256, gzip, directory walking and parallel reads: a codec and a hash as parameters, the sorted entries and payloads as input.
- YamlDump.EmitYaml: a tree has its entries in the order printed, and scalars as text and tag; key sorting and the representation of numbers are not modelled. The reader takes keys of any length, where YAML allows it to refuse those over 1024 characters.
- The device-node cpio segment, the artifact store, `read_manifest`: constant tables and shorter loops over the same entries.
- SOCKS negotiation, podman and nftables commands, log paging, telemetry and reports.
- MMIO dispatch tables, the deadline-mode MSR, which nothing calls, the PIC, PIT and IOAPIC register models, CPUID, page tables and ELF loading.
