# pybrid: verified models

pybrid drives analog computers: it switches signals through a hierarchy of crossbar blocks, compiles
circuits to lanes and coefficients, streams samples back and stands in front of several devices as a
proxy. This project models its hardest parts in Dafny and proves what they promise, for every input and
every run. `dafny verify dfyconfig.toml` checks everything.

## What is modelled

**Framing** (`Varint`, `TcpTransport`). Varint-framed messages over TCP. The receiver, a buffer shifted in
place, is proved equal to parsing the whole stream at once, for every split into reads. Well-formed streams
never make the buffer grow. Ten continuation bytes at the head are the exception: the code neither rejects
nor consumes them, so everything behind them piles up.

**Routing and tracing** (`Routing*`). `Router.route` writes multi-hop paths into shared switch tables,
`Tracer.find_coef` walks them back. They are proved inverse over any number of stacks and after any earlier
routes, with the exact condition on the source cluster. Tracing is proved to terminate on every table that
routes over registered blocks can produce, whatever clusters they name; as long as every carrier on the
backplane is driven it takes at most two rounds and never reports a cycle, and it is shown exactly which
routes keep that. `route` also accepts blocks that were never registered and writes them all into one dummy;
it is shown exactly when such a route is still traced back. The T-blocks follow `redac/blocks/tblock.py`,
whose muxes start out as the identity.

**Intel HEX images** (`IntelHex*`). The firmware loader, with its in-place record buffer, against an image
defined address by address, and detection of every single-digit error by the checksum. The format is Intel's
Hexadecimal Object File Format Specification. The files the loader accepts are characterised exactly: it
refuses data below the firmware's base address and segment records, which the format allows. It does not
refuse an extended linear address record with fewer than two data bytes; the address then includes bytes left
in the buffer by an earlier record, and the theorems say which.

**Circuits** (`Circuit*`). The greedy lane allocator of `lucipy`: weights split over lanes, coefficients
upscaled by eight, lanes 24-31 shared with external ports, constants whose input depends on the lane. The
linear map the blocks realise is given exactly after any sequence of calls: the sum, over the accepted
connections, of what each lane they were given carries. A lane carries its source's own signal unless it is
shadowed, which happens to an identity on output 14 or 15 while the giver is on, and then only on half of the
lanes. Without shadowed lanes the map is the sum of the requested weights. For a single connection that
condition is necessary as well; over a whole run weights can cancel. Two constants share the giver, so the
later one's value counts, and negative port numbers pass the checks and let two signals share a lane.
`redac/blocks/iblock.py` speaks of upscaling by ten; `lucipy` divides by eight, and the model follows
`lucipy`.

**Samples** (`Sample*`, `StableSort`). Chunking, column-major flattening, strided decoding, the aligned
binary blob, the queues of several connections, draining, parsing and assembly, from the sample matrix of
every carrier to the probe-indexed run data, for every arrival order and every interleaving of arrivals with
the session's drains. A sample is an opaque cell of eight bytes; gain and offset are real arithmetic. The
decoder selects channels by position and ignores the channel entries' `idx`, although the header speaks of
entries that select channels; the model follows the code. When two channels share a probe their samples are
strung together, which is what the mock server's numbering does as soon as it stands for two carriers.

**Control channel** (`ControlChannel`, `ControlProtocol`). Pending requests, promises and busy retry. Every
critical section is a method on the shared tables; callers, replies, timeouts, disconnects and stops
interleave as steps.

**Proxy** (`ProxySessions`, `ProxySteps`, `ProxyTheorems`, `ProxyModuleSort`, `ProxyRouting`). Session
admission, queueing and promotion as an interleaving of the server and session threads, with the poll's
snapshot allowed to be stale; ordering of module items; routing of configurations. `proxy/proxy_session.h`
claims that the pending message of a session is never touched by both threads; a stale poll does, and can lose
the message, or answer one that the active session sent. `handle_config` says that partial configurations are
never sent; a backend that is not connected is skipped while the others are configured.

**Run state** (`RunStates`). Aggregation of the carriers' states into the run's state.

Objects whose methods update fields are classes, loops are loops with invariants, and each method is proved
against a function on values about which the properties are stated. Further laws say in absolute terms -
indices, byte offsets, constants, what is accepted - what those functions compute. Exceptions are `Option` or
boolean results. Integers are unbounded except where a width is written out.

## Model

| member | source | states |
|---|---|---|
| Varint.EncodeVarint | packages/pybrid-computing-native/native/pybrid/varint.h:21-29 | the loop writes the canonical base-128 encoding of any 64-bit value, at most ten bytes, and touches no other byte of the buffer |
| Varint.DecodeVarint | packages/pybrid-computing-native/native/pybrid/varint.h:39-48 | the loop returns the length and the 64-bit value of the first varint, and zero exactly when no terminator is among the first ten bytes |
| Varint.VarintSize | packages/pybrid-computing-native/native/pybrid/varint.h:51-58 | the size is the length of the encoding |
| Varint.DecodeEncode | packages/pybrid-computing-native/native/pybrid/varint.h:21-48 | decoding undoes encoding for every 64-bit value, whatever bytes follow |
| Varint.StrictPrefixRejected | packages/pybrid-computing-native/native/pybrid/varint.h:39-48 | no strict prefix of an encoding decodes |
| Varint.DecodeStable | packages/pybrid-computing-native/native/pybrid/varint.h:39-48 | once a prefix decodes, further bytes do not change the answer |
| Varint.EncodeFits | packages/pybrid-computing-native/native/pybrid/varint.h:12-29 | every 64-bit value needs at most ten bytes |
| Varint.OrAdds | packages/pybrid-computing-native/native/pybrid/varint.h:41-42 | or-ing, bit by bit, a number whose bits lie above all bits of the other one adds it |
| Varint.OrGroup | packages/pybrid-computing-native/native/pybrid/varint.h:41-42 | or-ing a shifted group into the value spelled so far spells one group more; only the tenth group loses bits |
| Varint.RecvVarint | packages/pybrid-computing/src/pybrid/mock/connection.py:233-250 | the byte-by-byte reader returns the unbounded base-128 value, or fails at the end of the stream |
| Varint.DecodersAgree | packages/pybrid-computing/src/pybrid/mock/connection.py:233-250 | the two decoders of the framing agree exactly when the varint has at most ten bytes and a value below 2^64 |
| TcpTransport.Transport.StartReceive | packages/pybrid-computing-native/native/pybrid/transport/tcp_transport.cpp:384-395 | room for a read is made by doubling a full buffer; on a legal stream the buffer is full only behind a stuck head; nothing buffered is lost |
| TcpTransport.Transport.OnRead | packages/pybrid-computing-native/native/pybrid/transport/tcp_transport.cpp:397-417 | after any read the object is where parsing the whole stream so far would be: same messages, same residue, same connection state |
| TcpTransport.Transport.ProcessRecvBuffer | packages/pybrid-computing-native/native/pybrid/transport/tcp_transport.cpp:419-464 | the in-place loop delivers exactly the whole messages of the buffer, in order, keeps the unread tail, and disconnects exactly on an oversized length |
| TcpTransport.Transport.TakeMessage | packages/pybrid-computing-native/native/pybrid/transport/tcp_transport.cpp:421-463 | one pass takes the head message, waits, or disconnects, according to the head of the buffer |
| TcpTransport.Transport.ShiftDown | packages/pybrid-computing-native/native/pybrid/transport/tcp_transport.cpp:458-462 | the consumed bytes are removed and the rest moved to the front in place |
| TcpTransport.Transport.ResetBuffers | packages/pybrid-computing-native/native/pybrid/transport/tcp_transport.cpp:365-378 | shrinks to the initial size; bytes are discarded exactly when more than that is in use, never on a legal stream without a stuck head |
| TcpTransport.BuildFrame | packages/pybrid-computing-native/native/pybrid/transport/tcp_transport.cpp:483-486 | the bytes sent are the varint of the length followed by the message |
| TcpTransport.ParseSplit | packages/pybrid-computing-native/native/pybrid/transport/tcp_transport.cpp:397-464 | parsing in two pieces is parsing at once: the residue carries everything |
| TcpTransport.ParseMeans | packages/pybrid-computing-native/native/pybrid/transport/tcp_transport.cpp:419-464 | any stream parses to whole messages, each behind its length, and a rest that is unfinished or, exactly when the peer is refused, begins with a length above 262084 |
| TcpTransport.ParseIsOnly | packages/pybrid-computing-native/native/pybrid/transport/tcp_transport.cpp:419-464 | and to nothing else: messages, rest and refusal are determined by the bytes |
| TcpTransport.RefusedExactly | packages/pybrid-computing-native/native/pybrid/transport/tcp_transport.cpp:428-432 | a stream is refused if and only if, behind some whole messages, a varint above 262084 decodes |
| TcpTransport.OversizedRefused | packages/pybrid-computing-native/native/pybrid/transport/tcp_transport.cpp:428-432 | as soon as such a length has arrived, whatever follows |
| TcpTransport.ParseFrames | packages/pybrid-computing-native/native/pybrid/transport/tcp_transport.cpp:419-464 | a stream of frames cut anywhere parses to the finished messages and the unfinished tail |
| TcpTransport.SegmentationIrrelevant | packages/pybrid-computing-native/native/pybrid/transport/tcp_transport.cpp:397-464 | for every byte stream and every split into reads the receiver delivers what parsing the whole stream delivers |
| TcpTransport.FramedStreamDelivered | packages/pybrid-computing-native/native/pybrid/transport/tcp_transport.cpp:397-464 | for every list of messages of at most 262084 bytes and every split of their framed stream, exactly those messages are queued in order and only the unfinished tail is kept |
| TcpTransport.ResidueBound | packages/pybrid-computing-native/native/pybrid/transport/tcp_transport.cpp:389-395 | on a legal stream the residue is below the initial buffer size unless its first ten bytes are all continuation bytes |
| TcpTransport.StuckHeadGrows | packages/pybrid-computing-native/native/pybrid/transport/tcp_transport.cpp:421-426 | ten continuation bytes at the head are never consumed and never reported: everything that follows piles up behind them |
| TcpTransport.FramesNeverStick | packages/pybrid-computing-native/native/pybrid/transport/tcp_transport.cpp:365-395 | on every stream of frames, however cut, the residue stays below the initial buffer size, so the buffer never doubles and a reset discards nothing |
| RoutingBlocks.TBlock.Connect | packages/pybrid-computing/src/pybrid/redac/blocks/tblock.py:23-33 | one mux of 96 is set, or an out-of-range argument raises and changes nothing |
| RoutingBlocks.BackplaneTBlock.Connect | packages/pybrid-computing/src/pybrid/redac/blocks/backplane_tblock.py:17-21 | one of nine sectors by eight lanes is set, or an out-of-range argument raises and changes nothing |
| RoutingBlocks.Network.AddCarrier | packages/pybrid-computing/src/pybrid/redac/router.py:21-24 | a block with a carrier's location is registered under it, replacing what was there; one with another location is skipped; one without raises |
| RoutingBlocks.Network.AddBackplane | packages/pybrid-computing/src/pybrid/redac/router.py:26-28 | a backplane block is registered under its own stack and the given partition, or refused when it has no stack |
| RoutingBlocks.Network.ConnectCarrier | packages/pybrid-computing/src/pybrid/redac/router.py:40-41 | a connection goes to the registered block, or to the shared dummy |
| RoutingBlocks.Network.ConnectBackplane | packages/pybrid-computing/src/pybrid/redac/router.py:43-44 | a connection goes to the registered block, or to the shared dummy |
| RoutingBlocks.Network.RouteSignal | packages/pybrid-computing/src/pybrid/redac/router.py:114-124 | the object's tables after `route` are those of the routing function, also after an exception halfway |
| RoutingBlocks.Network.RouteStackSignal | packages/pybrid-computing/src/pybrid/redac/router.py:77-112 | the same for a route between carriers |
| RoutingBlocks.Network.RouteBackplaneSignal | packages/pybrid-computing/src/pybrid/redac/router.py:95-112 | the same for the backplane part of a route |
| RoutingBlocks.Network.RouteBetween | packages/pybrid-computing/src/pybrid/redac/router.py:104-107 | the loop over the stacks in between writes one cell per stack, in either direction |
| RoutingBlocks.Network.Trace | packages/pybrid-computing/src/pybrid/redac/router.py:131-185 | wherever the two nested loops of `find_coef` end, the object returns the tracing function's answer, which is the same for every budget that suffices; where carriers are driven the cycle check does not fire |
| RoutingBlocks.InvEnds | packages/pybrid-computing/src/pybrid/redac/router.py:131-185 | they end for every location on every table with the invariant, so after any routes over registered blocks |
| RoutingBlocks.Network.TraceLoop | packages/pybrid-computing/src/pybrid/redac/router.py:141-185 | the outer loop computes the tracing function |
| RoutingBlocks.Network.WalkBackplane | packages/pybrid-computing/src/pybrid/redac/router.py:157-178 | the inner loop computes the backplane walk |
| RoutingTheorems.RouteEffect | packages/pybrid-computing/src/pybrid/redac/router.py:50-124 | a successful route over registered blocks overwrites the cells of its path with the path's values and no other cell |
| RoutingAcceptance.RouteAccepts | packages/pybrid-computing/src/pybrid/redac/router.py:50-124 | a route succeeds if and only if the ranges, lane and carrier conditions of its case hold: same cluster, same carrier, or between carriers; whatever was routed and registered |
| RoutingAcceptance.LocalRouteWrites | packages/pybrid-computing/src/pybrid/redac/router.py:50-65 | on one carrier exactly one mux, at index lane times 4 plus sector, selects the source's cluster |
| RoutingAcceptance.CarrierCellsWritten | packages/pybrid-computing/src/pybrid/redac/router.py:77-93 | between carriers exactly two muxes change, and to what |
| RoutingAcceptance.BackplaneCellsWritten | packages/pybrid-computing/src/pybrid/redac/router.py:95-112 | exactly which backplane cells change: out through sector 7 and in through sector 8 towards higher stacks, the other way round towards lower ones |
| RoutingAcceptance.TraceAnswers | packages/pybrid-computing/src/pybrid/redac/router.py:131-156 | what a trace answers at once: a local lane, a lane or cluster that does not exist, an unset mux, a mux that selects a cluster |
| RoutingAcceptance.NegativeSectors | packages/pybrid-computing/src/pybrid/redac/router.py:157-178 | negative sector numbers count from the end, others raise |
| RoutingUnregistered.RouteThenTrace | packages/pybrid-computing/src/pybrid/redac/router.py:16-185 | after any successful route in which no two writes meet in a shared dummy - so always over registered blocks - whatever was routed before and however many stacks lie between, tracing the destination returns exactly the source, if and only if the lane is local or the source cluster is a real one |
| RoutingUnregistered.RouteThenTraceExact | packages/pybrid-computing/src/pybrid/redac/router.py:16-185 | whatever is registered: a successful route traces back if and only if the lane is local, or the source cluster is real and, between carriers, the two carrier ends do not meet in the dummy and the source's backplane or all backplanes in between are registered; the blocks beyond the source hold what routes put there |
| RoutingUnregistered.DrivenIsOrderly | packages/pybrid-computing/src/pybrid/redac/router.py:114-124 | they do after any routes over registered blocks that keep carriers driven |
| RoutingUnregistered.UnregisteredTrace | packages/pybrid-computing/src/pybrid/redac/router.py:16-45 | without a registered backplane in the partition a route traces back exactly over at most one stack; beyond that its trace never ends |
| RoutingUnregistered.OverrunLoses | packages/pybrid-computing/src/pybrid/redac/router.py:95-112 | a route that overwrites its source's backplane through the dummy is traced past the source: to another carrier, to nothing, or for ever |
| RoutingUnregistered.CarriersMetLoses | packages/pybrid-computing/src/pybrid/redac/router.py:77-93 | a route whose two carrier ends meet in the dummy is not traced back |
| RoutingUnregistered.RegisteredApart | packages/pybrid-computing/src/pybrid/redac/router.py:40-44 | over registered blocks no two writes meet |
| RoutingUnregistered.UnregisteredDiverges | packages/pybrid-computing/src/pybrid/redac/router.py:16-45 | a concrete route over three stacks without registered backplanes: accepted, and its trace runs for ever |
| RoutingUnregistered.ReachedByAccident | packages/pybrid-computing/src/pybrid/redac/router.py:141-182 | on a table that no route makes, a block beyond the source can turn such a trace round so that it ends at the source after all |
| RoutingTheorems.OneAnswer | packages/pybrid-computing/src/pybrid/redac/router.py:131-185 | a trace that ends has one answer, however long it may run |
| RoutingTheorems.TracePath | packages/pybrid-computing/src/pybrid/redac/router.py:131-185 | a path whose cells are set traces from destination to source |
| RoutingTheorems.FanOut | packages/pybrid-computing/src/pybrid/redac/router.py:67-112 | one source routed to any list of destinations is what all of them trace back to at once, if and only if its cluster is a real one |
| RoutingTheorems.RouteKeepsOtherLanes | packages/pybrid-computing/src/pybrid/redac/router.py:67-112 | a route leaves every trace on every other lane unchanged |
| RoutingReachability.InvRoute | packages/pybrid-computing/src/pybrid/redac/router.py:114-124 | every route over registered blocks, whatever clusters it names and also when it raises halfway, keeps the invariant; between real clusters it also keeps that what listens to a backplane is driven |
| RoutingReachability.RunKeepsInv | packages/pybrid-computing/src/pybrid/redac/router.py:114-124 | so does every sequence of routes |
| RoutingReachability.RouteKeepsDriven | packages/pybrid-computing/src/pybrid/redac/router.py:114-124 | exactly which successful routes keep every carrier on the backplane driven: between real clusters, or where the carrier whose cluster -1 is named is not listened to on that lane |
| RoutingReachability.RunKeepsDriven | packages/pybrid-computing/src/pybrid/redac/router.py:114-124 | every history of such routes, also of raising ones between real clusters, keeps it |
| RoutingReachability.RealIsHarmless | packages/pybrid-computing/src/pybrid/redac/router.py:114-124 | histories between real clusters are such |
| RoutingReachability.TraceEnds | packages/pybrid-computing/src/pybrid/redac/router.py:141-182 | from any location and any visited set a trace ends within a bound given by the locations it can still visit and the stacks it can cross |
| RoutingReachability.EveryTraceEnds | packages/pybrid-computing/src/pybrid/redac/router.py:131-185 | on every table with the invariant the trace of every location ends within that bound, whatever clusters were routed |
| RoutingReachability.ReachableTraceEnds | packages/pybrid-computing/src/pybrid/redac/router.py:131-185 | from fresh blocks, after any sequence of routes over registered blocks, cluster -1 included, every trace ends |
| RoutingReachability.TraceStops | packages/pybrid-computing/src/pybrid/redac/router.py:141-182 | on every table with the invariant a trace ends within two outer rounds and a monotone walk over the stacks; it finds a real cluster, or nothing exactly when the location listens to an unconnected backplane cell |
| RoutingReachability.EveryTraceStops | packages/pybrid-computing/src/pybrid/redac/router.py:131-185 | where carriers are driven no location at all runs for ever or trips the cycle check |
| RoutingReachability.ReachableTraceStops | packages/pybrid-computing/src/pybrid/redac/router.py:131-185 | from fresh blocks, after any history of routes that keep carriers driven, a trace takes at most two rounds and finds a real cluster, or nothing |
| RoutingReachability.MinusOneClusterCycles | packages/pybrid-computing/src/pybrid/redac/router.py:114-124 | cluster number -1 passes the checks of `route`; two such routes make the tracer, which still ends, report a cycle |
| IntelHex.Hex2Bin | packages/pybrid-computing/src/pybrid/util/updater.py:62-112 | the loop over the file, with its buffer and image updated in place, returns the image of the conversion function, empty on any failure |
| IntelHex.FillRecord | packages/pybrid-computing/src/pybrid/util/updater.py:71-88 | header, data and checksum of one record are read digit pair by digit pair; any bad digit fails |
| IntelHex.FillPayload | packages/pybrid-computing/src/pybrid/util/updater.py:75-76 | the data bytes overwrite the front of the shared buffer and leave the rest as it was |
| IntelHex.Dispatch | packages/pybrid-computing/src/pybrid/util/updater.py:90-107 | a record extends the image, moves the address base, or is refused, according to its type |
| IntelHexTheorems.FileLoads | packages/pybrid-computing/src/pybrid/util/updater.py:62-112 | a list of well-formed records closed by an end-of-file record, with any whitespace between them and anything behind, is accepted if and only if every data record stands at a base of at least the firmware's and every type is data, extended linear address or start linear address; an accepted file loads to the rebased image: last write wins, gaps are zero, length is the furthest write |
| IntelHexFormat.WrittenFileLoads | packages/pybrid-computing/src/pybrid/util/updater.py:37-112 | bytes written at any 32-bit address - address record, data record, end record, in upper-case digits - come back behind as many zeros as the address lies above 0x60000000, and not at all below it |
| IntelHexFormat.NibbleSpelled | packages/pybrid-computing/src/pybrid/util/updater.py:26-34 | the sixteen digits in either case, and nothing else |
| IntelHexFormat.TypesMean | packages/pybrid-computing/src/pybrid/util/updater.py:90-107 | type 0 is data, 4 an address, 5 is skipped, any other but the end is refused |
| IntelHexFormat.EndMeans | packages/pybrid-computing/src/pybrid/util/updater.py:90-91 | type 1 ends the file |
| IntelHexFormat.BaseLine | packages/pybrid-computing/src/pybrid/util/updater.py:80-88 | the line that sets the base to 0x60000000 ends in 9A |
| IntelHexFormat.EndLine | packages/pybrid-computing/src/pybrid/util/updater.py:80-91 | the end line is :00000001FF |
| IntelHexFormat.NoEndRefused | packages/pybrid-computing/src/pybrid/util/updater.py:111-112 | without an end record nothing comes back |
| IntelHexFormat.JunkRefused | packages/pybrid-computing/src/pybrid/util/updater.py:64-69 | nor with a byte between records that is neither whitespace nor a colon |
| IntelHexFormat.SpacesSkipped | packages/pybrid-computing/src/pybrid/util/updater.py:22-23 | whitespace is space and tab to carriage return |
| IntelHexTheorems.RefusedFirst | packages/pybrid-computing/src/pybrid/util/updater.py:94-107 | valid files that are refused: a data record before any address record, and segment records (types 02 and 03) or any other type |
| IntelHexTheorems.NewBaseBytes | packages/pybrid-computing/src/pybrid/util/updater.py:92-93 | the base an address record sets: its own two bytes, or, where it has fewer, what an earlier record left in the buffer |
| IntelHexTheorems.StaleAddress | packages/pybrid-computing/src/pybrid/util/updater.py:92-93 | an address record without data after an entry point record takes the entry point's upper half for its base |
| IntelHexTheorems.FoldIsImage | packages/pybrid-computing/src/pybrid/util/updater.py:97-101 | writing records in turn is the image defined address by address |
| IntelHexTheorems.OneDigitDamageDetected | packages/pybrid-computing/src/pybrid/util/updater.py:62-88 | changing the value of any one hex digit outside a length field, before the end of the file, yields the empty result |
| IntelHexTheorems.DamagedLineRejected | packages/pybrid-computing/src/pybrid/util/updater.py:80-88 | a record with one wrong byte fails its checksum |
| CircuitObject.Circuit.MakeConstant | packages/pybrid-computing/src/pybrid/lucipy/circuits.py:144-173 | at most two constants, numbered, and the one giver set to the latest value; a third raises and changes nothing |
| CircuitObject.Circuit.MakeInput | packages/pybrid-computing/src/pybrid/lucipy/circuits.py:175-197 | opens the requested or first free input port, or raises and changes nothing |
| CircuitObject.Circuit.MakeOutput | packages/pybrid-computing/src/pybrid/lucipy/circuits.py:199-221 | opens the requested or first free output port, or raises and changes nothing |
| CircuitObject.Circuit.AvailableLanes | packages/pybrid-computing/src/pybrid/lucipy/circuits.py:315-324 | the validation loop lists the free lanes in ascending order |
| CircuitObject.Circuit.CommitOne | packages/pybrid-computing/src/pybrid/lucipy/circuits.py:335-354 | one lane is switched through all three blocks |
| CircuitObject.Circuit.CommitAll | packages/pybrid-computing/src/pybrid/lucipy/circuits.py:332-354 | the commit loop switches the chosen lanes one after the other |
| CircuitObject.Circuit.ConnectElements | packages/pybrid-computing/src/pybrid/lucipy/circuits.py:223-354 | elements without a circuit or of another one are refused and nothing changes; otherwise the object after `connect` is the state of the connection function, also when it raises |
| CircuitObject.Circuit.UConnectLane | packages/pybrid-computing/src/pybrid/redac/blocks/ublock.py:44-54 | a lane is driven by an input, refused if it already has another |
| CircuitObject.Circuit.IConnectLane | packages/pybrid-computing/src/pybrid/redac/blocks/iblock.py:29-42 | a lane is added to an output's sum, refused if it feeds another |
| Circuits.NextFree | packages/pybrid-computing/src/pybrid/lucipy/helpers.py:17-40 | the first unoccupied index, or none exactly when all are occupied |
| CircuitTheorems.CommitLaneAdds | packages/pybrid-computing/src/pybrid/lucipy/circuits.py:332-354 | committing a free lane adds exactly its weight to exactly one entry of the realised map, with upscaling by eight, and keeps the lane discipline |
| CircuitTheorems.AvailableAfter | packages/pybrid-computing/src/pybrid/lucipy/circuits.py:312-330 | taking the first free lane leaves the others free |
| CircuitTheorems.LowestFreeLane | packages/pybrid-computing/src/pybrid/lucipy/circuits.py:312-330 | lanes 24-31 are taken only once lanes 0-23 are in general use |
| CircuitConnections.GeneralConnection | packages/pybrid-computing/src/pybrid/lucipy/circuits.py:312-354 | a standard connection takes the first free lanes and adds to one input exactly what each of those lanes carries of its weight, for every signal; where every lane carries the source's own signal that is the whole weight; without enough lanes it raises and leaves everything as it was |
| CircuitConnections.PlainIsExact | packages/pybrid-computing/src/pybrid/lucipy/helpers.py:43-50 | for each source and lane: the lane carries the source's own signal exactly unless the giver is on, the source is the identity on output 14 or 15 and the lane is 16-31 or 0-15 |
| CircuitConnections.GeneralConnectionExact | packages/pybrid-computing/src/pybrid/lucipy/helpers.py:43-50 | the weight arrives at the source's own entry if and only if no lane taken is a shadowed one |
| CircuitConnections.ShadowedIdentity | packages/pybrid-computing/src/pybrid/lucipy/helpers.py:43-50 | with the giver on, an identity tapped at output 15 that lands on lanes 0-15 gives its weight to the constant instead |
| CircuitConnections.ShadowedExample | packages/pybrid-computing/src/pybrid/lucipy/helpers.py:43-50 | a circuit of one constant and one such identity: the whole weight is on the constant, none on the identity |
| CircuitConnections.AclConnection | packages/pybrid-computing/src/pybrid/lucipy/circuits.py:288-310 | connections to or from external ports change no entry of the general map and keep the discipline |
| CircuitConnections.PortOpened | packages/pybrid-computing/src/pybrid/lucipy/circuits.py:189-221 | opening a port whose lane is not in general use changes no entry of the map and keeps the discipline |
| CircuitRuns.CircuitRealisesRequests | packages/pybrid-computing/src/pybrid/lucipy/circuits.py:95-354 | after any sequence of allocations and connections, whatever shadows what, the map realised by the U, C and I blocks is, for every signal and input, the sum over the accepted connections of what their lanes carry; where no connection was given a shadowed lane it is the sum of the requested weights; no lane serves a general signal and a port, coefficients lie in [-1, 1] and shared lanes come last |
| CircuitElements.PairsRealised | packages/pybrid-computing/src/pybrid/lucipy/circuits.py:95-354 | told by elements: after any run without shadowed lanes the blocks pass from each source to each target exactly the weights asked for between those two |
| CircuitElements.InputNumbers | packages/pybrid-computing/src/pybrid/lucipy/elements.py:24-60 | integrators take inputs 0-7, the a- and b-input of multiplier m inputs 8 + 2m and 9 + 2m |
| CircuitElements.InputsDistinct | packages/pybrid-computing/src/pybrid/lucipy/elements.py:24-60 | two targets never share an input |
| CircuitElements.InputsOnto | packages/pybrid-computing/src/pybrid/lucipy/elements.py:24-60 | every input has a target |
| CircuitElements.OutputNumbers | packages/pybrid-computing/src/pybrid/lucipy/elements.py:8-17 | integrators drive outputs 0-7, multipliers 8-11, identities 12-15; the giver is on 15 for lanes 0-15 and on 14 for lanes 16-31 |
| CircuitElements.SourcesDistinct | packages/pybrid-computing/src/pybrid/lucipy/elements.py:8-17 | two sources share a signal only if both are constants |
| CircuitElements.LanesNeededLeast | packages/pybrid-computing/src/pybrid/lucipy/circuits.py:312-316 | the least number of lanes that can carry a weight, eight units on each |
| CircuitElements.AvailableExactly | packages/pybrid-computing/src/pybrid/lucipy/circuits.py:315-324 | a lane can be given out exactly if it is in no general use and no port is open on it |
| CircuitElements.AvailableIncreases | packages/pybrid-computing/src/pybrid/lucipy/circuits.py:315-324 | lower lanes come first |
| CircuitElements.LaneConfigured | packages/pybrid-computing/src/pybrid/lucipy/circuits.py:332-354 | what one lane is set to: weights of at most one as they are, larger ones as an eighth with the lane upscaled |
| CircuitElements.InputConnected | packages/pybrid-computing/src/pybrid/lucipy/circuits.py:288-295 | a connection from input port p puts lane 24 + p into its target's sum, unless that lane feeds another input |
| CircuitElements.OutputConnected | packages/pybrid-computing/src/pybrid/lucipy/circuits.py:297-310 | a connection to output port p drives lane 24 + p with its weight; refused above one, and where the lane has another input |
| CircuitElements.InputOpened | packages/pybrid-computing/src/pybrid/lucipy/circuits.py:175-197 | exactly when a requested input port is opened |
| CircuitElements.OutputOpened | packages/pybrid-computing/src/pybrid/lucipy/circuits.py:199-221 | exactly when a requested output port is opened |
| CircuitElements.FirstPort | packages/pybrid-computing/src/pybrid/lucipy/circuits.py:183-186 | without a request the first closed port |
| CircuitElements.FirstElement | packages/pybrid-computing/src/pybrid/lucipy/circuits.py:95-135 | integrators and multipliers are handed out in order, eight and four of them |
| CircuitRuns.RunEffect | packages/pybrid-computing/src/pybrid/lucipy/circuits.py:95-354 | the same from any state that keeps the discipline |
| CircuitRuns.CarriedIsRequested | packages/pybrid-computing/src/pybrid/lucipy/circuits.py:312-354 | what arrives is what was requested when no connection was given a shadowed lane |
| CircuitRuns.MarkedLaneFree | packages/pybrid-computing/src/pybrid/lucipy/circuits.py:189-221 | opening a port, also a negative one, never marks a lane in general use |
| CircuitLimits.ConstantCarriesItsValue | packages/pybrid-computing/src/pybrid/lucipy/circuits.py:144-173 | after any run a constant's connections carry the value it was created with if and only if no later constant was given another value |
| CircuitLimits.SecondConstantWins | packages/pybrid-computing/src/pybrid/lucipy/circuits.py:170-173 | the second constant replaces the value of the first |
| CircuitLimits.PortConnectionDiscipline | packages/pybrid-computing/src/pybrid/lucipy/circuits.py:288-310 | a connection from an accepted port keeps the lane discipline if and only if the lane it uses is not free: always for ports from 0 up, and for a negative port only where the lane is already in general use |
| CircuitLimits.OutputConnectionDiscipline | packages/pybrid-computing/src/pybrid/lucipy/circuits.py:288-310 | the same for connections to an accepted output port |
| CircuitLimits.NegativePortSharesLane | packages/pybrid-computing/src/pybrid/lucipy/circuits.py:175-354 | a run in which port -1 is opened and connected over lane 23, which stays free; a following general connection is given lane 23 too: to another input it raises only after the U- and C-blocks were written, to the same input it succeeds |
| SampleBlob.Build | packages/pybrid-computing-native/native/pybrid/channel/sample_decoding_data_channel.cpp:18-57 | the buffer filled at moving offsets is the sectioned layout, byte for byte |
| SampleBlob.AlignmentsAgree | packages/pybrid-computing-native/native/pybrid/channel/sample_decoding_data_channel.cpp:11-14 | the builder's and the parser's alignment formulas agree on every offset, and give the least aligned one |
| SampleBlob.BlobRoundTrip | packages/pybrid-computing/src/pybrid/redac/session.py:738-784 | for every path, channel count and optional probe section the parser reads back exactly what the builder laid out, and ignores blobs without samples |
| SampleBlob.HeaderLayout | packages/pybrid-computing-native/native/pybrid/channel/sample_decoding_data_channel.cpp:18-40 | the six header words at their byte offsets |
| SampleBlob.SectionLayout | packages/pybrid-computing-native/native/pybrid/channel/sample_decoding_data_channel.cpp:40-57 | the path at byte 24, the probes behind it, the samples from the next multiple of eight on |
| SampleBlob.LittleEndian | packages/pybrid-computing-native/native/pybrid/channel/sample_decoding_data_channel.cpp:18-40 | words are little-endian on both sides |
| SampleQueue.LockFreeBuffer.TryPut | packages/pybrid-computing-native/native/pybrid/lockfree_buffer.h:63-82 | an item is appended exactly if it fits a slot; both counters stay exact |
| SampleQueue.LockFreeBuffer.Get | packages/pybrid-computing-native/native/pybrid/lockfree_buffer.h:95-117 | the front item is returned, or put at the back if the caller's buffer is too small; both counters stay exact |
| SampleQueue.LockFreeBuffer.Drain | packages/pybrid-computing/src/pybrid/redac/session.py:76-85 | a drain returns the leading items up to the first empty or oversized one and leaves the rest |
| SampleQueue.DrainsEverything | packages/pybrid-computing/src/pybrid/redac/session.py:699-710 | a drain empties the queue exactly if every item is non-empty and fits the scratch buffer |
| SampleQueue.OversizeHides | packages/pybrid-computing-native/native/pybrid/lockfree_buffer.h:102-107 | one item too large for the scratch buffer hides everything behind it from that drain |
| SampleDecoder.DecodeDaqData | packages/pybrid-computing-native/native/pybrid/channel/sample_decoding_data_channel.cpp:188-247 | for every message whose elements lie in its data the nested loops compute the decoded columns, with the four early returns and the exception for missing channel entries |
| SampleDecoder.ConvertAll | packages/pybrid-computing-native/native/pybrid/channel/sample_decoding_data_channel.cpp:232-244 | the outer loop fills the result column by column |
| SampleDecoder.ConvertColumn | packages/pybrid-computing-native/native/pybrid/channel/sample_decoding_data_channel.cpp:233-244 | the inner loop converts one column, skipping the padding channels of the input |
| SampleDecoder.DecodedAt | packages/pybrid-computing-native/native/pybrid/channel/sample_decoding_data_channel.cpp:226-246 | the sample of channel position i at time s is what the data hold at element s times stride plus i, read, times the channel's gain plus its offset |
| SampleDecoder.NotDecoded | packages/pybrid-computing-native/native/pybrid/channel/sample_decoding_data_channel.cpp:188-225 | nothing comes of a message without values, data, reader or enough bytes, exactly; an exception of one without channel entries |
| SampleDecoder.ElementSizes | packages/pybrid-computing-native/native/pybrid/channel/sample_decoding_data_channel.cpp:145-186 | which types have a reader, and how many bytes each element takes |
| SampleDecoder.BlobContent | packages/pybrid-computing-native/native/pybrid/channel/sample_decoding_data_channel.cpp:92-140 | what goes into the blob: path, samples and probes, mark 0 for operation samples and 1 for final values, chunk 0 where a message names no run |
| SampleDecoder.HandleDataMessage | packages/pybrid-computing-native/native/pybrid/channel/sample_decoding_data_channel.cpp:92-140 | each message with entity and data puts exactly its blob on the queue, or leaves by an exception |
| SampleSender.SendCarrierSamples | packages/pybrid-computing/src/pybrid/mock/handler/start_run.py:367-399 | the generated samples, or the first half of them under error injection, go out in numbered chunks of up to a hundred columns |
| SampleSender.ChunkSizes | packages/pybrid-computing/src/pybrid/mock/handler/start_run.py:379-399 | one message for every hundred samples begun, numbered from zero, a hundred samples in each but the last |
| SampleSender.KeptHalf | packages/pybrid-computing/src/pybrid/mock/handler/start_run.py:367-371 | error injection keeps the first half, rounded down |
| SampleSender.MockFeedIs | packages/pybrid-computing/src/pybrid/mock/handler/start_run.py:387-397 | 32-bit floats under the carrier's address, channel i on probe i, unscaled |
| SampleSender.FlattenColumns | packages/pybrid-computing/src/pybrid/mock/handler/start_run.py:388 | the chunk is flattened column by column |
| SampleSender.FlatAt | packages/pybrid-computing/src/pybrid/mock/handler/start_run.py:385-392 | element (channel, time) of a chunk lands at its column-major offset |
| SampleRecords.MessageDelivered | packages/pybrid-computing-native/native/pybrid/channel/sample_decoding_data_channel.cpp:92-247 | whatever its position, size, stride, gains, offsets and probes, a chunk's message becomes a record that holds the sender's chunk with every sample converted |
| SampleAssembly.AssembleRunData | packages/pybrid-computing/src/pybrid/redac/session.py:810-855 | the loops build the probe-indexed list of the assembly function, or raise exactly when it fails |
| SampleAssembly.GroupRecords | packages/pybrid-computing/src/pybrid/redac/session.py:813-815 | groups by path and type, in order of first appearance |
| SampleAssembly.KeysGrow | packages/pybrid-computing/src/pybrid/redac/session.py:813-815 | later records only add groups at the end |
| SampleAssembly.GroupFails | packages/pybrid-computing/src/pybrid/redac/session.py:824-838 | a group raises exactly if its first chunk names no probes or some chunk has too few rows |
| SampleAssembly.ProbesStrung | packages/pybrid-computing/src/pybrid/redac/session.py:837-838 | two channels on one probe: the samples of the second stand behind those of the first |
| SampleAssembly.ExtendProbes | packages/pybrid-computing/src/pybrid/redac/session.py:832-838 | the channel loop appends one row per probe of the first sorted chunk |
| SampleAssembly.ExtendProbe | packages/pybrid-computing/src/pybrid/redac/session.py:837-838 | the chunk loop appends one channel's rows in order |
| SampleDelivery.SortedGroup | packages/pybrid-computing/src/pybrid/redac/session.py:820-822 | sorting a group gives the same list for every order in which its chunks arrive |
| SampleDelivery.FeedsDelivered | packages/pybrid-computing/src/pybrid/redac/session.py:817-838 | the dictionary holds every channel's signal under its probe if and only if no two channels share a probe |
| SampleDelivery.SharedProbe | packages/pybrid-computing/src/pybrid/redac/session.py:837-838 | two channels on one probe get their samples strung together: neither signal arrives alone |
| SamplePipeline.CompleteBufferDelivers | packages/pybrid-computing/src/pybrid/redac/session.py:797-855 | any arrival order of all carriers' chunks, mixed with final values, assembles, and delivers every signal exactly if probes are distinct |
| SampleStreams.PlayHolds | packages/pybrid-computing/src/pybrid/redac/session.py:679-735 | in every interleaving of arriving messages and gets, over any number of connections' queues, the buffer and the queues together hold exactly the records of what has arrived |
| SampleStreams.PipelineDelivers | packages/pybrid-computing/src/pybrid/redac/session.py:679-861 | end to end: for any sample matrices, any distribution of their complete set of chunks over connections, any arrival order and any interleaving of arrivals with the session's drains, what is assembled under channel i's probe at time j is matrix element (i, j), read, times the channel's gain plus its offset - if and only if no probe is shared - and nothing elsewhere |
| SampleStreams.MockServerProbes | packages/pybrid-computing/src/pybrid/mock/handler/start_run.py:211-220 | the mock server's probe numbers are distinct exactly while it stands for at most one carrier |
| StableSort.SortStable | packages/pybrid-computing/src/pybrid/redac/session.py:820 | sorting keeps the order of equal keys |
| StableSort.SortSorts | packages/pybrid-computing/src/pybrid/redac/session.py:820 | sorting gives an ordered permutation |
| ControlChannel.Channel.Emplace | packages/pybrid-computing-native/native/pybrid/channel/control_channel.cpp:242-248 | a new promise is registered under its id unless the id is already there |
| ControlChannel.Channel.Erase | packages/pybrid-computing-native/native/pybrid/channel/control_channel.cpp:253-255 | the entry under an id is removed, whoever made it |
| ControlChannel.Channel.ProcessMessage | packages/pybrid-computing-native/native/pybrid/channel/control_channel.cpp:452-474 | a message resolves and removes the entry under its id, or goes to the callbacks |
| ControlChannel.Channel.FailPending | packages/pybrid-computing-native/native/pybrid/channel/control_channel.cpp:80-89 | the loop breaks every pending promise once and clears the map |
| ControlChannel.SendAndRecv | packages/pybrid-computing-native/native/pybrid/channel/control_channel.cpp:223-313 | with an ideal clock: which attempt is the last and why - reply, timeout, failed send, broken promise, a cancel within the wait, or the cap - and the elapsed time in each case; at most max(1, ceil(W/2)) attempts for cap W, reached by a device that is always busy and answers at once; elapsed time within W plus one reply timeout, strictly so where both are positive |
| ControlChannel.PauseMeans | packages/pybrid-computing-native/native/pybrid/channel/control_channel.cpp:283-290 | the wait behind a busy reply ends after two seconds or at the cap, whichever comes first |
| ControlChannel.MaxAttemptsMeans | packages/pybrid-computing-native/native/pybrid/channel/control_channel.cpp:240-313 | the bound is the least number of attempts, two seconds apart, that reach the cap |
| ControlChannel.SectionsExactly | packages/pybrid-computing-native/native/pybrid/channel/control_channel.cpp:80-89 | what each critical section does to entries and promises, and what it leaves alone |
| ControlProtocol.EveryRunSafe | packages/pybrid-computing-native/native/pybrid/channel/control_channel.cpp:240-272 | in every interleaving each request is resolved at most once, a call returns only a reply with its latest id, and no entry belongs to a call that has ended |
| ControlProtocol.CallSteps | packages/pybrid-computing-native/native/pybrid/channel/control_channel.cpp:250-281 | what a call does next: after its send, on timeout, on failure, with a ready future, after a busy reply |
| ControlProtocol.ReturnedWasReceived | packages/pybrid-computing-native/native/pybrid/channel/control_channel.cpp:268-272 | a returned message was received on the channel |
| ControlProtocol.EmplaceKeepsRegistered | packages/pybrid-computing-native/native/pybrid/channel/control_channel.cpp:245-248 | a new attempt keeps every attempt reachable exactly if its id is not in the map |
| ControlProtocol.DistinctIdsReachable | packages/pybrid-computing-native/native/pybrid/channel/control_channel.cpp:240-272 | while attempts in flight use distinct ids every unresolved one stays reachable |
| ControlProtocol.ReplyReachesItsCall | packages/pybrid-computing-native/native/pybrid/channel/control_channel.cpp:452-474 | with distinct ids a reply resolves exactly the promise of the call that waits for it, which then returns it or backs off |
| ControlProtocol.FailAllReleases | packages/pybrid-computing-native/native/pybrid/channel/control_channel.cpp:399-408 | with distinct ids a stop, reconnect or disconnect leaves no attempt unresolved |
| ControlProtocol.SharedIdLosesReply | packages/pybrid-computing-native/native/pybrid/channel/control_channel.cpp:252-266 | with one id for two calls the second one's timeout removes the first one's entry and the reply reaches nobody |
| ProxySessions.SessionQueue.Admit | packages/pybrid-computing-native/native/pybrid/proxy/proxy_server.cpp:218-232 | the object is in the state of the admission step; a client is queued exactly while queued plus active stay below the maximum |
| ProxySessions.SessionQueue.TakeSnapshot | packages/pybrid-computing-native/native/pybrid/proxy/proxy_server.cpp:257-261 | the object is in the state of the snapshot step, whose list is the deque |
| ProxySessions.SessionQueue.SweepDropped | packages/pybrid-computing-native/native/pybrid/proxy/proxy_server.cpp:323-331 | the loop leaves the object in the state of the sweep step: the dropped sessions removed, if still there |
| ProxySessions.SessionQueue.PromoteNext | packages/pybrid-computing-native/native/pybrid/proxy/proxy_server.cpp:335-349 | the loop leaves the object in the state of the promotion step: disconnected fronts dropped, the front active if all backends are healthy |
| ProxySessions.SessionQueue.Deactivate | packages/pybrid-computing-native/native/pybrid/proxy/proxy_server.cpp:398-402 | the object is in the state of the step that ends a session |
| ProxyTheorems.EveryRunOrdered | packages/pybrid-computing-native/native/pybrid/proxy/proxy_server.cpp:198-404 | in every interleaving sessions become active one at a time, each after the one before has ended, in order of admission, and queued plus active never exceed the maximum |
| ProxyTheorems.PromotedStays | packages/pybrid-computing-native/native/pybrid/proxy/proxy_server.cpp:256-332 | no step, of a stale poll or otherwise, requeues a promoted session, and only its own end deactivates it |
| ProxySteps.NobodyForgotten | packages/pybrid-computing-native/native/pybrid/proxy/proxy_server.cpp:198-404 | in every interleaving each admitted session is still queued, has been made active, has disconnected, or was found closed by a poll |
| ProxySteps.LeavesQueue | packages/pybrid-computing-native/native/pybrid/proxy/proxy_server.cpp:323-349 | a session leaves the queue only by promotion, as disconnected in front of one, or on the drop list |
| ProxySteps.ListedWasFound | packages/pybrid-computing-native/native/pybrid/proxy/proxy_server.cpp:267-282 | who is on the drop list was found disconnected or with its wire closed |
| ProxySteps.Admission | packages/pybrid-computing-native/native/pybrid/proxy/proxy_server.cpp:218-232 | queued at the back exactly below the maximum |
| ProxySteps.Promotion | packages/pybrid-computing-native/native/pybrid/proxy/proxy_server.cpp:335-349 | disconnected fronts go, the first connected session becomes active if all backends are healthy, everyone behind it stays |
| ProxySteps.NobodyToPromote | packages/pybrid-computing-native/native/pybrid/proxy/proxy_server.cpp:338-342 | where all have gone the queue is emptied |
| ProxySteps.Visiting | packages/pybrid-computing-native/native/pybrid/proxy/proxy_server.cpp:267-296 | what a visit does: take the message in the slot or on the wire, mark for dropping, or pass on |
| ProxySteps.Handling | packages/pybrid-computing-native/native/pybrid/proxy/proxy_server.cpp:297-319 | a message is put back exactly if it is no authentication and a backend is down; otherwise it is answered |
| ProxySteps.Serving | packages/pybrid-computing-native/native/pybrid/proxy/proxy_server.cpp:406-413 | the session thread handles the slot's message first, then those from the wire |
| ProxySteps.Outside | packages/pybrid-computing-native/native/pybrid/proxy/proxy_server.cpp:256-349 | clients disconnect for good, backends come and go |
| ProxyTheorems.SweepRemoves | packages/pybrid-computing-native/native/pybrid/proxy/proxy_server.cpp:323-331 | a poll removes exactly the queued sessions it found closed |
| ProxyTheorems.EveryMessageKept | packages/pybrid-computing-native/native/pybrid/proxy/proxy_server.cpp:256-332 | in every interleaving each message read from a client is handled exactly once or waits in exactly one place |
| ProxyTheorems.StashLoses | packages/pybrid-computing-native/native/pybrid/proxy/proxy_server.cpp:301-304 | a message the poll puts back is lost exactly if meanwhile its session has left the queue and the session thread is past its one look at the slot |
| ProxyTheorems.StrandedForever | packages/pybrid-computing-native/native/pybrid/proxy/proxy_server.cpp:406-413 | such a message is never handled in any continuation |
| ProxyTheorems.StalePollLosesMessage | packages/pybrid-computing-native/native/pybrid/proxy/proxy_session.h:41-44 | a run in which a stale poll loses a client's first message |
| ProxyTheorems.PollTakesFromActive | packages/pybrid-computing-native/native/pybrid/proxy/proxy_server.cpp:267-296 | exactly when the poll takes a message of the active session: it is next in the snapshot, connected and has something to read; it was then promoted after the snapshot was taken |
| ProxyTheorems.RunPolledInv | packages/pybrid-computing-native/native/pybrid/proxy/proxy_server.cpp:301-319 | what the poll answered was handled, each message once |
| ProxyTheorems.StalePollAnswersActive | packages/pybrid-computing-native/native/pybrid/proxy/proxy_server.cpp:267-319 | a run in which a stale poll answers a message that the active session sent |
| ProxyModuleSort.SortModuleByLocation | packages/pybrid-computing-native/native/pybrid/proxy/proxy_message_handlers.cpp:22-57 | the items are permuted in place, through index vectors, into the sorted module |
| ProxyModuleSort.SortedModuleProperties | packages/pybrid-computing-native/native/pybrid/proxy/proxy_message_handlers.cpp:20-57 | the result is a permutation; other items keep their positions; specifications are ordered by their stack and within a stack by their carrier, with unknown locations last; equal locations keep their order |
| ProxyModuleSort.RankIsOrder | packages/pybrid-computing-native/native/pybrid/proxy/proxy_message_handlers.cpp:35-42 | comparing pairs of 32-bit numbers is comparing one number |
| StableSort.SortMapped | packages/pybrid-computing-native/native/pybrid/proxy/proxy_message_handlers.cpp:35-50 | sorting indices by what they point at, and then copying out, is sorting what they point at |
| ProxyModuleSort.WriteBack | packages/pybrid-computing-native/native/pybrid/proxy/proxy_message_handlers.cpp:51-56 | sorted specifications are written to the original specification positions |
| ProxyRouting.SegmentOfPath | packages/pybrid-computing-native/native/pybrid/proxy/proxy_backend_handler.cpp:331-339 | the address found is what stands before the first slash, after an optional leading one; it is empty only behind a leading slash |
| ProxyRouting.PathReachesOwner | packages/pybrid-computing-native/native/pybrid/proxy/proxy_backend_handler.cpp:331-345 | an item whose path names an address, with or without a leading slash, concerns exactly the last backend that announced it |
| ProxyRouting.PartConcat | packages/pybrid-computing-native/native/pybrid/proxy/proxy_message_handlers.cpp:148-173 | modules are split item by item, in order |
| ProxyRouting.UnroutableConcat | packages/pybrid-computing-native/native/pybrid/proxy/proxy_message_handlers.cpp:165-173 | so are their unroutable paths |
| ProxyRouting.SplitOne | packages/pybrid-computing-native/native/pybrid/proxy/proxy_message_handlers.cpp:148-173 | one item is in the part of whom it concerns, and listed if no backend announced its address |
| ProxyRouting.BuildTable | packages/pybrid-computing-native/native/pybrid/proxy/proxy_backend_handler.cpp:209-217 | each address belongs to the last backend that announced it |
| ProxyRouting.SplitModule | packages/pybrid-computing-native/native/pybrid/proxy/proxy_message_handlers.cpp:148-173 | each backend's module is the original list filtered to pathless items and those it owns, in order; unroutable paths are listed in order |
| ProxyRouting.HandleConfig | packages/pybrid-computing-native/native/pybrid/proxy/proxy_message_handlers.cpp:127-208 | with any unroutable path nothing is sent; otherwise exactly the connected backends with a part are sent it; the reply is positive exactly if all of them are connected and accept |
| ProxyRouting.EveryItemRouted | packages/pybrid-computing-native/native/pybrid/proxy/proxy_message_handlers.cpp:148-173 | every pathless item goes to all backends and every other item to exactly one |
| ProxyRouting.PositionAt | packages/pybrid-computing-native/native/pybrid/proxy/proxy_message_handlers.cpp:148-173 | a backend's part is the items at its positions |
| ProxyRouting.PositionsIncrease | packages/pybrid-computing-native/native/pybrid/proxy/proxy_message_handlers.cpp:148-173 | in the order of the module |
| ProxyRouting.PositionOf | packages/pybrid-computing-native/native/pybrid/proxy/proxy_message_handlers.cpp:148-173 | and they are exactly the items that concern it |
| ProxyRouting.UnroutableRejects | packages/pybrid-computing-native/native/pybrid/proxy/proxy_message_handlers.cpp:165-183 | one item whose path nobody owns rejects the module |
| ProxyRouting.SentWhole | packages/pybrid-computing-native/native/pybrid/proxy/proxy_backend_handler.cpp:362-368 | a routable module is sent whole exactly if every backend it concerns is connected |
| ProxyRouting.PartialConfiguration | packages/pybrid-computing-native/native/pybrid/proxy/proxy_backend_handler.cpp:362-368 | two backends, one connected: a routable module is sent to the connected one only |
| RunStates.DistributedRunState.Track | packages/pybrid-computing/src/pybrid/redac/controller.py:42-47 | records the state, refuses an unknown path, and updates the run |
| RunStates.DistributedRunState.UpdateRunState | packages/pybrid-computing/src/pybrid/redac/controller.py:49-77 | error if any carrier reported one, otherwise the furthest state all carriers reported, otherwise unchanged |
| RunStates.StateOfEventSet | packages/pybrid-computing/src/pybrid/redac/controller.py:42-77 | after any sequence of calls the run's state is a function of the set of events |
| RunStates.FurthestReported | packages/pybrid-computing/src/pybrid/redac/controller.py:49-77 | without errors the run is in the furthest of new, queued, take-off, initial condition, operation, operation end and done that every carrier has reported; with none it stays as it was |
| RunStates.AllDone | packages/pybrid-computing/src/pybrid/redac/controller.py:62-77 | a run is done as soon as every carrier has reported so |
| RunStates.OrderIrrelevant | packages/pybrid-computing/src/pybrid/redac/controller.py:42-77 | order and repetition of the calls do not matter |
| RunStates.ErrorReported | packages/pybrid-computing/src/pybrid/redac/controller.py:57-60 | the run is in error exactly if some carrier reported an error |
| RunStates.NeverBackwards | packages/pybrid-computing/src/pybrid/redac/controller.py:49-77 | a run that starts out new never moves backwards |
| RunStates.BackwardsOnlyFromStart | packages/pybrid-computing/src/pybrid/redac/controller.py:72-77 | for any initial state: a call moves the state backwards exactly if the reports first amount to a state and that state lies before the initial one |
| RunStates.QueuedRunSetBack | packages/pybrid-computing/src/pybrid/redac/controller.py:62-77 | a run handed over as queued is set back to new by the first reports |

## Left out

- Sockets, threads, condition variables, UDP negotiation, reconnect timing: only the steps they trigger appear.
- Protobuf serialisation: messages are datatypes.
- Command line, bindings, detection, plotting, reports: wrappers and user interface.
- IEEE rounding: weights, gains and offsets are reals, sample values opaque cells.
- Lock-free queue internals and memory ordering: each queue operation is one atomic step.
- The assembly of final values from end-of-run messages, the sample listeners, the reordering warning: they do not touch the run's data.
- Malformed entity paths in a sample blob: decoding and parsing of the path string are assumed to succeed.
- TcpTransport.Transport.TakeMessage: the receive queue never refuses a message, because the queue used is unbounded and its entries are large enough; the counter of dropped messages stays zero.
- SampleDecoder.DecodeDaqData: a channel list that makes the original read past the end of the data is excluded, because what it then reads is undefined; byte counts are unbounded, because only a chunk of 2^61 bytes or more would wrap the 64-bit product.
- SampleDecoder.HandleDataMessage: the same exclusion.
- SampleSender.SendCarrierSamples: the samples are given, because generating sine waves only produces one matrix among all.
- RoutingBlocks.Network.AddBackplane: requires a block that is not registered under another partition, because the two would alias each other's tables; no caller does that.
- RoutingUnregistered.RouteThenTraceExact: on tables whose blocks beyond the source hold what no route puts there only the sufficient half, RouteThenTrace, is stated (ReachedByAccident).
- CircuitObject.Circuit.ConnectElements: the warnings about shadowed identities and the type errors for arguments that are no elements are not modelled.
- CircuitRuns.CircuitRealisesRequests: connections name elements the circuit may have handed out and ports from 0 up as documented; PortConnectionDiscipline and OutputConnectionDiscipline say exactly when negative ones keep the discipline.
- Integrator initial values and speeds, probes and converter channels in the circuit compiler: they do not take part in the lane map.
- ControlChannel.SendAndRecv: real clocks and concurrent callers sharing the cancel flag are not modelled, because the header itself gives them no meaning.
- Pings on the control channel: one slot without correlation.
- Backend health transitions and update commits in the proxy: health is an environment step.
- Authentication and the answers a queued client gets: a message answered by the poll counts as handled.
- Paths added to a run-state tracker after tracking has begun: no caller does that.
- `OTAUpdater` in C++: unfinished in the repository; the Python loader is modelled.
