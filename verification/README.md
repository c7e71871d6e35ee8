# Verification of the ptun core

ptun connects machines behind NATs into one virtual network. Nodes log in at a hub over framed
transports, ask the hub for a punch with another node, get a traversal plan each, open a hole through
both NATs and then forward packets between their virtual interfaces. This project models that core in
Dafny and proves what it promises, for all inputs and all runs. Where the code does less than its parts
suggest, the exact condition under which it works is proved instead.

`dafny verify dfyconfig.toml` checks everything. The main results, by module:

- **Frames, Reader, Segments** (`pkg/proto/packet.go`). A frame is one write on the connection exactly
  when it fits the writer's buffer (`OneWriteIffFits`). So writers whose writes interleave in any order
  never tear a frame as long as every frame fits (`WritersNeverTear`); 8184 bytes is enough for every
  payload the code accepts, and for any smaller buffer there are a second writer and a schedule that tear
  a frame (`SmallerBufferTears`). On the receiving side `UnpackFrom` does not repeat a short read. Over
  datagrams the 4096-byte reader decodes exactly the frames that fit it and skips stray probes
  (`DatagramResync`); a datagram is harmless to its successors if and only if it does not end in a bare
  header (`IsolatedIffNotDangling`). Over a stream, frames sent are frames decoded if and only if every
  socket read ends at the start of a frame or right behind a header (`StreamExactlyAtJoints`), and for
  segments of up to 4096 bytes if and only if every segment does (`ShortSegmentsExactlyAtJoints`).
- **Transports, Queues** (`pkg/proto/transport.go`). Classes over recycled arrays refine plain queues of
  byte strings: no buffer is ever in two places, and a queued body never changes before its release. This
  holds for any number of transports on one pool, with their loops, receivers, dispatchers and closings
  interleaved in any order (`Drive`). Each queue is the in-order subsequence of the frames with its tag
  (`QueuesCarryTheirFrames`), all of it can always be received (`EverythingCanBeReceived`), and a raw
  packet is handed over whole or, if it does not fit, dropped.
- **Keepalive** (`pkg/proto/transport.go`). The counter is five minus the silent rounds, so a watcher
  closes only after six of them, and a silent peer can always be disconnected
  (`SilentPeerIsDisconnected`); `SetKeepalive(0)` does nothing, because the interval it compares with is
  never assigned.
- **Routing, Bridge, Tunnel** (`pkg/bridge`, `pkg/network/tools.go`). A packet goes to exactly the peers
  that have a network whose prefix its destination shares, bit by bit, or to all if it is broadcast or
  multicast (`RoutedIffMeant`). The tunnel between two bridges carries, byte for byte and in order,
  exactly the packets meant for the peer that are at most 4092 bytes long, down to what the second bridge
  writes to its interface (`ReceiveAll`), and all of them can get there (`EverythingCanCross`). The
  writing side accepts up to 8180 bytes; longer packets than 4092 are lost without an error on a datagram
  connection (`LongPacketIsLost`).
- **Hub, HubCompletion, HubDelivery, HubWrapAround** (`pkg/hub`, with the message layer of `pkg/proto`). A
  state machine with any number of nodes, sessions and concurrent punch handlers that share one 32-bit id
  counter. In every run in which no reply comes 2^32 draws late, replies reach the handler that asked,
  each completed handler has sent two responses that mirror each other (`PunchProtocol`), and the nodes
  get them in order (`ResponsesArriveInOrder`). Handlers can complete: whatever has happened, two nodes
  can log in and be introduced (`AnyTwoCanBeIntroduced`), and a waiting handler can get its answer
  (`WaitingCanComplete`). A match is right if and only if fewer than 2^32 draws lie between the two
  (`MatchedIffWithinIdSpace`), and a run in which a later reply reaches the wrong handler exists
  (`LateReplyReachesWrongHandler`).
- **Registry** (`pkg/hub/hub.go`). The session table is sound at every moment of exactly the runs in which
  nothing is stored over, or deleted from under, an open session (`RunsAreSoundIffHarmless`); atomic saves
  and removes are such runs, interleaved ones are not. Removal is by name, so a stale handler closes its
  successor.
- **Sampling, NatPlan, MakeHole, HolePunch, NodeRuns** (`pkg/nat`). Plans are complementary; the spraying side of a
  plan, or both if both nodes are hard, gets 1024 targets on distinct ports; `MakeHole` refines a
  straight-line program, its work is bounded and its success is a datagram one of its own sockets read;
  `Traverse` chains planning, opening sockets and punching. Two nodes behind easy NATs, over a network
  that delays and reorders datagrams but loses none, and with waits that do not time out, both succeed
  with each other's mapped address if and only if the server's first datagram leaves before the client's
  arrives at the server's NAT (`BothSucceedIffOpenedInTime`). That the server sends first is enough for it
  (`ServerFirstSuffices`); if the client sends first, both outcomes occur. What the nodes of such a run do
  is what `MakeHole` does (`NodesRunMakeHole`).
- **Punching**. The plans a completed handler of the hub has sent are the plans hole punching starts from
  (`HandlersLaunchThePunch`), so the condition above decides whether the nodes it introduced meet
  (`PunchedNodesMeet`).
- **Stun** (`pkg/nat/service_stun.go`). Against any NAT, the mapping and filter tests on a socket of their
  own never report a stronger dependence than there is, and name its class exactly when it tells the
  addresses of the tests apart. Run on one socket, as `AnalyzeStunBehavior` does, the mapping tests prime
  the filter: the exact NATs that are then misreported are given, with one of them as an example. The code
  means to detect the absence of a NAT, but it binds to the unspecified address and never does.
- **Iptables** (`pkg/device/rule.go`). Whatever calls fail, the chain is the original rules in their order
  plus one copy of each managed rule, and packets are masqueraded accordingly (`MasqueradedIff`). An
  update toggles: a destination already managed loses its rule.
- **Ipv6** (`pkg/network/tools.go`). Skipping extension headers and building them are inverse to each
  other; an authentication header is stepped over right only if its length field is 0.

Bodies that change objects are classes and methods, proved against functions on values; what is promised
is then proved about the functions. Goroutines that interleave are state machines whose steps are the
points between which the code can be interrupted. Random numbers, the outcome of system calls, timeouts
and what arrives from the network are parameters or free choices.

## Model

| member | source | states |
|---|---|---|
| Frames.Encode | pkg/proto/packet.go:84-103 | A frame's bytes are its tag and length, both readable as big-endian 16-bit numbers, and its payload |
| Frames.FullReadInvertsWire | pkg/proto/packet.go:67-153 | Decoding with full reads inverts sending, for any sequence of frames |
| Frames.WireInjective | pkg/proto/packet.go:84-103 | Different frame sequences have different bytes |
| Frames.WriteThrough | pkg/proto/packet.go:89-102 | Buffering only delays bytes: what is passed on and what is pending are what was pending and written |
| Frames.OneWriteIffFits | pkg/proto/packet.go:12-15 | A frame is one write on the connection if and only if it fits the writer's buffer, so 8184 is exactly tight |
| Frames.BufferedWriter.Write | pkg/proto/packet.go:89-101 | The buffered writer over an array makes exactly the writes of `WriteThrough`; after an error it makes none |
| Frames.BufferedWriter.Flush | pkg/proto/packet.go:96-102 | A flush passes the pending bytes on as one write, or fails if the connection is broken |
| Frames.PackInto | pkg/proto/packet.go:67-103 | Payloads over 8180 bytes are refused before anything is written; any other frame is one whole write |
| Frames.SentIsMerge | pkg/proto/transport.go:33-104 | What is on a shared connection is a merge that keeps each writer's order |
| Frames.FrameWritesAreTheFrame | pkg/proto/packet.go:89-102 | Whatever the buffer's size, a frame's writes are not empty and make up the frame |
| Frames.WritersNeverTear | pkg/proto/transport.go:33-360 | If every frame fits the buffer, then however the single writes of raw, request, response, ping and pong writers interleave, full-read decoding gives every frame whole and each writer's in order |
| Frames.CapacityIsEnough | pkg/proto/packet.go:89 | The capacity in the code suffices for every frame the code accepts |
| Frames.SmallerBufferTears | pkg/proto/packet.go:89 | For any buffer too small for some frame there is a second writer with a bare frame and a schedule of the writes after which the frames do not arrive whole |
| Reader.NetRead | pkg/proto/packet.go:110-117 | A socket read returns no more than asked, what it returns and what is left are no more than there was, and every read makes progress |
| Reader.BufRead | pkg/proto/transport.go:288 | A buffered read returns at most what was asked and makes progress; it ends only when nothing is left |
| Reader.Unpack | pkg/proto/packet.go:110-153 | Every attempt that does not end the input consumes some of it, and decoded frames are within the size limit |
| Reader.DrainBuffer | pkg/proto/transport.go:288-298 | What is decoded while the buffer holds bytes depends on those bytes alone, and leaves it empty, if no bare header is left |
| Reader.DatagramIsolated | pkg/proto/transport.go:288-298 | A datagram that leaves no bare header is decoded on its own, whatever follows |
| Reader.DatagramsDecodeOneByOne | pkg/proto/transport.go:288-298 | A sequence of such datagrams decodes to what each decodes to alone |
| Reader.IsolatedIffNotDangling | pkg/proto/packet.go:114-150 | A datagram never disturbs its successors if and only if it does not end in a header that announces a body |
| Reader.EncodedDatagram | pkg/proto/packet.go:110-153 | One frame in one datagram decodes to that frame if it has at most 4096 bytes, to nothing otherwise, and disturbs nobody |
| Reader.DatagramResync | pkg/proto/transport.go:288-298 | Over datagrams that are frames or stray probes of up to 3 bytes, exactly the frames of at most 4096 bytes are decoded, in order |
| Reader.Conn.Read | pkg/proto/packet.go:114-144 | The socket fills the given part of the array and touches no other |
| Reader.BufReader.Read | pkg/proto/transport.go:288 | The reader over its 4096-byte array behaves like `BufRead`, and writes only the slice it was given |
| Segments.UnpackKeepsBytes | pkg/proto/packet.go:110-153 | On a stream a decoded frame accounts for exactly the bytes read for it |
| Segments.EveryByteAccounted | pkg/proto/transport.go:288-298 | Every byte of a stream is in a decoded frame or discarded; if none is discarded the decoded frames are the stream |
| Segments.AlignedIffDecoded | pkg/proto/packet.go:114-150 | From any reader state: the frames still on the stream are decoded if and only if every socket read ends at a joint |
| Segments.StreamExactlyAtJoints | pkg/proto/packet.go:114-150 | For frames and segments of any size: frames sent are frames decoded if and only if every socket read ends at a frame start or right behind a header |
| Segments.ShortSegmentsAreFetched | pkg/proto/transport.go:288 | Segments no longer than the reader's buffer are what the socket reads return |
| Segments.ShortSegmentsExactlyAtJoints | pkg/proto/packet.go:114-150 | For segments of at most 4096 bytes, what a sender can check: frames sent are frames decoded if and only if every segment ends at a frame start or right behind a header |
| Segments.TornHeaderLosesFrame | pkg/proto/packet.go:118-120 | A read that ends inside a header loses the frame: a concrete stream |
| Transports.Pool.Get | pkg/proto/packet.go:159-166 | A buffer from the pool is full-sized, and fresh or taken out of the pool |
| Transports.UnpackFrom | pkg/proto/packet.go:110-153 | Decoding into a pooled array yields the frame `Unpack` says; the packet's buffer is not in the pool, and no buffer appears from elsewhere |
| Transports.Channel.Send | pkg/proto/transport.go:306-329 | Queueing a packet appends its body; packets in a queue never share a buffer |
| Transports.Channel.Receive | pkg/proto/transport.go:341-345 | Receiving takes the oldest body and its buffer out of the queue |
| Transports.Transport.Deliver | pkg/proto/transport.go:305-333 | A decoded packet goes to the queue of its tag, is answered by one pong or dropped, as `Sort` says of its body |
| Transports.Transport.Decode | pkg/proto/transport.go:290 | Decoding the next packet changes no queued body, whichever buffer the pool hands out |
| Transports.Transport.ReadLoopTurn | pkg/proto/transport.go:284-335 | One turn of the read loop over recycled buffers is one `Turn` on plain queues; buffers stay separate |
| Transports.Transport.Read | pkg/proto/transport.go:341-352 | The oldest raw packet is returned whole or dropped with the too-short error; the buffer's tail and the other queues are untouched |
| Transports.Transport.Take | pkg/proto/transport.go:50-66 | A dispatcher receives the oldest body and keeps its buffer until it stops |
| Transports.Transport.ReleaseHeld | pkg/proto/packet.go:60-65 | When a dispatcher stops, all it kept returns to the pool, each buffer once, and nothing outside changes |
| Transports.Transport.Close | pkg/proto/transport.go:362-370 | Closing keeps every queued body |
| Queues.TurnKeepsWhole | pkg/proto/transport.go:284-335 | On an open transport, delivered and still undecoded bodies make up everything a queue should get |
| Queues.RunAccounts | pkg/proto/transport.go:284-370 | The bookkeeping of delivered, queued and undecoded frames holds over every interleaving |
| Queues.QueuesCarryTheirFrames | pkg/proto/transport.go:284-370 | Each queue delivers an in-order prefix of the bodies with its tag, all of them unless closed, and every ping causes one pong |
| Queues.EverythingCanBeReceived | pkg/proto/transport.go:284-370 | From every state of an open transport the loop and the receivers can go on until every raw packet, request and response the connection carries has been received once and in order, and every ping answered |
| Queues.QueuedPacketsFit | pkg/proto/packet.go:139-141 | No queued packet is longer than 8180 bytes, less than the bridge's 8192-byte buffers |
| Queues.HandedIfItFits | pkg/proto/transport.go:341-352 | In every run, with reads into buffers of any lengths, each raw packet handed over was taken by one read of the run as the oldest one queued, and was returned whole if and only if it fitted that read's buffer |
| Queues.PerformAt | pkg/proto/packet.go:155-166 | Any step of one of many transports on a shared pool, a release included, does what it does on queues of byte strings and leaves all others as they look |
| Queues.Drive | pkg/proto/packet.go:60-166 | Over any interleaving of loop turns, reads into buffers of any length, receives, releases and closings of any number of transports on one pool, each does what queues of byte strings of its own do under its own operations |
| Routing.UnknownVersionGoesNowhere | pkg/bridge/peer.go:25-37 | A packet that is neither IPv4 nor IPv6 is meant for no peer |
| Routing.DestinationIsRead | pkg/network/tools.go:64-93 | However a packet is built, its destination is read from behind 16 bytes of an IPv4 and 24 bytes of an IPv6 header |
| Routing.ContainsIffBitsAgree | pkg/bridge/peer.go:25-37 | A network contains an address if and only if they are of the same kind and agree in every bit set in the mask |
| Routing.ContainsIffCovered | pkg/bridge/peer.go:25-37 | For a network written as a prefix: if and only if they share its first bits |
| Routing.BroadcastIff | pkg/network/tools.go:41-50 | Everybody gets what goes to 224.0.0.0/4, to ff00::/8 or to an IPv4 address ending in 255, and nothing else |
| Routing.RoutedIffMeant | pkg/bridge/bridge.go:84-106 | A packet of either version, built around its destination, is meant for a peer if and only if everybody gets it or one of the peer's prefixes covers the destination |
| Bridge.OfferedIffMeant | pkg/bridge/bridge.go:84-106 | Such a packet becomes one raw frame on exactly the working links of the peers it is meant for, if it has at most 8180 bytes |
| Bridge.Bridge.HandleVethPacket | pkg/bridge/bridge.go:74-110 | A packet from the interface becomes one whole raw frame on exactly the working links whose peer it is meant for (`OfferedIffMeant` says of which packets that is), in whatever order the peers are visited |
| Bridge.Bridge.HandleVeth | pkg/bridge/bridge.go:74-110 | And so for every sequence of packets, in order |
| Bridge.Bridge.HandlePeerPacket | pkg/bridge/bridge.go:53-72 | The next raw packet of a link is written to the interface unchanged; a failed read disconnects the peer |
| Bridge.Bridge.HandlePeer | pkg/bridge/bridge.go:53-72 | Every queued packet is written whole and in order; the buffer is never too short |
| Bridge.Bridge.ConnectPeer | pkg/bridge/bridge.go:38-46 | Connecting closes the peer that had the name, cannot fail, and registers the new one |
| Bridge.Bridge.DisconnectPeer | pkg/bridge/bridge.go:48-51 | Disconnecting closes the given peer and removes whoever is registered under its name |
| Tunnel.InterfaceToWire | pkg/bridge/bridge.go:74-110 | What the interface loop puts on a working link is the traffic the tunnel theorem starts from |
| Tunnel.RawFramesAreTheCrossing | pkg/proto/transport.go:284-360 | The raw frames that survive the link are exactly the packets that should cross |
| Tunnel.CrossingIffMeant | pkg/bridge/bridge.go:84-106 | A packet built around its destination should cross if and only if it is meant for the peer and has at most 4092 bytes |
| Tunnel.TunnelTransparency | pkg/bridge/bridge.go:53-110 | What the other bridge takes from the link is, in order and unaltered, a prefix of the packets meant for it of at most 4092 bytes, all of them once everything sent was received, and into 8192 bytes each is copied whole |
| Tunnel.ReceiveAll | pkg/bridge/bridge.go:53-72 | The other bridge's own objects, its read loop and packet loop taking turns in any order, do in each turn what the queues do, write that prefix to the interface, and all of it once nothing is left |
| Tunnel.EverythingCanCross | pkg/bridge/bridge.go:53-72 | However the turns have gone so far, they can go on until every packet that should cross has crossed |
| Tunnel.LongPacketIsLost | pkg/proto/transport.go:288 | A packet of 4093 to 8180 bytes is sent and never arrives |
| Sampling.FreshValue | pkg/nat/tools.go:20-27 | By pigeonhole a value is free as long as fewer are taken than the interval holds |
| Sampling.FreshDraw | pkg/nat/tools.go:20-27 | A source that avoids no residue for ever draws a free value sooner or later |
| Sampling.NoRepeatRandInts | pkg/nat/tools.go:8-29 | Exactly max(0, min(count, distance)) different values of the half-open interval, in order of their first draw, and it terminates |
| Sampling.RandomOne | pkg/nat/tools.go:31-34 | The pick is an element of the container |
| NatPlan.Filter | pkg/nat/analyze.go:261-267 | The same addresses, each once, in any order |
| NatPlan.Clamped | pkg/nat/analyze.go:170-176 | The port window reaches from at most 10000 to at least 65000 and encloses both observed ports |
| NatPlan.AnalyzeDoubleEasy | pkg/nat/analyze.go:98-140 | Both results are the double-easy plan, up to the order of remote addresses |
| NatPlan.AnalyzeHasEasy | pkg/nat/analyze.go:142-201 | Both results are the plan for one hard side, up to the order of remote addresses |
| NatPlan.AnalyzeDoubleHard | pkg/nat/analyze.go:203-259 | Both results are the double-hard plan, up to the order of remote addresses |
| NatPlan.Analyze | pkg/nat/analyze.go:74-96 | The results are the plan for the combination of easy and hard sides |
| NatPlan.PlansComplementary | pkg/nat/analyze.go:74-259 | One client and one server, each on its own address and aiming at both mapped addresses of the peer; unless both are hard, the client waits while the server starts |
| NatPlan.SwapIffOneSideHard | pkg/nat/analyze.go:74-96 | Swapping the inputs swaps the plans if and only if exactly one side is hard |
| NatPlan.OneHardResources | pkg/nat/analyze.go:142-201 | The easy side asks for 1024 ports in a valid window around the observed ones, the hard side for 256 sockets |
| NatPlan.DoubleEasyResources | pkg/nat/analyze.go:98-140 | With two easy nodes each opens one socket, sprays nothing and aims at the other's one mapped address |
| NatPlan.DoubleHardResources | pkg/nat/analyze.go:203-259 | With two hard nodes both open 256 sockets and spray 1024 ports, the client in [10000, 65000), the server in that window widened just as far as the client's observed ports; each also aims at the other's own address |
| NatPlan.LowTTLs | pkg/nat/analyze.go:98-259 | Which actions of a plan ask for a lowered TTL, and that the second one repeats |
| MakeHole.OpenSockets | pkg/nat/nat.go:138-157 | Sockets are opened for the plan's addresses and then up to its count, skipping failures |
| MakeHole.OpenedAreOwn | pkg/nat/nat.go:138-157 | Each successful call leaves one socket, in order; the first are bound to the plan's own addresses and the others to none |
| MakeHole.GenEndpoint | pkg/nat/nat.go:138-178 | The targets are the mapped addresses followed by as many distinct ports of the window as asked for, each on the mapped IP drawn for it |
| MakeHole.OneHardTargets | pkg/nat/nat.go:159-177 | With one hard side: two mapped addresses, then exactly 1024 targets on the peer's IPs with pairwise different ports, and at most 256 sockets on the hard side |
| MakeHole.OnlyTarget | pkg/nat/nat.go:159-177 | At the node that asked, if the other is easy: one target, its mapped address, from one socket or, if the node is hard, up to 256 |
| MakeHole.OnlyTargetOfAsked | pkg/nat/nat.go:159-177 | And the same at the node that was asked |
| MakeHole.DoubleHardTargets | pkg/nat/nat.go:138-178 | With two hard nodes each side calls for 256 sockets and aims at the other's own and mapped addresses and at exactly 1024 targets on their IPs with pairwise different ports of its window |
| MakeHole.FirstReplyIsOwn | pkg/nat/nat.go:98-136 | What a wait yields was read by one of the node's own sockets, and it fails only if none read anything |
| MakeHole.WaitForReply | pkg/nat/nat.go:98-136 | A wait fails exactly if no socket read anything; otherwise it returns the first finished goroutine's socket with the sender it read |
| MakeHole.Send | pkg/nat/nat.go:76-96 | One datagram from every socket to every target: the one from socket i to target j stands at place i * targets + j, and there are no others |
| MakeHole.MakeHole | pkg/nat/nat.go:32-64 | The nested loops, sending and waiting on the sockets, do exactly what the action list, flattened into a program, prescribes up to the first wait that yields something |
| MakeHole.ProgramCounts | pkg/nat/nat.go:35-48 | An action list has five waits per repeating and one per other action, and a send for each, and one more per action that tries the remote first |
| MakeHole.InterpretBounded | pkg/nat/nat.go:48-63 | Waits stay within the program's count; the result is that of the last wait, and all before it failed |
| MakeHole.SendsBounded | pkg/nat/nat.go:76-96 | Datagrams stay within the program's sends times sockets times targets, and one echo |
| MakeHole.MakeHoleWorkBound | pkg/nat/nat.go:32-96 | For any action list: the wait and datagram bounds, and failure if and only if every wait fails |
| MakeHole.SuccessIsOwnDatagram | pkg/nat/nat.go:50-63 | A success is a datagram that one of the node's own sockets read in the last wait, followed by nothing but the echo; failure if and only if no socket read anything in any wait |
| MakeHole.PlanBudget | pkg/nat/analyze.go:98-259 | Every plan takes at most 6 waits and 8 x 256 x 1027 probe datagrams and an echo |
| MakeHole.PlanTrace | pkg/nat/nat.go:35-63 | What every plan makes a node do, event by event: the client's sleep or the server's send, the first round, and up to five more; it ends with the first datagram a wait yields, echoed except after a client's first wait |
| MakeHole.PlansAreSprayable | pkg/nat/analyze.go:98-259 | Both plans for any two nodes meet what generating sockets and targets needs: a window within the ports and an IP to spray |
| MakeHole.Traverse | pkg/nat/nat.go:32-178 | A node's whole way, for any two reports: its plan, its sockets and targets, and `MakeHole` on them end within six waits and the datagram bound, with a datagram one of its own sockets read or, if and only if none read any, with nothing |
| HolePunch.StepKeepsAgreement | pkg/nat/nat.go:32-69 | Behind easy NATs nothing but the peers' datagrams is in flight between them, let in, held or reported |
| HolePunch.StrangersBounce | pkg/nat/nat.go:98-120 | A third party's datagram changes nothing |
| HolePunch.SuccessMeansAgreement | pkg/nat/nat.go:32-69 | In every run, timeouts and delays included, a node that succeeds has the other node's mapped address |
| HolePunch.BothSucceedIffOpenedInTime | pkg/nat/nat.go:32-69 | When no wait times out, both succeed if and only if the server's first send comes before the client's datagram arrives at the server's NAT; the client always does |
| HolePunch.ServerFirstSuffices | pkg/nat/analyze.go:98-140 | For that it is enough that the server's first send comes before the client's, whatever the delays |
| HolePunch.ClientFirstCanSucceed | pkg/nat/nat.go:32-69 | It is not necessary: a run in which the client sends first and both succeed |
| HolePunch.ClientTooEarly | pkg/nat/nat.go:32-69 | For any two easy nodes with different mapped addresses there is a finished run without timeouts or losses in which the server does not succeed: the client's datagram comes too early |
| NodeRuns.SentAreLaunched | pkg/nat/nat.go:71-96 | The datagrams a node's trace records as sent or echoed are those that set out in the run, and the NAT knows where they went |
| NodeRuns.NodesRunMakeHole | pkg/nat/nat.go:32-69 | In every run, delays and timeouts included, what each node has done is a prefix of the trace of `MakeHole` on a socket that reads what the node's waits yield; a node that is done or has failed has its whole trace and its result |
| NodeRuns.MakeHoleSucceedsIffOpenedInTime | pkg/nat/nat.go:32-69 | The calls of `MakeHole` themselves, in finished runs without timeouts: both return the other's mapped address if the server's first send came in time, and otherwise only the client's does and the server's has not returned |
| HolePunch.RunsCanFinish | pkg/nat/nat.go:32-64 | From every state the nodes and the datagrams in flight can go on until all is done |
| HolePunch.RunsAreFinite | pkg/nat/nat.go:32-64 | No run has more steps of nodes and datagrams than work left |
| Hub.SameIdSameDraw | pkg/proto/message.go:13-17 | Equal ids less than 2^32 draws apart are the same draw, and only those |
| Hub.StepKeepsInv | pkg/hub/hub.go:57-172 | Every step keeps: tickets are unique, waiters match waiting handlers, a request is in one place until answered, replies are genuine, the log is what the handlers sent |
| Hub.DeliverKeepsInv | pkg/proto/transport.go:262-280 | Receiving a response, matched or dropped, keeps the invariant |
| Hub.NodeRepliesKeepsInv | pkg/hub/exchanger.go:88-101 | A node's answer to a mapping request keeps the invariant |
| Hub.LeaveKeepsInv | pkg/hub/hub.go:98-99 | A leaving session, even one that takes its successor down, keeps the invariant |
| Hub.MatchedIffWithinIdSpace | pkg/proto/transport.go:272-275 | A matched reply answers the waiter's own request if and only if fewer than 2^32 draws lie between the two |
| Hub.RepliesReachTheirHandlers | pkg/proto/transport.go:222-282 | In every run a response returned by `SendMessage` carries the request's id, was produced by that session's node for that request, and reached one handler |
| Hub.PunchProtocol | pkg/hub/hub.go:122-172 | In every run a completed handler has sent exactly two mirrored responses, from the requester's mapping and the mapping reported for its own request; any other none or the first |
| Hub.PunchesTheNamedPeer | pkg/hub/hub.go:130-171 | Whoever comes and goes, a handler asks a session that logged in under the requested name, and the requester is told that name |
| Hub.StepKeepsWire | pkg/proto/transport.go:83-105 | Every step keeps: what a node has got and will get is, in order, what was sent to its session |
| Hub.ResponsesArriveInOrder | pkg/hub/hub.go:158-171 | In every run the responses that reach a node are those handlers sent it, in order, without loss while its session is open |
| Hub.OneHandlerPerRequest | pkg/proto/transport.go:245-261 | In every run each handler works on a punch request its session's node made, and no request has two handlers |
| HubCompletion.RepliedCanComplete | pkg/hub/hub.go:158-171 | In every reachable state a handler with the reply can send both responses; then it is completed, and they are the last two of the log |
| HubCompletion.HandlersCanEnd | pkg/hub/hub.go:122-172 | In every reachable state a few steps of its own take a handler to its end, and with the reply to completion |
| HubCompletion.AnyTwoCanBeIntroduced | pkg/hub/hub.go:73-172 | Whatever the hub has done, two nodes can log in under different names and one can ask for the other, and without a late reply each gets exactly the response with its side's plan, for any request and any reported mapping |
| HubDelivery.RunKeepsKept | pkg/proto/transport.go:222-282 | Every run keeps: an unanswered request is on its way to the node or at it, and until an id is given twice every waiting handler has its entry in the table of waiters |
| HubDelivery.WaitingCanComplete | pkg/proto/transport.go:222-282 | In every reachable state without a repeated id, a handler that waits for an answer the node has not given yet can get it, whatever the node reports and whoever else waits, and complete |
| HubCompletion.OneOpenSessionPerName | pkg/hub/hub.go:57-101 | In every run an open session is the one registered under its name |
| HubCompletion.LeavingFreesTheName | pkg/hub/hub.go:98-99 | In every run a leaving node frees its name, leaves no open session of it, and touches no session of another name |
| Punching.HandlersLaunchThePunch | pkg/hub/hub.go:152-171 | In every run of the hub, the plans a completed handler sent are the two that hole punching starts from: the requester's mapping and the one the remote node reported for this request |
| Punching.PunchedNodesMeet | pkg/nat/nat.go:32-69 | From login to hole: two easy nodes with different mapped addresses, launched by a completed handler of any run, both succeed, once all is done and no wait timed out, if and only if the server's first datagram left in time |
| Punching.AnyTwoEasyNodesCanMeet | pkg/nat/nat.go:32-69 | Whatever the hub has done, any two easy nodes with different mapped addresses can be introduced, are launched with the plans they got, and can both succeed |
| HubWrapAround.LateReplyReachesWrongHandler | pkg/proto/message.go:13-17 | A reachable state in which a handler holds the reply to another handler's request, 2^32 draws late and under its own id |
| Registry.Session.Close | pkg/proto/transport.go:362-370 | However often a session is closed, its channels are closed once |
| Registry.SoundIffHarmless | pkg/hub/hub.go:57-71 | A step keeps every saved session registered or closed if and only if it loses no open one |
| Registry.SoundThroughoutIffHarmless | pkg/hub/hub.go:57-101 | A run of steps in any interleaving is sound before, between and after its steps if and only if every step is harmless where it is taken |
| Registry.RunsAreSoundIffHarmless | pkg/hub/hub.go:57-101 | The same from the empty registry |
| Registry.AtomicRunsAreSound | pkg/hub/hub.go:57-101 | With atomic saves and removes this holds in every run, and closed stays closed |
| Registry.ExitClearsTheName | pkg/hub/hub.go:98-99 | After a handler's exit nothing is registered under its name, every session of that name is closed, and no other name is touched |
| Registry.StaleExitTakesSuccessor | pkg/hub/hub.go:65-71 | The exit of a replaced session closes and unregisters its successor |
| Registry.InterleavedSavesLoseASession | pkg/hub/hub.go:57-63 | Two interleaved saves under one name leave a session open and unregistered |
| Registry.Hub.CloseRegistered | pkg/hub/hub.go:58-61 | The first half of saving and removing closes what is registered under the name and nothing else |
| Registry.Hub.SaveSession | pkg/hub/hub.go:57-63 | Saving closes the session that had the name and registers the new one, also if its own connection has ended meanwhile |
| Registry.Hub.RemoveSession | pkg/hub/hub.go:65-71 | Removing closes and unregisters whatever has the name |
| Registry.Hub.Leave | pkg/hub/hub.go:98-99 | A handler's exit, on the objects: its name is free and its session closed once |
| Stun.StunServerConn.FirstTest | pkg/nat/service_stun.go:144-170 | The first test learns the other address and the mapping, or reports the timeout or the missing attribute |
| Stun.StunServerConn.MappingTests | pkg/nat/service_stun.go:107-142 | The three tests on the connection object give the outcome, contacts and mapped addresses of `MappingOutcome` |
| Stun.StunServerConn.FilterTests | pkg/nat/service_stun.go:209-231 | The three tests on the connection object give the outcome, contacts and mapped addresses of `FilterOutcome` |
| Stun.MappingReport | pkg/nat/service_stun.go:107-142 | The report is decided by three mappings and the local address |
| Stun.MappingTestsSound | pkg/nat/service_stun.go:87-142 | Never a stronger dependence than the NAT's mapping has; its class exactly when the tests' addresses, as far as their keys differ, get different mappings; no NAT exactly if the server sees the local address |
| Stun.MissingNatGoesUnnoticed | pkg/nat/service_stun.go:319-326 | On the unspecified address the code binds to, a host without any NAT is reported as endpoint-independent |
| Stun.FilterTestsSound | pkg/nat/service_stun.go:97-231 | Never a stronger dependence than the NAT's filter has; its class exactly when the replies from addresses whose keys differ are dropped |
| Stun.CombinedFilterIff | pkg/nat/service_stun.go:41-56 | After mapping tests on the same socket the filter report is right if and only if no primed mapping is the one in use; a wrong report is always endpoint-independent |
| Stun.MisreportedBehindEasyMapping | pkg/nat/service_stun.go:41-56 | Behind a mapping reported endpoint-independent exactly the address-dependent filters are misreported |
| Stun.RestrictedConeIsMisreported | pkg/nat/service_stun.go:41-56 | One such NAT, named right on a fresh socket and misreported after the mapping tests |
| Stun.CollectLists | pkg/nat/service_stun.go:65-75 | The lists hold every mapped IP and port once, in order of first appearance |
| Stun.CollectedMappings | pkg/nat/service_stun.go:172-317 | The addresses collected on one socket, in order; they are the mappings of the addresses contacted and no others |
| Stun.FirstsGrow | pkg/nat/service_stun.go:65-75 | More addresses never change the order of what is listed already |
| Stun.AnalyzeStunBehavior | pkg/nat/service_stun.go:41-85 | Both series on one socket, reported with all mapped addresses, or the first error |
| Iptables.RemoveManaged | pkg/device/rule.go:60 | Deleting a managed rule takes out its one copy and nothing else |
| Iptables.RuleManager.AppendMissing | pkg/device/rule.go:30-45 | Without faults, exactly the rules the chain misses are appended, each once |
| Iptables.RuleManager.WithdrawOthers | pkg/device/rule.go:46-65 | Without faults, exactly what was managed before is withdrawn |
| Iptables.RuleManager.UpdateIptables | pkg/device/rule.go:26-69 | Whatever fails, original rules in order plus one copy of each managed one; without faults, managed are exactly the destinations whose rule was absent before |
| Iptables.RuleManager.ClearAllRules | pkg/device/rule.go:71-90 | As many rules stay as calls failed; if none failed the chain is the original |
| Iptables.UpdateToggles | pkg/device/rule.go:36-64 | After an update a destination is managed exactly if asked for, not in the original chain and not managed before |
| Iptables.SecondUpdateClears | pkg/device/rule.go:36-64 | The same update twice leaves nothing managed |
| Iptables.MasqueradedIff | pkg/device/rule.go:31 | With the manager's rules, packets from the peer network to a destination are masqueraded exactly if they were without them or the destination is managed |
| Iptables.UpdateMasquerades | pkg/device/rule.go:26-69 | A first update masquerades every destination asked for; the same again takes that back from all that were not masqueraded before |
| Ipv6.SkipIPv6ExtensionHeaders | pkg/network/tools.go:112-127 | The loop computes `Skip`, terminates, and reports where an index would be out of range |
| Ipv6.SkipInvertsBuild | pkg/network/tools.go:112-127 | For chains of any length the loop returns their exact length and the upper-layer protocol |
| Ipv6.BuildInvertsSkip | pkg/network/tools.go:112-127 | And what it skips is, byte for byte, the chain it walked in the layout of section 4 of RFC 8200 |
| Ipv6.AuthenticationHeaderIff | pkg/network/tools.go:118-121 | An authentication header is stepped over right if and only if its length field is 0 |
| Ipv6.SteppedOverLikeOptions | pkg/network/tools.go:116-121 | Packets in the packet, encrypted payloads and authentication headers are stepped over like a header of options |
| Ipv6.InnerPacketIsMisread | pkg/network/tools.go:116-121 | So a packet in the packet is reported under its version and traffic class |
| Ipv6.PacketGetPayload | pkg/network/tools.go:95-109 | The method computes `GetPayload`, out-of-range slices included |
| Ipv6.Ipv6PayloadExact | pkg/network/tools.go:103-107 | For a well-formed IPv6 packet the result is the upper-layer protocol and exactly the bytes behind the headers |
| Ipv6.TransportPayloadExact | pkg/network/tools.go:103-124 | TCP, UDP and ICMPv6 payloads are found whole behind any chain of headers |
| Ipv6.Ipv4PayloadExact | pkg/network/tools.go:100-102 | For a well-formed IPv4 packet, options included, the result is the protocol and exactly the bytes behind the header |
| Keepalive.KeepaliveFields.SetKeepalive | pkg/proto/transport.go:182-220 | Setting a non-zero interval starts a new pair of loops and resets the counter; zero changes nothing |
| Keepalive.KeepaliveFields.FrameDecoded | pkg/proto/transport.go:299-333 | Any decoded frame resets the counter; a ping is answered by one pong unless the transport is closed |
| Keepalive.TurnIsDecoded | pkg/proto/transport.go:284-335 | A turn of the transport's read loop is what the keepalive sees of it: counter, closing flag and pongs agree |
| Keepalive.AliveCounts | pkg/proto/transport.go:182-212 | The counter is five minus the rounds begun since the last decoded frame or reset |
| Keepalive.NeverClosesEarly | pkg/proto/transport.go:213-218 | A watcher is about to close only if it read the counter after at least six silent rounds; having read so it can close, and then the transport is closed |
| Keepalive.KeepaliveFields.WatcherClose | pkg/proto/transport.go:213-218 | The watcher's step is the transport's own `Close`: both flags are set and nothing queued changes |
| Keepalive.DoneIffEnded | pkg/proto/transport.go:213-304 | In every run the transport is closed if and only if the connection has ended or a watcher has closed it |
| Keepalive.SilentPeerIsDisconnected | pkg/proto/transport.go:204-218 | Once the keepalive is on, in any state of its loops, at most six rounds without a decoded frame allow the watcher to disconnect the peer |
| Keepalive.AllCanStop | pkg/proto/transport.go:194-218 | Once the transport is closed, every goroutine of the keepalive and the read loop can stop |
| Keepalive.SupersededCanStop | pkg/proto/transport.go:186-203 | So can the loops of an earlier setting |
| Keepalive.OnePongPerPing | pkg/proto/transport.go:330-332 | One ping per round, one pong per ping processed, none per pong |
| Keepalive.CannotBeTurnedOff | pkg/proto/transport.go:183-192 | `SetKeepalive(0)` changes nothing, and once on, the newest loops run until the transport is closed |

## Left out

- Sockets, TUN devices, netlink, the iptables processes, QUIC, KCP and encryption: readers, writers, datagram sequences and a rule sequence stand for them.
- JSON and reflection: message payloads are values, so malformed payloads and the type check in `GetPayload` do not occur.
- Real time: sleeps and timeouts are steps that may happen whenever the code allows them; `BothSucceedIffOpenedInTime` is about runs in which no wait times out and no datagram is lost.
- Names and address texts: addresses are structured and resolvable, and DNS is not part of this model.
- Hub.PunchProtocol: only runs in which no reply is matched 2^32 draws late are covered; `MatchedIffWithinIdSpace` says what happens beyond.
- The node's side of matching: responses the hub sends unasked draw ids from the hub's counter and can equal a node's outstanding id, so only the hub's side is claimed.
- A reply that arrives before its waiter is registered is dropped, so matching is safe but delivery is not guaranteed; `HubCompletion` and `HubDelivery` show that handlers can complete, not that they must.
- Hub.AfterDeliver: handing a reply over and removing its waiter is one step; in the code the waiter goes a moment later, and a second reply under the same id in between would block or panic.
- Login, tokens, the peer list, retry and back-off.
- Channel capacities: queues are unbounded here, so a read loop that blocks on a full queue is not represented.
- Each queue operation and `Close` is one step: the race of closing a channel while the read loop sends on it, and the panic it causes, are left out.
- Transports.UnpackFrom: does not say that no buffer is lost, because the two early exits drop the buffer they took.
- Segments.StreamExactlyAtJoints: socket reads that return no bytes and no error do not occur.
- Tunnel.TunnelTransparency: packets from the interface have the fixed header of the version they claim; reading batches from the TUN device is not part of this model.
- MakeHole.MakeHole: with several sockets, datagrams read by the goroutines that lose the race are dropped by the code and do not show up in the trace.
- Lowered TTLs: the code restores the TTL before the datagram is written, so `LowTTL` has no effect here either.
- Iptables.RuleManager.UpdateIptables: one peer network for the life of the manager and no edits by others; with another network a destination's old rule would stay in the chain unmanaged.
- Stun.MappingTestsSound: servers always send XOR-MAPPED-ADDRESS; the code does not check for it in the second and third test.
- Registry.Hub.SaveSession: each save is one step; the interleaved form is covered on values by `InterleavedSavesLoseASession`.
- Goroutine leaks, logging, signals, configuration, the command line, the generated message registry and the Android glue.
