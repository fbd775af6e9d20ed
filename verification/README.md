# A model of MIPTP_cpp with proofs

The repository implements a small network stack in three daemons: `MIP_deamon` (links, neighbour discovery,
forwarding), `routing_deamon` (distance-vector routing) and `transport_deamon` (reliable streams by Go-Back-N).
This project models the three layers in Dafny and proves what they promise over whole runs.

## How the model is laid out

| files | what they hold |
|---|---|
| `Wire`, `Bits`, `MIPTPFrame`, `MIPFrame` | addresses and ports, header words as their 32 bits, the two frame classes, encapsulation |
| `Handler`, `ClientHandler` | one transport endpoint: each event as a function of the state and of what the sockets do, and the class whose methods do it in place (slot array, rotation, shared output queue) |
| `GoBackN`, `GoBackNSafety`, `GoBackNFifo`, `GoBackNProgress` | client, server and network together: invariant, runs, channels that keep order, a loss-free round |
| `GoBackNLimits`, `GoBackNStale` | which stale deliveries break the promise, and runs from the start that end in one |
| `Session` | the life of one handler, and a whole session from two applications' requests to the bytes delivered |
| `DistanceVector`, `RoutingDaemon` | the table as a map, as a vector and as bytes; the table class and the routing daemon class |
| `RoutingNet`, `RoutingConvergence`, `RoutingStart` | any number of routing nodes with channels: loop freedom, convergence, termination, runs from the start |
| `RoutingLoss`, `RoutingTriangle` | a lost link in a settled network, and a network of three nodes where the lost route stays lost |
| `RoutingForwarding` | the hop limit and delivery over settled tables |
| `MipDaemon`, `MipRouting` | the MIP daemon class; one MIP daemon with its routing daemon and the sockets between them; an advertisement from table to table |
| `MipNetwork` | any number of MIP daemons and the links between their interfaces: true neighbour tables, nothing forged, neighbour discovery |
| `TransportDaemon` | ports, demultiplexing, the transport daemon class |

The imperative parts of the source are classes whose methods are proved against specification functions on
values; the theorems about runs are lemmas about those functions.

*Network of the transport layer.* Every frame an endpoint ever queued is kept together with the absolute number
it stands for. Losing, duplicating and reordering frames is then only a matter of which index is delivered
next. `FreshRun` allows any index that is not too old; `FifoRun` allows any index not below the last one
(first-in first-out with loss and duplication) and assumes nothing about age. The source address a delivery
carries is arbitrary. `ReadOver` is the ghost stream of everything the client's socket gave; delivery is stated
against it.

*Network of the MIP layer.* A site gives each node's interfaces, their addresses and their link addresses. Every
frame ever sent may arrive at any time and any number of times, at every interface its link and its link address
lead to; timers, messages, lookup answers and advertisements come in any order with any contents.

*Network of the routing layer.* A topology says which node owns an address and, for a node and a neighbour's
address, which of its own interfaces is on that link. Links appear one by one, in any order and at either end,
and either end may be told that a link is gone.
The two ideas the protocol takes from sections 2.2.1 and 2.2.2 of RFC 1058, split horizon and triggered updates,
are modelled as the code has them, with its own infinity (255) and with the triggering neighbour left out.

Findings stated as exact conditions:

* After an ack the application still has a prefix of the stream that covers everything before the window exactly
  when the ack, as the client decodes it, does not point past what the server accepted, or the server has
  everything (`AckDeliveryExact`). After a data frame, exactly when the frame is not a nonzero multiple of 40 away
  from the expected one, or happens to hold the same bytes (`DataDeliveryExact`). Both bounds on age are reached:
  in `AckTooStale` and `DataTooStale` every delivery of a run from the start is fresh, and one more, 30 and 40
  behind, breaks the prefix.
* A lost link is not always repaired, even with nothing else lost: `RouteStaysLost` is a run from the start over a
  triangle that ends at rest with infinity for an address two links away. A neighbour reacts to the loss if and
  only if it relied on a lost route (`ThirdReactsIff`), and never answers the sender (`NeverAnswers`). When no
  third node relied on one and no second link joins the two ends, the network comes to rest with every third node
  exact about what remains, and each end exact if and only if none of its lost destinations has another way
  (`LossOutcome`).
* A message size survives the MIP length field exactly when it is a multiple of four and at most 2040
  (`SizeSurvives`).
* Over settled tables a frame is delivered exactly when its destination is at most 16 links away
  (`DeliveredWithin16`), although the tables know routes of up to 254 links.
* A peer is recognised by the address of the interface its frames left over: when the route of a node with several
  interfaces changes to another of them, its open connections go unheard (`RerouteGoesUnheard`).
* A request to listen succeeds on every 16-bit port nobody holds (`ListenRequest`), but a frame that some handler
  can build reaches the listener if and only if the port is below 16384 (`HearsOnlyBelow`).

## Model

| member | source | states |
|---|---|---|
| `GoBackNSafety.ReliableDelivery` | src/ClientHandler.cpp:171-284 | From a client that sent its request to a listening server, over any interleaving of events and any loss, duplication and reordering in which no data frame is 40 or more and no ack 30 or more behind, the bytes given to or buffered for the server's application are the first n whole reads made from the client's socket, n reaches at least the start of the window, the byte counter is their size, and what the application was given is a prefix of what was read. |
| `GoBackNFifo.ReliableOverFifo` | src/ClientHandler.cpp:238-264 | The same over channels that drop and duplicate but keep order, with no assumption on age. |
| `Session.SessionDelivers` | src/transport_deamon.cpp:126-204 | The same from two applications' requests: one asks its daemon to listen on a port, the other asks its own to connect to it, among any other handlers. |
| `Session.SessionStarts` | src/ClientHandler.cpp:53-95 | Both requests accepted and read, both handlers are there, no other handler has changed, and with the one queued request the pair is exactly where a session starts. |
| `Session.ServerInDaemon` | src/transport_deamon.cpp:126-222 | Among any handlers with distinct ports, what the daemon does on a frame for the server of a session, on its socket or on its timer is the session's event: same state, same frames queued, same bytes to the application, no other handler touched. |
| `Session.ClientInDaemon` | src/transport_deamon.cpp:126-222 | The same for the client. |
| `GoBackNSafety.StepReads` | src/ClientHandler.cpp:311-337 | In every event the stream of loaded frames grows by exactly the leading reads the socket gave, at most one for each free slot. |
| `Handler.LoadFramesTakes` | src/ClientHandler.cpp:311-337 | The messages put behind the window are, whole and in order, what the socket gave before it blocked or broke, as many as there are free slots; loading fails if and only if the window is empty and the first read finds the socket gone. |
| `GoBackNProgress.EverythingArrives` | src/ClientHandler.cpp:126-169 | After any fresh run that left both ends connected, one loss-free round and one write that takes the buffer have given the application every byte ever read from the client's socket, in order, and nothing else. |
| `GoBackNProgress.ServerDrains` | src/ClientHandler.cpp:401-421 | A socket event whose write takes the whole buffer leaves the application with everything accepted. |
| `GoBackNProgress.TickDrains` | src/ClientHandler.cpp:137-146 | So does a tick, whose two writes together take it. |
| `Handler.SentToApp` | src/ClientHandler.cpp:401-421 | What is handed over is the front of the buffer, exactly as much as the socket takes, and the rest stays; a blocked or lost socket takes nothing, and only a lost one, with something to write, ends the connection. |
| `GoBackNFifo.FifoRunKeeps` | src/ClientHandler.cpp:238-264 | On such channels nothing delivered is ever too old, and both queues stay in order of absolute numbers. |
| `GoBackNFifo.NumbersInOrder` | src/ClientHandler.cpp:346-358 | base <= expected <= base + used <= base + 10, and every ack still to come lies in [base, expected]. |
| `GoBackNFifo.FifoStep` | src/ClientHandler.cpp:37-169 | Every in-order event of either endpoint keeps the joint invariant and the order of both queues. |
| `GoBackNSafety.StepKeeps` | src/ClientHandler.cpp:37-284 | Every event whose delivery, if any, the sequence numbers can tell apart keeps the joint invariant of both endpoints and everything in flight. |
| `GoBackNSafety.FreshIsDistinguishable` | include/ClientHandler.hpp:144-149 | Window 10 and modulus 40 buy tolerance: data less than 40 behind and acks less than 30 behind are told apart. |
| `GoBackNLimits.AckDeliveryExact` | src/ClientHandler.cpp:254-263 | After an ack reaches the client the promised prefix holds if and only if the ack as decoded does not pass what the server accepted or the server has accepted everything; the joint invariant holds if and only if the ack does not pass. |
| `GoBackNLimits.AckThirtyBehind` | src/ClientHandler.cpp:257-262 | An ack exactly 30 behind is taken for an ack of the full window, whatever the server has of it: the window empties, the base moves by 10, and the promised prefix survives if and only if the server has everything. |
| `GoBackNStale.AckTooStale` | src/ClientHandler.cpp:257-262 | A run from the start whose deliveries are all fresh, after which delivering an ack exactly 30 behind breaks the promised prefix: the client drops ten frames the server never got. |
| `GoBackNLimits.DataDeliveryExact` | src/ClientHandler.cpp:243-252 | After a data frame reaches the server the promised prefix (and the joint invariant) holds if and only if the frame is the expected one, or not 0 modulo 40 away from it, or equal to it in content. |
| `GoBackNStale.DataTooStale` | src/ClientHandler.cpp:243-252 | A run from the start whose deliveries are all fresh, after which delivering a data frame exactly 40 behind breaks the promised prefix: the first frame is handed over twice. |
| `GoBackNSafety.CleanClose` | src/ClientHandler.cpp:331-335 | When a connected client fails because its application closed the socket, the server has accepted every frame ever loaded and the two byte counters agree. |
| `GoBackNProgress.GoodRound` | src/ClientHandler.cpp:126-169 | From any connected state, a client tick, the in-order delivery of the window it queued, a server tick and the delivery of its ack leave the window empty and everything loaded accepted. |
| `GoBackNProgress.DeliverAll` | src/ClientHandler.cpp:242-252 | Delivering consecutive frames from at or before the expected one brings the server past the last of them, whatever prefix it had. |
| `GoBackNProgress.DataAnswered` | src/ClientHandler.cpp:242-253 | A fresh data frame that reaches the server is the expected one and taken without an answer, or changes nothing and makes the server queue exactly one ack of what it has accepted, so any retransmission makes a lost ack good. |
| `GoBackNProgress.HandshakeConnects` | src/ClientHandler.cpp:173-237 | A delivered request and reply connect both ends, each knowing the other's address and port, with an empty window and nothing accepted. |
| `GoBackNProgress.ProbeRound` | src/ClientHandler.cpp:265-276 | A probe that arrives and its answer, once delivered, mark both ends alive and change nothing else; the answer is exactly one frame. |
| `GoBackNProgress.TickGivesUp` | src/ClientHandler.cpp:151-166 | A tick gives the connection up if and only if nothing was heard since the last one or the socket is gone; otherwise it sends the next probe. |
| `GoBackN.Circular` | src/ClientHandler.cpp:360-388 | On sequence numbers of absolute numbers, the window test and calcMoves are the distance modulo 40: accepted if and only if at most 10, and then exactly that many moves. |
| `GoBackN.ClientMoveKeeps` | src/ClientHandler.cpp:346-358 | An ack inside what the server accepted moves the window by no more than its used slots and keeps the invariant, so clamping never discards an unacknowledged frame. |
| `GoBackN.LoadFramesLoads` | src/ClientHandler.cpp:311-337 | Loading only puts correctly numbered data frames behind the window, never more than ten in all, counts their bytes, and fails only with an empty window. |
| `GoBackN.TickOfClient` | src/ClientHandler.cpp:126-169 | A client tick loads, queues exactly the window after loading, and probes the peer unless it gives up. |
| `ClientHandlers.ClientHandler.LoadFrames` | src/ClientHandler.cpp:311-337 | The loop over the slot objects puts exactly what the socket gave into the free slots, read by read, does what the specification does to the abstract window, and leaves the slot array as it is. |
| `ClientHandlers.ClientHandler.Rotate` | src/ClientHandler.cpp:349-349 | The ten slots after rotation are the same ten objects in rotated order, still pairwise different. |
| `ClientHandlers.ClientHandler.MoveWindow` | src/ClientHandler.cpp:346-358 | Rotating the slots and adjusting the counters drops the first frames of the abstract window. |
| `ClientHandlers.ClientHandler.QueueWindow` | src/ClientHandler.cpp:339-344 | Appends copies of exactly the used slots' frames, in order, to the shared queue. |
| `ClientHandlers.ClientHandler.SeqInsideWindow` | src/ClientHandler.cpp:360-378 | For a base below 40, true exactly for the numbers whose distance from the base modulo 40 is below 10 and that are not ten or more above it; among numbers below 40, exactly the ten from the base on around the circle. |
| `ClientHandlers.ClientHandler.CalcMoves` | src/ClientHandler.cpp:380-388 | For a base below 40, the distance from the base upwards modulo 40: for a number below 40 the unique number of places below 40 after which the circle is at that number. |
| `ClientHandlers.ClientHandler.QueueAck` | src/ClientHandler.cpp:390-399 | Appends one ack with the current expected number. |
| `ClientHandlers.ClientHandler.SendToSock` | src/ClientHandler.cpp:401-421 | The front of the buffer is handed over, as much as the socket takes, the rest stays, and only a broken pipe ends the connection. |
| `ClientHandlers.ClientHandler.HandleSock` | src/ClientHandler.cpp:37-124 | New state, queued frames, bytes and replies are those of the specified event. |
| `ClientHandlers.ClientHandler.HandleTimer` | src/ClientHandler.cpp:126-169 | New state, queued frames, bytes and replies are those of the specified event. |
| `ClientHandlers.ClientHandler.ReceiveFrame` | src/ClientHandler.cpp:171-284 | New state, queued frames and replies are those of the specified event, for every stage, role and frame type. |
| `ClientHandlers.ClientHandler.InitWindow` | src/ClientHandler.cpp:226-227 | Every slot gets a new frame object of its own. |
| `RoutingConvergence.Converges` | src/routing_deamon.cpp:157-260 | Once every link has been noticed at both ends, every lossless run comes to rest, and then every node knows exactly the reachable addresses at min(hop distance, 255). |
| `RoutingConvergence.SettlingRunExists` | src/routing_deamon.cpp:239-260 | From every network with all links noticed there is such a run: as long as anything is queued or in flight some step is possible. |
| `RoutingStart.ConvergesFromStart` | src/routing_deamon.cpp:157-260 | From local addresses only, with links noticed one by one in any order while advertisements are already sent and delivered, every lossless run in which each link is noticed at some time comes to rest for good, exact. |
| `RoutingStart.RunFromStartExists` | src/routing_deamon.cpp:157-260 | Every network has a run from the start in which every link is noticed. |
| `RoutingConvergence.SettledIsExact` | src/DistanceVectorTable.cpp:25-83 | With nothing queued and nothing in flight costs are exactly the capped hop distances, although split horizon hides routes and the triggering sender is not answered. |
| `RoutingConvergence.LosslessRunIsExact` | src/routing_deamon.cpp:157-260 | The same for every lossless run from a network that knows only local addresses. |
| `RoutingConvergence.StepCovers` | src/routing_deamon.cpp:84-129 | Every lossless step keeps: whatever a node may show a neighbour is queued for it, in flight to it, or already held by it at most one hop more expensive. |
| `RoutingConvergence.CoverTriggered` | src/routing_deamon.cpp:202-205 | Leaving out the sender of the triggering advertisement keeps that for the sender too. |
| `RoutingConvergence.ComesToRest` | src/routing_deamon.cpp:191-260 | Every settling run reaches rest: each step makes (sum of costs, queued updates, advertisements in flight) lexicographically smaller. |
| `RoutingConvergence.ChangeIsBetter` | src/DistanceVectorTable.cpp:59-83 | In every safe network an advertisement that changes a table lowers its sum of costs. |
| `RoutingNet.AdvertImproves` | src/DistanceVectorTable.cpp:76-80 | Under first-in first-out delivery the "sender is the next hop and the cost differs" branch only ever lowers a cost. |
| `RoutingNet.StepSafe` | src/routing_deamon.cpp:157-260 | Every step but the loss of a link, loss of advertisements included, keeps: an entry leads to a neighbour that knows the destination and is one hop better, and nothing in flight is better than its sender or beats an entry through it. |
| `RoutingNet.FollowReaches` | src/DistanceVectorTable.cpp:66-80 | In every safe state, converged or not, following next hops along a finite-cost entry reaches the destination's node in at most that many steps, each step over a link of the topology to the next node followed, no node on the way owning the destination. |
| `RoutingNet.LoopFree` | src/DistanceVectorTable.cpp:59-115 | The same in every state any run reaches in which no link is lost, with lossy channels and links appearing in any order. |
| `RoutingNode.ReactsExactly` | src/DistanceVectorTable.cpp:59-83 | A node changes and queues an update on an advertisement if and only if some advertised cost, one hop added, replaces its entry. |
| `RoutingNode.NeverAnswers` | src/routing_deamon.cpp:202-205 | Nothing an advertisement makes a node queue goes back to its sender. |
| `RoutingLoss.ThirdReactsIff` | src/routing_deamon.cpp:182-206 | In a settled network a neighbour reacts to what a node sends after losing a link if and only if it has a finite route through that node to a destination the node lost. |
| `RoutingLoss.AfterStep` | src/routing_deamon.cpp:182-206 | After the loss every step (either end told, sending, delivering, losing advertisements) leaves third nodes untouched and keeps in flight only what an end of the link sends to third nodes. |
| `RoutingLoss.PathSurvives` | src/DistanceVectorTable.cpp:15-23 | A finite entry not led over the lost link still has a walk of at most its cost in the remaining network. |
| `RoutingLoss.EndIsRightIff` | src/DistanceVectorTable.cpp:15-23 | The table of an end with its routes over the link set to infinity is right about the remaining network if and only if no lost destination has a walk of fewer than 255 links there. |
| `RoutingLoss.LossOutcome` | src/routing_deamon.cpp:182-190 | From a settled network in which no third node relies on a lost route and no second link joins the two ends, once both are told, every continuation comes to rest with every third node exact and each end exact if and only if no destination it lost can be reached without the link. |
| `RoutingLoss.LossIsTold` | src/routing_deamon.cpp:182-190 | Told of the loss, an end queues one update, and sending it puts the table after the loss on the way to every remaining neighbour. |
| `RoutingTriangle.RouteStaysLost` | src/routing_deamon.cpp:182-190 | A run from the start over three nodes that settles, loses one link and ends at rest with cost 255 for an address that is two links away in what remains. |
| `Routes.NothingNewForSender` | src/DistanceVectorTable.cpp:33-39 | After an update from a sender, what is packed for that sender is a subset of what was packed before. |
| `Routes.RelaxTwice` | src/DistanceVectorTable.cpp:59-83 | Hearing the same advertisement again changes nothing. |
| `Routes.LocalKept` | src/DistanceVectorTable.cpp:98-102 | A local entry survives every advertisement. |
| `DistanceVector.UpdateRelaxes` | src/DistanceVectorTable.cpp:59-83 | For an advertisement without double destinations the in-place update is a pointwise relaxation of maps (so entry order does not matter), keeps the table's destinations unique if they were, and returns true if and only if the table changed. |
| `DistanceVector.AdvertRoundTrip` | src/DistanceVectorTable.cpp:25-57 | Unpacking packed bytes with any padding into a table with any previous contents gives exactly the sender's split-horizon view. |
| `DistanceVector.BytesRoundTrip` | src/DistanceVectorTable.cpp:25-57 | The same entry by entry, in table order. |
| `DistanceVector.DistanceVectorTable.Update` | src/DistanceVectorTable.cpp:59-83 | The nested search and update loop computes the fold over the advertised columns and its flag. |
| `DistanceVector.DistanceVectorTable.PackAdvertisment` | src/DistanceVectorTable.cpp:25-41 | The buffer is the count and the columns not led through the receiver. |
| `DistanceVector.DistanceVectorTable.UnpackAdvertisment` | src/DistanceVectorTable.cpp:43-57 | The table is resized to the count and filled from the buffer, next hops left over. |
| `DistanceVector.DistanceVectorTable.SetViaInfinity` | src/DistanceVectorTable.cpp:15-23 | Exactly the routes through the lost neighbour get cost 255. |
| `DistanceVector.DistanceVectorTable.AddArpDiscovery` | src/DistanceVectorTable.cpp:104-115 | The neighbour's address gets cost 1 via itself, any other route stays. |
| `DistanceVector.DistanceVectorTable.AddLocalMip` | src/DistanceVectorTable.cpp:98-102 | A new entry at the end with cost 0 via itself; a destination that was there keeps the route that is found for it. |
| `DistanceVector.DistanceVectorTable.FindTo` | src/DistanceVectorTable.cpp:85-96 | Finds the route of the table read as a map, or says there is none. |
| `RoutingDaemon.Daemon.ReceiveAdvertisement` | src/routing_deamon.cpp:191-206 | Whatever the advertisement names, the table is updated entry by entry and an update excluding the sender is queued if and only if the update says it changed; without double destinations that is the relaxation of the table, queued if and only if the table changed. |
| `RoutingDaemon.Daemon.ReceiveArpDiscovery` | src/routing_deamon.cpp:173-181 | A new neighbour is listed, gets a direct route and an update to everyone is queued; a known one changes nothing. |
| `RoutingDaemon.Daemon.ReceiveLostConnection` | src/routing_deamon.cpp:182-190 | A listed neighbour is erased, its routes become infinite and an update is queued; an unlisted one changes nothing. |
| `RoutingDaemon.Daemon.ReceiveLocalMip` | src/routing_deamon.cpp:169-172 | A new local address enters the table; one already there changes no route. |
| `RoutingDaemon.Daemon.SendAdvertisment` | src/routing_deamon.cpp:84-129 | One packed table per neighbour the item reaches, in order. |
| `RoutingDaemon.Daemon.UpdateThread` | src/routing_deamon.cpp:239-260 | Takes the oldest queued item and sends for it. |
| `RoutingDaemon.Daemon.LookupThread` | src/routing_deamon.cpp:265-295 | Answers the oldest request with the table's next hop, infinite costs included, or with failure. |
| `RoutingDaemon.SentViews` | src/routing_deamon.cpp:84-129 | Exactly the neighbours the item reaches are sent to, and each receives the sender's split-horizon view. |
| `RoutingForwarding.HopBound` | src/MIP_deamon.cpp:364-388 | Whatever the routing daemons answer, looping tables included, a transport frame is sent over at most 16 links. |
| `RoutingForwarding.DeliveredWithin16` | src/MIP_deamon.cpp:364-388 | Over settled tables and without loss a frame is delivered if and only if its destination is at most 16 links away, and then over a shortest path. |
| `RoutingForwarding.DaemonsMakeJourney` | src/MIP_deamon.cpp:202-269 | The hop-by-hop trip the two theorems speak of is the one the MIP daemons and the links make, whatever other frames wait; a delivered frame is given exactly once, at its destination's node, with the very message, under the address of the interface it left its node over; a frame for a local address goes straight back up. |
| `RoutingForwarding.SentOnce` | src/MIP_deamon.cpp:241-269 | A lookup answer puts the frame on the wire if and only if it names a neighbour, then once, and the neighbour's end of the link is the only place it arrives at. |
| `SessionPath.RerouteGoesUnheard` | src/ClientHandler.cpp:238-240 | A delivered frame comes up under its node's address on the link its first lookup chose, and a handler connected to any other address ignores it. |
| `MipNetwork.AddressesAreTrue` | src/MIP_deamon.cpp:318-351 | In every state any run of any number of daemons reaches, every ARP entry names a real neighbour, the interface that leads to it and its link address. |
| `MipNetwork.DeliveriesAreTrue` | src/MIP_deamon.cpp:202-388 | In every run whatever a transport daemon is given was handed down, byte for byte, at the node that owns the source address, for an address of the node that is given it; loss, duplication, reordering and wrong lookup answers included. |
| `MipNetwork.AdvertsAreTrue` | src/MIP_deamon.cpp:280-362 | In every run whatever a routing daemon is told of an advertisement is what the routing daemon of a neighbour packed for this end of the link, under that neighbour's address on it; every other notice names a neighbour. |
| `MipNetwork.StepSound` | src/MIP_deamon.cpp:202-393 | Every event of every daemon keeps all of that. |
| `MipNetwork.HelloExchange` | src/MIP_deamon.cpp:151-190 | A tick, the arrival of its broadcast over a link and the arrival of the answer make both ends list each other as heard. |
| `MipNetwork.UnicastReaches` | src/RawSock.cpp:112-118 | A frame sent to a listed neighbour reaches that neighbour's end of the link and no other interface. |
| `RoutingForwarding.RelayExact` | src/MIP_deamon.cpp:364-388 | At n links from the destination a frame with a given TTL is delivered over exactly n links if n <= TTL + 1, else dropped after TTL + 1. |
| `MipRouting.AnsweredForOwnDestination` | src/MIP_deamon.cpp:241-269 | In every interleaving the next lookup answer was asked for the frame it is used on; that frame and no other is sent or dropped. |
| `MipRouting.SameDestinationInOrder` | src/MIP_deamon.cpp:202-269 | Over every interleaving the frames for one destination leave a node, or are dropped, in the order they arrived, each by an answer asked for that destination, as at most one frame and itself but for the source address. |
| `MipRouting.TurnComes` | src/MIP_deamon.cpp:241-269 | A frame with n others before it is at the front of the lookup queue once n have left, with what came later behind it. |
| `MipRouting.NeighboursMirrored` | src/routing_deamon.cpp:173-190 | In every interleaving the notices on their way turn the neighbour list into exactly the ARP table's addresses, in order. |
| `MipRouting.StepKeeps` | src/MIP_deamon.cpp:202-393 | Every step of either daemon keeps both correspondences and the absence of double ARP entries. |
| `MipRouting.SweepMirrored` | src/MIP_deamon.cpp:518-527 | Reading the loss notices of a sweep removes exactly the addresses the sweep removed, order kept. |
| `AdvertPath.AdvertArrives` | src/MIP_deamon.cpp:280-307 | What a routing daemon packs for a listed neighbour is sent in one frame that arrives at that neighbour's end of the link and nowhere else, is reported there under the sender's own address on the link, and unpacks, through a reused frame and the rounding of its length, to exactly the sender's split-horizon view. |
| `AdvertPath.AdvertIsDelivered` | src/MIP_deamon.cpp:355-363 | Two MIP daemons and the link between them are a channel of the network of routing nodes: what is reported is what its delivery step applies, under the same neighbour address. |
| `MipRouting.SweepKeepsHeard` | src/MIP_deamon.cpp:518-527 | A sweep keeps exactly the pairs heard since the last one, resets their flag and emits one notice for each of the others. |
| `MipRouting.HeardSurvivesSweep` | src/MIP_deamon.cpp:330-351 | A neighbour that was heard survives the next sweep. |
| `MipRouting.SecondSweepEmpties` | src/MIP_deamon.cpp:518-527 | Two sweeps with silence between them remove every pair and report each once. |
| `MipRouting.ReleasedFrame` | src/MIP_deamon.cpp:241-269 | An answer releases one frame if it names a known neighbour, else none; over that neighbour's interface, a forwarded frame unchanged, one that started here with that interface's address as source. |
| `MipDaemon.Daemon.Sweep` | src/MIP_deamon.cpp:518-527 | The loop that erases while it walks computes the kept pairs and the notices. |
| `MipDaemon.Daemon.Timeout` | src/MIP_deamon.cpp:516-532 | Sweep, then one broadcast per interface. |
| `MipDaemon.Daemon.ReceiveRawSock` | src/MIP_deamon.cpp:318-393 | New state and everything written are those of the specified event, for each TRA value, local or transit, TTL left or used up. |
| `MipDaemon.Daemon.ReceiveTransportSock` | src/MIP_deamon.cpp:202-231 | A frame for a local address goes back up; any other waits for a lookup with TTL 15. |
| `MipDaemon.Daemon.ReceiveLookupSock` | src/MIP_deamon.cpp:241-269 | The oldest waiting frame is sent to the answered neighbour, with its source set only if it started here, or dropped. |
| `MipDaemon.Daemon.ReceiveUpdateSock` | src/MIP_deamon.cpp:280-307 | An advertisement is sent to the named neighbour if it is known, in a reused frame whose message is the bytes and what the rounded length keeps of the last one. |
| `Ports.OneHolderPerPort` | src/transport_deamon.cpp:46-80 | Over every run no nonzero port is held twice, so a frame for a port in use reaches its only holder. |
| `Ports.FreePortIsLeast` | src/transport_deamon.cpp:69-80 | The port handed out is the least free one below 16383; 0 only if all are taken. |
| `Ports.FreePortExists` | src/transport_deamon.cpp:69-80 | A free port is found while fewer than 16382 handlers hold ports, however many hold none. |
| `Ports.ListenRequest` | src/ClientHandler.cpp:53-65 | A new handler that asks to listen on any 16-bit port ends in the listening state holding it if nobody holds it, and is erased otherwise. |
| `Ports.ConnectRequest` | src/ClientHandler.cpp:66-95 | A new handler that asks to connect ends as a client waiting for the reply, with the address and port asked for and the least free port as its own, and exactly one request between the two ports is queued to that address; with no port left it is told so and erased. |
| `HandlerLife.RequestResumes` | src/ClientHandler.cpp:39-111 | A request whose fields arrive in several events is the request that arrives in one, as long as no field read is 0. |
| `HandlerLife.ToldOnce` | src/ClientHandler.cpp:37-237 | Over every life of a handler its application is told at most one code: nothing while it waits, success exactly once when the connection stands, nothing after the end. |
| `HandlerLife.WhatIsTold` | src/ClientHandler.cpp:37-237 | Which code each event gives, by the stages before and after it: success exactly when a waiting handler connects, a timeout exactly when a tick finds it waiting for the reply, a used port only when a request ends it. |
| `HandlerLife.WhoIsHeard` | src/ClientHandler.cpp:171-284 | A listener reacts to requests only, a requester to replies only, a connected handler to nothing from any address or port but its peer's, every other handler to nothing. |
| `HandlerLife.SendsToPeer` | src/ClientHandler.cpp:37-284 | Everything an event queues goes to the peer's address, as a frame of the window or between the two ports; from the request on the peer never changes. |
| `Ports.ListenOnZeroRefused` | src/ClientHandler.cpp:53-65 | A request to listen on port 0 is refused, because the requester itself still holds 0. |
| `Ports.HearsOnlyBelow` | src/MIPTPFrame.cpp:37-51 | Some frame a handler can build reaches the holder of a port if and only if the port is below 16384. |
| `TransportDaemon.Daemon.IsPortFree` | src/transport_deamon.cpp:46-59 | True if and only if no handler holds the port. |
| `TransportDaemon.Daemon.GetFreePort` | src/transport_deamon.cpp:69-80 | The loop returns the first free port. |
| `TransportDaemon.Daemon.SendTransportSock` | src/transport_deamon.cpp:93-113 | Gives the front of the queue, in order, to the MIP daemon until it would block. |
| `TransportDaemon.Daemon.ReceiveTransportFrame` | src/transport_deamon.cpp:126-166 | The frame goes to the first holder of its destination port, every other handler stays as it was, a handler that failed is erased. |
| `TransportDaemon.Daemon.HandleClientSock` | src/transport_deamon.cpp:198-204 | Only the one handler changes, and is erased if it failed. |
| `TransportDaemon.Daemon.HandleClientTimer` | src/transport_deamon.cpp:216-222 | Only the one handler changes, and is erased if it failed. |
| `Encapsulation.RoundTrip` | src/MIPTPFrame.cpp:58-63 | A transport frame with any message of up to 1490 bytes, built with its setters, wrapped, sent over a link that appends anything, received into reused buffers and unwrapped is the same frame in every field and byte. |
| `Encapsulation.Wrap` | src/MIP_deamon.cpp:202-231 | The reused frame ends up with exactly the transport frame's bytes, TRA T, the destination and TTL 15. |
| `Encapsulation.Link` | src/RawSock.cpp:112-130 | Receiving cuts off what the link appended and what the buffer held. |
| `MIP.SizeSurvives` | src/MIPFrame.cpp:94-124 | A message size survives the length field if and only if it is a multiple of 4 and at most 2040. |
| `MIP.SizeRoundedUp` | src/MIPFrame.cpp:94-124 | Up to 2040 any other size is rounded up to the next multiple of four, by the padding of the transport frame's rule. |
| `MIP.Reannounce` | src/RawSock.cpp:129-129 | Setting the size to what the header says keeps what it says. |
| `MIP.MIPFrame.SetMsgSize` | src/MIPFrame.cpp:94-124 | Writes the length field, resizes to it, keeps the common part and every other field. |
| `MIP.MIPFrame.SetMipTTL` | src/MIPFrame.cpp:84-92 | Sets the low four bits of the TTL and nothing else. |
| `MIP.MIPFrame.SetMipTRA` | src/MIPFrame.cpp:35-46 | Sets the low three bits of the TRA value and nothing else. |
| `MIP.MIPFrame.SetMipDest` | src/MIPFrame.cpp:48-64 | Sets the destination and nothing else. |
| `MIP.MIPFrame.SetMipSource` | src/MIPFrame.cpp:66-82 | Sets the source and nothing else. |
| `MIP.MIPFrame.Receive` | src/RawSock.cpp:120-130 | Whatever arrives overwrites the front of the grown buffer, also when it is shorter than a header; the message is then cut to the length the header says. |
| `MIPTP.MIPTPFrame.SetMsgSize` | src/MIPTPFrame.cpp:58-63 | The message has the new size, keeps the common part, the fields stay and the total is a multiple of 4. |
| `MIPTP.MIPTPFrame.SetMsg` | src/MIPTPFrame.cpp:65-71 | The message is the given bytes, the fields stay; the total is a multiple of 4 if it was or the size changed. |
| `MIPTP.MIPTPFrame.SetKind` | src/MIPTPFrame.cpp:21-27 | Sets the type and nothing else. |
| `MIPTP.MIPTPFrame.SetDest` | src/MIPTPFrame.cpp:37-43 | Sets the low 14 bits of the destination port and nothing else. |
| `MIPTP.MIPTPFrame.SetSource` | src/MIPTPFrame.cpp:45-51 | Sets the low 14 bits of the source port and nothing else. |
| `MIPTP.MIPTPFrame.SetSequenceNumber` | src/MIPTPFrame.cpp:53-56 | Sets the low 16 bits of the number and nothing else. |
| `MIPTP.MIPTPFrame.Receive` | src/transport_deamon.cpp:131-143 | The reused frame holds exactly the bytes that came. |
| `MIPTP.Transfer` | src/transport_deamon.cpp:131-143 | Receiving a frame's bytes gives back its fields and bytes. |
| `MIPTP.CalcPadding` | src/MIPTPFrame.cpp:143-151 | Fewer than four bytes that make the size a multiple of 4. |
| `Bits.FieldAfterSet` | src/MIPTPFrame.cpp:37-43 | A bit field reads back as written, truncated to its width. |
| `Bits.OtherFieldAfterSet` | src/MIPTPFrame.cpp:37-51 | A field that does not overlap stays. |

## Left out

- Sockets, epoll, timers, fork/exec, raw interfaces, signals and printing: reads and writes are inputs of an event (bytes, would block, broken pipe), timers are events that may come at any time.
- Threads: each handler body is one atomic step; races on the neighbour list between the routing daemon's threads are not modelled. The update thread's sending to all neighbours is one step.
- Errors the source does not catch (other socket errors, a broken pipe while reporting a timeout) end the daemon and are not modelled; an unknown application request, which aborts, is the `crashed` flag.
- A lost link some third node relied on, or with a second link between the same two nodes: there the loss sets off updates, counting up to infinity included, whose outcome is not described; nor are links that come back. `RoutingLoss.LossOutcome` requires that neither is the case.
- Topologies in which a node reaches the same neighbour address through two of its own interfaces.
- Frames of an earlier connection on the same ports: a session starts with nothing in flight. Ports of the session are below 16384.
- The unset upper bytes in `getSequenceNumber` are taken as zero and the unset `ret` of `sendToSock` on an empty buffer as harmless; all nodes share one byte order.
- `MIPFrame::setSize` as an exact total size: it reserves four bytes more and is used for receive buffers only.
- The message copied into ARP frames: they are modelled by their header fields.
- Link addresses: a number for each interface, all different and none the broadcast address. In `MipNetwork` the links stay as they are.
- Tables with double entries, which an address given to two interfaces leads to: the daemon's notices are described for them, but `DistanceVector.AdvertRoundTrip` and the network of routing nodes speak of tables without.
- `RoutingDaemon.Daemon.ReceiveAdvertisement`: requires a buffer as long as its count says, which `DistanceVector.AdvertRoundTrip` shows of every packed table; the source reads past shorter ones.
- `DistanceVector.DistanceVectorTable.UnpackAdvertisment`: requires a buffer as long as its count says, for the same reason.
- `MIPTP.MIPTPFrame.Receive`: requires at least the 6 header bytes; a frame object here is a header word and what follows it, so a buffer cut shorter than its header has no value.
- `MipDaemon.Daemon.ReceiveUpdateSock`: requires at most 2040 bytes, what the length field can announce; the source would read more into a smaller buffer.
- `MipDaemon.Daemon.ReceiveRawSock`: requires one of the four TRA values; the source throws on others.
- `CircleBuffer`, `EthernetFrame`, the file tools, `main.cpp` and the mininet scripts: unused, trivial or input and output only.
