# Localized causal broadcast: model and proofs

The repository implements uniform reliable, FIFO and localized causal broadcast over UDP, once in Rust
(`rust_src/`) and once in C++ (`template_cpp/`), with a validator for the logs that the nodes write
(`tools/validate_fifo.py`). This project models the two delivery stores, the node threads around the Rust store,
the system of `n` such nodes over a lossy network, the C++ datagram layout and the validator, and proves what
they are for.

* `Messages`, `Store`, `StoreFacts`, `StoreSpec`: the Rust delivery store as a value: the acks, the ack counters, the
  buffer, the FIFO frontier, the delivered set, the clock, the event log and the worklist loop. Facts that every
  `insert` keeps, and the declarative meaning of a sequence of inserts.
* `DeliveredSet`: the same store as the source writes it, an object with nested maps updated in place; every method is
  proved against the value model.
* `Deliveries`: what one insert delivers, as a chain told by the log, the acks and the buffered packets alone.
* `Protocol`, `Process`: a node's threads, one loop turn each, first as functions on a node and then as methods that
  pop and push the node's channels; the system of nodes with the actions broadcast, send, receive, retransmit and
  crash. The network is the set of datagrams ever sent, so loss, delay, reordering and duplication are included.
* `Turns`: what each turn puts in and takes from the channels, the whole enqueue loop, and that a node never has more than
  one copy of a packet to send to another.
* `NodeFacts`, `Invariants`: what holds in every reachable state of a run in which all nodes use one relaying kind.
* `Agreement`: uniformity, uniform agreement and validity once the live nodes lack no ack from each other, agreement of
  logs on contents.
* `Causality`: clock laws, localized causal order over whole runs for any causality map and any inverse of it, and
  that the causal guard never deadlocks.
* `Quiescence`, `CatchUp`: from every reachable state the live nodes can reach a state in which they have nothing left
  to send each other, and, if they are a majority, one in which they agree, in causal order too.
* `Stalls`, `StallingRuns`: exactly when the `Lcb` worklist leaves deliverable packets behind, for single stores and
  for whole runs, and exactly when an `Lcb` system agrees at quiescence.
* `PrunedStore`, `PrunedSet`, `Refinement`: the C++ store as a value and as an object, its pruning invariant, and that it
  hands over the same packets as the Rust store, call by call.
* `PrunedCalls`, `PrunedCausality`, `PrunedStalls`: the calls of one C++ node in its order, exactly when the queue obeys
  the causal guard for all of them, and exactly when the store leaves no packet behind that is due.
* `PrunedDeliveries`: what one C++ insert queues, block by block in the order of the list of nodes that it walks.
* `Wire`: the C++ datagram layout. `Decimal`, `Validator`, `WrittenLogs`: the log lines, the validator, and that it accepts
  the log of every node of the system.

`System.history`, the order of all broadcasts, is a history variable: no action reads it. A node's log keeps whole
payloads; the source's events keep the kind, the owner and the contents. Ids and numbers are unbounded naturals;
`WrittenLogs.NumbersFit` proves that in a run they, and their successors, fit 32 bits.

## Where the code does not do what its documentation says

* `try_delivering` returns, instead of going on with the next entry, when a worklist entry is missing or blocked
  (rust_src/src/delivered.rs:126-133). For `Urb` and `Fifob` the worklist never holds more than one entry and nothing is
  lost. For `Lcb` a deliverable packet can be left in the buffer: `Stalls.StallsForTwoNodes` gives four calls that do
  it. `Stalls.NeverStallsIff` proves, for any two maps, that some calls do it unless no node depends on another and
  the inverse map lists, for each node, nobody or the node itself last. `StallingRuns.StallingRun` gives runs, without a
  crash, that end with such a packet left and nothing left to send, and `StallingRuns.LcbAgreesIff` proves that a system has none if and
  only if it has at most one node, no packets, maps as above, or one packet a node and, for each node, at most one other
  that depends on it, the one that the worklist comes to first. Safety does not suffer (`Causality.CausalOrder`), and a
  datagram that is received again starts the loop again (`CatchUp.AgreementReachable`).
* The C++ `insert` walks the dependencies of the arriving packet's owner instead of the nodes that depend on it, and
  tests the clock of the arriving packet (template_cpp/src/include/delivered_set.hpp:98-103). The model keeps this.
  `PrunedCausality.BreaksForThreeNodes` gives three calls of one node that queue a packet before one that it depends
  on; `PrunedCausality.GuardedIff` proves that some calls, in the order in which one node makes them, do so unless
  every node that is listed as a dependency depends at most on itself. `PrunedStalls.NothingDueIff` proves that some
  such calls leave a packet behind that is next, acked by a majority and not blocked by its clock, unless the nodes
  fall into classes that depend on each other and on no others. Both are excluded only where each node depends on
  itself alone (`PrunedStalls.GuardedAndNothingDueIff`). The calls come from one node; the clocks of other nodes'
  packets are any that lie behind their own packets, so whether a whole system makes the failing ones is not said.
* The C++ `copy_payload` is called with the number of nodes, one less than the clock's length
  (template_cpp/src/include/delivered_set.hpp:91), so a stored clock lacks its last entry. The model keeps this too.

## Model

| member | source | states |
|---|---|---|
| StoreFacts.InsertsCoherent | rust_src/src/delivered.rs:70-151 | after any inserts of any kinds, mixed too: counters are the numbers of distinct ackers, acked packets are exactly the delivered and the buffered ones and never both, and the log holds every delivered packet exactly once |
| StoreFacts.InsertCoherent | rust_src/src/delivered.rs:70-112 | one insert keeps that |
| StoreFacts.InsertFrame | rust_src/src/delivered.rs:70-151 | an insert records one ack, takes back no delivery, and logs and buffers only the new payload and payloads that were buffered before |
| StoreFacts.CascadeMovesBufferToLog | rust_src/src/delivered.rs:114-193 | for any causality map and any inverse, cyclic or wrong, the worklist loop moves packets from the buffer to the log one by one, so it stops and delivers at most what is buffered |
| StoreFacts.InsertMajorityAcked | rust_src/src/delivered.rs:257-308 | for Urb, Fifob and Lcb every delivered packet has a majority of distinct ackers |
| StoreFacts.InsertInOrder | rust_src/src/delivered.rs:153-167 | for Fifob and Lcb the frontier, the delivered set and the log agree for every owner, and each owner's packets are logged as 1, 2, 3, ..., however deep the cascade |
| StoreFacts.InsertCausal | rust_src/src/delivered.rs:169-193 | for Lcb the clock counts the deliveries of each node, and a packet is logged only after as many packets of each dependency as its clock asks for |
| StoreFacts.InsertSettles | rust_src/src/delivered.rs:114-151 | for Urb and Fifob an insert leaves no deliverable packet in the buffer |
| StoreSpec.FifobMeaning | rust_src/src/delivered.rs:70-167 | after any Fifob inserts the frontier of an owner stands just after the longest run of packets 1, 2, ... that each have a majority of distinct ackers, and exactly the packets before it are delivered |
| StoreSpec.FifobOrderDoesNotMatter | rust_src/src/delivered.rs:70-167 | two sequences of Fifob inserts with the same acks, reordered or repeated at will, deliver the same packets |
| StoreSpec.UrbMeaning | rust_src/src/delivered.rs:257-270 | after any Urb inserts a packet is delivered if and only if a majority of distinct nodes acked it |
| StoreSpec.LcbInserts | rust_src/src/delivered.rs:169-193 | after any Lcb inserts frontier, delivered set, log and clock agree and the log obeys the guard |
| Deliveries.InsertDelivers | rust_src/src/delivered.rs:70-193 | one insert of any kind, told without the worklist: the deliveries are a chain that starts with the inserted packet; each is the buffered copy and may be delivered just then (majority, next of its owner, clock met, as its kind asks); the next one is the next packet of the last node that the inverse lists for the owner, or of the owner if it lists nobody; the chain ends exactly where that packet is not buffered or may not be delivered; the buffer loses exactly what was logged; a kind without order delivers at most the packet itself, Rb at once |
| Deliveries.RunInsertDelivers | rust_src/src/delivered.rs:114-193 | so it is for every insert of a genuine packet at any node in any reachable state |
| DeliveredSet.DeliveredSet.constructor | rust_src/src/delivered.rs:24-33 | a new store is empty, with a clock of n + 1 zeros |
| DeliveredSet.DeliveredSet.Insert | rust_src/src/delivered.rs:70-112 | the nested maps end up as the value model's insert says, and no clock index is out of range |
| DeliveredSet.DeliveredSet.TryDelivering | rust_src/src/delivered.rs:114-151 | the worklist loop computes the value model's cascade, which `Deliveries.InsertDelivers` characterises, and terminates |
| DeliveredSet.DeliveredSet.FifobDeliver | rust_src/src/delivered.rs:153-167 | delivers, advances the owner's frontier, and asks for the owner's next packet |
| DeliveredSet.DeliveredSet.LcbDeliver | rust_src/src/delivered.rs:169-193 | also advances the clock, and asks for the next packet of every affected node, in order |
| DeliveredSet.DeliveredSet.Deliver | rust_src/src/delivered.rs:195-211 | marks the packet delivered and appends it to the log, nothing else |
| DeliveredSet.DeliveredSet.Contains | rust_src/src/delivered.rs:213-228 | true exactly if the ack is recorded |
| DeliveredSet.DeliveredSet.MarkAsSeen | rust_src/src/delivered.rs:230-232 | an insert with the node itself as the acker |
| DeliveredSet.DeliveredSet.WasSeen | rust_src/src/delivered.rs:234-240 | true exactly if the node itself has acked the packet |
| DeliveredSet.DeliveredSet.CanUrbDeliver | rust_src/src/delivered.rs:257-270 | true exactly if the packet's counter reached a majority |
| DeliveredSet.DeliveredSet.CanFifobDeliver | rust_src/src/delivered.rs:272-286 | and the packet is next of its owner |
| DeliveredSet.DeliveredSet.CanLcbDeliver | rust_src/src/delivered.rs:288-304 | and the clock has caught up with the packet's clock for every dependency of its owner |
| Process.Process.BestEffortBroadcast | rust_src/src/broadcast.rs:5-18 | queues one copy for every other node, in the order of the host table (`Turns.CopiesAreEach`), and then marks the packet seen |
| Process.Process.ReliableBroadcast | rust_src/src/broadcast.rs:20-24 | does so only if the packet was not seen |
| Process.Process.BroadcastNext | rust_src/src/enqueue.rs:50-79 | one turn of the enqueue loop: number, clock stamp, dispatch event, broadcast |
| Process.Process.EnqueueBroadcasts | rust_src/src/enqueue.rs:44-81 | the whole loop, if no other thread runs meanwhile: what `Turns.BroadcastTurns` says of it |
| Process.Process.SendNext | rust_src/src/tcp.rs:61-72 | one turn of the sending loop: the head goes on the wire with the node's own id, and a copy that is not an ack to the retransmission channel |
| Process.Process.ReceiveOne | rust_src/src/tcp.rs:80-110 | one turn of the receiving loop: answer with an ack, insert, relay what was not seen |
| Process.Process.RetransmitNext | rust_src/src/tcp.rs:117-131 | one turn of the retransmitting loop: drop what is acked, queue the rest again |
| Turns.BroadcastTurn | rust_src/src/enqueue.rs:50-79 | one turn numbers the next packet, stamps the clock, logs the dispatch, and puts at the end of the sending channel, unless the packet was seen, exactly one copy for each host but itself, in the order of the host table |
| Turns.BroadcastTurns | rust_src/src/enqueue.rs:50-81 | count turns dispatch exactly count packets, numbered on from the last, each with its number as contents; the sending channel gains one block for each, in order, with one copy for each other host |
| Turns.ReceiveTurn | rust_src/src/tcp.rs:80-110 | the sending channel gains, at its end, an ack to the sender unless the datagram is one, and then, for an unseen packet of a kind that relays, exactly one copy for each host but itself, in the order of the host table; the store takes the sender's ack and then the node's own |
| Turns.SendTurn | rust_src/src/tcp.rs:61-72 | only the head leaves the sending channel; unless it is an ack it joins the retransmission channel at its end, with the node's own id as the sender |
| Turns.RetransmitTurn | rust_src/src/tcp.rs:117-131 | only the head leaves the retransmission channel; it joins the sending channel at its end if and only if its destination has not acked it |
| Turns.OneCopyUntilAcked | rust_src/src/tcp.rs:61-131 | if no host table lists a node twice: in every reachable state a node has at most one copy of a packet to send to another node, in both channels together, and exactly one from when it has seen the packet until it has that node's ack |
| Invariants.StepAuthentic | rust_src/src/tcp.rs:61-109 | no action makes up a payload: every copy in any channel, on the wire, buffered or logged carries exactly the number, clock and contents that its owner gave it |
| Invariants.StepTruthful | rust_src/src/tcp.rs:61-109 | every recorded ack, queued message and datagram comes from a node that has seen the packet |
| Invariants.StepAcksAnswer | rust_src/src/tcp.rs:83-91 | acks go only to nodes that have seen the packet and are never retransmitted |
| Invariants.StepObliged | rust_src/src/broadcast.rs:9-24 | every action keeps, for each seen packet and other node, a pending copy or a recorded ack |
| Invariants.ReachableInv | rust_src/src/tcp.rs:55-134 | all of these hold in every reachable state |
| Agreement.UniformQuorum | rust_src/src/delivered.rs:257-270 | in every reachable state of a Urb, Fifob or Lcb run, what any node delivered at least n/2 + 1 nodes have seen |
| Agreement.NothingForgotten | rust_src/src/tcp.rs:61-131 | a node that has seen a packet has, for each other node, a copy still to send, or that node's ack, and then that node really has the packet |
| Agreement.DatagramFits | rust_src/src/tcp.rs:81-92 | a received datagram names a sender in the host table and a known owner, and carries a clock of the right length, so handling it does not panic |
| Agreement.QuiescentAcks | rust_src/src/tcp.rs:113-134 | when no live node has a copy of a packet left to send to another live node, each has every live node's ack for all that it has seen |
| Agreement.UniformAgreement | rust_src/src/tcp.rs:55-134 | once each live node has every live node's ack for all that it has seen, whatever is still queued, and at most a minority crashed, every live node has delivered what any node, crashed or not, delivered (Urb and Fifob; Lcb if no packet waits) |
| Agreement.LiveNodesAgree | rust_src/src/delivered.rs:272-286 | and all live nodes have equal delivered sets |
| Agreement.LiveBroadcastsDelivered | rust_src/src/enqueue.rs:44-81 | and have delivered every packet that a live node broadcast |
| Agreement.QuiescentAgreement | rust_src/src/tcp.rs:113-134 | in particular both hold for Urb and Fifob when no live node has a copy of a packet left to send to another |
| Agreement.LogsAgreeOnOwner | rust_src/src/enqueue.rs:50-60 | in Fifob and Lcb runs any two logs deliver, for each owner, prefixes of what the owner broadcast, with the owner's contents and clocks, one a prefix of the other |
| Causality.CausalOrder | rust_src/src/delivered.rs:288-304 | localized causal order: in every reachable state of an Lcb run a delivered packet comes, in the node's log, after everything from which a chain of FIFO predecessors and localized dependencies leads to it |
| Causality.ClockLaws | rust_src/src/enqueue.rs:52-60 | an owner's stamped clocks never decrease, never count what was not broadcast, and its own entry stays below the packet's number |
| Causality.GuardNeverDeadlocks | rust_src/src/delivered.rs:288-304 | once each live node, of a majority, has every live node's ack for all that it has seen: if a live node has not delivered a packet that it has seen with all its FIFO predecessors, some buffered packet passes the Lcb guard there |
| Quiescence.MissingNeverRises | rust_src/src/tcp.rs:80-131 | no action but a broadcast adds to the acks that live nodes lack from each other |
| Quiescence.RoundLowersMissing | rust_src/src/tcp.rs:80-131 | while one is lacking for a packet that was seen, one loss-free round lowers their number: the holder sends until a copy is on the wire, the other receives it and sends until its ack is on the wire, the holder receives that |
| Quiescence.QuiescenceReachable | rust_src/src/tcp.rs:55-134 | from every reachable state some finite continuation by the live nodes, without broadcasts and crashes, leads to a state in which their channels hold nothing, not even an ack, for a live node |
| CatchUp.CatchesUp | rust_src/src/tcp.rs:80-110 | in an Lcb run without missing acks among the live nodes, a majority, receipts of datagrams sent before are enough to make each live node deliver all that it has seen with its FIFO predecessors |
| CatchUp.AgreementReachable | rust_src/src/tcp.rs:55-134 | with a live majority a Urb, Fifob or Lcb run can always go on to a state in which the channels of the live nodes hold nothing for a live node and every live node has delivered all that live nodes broadcast and all that any node delivered |
| Stalls.NeverStallsIff | rust_src/src/delivered.rs:119-133 | for any causality map and any inverse: Lcb inserts never leave a deliverable packet in the buffer if and only if no node depends on another and the inverse lists, for each node, nobody or the node itself last |
| Stalls.StallsForTwoNodes | rust_src/src/delivered.rs:126-133 | four inserts at one of two nodes that leave a deliverable packet behind |
| StallingRuns.StallingRun | rust_src/src/delivered.rs:119-133 | for every system outside the exact condition, a reachable state without a crash, a missing ack or anything, even an ack, in a channel, in which a node buffers a packet that passes the guard |
| StallingRuns.LcbAgreesIff | rust_src/src/delivered.rs:114-193 | an Lcb system always agrees once no ack is missing, and also once nothing is left to send, and never leaves a deliverable packet in a buffer, each if and only if its maps and its numbers of nodes and packets are as that condition says |
| PrunedStore.InsertPrunedInv | template_cpp/src/include/delivered_set.hpp:75-113 | for any causality map, an insert keeps the pruning invariant: nothing is kept before a frontier, counters from it on are exact and exactly the acked packets are stored, the clock is the frontier less one, and every queued pointer is a packet, next in order and acked by a majority |
| PrunedStore.InsertsPrunedInv | template_cpp/src/include/delivered_set.hpp:49-113 | so it holds after any sequence of calls on a new store |
| PrunedSet.PrunedSet.constructor | template_cpp/src/include/delivered_set.hpp:49-64 | a new store has empty maps, frontiers 1 and a zero clock |
| PrunedSet.PrunedSet.Insert | template_cpp/src/include/delivered_set.hpp:75-113 | the object ends up as the value model's insert says, which `PrunedDeliveries.InsertQueues` characterises |
| PrunedSet.PrunedSet.Drain | template_cpp/src/include/delivered_set.hpp:99-110 | the inner loop computes the value model's drain and terminates for any causality map |
| PrunedSet.PrunedSet.CanLcbDeliver | template_cpp/src/include/delivered_set.hpp:120-131 | true exactly if the clock has caught up and the next packet has a majority; the store it stands for does not change although reading a counter may create it |
| PrunedSet.PrunedSet.CanUrbDeliver | template_cpp/src/include/delivered_set.hpp:133-138 | true exactly if the packet lies before the frontier or its counter exceeds n/2, whose meaning `PrunedDeliveries.CanUrbMeans` gives |
| PrunedSet.PrunedSet.WasSeen | template_cpp/src/include/delivered_set.hpp:142-144 | true exactly if the node itself has acked the packet |
| PrunedSet.PrunedSet.MarkAsSeen | template_cpp/src/include/delivered_set.hpp:140 | an insert with the node itself as the acker |
| PrunedDeliveries.InsertQueues | template_cpp/src/include/delivered_set.hpp:75-113 | one insert, told by the queue, the acks and the stored copies: the first ack of a packet that was not queued stores its copy; if the packet is next of its owner the queue gains one block for each node listed for the owner, in the order of the list; a block holds the next packets of its node, as stored, as long as they have a majority and the queue has what the arriving clock asks for of the node's dependencies, and ends where one does not; exactly what was queued is no longer stored |
| PrunedDeliveries.CanUrbMeans | template_cpp/src/include/delivered_set.hpp:133-138 | although counters are erased, the answer for any packet numbered from 1 is true if and only if a majority of distinct nodes acked it |
| PrunedDeliveries.ServedInListOrder | template_cpp/src/include/delivered_set.hpp:97-113 | six calls of node 5 of five after which the packet that arrives and the one of the node listed second are queued in the order of the list |
| Refinement.PrunedRefines | template_cpp/src/include/delivered_set.hpp:75-138 | if each node depends on itself only and an owner's clock entry stays behind its packets, any calls make the C++ store queue the same packets in the same order as the Rust store logs them, with the same acks and frontiers |
| Refinement.PrunedWritesTheSame | template_cpp/src/include/delivered_set.hpp:89-105 | and if all copies of a packet carry the same contents, the contents handed over are the same |
| PrunedCausality.GuardedIff | template_cpp/src/include/delivered_set.hpp:98-131 | for all calls in the order in which one node makes them the C++ queue obeys the guard of localized causal order if and only if every node listed as a dependency depends, of the system's nodes, at most on itself |
| PrunedCausality.BreaksForThreeNodes | template_cpp/src/include/delivered_set.hpp:98-103 | three calls of node 3 of three that queue a packet before the packet of its dependency that its clock asks for |
| PrunedStalls.NothingDueIff | template_cpp/src/include/delivered_set.hpp:97-113 | for all calls in the order in which one node makes them the C++ store leaves no packet that is next, acked by a majority and not blocked by its clock, if and only if the nodes fall into classes that depend on each other and on no others |
| PrunedStalls.GuardedAndNothingDueIff | template_cpp/src/include/delivered_set.hpp:97-131 | both hold for all such calls if and only if each node depends on itself and on no other node |
| Wire.RoundTrip | template_cpp/src/src/messages.cpp:15-62 | decoding an encoded payload at the returned length restores every field, the whole buffer and the whole clock |
| Wire.DecodedIsEncoded | template_cpp/src/src/messages.cpp:38-62 | exactly the datagrams that are long enough are decoded, each is the encoding of what it decodes to, but for a flag byte above 1, which is read as true |
| Wire.EncodingIsInjective | template_cpp/src/src/messages.cpp:15-36 | two payloads of a system have different datagrams |
| Wire.Layout | template_cpp/src/src/messages.cpp:15-36 | bytes 0 to 3 are the packet number, 4 to 7 the sender, 8 to 11 the owner, 12 the flag, then the contents and the clock, each word with its lowest byte first |
| Wire.Encode | template_cpp/src/src/messages.cpp:15-36 | writes exactly the datagram at the start of the buffer and returns its length |
| Wire.Decode | template_cpp/src/src/messages.cpp:38-62 | reads what the datagram says, or nothing if it is too short for its clock |
| Validator.CheckProcess | tools/validate_fifo.py:32-69 | accepts exactly the logs whose broadcasts and whose deliveries from each sender are numbered 1, 2, 3, ..., with m from every sender heard if m is not 0; raises an error exactly if an unreadable line comes before any line out of order |
| Validator.CheckNextMessages | tools/validate_fifo.py:18-29 | true exactly if m is 0 or every sender heard was heard m times |
| Validator.LineMeans | tools/validate_fifo.py:37-62 | a line is unreadable if and only if it is empty, starts with "b" without a numeral second, or starts with "d" without numerals second and third; it is passed over if and only if it starts with neither; otherwise it says the numbers that the numerals denote |
| Validator.LineByLine | tools/validate_fifo.py:18-69 | a log is in order if and only if each broadcast line has one more than the number of broadcast lines before it, and each delivery line one more than the number of delivery lines of its sender before it; it is complete if and only if m is 0 or m lines deliver from each sender heard |
| Decimal.ParseMeans | tools/validate_fifo.py:43-57 | a word is read as a number if and only if it is an optional sign and digits, and as the number that they denote |
| Decimal.ReadBack | tools/validate_fifo.py:43-57 | reading a written number gives the number |
| Decimal.Written | rust_src/src/enqueue.rs:51 | a number is written in its own decimal digits, without leading zeros |
| WrittenLogs.NodeLogLines | rust_src/src/delivered.rs:346-374 | each line of the log of a node of a Fifob or Lcb run is exactly "b" and a number or "d", an owner and a number, and the number is that of the node's broadcasts, or of the owner's deliveries, up to that line |
| WrittenLogs.NodeLogAccepted | rust_src/src/delivered.rs:346-374 | the lines that the writer makes of the log of any node of a Fifob or Lcb run are accepted with m = 0, and list exactly what the node broadcast and delivered |
| WrittenLogs.NumbersFit | rust_src/src/udp.rs:10-37 | in a run of any relaying kind with fewer than 2^32 - 1 nodes and messages no counter, frontier, clock entry or packet number wraps |

## Left out

- Sockets, bincode, files, signals, threads, sleeps and timers: a retransmission may happen at any time, and a datagram
  sent may or may not be received.
- Races between a node's threads: each loop turn is one action. In particular the clock is read and the packet marked
  seen in one step (rust_src/src/enqueue.rs:58, rust_src/src/broadcast.rs:9-17). The calls of one C++ node
  (`PrunedCalls`) are taken in turns, too: a broadcast (template_cpp/src/src/broadcast.cpp:58-66) or the receipt of one
  datagram (template_cpp/src/src/tcp.cpp:49-51).
- `enqueue_tcp_messages` and runs of the kinds `Tcp` and `Beb`: no relaying, only easy properties. Runs that mix kinds,
  except for `StoreFacts.InsertsCoherent`.
- The panics of `String::from_utf8` and of a missing host: contents are strings; `Agreement.DatagramFits` shows that a
  sender is always in the host table.
- Text parsing: `config_parser.rs`, `hosts.rs` and the C++ `Parser`. The Rust parser numbers the causality map from 0 while
  ids start at 1 (rust_src/src/config_parser.rs:63); here both maps are arbitrary parameters, the same at all nodes.
- The C++ transport, `SafeQueue`, memory management and the dumping of logs; the Rust transport is modelled instead. So
  runs of a whole C++ system are not: `PrunedCausality` and `PrunedStalls` speak of the calls of one node.
- Real time and fairness: `Quiescence` proves that the good state stays reachable, not that it is reached.
- The worklist's kind component: the source never reads it.
- Wire.Encode: words are little-endian, as on the machines the program is built for; `memcpy` copies byte by byte here.
- Wire.DecodedIsEncoded: a flag byte above 1 is no boolean in C++; the model reads it as true.
- Decimal.ReadBack: of Python's numerals only decimal digits with an optional sign are read.
