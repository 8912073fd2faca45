/** A system of `n` nodes as a transition system. Each action is one turn of one of the source's thread
    loops (`enqueue.rs`, `tcp.rs`), taken atomically, or the crash of a node. The network is the set of
    datagrams ever sent, so a datagram may be lost, delayed, reordered or received many times. */
module Protocol {
  import opened Basics
  import opened Messages
  import opened Store
  import Decimal

  datatype Message = Message(payload: Payload, dest: nat)

  /** `sent` is the counter of the enqueue loop. */
  datatype Node = Node(
    store: Store,
    sending: seq<Message>,
    retrans: seq<Message>,
    sent: nat,
    crashed: bool)

  /** `history` lists the packets in the order in which they were broadcast; no action reads it. */
  datatype System = System(nodes: map<nat, Node>, network: set<Message>, history: seq<Key>)

  datatype Action =
    | Broadcast(i: nat)
    | Send(i: nat)
    | Receive(m: Message)
    | Retransmit(i: nat)
    | Crash(i: nat)

  // ---- broadcast.rs ----

  /** One copy of `p` for each of `peers` but `self`. */
  function Copies(peers: seq<nat>, self: nat, p: Payload): seq<Message>
  {
    if peers == [] then
      []
    else
      var last := peers[|peers| - 1];
      Copies(peers[..|peers| - 1], self, p) + if last == self then [] else [Message(p, last)]
  }

  function BestEffort(cfg: Config, i: nat, node: Node, p: Payload): Node
  {
    node.(sending := node.sending + Copies(cfg.Peers(i), i, p),
          store := Insert(cfg, node.store, i, p))
  }

  function Reliable(cfg: Config, i: nat, node: Node, p: Payload): Node
  {
    if Ack(i, p.Id()) in node.store.acked then node else BestEffort(cfg, i, node, p)
  }

  // ---- enqueue.rs ----

  function OwnPayload(cfg: Config, i: nat, node: Node): Payload
  {
    Payload(i, i, node.sent + 1, cfg.kind, false, node.store.clock, Decimal.ToString(node.sent + 1))
  }

  function NodeBroadcast(cfg: Config, i: nat, node: Node): Node
  {
    var p := OwnPayload(cfg, i, node);
    var t := node.(sent := node.sent + 1, store := node.store.(log := node.store.log + [Dispatch(p)]));
    if cfg.kind == Beb then BestEffort(cfg, i, t, p) else Reliable(cfg, i, t, p)
  }

  /** `count` turns of the enqueue loop, with no other thread in between. */
  function NodeBroadcasts(cfg: Config, i: nat, node: Node, count: nat): Node
  {
    if count == 0 then node else NodeBroadcast(cfg, i, NodeBroadcasts(cfg, i, node, count - 1))
  }

  // ---- tcp.rs ----

  function Stamped(i: nat, m: Message): Message
  {
    m.(payload := m.payload.(sender := i))
  }

  function NodeSend(i: nat, node: Node): Node
    requires node.sending != []
  {
    var m := Stamped(i, node.sending[0]);
    node.(sending := node.sending[1..],
          retrans := if m.payload.isAck then node.retrans else node.retrans + [m])
  }

  function Acknowledge(node: Node, p: Payload): Node
  {
    if p.isAck then
      node
    else
      node.(sending := node.sending + [Message(p.(isAck := true), p.sender)])
  }

  function NodeReceive(cfg: Config, j: nat, node: Node, p: Payload): Node
  {
    var t := Acknowledge(node, p);
    var u := t.(store := Insert(cfg, t.store, p.sender, p));
    match p.kind
    case Tcp => u
    case Beb => u
    case _ => Reliable(cfg, j, u, p)
  }

  function NodeRetransmit(node: Node): Node
    requires node.retrans != []
  {
    var m := node.retrans[0];
    var t := node.(retrans := node.retrans[1..]);
    if Ack(m.dest, m.payload.Id()) in node.store.acked then t else t.(sending := t.sending + [m])
  }

  // ---- The system ----

  function Init(cfg: Config): System
  {
    System(map i | i in Ids(cfg.n) :: Node(Empty(cfg.n), [], [], 0, false), {}, [])
  }

  predicate Live(sys: System, i: nat)
  {
    i in sys.nodes && !sys.nodes[i].crashed
  }

  predicate Enabled(cfg: Config, sys: System, a: Action)
  {
    match a
    case Broadcast(i) => Live(sys, i) && sys.nodes[i].sent < cfg.messages && cfg.kind != Tcp
    case Send(i) => Live(sys, i) && sys.nodes[i].sending != []
    case Receive(m) => Live(sys, m.dest) && m in sys.network
    case Retransmit(i) => Live(sys, i) && sys.nodes[i].retrans != []
    case Crash(i) => Live(sys, i)
  }

  /** The node that takes the action. */
  function Actor(a: Action): nat
  {
    match a
    case Broadcast(i) => i
    case Send(i) => i
    case Receive(m) => m.dest
    case Retransmit(i) => i
    case Crash(i) => i
  }

  function NodeStep(cfg: Config, node: Node, a: Action): Node
    requires a.Send? ==> node.sending != []
    requires a.Retransmit? ==> node.retrans != []
  {
    match a
    case Broadcast(i) => NodeBroadcast(cfg, i, node)
    case Send(i) => NodeSend(i, node)
    case Receive(m) => NodeReceive(cfg, m.dest, node, m.payload)
    case Retransmit(i) => NodeRetransmit(node)
    case Crash(i) => node.(crashed := true)
  }

  function Step(cfg: Config, sys: System, a: Action): System
    requires Enabled(cfg, sys, a)
  {
    var i := Actor(a);
    var node := sys.nodes[i];
    System(sys.nodes[i := NodeStep(cfg, node, a)],
           if a.Send? then sys.network + {Stamped(i, node.sending[0])} else sys.network,
           if a.Broadcast? then sys.history + [Key(i, node.sent + 1)] else sys.history)
  }

  /** The actions can be taken one after the other. */
  predicate Executable(cfg: Config, sys: System, actions: seq<Action>)
    decreases |actions|
  {
    actions == [] || (Enabled(cfg, sys, actions[0]) && Executable(cfg, Step(cfg, sys, actions[0]), actions[1..]))
  }

  function Exec(cfg: Config, sys: System, actions: seq<Action>): System
    requires Executable(cfg, sys, actions)
    decreases |actions|
  {
    if actions == [] then sys else Exec(cfg, Step(cfg, sys, actions[0]), actions[1..])
  }

  /** The parameters make sense: every node's host table lists exactly the ids `1..n`. */
  ghost predicate Proper(cfg: Config)
  {
    forall i, j: nat :: i in Ids(cfg.n) ==> (j in cfg.Peers(i) <==> j in Ids(cfg.n))
  }

  /** The kinds whose receivers relay what they have not seen. */
  predicate Relaying(kind: Kind)
  {
    kind in {Rb, Urb, Fifob, Lcb}
  }

  ghost predicate Reachable(cfg: Config, sys: System)
  {
    exists actions :: Executable(cfg, Init(cfg), actions) && sys == Exec(cfg, Init(cfg), actions)
  }
}
