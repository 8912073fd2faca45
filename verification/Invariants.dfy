/** What holds in every reachable state of a run in which all nodes use one relaying kind. */
module Invariants {
  import opened Basics
  import opened Messages
  import opened Store
  import opened StoreFacts
  import opened Protocol
  import opened NodeFacts
  import Decimal

  // ---- Each store is sound for the kind of the run ----

  ghost predicate StoreInv(cfg: Config, s: Store)
  {
    && Coherent(s)
    && Buffers(s, {cfg.kind})
    && |s.clock| == cfg.n + 1
    && (Uniform(cfg.kind) ==> MajorityAcked(cfg, s))
    && (cfg.kind in {Fifob, Lcb} ==> InOrder(s))
    && (cfg.kind in {Urb, Fifob} ==> Settled(cfg, s))
    && (cfg.kind == Lcb ==> Causal(cfg, s))
    && Unordered(s, cfg.kind)
  }

  lemma InsertStoreInv(cfg: Config, s: Store, sender: nat, p: Payload)
    requires StoreInv(cfg, s) && p.kind == cfg.kind
    ensures StoreInv(cfg, Insert(cfg, s, sender, p))
  {
    InsertFrame(cfg, s, sender, p);
    InsertCoherent(cfg, s, sender, p);
    InsertUnordered(cfg, s, sender, p);
    if Uniform(cfg.kind) {
      InsertMajorityAcked(cfg, s, sender, p);
    }
    if cfg.kind in {Fifob, Lcb} {
      InsertInOrder(cfg, s, sender, p);
    }
    if cfg.kind in {Urb, Fifob} {
      InsertSettles(cfg, s, sender, p);
    }
    if cfg.kind == Lcb {
      InsertCausal(cfg, s, sender, p);
    }
  }

  lemma DispatchLogsOnce(s: Store, p: Payload)
    requires LoggedOnce(s)
    ensures LoggedOnce(s.(log := s.log + [Dispatch(p)]))
  {
    var t := s.(log := s.log + [Dispatch(p)]);
    assert forall i: nat, k :: DeliversAt(s.log, i, k) <==> DeliversAt(t.log, i, k);
  }

  lemma DispatchCausal(cfg: Config, s: Store, p: Payload)
    requires Causal(cfg, s)
    ensures Causal(cfg, s.(log := s.log + [Dispatch(p)]))
  {
    CausalLogAppend(cfg, s.log, Dispatch(p));
    hide CausalLog;
    forall d {
      CountAppend(s.log, Dispatch(p), d);
    }
  }

  lemma DispatchStoreInv(cfg: Config, s: Store, p: Payload)
    requires StoreInv(cfg, s)
    ensures StoreInv(cfg, s.(log := s.log + [Dispatch(p)]))
  {
    DispatchLogsOnce(s, p);
    if cfg.kind in {Fifob, Lcb} {
      FifoLogAppend(s.log, Dispatch(p));
      forall o {
        CountAppend(s.log, Dispatch(p), o);
      }
    }
    if cfg.kind == Lcb {
      DispatchCausal(cfg, s, p);
    }
  }

  lemma EmptyStoreInv(cfg: Config)
    ensures StoreInv(cfg, Empty(cfg.n))
  {
  }

  lemma NodeStepStoreInv(cfg: Config, node: Node, a: Action)
    requires StoreInv(cfg, node.store) && Relaying(cfg.kind)
    requires a.Send? ==> node.sending != []
    requires a.Retransmit? ==> node.retrans != []
    requires a.Receive? ==> a.m.payload.kind == cfg.kind
    ensures StoreInv(cfg, NodeStep(cfg, node, a).store)
  {
    hide StoreInv, Insert;
    match a {
      case Broadcast(i) =>
        var p := OwnPayload(cfg, i, node);
        var s := node.store.(log := node.store.log + [Dispatch(p)]);
        DispatchStoreInv(cfg, node.store, p);
        InsertStoreInv(cfg, s, i, p);
      case Receive(m) =>
        var s := Insert(cfg, node.store, m.payload.sender, m.payload);
        InsertStoreInv(cfg, node.store, m.payload.sender, m.payload);
        InsertStoreInv(cfg, s, m.dest, m.payload);
      case _ =>
    }
  }

  // ---- Nothing is made up: every payload is a copy of one that its owner broadcast ----

  function Own(sys: System, o: nat): seq<Payload>
    requires o in sys.nodes
  {
    Dispatched(sys.nodes[o].store.log)
  }

  ghost predicate Genuine(sys: System, p: Payload)
  {
    p.owner in sys.nodes && 1 <= p.packet <= |Own(sys, p.owner)| && Twin(p, Own(sys, p.owner)[p.packet - 1])
  }

  /** Node `i` numbered its own packets 1, 2, ..., `sent` and wrote each number in the packet. */
  ghost predicate NumberedAt(cfg: Config, i: nat, node: Node)
  {
    var own := Dispatched(node.store.log);
    && node.sent == |own| <= cfg.messages
    && (forall q: nat :: q < |own| ==>
          own[q] == Payload(i, i, q + 1, cfg.kind, false, own[q].clock, Decimal.ToString(q + 1)))
    && (forall q: nat :: q < |own| ==> |own[q].clock| == cfg.n + 1)
  }

  ghost predicate Authentic(cfg: Config, sys: System)
  {
    && sys.nodes.Keys == Ids(cfg.n)
    && (forall i :: i in sys.nodes ==> NumberedAt(cfg, i, sys.nodes[i]))
    && (forall i, p :: i in sys.nodes && Holds(sys.nodes[i], p) ==> Genuine(sys, p))
    && (forall m :: m in sys.network ==> Genuine(sys, m.payload))
  }

  ghost predicate Stores(cfg: Config, sys: System)
  {
    forall i :: i in sys.nodes ==> StoreInv(cfg, sys.nodes[i].store)
  }

  lemma GenuineKind(cfg: Config, sys: System, p: Payload)
    requires Authentic(cfg, sys) && Genuine(sys, p)
    ensures p.kind == cfg.kind && |p.clock| == cfg.n + 1 && p.buffer == Decimal.ToString(p.packet)
    ensures p.owner in Ids(cfg.n) && 1 <= p.packet <= sys.nodes[p.owner].sent <= cfg.messages
  {
    assert NumberedAt(cfg, p.owner, sys.nodes[p.owner]);
  }

  lemma TwinGenuine(sys: System, p: Payload, q: Payload)
    requires Genuine(sys, p) && Twin(q, p)
    ensures Genuine(sys, q)
  {
  }

  lemma GenuineStays(sys: System, after: System, p: Payload)
    requires Genuine(sys, p) && sys.nodes.Keys == after.nodes.Keys
    requires forall i :: i in sys.nodes ==> Own(sys, i) <= Own(after, i)
    ensures Genuine(after, p)
  {
  }

  lemma NodeStepNumbered(cfg: Config, i: nat, node: Node, a: Action)
    requires NumberedAt(cfg, i, node) && Relaying(cfg.kind) && |node.store.clock| == cfg.n + 1
    requires a.Broadcast? ==> a.i == i && node.sent < cfg.messages
    requires a.Send? ==> node.sending != []
    requires a.Retransmit? ==> node.retrans != []
    requires a.Receive? ==> a.m.payload.kind == cfg.kind
    ensures NumberedAt(cfg, i, NodeStep(cfg, node, a))
  {
    hide NodeBroadcast, NodeReceive;
    match a {
      case Broadcast(_) => BroadcastEffect(cfg, i, node);
      case Receive(m) => ReceiveEffect(cfg, m.dest, node, m.payload);
      case _ =>
    }
  }

  lemma StoreClock(cfg: Config, s: Store)
    requires StoreInv(cfg, s)
    ensures |s.clock| == cfg.n + 1
  {
  }

  lemma StepAuthentic(cfg: Config, sys: System, a: Action)
    requires Authentic(cfg, sys) && Stores(cfg, sys) && Enabled(cfg, sys, a) && Relaying(cfg.kind)
    requires a.Receive? ==> a.m.payload.kind == cfg.kind
    ensures Authentic(cfg, Step(cfg, sys, a))
  {
    hide NodeStep, Genuine, NumberedAt, Holds, StoreInv;
    var after := Step(cfg, sys, a);
    StoreClock(cfg, sys.nodes[Actor(a)].store);
    NodeStepNumbered(cfg, Actor(a), sys.nodes[Actor(a)], a);
    forall i, q | i in after.nodes && Holds(after.nodes[i], q)
      ensures Genuine(after, q)
    {
      StepPayloadGenuine(cfg, sys, a, i, q);
    }
    forall m | m in after.network
      ensures Genuine(after, m.payload)
    {
      StepDatagramGenuine(cfg, sys, a, m);
    }
  }

  lemma StepDatagramGenuine(cfg: Config, sys: System, a: Action, m: Message)
    requires Authentic(cfg, sys) && Enabled(cfg, sys, a) && Relaying(cfg.kind)
    requires a.Receive? ==> a.m.payload.kind == cfg.kind
    requires m in Step(cfg, sys, a).network
    ensures Genuine(Step(cfg, sys, a), m.payload)
  {
    hide NodeStep, StoreHolds;
    StepGrows(cfg, sys, a);
    if m !in sys.network {
      var head := sys.nodes[a.i].sending[0];
      assert Queued(sys.nodes[a.i], head.payload);
      TwinGenuine(sys, head.payload, m.payload);
    }
    GenuineStays(sys, Step(cfg, sys, a), m.payload);
  }

  lemma StepPayloadGenuine(cfg: Config, sys: System, a: Action, i: nat, q: Payload)
    requires Authentic(cfg, sys) && Stores(cfg, sys) && Enabled(cfg, sys, a) && Relaying(cfg.kind) && i in sys.nodes
    requires a.Receive? ==> a.m.payload.kind == cfg.kind
    requires Holds(Step(cfg, sys, a).nodes[i], q)
    ensures Genuine(Step(cfg, sys, a), q)
  {
    var after := Step(cfg, sys, a);
    StepGrows(cfg, sys, a);
    var p := StepHolds(cfg, sys, a, i, q);
    if Holds(sys.nodes[i], p) || a.Receive? {
      GenuineStays(sys, after, p);
    } else {
      BroadcastEffect(cfg, i, sys.nodes[i]);
      assert NumberedAt(cfg, i, sys.nodes[i]);
    }
    TwinGenuine(after, p, q);
  }

  // ---- Acks tell the truth ----

  /** Node `i` has marked packet `k` as seen. */
  predicate Seen(sys: System, i: nat, k: Key)
  {
    i in sys.nodes && Ack(i, k) in sys.nodes[i].store.acked
  }

  /** An ack that a node has recorded was given by a node that has seen the packet, and the node itself has
      seen it too. */
  ghost predicate AckersSaw(sys: System)
  {
    forall i, a :: i in sys.nodes && a in sys.nodes[i].store.acked ==>
      Seen(sys, a.sender, a.key) && Seen(sys, i, a.key)
  }

  /** A node has seen whatever it has to send. */
  ghost predicate QueuesSeen(sys: System)
  {
    forall i, m :: i in sys.nodes && (m in sys.nodes[i].sending || m in sys.nodes[i].retrans) ==>
      Seen(sys, i, m.payload.Id())
  }

  /** A datagram comes from a node that has seen the packet. */
  ghost predicate WireSeen(sys: System)
  {
    forall m :: m in sys.network ==> Seen(sys, m.payload.sender, m.payload.Id())
  }

  ghost predicate Truthful(sys: System)
  {
    AckersSaw(sys) && QueuesSeen(sys) && WireSeen(sys)
  }

  /** A queued ack goes only to a node that has seen the packet, and is never retransmitted. */
  ghost predicate AcksAnswer(sys: System)
  {
    && (forall i, m :: i in sys.nodes && m in sys.nodes[i].sending && m.payload.isAck ==>
          Seen(sys, m.dest, m.payload.Id()))
    && (forall i, m :: i in sys.nodes && m in sys.nodes[i].retrans ==> !m.payload.isAck)
  }

  /** So does an ack on the wire. */
  ghost predicate WireAcksAnswer(sys: System)
  {
    forall m :: m in sys.network && m.payload.isAck ==> Seen(sys, m.dest, m.payload.Id())
  }

  lemma SeenStays(cfg: Config, sys: System, a: Action)
    requires Enabled(cfg, sys, a) && Relaying(cfg.kind)
    requires a.Receive? ==> a.m.payload.kind == cfg.kind
    ensures forall j, k :: Seen(sys, j, k) ==> Seen(Step(cfg, sys, a), j, k)
  {
    StepGrows(cfg, sys, a);
  }

  /** The packet that a broadcast or a receive is about. */
  function Subject(cfg: Config, sys: System, a: Action): Payload
    requires a.Receive? || (a.Broadcast? && a.i in sys.nodes)
  {
    if a.Receive? then a.m.payload else OwnPayload(cfg, a.i, sys.nodes[a.i])
  }

  lemma StepAcks(cfg: Config, sys: System, a: Action)
    requires Enabled(cfg, sys, a) && Relaying(cfg.kind)
    requires a.Receive? ==> a.m.payload.kind == cfg.kind
    ensures var i := Actor(a);
      Step(cfg, sys, a).nodes[i].store.acked == sys.nodes[i].store.acked +
        if a.Broadcast? || a.Receive? then
          var k := Subject(cfg, sys, a).Id(); {Ack(i, k), Ack(if a.Receive? then a.m.payload.sender else i, k)}
        else {}
  {
    match a {
      case Broadcast(i) => BroadcastEffect(cfg, i, sys.nodes[i]);
      case Receive(m) => ReceiveEffect(cfg, m.dest, sys.nodes[m.dest], m.payload);
      case _ =>
    }
  }

  lemma StepSending(cfg: Config, sys: System, a: Action, m: Message)
    requires Enabled(cfg, sys, a) && Relaying(cfg.kind)
    requires a.Receive? ==> a.m.payload.kind == cfg.kind
    requires m in Step(cfg, sys, a).nodes[Actor(a)].sending
    ensures var i, node := Actor(a), sys.nodes[Actor(a)];
      || m in node.sending
      || (a.Retransmit? && m == node.retrans[0])
      || (a.Receive? && m == Message(a.m.payload.(isAck := true), a.m.payload.sender))
      || ((a.Receive? || a.Broadcast?) && m.payload == Subject(cfg, sys, a)
          && Ack(i, m.payload.Id()) !in node.store.acked)
  {
    var i := Actor(a);
    if a.Broadcast? || a.Receive? {
      CopiesContents(cfg.Peers(i), i, Subject(cfg, sys, a));
    }
    match a {
      case Broadcast(_) => BroadcastEffect(cfg, i, sys.nodes[i]);
      case Receive(r) => ReceiveEffect(cfg, i, sys.nodes[i], r.payload);
      case _ =>
    }
  }

  lemma StepRetrans(cfg: Config, sys: System, a: Action, m: Message)
    requires Enabled(cfg, sys, a) && Relaying(cfg.kind)
    requires a.Receive? ==> a.m.payload.kind == cfg.kind
    requires m in Step(cfg, sys, a).nodes[Actor(a)].retrans
    ensures var i, node := Actor(a), sys.nodes[Actor(a)];
      m in node.retrans || (a.Send? && m == Stamped(i, node.sending[0]) && !m.payload.isAck)
  {
    match a {
      case Broadcast(i) => BroadcastEffect(cfg, i, sys.nodes[i]);
      case Receive(r) => ReceiveEffect(cfg, r.dest, sys.nodes[r.dest], r.payload);
      case _ =>
    }
  }

  lemma StepAckersSaw(cfg: Config, sys: System, a: Action)
    requires Truthful(sys) && Enabled(cfg, sys, a) && Relaying(cfg.kind)
    requires a.Receive? ==> a.m.payload.kind == cfg.kind
    ensures AckersSaw(Step(cfg, sys, a))
  {
    hide NodeStep, QueuesSeen;
    SeenStays(cfg, sys, a);
    StepAcks(cfg, sys, a);
  }

  lemma StepQueuesSeen(cfg: Config, sys: System, a: Action)
    requires QueuesSeen(sys) && Enabled(cfg, sys, a) && Relaying(cfg.kind)
    requires a.Receive? ==> a.m.payload.kind == cfg.kind
    ensures QueuesSeen(Step(cfg, sys, a))
  {
    hide NodeStep;
    var after := Step(cfg, sys, a);
    SeenStays(cfg, sys, a);
    StepAcks(cfg, sys, a);
    forall i, m | i in after.nodes && (m in after.nodes[i].sending || m in after.nodes[i].retrans)
      ensures Seen(after, i, m.payload.Id())
    {
      if i == Actor(a) {
        if m in after.nodes[i].sending {
          StepSending(cfg, sys, a, m);
        } else {
          StepRetrans(cfg, sys, a, m);
        }
      }
    }
  }

  lemma StepTruthful(cfg: Config, sys: System, a: Action)
    requires Truthful(sys) && Enabled(cfg, sys, a) && Relaying(cfg.kind)
    requires a.Receive? ==> a.m.payload.kind == cfg.kind
    ensures Truthful(Step(cfg, sys, a))
  {
    hide NodeStep, AckersSaw;
    SeenStays(cfg, sys, a);
    StepAckersSaw(cfg, sys, a);
    StepQueuesSeen(cfg, sys, a);
  }

  lemma StepAcksAnswer(cfg: Config, sys: System, a: Action)
    requires Truthful(sys) && AcksAnswer(sys) && WireAcksAnswer(sys) && Enabled(cfg, sys, a) && Relaying(cfg.kind)
    requires a.Receive? ==> a.m.payload.kind == cfg.kind
    ensures AcksAnswer(Step(cfg, sys, a)) && WireAcksAnswer(Step(cfg, sys, a))
  {
    var after := Step(cfg, sys, a);
    SeenStays(cfg, sys, a);
    forall m | m in after.nodes[Actor(a)].sending && m.payload.isAck
      ensures Seen(after, m.dest, m.payload.Id())
    {
      StepSending(cfg, sys, a, m);
    }
    forall m | m in after.nodes[Actor(a)].retrans
      ensures !m.payload.isAck
    {
      StepRetrans(cfg, sys, a, m);
    }
  }

  /** A node has seen its own packets. */
  ghost predicate OwnSeen(sys: System)
  {
    forall i, q :: i in sys.nodes && 1 <= q <= sys.nodes[i].sent ==> Seen(sys, i, Key(i, q))
  }

  lemma StepOwnSeen(cfg: Config, sys: System, a: Action)
    requires OwnSeen(sys) && Enabled(cfg, sys, a) && Relaying(cfg.kind)
    requires a.Receive? ==> a.m.payload.kind == cfg.kind
    ensures OwnSeen(Step(cfg, sys, a))
  {
    hide NodeBroadcast, NodeReceive;
    SeenStays(cfg, sys, a);
    match a {
      case Broadcast(i) => BroadcastEffect(cfg, i, sys.nodes[i]);
      case Receive(m) => ReceiveEffect(cfg, m.dest, sys.nodes[m.dest], m.payload);
      case _ =>
    }
  }

  // ---- Nothing is forgotten ----

  /** `m` carries packet `k` itself, not an ack of it, to node `j`. */
  predicate Carries(m: Message, j: nat, k: Key)
  {
    !m.payload.isAck && m.dest == j && m.payload.Id() == k
  }

  /** Some copy of packet `k` for node `j` is still in a channel of `node`. */
  ghost predicate Pending(node: Node, j: nat, k: Key)
  {
    exists m :: (m in node.sending || m in node.retrans) && Carries(m, j, k)
  }

  /** A node that has seen a packet either still has a copy of it to send to each other node, or has
      recorded that node's ack. */
  ghost predicate Obliged(sys: System)
  {
    forall i, j, k :: j in sys.nodes && j != i && Seen(sys, i, k) ==>
      Pending(sys.nodes[i], j, k) || Ack(j, k) in sys.nodes[i].store.acked
  }

  lemma StepKeepsPending(cfg: Config, sys: System, a: Action, j: nat, k: Key)
    requires Enabled(cfg, sys, a) && Relaying(cfg.kind)
    requires a.Receive? ==> a.m.payload.kind == cfg.kind
    requires Pending(sys.nodes[Actor(a)], j, k)
    ensures var t := Step(cfg, sys, a).nodes[Actor(a)];
      Pending(t, j, k) || Ack(j, k) in t.store.acked
  {
    var i := Actor(a);
    var node, t := sys.nodes[i], Step(cfg, sys, a).nodes[i];
    var m :| (m in node.sending || m in node.retrans) && Carries(m, j, k);
    match a {
      case Broadcast(_) =>
        BroadcastEffect(cfg, i, node);
        assert m in t.sending || m in t.retrans;
      case Receive(r) =>
        ReceiveEffect(cfg, i, node, r.payload);
        assert m in t.sending || m in t.retrans;
      case Send(_) =>
        if m == node.sending[0] {
          assert Stamped(i, m) in t.retrans && Carries(Stamped(i, m), j, k);
        } else {
          assert m in t.sending || m in t.retrans;
        }
      case Retransmit(_) =>
        if m == node.retrans[0] {
          assert m in t.sending || Ack(j, k) in t.store.acked;
        } else {
          assert m in t.sending || m in t.retrans;
        }
      case Crash(_) =>
        assert m in t.sending || m in t.retrans;
    }
  }

  /** A packet that a node sees for the first time is queued for every other node. */
  lemma StepQueuesForAll(cfg: Config, sys: System, a: Action, j: nat, k: Key)
    requires Proper(cfg) && sys.nodes.Keys == Ids(cfg.n)
    requires WireSeen(sys) && WireAcksAnswer(sys) && Enabled(cfg, sys, a) && Relaying(cfg.kind)
    requires a.Receive? ==> a.m.payload.kind == cfg.kind
    requires j in sys.nodes && j != Actor(a)
    requires !Seen(sys, Actor(a), k) && Seen(Step(cfg, sys, a), Actor(a), k)
    ensures Pending(Step(cfg, sys, a).nodes[Actor(a)], j, k)
  {
    var i := Actor(a);
    var node, t := sys.nodes[i], Step(cfg, sys, a).nodes[i];
    StepAcks(cfg, sys, a);
    assert a.Broadcast? || a.Receive?;
    var p := Subject(cfg, sys, a);
    assert p.Id() == k && !p.isAck;
    CopiesContents(cfg.Peers(i), i, p);
    assert Message(p, j) in Copies(cfg.Peers(i), i, p);
    if a.Broadcast? {
      BroadcastEffect(cfg, i, node);
    } else {
      assert Seen(sys, p.sender, k);
      ReceiveEffect(cfg, i, node, p);
    }
    assert Message(p, j) in t.sending && Carries(Message(p, j), j, k);
  }

  lemma StepObliged(cfg: Config, sys: System, a: Action)
    requires Proper(cfg) && sys.nodes.Keys == Ids(cfg.n)
    requires WireSeen(sys) && WireAcksAnswer(sys) && Obliged(sys) && Enabled(cfg, sys, a) && Relaying(cfg.kind)
    requires a.Receive? ==> a.m.payload.kind == cfg.kind
    ensures Obliged(Step(cfg, sys, a))
  {
    var after := Step(cfg, sys, a);
    StepGrows(cfg, sys, a);
    forall i, j, k | j in after.nodes && j != i && Seen(after, i, k)
      ensures Pending(after.nodes[i], j, k) || Ack(j, k) in after.nodes[i].store.acked
    {
      if i == Actor(a) {
        if !Seen(sys, i, k) {
          StepQueuesForAll(cfg, sys, a, j, k);
        } else if Ack(j, k) !in sys.nodes[i].store.acked {
          StepKeepsPending(cfg, sys, a, j, k);
        }
      }
    }
  }

  lemma StepStores(cfg: Config, sys: System, a: Action)
    requires Stores(cfg, sys) && Enabled(cfg, sys, a) && Relaying(cfg.kind)
    requires a.Receive? ==> a.m.payload.kind == cfg.kind
    ensures Stores(cfg, Step(cfg, sys, a))
  {
    assert StoreInv(cfg, sys.nodes[Actor(a)].store);
    NodeStepStoreInv(cfg, sys.nodes[Actor(a)], a);
  }

  // ---- Together, over whole runs ----

  ghost predicate Inv(cfg: Config, sys: System)
  {
    && Authentic(cfg, sys)
    && Stores(cfg, sys)
    && Truthful(sys)
    && AcksAnswer(sys)
    && WireAcksAnswer(sys)
    && OwnSeen(sys)
    && Obliged(sys)
  }

  lemma NodeStoreInv(cfg: Config, sys: System, i: nat)
    requires Inv(cfg, sys) && i in sys.nodes
    ensures StoreInv(cfg, sys.nodes[i].store)
  {
  }

  lemma WireKind(cfg: Config, sys: System, m: Message)
    requires Inv(cfg, sys) && m in sys.network
    ensures m.payload.kind == cfg.kind
  {
    GenuineKind(cfg, sys, m.payload);
  }

  lemma InitInv(cfg: Config)
    ensures Inv(cfg, Init(cfg))
  {
    EmptyStoreInv(cfg);
  }

  lemma StepInv(cfg: Config, sys: System, a: Action)
    requires Proper(cfg) && Relaying(cfg.kind) && Inv(cfg, sys) && Enabled(cfg, sys, a)
    ensures Inv(cfg, Step(cfg, sys, a))
  {
    if a.Receive? {
      GenuineKind(cfg, sys, a.m.payload);
    }
    StepStores(cfg, sys, a);
    StepAuthentic(cfg, sys, a);
    StepTruthful(cfg, sys, a);
    StepAcksAnswer(cfg, sys, a);
    StepOwnSeen(cfg, sys, a);
    StepObliged(cfg, sys, a);
  }

  lemma {:induction false} ExecInv(cfg: Config, sys: System, actions: seq<Action>)
    requires Proper(cfg) && Relaying(cfg.kind) && Inv(cfg, sys) && Executable(cfg, sys, actions)
    ensures Inv(cfg, Exec(cfg, sys, actions))
    decreases |actions|
  {
    if actions != [] {
      StepInv(cfg, sys, actions[0]);
      ExecInv(cfg, Step(cfg, sys, actions[0]), actions[1..]);
    }
  }

  lemma ReachableInv(cfg: Config, sys: System)
    requires Proper(cfg) && Relaying(cfg.kind) && Reachable(cfg, sys)
    ensures Inv(cfg, sys)
  {
    var actions :| Executable(cfg, Init(cfg), actions) && sys == Exec(cfg, Init(cfg), actions);
    InitInv(cfg);
    ExecInv(cfg, Init(cfg), actions);
  }
}
