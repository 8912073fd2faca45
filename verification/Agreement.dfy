/** Uniform agreement: what a delivery at one node, crashed or not, says about the others. */
module Agreement {
  import opened Basics
  import opened Messages
  import opened Store
  import opened StoreFacts
  import StoreSpec
  import opened Protocol
  import opened NodeFacts
  import opened Invariants

  function SeenBy(sys: System, k: Key): set<nat>
  {
    set i | i in sys.nodes && Seen(sys, i, k)
  }

  function LiveNodes(sys: System): set<nat>
  {
    set i | i in sys.nodes && Live(sys, i)
  }

  /** At most a minority of the nodes has crashed. */
  predicate MajorityLive(cfg: Config, sys: System)
  {
    |LiveNodes(sys)| >= Majority(cfg.n)
  }

  /** Some live node has seen packet `k`. */
  ghost predicate LiveSeen(sys: System, k: Key)
  {
    exists i :: Live(sys, i) && Seen(sys, i, k)
  }

  /** Each node of `group` has every such node's ack for whatever it has seen. */
  ghost predicate AcksShared(sys: System, group: set<nat>)
  {
    forall i, j, k :: i in group && j in group && Seen(sys, i, k) ==> Ack(j, k) in sys.nodes[i].store.acked
  }

  /** The live nodes lack no ack from each other. */
  ghost predicate AckComplete(sys: System)
  {
    AcksShared(sys, LiveNodes(sys))
  }

  /** No live node has a copy of a packet left to send to another live node. */
  ghost predicate Quiescent(sys: System)
  {
    forall i, j, k :: Live(sys, i) && Live(sys, j) && i != j ==> !Pending(sys.nodes[i], j, k)
  }

  /** The packets that a node must have seen to deliver `k`: in FIFO order also those before it. */
  predicate Needed(kind: Kind, k: Key, j: Key)
  {
    j == k || (kind in {Fifob, Lcb} && j.owner == k.owner && 1 <= j.packet < k.packet)
  }

  /** `k` is not delivered at node `i`, although `i` has seen it and whatever must come before it. */
  ghost predicate Waiting(cfg: Config, sys: System, i: nat, k: Key)
  {
    && i in sys.nodes && k !in sys.nodes[i].store.delivered
    && 1 <= k.packet
    && (forall j :: Needed(cfg.kind, k, j) ==> Seen(sys, i, j))
  }

  /** No live node has a packet waiting. */
  ghost predicate CaughtUp(cfg: Config, sys: System)
  {
    forall i, k :: Live(sys, i) ==> !Waiting(cfg, sys, i, k)
  }

  lemma AckersHaveSeen(cfg: Config, sys: System, i: nat, k: Key)
    requires Inv(cfg, sys) && i in sys.nodes
    ensures Senders(sys.nodes[i].store.acked, k) <= SeenBy(sys, k) <= Ids(cfg.n)
  {
    hide Stores;
    forall s | s in Senders(sys.nodes[i].store.acked, k)
      ensures Seen(sys, s, k)
    {
      SenderIsThere(sys.nodes[i].store.acked, s, k);
    }
  }

  /** In any reachable state of an `Urb`, `Fifob` or `Lcb` run, what one node delivered a majority of the
      nodes has seen. */
  lemma UniformQuorum(cfg: Config, sys: System, i: nat, k: Key)
    requires Proper(cfg) && Uniform(cfg.kind) && Reachable(cfg, sys)
    requires i in sys.nodes && k in sys.nodes[i].store.delivered
    ensures |SeenBy(sys, k)| >= Majority(cfg.n) && SeenBy(sys, k) <= Ids(cfg.n)
  {
    ReachableInv(cfg, sys);
    DeliveredQuorum(cfg, sys, i, k);
  }

  lemma DeliveredQuorum(cfg: Config, sys: System, i: nat, k: Key)
    requires Uniform(cfg.kind) && Inv(cfg, sys)
    requires i in sys.nodes && k in sys.nodes[i].store.delivered
    ensures |SeenBy(sys, k)| >= Majority(cfg.n) && SeenBy(sys, k) <= Ids(cfg.n)
  {
    assert StoreInv(cfg, sys.nodes[i].store);
    AckersHaveSeen(cfg, sys, i, k);
    SubsetSize(Senders(sys.nodes[i].store.acked, k), SeenBy(sys, k));
  }

  /** A node that has seen a packet keeps a copy for each other node until that node's ack arrives, and the
      ack arrives only if the other node has the packet. */
  lemma NothingForgotten(cfg: Config, sys: System, i: nat, j: nat, k: Key)
    requires Proper(cfg) && Relaying(cfg.kind) && Reachable(cfg, sys)
    requires j in sys.nodes && j != i && Seen(sys, i, k)
    ensures Pending(sys.nodes[i], j, k) || (Ack(j, k) in sys.nodes[i].store.acked && Seen(sys, j, k))
  {
    ReachableInv(cfg, sys);
  }

  /** What a node may receive is fit to be handled: it comes from a node in the host table, to which the ack
      can be addressed, and its owner and its clock are of the system. */
  lemma DatagramFits(cfg: Config, sys: System, m: Message)
    requires Proper(cfg) && Relaying(cfg.kind) && Reachable(cfg, sys) && m in sys.network
    ensures m.payload.sender in Ids(cfg.n) && m.payload.owner in Ids(cfg.n)
    ensures m.payload.kind == cfg.kind && |m.payload.clock| == cfg.n + 1
  {
    hide Stores, Obliged, AcksAnswer, WireAcksAnswer, OwnSeen;
    ReachableInv(cfg, sys);
    GenuineKind(cfg, sys, m.payload);
    assert Seen(sys, m.payload.sender, m.payload.Id());
  }

  // ---- When no ack is missing ----

  /** Once the live nodes have nothing left to send each other, no ack is missing. */
  lemma QuiescentAcks(cfg: Config, sys: System)
    requires Inv(cfg, sys) && Quiescent(sys)
    ensures AckComplete(sys)
  {
    hide Authentic, Stores, Truthful, AcksAnswer, WireAcksAnswer, OwnSeen;
    forall i, j, k | i in LiveNodes(sys) && j in LiveNodes(sys) && Seen(sys, i, k)
      ensures Ack(j, k) in sys.nodes[i].store.acked
    {
      assert j != i ==> !Pending(sys.nodes[i], j, k);
    }
  }

  /** What one live node has seen, every live node has seen. */
  lemma SeenIsShared(cfg: Config, sys: System, i: nat, j: nat, k: Key)
    requires Inv(cfg, sys) && AckComplete(sys) && Live(sys, i) && Seen(sys, i, k) && Live(sys, j)
    ensures Seen(sys, j, k)
  {
    hide Authentic, Stores, Obliged, AcksAnswer, WireAcksAnswer, OwnSeen;
    assert i in LiveNodes(sys) && j in LiveNodes(sys);
    assert Ack(j, k) in sys.nodes[i].store.acked;
  }

  /** And it has a majority of acks there. */
  lemma SharedMajority(cfg: Config, sys: System, i: nat, j: nat, k: Key)
    requires Inv(cfg, sys) && AckComplete(sys) && MajorityLive(cfg, sys)
    requires Live(sys, i) && Seen(sys, i, k) && Live(sys, j)
    ensures |Senders(sys.nodes[j].store.acked, k)| >= Majority(cfg.n)
  {
    hide Inv;
    SeenIsShared(cfg, sys, i, j, k);
    forall l | l in LiveNodes(sys)
      ensures l in Senders(sys.nodes[j].store.acked, k)
    {
      assert j in LiveNodes(sys);
      SenderIsThere(sys.nodes[j].store.acked, l, k);
    }
    SubsetSize(LiveNodes(sys), Senders(sys.nodes[j].store.acked, k));
  }

  /** Some live node has seen what any node delivered. */
  lemma LiveWitness(cfg: Config, sys: System, i: nat, k: Key) returns (w: nat)
    requires Uniform(cfg.kind) && Inv(cfg, sys) && MajorityLive(cfg, sys)
    requires i in sys.nodes && k in sys.nodes[i].store.delivered
    ensures Live(sys, w) && Seen(sys, w, k)
  {
    DeliveredQuorum(cfg, sys, i, k);
    w := QuorumsMeet(cfg.n, SeenBy(sys, k), LiveNodes(sys));
  }

  lemma MajoritySuffices(cfg: Config, s: Store, k: Key)
    requires cfg.kind in {Urb, Fifob} && StoreInv(cfg, s) && 1 <= k.packet
    requires forall j :: Needed(cfg.kind, k, j) ==> |Senders(s.acked, j)| >= Majority(cfg.n)
    ensures k in s.delivered
  {
    if cfg.kind == Fifob {
      assert forall q: nat :: 1 <= q <= k.packet ==> Needed(cfg.kind, k, Key(k.owner, q));
      StoreSpec.FrontierPasses(cfg, s, k);
    } else {
      assert Needed(cfg.kind, k, k);
      StoreSpec.MajorityIsDelivered(cfg, s, k);
    }
  }

  /** Without causal order nothing waits once no ack is missing. */
  lemma NothingWaits(cfg: Config, sys: System)
    requires cfg.kind in {Urb, Fifob} && Inv(cfg, sys) && AckComplete(sys) && MajorityLive(cfg, sys)
    ensures CaughtUp(cfg, sys)
  {
    hide Inv, StoreInv, AckComplete, MajorityLive, Needed, Seen;
    forall i, k | Live(sys, i)
      ensures !Waiting(cfg, sys, i, k)
    {
      if Waiting(cfg, sys, i, k) {
        forall j | Needed(cfg.kind, k, j)
          ensures |Senders(sys.nodes[i].store.acked, j)| >= Majority(cfg.n)
        {
          SharedMajority(cfg, sys, i, i, j);
        }
        NodeStoreInv(cfg, sys, i);
        MajoritySuffices(cfg, sys.nodes[i].store, k);
        assert false;
      }
    }
  }

  lemma NeededAreDelivered(cfg: Config, s: Store, k: Key, j: Key)
    requires StoreInv(cfg, s) && k in s.delivered && Needed(cfg.kind, k, j)
    ensures j in s.delivered
  {
  }

  /** Then a live node has delivered a packet if some live node has seen it, and, in FIFO order, all before it. */
  lemma SeenIsDelivered(cfg: Config, sys: System, j: nat, k: Key)
    requires Inv(cfg, sys) && AckComplete(sys) && CaughtUp(cfg, sys) && Live(sys, j) && 1 <= k.packet
    requires forall l :: Needed(cfg.kind, k, l) ==> LiveSeen(sys, l)
    ensures k in sys.nodes[j].store.delivered
  {
    hide Inv, AckComplete, Needed, Seen;
    forall l | Needed(cfg.kind, k, l)
      ensures Seen(sys, j, l)
    {
      var w :| Live(sys, w) && Seen(sys, w, l);
      SeenIsShared(cfg, sys, w, j, l);
    }
    assert !Waiting(cfg, sys, j, k);
  }

  /** Nothing waits: proved for `Urb` and `Fifob`, a hypothesis for `Lcb` (module `StallingRuns` has the exact
      condition). */
  lemma WhenCaughtUp(cfg: Config, sys: System)
    requires Proper(cfg) && Uniform(cfg.kind) && Reachable(cfg, sys) && AckComplete(sys) && MajorityLive(cfg, sys)
    requires cfg.kind == Lcb ==> CaughtUp(cfg, sys)
    ensures Inv(cfg, sys) && CaughtUp(cfg, sys)
  {
    hide Inv, AckComplete, MajorityLive, CaughtUp;
    ReachableInv(cfg, sys);
    if cfg.kind != Lcb {
      NothingWaits(cfg, sys);
    }
  }

  /** Uniform agreement: once the live nodes, a majority, lack no ack from each other, each of them has
      delivered every packet that any node, crashed or not, ever delivered. */
  lemma UniformAgreement(cfg: Config, sys: System, i: nat, j: nat, k: Key)
    requires Proper(cfg) && Uniform(cfg.kind) && Reachable(cfg, sys) && AckComplete(sys) && MajorityLive(cfg, sys)
    requires cfg.kind == Lcb ==> CaughtUp(cfg, sys)
    requires i in sys.nodes && k in sys.nodes[i].store.delivered && Live(sys, j)
    ensures k in sys.nodes[j].store.delivered
  {
    hide Inv, StoreInv, AckComplete, MajorityLive, CaughtUp, Needed;
    WhenCaughtUp(cfg, sys);
    DeliveredIsGenuine(cfg, sys, i, k);
    forall l | Needed(cfg.kind, k, l)
      ensures LiveSeen(sys, l)
    {
      NodeStoreInv(cfg, sys, i);
      NeededAreDelivered(cfg, sys.nodes[i].store, k, l);
      var w := LiveWitness(cfg, sys, i, l);
    }
    SeenIsDelivered(cfg, sys, j, k);
  }

  lemma DeliveredIsGenuine(cfg: Config, sys: System, i: nat, k: Key)
    requires Inv(cfg, sys) && i in sys.nodes && k in sys.nodes[i].store.delivered
    ensures k.owner in sys.nodes && 1 <= k.packet <= sys.nodes[k.owner].sent
  {
    var s := sys.nodes[i].store;
    assert StoreInv(cfg, s);
    var x: nat :| DeliversAt(s.log, x, k);
    assert Delivery(s.log[x].payload) in s.log;
    assert Holds(sys.nodes[i], s.log[x].payload);
    GenuineKind(cfg, sys, s.log[x].payload);
  }

  lemma SeenIsGenuine(cfg: Config, sys: System, i: nat, k: Key)
    requires Inv(cfg, sys) && Seen(sys, i, k)
    ensures k.owner in sys.nodes && 1 <= k.packet <= sys.nodes[k.owner].sent
  {
    hide Obliged, Truthful, AcksAnswer, WireAcksAnswer, OwnSeen, NumberedAt, LoggedOnce, CounterExact;
    var s := sys.nodes[i].store;
    assert StoreInv(cfg, s);
    SenderIsThere(s.acked, i, k);
    if k in s.delivered {
      DeliveredIsGenuine(cfg, sys, i, k);
    } else {
      assert StoreHolds(s, s.undelivered[k]) && Holds(sys.nodes[i], s.undelivered[k]);
      GenuineKind(cfg, sys, s.undelivered[k]);
    }
  }

  /** All live nodes then have the same delivered set. */
  lemma LiveNodesAgree(cfg: Config, sys: System, i: nat, j: nat)
    requires Proper(cfg) && Uniform(cfg.kind) && Reachable(cfg, sys) && AckComplete(sys) && MajorityLive(cfg, sys)
    requires cfg.kind == Lcb ==> CaughtUp(cfg, sys)
    requires Live(sys, i) && Live(sys, j)
    ensures sys.nodes[i].store.delivered == sys.nodes[j].store.delivered
  {
    hide Reachable, AckComplete, MajorityLive, CaughtUp;
    forall k
      ensures k in sys.nodes[i].store.delivered <==> k in sys.nodes[j].store.delivered
    {
      if k in sys.nodes[i].store.delivered {
        UniformAgreement(cfg, sys, i, j, k);
      }
      if k in sys.nodes[j].store.delivered {
        UniformAgreement(cfg, sys, j, i, k);
      }
    }
  }

  /** Validity: they then have delivered every packet that a live node broadcast. */
  lemma LiveBroadcastsDelivered(cfg: Config, sys: System, i: nat, j: nat, q: nat)
    requires Proper(cfg) && Uniform(cfg.kind) && Reachable(cfg, sys) && AckComplete(sys) && MajorityLive(cfg, sys)
    requires cfg.kind == Lcb ==> CaughtUp(cfg, sys)
    requires Live(sys, i) && Live(sys, j) && 1 <= q <= sys.nodes[i].sent
    ensures Key(i, q) in sys.nodes[j].store.delivered
  {
    hide Stores, Authentic, Obliged, Truthful, AcksAnswer, AckComplete, MajorityLive, CaughtUp, Reachable;
    WhenCaughtUp(cfg, sys);
    forall l | Needed(cfg.kind, Key(i, q), l)
      ensures LiveSeen(sys, l)
    {
      assert l == Key(i, l.packet);
      assert Seen(sys, i, l);
    }
    SeenIsDelivered(cfg, sys, j, Key(i, q));
  }

  /** Every live node has delivered what live nodes broadcast and what any node delivered. */
  ghost predicate Agreed(sys: System)
  {
    && (forall i, j, q: nat :: Live(sys, i) && Live(sys, j) && 1 <= q <= sys.nodes[i].sent ==>
          Key(i, q) in sys.nodes[j].store.delivered)
    && (forall i, j, k :: i in sys.nodes && k in sys.nodes[i].store.delivered && Live(sys, j) ==>
          k in sys.nodes[j].store.delivered)
  }

  lemma AllAgree(cfg: Config, sys: System)
    requires Proper(cfg) && Uniform(cfg.kind) && Reachable(cfg, sys) && AckComplete(sys) && MajorityLive(cfg, sys)
    requires cfg.kind == Lcb ==> CaughtUp(cfg, sys)
    ensures Agreed(sys)
  {
    hide Reachable, AckComplete, MajorityLive, CaughtUp;
    forall i, j, q: nat | Live(sys, i) && Live(sys, j) && 1 <= q <= sys.nodes[i].sent
      ensures Key(i, q) in sys.nodes[j].store.delivered
    {
      LiveBroadcastsDelivered(cfg, sys, i, j, q);
    }
    forall i, j, k | i in sys.nodes && k in sys.nodes[i].store.delivered && Live(sys, j)
      ensures k in sys.nodes[j].store.delivered
    {
      UniformAgreement(cfg, sys, i, j, k);
    }
  }

  /** In particular once the live nodes have nothing left to send each other. */
  lemma QuiescentAgreement(cfg: Config, sys: System)
    requires Proper(cfg) && cfg.kind in {Urb, Fifob} && Reachable(cfg, sys)
    requires Quiescent(sys) && MajorityLive(cfg, sys)
    ensures Agreed(sys)
  {
    hide Inv, Reachable, AckComplete, MajorityLive, Quiescent, Agreed;
    ReachableInv(cfg, sys);
    QuiescentAcks(cfg, sys);
    AllAgree(cfg, sys);
  }

  // ---- Contents ----

  /** The packets of `o` that a log delivers, as their owner made them. */
  function Contents(log: seq<Event>, o: nat): seq<Payload>
  {
    if log == [] then
      []
    else
      var e := log[|log| - 1];
      Contents(log[..|log| - 1], o) +
        if e.Delivery? && e.payload.owner == o then [e.payload.(sender := o, isAck := false)] else []
  }

  /** `own` holds the packets of `o` as made, and this log delivers only copies of them. */
  ghost predicate CopiesOf(log: seq<Event>, o: nat, own: seq<Payload>)
  {
    && (forall q :: 0 <= q < |own| ==> own[q].sender == o && !own[q].isAck)
    && (forall e :: e in log && e.Delivery? && e.payload.owner == o ==>
          1 <= e.payload.packet <= |own| && Twin(e.payload, own[e.payload.packet - 1]))
  }

  lemma CopiesInit(log: seq<Event>, o: nat, own: seq<Payload>)
    requires CopiesOf(log, o, own) && log != []
    ensures var e := log[|log| - 1];
      && CopiesOf(log[..|log| - 1], o, own)
      && (e.Delivery? && e.payload.owner == o ==>
            1 <= e.payload.packet <= |own| && e.payload.(sender := o, isAck := false) == own[e.payload.packet - 1])
  {
    assert log[|log| - 1] in log;
  }

  lemma {:induction false} ContentsArePrefix(log: seq<Event>, o: nat, own: seq<Payload>)
    requires FifoLog(log) && CopiesOf(log, o, own)
    ensures Count(log, o) <= |own| && Contents(log, o) == own[..Count(log, o)]
  {
    if log != [] {
      hide FifoLog, CopiesOf;
      FifoInit(log);
      CopiesInit(log, o, own);
      ContentsArePrefix(log[..|log| - 1], o, own);
      PrefixOn(log, o, own);
    } else {
      assert own[..0] == [];
    }
  }

  lemma PrefixOn(log: seq<Event>, o: nat, own: seq<Payload>)
    requires log != []
    requires var init, e := log[..|log| - 1], log[|log| - 1];
      && Count(init, o) <= |own| && Contents(init, o) == own[..Count(init, o)]
      && (e.Delivery? && e.payload.owner == o ==>
            Count(init, o) < |own| && e.payload.(sender := o, isAck := false) == own[Count(init, o)])
    ensures Count(log, o) <= |own| && Contents(log, o) == own[..Count(log, o)]
  {
  }

  lemma LogCopies(cfg: Config, sys: System, i: nat, o: nat)
    requires Inv(cfg, sys) && i in sys.nodes && o in sys.nodes
    ensures CopiesOf(sys.nodes[i].store.log, o, Own(sys, o))
  {
    assert NumberedAt(cfg, o, sys.nodes[o]);
    forall e | e in sys.nodes[i].store.log && e.Delivery?
      ensures Genuine(sys, e.payload)
    {
      assert Holds(sys.nodes[i], e.payload);
    }
  }

  /** In `Fifob` and `Lcb` runs every log delivers, for each owner, the first packets that the owner
      broadcast, in order, with exactly the contents and the clock that the owner put in them. So of any
      two logs one continues the other. */
  lemma LogsAgreeOnOwner(cfg: Config, sys: System, i: nat, j: nat, o: nat)
    requires Proper(cfg) && cfg.kind in {Fifob, Lcb} && Reachable(cfg, sys)
    requires i in sys.nodes && j in sys.nodes && o in sys.nodes
    ensures var a, b := Contents(sys.nodes[i].store.log, o), Contents(sys.nodes[j].store.log, o);
      a <= Own(sys, o) && b <= Own(sys, o) && (a <= b || b <= a)
  {
    hide Inv, Coherent, MajorityAcked, Causal, CopiesOf, FifoLog;
    ReachableInv(cfg, sys);
    NodeStoreInv(cfg, sys, i);
    NodeStoreInv(cfg, sys, j);
    LogCopies(cfg, sys, i, o);
    LogCopies(cfg, sys, j, o);
    ContentsArePrefix(sys.nodes[i].store.log, o, Own(sys, o));
    ContentsArePrefix(sys.nodes[j].store.log, o, Own(sys, o));
  }
}
