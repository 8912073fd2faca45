/** From every reachable state with a live majority the live nodes can go on to agree, also in causal order,
    where a worklist loop may have left packets behind: a datagram that is received again starts the loop again. */
module CatchUp {
  import opened Basics
  import opened Messages
  import opened Store
  import opened StoreFacts
  import opened Protocol
  import opened NodeFacts
  import opened Invariants
  import opened Agreement
  import opened Causality
  import opened Quiescence

  // ---- Every ack of another node came with a datagram, which may come again ----

  ghost predicate HeardFrom(sys: System, i: nat, a: Ack)
  {
    exists m :: m in sys.network && m.dest == i && m.payload.sender == a.sender && m.payload.Id() == a.key
  }

  ghost predicate Heard(sys: System)
  {
    forall i, a :: i in sys.nodes && a in sys.nodes[i].store.acked && a.sender != i ==> HeardFrom(sys, i, a)
  }

  lemma StepHeard(cfg: Config, sys: System, a: Action)
    requires Relaying(cfg.kind) && Inv(cfg, sys) && Heard(sys) && Enabled(cfg, sys, a)
    ensures Heard(Step(cfg, sys, a))
  {
    hide Inv, NodeStep;
    var after := Step(cfg, sys, a);
    if a.Receive? {
      WireKind(cfg, sys, a.m);
    }
    StepGrows(cfg, sys, a);
    StepAcks(cfg, sys, a);
    forall i, b | i in after.nodes && b in after.nodes[i].store.acked && b.sender != i
      ensures HeardFrom(after, i, b)
    {
      if b in sys.nodes[i].store.acked {
        assert HeardFrom(sys, i, b);
      } else {
        assert a.Receive? && a.m in after.network;
      }
    }
  }

  lemma {:induction false} ExecHeard(cfg: Config, sys: System, actions: seq<Action>)
    requires Proper(cfg) && Relaying(cfg.kind) && Inv(cfg, sys) && Heard(sys) && Executable(cfg, sys, actions)
    ensures Heard(Exec(cfg, sys, actions))
    decreases |actions|
  {
    hide Inv, Heard, Step;
    if actions != [] {
      StepInv(cfg, sys, actions[0]);
      StepHeard(cfg, sys, actions[0]);
      ExecHeard(cfg, Step(cfg, sys, actions[0]), actions[1..]);
    }
  }

  lemma ReachableHeard(cfg: Config, sys: System)
    requires Proper(cfg) && Relaying(cfg.kind) && Reachable(cfg, sys)
    ensures Heard(sys)
  {
    hide Inv, Executable, Exec;
    var actions :| Executable(cfg, Init(cfg), actions) && sys == Exec(cfg, Init(cfg), actions);
    InitInv(cfg);
    ExecHeard(cfg, Init(cfg), actions);
  }

  // ---- A single node delivers its own packets at once ----

  ghost predicate NothingBuffered(sys: System)
  {
    forall i :: i in sys.nodes ==> sys.nodes[i].store.undelivered == map[]
  }

  /** If the buffer is empty, a packet that may be delivered is delivered when it is inserted, ... */
  lemma InsertReady(cfg: Config, s: Store, sender: nat, p: Payload)
    requires s.undelivered == map[] && p.Id() !in s.delivered && Ready(cfg, Buffer(s, sender, p), p)
    ensures Insert(cfg, s, sender, p).undelivered == map[]
  {
    var u, k := Buffer(s, sender, p), p.Id();
    assert Deliverable(cfg, u, [k]);
    CascadeGrows(cfg, DeliverOne(u, k), [k][..0] + Followups(cfg, DeliverOne(u, k), p));
  }

  /** ... and one that was acked before is already delivered. */
  lemma InsertKnown(cfg: Config, s: Store, sender: nat, p: Payload)
    requires Coherent(s) && s.undelivered == map[] && Senders(s.acked, p.Id()) != {}
    ensures Insert(cfg, s, sender, p).undelivered == map[]
  {
  }

  /** A single node's next packet is new to it and next in its own order. */
  lemma OwnIsNext(cfg: Config, sys: System, i: nat)
    requires cfg.kind == Lcb && Inv(cfg, sys) && NothingBuffered(sys) && i in sys.nodes
    ensures var s, k := sys.nodes[i].store, Key(i, sys.nodes[i].sent + 1);
      && k !in s.delivered && Ack(i, k) !in s.acked && Next(s, i) == k.packet
  {
    hide Inv, CounterExact, LoggedOnce, FifoLog, Causal;
    var s, k := sys.nodes[i].store, Key(i, sys.nodes[i].sent + 1);
    NodeStoreInv(cfg, sys, i);
    if Ack(i, k) in s.acked {
      SeenIsGenuine(cfg, sys, i, k);
    }
    if k in s.delivered {
      DeliveredIsGenuine(cfg, sys, i, k);
    }
    if sys.nodes[i].sent > 0 {
      var last := Key(i, sys.nodes[i].sent);
      OwnIsSeen(cfg, sys, i);
      SenderIsThere(s.acked, i, last);
      assert last in s.delivered;
    }
  }

  lemma OwnIsSeen(cfg: Config, sys: System, i: nat)
    requires Inv(cfg, sys) && i in sys.nodes && sys.nodes[i].sent > 0
    ensures Ack(i, Key(i, sys.nodes[i].sent)) in sys.nodes[i].store.acked
  {
    assert Seen(sys, i, Key(i, sys.nodes[i].sent));
  }

  lemma OwnIsReady(cfg: Config, sys: System, i: nat)
    requires cfg.n == 1 && cfg.kind == Lcb && Inv(cfg, sys) && NothingBuffered(sys) && i in sys.nodes
    ensures var s, p := sys.nodes[i].store, OwnPayload(cfg, i, sys.nodes[i]);
      && p.Id() !in s.delivered && Ack(i, p.Id()) !in s.acked
      && Ready(cfg, Buffer(s.(log := s.log + [Dispatch(p)]), i, p), p)
  {
    hide Inv;
    var s, p := sys.nodes[i].store, OwnPayload(cfg, i, sys.nodes[i]);
    OwnIsNext(cfg, sys, i);
    NewIsReady(cfg, s.(log := s.log + [Dispatch(p)]), i, p);
  }

  lemma NewIsReady(cfg: Config, s: Store, i: nat, p: Payload)
    requires cfg.n == 1 && p.kind == Lcb && p.clock == s.clock && Next(s, p.owner) == p.packet
    requires Ack(i, p.Id()) !in s.acked
    ensures Ready(cfg, Buffer(s, i, p), p)
  {
  }

  lemma BroadcastBuffersNothing(cfg: Config, sys: System, i: nat)
    requires cfg.n == 1 && cfg.kind == Lcb && Inv(cfg, sys) && NothingBuffered(sys) && i in sys.nodes
    ensures NodeBroadcast(cfg, i, sys.nodes[i]).store.undelivered == map[]
  {
    hide Inv, Insert, Ready, Buffer;
    var node := sys.nodes[i];
    var p := OwnPayload(cfg, i, node);
    OwnIsReady(cfg, sys, i);
    InsertReady(cfg, node.store.(log := node.store.log + [Dispatch(p)]), i, p);
  }

  lemma ReceiptBuffersNothing(cfg: Config, sys: System, m: Message)
    requires cfg.n == 1 && cfg.kind == Lcb && Inv(cfg, sys) && NothingBuffered(sys) && Enabled(cfg, sys, Receive(m))
    ensures m.dest in sys.nodes &&
      NodeReceive(cfg, m.dest, sys.nodes[m.dest], m.payload).store.undelivered == map[]
  {
    hide Inv, Insert, Coherent;
    var node := sys.nodes[m.dest];
    WireKind(cfg, sys, m);
    NodeIds(cfg, sys);
    NodeStoreInv(cfg, sys, m.dest);
    WireIsSeen(cfg, sys, m);
    SenderIsThere(node.store.acked, m.dest, m.payload.Id());
    InsertKnown(cfg, node.store, m.dest, m.payload);
    InsertFrame(cfg, node.store, m.dest, m.payload);
  }

  lemma WireIsSeen(cfg: Config, sys: System, m: Message)
    requires Inv(cfg, sys) && m in sys.network
    ensures Seen(sys, m.payload.sender, m.payload.Id())
  {
  }

  lemma StepNothingBuffered(cfg: Config, sys: System, a: Action)
    requires cfg.n == 1 && cfg.kind == Lcb && Inv(cfg, sys) && NothingBuffered(sys) && Enabled(cfg, sys, a)
    ensures NothingBuffered(Step(cfg, sys, a))
  {
    hide Inv, NodeBroadcast, NodeReceive;
    match a {
      case Broadcast(i) => BroadcastBuffersNothing(cfg, sys, i);
      case Receive(m) => ReceiptBuffersNothing(cfg, sys, m);
      case _ =>
    }
  }

  lemma {:induction false} ExecNothingBuffered(cfg: Config, sys: System, actions: seq<Action>)
    requires Proper(cfg) && cfg.n == 1 && cfg.kind == Lcb && Inv(cfg, sys) && NothingBuffered(sys)
    requires Executable(cfg, sys, actions)
    ensures NothingBuffered(Exec(cfg, sys, actions))
    decreases |actions|
  {
    hide Inv, NothingBuffered, Step;
    if actions != [] {
      StepInv(cfg, sys, actions[0]);
      StepNothingBuffered(cfg, sys, actions[0]);
      ExecNothingBuffered(cfg, Step(cfg, sys, actions[0]), actions[1..]);
    }
  }

  lemma SingleNodeBuffersNothing(cfg: Config, sys: System)
    requires Proper(cfg) && cfg.n == 1 && cfg.kind == Lcb && Reachable(cfg, sys)
    ensures NothingBuffered(sys)
  {
    hide Inv, Executable, Exec;
    var actions :| Executable(cfg, Init(cfg), actions) && sys == Exec(cfg, Init(cfg), actions);
    InitInv(cfg);
    ExecNothingBuffered(cfg, Init(cfg), actions);
  }

  // ---- Receiving a packet again delivers it, if the guard lets it pass ----

  lemma ReadyIsDelivered(cfg: Config, s: Store, sender: nat, p: Payload)
    requires p.Id() in s.undelivered && p.Id() !in s.delivered && Ack(sender, p.Id()) in s.acked
    requires p.kind == Lcb && LcbReady(cfg, s, s.undelivered[p.Id()])
    requires s.undelivered[p.Id()].Id() == p.Id() && s.undelivered[p.Id()].clock == p.clock
    ensures var t := Insert(cfg, s, sender, p);
      t.acked == s.acked && p.Id() in t.delivered && s.delivered <= t.delivered
  {
    var u, k := Buffer(s, sender, p), p.Id();
    assert Deliverable(cfg, u, [k]);
    var t := DeliverOne(u, k);
    CascadeGrows(cfg, t, [k][..0] + Followups(cfg, t, p));
  }

  lemma SameClock(sys: System, p: Payload, q: Payload)
    requires Genuine(sys, p) && Genuine(sys, q) && p.Id() == q.Id()
    ensures p.clock == q.clock
  {
  }

  /** What a receipt of a buffered packet that passes the guard does at node `i`. */
  lemma ReceiptDelivers(cfg: Config, sys: System, i: nat, m: Message)
    requires cfg.kind == Lcb && Inv(cfg, sys) && Enabled(cfg, sys, Receive(m)) && m.dest == i
    requires var s, k := sys.nodes[i].store, m.payload.Id();
      && Ack(m.payload.sender, k) in s.acked && Ack(i, k) in s.acked
      && k in s.undelivered && LcbReady(cfg, s, s.undelivered[k])
    ensures var after := Step(cfg, sys, Receive(m));
      && after.nodes.Keys == sys.nodes.Keys
      && after.nodes[i].store.acked == sys.nodes[i].store.acked
      && m.payload.Id() in after.nodes[i].store.delivered
      && sys.nodes[i].store.delivered <= after.nodes[i].store.delivered
  {
    hide Stores, Obliged, Truthful, AcksAnswer, WireAcksAnswer, OwnSeen, Insert, LcbReady, Coherent, NumberedAt;
    var s, p := sys.nodes[i].store, m.payload;
    WireKind(cfg, sys, m);
    BufferedIsNamed(cfg, sys, i, p.Id());
    assert StoreHolds(s, s.undelivered[p.Id()]) && Holds(sys.nodes[i], s.undelivered[p.Id()]);
    SameClock(sys, p, s.undelivered[p.Id()]);
    ReadyIsDelivered(cfg, s, p.sender, p);
  }

  lemma BufferedIsNamed(cfg: Config, sys: System, i: nat, k: Key)
    requires Inv(cfg, sys) && i in sys.nodes && k in sys.nodes[i].store.undelivered
    ensures sys.nodes[i].store.undelivered[k].Id() == k && k !in sys.nodes[i].store.delivered
    ensures Seen(sys, i, k)
  {
    hide Obliged, AcksAnswer, WireAcksAnswer, OwnSeen, NumberedAt, LoggedOnce, Authentic;
    NodeStoreInv(cfg, sys, i);
    var s := sys.nodes[i].store;
    var l :| l in Senders(s.acked, k);
    SenderIsThere(s.acked, l, k);
  }

  /** With two nodes or more some datagram on the wire brings a packet that a live node has seen to it again. */
  lemma SomeDatagram(cfg: Config, sys: System, i: nat, k: Key) returns (m: Message)
    requires Proper(cfg) && Relaying(cfg.kind) && Inv(cfg, sys) && Heard(sys) && AckComplete(sys)
    requires MajorityLive(cfg, sys) && cfg.n >= 2 && Live(sys, i) && Seen(sys, i, k)
    ensures Enabled(cfg, sys, Receive(m)) && m.dest == i && m.payload.Id() == k
    ensures Ack(m.payload.sender, k) in sys.nodes[i].store.acked
  {
    hide Inv;
    if forall j :: j in LiveNodes(sys) ==> j == i {
      SubsetSize(LiveNodes(sys), {i});
      assert false;
    }
    var j :| j in LiveNodes(sys) && j != i;
    assert i in LiveNodes(sys) && HeardFrom(sys, i, Ack(j, k));
    m :| m in sys.network && m.dest == i && m.payload.sender == j && m.payload.Id() == k;
  }

  // ---- So the live nodes can catch up ----

  datatype Lag = Lag(node: nat, key: Key)

  /** Packets that were broadcast and that a live node has not delivered. */
  ghost function Lags(sys: System): set<Lag>
  {
    set i, k | i in LiveNodes(sys) && k in Broadcasts(sys) && k !in sys.nodes[i].store.delivered :: Lag(i, k)
  }

  lemma LagsShrink(sys: System, after: System, i: nat)
    requires Advances(sys, after) && Spares(sys, after, {}, {i}) && i in sys.nodes
    requires sys.nodes[i].store.delivered <= after.nodes[i].store.delivered
    ensures Lags(after) <= Lags(sys)
  {
    SameLive(sys, after);
    SameBroadcasts(sys, after);
    hide Advances, Broadcasts, LiveNodes;
    forall l | l in Lags(after)
      ensures l in Lags(sys)
    {
      assert l == Lag(l.node, l.key) && l.node in LiveNodes(sys);
    }
  }

  lemma SameBroadcasts(sys: System, after: System)
    requires Advances(sys, after)
    ensures Broadcasts(after) == Broadcasts(sys)
  {
  }

  lemma LagCloses(sys: System, after: System, i: nat, k: Key)
    requires Advances(sys, after) && Spares(sys, after, {}, {i}) && Live(sys, i) && k in Broadcasts(sys)
    requires sys.nodes[i].store.delivered <= after.nodes[i].store.delivered
    requires k !in sys.nodes[i].store.delivered && k in after.nodes[i].store.delivered
    ensures |Lags(after)| < |Lags(sys)|
  {
    hide Broadcasts, Spares;
    LagsShrink(sys, after, i);
    SubsetSize(Lags(after), Lags(sys));
    assert Lag(i, k) in Lags(sys);
    if Lag(i, k) in Lags(after) {
      assert false;
    }
  }

  /** While a packet waits at a live node, one receipt lets the node deliver another packet. */
  lemma ReceiptCatchesUp(cfg: Config, sys: System, i: nat, b: Key) returns (after: System)
    requires Proper(cfg) && cfg.kind == Lcb && Reachable(cfg, sys) && AckComplete(sys) && MajorityLive(cfg, sys)
    requires Live(sys, i) && Waiting(cfg, sys, i, b)
    ensures Reaches(cfg, sys, after, {}, {i}) && Advances(sys, after) && AckComplete(after)
    ensures |Lags(after)| < |Lags(sys)|
  {
    hide Inv, Heard, AckComplete, MajorityLive, Reaches, LcbReady, Advances, Spares, Lags, Broadcasts, Step, Reachable;
    ReachableInv(cfg, sys);
    ReachableHeard(cfg, sys);
    var k := GuardNeverDeadlocks(cfg, sys, i, b);
    BufferedIsNamed(cfg, sys, i, k);
    if cfg.n < 2 {
      NodeIds(cfg, sys);
      SingleNodeBuffersNothing(cfg, sys);
      assert false;
    } else {
      var m := SomeDatagram(cfg, sys, i, k);
      after := Step(cfg, sys, Receive(m));
      ReceiptDelivers(cfg, sys, i, m);
      ReachesByStep(cfg, sys, Receive(m), {}, {i});
      ReachesAdvances(cfg, sys, after, {}, {i});
      SameAcks(sys, after, i);
      SeenIsBroadcast(cfg, sys, i, k);
      LagCloses(sys, after, i, k);
    }
  }

  lemma SameAcks(sys: System, after: System, i: nat)
    requires Advances(sys, after) && Spares(sys, after, {}, {i}) && i in sys.nodes && AckComplete(sys)
    requires after.nodes[i].store.acked == sys.nodes[i].store.acked
    ensures AckComplete(after)
  {
    SameLive(sys, after);
    assert forall j, k :: Seen(after, j, k) == Seen(sys, j, k);
  }

  /** Receipts alone let the live nodes deliver whatever they have seen. */
  lemma {:induction false} CatchesUp(cfg: Config, sys: System) returns (after: System)
    requires Proper(cfg) && cfg.kind == Lcb && Reachable(cfg, sys) && AckComplete(sys) && MajorityLive(cfg, sys)
    ensures Reaches(cfg, sys, after, {}, LiveNodes(sys)) && AckComplete(after) && CaughtUp(cfg, after)
    decreases |Lags(sys)|
  {
    hide Waiting, AckComplete, Reaches, Advances, Lags, Reachable;
    if i, k :| Live(sys, i) && Waiting(cfg, sys, i, k) {
      var mid := ReceiptCatchesUp(cfg, sys, i, k);
      SameLive(sys, mid);
      ReachesStaysReachable(cfg, sys, mid, {}, {i});
      after := CatchesUp(cfg, mid);
      ReachesWidens(cfg, sys, mid, {}, {i}, {}, LiveNodes(sys));
      ReachesTrans(cfg, sys, mid, after, {}, LiveNodes(sys));
    } else {
      after := sys;
      ReachesItself(cfg, sys, {}, LiveNodes(sys));
    }
  }

  lemma SameWaiting(cfg: Config, sys: System, after: System)
    requires Advances(sys, after) && CaughtUp(cfg, sys)
    requires forall i :: i in sys.nodes ==> after.nodes[i].store == sys.nodes[i].store
    ensures CaughtUp(cfg, after)
  {
    forall i, k | Live(after, i)
      ensures !Waiting(cfg, after, i, k)
    {
      assert forall j :: Seen(after, i, j) == Seen(sys, i, j);
      assert !Waiting(cfg, sys, i, k);
    }
  }

  /** A state without missing acks, and in causal order without waiting packets, can be reached. */
  lemma CompleteReachable(cfg: Config, sys: System) returns (after: System)
    requires Proper(cfg) && Uniform(cfg.kind) && Reachable(cfg, sys) && MajorityLive(cfg, sys)
    ensures Reaches(cfg, sys, after, LiveNodes(sys), LiveNodes(sys))
    ensures AckComplete(after) && (cfg.kind == Lcb ==> CaughtUp(cfg, after))
  {
    hide Inv, AcksShared, Reaches, Advances, Reachable, CaughtUp;
    var live := LiveNodes(sys);
    ReachableInv(cfg, sys);
    after := AcksCanComplete(cfg, sys, live);
    ReachesAdvances(cfg, sys, after, live, live);
    SameLive(sys, after);
    if cfg.kind == Lcb {
      var mid := after;
      ReachesStaysReachable(cfg, sys, mid, live, live);
      after := CatchesUp(cfg, mid);
      ReachesWidens(cfg, mid, after, {}, live, live, live);
      ReachesTrans(cfg, sys, mid, after, live, live);
    }
  }

  /** As long as at most a minority crashes, an `Urb`, `Fifob` or `Lcb` run can always go on, by sends, receives
      and retransmissions of the live nodes, to a state in which they have nothing left to send each other and every
      live node has delivered all that live nodes have broadcast and all that any node has delivered. */
  lemma AgreementReachable(cfg: Config, sys: System) returns (actions: seq<Action>)
    requires Proper(cfg) && Uniform(cfg.kind) && Reachable(cfg, sys) && MajorityLive(cfg, sys)
    ensures Quiet(actions, LiveNodes(sys), LiveNodes(sys)) && Executable(cfg, sys, actions)
    ensures var after := Exec(cfg, sys, actions);
      Advances(sys, after) && Silent(after) && Agreed(after)
  {
    hide Inv, AckComplete, Silent, Agreed, Reaches, Advances, Reachable, CaughtUp, Quiet, Executable, Exec;
    var live := LiveNodes(sys);
    ReachableInv(cfg, sys);
    var mid := CompleteReachable(cfg, sys);
    ReachesAdvances(cfg, sys, mid, live, live);
    SameLive(sys, mid);
    var after := ChannelsCanDrain(cfg, mid);
    SameLive(mid, after);
    ReachesWidens(cfg, mid, after, live, {}, live, live);
    ReachesTrans(cfg, sys, mid, after, live, live);
    ReachesAdvances(cfg, sys, after, live, live);
    ReachesStaysReachable(cfg, sys, after, live, live);
    if cfg.kind == Lcb {
      SameWaiting(cfg, mid, after);
    }
    AllAgree(cfg, after);
    actions := ActionsOf(cfg, sys, after, live);
  }

  lemma ActionsOf(cfg: Config, sys: System, after: System, group: set<nat>) returns (actions: seq<Action>)
    requires Reaches(cfg, sys, after, group, group)
    ensures Quiet(actions, group, group) && Executable(cfg, sys, actions) && Exec(cfg, sys, actions) == after
  {
    hide Executable, Exec, Quiet;
    actions :| Quiet(actions, group, group) && Executable(cfg, sys, actions) && Exec(cfg, sys, actions) == after;
  }
}
