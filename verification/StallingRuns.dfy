/** What the dropped worklist entries mean for whole `Lcb` runs: exactly when the live nodes agree once they have
    nothing left to send each other. Where they need not, a run without crashes is given that ends in such a
    state, in which a node still buffers a packet that it may deliver. */
module StallingRuns {
  import opened Basics
  import opened Messages
  import opened Store
  import opened StoreFacts
  import opened Protocol
  import opened NodeFacts
  import opened Invariants
  import opened Agreement
  import opened Causality
  import opened Quiescence
  import opened CatchUp
  import opened Stalls

  /** The condition on a system's maps under which a worklist that ends early never matters; where nodes
      broadcast one packet each, a node may be depended on by the one that the worklist comes to first. */
  predicate Orderly(cfg: Config)
  {
    Unstalled(cfg) || (cfg.messages == 1 && DependentFirst(cfg))
  }

  /** Nor does it matter if there is one node only, or no packet. */
  predicate Unhindered(cfg: Config)
  {
    cfg.n <= 1 || cfg.messages == 0 || Orderly(cfg)
  }

  // ---- Then nothing is ever left behind ----

  ghost predicate AllSettled(cfg: Config, sys: System)
  {
    forall i :: i in sys.nodes ==> Settled(cfg, sys.nodes[i].store)
  }

  lemma BufferedOrigin(cfg: Config, sys: System, i: nat)
    requires Inv(cfg, sys) && i in sys.nodes
    ensures var s := sys.nodes[i].store;
      && OwnersKnown(cfg, s)
      && forall k :: k in s.undelivered ==> 1 <= k.packet <= cfg.messages
  {
    hide Stores, Obliged, Truthful, AcksAnswer, WireAcksAnswer, OwnSeen, NumberedAt;
    var s := sys.nodes[i].store;
    forall k | k in s.undelivered
      ensures s.undelivered[k].owner in Ids(cfg.n) && 1 <= k.packet <= cfg.messages
    {
      BufferedIsNamed(cfg, sys, i, k);
      assert StoreHolds(s, s.undelivered[k]) && Holds(sys.nodes[i], s.undelivered[k]);
      GenuineKind(cfg, sys, s.undelivered[k]);
    }
  }

  /** `p` and the buffered packets are as an orderly system has them. */
  ghost predicate Fitting(cfg: Config, s: Store, p: Payload)
  {
    && p.kind == Lcb && p.owner in Ids(cfg.n)
    && (Unstalled(cfg) || (DependentFirst(cfg) && FirstPackets(s) && p.packet == 1))
  }

  /** Inserting into a sound, settled store. */
  lemma SoundInsertSettles(cfg: Config, s: Store, sender: nat, p: Payload)
    requires cfg.kind == Lcb && Fitting(cfg, s, p)
    requires StoreInv(cfg, s) && OwnersKnown(cfg, s) && Settled(cfg, s)
    ensures var t := Insert(cfg, s, sender, p);
      StoreInv(cfg, t) && OwnersKnown(cfg, t) && Settled(cfg, t) && Fitting(cfg, t, p)
  {
    hide Unstalled, DependentFirst, CounterExact, LoggedOnce, InOrder, Causal, MajorityAcked, Settled, OwnersKnown;
    InsertStoreInv(cfg, s, sender, p);
    InsertSettlesLcb(cfg, s, sender, p);
  }

  lemma NodeStepSettles(cfg: Config, node: Node, a: Action)
    requires cfg.kind == Lcb && StoreInv(cfg, node.store) && OwnersKnown(cfg, node.store) && Settled(cfg, node.store)
    requires a.Send? ==> node.sending != []
    requires a.Retransmit? ==> node.retrans != []
    requires a.Receive? ==> Fitting(cfg, node.store, a.m.payload)
    requires a.Broadcast? ==> Fitting(cfg, node.store, OwnPayload(cfg, a.i, node))
    ensures Settled(cfg, NodeStep(cfg, node, a).store)
  {
    hide Unstalled, DependentFirst, StoreInv, Insert;
    match a {
      case Broadcast(i) =>
        var p := OwnPayload(cfg, i, node);
        var s := node.store.(log := node.store.log + [Dispatch(p)]);
        DispatchStoreInv(cfg, node.store, p);
        SoundInsertSettles(cfg, s, i, p);
      case Receive(m) =>
        SoundInsertSettles(cfg, node.store, m.payload.sender, m.payload);
        SoundInsertSettles(cfg, Insert(cfg, node.store, m.payload.sender, m.payload), m.dest, m.payload);
      case _ =>
    }
  }

  lemma StepSettles(cfg: Config, sys: System, a: Action)
    requires Orderly(cfg) && cfg.kind == Lcb && Inv(cfg, sys) && AllSettled(cfg, sys) && Enabled(cfg, sys, a)
    ensures AllSettled(cfg, Step(cfg, sys, a))
  {
    hide Inv, Unstalled, DependentFirst, Settled, NodeStep;
    var i := Actor(a);
    NodeIds(cfg, sys);
    NodeStoreInv(cfg, sys, i);
    BufferedOrigin(cfg, sys, i);
    if a.Receive? {
      WireOrigin(cfg, sys, a.m);
    }
    NodeStepSettles(cfg, sys.nodes[i], a);
  }

  lemma WireOrigin(cfg: Config, sys: System, m: Message)
    requires Inv(cfg, sys) && m in sys.network
    ensures m.payload.kind == cfg.kind && m.payload.owner in Ids(cfg.n) && 1 <= m.payload.packet <= cfg.messages
  {
    GenuineKind(cfg, sys, m.payload);
  }

  lemma {:induction false} ExecSettles(cfg: Config, sys: System, actions: seq<Action>)
    requires Proper(cfg) && Orderly(cfg) && cfg.kind == Lcb && Inv(cfg, sys) && AllSettled(cfg, sys)
    requires Executable(cfg, sys, actions)
    ensures AllSettled(cfg, Exec(cfg, sys, actions))
    decreases |actions|
  {
    hide Inv, AllSettled, Orderly, Step;
    if actions != [] {
      StepInv(cfg, sys, actions[0]);
      StepSettles(cfg, sys, actions[0]);
      ExecSettles(cfg, Step(cfg, sys, actions[0]), actions[1..]);
    }
  }

  lemma OrderlySettled(cfg: Config, sys: System)
    requires Proper(cfg) && Orderly(cfg) && cfg.kind == Lcb && Reachable(cfg, sys)
    ensures AllSettled(cfg, sys)
  {
    hide Inv, Orderly, Executable, Exec;
    var actions :| Executable(cfg, Init(cfg), actions) && sys == Exec(cfg, Init(cfg), actions);
    InitInv(cfg);
    ExecSettles(cfg, Init(cfg), actions);
  }

  /** Every store of every reachable state is settled. */
  lemma UnhinderedSettled(cfg: Config, sys: System)
    requires Proper(cfg) && Unhindered(cfg) && cfg.kind == Lcb && Reachable(cfg, sys)
    ensures AllSettled(cfg, sys)
  {
    hide Inv, Orderly, Reachable, Ready;
    ReachableInv(cfg, sys);
    NodeIds(cfg, sys);
    if Orderly(cfg) {
      OrderlySettled(cfg, sys);
    } else if cfg.n == 1 {
      SingleNodeBuffersNothing(cfg, sys);
    } else {
      forall i | i in sys.nodes
        ensures Settled(cfg, sys.nodes[i].store)
      {
        BufferedOrigin(cfg, sys, i);
      }
    }
  }

  /** So once no ack is missing nothing waits: some waiting packet would pass the guard. */
  lemma SettledCatchesUp(cfg: Config, sys: System)
    requires Proper(cfg) && AllSettled(cfg, sys) && cfg.kind == Lcb && Reachable(cfg, sys)
    requires AckComplete(sys) && MajorityLive(cfg, sys)
    ensures CaughtUp(cfg, sys)
  {
    hide Reachable, AckComplete, MajorityLive, Waiting, LcbReady;
    forall i, k | Live(sys, i)
      ensures !Waiting(cfg, sys, i, k)
    {
      if Waiting(cfg, sys, i, k) {
        var j := GuardNeverDeadlocks(cfg, sys, i, k);
        ReachableInv(cfg, sys);
        BufferedKind(cfg, sys, i, j);
        assert false;
      }
    }
  }

  lemma BufferedKind(cfg: Config, sys: System, i: nat, k: Key)
    requires Inv(cfg, sys) && i in sys.nodes && k in sys.nodes[i].store.undelivered
    ensures sys.nodes[i].store.undelivered[k].kind == cfg.kind
  {
    hide Inv, Coherent;
    NodeStoreInv(cfg, sys, i);
  }

  // ---- Rounds seen from one side ----

  /** What receiving `c` makes of the store of node `i`. */
  function Receipt(cfg: Config, i: nat, s: Store, c: Payload): Store
  {
    NodeReceive(cfg, i, Node(s, [], [], 0, false), c).store
  }

  lemma ReceiptAtNode(cfg: Config, sys: System, m: Message)
    requires Enabled(cfg, sys, Receive(m))
    ensures var after := Step(cfg, sys, Receive(m));
      && after.nodes.Keys == sys.nodes.Keys
      && after.nodes[m.dest].store == Receipt(cfg, m.dest, sys.nodes[m.dest].store, m.payload)
      && forall l :: l in sys.nodes && l != m.dest ==> after.nodes[l] == sys.nodes[l]
  {
    hide Insert;
  }

  lemma GenuineBefore(sys: System, after: System, p: Payload)
    requires Advances(sys, after)
    ensures Genuine(after, p) <==> Genuine(sys, p)
  {
  }

  /** A round from `i` to `j` is one receipt at each of them, of copies of packet `k`. */
  lemma RoundReceipts(cfg: Config, sys: System, after: System, i: nat, j: nat, k: Key)
    returns (atJ: Payload, atI: Payload)
    requires Proper(cfg) && Relaying(cfg.kind) && Inv(cfg, sys) && i != j && Round(cfg, sys, after, i, j, k)
    requires i in sys.nodes && j in sys.nodes && i in after.nodes && j in after.nodes
    ensures atJ.Id() == k && Genuine(sys, atJ) && atI.Id() == k && Genuine(sys, atI)
    ensures atJ.sender == i && atI.sender == j
    ensures after.nodes[j].store == Receipt(cfg, j, sys.nodes[j].store, atJ)
    ensures after.nodes[i].store == Receipt(cfg, i, sys.nodes[i].store, atI)
  {
    hide Reaches, Inv, Step, Receipt, Genuine, Advances;
    var sent, answered, m, reply :|
      && Reaches(cfg, sys, sent, {i}, {})
      && Carries(m, j, k) && m.payload.sender == i && Enabled(cfg, sent, Receive(m))
      && Reaches(cfg, Step(cfg, sent, Receive(m)), answered, {j}, {})
      && reply == Message(m.payload.(sender := j, isAck := true), i) && Enabled(cfg, answered, Receive(reply))
      && after == Step(cfg, answered, Receive(reply));
    var received := Step(cfg, sent, Receive(m));
    ReachesAdvances(cfg, sys, sent, {i}, {});
    ReceiptAtNode(cfg, sent, m);
    StepInv(cfg, sent, Receive(m));
    ReachesAdvances(cfg, received, answered, {j}, {});
    ReceiptAtNode(cfg, answered, reply);
    OnWireIsGenuine(cfg, sent, m);
    GenuineBefore(sys, sent, m.payload);
    atJ, atI := m.payload, reply.payload;
    StampedGenuine(sys, atJ, j);
    SameNodes(sys, sent);
  }

  lemma SameNodes(sys: System, after: System)
    requires Advances(sys, after)
    ensures after.nodes.Keys == sys.nodes.Keys
  {
  }

  lemma OnWireIsGenuine(cfg: Config, sys: System, m: Message)
    requires Inv(cfg, sys) && m in sys.network
    ensures Genuine(sys, m.payload)
  {
  }

  lemma StampedGenuine(sys: System, p: Payload, j: nat)
    requires Genuine(sys, p)
    ensures Genuine(sys, p.(sender := j, isAck := true))
  {
  }

  /** Node `i` and another node, which has seen `k`, get each other's ack of `k` by one round, and `i` receives
      one datagram in it. */
  lemma Exchange(cfg: Config, sys: System, i: nat, j: nat, k: Key) returns (after: System, c: Payload)
    requires Proper(cfg) && Relaying(cfg.kind) && Inv(cfg, sys) && Live(sys, i) && Live(sys, j) && i != j
    requires Seen(sys, j, k) && Ack(j, k) !in sys.nodes[i].store.acked
    ensures Reaches(cfg, sys, after, {i, j}, {i, j}) && Inv(cfg, after) && Advances(sys, after)
    ensures Live(after, i) && Ack(j, k) in after.nodes[i].store.acked
    ensures Live(after, j) && Ack(i, k) in after.nodes[j].store.acked
    ensures c.Id() == k && c.sender == j && Genuine(sys, c)
    ensures after.nodes[i].store == Receipt(cfg, i, sys.nodes[i].store, c)
  {
    hide Reaches, Inv, Round, Receipt, Genuine;
    var d;
    if Seen(sys, i, k) {
      after := RoundBringsAck(cfg, sys, i, j, k);
      RoundEffect(cfg, sys, after, i, j, k);
      d, c := RoundReceipts(cfg, sys, after, i, j, k);
    } else {
      NotHeardYet(cfg, sys, i, j, k);
      after := RoundBringsAck(cfg, sys, j, i, k);
      RoundEffect(cfg, sys, after, j, i, k);
      c, d := RoundReceipts(cfg, sys, after, j, i, k);
      assert {i, j} == {j, i};
    }
    SameLive(sys, after);
  }

  lemma NotHeardYet(cfg: Config, sys: System, i: nat, j: nat, k: Key)
    requires Inv(cfg, sys) && j in sys.nodes && !Seen(sys, i, k)
    ensures Ack(i, k) !in sys.nodes[j].store.acked
  {
    hide Authentic, Stores, Obliged, AcksAnswer, WireAcksAnswer, OwnSeen;
  }

  // ---- One node trades its acks with all others ----

  lemma ReceiptAcks(cfg: Config, i: nat, s: Store, c: Payload)
    requires Relaying(c.kind)
    ensures Receipt(cfg, i, s, c).acked == s.acked + {Ack(c.sender, c.Id()), Ack(i, c.Id())}
  {
    ReceiveEffect(cfg, i, Node(s, [], [], 0, false), c);
  }

  lemma ReceiptPhase(cfg: Config, i: nat, s: Store, p: Payload, q: Payload, c: Payload)
    requires Stalling(cfg, p, q) && Coherent(s) && Phase(cfg, s, p, q, c.Id()) && (Alike(c, p) || Alike(c, q))
    ensures Phase(cfg, Receipt(cfg, i, s, c), p, q, c.Id())
  {
    hide Stalling, Coherent, Phase, Insert;
    var t := Insert(cfg, s, c.sender, c);
    InsertPhase(cfg, s, p, q, c.sender, c);
    InsertCoherent(cfg, s, c.sender, c);
    InsertPhase(cfg, t, p, q, i, c);
  }

  lemma GenuineAlike(cfg: Config, sys: System, c: Payload, p: Payload)
    requires cfg.kind == Lcb && Authentic(cfg, sys) && Genuine(sys, c) && Genuine(sys, p) && c.Id() == p.Id()
    ensures Alike(c, p)
  {
    GenuineKind(cfg, sys, c);
    GenuineKind(cfg, sys, p);
    SameClock(sys, c, p);
  }

  /** The system in which only `p` and `q` were broadcast, nobody crashed and all nodes but `i` have each other's
      acks of both. */
  ghost predicate AllButOne(cfg: Config, sys: System, i: nat, p: Payload, q: Payload)
  {
    && LiveNodes(sys) == Ids(cfg.n) && i in Ids(cfg.n)
    && Broadcasts(sys) == {p.Id(), q.Id()} && Genuine(sys, p) && Genuine(sys, q)
    && (forall h, j :: h in Ids(cfg.n) - {i} && j in Ids(cfg.n) - {i} && h in sys.nodes ==>
          Ack(j, p.Id()) in sys.nodes[h].store.acked && Ack(j, q.Id()) in sys.nodes[h].store.acked)
  }

  /** Nodes `i` and `j` have each other's ack of `k`. */
  ghost predicate Traded(sys: System, i: nat, j: nat, k: Key)
  {
    && i in sys.nodes && Ack(j, k) in sys.nodes[i].store.acked
    && j in sys.nodes && Ack(i, k) in sys.nodes[j].store.acked
  }

  /** `i` has traded acks of `k` with the other nodes up to `x` and has none of the rest. */
  ghost predicate TradedUpTo(cfg: Config, sys: System, i: nat, k: Key, x: nat)
  {
    forall j :: j in Ids(cfg.n) && j != i && i in sys.nodes ==>
      if j <= x then Traded(sys, i, j, k) else Ack(j, k) !in sys.nodes[i].store.acked
  }

  lemma AllButOneStays(cfg: Config, sys: System, after: System, i: nat, p: Payload, q: Payload)
    requires AllButOne(cfg, sys, i, p, q) && Advances(sys, after)
    ensures AllButOne(cfg, after, i, p, q)
  {
    hide Genuine;
    SameLive(sys, after);
    SameBroadcasts(sys, after);
    GenuineBefore(sys, after, p);
    GenuineBefore(sys, after, q);
    hide Broadcasts;
  }

  lemma TradedOnce(cfg: Config, sys: System, after: System, i: nat, k: Key, x: nat)
    requires Advances(sys, after) && i in sys.nodes && TradedUpTo(cfg, sys, i, k, x)
    requires x + 1 != i ==> Traded(after, i, x + 1, k)
    requires after.nodes[i].store.acked <= sys.nodes[i].store.acked + {Ack(x + 1, k), Ack(i, k)}
    ensures TradedUpTo(cfg, after, i, k, x + 1)
  {
  }

  /** One more trade. */
  lemma TradeNext(cfg: Config, sys: System, i: nat, p: Payload, q: Payload, k: Key, x: nat) returns (after: System)
    requires Proper(cfg) && cfg.kind == Lcb && Reachable(cfg, sys) && Stalling(cfg, p, q)
    requires AllButOne(cfg, sys, i, p, q) && (k == p.Id() || k == q.Id()) && x < cfg.n
    requires i in sys.nodes && Phase(cfg, sys.nodes[i].store, p, q, k) && TradedUpTo(cfg, sys, i, k, x)
    ensures Reachable(cfg, after) && Advances(sys, after) && i in after.nodes
    ensures Phase(cfg, after.nodes[i].store, p, q, k) && TradedUpTo(cfg, after, i, k, x + 1)
    ensures forall a :: a in after.nodes[i].store.acked ==> a in sys.nodes[i].store.acked || a.key == k
  {
    hide Inv, Reachable, Phase, Stalling, AllButOne, Advances, TradedUpTo;
    if x + 1 == i {
      after := sys;
      NothingAdvances(sys, {}, {});
      TradedOnce(cfg, sys, after, i, k, x);
    } else {
      ReadyToTrade(cfg, sys, i, x + 1, p, q, k, x);
      after := TradeOne(cfg, sys, i, x + 1, p, q, k);
      TradedOnce(cfg, sys, after, i, k, x);
    }
  }

  lemma ReadyToTrade(cfg: Config, sys: System, i: nat, j: nat, p: Payload, q: Payload, k: Key, x: nat)
    requires AllButOne(cfg, sys, i, p, q) && (k == p.Id() || k == q.Id()) && TradedUpTo(cfg, sys, i, k, x)
    requires x < j <= cfg.n && j != i
    ensures Live(sys, i) && Live(sys, j) && Seen(sys, j, k) && Ack(j, k) !in sys.nodes[i].store.acked
    ensures Genuine(sys, p) && Genuine(sys, q)
  {
    hide Genuine, Broadcasts;
    assert j in LiveNodes(sys) && i in LiveNodes(sys);
  }

  lemma TradeOne(cfg: Config, sys: System, i: nat, j: nat, p: Payload, q: Payload, k: Key) returns (after: System)
    requires Proper(cfg) && cfg.kind == Lcb && Reachable(cfg, sys) && Stalling(cfg, p, q)
    requires Genuine(sys, p) && Genuine(sys, q) && (k == p.Id() || k == q.Id())
    requires Live(sys, i) && Live(sys, j) && i != j && Seen(sys, j, k) && Ack(j, k) !in sys.nodes[i].store.acked
    requires Phase(cfg, sys.nodes[i].store, p, q, k)
    ensures Reachable(cfg, after) && Advances(sys, after) && Traded(after, i, j, k)
    ensures Phase(cfg, after.nodes[i].store, p, q, k)
    ensures after.nodes[i].store.acked == sys.nodes[i].store.acked + {Ack(j, k), Ack(i, k)}
  {
    hide Inv, Reaches, Reachable, Phase, Stalling, Genuine, Receipt, Coherent, Advances, Alike;
    var c;
    ReachableInv(cfg, sys);
    after, c := Exchange(cfg, sys, i, j, k);
    ReachesStaysReachable(cfg, sys, after, {i, j}, {i, j});
    CopyOfEither(cfg, sys, c, p, q);
    NodeCoherent(cfg, sys, i);
    ReceiptPhase(cfg, i, sys.nodes[i].store, p, q, c);
    ReceiptAcks(cfg, i, sys.nodes[i].store, c);
  }

  lemma CopyOfEither(cfg: Config, sys: System, c: Payload, p: Payload, q: Payload)
    requires cfg.kind == Lcb && Inv(cfg, sys) && Genuine(sys, c) && Genuine(sys, p) && Genuine(sys, q)
    requires c.Id() == p.Id() || c.Id() == q.Id()
    ensures (Alike(c, p) || Alike(c, q)) && c.kind == Lcb
  {
    hide Stores, Truthful, AcksAnswer, WireAcksAnswer, OwnSeen, Obliged, Authentic, Genuine;
    if c.Id() == p.Id() {
      GenuineAlike(cfg, sys, c, p);
    } else {
      GenuineAlike(cfg, sys, c, q);
    }
  }

  lemma NodeCoherent(cfg: Config, sys: System, i: nat)
    requires Inv(cfg, sys) && i in sys.nodes
    ensures Coherent(sys.nodes[i].store)
  {
    NodeStoreInv(cfg, sys, i);
    hide Inv;
  }

  lemma {:induction false} TradeAll(cfg: Config, sys: System, i: nat, p: Payload, q: Payload, k: Key, x: nat)
    returns (after: System)
    requires Proper(cfg) && cfg.kind == Lcb && Reachable(cfg, sys) && Stalling(cfg, p, q)
    requires AllButOne(cfg, sys, i, p, q) && (k == p.Id() || k == q.Id()) && x <= cfg.n
    requires i in sys.nodes && Phase(cfg, sys.nodes[i].store, p, q, k) && TradedUpTo(cfg, sys, i, k, x)
    ensures Reachable(cfg, after) && Advances(sys, after) && i in after.nodes
    ensures Phase(cfg, after.nodes[i].store, p, q, k) && TradedUpTo(cfg, after, i, k, cfg.n)
    ensures forall a :: a in after.nodes[i].store.acked ==> a in sys.nodes[i].store.acked || a.key == k
    decreases cfg.n - x
  {
    hide Reachable, Phase, Stalling, AllButOne, TradedUpTo, Advances;
    if x == cfg.n {
      after := sys;
      NothingAdvances(sys, {}, {});
    } else {
      var mid := TradeNext(cfg, sys, i, p, q, k, x);
      AllButOneStays(cfg, sys, mid, i, p, q);
      after := TradeAll(cfg, mid, i, p, q, k, x + 1);
      StillAdvances(sys, mid, after);
    }
  }

  lemma StillAdvances(sys: System, mid: System, after: System)
    requires Advances(sys, mid) && Advances(mid, after)
    ensures Advances(sys, after)
  {
  }

  /** Then `i` has everybody's ack. */
  lemma TradedMajority(cfg: Config, sys: System, i: nat, k: Key)
    requires Inv(cfg, sys) && i in Ids(cfg.n) && i in sys.nodes && cfg.n >= 2 && TradedUpTo(cfg, sys, i, k, cfg.n)
    ensures Seen(sys, i, k) && |Senders(sys.nodes[i].store.acked, k)| >= Majority(cfg.n)
  {
    hide Authentic, Stores, Obliged, AcksAnswer, WireAcksAnswer, OwnSeen;
    var acked := sys.nodes[i].store.acked;
    var j := if i == 1 then 2 else 1;
    assert Traded(sys, i, j, k);
    forall l | l in Ids(cfg.n)
      ensures l in Senders(acked, k)
    {
      assert l != i ==> Traded(sys, i, l, k);
      SenderIsThere(acked, l, k);
    }
    IdsSize(cfg.n);
    SubsetSize(Ids(cfg.n), Senders(acked, k));
  }

  lemma NowComplete(cfg: Config, sys: System, i: nat, p: Payload, q: Payload)
    requires Inv(cfg, sys) && AllButOne(cfg, sys, i, p, q) && cfg.n >= 2
    requires TradedUpTo(cfg, sys, i, p.Id(), cfg.n) && TradedUpTo(cfg, sys, i, q.Id(), cfg.n)
    ensures AckComplete(sys)
  {
    hide Inv, Genuine;
    NodeIds(cfg, sys);
    TradedMajority(cfg, sys, i, p.Id());
    TradedMajority(cfg, sys, i, q.Id());
    forall h, j, k | h in LiveNodes(sys) && j in LiveNodes(sys) && Seen(sys, h, k)
      ensures Ack(j, k) in sys.nodes[h].store.acked
    {
      SeenIsBroadcast(cfg, sys, h, k);
      hide Broadcasts;
      assert j != i ==> Traded(sys, i, j, k);
      assert h != i ==> Traded(sys, i, h, k);
    }
  }

  /** `i` has nothing but, perhaps, its own ack of `q`. */
  ghost predicate HeardNobody(sys: System, i: nat, q: Payload)
  {
    i in sys.nodes && forall a :: a in sys.nodes[i].store.acked ==> a == Ack(i, q.Id())
  }

  /** Trading first `p`, then `q`, stalls node `i`. */
  lemma TradesStall(cfg: Config, sys: System, i: nat, p: Payload, q: Payload) returns (after: System)
    requires Proper(cfg) && cfg.kind == Lcb && cfg.n >= 2 && Reachable(cfg, sys) && Stalling(cfg, p, q)
    requires AllButOne(cfg, sys, i, p, q) && HeardNobody(sys, i, q)
    requires i in sys.nodes && Parked(cfg, sys.nodes[i].store, p, q)
    ensures Reachable(cfg, after) && AckComplete(after) && AllButOne(cfg, after, i, p, q)
    ensures i in after.nodes && Stalled(cfg, after.nodes[i].store, p, q)
  {
    hide Inv, Reachable, Stalling, AllButOne, Advances, AckComplete, Traded, Stalled;
    StallingKinds(cfg, p, q);
    NodeOfSystem(cfg, sys, i);
    var mid := TradeAll(cfg, sys, i, p, q, p.Id(), 0);
    AllButOneStays(cfg, sys, mid, i, p, q);
    ReachableInv(cfg, mid);
    TradedMajority(cfg, mid, i, p.Id());
    after := TradeAll(cfg, mid, i, p, q, q.Id(), 0);
    AllButOneStays(cfg, mid, after, i, p, q);
    ReachableInv(cfg, after);
    TradedMajority(cfg, after, i, q.Id());
    StillTraded(cfg, mid, after, i, p.Id());
    NowComplete(cfg, after, i, p, q);
  }

  lemma NodeOfSystem(cfg: Config, sys: System, i: nat)
    requires Proper(cfg) && Relaying(cfg.kind) && Reachable(cfg, sys) && i in sys.nodes
    ensures Inv(cfg, sys) && i in Ids(cfg.n)
  {
    ReachableInv(cfg, sys);
  }

  lemma StillTraded(cfg: Config, mid: System, after: System, i: nat, k: Key)
    requires Advances(mid, after) && i in mid.nodes && TradedUpTo(cfg, mid, i, k, cfg.n)
    ensures TradedUpTo(cfg, after, i, k, cfg.n)
  {
    forall j | j in Ids(cfg.n) && j != i
      ensures Traded(after, i, j, k)
    {
      assert Traded(mid, i, j, k);
    }
  }

  // ---- Reaching the state in which `i` is the last to hear ----

  lemma ReachableStep(cfg: Config, sys: System, a: Action)
    requires Reachable(cfg, sys) && Enabled(cfg, sys, a)
    ensures Reachable(cfg, Step(cfg, sys, a))
  {
    hide Step, Enabled, Executable, Exec;
    var before :| Executable(cfg, Init(cfg), before) && sys == Exec(cfg, Init(cfg), before);
    ExecOne(cfg, sys, a);
    ExecConcat(cfg, Init(cfg), before, [a]);
  }

  lemma InitReachable(cfg: Config)
    ensures Reachable(cfg, Init(cfg))
  {
    assert Executable(cfg, Init(cfg), []) && Exec(cfg, Init(cfg), []) == Init(cfg);
  }

  /** What a broadcast of node `o` changes. */
  ghost predicate Broadcasted(cfg: Config, sys: System, after: System, o: nat, p: Payload)
  {
    && o in sys.nodes && after.nodes.Keys == sys.nodes.Keys
    && LiveNodes(after) == LiveNodes(sys)
    && Broadcasts(after) == Broadcasts(sys) + {p.Id()}
    && Genuine(after, p) && (forall c :: Genuine(sys, c) ==> Genuine(after, c))
    && after.nodes[o].store.acked == sys.nodes[o].store.acked + {Ack(o, p.Id())}
    && after.nodes[o].sent == sys.nodes[o].sent + 1
    && (forall j :: j in sys.nodes && j != o ==> after.nodes[j] == sys.nodes[j])
  }

  lemma BroadcastStep(cfg: Config, sys: System, o: nat) returns (after: System, p: Payload)
    requires Relaying(cfg.kind) && Inv(cfg, sys) && Reachable(cfg, sys) && Enabled(cfg, sys, Broadcast(o))
    ensures after == Step(cfg, sys, Broadcast(o)) && p == OwnPayload(cfg, o, sys.nodes[o])
    ensures Reachable(cfg, after) && Broadcasted(cfg, sys, after, o, p)
  {
    hide Inv, Reachable, NodeBroadcast, Genuine, Broadcasts, StoreHolds, OnlyDelivers, Copies;
    after, p := Step(cfg, sys, Broadcast(o)), OwnPayload(cfg, o, sys.nodes[o]);
    ReachableStep(cfg, sys, Broadcast(o));
    BroadcastEffect(cfg, o, sys.nodes[o]);
    OwnCount(cfg, sys, o);
    OwnGenuine(sys, after, o, p);
    BroadcastsGrow(sys, after, o, p);
    BroadcastKeepsGenuine(cfg, sys, o);
  }

  lemma BroadcastKeepsGenuine(cfg: Config, sys: System, o: nat)
    requires Relaying(cfg.kind) && Enabled(cfg, sys, Broadcast(o))
    ensures forall c :: Genuine(sys, c) ==> Genuine(Step(cfg, sys, Broadcast(o)), c)
  {
    hide Genuine, Step;
    StepGrows(cfg, sys, Broadcast(o));
    forall c | Genuine(sys, c)
      ensures Genuine(Step(cfg, sys, Broadcast(o)), c)
    {
      GenuineStays(sys, Step(cfg, sys, Broadcast(o)), c);
    }
  }

  lemma OwnGenuine(sys: System, after: System, o: nat, p: Payload)
    requires o in sys.nodes && o in after.nodes && Own(after, o) == Own(sys, o) + [p]
    requires p.owner == o && p.packet == |Own(sys, o)| + 1
    ensures Genuine(after, p)
  {
  }

  lemma BroadcastsGrow(sys: System, after: System, o: nat, p: Payload)
    requires after.nodes.Keys == sys.nodes.Keys && o in sys.nodes
    requires forall j :: j in sys.nodes ==> after.nodes[j].sent == sys.nodes[j].sent + if j == o then 1 else 0
    requires p.Id() == Key(o, sys.nodes[o].sent + 1)
    ensures Broadcasts(after) == Broadcasts(sys) + {p.Id()}
  {
    forall k
      ensures k in Broadcasts(after) <==> k in Broadcasts(sys) + {p.Id()}
    {
      assert k == Key(k.owner, k.packet);
    }
  }

  /** A node that has only broadcast its first packet waits for the others' acks. */
  lemma FirstIsParked(cfg: Config, sys: System, o: nat, p: Payload, q: Payload)
    requires cfg.kind == Lcb && cfg.n >= 2 && o in sys.nodes && Enabled(cfg, sys, Broadcast(o))
    requires sys.nodes[o].store == Empty(cfg.n) && q == OwnPayload(cfg, o, sys.nodes[o]) && p.Id() != q.Id()
    ensures var after := Step(cfg, sys, Broadcast(o));
      o in after.nodes && Parked(cfg, after.nodes[o].store, p, q)
  {
    hide Insert, Coherent, Parked;
    var s := Empty(cfg.n).(log := [] + [Dispatch(q)]);
    assert Empty(cfg.n).log == [];
    EmptyStoreInv(cfg);
    DispatchStoreInv(cfg, Empty(cfg.n), q);
    EmptyParks(cfg, s, p, q);
    assert Senders(s.acked, q.Id()) + {o} == {o};
    ParkSecond(cfg, s, p, q, o, q);
  }

  lemma EmptyParks(cfg: Config, s: Store, p: Payload, q: Payload)
    requires s.(log := []) == Empty(cfg.n)
    ensures Parked(cfg, s, p, q)
  {
    assert Senders({}, q.Id()) == {};
  }

  /** Nobody crashed, and exactly the packets `keys` were broadcast. */
  ghost predicate Only(cfg: Config, sys: System, keys: set<Key>)
  {
    sys.nodes.Keys == Ids(cfg.n) && LiveNodes(sys) == Ids(cfg.n) && Broadcasts(sys) == keys
  }

  lemma InitOnly(cfg: Config)
    ensures Only(cfg, Init(cfg), {})
    ensures forall i :: i in Ids(cfg.n) ==> Init(cfg).nodes[i] == Node(Empty(cfg.n), [], [], 0, false)
  {
  }

  lemma OnlyStays(cfg: Config, sys: System, after: System, keys: set<Key>)
    requires Only(cfg, sys, keys) && Advances(sys, after)
    ensures Only(cfg, after, keys)
  {
    SameLive(sys, after);
    SameBroadcasts(sys, after);
  }

  /** If a node `o` has seen both packets, all nodes but `i` can share them without `i`. */
  lemma OthersShare(cfg: Config, sys: System, i: nat, o: nat, p: Payload, q: Payload) returns (after: System)
    requires Proper(cfg) && cfg.kind == Lcb && Reachable(cfg, sys) && Only(cfg, sys, {p.Id(), q.Id()})
    requires Genuine(sys, p) && Genuine(sys, q) && i in Ids(cfg.n) && o in Ids(cfg.n) && o != i
    requires Seen(sys, o, p.Id()) && Seen(sys, o, q.Id())
    ensures Reachable(cfg, after) && AllButOne(cfg, after, i, p, q)
    ensures i in after.nodes && after.nodes[i] == sys.nodes[i]
  {
    hide Inv, Reachable, Reaches, Genuine, Broadcasts, AcksShared, Advances, AllButOne, Ids;
    var group := Ids(cfg.n) - {i};
    ReachableInv(cfg, sys);
    after := AcksCanComplete(cfg, sys, group);
    ReachesStaysReachable(cfg, sys, after, group, group);
    ReachesAdvances(cfg, sys, after, group, group);
    OnlyStays(cfg, sys, after, {p.Id(), q.Id()});
    GenuineBefore(sys, after, p);
    GenuineBefore(sys, after, q);
    AcksKept(sys, after, o);
    SharedByOthers(cfg, after, i, o, p, q);
  }

  lemma SharedByOthers(cfg: Config, sys: System, i: nat, o: nat, p: Payload, q: Payload)
    requires Inv(cfg, sys) && Only(cfg, sys, {p.Id(), q.Id()}) && Genuine(sys, p) && Genuine(sys, q)
    requires i in Ids(cfg.n) && o in Ids(cfg.n) && o != i && AcksShared(sys, Ids(cfg.n) - {i})
    requires Seen(sys, o, p.Id()) && Seen(sys, o, q.Id())
    ensures AllButOne(cfg, sys, i, p, q)
  {
    hide Inv, AcksShared, Genuine, Broadcasts, Ids;
    var group := Ids(cfg.n) - {i};
    forall h, j | h in group && j in group
      ensures Ack(j, p.Id()) in sys.nodes[h].store.acked && Ack(j, q.Id()) in sys.nodes[h].store.acked
    {
      SharedAck(cfg, sys, group, o, h, j, p.Id());
      SharedAck(cfg, sys, group, o, h, j, q.Id());
    }
  }

  lemma SharedAck(cfg: Config, sys: System, group: set<nat>, o: nat, h: nat, j: nat, k: Key)
    requires Inv(cfg, sys) && AcksShared(sys, group) && o in group && h in group && j in group && Seen(sys, o, k)
    ensures h in sys.nodes && Ack(j, k) in sys.nodes[h].store.acked
  {
    hide Authentic, Stores, Obliged, AcksAnswer, WireAcksAnswer, OwnSeen;
    assert Ack(h, k) in sys.nodes[o].store.acked;
    assert Seen(sys, h, k);
  }

  /** What the last part of a stalling run starts from: all nodes but `i` share `p` and `q`, and `i` has heard
      of neither from them. */
  ghost predicate Staged(cfg: Config, sys: System, i: nat, p: Payload, q: Payload)
  {
    && Reachable(cfg, sys) && Stalling(cfg, p, q) && AllButOne(cfg, sys, i, p, q) && HeardNobody(sys, i, q)
    && i in sys.nodes && Parked(cfg, sys.nodes[i].store, p, q)
  }

  /** The worklist comes to another node first: `o` broadcasts two packets. */
  lemma StageTwoPackets(cfg: Config, o: nat, i: nat) returns (sys: System, p: Payload, q: Payload)
    requires Proper(cfg) && cfg.kind == Lcb && cfg.n >= 2 && cfg.messages >= 2
    requires o in Ids(cfg.n) && i in Ids(cfg.n) && i != o && !OwnNextLast(cfg, o)
    ensures Staged(cfg, sys, i, p, q)
  {
    hide Inv, Reachable, Genuine, Broadcasts, AllButOne, Ids, Step, Empty;
    var start := Init(cfg);
    InitReachable(cfg);
    InitOnly(cfg);
    InitInv(cfg);
    var one, two;
    one, q := BroadcastStep(cfg, start, o);
    assert o in LiveNodes(one);
    ReachableInv(cfg, one);
    two, p := BroadcastStep(cfg, one, o);
    FirstIsParked(cfg, start, o, p, q);
    StallsByOrder(cfg, o, p, q);
    assert {} + {q.Id()} + {p.Id()} == {p.Id(), q.Id()};
    sys := OthersShare(cfg, two, i, o, p, q);
    EmptyHeard(cfg);
    EmptyParks(cfg, Empty(cfg.n), p, q);
  }

  lemma EmptyHeard(cfg: Config)
    ensures Empty(cfg.n).acked == {} && Empty(cfg.n).log == []
    ensures forall d :: At(Empty(cfg.n).clock, d) == 0
  {
  }

  lemma StallsByOrder(cfg: Config, o: nat, p: Payload, q: Payload)
    requires o in Ids(cfg.n) && !OwnNextLast(cfg, o) && p.kind == q.kind == Lcb && p.clock == q.clock
    requires p.Id() == Key(o, 2) && q.Id() == Key(o, 1) && q.clock == Empty(cfg.n).clock
    ensures Stalling(cfg, p, q)
  {
  }

  /** `a` depends on `o`, but the worklist does not come to it first. */
  predicate Overtaken(cfg: Config, o: nat, a: nat)
  {
    o in cfg.Dependencies(a) && a != o && FirstAfter(cfg, o) != Key(a, 1)
  }

  lemma StallsByDependency(cfg: Config, o: nat, a: nat, p: Payload, q: Payload)
    requires o in Ids(cfg.n) && a in Ids(cfg.n) && Overtaken(cfg, o, a)
    requires p.kind == q.kind == Lcb && q.clock == Empty(cfg.n).clock
    requires p.Id() == Key(a, 1) && q.Id() == Key(o, 1)
    requires forall d :: At(p.clock, d) == if d == o then 1 else 0
    ensures Stalling(cfg, p, q)
  {
  }

  /** `o` gets a packet to `a`. */
  lemma CopyArrives(cfg: Config, sys: System, o: nat, a: nat, k: Key) returns (after: System, m: Message)
    requires Proper(cfg) && Relaying(cfg.kind) && Reachable(cfg, sys) && Live(sys, o) && Live(sys, a) && a != o
    requires Seen(sys, o, k) && !Seen(sys, a, k)
    ensures Reachable(cfg, after) && Advances(sys, after) && after.nodes[o].store == sys.nodes[o].store
    ensures Enabled(cfg, after, Receive(m)) && m.dest == a && m.payload.Id() == k && m.payload.sender == o
    ensures Seen(after, a, k) && Ack(o, k) in after.nodes[a].store.acked
  {
    hide Inv, Reachable, Reaches, Step;
    ReachableInv(cfg, sys);
    NotHeardYet(cfg, sys, a, o, k);
    StillPending(cfg, sys, o, a, k);
    var sent;
    sent, m := PendingToWire(cfg, sys, o, a, k);
    ReachesAdvances(cfg, sys, sent, {o}, {});
    after := Step(cfg, sent, Receive(m));
    ReachesReceipt(cfg, sys, sent, m, o, {o, a});
    ReachesStaysReachable(cfg, sys, after, {o, a}, {o, a});
    ReceiptRecords(cfg, sent, m);
    ReceiptAtNode(cfg, sent, m);
    StepAdvances(cfg, sent, Receive(m));
    StillAdvances(sys, sent, after);
  }

  /** `o` gets its first packet to `a`, and `a` shares it with all others, without an ack reaching `o`. */
  lemma StageOnePacket(cfg: Config, sys: System, o: nat, a: nat, q: Payload) returns (after: System, m: Message)
    requires Proper(cfg) && cfg.kind == Lcb && Reachable(cfg, sys) && Only(cfg, sys, {q.Id()})
    requires o in Ids(cfg.n) && a in Ids(cfg.n) && a != o
    requires Seen(sys, o, q.Id()) && !Seen(sys, a, q.Id())
    ensures Reachable(cfg, after) && Advances(sys, after) && after.nodes[o].store == sys.nodes[o].store
    ensures Enabled(cfg, after, Receive(m)) && m.dest == a && m.payload.Id() == q.Id() && m.payload.sender == o
    ensures forall j :: j in Ids(cfg.n) ==> Ack(j, q.Id()) in after.nodes[a].store.acked
  {
    hide Inv, Reachable, Reaches, Broadcasts, Advances, Spares, AcksShared, Ids;
    var group := Ids(cfg.n) - {o};
    assert o in LiveNodes(sys) && a in LiveNodes(sys);
    var received;
    received, m := CopyArrives(cfg, sys, o, a, q.Id());
    OnlyStays(cfg, sys, received, {q.Id()});
    ReachableInv(cfg, received);
    after := AcksCanComplete(cfg, received, group);
    ReachesStaysReachable(cfg, received, after, group, group);
    ReachesAdvances(cfg, received, after, group, group);
    StillAdvances(sys, received, after);
    OnlyStays(cfg, received, after, {q.Id()});
    StoreSpared(received, after, o, group);
    AcksKept(received, after, a);
    forall j | j in Ids(cfg.n)
      ensures Ack(j, q.Id()) in after.nodes[a].store.acked
    {
      if j != o {
        SharedAck(cfg, after, group, a, a, j, q.Id());
      }
    }
  }

  lemma StoreSpared(sys: System, after: System, i: nat, group: set<nat>)
    requires Advances(sys, after) && Spares(sys, after, group, group) && i in sys.nodes && i !in group
    ensures after.nodes[i].store == sys.nodes[i].store
  {
  }

  lemma AcksKept(sys: System, after: System, i: nat)
    requires Advances(sys, after) && i in sys.nodes
    ensures sys.nodes[i].store.acked <= after.nodes[i].store.acked && sys.network <= after.network
    ensures forall k :: Seen(sys, i, k) ==> Seen(after, i, k)
  {
  }

  lemma StillPending(cfg: Config, sys: System, i: nat, j: nat, k: Key)
    requires Inv(cfg, sys) && Seen(sys, i, k) && j in sys.nodes && j != i
    requires Ack(j, k) !in sys.nodes[i].store.acked
    ensures Pending(sys.nodes[i], j, k)
  {
    hide Authentic, Stores, Truthful, AcksAnswer, WireAcksAnswer, OwnSeen;
  }

  /** A node that has everybody's ack of the only packet has delivered it or may deliver it. */
  lemma OnlyPacketIsReady(cfg: Config, sys: System, a: nat, q: Payload)
    requires cfg.kind == Lcb && Inv(cfg, sys) && a in sys.nodes && Genuine(sys, q) && q.packet == 1
    requires forall d :: At(q.clock, d) == 0
    requires forall j :: j in Ids(cfg.n) ==> Ack(j, q.Id()) in sys.nodes[a].store.acked
    requires cfg.n >= 1 && q.Id() !in sys.nodes[a].store.delivered
    ensures var s := sys.nodes[a].store;
      q.Id() in s.undelivered && LcbReady(cfg, s, s.undelivered[q.Id()])
  {
    hide Inv, Genuine, LoggedOnce, FifoLog, CausalLog;
    var s, k := sys.nodes[a].store, q.Id();
    NodeStoreInv(cfg, sys, a);
    forall j | j in Ids(cfg.n)
      ensures j in Senders(s.acked, k)
    {
      SenderIsThere(s.acked, j, k);
    }
    IdsSize(cfg.n);
    SubsetSize(Ids(cfg.n), Senders(s.acked, k));
    assert k in s.undelivered && Next(s, q.owner) == 1;
    BufferedClock(cfg, sys, a, q);
  }

  lemma BufferedClock(cfg: Config, sys: System, a: nat, q: Payload)
    requires Inv(cfg, sys) && a in sys.nodes && Genuine(sys, q) && q.Id() in sys.nodes[a].store.undelivered
    ensures var b := sys.nodes[a].store.undelivered[q.Id()]; b.Id() == q.Id() && b.clock == q.clock
  {
    hide Stores, Truthful, AcksAnswer, WireAcksAnswer, OwnSeen, Obliged, NumberedAt, Genuine;
    var s := sys.nodes[a].store;
    BufferedIsNamed(cfg, sys, a, q.Id());
    assert StoreHolds(s, s.undelivered[q.Id()]) && Holds(sys.nodes[a], s.undelivered[q.Id()]);
    SameClock(sys, s.undelivered[q.Id()], q);
  }

  /** When it has delivered it, its clock counts just that. */
  lemma ClockAfterFirst(cfg: Config, sys: System, a: nat, o: nat)
    requires cfg.kind == Lcb && Inv(cfg, sys) && a in sys.nodes && Only(cfg, sys, {Key(o, 1)})
    requires Key(o, 1) in sys.nodes[a].store.delivered
    ensures forall d :: At(sys.nodes[a].store.clock, d) == if d == o then 1 else 0
  {
    hide Inv, Coherent, FifoLog, CausalLog;
    var s := sys.nodes[a].store;
    NodeStoreInv(cfg, sys, a);
    forall d: nat
      ensures At(s.clock, d) == if d == o then 1 else 0
    {
      if At(s.clock, d) > 0 {
        var k := Key(d, At(s.clock, d));
        DeliveredIsGenuine(cfg, sys, a, k);
        assert k in Broadcasts(sys);
      }
      if d == o {
        DeliveredIsGenuine(cfg, sys, a, Key(o, 1));
        DeliveredIsCounted(cfg, sys, a, Key(o, 1));
      }
    }
  }

  /** It can be made to deliver it, by receiving it once more. */
  lemma DeliverFirst(cfg: Config, sys: System, o: nat, a: nat, q: Payload, m: Message) returns (after: System)
    requires Proper(cfg) && cfg.kind == Lcb && cfg.n >= 1 && Reachable(cfg, sys) && Only(cfg, sys, {q.Id()})
    requires a in Ids(cfg.n) && o in Ids(cfg.n) && a != o && q.Id() == Key(o, 1)
    requires Genuine(sys, q) && forall d :: At(q.clock, d) == 0
    requires Enabled(cfg, sys, Receive(m)) && m.dest == a && m.payload.Id() == q.Id()
    requires m.payload.sender in Ids(cfg.n)
    requires forall j :: j in Ids(cfg.n) ==> Ack(j, q.Id()) in sys.nodes[a].store.acked
    ensures Reachable(cfg, after) && Advances(sys, after) && after.nodes[o].store == sys.nodes[o].store
    ensures q.Id() in after.nodes[a].store.delivered
  {
    hide Inv, Reachable, Reaches, Genuine, Broadcasts, Step, LcbReady, Ids;
    ReachableInv(cfg, sys);
    if q.Id() in sys.nodes[a].store.delivered {
      after := sys;
      NothingAdvances(sys, {}, {});
    } else {
      OnlyPacketIsReady(cfg, sys, a, q);
      ReceiptDelivers(cfg, sys, a, m);
      after := Step(cfg, sys, Receive(m));
      StepAdvances(cfg, sys, Receive(m));
      ReceiptAtNode(cfg, sys, m);
      ReachableStep(cfg, sys, Receive(m));
    }
  }

  /** A node depends on another: `a` broadcasts after it delivered the first packet of `o`, and `o` is the last
      to hear that others have its packet. */
  lemma StageDependency(cfg: Config, o: nat, a: nat) returns (sys: System, p: Payload, q: Payload)
    requires Proper(cfg) && cfg.kind == Lcb && cfg.n >= 2 && cfg.messages >= 1
    requires o in Ids(cfg.n) && a in Ids(cfg.n) && Overtaken(cfg, o, a)
    ensures Staged(cfg, sys, o, p, q)
  {
    hide Inv, Reachable, Genuine, Broadcasts, AllButOne, Ids, Step, Empty, Parked, Stalling, Advances;
    var start := Init(cfg);
    InitReachable(cfg);
    InitOnly(cfg);
    InitInv(cfg);
    EmptyHeard(cfg);
    var one, two, three, four, m;
    one, q := BroadcastStep(cfg, start, o);
    assert {} + {q.Id()} == {q.Id()};
    two, m := StageOnePacket(cfg, one, o, a, q);
    OnlyStays(cfg, one, two, {q.Id()});
    GenuineBefore(one, two, q);
    three := DeliverFirst(cfg, two, o, a, q, m);
    OnlyStays(cfg, two, three, {q.Id()});
    GenuineBefore(two, three, q);
    StillAdvances(one, two, three);
    four, p := FollowsFirst(cfg, one, three, o, a, q);
    StallingKinds(cfg, p, q);
    FirstIsParked(cfg, start, o, p, q);
    sys := OthersShare(cfg, four, o, a, p, q);
  }

  /** Then `a` broadcasts its own first packet. */
  lemma FollowsFirst(cfg: Config, one: System, sys: System, o: nat, a: nat, q: Payload)
    returns (after: System, p: Payload)
    requires Proper(cfg) && cfg.kind == Lcb && cfg.messages >= 1 && Reachable(cfg, sys) && Only(cfg, sys, {q.Id()})
    requires o in Ids(cfg.n) && a in Ids(cfg.n) && Overtaken(cfg, o, a)
    requires q.Id() == Key(o, 1) && q.kind == Lcb && q.clock == Empty(cfg.n).clock && Genuine(sys, q)
    requires q.Id() in sys.nodes[a].store.delivered
    requires a in one.nodes && one.nodes[a].sent == 0 && Advances(one, sys)
    ensures Reachable(cfg, after) && Stalling(cfg, p, q) && Only(cfg, after, {p.Id(), q.Id()})
    ensures Genuine(after, p) && Genuine(after, q) && after.nodes[o] == sys.nodes[o]
    ensures Seen(after, a, p.Id()) && Seen(after, a, q.Id())
  {
    hide Inv, Reachable, Genuine, Broadcasts, Ids, Step, Empty;
    ReachableInv(cfg, sys);
    assert a in LiveNodes(sys);
    after, p := BroadcastStep(cfg, sys, a);
    ClockAfterFirst(cfg, sys, a, o);
    StallsByDependency(cfg, o, a, p, q);
    DeliveredIsSeen(cfg, sys, a, q.Id());
    assert {q.Id()} + {p.Id()} == {p.Id(), q.Id()};
  }

  lemma DeliveredIsSeen(cfg: Config, sys: System, i: nat, k: Key)
    requires Inv(cfg, sys) && i in sys.nodes && k in sys.nodes[i].store.delivered
    ensures Seen(sys, i, k)
  {
    hide Obliged, AcksAnswer, WireAcksAnswer, OwnSeen, NumberedAt, LoggedOnce, Authentic;
    var s := sys.nodes[i].store;
    NodeStoreInv(cfg, sys, i);
    var l :| l in Senders(s.acked, k);
    SenderIsThere(s.acked, l, k);
  }

  // ---- The exact condition ----

  /** Once the live nodes, a majority, lack no ack from each other, they agree. */
  ghost predicate AgreesOnceAcked(cfg: Config)
  {
    forall sys :: Reachable(cfg, sys) && AckComplete(sys) && MajorityLive(cfg, sys) ==> Agreed(sys)
  }

  /** Once they also have nothing left to send each other, they agree. */
  ghost predicate AgreesOnceSilent(cfg: Config)
  {
    forall sys :: Reachable(cfg, sys) && AckComplete(sys) && Silent(sys) && MajorityLive(cfg, sys) ==> Agreed(sys)
  }

  /** Node `i` buffers packet `k`, which passes the guard, although nobody crashed, no ack is missing and nothing
      is left to send: only a datagram that the network repeats can still deliver it. */
  ghost predicate LeftBehind(cfg: Config, sys: System, i: nat, k: Key)
  {
    && Silent(sys) && AckComplete(sys) && LiveNodes(sys) == Ids(cfg.n) && k in Broadcasts(sys)
    && i in sys.nodes && k !in sys.nodes[i].store.delivered
    && k in sys.nodes[i].store.undelivered && LcbReady(cfg, sys.nodes[i].store, sys.nodes[i].store.undelivered[k])
  }

  lemma StagedStalls(cfg: Config, sys: System, i: nat, p: Payload, q: Payload) returns (after: System)
    requires Proper(cfg) && cfg.kind == Lcb && cfg.n >= 2 && Staged(cfg, sys, i, p, q)
    ensures Reachable(cfg, after) && LeftBehind(cfg, after, i, p.Id())
  {
    hide Inv, Reachable, Reaches, Stalling, AckComplete, Silent, LcbReady, Parked, Advances, Genuine;
    var mid := TradesStall(cfg, sys, i, p, q);
    ReachableInv(cfg, mid);
    after := ChannelsCanDrain(cfg, mid);
    ReachesStaysReachable(cfg, mid, after, LiveNodes(mid), {});
    AllButOneStays(cfg, mid, after, i, p, q);
    StalledKind(cfg, mid, i, p, q);
  }

  lemma StalledKind(cfg: Config, sys: System, i: nat, p: Payload, q: Payload)
    requires cfg.kind == Lcb && Inv(cfg, sys) && i in sys.nodes && Stalled(cfg, sys.nodes[i].store, p, q)
    ensures LcbReady(cfg, sys.nodes[i].store, sys.nodes[i].store.undelivered[p.Id()])
  {
    hide LcbReady, Inv;
    BufferedKind(cfg, sys, i, p.Id());
  }

  /** Otherwise some run without a crash ends with a deliverable packet left behind. */
  lemma StallingRun(cfg: Config) returns (sys: System, i: nat, k: Key)
    requires Proper(cfg) && cfg.kind == Lcb && !Unhindered(cfg)
    ensures Reachable(cfg, sys) && LeftBehind(cfg, sys, i, k)
  {
    hide Reachable, LeftBehind, Staged, FirstAfter;
    var start, p, q;
    if o, a :| o in Ids(cfg.n) && a in Ids(cfg.n) && Overtaken(cfg, o, a) {
      i := o;
      start, p, q := StageDependency(cfg, o, a);
    } else {
      var o := WorklistElsewhere(cfg);
      i := if o == 1 then 2 else 1;
      start, p, q := StageTwoPackets(cfg, o, i);
    }
    sys := StagedStalls(cfg, start, i, p, q);
    k := p.Id();
  }

  lemma WorklistElsewhere(cfg: Config) returns (o: nat)
    requires !Unhindered(cfg) && forall o, a :: o in Ids(cfg.n) && a in Ids(cfg.n) ==> !Overtaken(cfg, o, a)
    ensures cfg.messages >= 2 && o in Ids(cfg.n) && !OwnNextLast(cfg, o)
  {
    forall o, a | o in Ids(cfg.n) && a in Ids(cfg.n) && o in cfg.Dependencies(a) && a != o
      ensures FirstAfter(cfg, o) == Key(a, 1)
    {
      assert !Overtaken(cfg, o, a);
    }
    assert DependentFirst(cfg);
    o :| o in Ids(cfg.n) &&
      !(OwnNextLast(cfg, o) && forall a | a in Ids(cfg.n) :: o in cfg.Dependencies(a) ==> a == o);
  }

  lemma LeftBehindDisagrees(cfg: Config, sys: System, i: nat, k: Key)
    requires Proper(cfg) && cfg.kind == Lcb && Reachable(cfg, sys) && LeftBehind(cfg, sys, i, k)
    ensures AckComplete(sys) && Silent(sys) && MajorityLive(cfg, sys) && !Agreed(sys) && !AllSettled(cfg, sys)
  {
    hide Inv, Reachable, Silent, AckComplete, LcbReady;
    ReachableInv(cfg, sys);
    IdsSize(cfg.n);
    NodeIds(cfg, sys);
    BufferedKind(cfg, sys, i, k);
    assert k == Key(k.owner, k.packet) && k.owner in LiveNodes(sys) && i in LiveNodes(sys);
  }

  /** No reachable state has a deliverable packet left in a buffer. */
  ghost predicate AlwaysSettled(cfg: Config)
  {
    forall sys :: Reachable(cfg, sys) ==> AllSettled(cfg, sys)
  }

  /** An `Lcb` system always agrees once the live nodes lack no ack from each other, if and only if it does once
      they also have nothing left to send each other, if and only if it never leaves a deliverable packet in a
      buffer, if and only if its maps are as `Unhindered` says. */
  lemma LcbAgreesIff(cfg: Config)
    requires Proper(cfg) && cfg.kind == Lcb
    ensures AgreesOnceAcked(cfg) <==> Unhindered(cfg)
    ensures AgreesOnceSilent(cfg) <==> Unhindered(cfg)
    ensures AlwaysSettled(cfg) <==> Unhindered(cfg)
  {
    hide Inv, Reachable, Silent, AckComplete, MajorityLive, AllSettled, Agreed, CaughtUp, Unhindered;
    if Unhindered(cfg) {
      forall sys | Reachable(cfg, sys)
        ensures AllSettled(cfg, sys)
        ensures AckComplete(sys) && MajorityLive(cfg, sys) ==> Agreed(sys)
      {
        UnhinderedSettled(cfg, sys);
        if AckComplete(sys) && MajorityLive(cfg, sys) {
          SettledCatchesUp(cfg, sys);
          AllAgree(cfg, sys);
        }
      }
    } else {
      var sys, i, k := StallingRun(cfg);
      LeftBehindDisagrees(cfg, sys, i, k);
    }
  }
}
