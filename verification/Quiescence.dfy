/** From every reachable state the nodes that are still up can, without new broadcasts or crashes, reach a
    state in which they have nothing left to send each other. The ranking is the number of missing acks:
    no step raises it, and a round of send, receive, ack and receive lowers it. */
module Quiescence {
  import opened Basics
  import opened Messages
  import opened Store
  import opened Protocol
  import opened NodeFacts
  import opened Invariants
  import opened Agreement

  // ---- Finite continuations ----

  /** Only sends and retransmissions by `senders` and receipts by `receivers`. */
  predicate Quiet(actions: seq<Action>, senders: set<nat>, receivers: set<nat>)
  {
    forall a :: a in actions ==>
      match a
      case Send(i) => i in senders
      case Retransmit(i) => i in senders
      case Receive(m) => m.dest in receivers
      case _ => false
  }

  /** Some continuation by such actions leads from `sys` to `after`. */
  ghost predicate Reaches(cfg: Config, sys: System, after: System, senders: set<nat>, receivers: set<nat>)
  {
    exists actions ::
      Quiet(actions, senders, receivers) && Executable(cfg, sys, actions) && Exec(cfg, sys, actions) == after
  }

  lemma {:induction false} ExecConcat(cfg: Config, sys: System, a: seq<Action>, b: seq<Action>)
    requires Executable(cfg, sys, a) && Executable(cfg, Exec(cfg, sys, a), b)
    ensures Executable(cfg, sys, a + b) && Exec(cfg, sys, a + b) == Exec(cfg, Exec(cfg, sys, a), b)
    decreases |a|
  {
    hide Step, Enabled;
    if a == [] {
      assert a + b == b;
    } else {
      ExecConcat(cfg, Step(cfg, sys, a[0]), a[1..], b);
      assert (a + b)[1..] == a[1..] + b;
    }
  }

  lemma ReachesItself(cfg: Config, sys: System, senders: set<nat>, receivers: set<nat>)
    ensures Reaches(cfg, sys, sys, senders, receivers)
  {
    assert Quiet([], senders, receivers) && Executable(cfg, sys, []);
  }

  lemma ReachesTrans(cfg: Config, sys: System, mid: System, after: System, senders: set<nat>, receivers: set<nat>)
    requires Reaches(cfg, sys, mid, senders, receivers) && Reaches(cfg, mid, after, senders, receivers)
    ensures Reaches(cfg, sys, after, senders, receivers)
  {
    hide Executable, Exec;
    var a :| Quiet(a, senders, receivers) && Executable(cfg, sys, a) && Exec(cfg, sys, a) == mid;
    var b :| Quiet(b, senders, receivers) && Executable(cfg, mid, b) && Exec(cfg, mid, b) == after;
    ExecConcat(cfg, sys, a, b);
    assert Quiet(a + b, senders, receivers);
  }

  lemma ReachesWidens(cfg: Config, sys: System, after: System, senders: set<nat>, receivers: set<nat>,
                      moreSenders: set<nat>, moreReceivers: set<nat>)
    requires Reaches(cfg, sys, after, senders, receivers) && senders <= moreSenders && receivers <= moreReceivers
    ensures Reaches(cfg, sys, after, moreSenders, moreReceivers)
  {
    hide Executable, Exec;
    var a :| Quiet(a, senders, receivers) && Executable(cfg, sys, a) && Exec(cfg, sys, a) == after;
    assert Quiet(a, moreSenders, moreReceivers);
  }

  lemma ReachesByStep(cfg: Config, sys: System, a: Action, senders: set<nat>, receivers: set<nat>)
    requires Enabled(cfg, sys, a) && Quiet([a], senders, receivers)
    ensures Reaches(cfg, sys, Step(cfg, sys, a), senders, receivers)
  {
    hide Step, Enabled;
    ExecOne(cfg, sys, a);
  }

  /** A run of one action. */
  lemma ExecOne(cfg: Config, sys: System, a: Action)
    requires Enabled(cfg, sys, a)
    ensures Executable(cfg, sys, [a]) && Exec(cfg, sys, [a]) == Step(cfg, sys, a)
  {
    hide Step, Enabled;
    var next := Step(cfg, sys, a);
    assert [a][0] == a && [a][1..] == [];
    assert Executable(cfg, next, []) && Exec(cfg, next, []) == next;
    assert Executable(cfg, sys, [a]);
    assert Exec(cfg, sys, [a]) == next;
  }

  /** What an action other than a broadcast leaves as it is, and what it can only add to. */
  ghost predicate Weakens(sys: System, after: System)
  {
    && after.nodes.Keys == sys.nodes.Keys
    && sys.network <= after.network
    && (forall i :: i in sys.nodes ==>
          && (sys.nodes[i].crashed ==> after.nodes[i].crashed)
          && after.nodes[i].sent == sys.nodes[i].sent
          && sys.nodes[i].store.acked <= after.nodes[i].store.acked
          && Dispatched(after.nodes[i].store.log) == Dispatched(sys.nodes[i].store.log))
  }

  /** And nodes do not crash. */
  ghost predicate Advances(sys: System, after: System)
  {
    Weakens(sys, after) && forall i :: i in sys.nodes ==> after.nodes[i].crashed == sys.nodes[i].crashed
  }

  /** A node that receives nothing keeps its store, and one that does nothing keeps everything. */
  ghost predicate Spares(sys: System, after: System, senders: set<nat>, receivers: set<nat>)
  {
    && (forall i :: i in sys.nodes && i in after.nodes && i !in receivers ==>
          after.nodes[i].store == sys.nodes[i].store)
    && (forall i :: i in sys.nodes && i in after.nodes && i !in receivers && i !in senders ==>
          after.nodes[i] == sys.nodes[i])
  }

  lemma StepAdvances(cfg: Config, sys: System, a: Action)
    requires Relaying(cfg.kind) && Inv(cfg, sys) && Enabled(cfg, sys, a) && !a.Broadcast?
    ensures Weakens(sys, Step(cfg, sys, a)) && (!a.Crash? ==> Advances(sys, Step(cfg, sys, a)))
  {
    hide Inv, NodeReceive, NodeBroadcast, Dispatched, StoreHolds;
    match a {
      case Receive(m) =>
        WireKind(cfg, sys, m);
        ReceiveEffect(cfg, m.dest, sys.nodes[m.dest], m.payload);
      case _ =>
    }
  }

  lemma {:induction false} ExecAdvances(cfg: Config, sys: System, actions: seq<Action>,
                                        senders: set<nat>, receivers: set<nat>)
    requires Proper(cfg) && Relaying(cfg.kind) && Inv(cfg, sys)
    requires Executable(cfg, sys, actions) && Quiet(actions, senders, receivers)
    ensures Inv(cfg, Exec(cfg, sys, actions)) && Advances(sys, Exec(cfg, sys, actions))
    ensures Spares(sys, Exec(cfg, sys, actions), senders, receivers)
    decreases |actions|
  {
    hide Inv, Enabled, Step, Advances, Spares;
    if actions == [] {
      NothingAdvances(sys, senders, receivers);
    } else {
      var next := Step(cfg, sys, actions[0]);
      assert actions[0] in actions && forall a :: a in actions[1..] ==> a in actions;
      StepInv(cfg, sys, actions[0]);
      StepAdvances(cfg, sys, actions[0]);
      StepSpares(cfg, sys, actions[0], senders, receivers);
      ExecAdvances(cfg, next, actions[1..], senders, receivers);
      AdvancesTrans(sys, next, Exec(cfg, sys, actions), senders, receivers);
    }
  }

  lemma NothingAdvances(sys: System, senders: set<nat>, receivers: set<nat>)
    ensures Advances(sys, sys) && Spares(sys, sys, senders, receivers)
  {
  }

  lemma AdvancesTrans(sys: System, mid: System, after: System, senders: set<nat>, receivers: set<nat>)
    requires Advances(sys, mid) && Advances(mid, after)
    requires Spares(sys, mid, senders, receivers) && Spares(mid, after, senders, receivers)
    ensures Advances(sys, after) && Spares(sys, after, senders, receivers)
  {
  }

  lemma StepSpares(cfg: Config, sys: System, a: Action, senders: set<nat>, receivers: set<nat>)
    requires Enabled(cfg, sys, a) && Quiet([a], senders, receivers)
    ensures Spares(sys, Step(cfg, sys, a), senders, receivers)
  {
    assert a in [a];
  }

  lemma ReachesAdvances(cfg: Config, sys: System, after: System, senders: set<nat>, receivers: set<nat>)
    requires Proper(cfg) && Relaying(cfg.kind) && Inv(cfg, sys) && Reaches(cfg, sys, after, senders, receivers)
    ensures Inv(cfg, after) && Advances(sys, after) && Spares(sys, after, senders, receivers)
  {
    hide Inv, Advances, Spares;
    var actions :|
      Quiet(actions, senders, receivers) && Executable(cfg, sys, actions) && Exec(cfg, sys, actions) == after;
    ExecAdvances(cfg, sys, actions, senders, receivers);
  }

  lemma ReachesStaysReachable(cfg: Config, sys: System, after: System, senders: set<nat>, receivers: set<nat>)
    requires Reachable(cfg, sys) && Reaches(cfg, sys, after, senders, receivers)
    ensures Reachable(cfg, after)
  {
    hide Executable, Exec;
    var before :| Executable(cfg, Init(cfg), before) && sys == Exec(cfg, Init(cfg), before);
    var actions :|
      Quiet(actions, senders, receivers) && Executable(cfg, sys, actions) && Exec(cfg, sys, actions) == after;
    ExecConcat(cfg, Init(cfg), before, actions);
  }

  lemma SameLive(sys: System, after: System)
    requires Advances(sys, after)
    ensures LiveNodes(after) == LiveNodes(sys)
    ensures forall i :: Live(after, i) == Live(sys, i)
  {
  }

  // ---- The ranking ----

  datatype Gap = Gap(holder: nat, acker: nat, key: Key)

  function Broadcasts(sys: System): set<Key>
  {
    set o, p | o in sys.nodes && 1 <= p <= sys.nodes[o].sent :: Key(o, p)
  }

  /** Acks that one live node lacks from another, for packets that were broadcast. */
  ghost function Missing(sys: System): set<Gap>
  {
    set i, j, k | i in LiveNodes(sys) && j in LiveNodes(sys) && k in Broadcasts(sys)
      && Ack(j, k) !in sys.nodes[i].store.acked :: Gap(i, j, k)
  }

  /** No step but a broadcast adds a missing ack. */
  lemma MissingNeverRises(cfg: Config, sys: System, a: Action)
    requires Relaying(cfg.kind) && Inv(cfg, sys) && Enabled(cfg, sys, a) && !a.Broadcast?
    ensures Missing(Step(cfg, sys, a)) <= Missing(sys)
    ensures |Missing(Step(cfg, sys, a))| <= |Missing(sys)|
  {
    hide Inv, NodeStep;
    StepAdvances(cfg, sys, a);
    MissingShrinks(sys, Step(cfg, sys, a));
    SubsetSize(Missing(Step(cfg, sys, a)), Missing(sys));
  }

  lemma MissingShrinks(sys: System, after: System)
    requires Weakens(sys, after)
    ensures Missing(after) <= Missing(sys)
  {
    forall g | g in Missing(after)
      ensures g in Missing(sys)
    {
      assert g == Gap(g.holder, g.acker, g.key);
    }
  }

  // ---- One round lowers it ----

  lemma {:induction false} ToSending(cfg: Config, sys: System, i: nat, x: nat) returns (after: System)
    requires Live(sys, i) && x < |sys.nodes[i].retrans|
    requires var m := sys.nodes[i].retrans[x]; Ack(m.dest, m.payload.Id()) !in sys.nodes[i].store.acked
    ensures Reaches(cfg, sys, after, {i}, {}) && Live(after, i)
    ensures sys.nodes[i].retrans[x] in after.nodes[i].sending
    decreases x
  {
    hide Reaches;
    var next := Step(cfg, sys, Retransmit(i));
    ReachesByStep(cfg, sys, Retransmit(i), {i}, {});
    if x == 0 {
      after := next;
    } else {
      after := ToSending(cfg, next, i, x - 1);
      ReachesTrans(cfg, sys, next, after, {i}, {});
    }
  }

  lemma {:induction false} ToWire(cfg: Config, sys: System, i: nat, x: nat) returns (after: System)
    requires Live(sys, i) && x < |sys.nodes[i].sending|
    ensures Reaches(cfg, sys, after, {i}, {})
    ensures Stamped(i, sys.nodes[i].sending[x]) in after.network
    decreases x
  {
    hide Reaches;
    var next := Step(cfg, sys, Send(i));
    ReachesByStep(cfg, sys, Send(i), {i}, {});
    if x == 0 {
      after := next;
    } else {
      after := ToWire(cfg, next, i, x - 1);
      ReachesTrans(cfg, sys, next, after, {i}, {});
    }
  }

  lemma QueuedToWire(cfg: Config, sys: System, i: nat, m: Message) returns (after: System)
    requires Live(sys, i) && m in sys.nodes[i].sending
    ensures Reaches(cfg, sys, after, {i}, {}) && Stamped(i, m) in after.network
  {
    hide Reaches;
    var x :| 0 <= x < |sys.nodes[i].sending| && sys.nodes[i].sending[x] == m;
    after := ToWire(cfg, sys, i, x);
  }

  /** A pending copy can be put on the wire. */
  lemma PendingToWire(cfg: Config, sys: System, i: nat, j: nat, k: Key) returns (after: System, m: Message)
    requires Live(sys, i) && Pending(sys.nodes[i], j, k) && Ack(j, k) !in sys.nodes[i].store.acked
    ensures Reaches(cfg, sys, after, {i}, {})
    ensures m in after.network && Carries(m, j, k) && m.payload.sender == i
  {
    hide Reaches;
    var c :| (c in sys.nodes[i].sending || c in sys.nodes[i].retrans) && Carries(c, j, k);
    m := Stamped(i, c);
    if c in sys.nodes[i].sending {
      after := QueuedToWire(cfg, sys, i, c);
    } else {
      var x :| 0 <= x < |sys.nodes[i].retrans| && sys.nodes[i].retrans[x] == c;
      var mid := ToSending(cfg, sys, i, x);
      after := QueuedToWire(cfg, mid, i, c);
      ReachesTrans(cfg, sys, mid, after, {i}, {});
    }
  }

  /** A receipt records the sender's ack and the receiver's own. */
  lemma ReceiptRecords(cfg: Config, sys: System, m: Message)
    requires Relaying(cfg.kind) && Inv(cfg, sys) && Enabled(cfg, sys, Receive(m))
    ensures var after := Step(cfg, sys, Receive(m));
      && Live(after, m.dest)
      && Ack(m.payload.sender, m.payload.Id()) in after.nodes[m.dest].store.acked
      && Ack(m.dest, m.payload.Id()) in after.nodes[m.dest].store.acked
  {
    hide Inv, NodeReceive, Dispatched, StoreHolds, OnlyDelivers, Copies;
    WireKind(cfg, sys, m);
    ReceiveEffect(cfg, m.dest, sys.nodes[m.dest], m.payload);
  }

  /** And it is answered with an ack. */
  lemma ReceiptAnswers(cfg: Config, sys: System, m: Message)
    requires Relaying(cfg.kind) && Inv(cfg, sys) && Enabled(cfg, sys, Receive(m)) && !m.payload.isAck
    ensures var after := Step(cfg, sys, Receive(m));
      && m.dest in after.nodes
      && Message(m.payload.(isAck := true), m.payload.sender) in after.nodes[m.dest].sending
  {
    hide Inv, NodeReceive, Dispatched, StoreHolds, OnlyDelivers, Copies;
    WireKind(cfg, sys, m);
    ReceiveEffect(cfg, m.dest, sys.nodes[m.dest], m.payload);
  }

  /** A loss-free round: `i` sends until a copy `m` of packet `k` for `j` is on the wire, `j` receives it and
      sends until its ack `reply` is on the wire, and `i` receives that. */
  ghost predicate Round(cfg: Config, sys: System, after: System, i: nat, j: nat, k: Key)
  {
    exists sent, answered, m, reply ::
      && Reaches(cfg, sys, sent, {i}, {})
      && Carries(m, j, k) && m.payload.sender == i && Enabled(cfg, sent, Receive(m))
      && Reaches(cfg, Step(cfg, sent, Receive(m)), answered, {j}, {})
      && reply == Message(m.payload.(sender := j, isAck := true), i) && Enabled(cfg, answered, Receive(reply))
      && after == Step(cfg, answered, Receive(reply))
  }

  /** A node that receives a packet can put its ack on the wire. */
  lemma AnswerOnWire(cfg: Config, sys: System, m: Message) returns (after: System, reply: Message)
    requires Proper(cfg) && Relaying(cfg.kind) && Inv(cfg, sys)
    requires Enabled(cfg, sys, Receive(m)) && !m.payload.isAck
    ensures Reaches(cfg, Step(cfg, sys, Receive(m)), after, {m.dest}, {}) && reply in after.network
    ensures reply == Message(m.payload.(sender := m.dest, isAck := true), m.payload.sender)
  {
    hide Reaches, Inv, NodeStep;
    ReceiptRecords(cfg, sys, m);
    ReceiptAnswers(cfg, sys, m);
    var ack := Message(m.payload.(isAck := true), m.payload.sender);
    after := QueuedToWire(cfg, Step(cfg, sys, Receive(m)), m.dest, ack);
    reply := Stamped(m.dest, ack);
  }

  /** An ack that a live node lacks from another for a packet that it has seen arrives by one round. */
  lemma RoundBringsAck(cfg: Config, sys: System, i: nat, j: nat, k: Key) returns (after: System)
    requires Proper(cfg) && Relaying(cfg.kind) && Inv(cfg, sys)
    requires Live(sys, i) && Live(sys, j) && Seen(sys, i, k) && Ack(j, k) !in sys.nodes[i].store.acked
    ensures Round(cfg, sys, after, i, j, k)
  {
    hide Reaches, Stores, Authentic, Truthful, AcksAnswer, WireAcksAnswer, OwnSeen, Step;
    assert Pending(sys.nodes[i], j, k);
    var sent, m := PendingToWire(cfg, sys, i, j, k);
    ReachesAdvances(cfg, sys, sent, {i}, {});
    var answered, reply := AnswerOnWire(cfg, sent, m);
    StepInv(cfg, sent, Receive(m));
    StepAdvances(cfg, sent, Receive(m));
    ReachesAdvances(cfg, Step(cfg, sent, Receive(m)), answered, {j}, {});
    after := Step(cfg, answered, Receive(reply));
  }

  /** Sends by one node and then a receipt. */
  lemma ReachesReceipt(cfg: Config, sys: System, mid: System, m: Message, i: nat, group: set<nat>)
    requires Reaches(cfg, sys, mid, {i}, {}) && Enabled(cfg, mid, Receive(m)) && i in group && m.dest in group
    ensures Reaches(cfg, sys, Step(cfg, mid, Receive(m)), group, group)
  {
    hide Reaches, Step;
    ReachesWidens(cfg, sys, mid, {i}, {}, group, group);
    ReachesByStep(cfg, mid, Receive(m), group, group);
    ReachesTrans(cfg, sys, mid, Step(cfg, mid, Receive(m)), group, group);
  }

  /** After a round both sides have each other's ack. */
  lemma RoundEffect(cfg: Config, sys: System, after: System, i: nat, j: nat, k: Key)
    requires Proper(cfg) && Relaying(cfg.kind) && Inv(cfg, sys) && Round(cfg, sys, after, i, j, k)
    ensures Reaches(cfg, sys, after, {i, j}, {i, j}) && Inv(cfg, after) && Advances(sys, after)
    ensures i in after.nodes && Ack(j, k) in after.nodes[i].store.acked
    ensures j in after.nodes && Ack(i, k) in after.nodes[j].store.acked
  {
    hide Reaches, Inv, Step;
    var sent, answered, m, reply :|
      && Reaches(cfg, sys, sent, {i}, {})
      && Carries(m, j, k) && m.payload.sender == i && Enabled(cfg, sent, Receive(m))
      && Reaches(cfg, Step(cfg, sent, Receive(m)), answered, {j}, {})
      && reply == Message(m.payload.(sender := j, isAck := true), i) && Enabled(cfg, answered, Receive(reply))
      && after == Step(cfg, answered, Receive(reply));
    var received := Step(cfg, sent, Receive(m));
    ReachesAdvances(cfg, sys, sent, {i}, {});
    ReceiptRecords(cfg, sent, m);
    ReachesReceipt(cfg, sys, sent, m, i, {i, j});
    StepInv(cfg, sent, Receive(m));
    ReachesAdvances(cfg, received, answered, {j}, {});
    ReceiptRecords(cfg, answered, reply);
    ReachesReceipt(cfg, received, answered, reply, j, {i, j});
    ReachesTrans(cfg, sys, received, after, {i, j}, {i, j});
    ReachesAdvances(cfg, sys, after, {i, j}, {i, j});
    StepAdvances(cfg, answered, Receive(reply));
  }

  lemma GapClosed(sys: System, after: System, i: nat, j: nat, k: Key)
    requires Advances(sys, after) && Live(sys, i) && Live(sys, j) && k in Broadcasts(sys)
    requires Ack(j, k) !in sys.nodes[i].store.acked && Ack(j, k) in after.nodes[i].store.acked
    ensures |Missing(after)| < |Missing(sys)|
  {
    MissingShrinks(sys, after);
    SubsetSize(Missing(after), Missing(sys));
    assert Gap(i, j, k) in Missing(sys);
    if Gap(i, j, k) in Missing(after) {
      assert false;
    }
  }

  /** While some live node lacks a live node's ack for a packet that it has seen, a loss-free round of send,
      receive, ack and receive lowers the number of missing acks. */
  lemma RoundLowersMissing(cfg: Config, sys: System, i: nat, j: nat, k: Key) returns (after: System)
    requires Proper(cfg) && Relaying(cfg.kind) && Inv(cfg, sys)
    requires Live(sys, i) && Live(sys, j) && Seen(sys, i, k) && Ack(j, k) !in sys.nodes[i].store.acked
    ensures Round(cfg, sys, after, i, j, k) && |Missing(after)| < |Missing(sys)|
  {
    hide Inv, Round, Reaches, Missing, Broadcasts;
    after := RoundBringsAck(cfg, sys, i, j, k);
    RoundEffect(cfg, sys, after, i, j, k);
    SeenIsBroadcast(cfg, sys, i, k);
    GapClosed(sys, after, i, j, k);
  }

  lemma SeenIsBroadcast(cfg: Config, sys: System, i: nat, k: Key)
    requires Inv(cfg, sys) && Seen(sys, i, k)
    ensures k in Broadcasts(sys)
  {
    hide Inv;
    SeenIsGenuine(cfg, sys, i, k);
    assert k == Key(k.owner, k.packet);
  }

  // ---- All acks can arrive ----

  /** Any live nodes can complete the acks that they lack from each other, by themselves. */
  lemma {:induction false} AcksCanComplete(cfg: Config, sys: System, group: set<nat>) returns (after: System)
    requires Proper(cfg) && Relaying(cfg.kind) && Inv(cfg, sys) && group <= LiveNodes(sys)
    ensures Reaches(cfg, sys, after, group, group) && AcksShared(after, group)
    decreases |Missing(sys)|
  {
    hide Inv, Reaches, Round, Missing, Broadcasts;
    if i, j, k :| i in group && j in group && Seen(sys, i, k) && Ack(j, k) !in sys.nodes[i].store.acked {
      var mid := RoundLowersMissing(cfg, sys, i, j, k);
      RoundEffect(cfg, sys, mid, i, j, k);
      SameLive(sys, mid);
      after := AcksCanComplete(cfg, mid, group);
      ReachesWidens(cfg, sys, mid, {i, j}, {i, j}, group, group);
      ReachesTrans(cfg, sys, mid, after, group, group);
    } else {
      after := sys;
      ReachesItself(cfg, sys, group, group);
    }
  }

  // ---- Then the channels can be drained ----

  /** Nobody waits for `m`: its destination has crashed. */
  predicate Idle(sys: System, m: Message)
  {
    !Live(sys, m.dest)
  }

  /** Only the channels of node `i` differ. */
  ghost predicate OnlyChannels(sys: System, after: System, i: nat)
  {
    && i in sys.nodes && i in after.nodes
    && after.nodes == sys.nodes[i := after.nodes[i]]
    && after.nodes[i].store == sys.nodes[i].store
    && after.nodes[i].crashed == sys.nodes[i].crashed
  }

  lemma {:induction false} SendAll(cfg: Config, sys: System, i: nat) returns (after: System)
    requires Live(sys, i)
    ensures Reaches(cfg, sys, after, {i}, {}) && OnlyChannels(sys, after, i) && after.nodes[i].sending == []
    decreases |sys.nodes[i].sending|
  {
    hide Reaches;
    if sys.nodes[i].sending == [] {
      after := sys;
      ReachesItself(cfg, sys, {i}, {});
    } else {
      var next := Step(cfg, sys, Send(i));
      ReachesByStep(cfg, sys, Send(i), {i}, {});
      after := SendAll(cfg, next, i);
      ReachesTrans(cfg, sys, next, after, {i}, {});
    }
  }

  lemma {:induction false} RetransmitAll(cfg: Config, sys: System, i: nat) returns (after: System)
    requires Live(sys, i)
    requires forall m :: m in sys.nodes[i].sending ==> Idle(sys, m)
    requires forall m :: m in sys.nodes[i].retrans && Live(sys, m.dest) ==>
      Ack(m.dest, m.payload.Id()) in sys.nodes[i].store.acked
    ensures Reaches(cfg, sys, after, {i}, {}) && OnlyChannels(sys, after, i) && after.nodes[i].retrans == []
    ensures forall m :: m in after.nodes[i].sending ==> Idle(sys, m)
    decreases |sys.nodes[i].retrans|
  {
    hide Reaches;
    if sys.nodes[i].retrans == [] {
      after := sys;
      ReachesItself(cfg, sys, {i}, {});
    } else {
      var next := Step(cfg, sys, Retransmit(i));
      assert forall l :: Live(next, l) == Live(sys, l);
      ReachesByStep(cfg, sys, Retransmit(i), {i}, {});
      after := RetransmitAll(cfg, next, i);
      ReachesTrans(cfg, sys, next, after, {i}, {});
    }
  }

  /** Node `i` has nothing to send to a live node. */
  ghost predicate Drained(sys: System, i: nat)
  {
    Live(sys, i) ==> forall m :: m in sys.nodes[i].sending || m in sys.nodes[i].retrans ==> Idle(sys, m)
  }

  lemma QueuedIsSeen(cfg: Config, sys: System, i: nat, m: Message)
    requires Inv(cfg, sys) && i in sys.nodes && m in sys.nodes[i].retrans
    ensures Seen(sys, i, m.payload.Id())
  {
  }

  lemma DrainNode(cfg: Config, sys: System, i: nat) returns (after: System)
    requires Proper(cfg) && Relaying(cfg.kind) && Inv(cfg, sys) && AckComplete(sys) && Live(sys, i)
    ensures Reaches(cfg, sys, after, {i}, {}) && OnlyChannels(sys, after, i) && Drained(after, i)
  {
    hide Reaches, Inv;
    var mid := SendAll(cfg, sys, i);
    ReachesAdvances(cfg, sys, mid, {i}, {});
    assert forall l :: Live(mid, l) == Live(sys, l);
    forall m | m in mid.nodes[i].retrans && Live(mid, m.dest)
      ensures Ack(m.dest, m.payload.Id()) in mid.nodes[i].store.acked
    {
      QueuedIsSeen(cfg, mid, i, m);
      assert Seen(sys, i, m.payload.Id());
      assert i in LiveNodes(sys) && m.dest in LiveNodes(sys);
    }
    after := RetransmitAll(cfg, mid, i);
    ReachesTrans(cfg, sys, mid, after, {i}, {});
    assert forall l :: Live(after, l) == Live(sys, l);
  }

  lemma ChannelsKeepAcks(sys: System, after: System, i: nat)
    requires OnlyChannels(sys, after, i)
    ensures AckComplete(sys) ==> AckComplete(after)
    ensures forall l :: Live(after, l) == Live(sys, l)
    ensures forall l :: l != i && Drained(sys, l) ==> Drained(after, l)
  {
    assert forall l, k :: Seen(after, l, k) == Seen(sys, l, k);
  }

  lemma {:induction false} DrainUpTo(cfg: Config, sys: System, x: nat) returns (after: System)
    requires Proper(cfg) && Relaying(cfg.kind) && Inv(cfg, sys) && AckComplete(sys) && x <= cfg.n
    ensures Reaches(cfg, sys, after, LiveNodes(sys), {}) && Inv(cfg, after) && AckComplete(after)
    ensures forall l :: Live(after, l) == Live(sys, l)
    ensures forall i :: 1 <= i <= x ==> Drained(after, i)
    decreases x
  {
    hide Inv, Reaches, AckComplete;
    if x == 0 {
      after := sys;
      ReachesItself(cfg, sys, LiveNodes(sys), {});
    } else {
      var mid := DrainUpTo(cfg, sys, x - 1);
      if Live(mid, x) {
        hide Drained;
        after := DrainNode(cfg, mid, x);
        ChannelsKeepAcks(mid, after, x);
        ReachesAdvances(cfg, mid, after, {x}, {});
        ReachesWidens(cfg, mid, after, {x}, {}, LiveNodes(sys), {});
        ReachesTrans(cfg, sys, mid, after, LiveNodes(sys), {});
      } else {
        after := mid;
      }
    }
  }

  lemma NodeIds(cfg: Config, sys: System)
    requires Inv(cfg, sys)
    ensures sys.nodes.Keys == Ids(cfg.n)
  {
  }

  /** The channels of the live nodes hold nothing, not even an ack, for a live node. */
  ghost predicate Silent(sys: System)
  {
    forall i :: i in sys.nodes ==> Drained(sys, i)
  }

  lemma SilentIsQuiescent(sys: System)
    requires Silent(sys)
    ensures Quiescent(sys)
  {
  }

  /** Once no ack is missing, sends and retransmissions alone empty the channels: no store changes. */
  lemma ChannelsCanDrain(cfg: Config, sys: System) returns (after: System)
    requires Proper(cfg) && Relaying(cfg.kind) && Inv(cfg, sys) && AckComplete(sys)
    ensures Reaches(cfg, sys, after, LiveNodes(sys), {}) && AckComplete(after) && Silent(after)
    ensures Inv(cfg, after) && Advances(sys, after)
    ensures forall i :: i in sys.nodes ==> after.nodes[i].store == sys.nodes[i].store
  {
    hide Inv, Drained, AckComplete, Reaches;
    after := DrainUpTo(cfg, sys, cfg.n);
    NodeIds(cfg, after);
    ReachesAdvances(cfg, sys, after, LiveNodes(sys), {});
  }

  /** From every reachable state some finite continuation of sends, receives and retransmissions by the live
      nodes, without a broadcast or a crash, leads to a state in which they have nothing left to send each
      other. */
  lemma QuiescenceReachable(cfg: Config, sys: System) returns (actions: seq<Action>)
    requires Proper(cfg) && Relaying(cfg.kind) && Reachable(cfg, sys)
    ensures Quiet(actions, LiveNodes(sys), LiveNodes(sys)) && Executable(cfg, sys, actions)
    ensures Silent(Exec(cfg, sys, actions)) && Quiescent(Exec(cfg, sys, actions))
    ensures Reachable(cfg, Exec(cfg, sys, actions)) && Advances(sys, Exec(cfg, sys, actions))
  {
    hide Inv, Silent, Quiescent, AcksShared, Executable, Exec, Reachable, Advances, Quiet;
    var live := LiveNodes(sys);
    ReachableInv(cfg, sys);
    var mid := AcksCanComplete(cfg, sys, live);
    ReachesAdvances(cfg, sys, mid, live, live);
    SameLive(sys, mid);
    var after := ChannelsCanDrain(cfg, mid);
    SilentIsQuiescent(after);
    ReachesWidens(cfg, mid, after, live, {}, live, live);
    ReachesTrans(cfg, sys, mid, after, live, live);
    ReachesStaysReachable(cfg, sys, after, live, live);
    ReachesAdvances(cfg, sys, after, live, live);
    actions :| Quiet(actions, live, live) && Executable(cfg, sys, actions) && Exec(cfg, sys, actions) == after;
  }
}
