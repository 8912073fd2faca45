/** The turns of a node's threads, told by what they take from its channels, put in them, log and record; and that
    a node never has more than one copy of a packet to send to another node. */
module Turns {
  import opened Basics
  import opened Messages
  import opened Store
  import opened StoreFacts
  import opened Protocol
  import opened NodeFacts
  import opened Invariants
  import Decimal

  // ---- One copy for each other host ----

  /** How many of the first `x` hosts are not `self`. */
  ghost function OthersBefore(hosts: seq<nat>, self: nat, x: nat): nat
    requires x <= |hosts|
  {
    |set y | 0 <= y < |hosts| && hosts[y] != self && y < x|
  }

  /** One copy of `p` for each entry of the host table but `self`, in the order of the table. */
  ghost predicate CopyEach(hosts: seq<nat>, self: nat, p: Payload, copies: seq<Message>)
  {
    && |copies| == OthersBefore(hosts, self, |hosts|)
    && forall x :: 0 <= x < |hosts| && hosts[x] != self ==>
         var r := OthersBefore(hosts, self, x);
         r < |copies| && copies[r] == Message(p, hosts[x])
  }

  lemma OneMoreHost(hosts: seq<nat>, self: nat, x: nat)
    requires x < |hosts|
    ensures OthersBefore(hosts, self, x + 1) == OthersBefore(hosts, self, x) + if hosts[x] == self then 0 else 1
  {
    var before := set y | 0 <= y < |hosts| && hosts[y] != self && y < x;
    var after := set y | 0 <= y < |hosts| && hosts[y] != self && y < x + 1;
    assert after == if hosts[x] == self then before else before + {x};
  }

  lemma NoHosts(hosts: seq<nat>, self: nat)
    ensures OthersBefore(hosts, self, 0) == 0
  {
    assert (set y | 0 <= y < |hosts| && hosts[y] != self && y < 0) == {};
  }

  lemma SameHosts(hosts: seq<nat>, self: nat, k: nat, x: nat)
    requires x <= k <= |hosts|
    ensures OthersBefore(hosts[..k], self, x) == OthersBefore(hosts, self, x)
  {
    assert (set y | 0 <= y < k && hosts[..k][y] != self && y < x) ==
           set y | 0 <= y < |hosts| && hosts[y] != self && y < x;
  }

  lemma {:induction false} CopiesAreEach(hosts: seq<nat>, self: nat, p: Payload)
    ensures CopyEach(hosts, self, p, Copies(hosts, self, p))
  {
    if hosts == [] {
      NoHosts(hosts, self);
    } else {
      var m := |hosts| - 1;
      var copies := Copies(hosts, self, p);
      CopiesAreEach(hosts[..m], self, p);
      OneMoreHost(hosts, self, m);
      SameHosts(hosts, self, m, m);
      hide OthersBefore;
      forall x | 0 <= x < |hosts| && hosts[x] != self
        ensures var r := OthersBefore(hosts, self, x);
          r < |copies| && copies[r] == Message(p, hosts[x])
      {
        if x < m {
          SameHosts(hosts, self, m, x);
          assert hosts[..m][x] == hosts[x];
        }
      }
    }
  }

  // ---- The enqueue loop ----

  /** The packet that node `i` broadcasts next. */
  function NextOwn(cfg: Config, i: nat, node: Node): Payload
  {
    Payload(i, i, node.sent + 1, cfg.kind, false, node.store.clock, Decimal.ToString(node.sent + 1))
  }

  /** One turn numbers a packet, stamps the clock, logs the dispatch and marks the packet seen; unless it was seen,
      which only `Beb` does not ask, one copy for each other host joins the sending channel at its end. */
  lemma BroadcastTurn(cfg: Config, i: nat, node: Node) returns (copies: seq<Message>)
    requires cfg.kind != Tcp
    ensures var p, t := NextOwn(cfg, i, node), NodeBroadcast(cfg, i, node);
      && t.sent == node.sent + 1 && t.retrans == node.retrans && t.crashed == node.crashed
      && t.sending == node.sending + copies
      && (if cfg.kind != Beb && Ack(i, p.Id()) in node.store.acked then
            copies == []
          else
            CopyEach(cfg.Peers(i), i, p, copies))
      && OnlyDelivers(node.store.log + [Dispatch(p)], t.store.log)
      && Dispatched(t.store.log) == Dispatched(node.store.log) + [p]
      && t.store.acked == node.store.acked + {Ack(i, p.Id())}
      && t.store == (var s := node.store.(log := node.store.log + [Dispatch(p)]);
                     if cfg.kind != Beb && Ack(i, p.Id()) in s.acked then s else Insert(cfg, s, i, p))
  {
    hide Insert, CopyEach;
    var p := NextOwn(cfg, i, node);
    var s := node.store.(log := node.store.log + [Dispatch(p)]);
    DispatchedAppend(node.store.log, Dispatch(p));
    InsertHolds(cfg, s, i, p);
    CopiesAreEach(cfg.Peers(i), i, p);
    if cfg.kind != Beb && Ack(i, p.Id()) in node.store.acked {
      copies := [];
      assert node.store.acked + {Ack(i, p.Id())} == node.store.acked;
    } else {
      copies := Copies(cfg.Peers(i), i, p);
    }
  }

  /** Packet `q` of node `i`, with its number, written out, as contents. */
  predicate Numbered(cfg: Config, i: nat, p: Payload, q: nat)
  {
    && p.owner == i && p.sender == i && p.packet == q && p.buffer == Decimal.ToString(q)
    && p.kind == cfg.kind && !p.isAck
  }

  function Joined(blocks: seq<seq<Message>>): seq<Message>
  {
    if blocks == [] then [] else Joined(blocks[..|blocks| - 1]) + blocks[|blocks| - 1]
  }

  /** Turn `y` of the loop, after which the log says that `after` was dispatched, numbered its packet and queued `copies`:
      one for each other host, unless the packet was seen before the loop, which only `Beb` does not ask. */
  ghost predicate TurnOf(cfg: Config, i: nat, node: Node, after: seq<Payload>, y: nat, copies: seq<Message>)
  {
    var before := Dispatched(node.store.log);
    && |before| + y < |after|
    && Numbered(cfg, i, after[|before| + y], node.sent + y + 1)
    && (if cfg.kind != Beb && Ack(i, Key(i, node.sent + y + 1)) in node.store.acked then
          copies == []
        else
          CopyEach(cfg.Peers(i), i, after[|before| + y], copies))
  }

  lemma TurnStays(cfg: Config, i: nat, node: Node, after: seq<Payload>, more: seq<Payload>, y: nat, copies: seq<Message>)
    requires TurnOf(cfg, i, node, after, y, copies) && after <= more
    ensures TurnOf(cfg, i, node, more, y, copies)
  {
    hide CopyEach, Numbered, Dispatched;
  }

  /** What `count` turns have made of the acks. */
  ghost predicate MarkedOwn(i: nat, node: Node, t: Node, count: nat)
  {
    forall a :: a in t.store.acked <==>
      a in node.store.acked || (a.sender == i && a.key.owner == i && node.sent < a.key.packet <= node.sent + count)
  }

  /** `count` turns broadcast the next `count` packets, numbered on from the last, each with its number as contents;
      block `y` of what joins the sending channel holds the copies of packet `y`. */
  lemma {:induction false} BroadcastTurns(cfg: Config, i: nat, node: Node, count: nat) returns (blocks: seq<seq<Message>>)
    requires cfg.kind != Tcp
    ensures var t := NodeBroadcasts(cfg, i, node, count);
      var before, after := Dispatched(node.store.log), Dispatched(t.store.log);
      && t.sent == node.sent + count && t.retrans == node.retrans && t.crashed == node.crashed
      && |after| == |before| + count && before <= after
      && |blocks| == count && t.sending == node.sending + Joined(blocks)
      && (forall y :: 0 <= y < count ==> TurnOf(cfg, i, node, after, y, blocks[y]))
      && MarkedOwn(i, node, t, count)
    decreases count
  {
    hide NodeBroadcast, Dispatched, OnlyDelivers, CopyEach, TurnOf, MarkedOwn;
    if count == 0 {
      blocks := [];
      assert MarkedOwn(i, node, node, 0) by { NoneMarked(i, node); }
    } else {
      var u := NodeBroadcasts(cfg, i, node, count - 1);
      var t := NodeBroadcasts(cfg, i, node, count);
      var init := BroadcastTurns(cfg, i, node, count - 1);
      var copies := BroadcastTurn(cfg, i, u);
      blocks := init + [copies];
      assert blocks[..count - 1] == init;
      forall y | 0 <= y < count
        ensures TurnOf(cfg, i, node, Dispatched(t.store.log), y, blocks[y])
      {
        if y < count - 1 {
          TurnStays(cfg, i, node, Dispatched(u.store.log), Dispatched(t.store.log), y, init[y]);
        } else {
          LastTurn(cfg, i, node, u, t, count, copies);
        }
      }
      MarkedOn(i, node, u, t, count);
    }
  }

  lemma NoneMarked(i: nat, node: Node)
    ensures MarkedOwn(i, node, node, 0)
  {
  }

  lemma LastTurn(cfg: Config, i: nat, node: Node, u: Node, t: Node, count: nat, copies: seq<Message>)
    requires count > 0 && u.sent == node.sent + count - 1 && MarkedOwn(i, node, u, count - 1)
    requires |Dispatched(u.store.log)| == |Dispatched(node.store.log)| + count - 1
    requires var p := NextOwn(cfg, i, u);
      && Dispatched(t.store.log) == Dispatched(u.store.log) + [p]
      && (if cfg.kind != Beb && Ack(i, p.Id()) in u.store.acked then
            copies == []
          else
            CopyEach(cfg.Peers(i), i, p, copies))
    ensures TurnOf(cfg, i, node, Dispatched(t.store.log), count - 1, copies)
  {
    hide CopyEach, Dispatched, Decimal.ToString;
  }

  lemma MarkedOn(i: nat, node: Node, u: Node, t: Node, count: nat)
    requires count > 0 && u.sent == node.sent + count - 1 && MarkedOwn(i, node, u, count - 1)
    requires t.store.acked == u.store.acked + {Ack(i, Key(i, u.sent + 1))}
    ensures MarkedOwn(i, node, t, count)
  {
  }

  // ---- The receiving loop ----

  /** One turn answers a packet that is no ack with an ack to its sender, records the sender's ack, and, for the kinds
      that relay, marks an unseen packet seen and queues one copy for each other host, after the ack. */
  lemma ReceiveTurn(cfg: Config, j: nat, node: Node, p: Payload) returns (copies: seq<Message>)
    ensures var t := NodeReceive(cfg, j, node, p);
      var relays := p.kind in {Rb, Urb, Fifob, Lcb};
      var first := Insert(cfg, node.store, p.sender, p);
      && t.retrans == node.retrans && t.sent == node.sent && t.crashed == node.crashed
      && t.sending == node.sending + (if p.isAck then [] else [Message(p.(isAck := true), p.sender)]) + copies
      && (if relays && Ack(j, p.Id()) !in node.store.acked && p.sender != j then
            CopyEach(cfg.Peers(j), j, p, copies) && t.store == Insert(cfg, first, j, p)
          else
            copies == [] && t.store == first)
  {
    hide Insert, CopyEach;
    InsertHolds(cfg, node.store, p.sender, p);
    CopiesAreEach(cfg.Peers(j), j, p);
    var first := Insert(cfg, node.store, p.sender, p);
    var relays := p.kind in {Rb, Urb, Fifob, Lcb};
    copies := if relays && Ack(j, p.Id()) !in first.acked then Copies(cfg.Peers(j), j, p) else [];
  }

  // ---- The sending and the retransmitting loop ----

  /** The head of the sending channel goes on the wire with the node's id; a copy that is not an ack joins the end of
      the retransmission channel. */
  lemma SendTurn(i: nat, node: Node)
    requires node.sending != []
    ensures var m, t := node.sending[0], NodeSend(i, node);
      var wire := Message(m.payload.(sender := i), m.dest);
      && Stamped(i, m) == wire
      && node.sending == [m] + t.sending
      && t.retrans == (if m.payload.isAck then node.retrans else node.retrans + [wire])
      && t.store == node.store && t.sent == node.sent && t.crashed == node.crashed
  {
  }

  /** The head of the retransmission channel joins the end of the sending channel, unless its destination has acked
      it; then it is dropped. */
  lemma RetransmitTurn(node: Node)
    requires node.retrans != []
    ensures var m, t := node.retrans[0], NodeRetransmit(node);
      && node.retrans == [m] + t.retrans
      && t.sending == node.sending + (if Ack(m.dest, m.payload.Id()) in node.store.acked then [] else [m])
      && t.store == node.store && t.sent == node.sent && t.crashed == node.crashed
  {
  }

  // ---- At most one copy ----

  /** How many copies of packet `k` for node `j` a channel holds. */
  function Carried(channel: seq<Message>, j: nat, k: Key): nat
  {
    if channel == [] then
      0
    else
      Carried(channel[..|channel| - 1], j, k) + if Carries(channel[|channel| - 1], j, k) then 1 else 0
  }

  lemma {:induction false} CarriedConcat(a: seq<Message>, b: seq<Message>, j: nat, k: Key)
    ensures Carried(a + b, j, k) == Carried(a, j, k) + Carried(b, j, k)
    decreases |b|
  {
    if b == [] {
      assert a + b == a;
    } else {
      assert (a + b)[..|a + b| - 1] == a + b[..|b| - 1];
      CarriedConcat(a, b[..|b| - 1], j, k);
    }
  }

  lemma CarriedOne(m: Message, j: nat, k: Key)
    ensures Carried([m], j, k) == if Carries(m, j, k) then 1 else 0
  {
    assert [m][..0] == [];
    assert Carried([m][..0], j, k) == 0;
  }

  lemma {:induction false} CarriedSome(channel: seq<Message>, j: nat, k: Key)
    ensures Carried(channel, j, k) > 0 <==> exists m :: m in channel && Carries(m, j, k)
    decreases |channel|
  {
    if channel != [] {
      var init := channel[..|channel| - 1];
      assert channel == init + [channel[|channel| - 1]];
      CarriedSome(init, j, k);
    }
  }

  /** How many copies node `i` has to send in both of its channels. */
  function InChannels(node: Node, j: nat, k: Key): nat
  {
    Carried(node.sending, j, k) + Carried(node.retrans, j, k)
  }

  /** No host table lists a node twice. */
  ghost predicate HostsOnce(cfg: Config)
  {
    forall i, x, y :: 0 <= x < y < |cfg.Peers(i)| ==> cfg.Peers(i)[x] != cfg.Peers(i)[y]
  }

  lemma {:induction false} CopiesCarryOnce(hosts: seq<nat>, self: nat, p: Payload, j: nat, k: Key)
    requires forall x, y :: 0 <= x < y < |hosts| ==> hosts[x] != hosts[y]
    ensures Carried(Copies(hosts, self, p), j, k) <= if k == p.Id() && j in hosts then 1 else 0
    decreases |hosts|
  {
    if hosts != [] {
      var m := |hosts| - 1;
      CopiesCarryOnce(hosts[..m], self, p, j, k);
      CarriedConcat(Copies(hosts[..m], self, p), if hosts[m] == self then [] else [Message(p, hosts[m])], j, k);
      CarriedOne(Message(p, hosts[m]), j, k);
      assert hosts == hosts[..m] + [hosts[m]];
      assert hosts[m] !in hosts[..m];
    }
  }

  /** No node has two copies of a packet for the same node. */
  ghost predicate NoneTwice(sys: System)
  {
    forall i, j, k :: i in sys.nodes ==> InChannels(sys.nodes[i], j, k) <= 1
  }

  lemma NothingUnseen(cfg: Config, sys: System, i: nat, j: nat, k: Key)
    requires Inv(cfg, sys) && i in sys.nodes && !Seen(sys, i, k)
    ensures InChannels(sys.nodes[i], j, k) == 0
  {
    hide Authentic, Stores, Obliged, AcksAnswer, WireAcksAnswer, OwnSeen;
    CarriedSome(sys.nodes[i].sending, j, k);
    CarriedSome(sys.nodes[i].retrans, j, k);
  }

  /** Relaying or broadcasting adds a copy only of what was not seen. */
  lemma CopiesAdded(cfg: Config, sys: System, i: nat, added: seq<Message>, p: Payload, j: nat, k: Key, t: Node)
    requires HostsOnce(cfg) && Inv(cfg, sys) && i in sys.nodes && InChannels(sys.nodes[i], j, k) <= 1
    requires Carried(added, j, k) == 0 && t.retrans == sys.nodes[i].retrans
    requires t.sending == sys.nodes[i].sending + added +
      (if Ack(i, p.Id()) in sys.nodes[i].store.acked then [] else Copies(cfg.Peers(i), i, p))
    ensures InChannels(t, j, k) <= 1
  {
    hide Inv, Copies;
    var node := sys.nodes[i];
    var copies := if Ack(i, p.Id()) in node.store.acked then [] else Copies(cfg.Peers(i), i, p);
    CarriedConcat(node.sending + added, copies, j, k);
    CarriedConcat(node.sending, added, j, k);
    CopiesCarryOnce(cfg.Peers(i), i, p, j, k);
    if k == p.Id() && Ack(i, k) !in node.store.acked {
      NothingUnseen(cfg, sys, i, j, k);
    }
  }

  lemma ReceiptAddsOnce(cfg: Config, sys: System, m: Message, j: nat, k: Key)
    requires HostsOnce(cfg) && Relaying(cfg.kind) && Inv(cfg, sys) && Enabled(cfg, sys, Receive(m))
    requires InChannels(sys.nodes[m.dest], j, k) <= 1
    ensures InChannels(NodeReceive(cfg, m.dest, sys.nodes[m.dest], m.payload), j, k) <= 1
  {
    hide Inv, Copies, InChannels;
    var i, p := m.dest, m.payload;
    var node := sys.nodes[i];
    WireKind(cfg, sys, m);
    ReceiveEffect(cfg, i, node, p);
    var ack := Message(p.(isAck := true), p.sender);
    var added := if p.isAck then [] else [ack];
    CarriedOne(ack, j, k);
    var t := NodeReceive(cfg, i, node, p);
    if p.sender == i && Ack(i, p.Id()) !in node.store.acked {
      WireSender(cfg, sys, m);
      assert false;
    }
    CopiesAdded(cfg, sys, i, added, p, j, k, t);
  }

  lemma WireSender(cfg: Config, sys: System, m: Message)
    requires Inv(cfg, sys) && m in sys.network
    ensures Seen(sys, m.payload.sender, m.payload.Id())
  {
  }

  lemma BroadcastAddsOnce(cfg: Config, sys: System, i: nat, j: nat, k: Key)
    requires HostsOnce(cfg) && Relaying(cfg.kind) && Inv(cfg, sys) && i in sys.nodes
    requires InChannels(sys.nodes[i], j, k) <= 1
    ensures InChannels(NodeBroadcast(cfg, i, sys.nodes[i]), j, k) <= 1
  {
    hide Inv, Copies, InChannels;
    var p := OwnPayload(cfg, i, sys.nodes[i]);
    BroadcastEffect(cfg, i, sys.nodes[i]);
    assert sys.nodes[i].sending + [] == sys.nodes[i].sending;
    CopiesAdded(cfg, sys, i, [], p, j, k, NodeBroadcast(cfg, i, sys.nodes[i]));
  }

  lemma SendMovesOnce(i: nat, node: Node, j: nat, k: Key)
    requires node.sending != []
    ensures InChannels(NodeSend(i, node), j, k) == InChannels(node, j, k)
  {
    var m, t := node.sending[0], NodeSend(i, node);
    SendTurn(i, node);
    CarriedConcat([m], t.sending, j, k);
    CarriedConcat(node.retrans, [Stamped(i, m)], j, k);
    CarriedOne(m, j, k);
    CarriedOne(Stamped(i, m), j, k);
  }

  lemma RetransmitMovesOnce(node: Node, j: nat, k: Key)
    requires node.retrans != []
    ensures InChannels(NodeRetransmit(node), j, k) <= InChannels(node, j, k)
  {
    var m, t := node.retrans[0], NodeRetransmit(node);
    RetransmitTurn(node);
    CarriedConcat([m], t.retrans, j, k);
    CarriedConcat(node.sending, [m], j, k);
  }

  lemma StepNoneTwice(cfg: Config, sys: System, a: Action)
    requires HostsOnce(cfg) && Relaying(cfg.kind) && Inv(cfg, sys) && NoneTwice(sys) && Enabled(cfg, sys, a)
    ensures NoneTwice(Step(cfg, sys, a))
  {
    hide Inv, HostsOnce, NodeBroadcast, NodeReceive, NodeSend, NodeRetransmit, InChannels;
    var i := Actor(a);
    forall j, k
      ensures InChannels(NodeStep(cfg, sys.nodes[i], a), j, k) <= 1
    {
      assert InChannels(sys.nodes[i], j, k) <= 1;
      match a {
        case Broadcast(_) => BroadcastAddsOnce(cfg, sys, i, j, k);
        case Receive(m) => ReceiptAddsOnce(cfg, sys, m, j, k);
        case Send(_) => SendMovesOnce(i, sys.nodes[i], j, k);
        case Retransmit(_) => RetransmitMovesOnce(sys.nodes[i], j, k);
        case Crash(_) => CrashKeeps(sys.nodes[i], j, k);
      }
    }
  }

  lemma CrashKeeps(node: Node, j: nat, k: Key)
    ensures InChannels(node.(crashed := true), j, k) == InChannels(node, j, k)
  {
  }

  lemma {:induction false} ExecNoneTwice(cfg: Config, sys: System, actions: seq<Action>)
    requires Proper(cfg) && HostsOnce(cfg) && Relaying(cfg.kind) && Inv(cfg, sys) && NoneTwice(sys)
    requires Executable(cfg, sys, actions)
    ensures NoneTwice(Exec(cfg, sys, actions))
    decreases |actions|
  {
    hide Inv, NoneTwice, HostsOnce, Step;
    if actions != [] {
      StepInv(cfg, sys, actions[0]);
      StepNoneTwice(cfg, sys, actions[0]);
      ExecNoneTwice(cfg, Step(cfg, sys, actions[0]), actions[1..]);
    }
  }

  /** In every reachable state a node has at most one copy of a packet to send to another node, wherever it is in its
      two channels, and exactly one from when it has seen the packet until it has the other node's ack. */
  lemma OneCopyUntilAcked(cfg: Config, sys: System, i: nat, j: nat, k: Key)
    requires Proper(cfg) && HostsOnce(cfg) && Relaying(cfg.kind) && Reachable(cfg, sys)
    requires i in sys.nodes && j in sys.nodes && j != i
    ensures InChannels(sys.nodes[i], j, k) <= 1
    ensures Seen(sys, i, k) && Ack(j, k) !in sys.nodes[i].store.acked ==> InChannels(sys.nodes[i], j, k) == 1
  {
    hide Authentic, Stores, Truthful, AcksAnswer, WireAcksAnswer, OwnSeen;
    ReachableInv(cfg, sys);
    assert NoneTwice(sys) by {
      hide Inv, HostsOnce;
      var actions :| Executable(cfg, Init(cfg), actions) && sys == Exec(cfg, Init(cfg), actions);
      InitInv(cfg);
      ExecNoneTwice(cfg, Init(cfg), actions);
    }
    CarriedSome(sys.nodes[i].sending, j, k);
    CarriedSome(sys.nodes[i].retrans, j, k);
    assert Seen(sys, i, k) && Ack(j, k) !in sys.nodes[i].store.acked ==> Pending(sys.nodes[i], j, k);
  }
}
