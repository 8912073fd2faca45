/** What one action changes at the node that takes it: its acks, its channels, the payloads it holds and the
    packets it has broadcast. */
module NodeFacts {
  import opened Messages
  import opened Store
  import opened StoreFacts
  import opened Protocol

  // ---- Which payloads a store or a node holds ----

  ghost predicate StoreHolds(s: Store, p: Payload)
  {
    (exists k :: k in s.undelivered && s.undelivered[k] == p) || Delivery(p) in s.log
  }

  ghost predicate Queued(node: Node, p: Payload)
  {
    exists m :: (m in node.sending || m in node.retrans) && m.payload == p
  }

  ghost predicate Holds(node: Node, p: Payload)
  {
    Queued(node, p) || StoreHolds(node.store, p)
  }

  /** The same packet with the same contents; only the sender stamp and the ack flag may differ. */
  predicate Twin(p: Payload, q: Payload)
  {
    q.(sender := p.sender, isAck := p.isAck) == p
  }

  /** `after` is `log` and then deliveries only. */
  ghost predicate OnlyDelivers(log: seq<Event>, after: seq<Event>)
  {
    log <= after && forall x :: |log| <= x < |after| ==> after[x].Delivery?
  }

  lemma {:induction false} DispatchedByDeliveries(log: seq<Event>, more: seq<Event>)
    requires forall e :: e in more ==> e.Delivery?
    ensures Dispatched(log + more) == Dispatched(log)
  {
    if more == [] {
      assert log + more == log;
    } else {
      var init := more[..|more| - 1];
      assert (log + more)[..|log + more| - 1] == log + init;
      DispatchedByDeliveries(log, init);
      assert more[|more| - 1] in more;
    }
  }

  lemma DispatchedAppend(log: seq<Event>, e: Event)
    ensures Dispatched(log + [e]) == Dispatched(log) + if e.Dispatch? then [e.payload] else []
  {
    assert (log + [e])[..|log|] == log;
  }

  lemma InsertHolds(cfg: Config, s: Store, sender: nat, p: Payload)
    ensures var t := Insert(cfg, s, sender, p);
      && t.acked == s.acked + {Ack(sender, p.Id())}
      && |t.clock| == |s.clock|
      && OnlyDelivers(s.log, t.log)
      && Dispatched(t.log) == Dispatched(s.log)
      && (forall q :: StoreHolds(t, q) ==> StoreHolds(s, q) || q == p)
  {
    var t := Insert(cfg, s, sender, p);
    InsertFrame(cfg, s, sender, p);
    assert t.log == s.log + t.log[|s.log|..];
    DispatchedByDeliveries(s.log, t.log[|s.log|..]);
    forall q | StoreHolds(t, q)
      ensures StoreHolds(s, q) || q == p
    {
      if Delivery(q) in t.log && Delivery(q) !in s.log {
        var i :| 0 <= i < |t.log| && t.log[i] == Delivery(q);
        assert forall j :: 0 <= j < |s.log| ==> s.log[j] == t.log[j];
      }
    }
  }

  lemma {:induction false} CopiesContents(peers: seq<nat>, self: nat, p: Payload)
    ensures forall m :: m in Copies(peers, self, p) <==> m.payload == p && m.dest in peers && m.dest != self
  {
    if peers != [] {
      CopiesContents(peers[..|peers| - 1], self, p);
      assert peers == peers[..|peers| - 1] + [peers[|peers| - 1]];
    }
  }

  /** Relaying or broadcasting `p` at node `i`. */
  lemma ReliableEffect(cfg: Config, i: nat, node: Node, p: Payload)
    ensures var t := Reliable(cfg, i, node, p);
      && t.store.acked == node.store.acked + {Ack(i, p.Id())}
      && t.sending == node.sending +
           (if Ack(i, p.Id()) in node.store.acked then [] else Copies(cfg.Peers(i), i, p))
      && t.retrans == node.retrans && t.sent == node.sent && t.crashed == node.crashed
      && |t.store.clock| == |node.store.clock|
      && OnlyDelivers(node.store.log, t.store.log)
      && Dispatched(t.store.log) == Dispatched(node.store.log)
      && (forall q :: StoreHolds(t.store, q) ==> StoreHolds(node.store, q) || q == p)
  {
    hide Insert, StoreHolds;
    InsertHolds(cfg, node.store, i, p);
    if Ack(i, p.Id()) in node.store.acked {
      assert node.store.acked == node.store.acked + {Ack(i, p.Id())};
    }
  }

  lemma ReceiveEffect(cfg: Config, j: nat, node: Node, p: Payload)
    requires Relaying(p.kind)
    ensures var t := NodeReceive(cfg, j, node, p);
      var before := node.store.acked + {Ack(p.sender, p.Id())};
      && t.store.acked == before + {Ack(j, p.Id())}
      && t.sending == node.sending + (if p.isAck then [] else [Message(p.(isAck := true), p.sender)]) +
           (if Ack(j, p.Id()) in before then [] else Copies(cfg.Peers(j), j, p))
      && t.retrans == node.retrans && t.sent == node.sent && t.crashed == node.crashed
      && |t.store.clock| == |node.store.clock|
      && OnlyDelivers(node.store.log, t.store.log)
      && Dispatched(t.store.log) == Dispatched(node.store.log)
      && (forall q :: StoreHolds(t.store, q) ==> StoreHolds(node.store, q) || q == p)
  {
    hide Insert, StoreHolds, Reliable, OnlyDelivers, Dispatched, Copies;
    var t := Acknowledge(node, p);
    var u := t.(store := Insert(cfg, t.store, p.sender, p));
    assert t.sending == node.sending + if p.isAck then [] else [Message(p.(isAck := true), p.sender)];
    InsertHolds(cfg, node.store, p.sender, p);
    ReliableEffect(cfg, j, u, p);
    OnlyDeliversTrans(node.store.log, u.store.log, NodeReceive(cfg, j, node, p).store.log);
  }

  lemma OnlyDeliversTrans(log: seq<Event>, mid: seq<Event>, after: seq<Event>)
    requires OnlyDelivers(log, mid) && OnlyDelivers(mid, after)
    ensures OnlyDelivers(log, after)
  {
  }

  lemma BroadcastEffect(cfg: Config, i: nat, node: Node)
    requires Relaying(cfg.kind)
    ensures var p := OwnPayload(cfg, i, node);
      var t := NodeBroadcast(cfg, i, node);
      && t.store.acked == node.store.acked + {Ack(i, p.Id())}
      && t.sending == node.sending +
           (if Ack(i, p.Id()) in node.store.acked then [] else Copies(cfg.Peers(i), i, p))
      && t.retrans == node.retrans && t.sent == node.sent + 1 && t.crashed == node.crashed
      && |t.store.clock| == |node.store.clock|
      && OnlyDelivers(node.store.log + [Dispatch(p)], t.store.log)
      && Dispatched(t.store.log) == Dispatched(node.store.log) + [p]
      && (forall q :: StoreHolds(t.store, q) ==> StoreHolds(node.store, q) || q == p)
  {
    hide Insert;
    var p := OwnPayload(cfg, i, node);
    var t := node.(sent := node.sent + 1, store := node.store.(log := node.store.log + [Dispatch(p)]));
    DispatchedAppend(node.store.log, Dispatch(p));
    ReliableEffect(cfg, i, t, p);
  }

  // ---- Whole actions ----

  /** `after` has all the acks, log entries and broadcasts of `node`. */
  ghost predicate Continues(node: Node, after: Node)
  {
    && node.store.acked <= after.store.acked
    && node.store.log <= after.store.log
    && Dispatched(node.store.log) <= Dispatched(after.store.log)
  }

  lemma NodeStepContinues(cfg: Config, node: Node, a: Action)
    requires Relaying(cfg.kind)
    requires a.Send? ==> node.sending != []
    requires a.Retransmit? ==> node.retrans != []
    requires a.Receive? ==> Relaying(a.m.payload.kind)
    ensures Continues(node, NodeStep(cfg, node, a))
  {
    hide NodeBroadcast, NodeReceive, StoreHolds, Copies, Dispatched;
    match a {
      case Broadcast(i) => BroadcastEffect(cfg, i, node);
      case Receive(m) => ReceiveEffect(cfg, m.dest, node, m.payload);
      case _ =>
    }
  }

  /** No action takes back an ack, a log entry or a broadcast. */
  lemma StepGrows(cfg: Config, sys: System, a: Action)
    requires Enabled(cfg, sys, a) && Relaying(cfg.kind)
    requires a.Receive? ==> Relaying(a.m.payload.kind)
    ensures var after := Step(cfg, sys, a);
      && after.nodes.Keys == sys.nodes.Keys
      && sys.network <= after.network
      && sys.history <= after.history
      && (forall i :: i in sys.nodes ==> Continues(sys.nodes[i], after.nodes[i]))
  {
    hide NodeStep;
    NodeStepContinues(cfg, sys.nodes[Actor(a)], a);
  }

  /** A payload that a node holds after an action is a copy of one that it held or received, or is the
      one that it has just broadcast. */
  lemma StepHolds(cfg: Config, sys: System, a: Action, i: nat, q: Payload) returns (p: Payload)
    requires Enabled(cfg, sys, a) && Relaying(cfg.kind) && i in sys.nodes
    requires a.Receive? ==> Relaying(a.m.payload.kind)
    requires Holds(Step(cfg, sys, a).nodes[i], q)
    ensures Twin(q, p)
    ensures Holds(sys.nodes[i], p) || (a.Receive? && p == a.m.payload) ||
      (a == Broadcast(i) && p == OwnPayload(cfg, i, sys.nodes[i]))
  {
    var node, after := sys.nodes[i], Step(cfg, sys, a).nodes[i];
    p := q;
    if i == Actor(a) {
      match a {
        case Broadcast(_) =>
          BroadcastEffect(cfg, i, node);
          CopiesContents(cfg.Peers(i), i, OwnPayload(cfg, i, node));
        case Receive(m) =>
          ReceiveEffect(cfg, i, node, m.payload);
          CopiesContents(cfg.Peers(i), i, m.payload);
          if !Holds(node, q) {
            p := m.payload;
          }
        case Send(_) =>
          if !Holds(node, q) {
            p := node.sending[0].payload;
          }
        case Retransmit(_) =>
        case Crash(_) =>
      }
    }
  }
}
