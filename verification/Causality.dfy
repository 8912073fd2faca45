/** Localized causal order over whole `Lcb` runs, for any causality map and any inverse map. */
module Causality {
  import opened Basics
  import opened Messages
  import opened Store
  import opened StoreFacts
  import opened Protocol
  import opened NodeFacts
  import opened Invariants
  import opened Agreement

  // ---- Clocks and broadcast order in the reachable states of an `Lcb` run ----

  /** A packet carries the clock of its owner at the time of the broadcast: how many packets of each node
      the owner had delivered. */
  ghost predicate StampedLog(cfg: Config, log: seq<Event>)
  {
    forall x: nat, d: nat :: x < |log| && log[x].Dispatch? && d <= cfg.n ==>
      At(log[x].payload.clock, d) == Count(log[..x], d)
  }

  /** No clock counts packets that were not broadcast; an owner's own entry stays behind its packet. */
  ghost predicate ClocksBounded(sys: System)
  {
    && (forall o, q: nat, d :: o in sys.nodes && d in sys.nodes && q < |Own(sys, o)| ==>
          At(Own(sys, o)[q].clock, d) <= sys.nodes[d].sent)
    && (forall o, q: nat :: o in sys.nodes && q < |Own(sys, o)| ==> At(Own(sys, o)[q].clock, o) <= q)
  }

  /** The history holds exactly the packets that were broadcast. */
  ghost predicate HistoryComplete(sys: System)
  {
    forall k: Key :: k in sys.history <==> k.owner in sys.nodes && 1 <= k.packet <= sys.nodes[k.owner].sent
  }

  /** In the history a packet comes after the earlier packets of its owner and after all packets that its
      clock counts. */
  ghost predicate HistoryOrdered(sys: System)
  {
    forall x: nat :: x < |sys.history| ==> OrderedAt(sys, x)
  }

  /** What must come before the packet at position `x` of the history. */
  ghost predicate OrderedAt(sys: System, x: nat)
    requires x < |sys.history|
  {
    && (forall q: nat :: 1 <= q < sys.history[x].packet ==> Key(sys.history[x].owner, q) in sys.history[..x])
    && (forall d, q: nat :: d in sys.nodes && 1 <= q <= ClockOf(sys, sys.history[x], d) ==>
          Key(d, q) in sys.history[..x])
  }

  /** Entry `d` of the clock of a packet that was broadcast. */
  function ClockOf(sys: System, k: Key, d: nat): nat
  {
    if k.owner in sys.nodes && 1 <= k.packet <= |Own(sys, k.owner)| then
      At(Own(sys, k.owner)[k.packet - 1].clock, d)
    else
      0
  }

  ghost predicate LcbInv(cfg: Config, sys: System)
  {
    && (forall i :: i in sys.nodes ==> StampedLog(cfg, sys.nodes[i].store.log))
    && ClocksBounded(sys)
    && HistoryComplete(sys)
    && HistoryOrdered(sys)
  }

  lemma StampedByDeliveries(cfg: Config, log: seq<Event>, after: seq<Event>)
    requires StampedLog(cfg, log) && OnlyDelivers(log, after)
    ensures StampedLog(cfg, after)
  {
    forall x: nat, d: nat | x < |after| && after[x].Dispatch? && d <= cfg.n
      ensures At(after[x].payload.clock, d) == Count(after[..x], d)
    {
      assert after[..x] == log[..x] && after[x] == log[x];
    }
  }

  lemma StampedByDispatch(cfg: Config, s: Store, p: Payload)
    requires StampedLog(cfg, s.log) && Causal(cfg, s) && |s.clock| == cfg.n + 1 && p.clock == s.clock
    ensures StampedLog(cfg, s.log + [Dispatch(p)])
  {
    var after := s.log + [Dispatch(p)];
    forall x: nat, d: nat | x < |after| && after[x].Dispatch? && d <= cfg.n
      ensures At(after[x].payload.clock, d) == Count(after[..x], d)
    {
      PrefixOfAppend(s.log, [Dispatch(p)], x);
      assert s.log[..|s.log|] == s.log;
    }
  }

  lemma StepStamped(cfg: Config, sys: System, a: Action)
    requires cfg.kind == Lcb && Inv(cfg, sys) && LcbInv(cfg, sys) && Enabled(cfg, sys, a)
    ensures forall i :: i in sys.nodes ==> StampedLog(cfg, Step(cfg, sys, a).nodes[i].store.log)
  {
    hide Inv, Coherent, HistoryOrdered, HistoryComplete, ClocksBounded, StampedLog, NodeBroadcast, NodeReceive;
    var i := Actor(a);
    var node := sys.nodes[i];
    match a {
      case Broadcast(_) =>
        var p := OwnPayload(cfg, i, node);
        NodeStoreInv(cfg, sys, i);
        BroadcastEffect(cfg, i, node);
        StampedByDispatch(cfg, node.store, p);
        StampedByDeliveries(cfg, node.store.log + [Dispatch(p)], Step(cfg, sys, a).nodes[i].store.log);
      case Receive(m) =>
        WireKind(cfg, sys, m);
        ReceiveEffect(cfg, i, node, m.payload);
        StampedByDeliveries(cfg, node.store.log, Step(cfg, sys, a).nodes[i].store.log);
      case _ =>
    }
  }

  /** A node's clock counts only packets that were broadcast. */
  lemma NodeClockBounded(cfg: Config, sys: System, i: nat, d: nat)
    requires cfg.kind == Lcb && Inv(cfg, sys) && i in sys.nodes && d in sys.nodes
    ensures At(sys.nodes[i].store.clock, d) <= sys.nodes[d].sent
  {
    var s := sys.nodes[i].store;
    assert StoreInv(cfg, s);
    if At(s.clock, d) > 0 {
      DeliveredIsGenuine(cfg, sys, i, Key(d, At(s.clock, d)));
    }
  }

  lemma NodeStepOwn(cfg: Config, node: Node, a: Action)
    requires Relaying(cfg.kind)
    requires a.Send? ==> node.sending != []
    requires a.Retransmit? ==> node.retrans != []
    requires a.Receive? ==> a.m.payload.kind == cfg.kind
    ensures var t := NodeStep(cfg, node, a);
      && Dispatched(t.store.log) ==
           Dispatched(node.store.log) + (if a.Broadcast? then [OwnPayload(cfg, a.i, node)] else [])
      && t.sent == node.sent + (if a.Broadcast? then 1 else 0)
  {
    match a {
      case Broadcast(i) => BroadcastEffect(cfg, i, node);
      case Receive(m) => ReceiveEffect(cfg, m.dest, node, m.payload);
      case _ =>
    }
  }

  lemma SentIsOwn(cfg: Config, sys: System)
    requires Authentic(cfg, sys)
    ensures forall o :: o in sys.nodes ==> sys.nodes[o].sent == |Own(sys, o)|
  {
    assert forall o :: o in sys.nodes ==> NumberedAt(cfg, o, sys.nodes[o]);
  }

  lemma OwnCount(cfg: Config, sys: System, o: nat)
    requires Inv(cfg, sys) && o in sys.nodes
    ensures sys.nodes[o].sent == |Own(sys, o)| && o <= cfg.n
  {
    SentIsOwn(cfg, sys);
  }

  lemma StepOwn(cfg: Config, sys: System, a: Action)
    requires Relaying(cfg.kind) && Inv(cfg, sys) && Enabled(cfg, sys, a)
    ensures var after := Step(cfg, sys, a);
      && after.nodes.Keys == sys.nodes.Keys
      && (forall o :: o in sys.nodes ==> sys.nodes[o].sent == |Own(sys, o)|)
      && (forall o :: o in sys.nodes ==> after.nodes[o].sent == |Own(after, o)|)
      && (forall o :: o in sys.nodes ==>
            Own(after, o) == Own(sys, o) + if a == Broadcast(o) then [OwnPayload(cfg, o, sys.nodes[o])] else [])
  {
    hide Inv, NodeStep, OwnPayload, Dispatched;
    forall o | o in sys.nodes {
      OwnCount(cfg, sys, o);
    }
    if a.Receive? {
      WireKind(cfg, sys, a.m);
    }
    NodeStepOwn(cfg, sys.nodes[Actor(a)], a);
  }

  lemma StepClocksBounded(cfg: Config, sys: System, a: Action)
    requires cfg.kind == Lcb && Inv(cfg, sys) && ClocksBounded(sys) && Enabled(cfg, sys, a)
    ensures ClocksBounded(Step(cfg, sys, a))
  {
    hide Inv, NodeStep;
    var after := Step(cfg, sys, a);
    StepOwn(cfg, sys, a);
    forall o, q: nat, d | o in after.nodes && d in after.nodes && q < |Own(after, o)|
      ensures At(Own(after, o)[q].clock, d) <= after.nodes[d].sent
      ensures At(Own(after, o)[q].clock, o) <= q
    {
      if q == |Own(sys, o)| {
        NodeClockBounded(cfg, sys, o, d);
        NodeClockBounded(cfg, sys, o, o);
      }
    }
  }

  lemma StepHistoryComplete(cfg: Config, sys: System, a: Action)
    requires cfg.kind == Lcb && Inv(cfg, sys) && HistoryComplete(sys) && Enabled(cfg, sys, a)
    ensures HistoryComplete(Step(cfg, sys, a))
  {
    hide Inv, NodeStep, OwnPayload, Own;
    StepOwn(cfg, sys, a);
  }

  lemma StepClockOf(cfg: Config, sys: System, a: Action, k: Key, d: nat)
    requires cfg.kind == Lcb && Inv(cfg, sys) && HistoryComplete(sys) && Enabled(cfg, sys, a)
    ensures k in sys.history ==> ClockOf(Step(cfg, sys, a), k, d) == ClockOf(sys, k, d)
    ensures a.Broadcast? ==>
      ClockOf(Step(cfg, sys, a), Key(a.i, sys.nodes[a.i].sent + 1), d) == At(sys.nodes[a.i].store.clock, d)
  {
    hide Inv;
    StepOwn(cfg, sys, a);
  }

  /** The packet that a node broadcasts comes after all that it must come after. */
  lemma NewestIsOrdered(cfg: Config, sys: System, a: Action, d: nat, q: nat)
    requires cfg.kind == Lcb && Inv(cfg, sys) && HistoryComplete(sys) && Enabled(cfg, sys, a) && a.Broadcast?
    ensures 1 <= q <= sys.nodes[a.i].sent ==> Key(a.i, q) in sys.history
    ensures d in sys.nodes && 1 <= q <= ClockOf(Step(cfg, sys, a), Key(a.i, sys.nodes[a.i].sent + 1), d) ==>
      Key(d, q) in sys.history
  {
    hide Inv, ClockOf, Step;
    StepClockOf(cfg, sys, a, Key(a.i, sys.nodes[a.i].sent + 1), d);
    if d in sys.nodes {
      NodeClockBounded(cfg, sys, a.i, d);
    }
  }

  lemma StepOrderedAt(cfg: Config, sys: System, a: Action, x: nat)
    requires cfg.kind == Lcb && Inv(cfg, sys) && HistoryComplete(sys) && HistoryOrdered(sys) && Enabled(cfg, sys, a)
    requires x < |Step(cfg, sys, a).history|
    ensures OrderedAt(Step(cfg, sys, a), x)
  {
    hide Inv, ClockOf, NodeStep, HistoryComplete;
    var after, h := Step(cfg, sys, a), sys.history;
    assert after.nodes.Keys == sys.nodes.Keys;
    assert after.history == h + if a.Broadcast? then [Key(a.i, sys.nodes[a.i].sent + 1)] else [];
    hide Step;
    if x < |h| {
      assert after.history[..x] == h[..x] && after.history[x] == h[x];
      assert OrderedAt(sys, x) && h[x] in h;
      forall d
        ensures ClockOf(after, h[x], d) == ClockOf(sys, h[x], d)
      {
        StepClockOf(cfg, sys, a, h[x], d);
      }
    } else {
      assert after.history[..x] == h;
      forall d, q: nat {
        NewestIsOrdered(cfg, sys, a, d, q);
      }
    }
  }

  lemma StepHistoryOrdered(cfg: Config, sys: System, a: Action)
    requires cfg.kind == Lcb && Inv(cfg, sys) && HistoryComplete(sys) && HistoryOrdered(sys) && Enabled(cfg, sys, a)
    ensures HistoryOrdered(Step(cfg, sys, a))
  {
    hide Inv, Step, HistoryComplete;
    var after := Step(cfg, sys, a);
    forall x: nat | x < |after.history|
      ensures OrderedAt(after, x)
    {
      StepOrderedAt(cfg, sys, a, x);
    }
  }

  lemma StepLcbInv(cfg: Config, sys: System, a: Action)
    requires cfg.kind == Lcb && Inv(cfg, sys) && LcbInv(cfg, sys) && Enabled(cfg, sys, a)
    ensures LcbInv(cfg, Step(cfg, sys, a))
  {
    StepOwn(cfg, sys, a);
    StepStamped(cfg, sys, a);
    StepClocksBounded(cfg, sys, a);
    StepHistoryComplete(cfg, sys, a);
    StepHistoryOrdered(cfg, sys, a);
  }

  lemma {:induction false} ExecLcbInv(cfg: Config, sys: System, actions: seq<Action>)
    requires Proper(cfg) && cfg.kind == Lcb && Inv(cfg, sys) && LcbInv(cfg, sys) && Executable(cfg, sys, actions)
    ensures LcbInv(cfg, Exec(cfg, sys, actions))
    decreases |actions|
  {
    if actions != [] {
      StepInv(cfg, sys, actions[0]);
      StepLcbInv(cfg, sys, actions[0]);
      ExecLcbInv(cfg, Step(cfg, sys, actions[0]), actions[1..]);
    }
  }

  lemma ReachableLcbInv(cfg: Config, sys: System)
    requires Proper(cfg) && cfg.kind == Lcb && Reachable(cfg, sys)
    ensures Inv(cfg, sys) && LcbInv(cfg, sys)
  {
    ReachableInv(cfg, sys);
    var actions :| Executable(cfg, Init(cfg), actions) && sys == Exec(cfg, Init(cfg), actions);
    InitInv(cfg);
    ExecLcbInv(cfg, Init(cfg), actions);
  }

  // ---- Reading positions in a log ----

  lemma {:induction false} DispatchedAt(log: seq<Event>, x: nat)
    requires x < |log| && log[x].Dispatch?
    ensures var r := |Dispatched(log[..x])|;
      r < |Dispatched(log)| && Dispatched(log)[r] == log[x].payload
  {
    var init := log[..|log| - 1];
    if x < |log| - 1 {
      DispatchedAt(init, x);
      assert init[..x] == log[..x];
    }
  }

  /** Where a log dispatches its `q`-th own packet. */
  lemma {:induction false} WhereDispatched(log: seq<Event>, q: nat) returns (x: nat)
    requires q < |Dispatched(log)|
    ensures x < |log| && log[x] == Dispatch(Dispatched(log)[q]) && |Dispatched(log[..x])| == q
  {
    var init := log[..|log| - 1];
    if q < |Dispatched(init)| {
      x := WhereDispatched(init, q);
      assert init[..x] == log[..x];
    } else {
      x := |log| - 1;
    }
  }

  lemma {:induction false} DispatchedGrows(log: seq<Event>, x: nat, y: nat)
    requires x <= y <= |log|
    ensures |Dispatched(log[..x])| <= |Dispatched(log[..y])|
  {
    if x < y {
      assert log[..y][..y - 1] == log[..y - 1];
      DispatchedGrows(log, x, y - 1);
    }
  }

  lemma DispatchOrder(log: seq<Event>, x: nat, y: nat)
    requires x <= |log| && y <= |log| && |Dispatched(log[..x])| < |Dispatched(log[..y])|
    ensures x < y
  {
    if y <= x {
      DispatchedGrows(log, y, x);
    }
  }

  // ---- Clock laws ----

  /** Where `o` broadcast its packet `p`, and what the packet's clock counts there. */
  lemma StampPosition(cfg: Config, sys: System, o: nat, p: nat) returns (x: nat)
    requires Inv(cfg, sys) && o in sys.nodes && StampedLog(cfg, sys.nodes[o].store.log)
    requires 1 <= p <= sys.nodes[o].sent
    ensures var log := sys.nodes[o].store.log;
      && x <= |log| && |Dispatched(log[..x])| == p - 1
      && forall d: nat :: d <= cfg.n ==> ClockOf(sys, Key(o, p), d) == Count(log[..x], d)
  {
    hide Inv;
    OwnCount(cfg, sys, o);
    x := WhereDispatched(sys.nodes[o].store.log, p - 1);
  }

  /** The clocks that an owner stamps never go back, count only packets that were broadcast, and never
      make a packet wait for itself or for a later packet of its owner. */
  lemma ClockLaws(cfg: Config, sys: System, o: nat, p: nat, q: nat, d: nat)
    requires Proper(cfg) && cfg.kind == Lcb && Reachable(cfg, sys)
    requires o in sys.nodes && d in sys.nodes && 1 <= p <= q <= sys.nodes[o].sent
    ensures ClockOf(sys, Key(o, p), d) <= ClockOf(sys, Key(o, q), d) <= sys.nodes[d].sent
    ensures ClockOf(sys, Key(o, p), o) <= p - 1
  {
    hide Inv, HistoryOrdered, HistoryComplete, StampedLog;
    ReachableLcbInv(cfg, sys);
    OwnCount(cfg, sys, o);
    OwnCount(cfg, sys, d);
    if p < q {
      var x := StampPosition(cfg, sys, o, p);
      var y := StampPosition(cfg, sys, o, q);
      DispatchOrder(sys.nodes[o].store.log, x, y);
      CountGrows(sys.nodes[o].store.log, x, y, d);
    }
  }

  // ---- Localized causal order ----

  /** `a` is an earlier packet of the owner of `b`, or the owner of `b`, which is affected by the owner of
      `a`, delivered `a` before it broadcast `b`. */
  ghost predicate DirectlyCauses(cfg: Config, sys: System, a: Key, b: Key)
  {
    && b.owner in sys.nodes
    && ((a.owner == b.owner && 1 <= a.packet < b.packet)
        || (a.owner in cfg.Dependencies(b.owner)
            && DeliveredBeforeBroadcast(sys.nodes[b.owner].store.log, a, b)))
  }

  ghost predicate DeliveredBeforeBroadcast(log: seq<Event>, a: Key, b: Key)
  {
    exists x: nat, y: nat :: x < y && DeliversAt(log, x, a) && DispatchesAt(log, y, b)
  }

  predicate DispatchesAt(log: seq<Event>, y: nat, k: Key)
  {
    y < |log| && log[y].Dispatch? && log[y].payload.Id() == k
  }

  /** A chain of direct causes. */
  ghost predicate Chain(cfg: Config, sys: System, path: seq<Key>)
  {
    |path| >= 2 && forall t: nat :: t + 1 < |path| ==> DirectlyCauses(cfg, sys, path[t], path[t + 1])
  }

  /** What a packet's clock counts of a dependency is delivered before the packet. */
  lemma GuardedDelivery(cfg: Config, sys: System, i: nat, y: nat, b: Key, a: Key) returns (x: nat)
    requires cfg.kind == Lcb && Inv(cfg, sys) && i in sys.nodes
    requires DeliversAt(sys.nodes[i].store.log, y, b)
    requires a.owner in cfg.Dependencies(b.owner) && 1 <= a.packet <= ClockOf(sys, b, a.owner)
    ensures x < y && DeliversAt(sys.nodes[i].store.log, x, a)
  {
    hide Coherent, Authentic, Obliged, Truthful, AcksAnswer, WireAcksAnswer, OwnSeen;
    var s := sys.nodes[i].store;
    assert StoreInv(cfg, s);
    assert s.log[y] in s.log;
    HeldClock(cfg, sys, i, s.log[y].payload);
    x := CountedIsDelivered(s.log, y, a.owner, a.packet);
  }

  /** The owner's clock counts what the owner delivered before the broadcast. */
  lemma ClockCounts(cfg: Config, sys: System, a: Key, b: Key)
    requires cfg.kind == Lcb && Inv(cfg, sys) && LcbInv(cfg, sys) && b.owner in sys.nodes
    requires DeliveredBeforeBroadcast(sys.nodes[b.owner].store.log, a, b)
    ensures 1 <= a.packet <= ClockOf(sys, b, a.owner)
  {
    hide Coherent, Obliged, Truthful, AcksAnswer, WireAcksAnswer, OwnSeen;
    hide HistoryOrdered, HistoryComplete, ClocksBounded;
    var s := sys.nodes[b.owner].store;
    assert StoreInv(cfg, s);
    var x: nat, y: nat :| x < y && DeliversAt(s.log, x, a) && DispatchesAt(s.log, y, b);
    assert s.log[x] in s.log;
    HeldClock(cfg, sys, b.owner, s.log[x].payload);
    CountedUpTo(s.log, x, y, a);
    StampAt(cfg, sys, b.owner, y);
  }

  lemma CountedUpTo(log: seq<Event>, x: nat, y: nat, a: Key)
    requires FifoLog(log) && x < y <= |log| && DeliversAt(log, x, a)
    ensures a.packet <= Count(log[..y], a.owner)
  {
    assert log[..x + 1][..x] == log[..x];
    CountGrows(log, x + 1, y, a.owner);
  }

  lemma StampAt(cfg: Config, sys: System, o: nat, y: nat)
    requires Inv(cfg, sys) && o in sys.nodes && StampedLog(cfg, sys.nodes[o].store.log)
    requires y < |sys.nodes[o].store.log| && sys.nodes[o].store.log[y].Dispatch?
    ensures var log := sys.nodes[o].store.log;
      forall d: nat :: d <= cfg.n ==> ClockOf(sys, log[y].payload.Id(), d) == Count(log[..y], d)
  {
    hide Stores, Obliged, Truthful, AcksAnswer, WireAcksAnswer, OwnSeen;
    assert NumberedAt(cfg, o, sys.nodes[o]);
    DispatchedAt(sys.nodes[o].store.log, y);
  }

  /** A packet that a node holds, buffered or delivered, carries the clock that its owner stamped. */
  lemma HeldClock(cfg: Config, sys: System, i: nat, p: Payload)
    requires Inv(cfg, sys) && i in sys.nodes && StoreHolds(sys.nodes[i].store, p)
    ensures p.owner in sys.nodes && 1 <= p.packet <= sys.nodes[p.owner].sent && p.kind == cfg.kind
    ensures forall d :: At(p.clock, d) == ClockOf(sys, p.Id(), d)
  {
    hide Stores, Obliged, Truthful, AcksAnswer, WireAcksAnswer, OwnSeen, NumberedAt;
    assert Holds(sys.nodes[i], p);
    GenuineKind(cfg, sys, p);
  }

  lemma DirectCauseFirst(cfg: Config, sys: System, i: nat, y: nat, a: Key, b: Key) returns (x: nat)
    requires cfg.kind == Lcb && Inv(cfg, sys) && LcbInv(cfg, sys) && i in sys.nodes
    requires DirectlyCauses(cfg, sys, a, b) && DeliversAt(sys.nodes[i].store.log, y, b)
    ensures x < y && DeliversAt(sys.nodes[i].store.log, x, a)
  {
    if a.owner == b.owner && 1 <= a.packet < b.packet {
      assert StoreInv(cfg, sys.nodes[i].store);
      x := CountedIsDelivered(sys.nodes[i].store.log, y, a.owner, a.packet);
    } else {
      ClockCounts(cfg, sys, a, b);
      x := GuardedDelivery(cfg, sys, i, y, b, a);
    }
  }

  /** Localized causal order: in every reachable state of an `Lcb` run, a node that has delivered a packet
      has delivered, earlier in its log, everything from which a chain of direct causes leads to it. */
  lemma {:induction false} CausalOrder(cfg: Config, sys: System, i: nat, y: nat, path: seq<Key>) returns (x: nat)
    requires Proper(cfg) && cfg.kind == Lcb && Reachable(cfg, sys) && i in sys.nodes
    requires Chain(cfg, sys, path) && DeliversAt(sys.nodes[i].store.log, y, path[|path| - 1])
    ensures x < y && DeliversAt(sys.nodes[i].store.log, x, path[0])
    decreases |path|
  {
    hide Inv, LcbInv;
    ReachableLcbInv(cfg, sys);
    var init := path[..|path| - 1];
    assert DirectlyCauses(cfg, sys, path[|path| - 2], path[|path| - 2 + 1]);
    x := DirectCauseFirst(cfg, sys, i, y, path[|path| - 2], path[|path| - 1]);
    if |path| > 2 {
      x := CausalOrder(cfg, sys, i, x, init);
    }
  }

  // ---- The causal guard never blocks everything ----

  /** A waiting packet has a majority of acks and is buffered with the clock that its owner stamped. */
  lemma WaitingIsBuffered(cfg: Config, sys: System, i: nat, k: Key)
    requires cfg.kind == Lcb && Inv(cfg, sys)
    requires AckComplete(sys) && MajorityLive(cfg, sys) && Live(sys, i) && Waiting(cfg, sys, i, k)
    ensures var s := sys.nodes[i].store;
      && k in s.undelivered && s.undelivered[k].Id() == k && UrbReady(cfg, s, s.undelivered[k])
      && forall d :: At(s.undelivered[k].clock, d) == ClockOf(sys, k, d)
  {
    hide Inv, AckComplete, MajorityLive, ClockOf;
    assert Needed(cfg.kind, k, k);
    SharedMajority(cfg, sys, i, i, k);
    NodeStoreInv(cfg, sys, i);
    SeenIsBuffered(cfg, sys.nodes[i].store, k);
    HeldClock(cfg, sys, i, sys.nodes[i].store.undelivered[k]);
  }

  /** If no waiting packet precedes it in broadcast order, it is the next of its owner. */
  lemma EarliestIsNext(cfg: Config, sys: System, i: nat, x: nat)
    requires cfg.kind == Lcb && Inv(cfg, sys) && HistoryOrdered(sys) && i in sys.nodes
    requires x < |sys.history| && Waiting(cfg, sys, i, sys.history[x])
    requires forall y: nat :: y < x ==> !Waiting(cfg, sys, i, sys.history[y])
    ensures Next(sys.nodes[i].store, sys.history[x].owner) == sys.history[x].packet
  {
    hide Inv, ClockOf, Seen, StoreInv;
    var k, s := sys.history[x], sys.nodes[i].store;
    assert OrderedAt(sys, x);
    forall q | 1 <= q < k.packet
      ensures Key(k.owner, q) in s.delivered
    {
      EarlierIsDelivered(cfg, sys, i, x, Key(k.owner, q));
    }
    NodeStoreInv(cfg, sys, i);
    FrontierReached(cfg, s, k);
  }

  /** And it may be delivered. */
  lemma EarliestIsReady(cfg: Config, sys: System, i: nat, x: nat)
    requires cfg.kind == Lcb && Inv(cfg, sys) && LcbInv(cfg, sys)
    requires AckComplete(sys) && MajorityLive(cfg, sys) && Live(sys, i)
    requires x < |sys.history| && Waiting(cfg, sys, i, sys.history[x])
    requires forall y: nat :: y < x ==> !Waiting(cfg, sys, i, sys.history[y])
    ensures var k, s := sys.history[x], sys.nodes[i].store;
      k in s.undelivered && LcbReady(cfg, s, s.undelivered[k])
  {
    hide Inv, HistoryOrdered, StampedLog, ClocksBounded, HistoryComplete, AckComplete, MajorityLive, Waiting, ClockOf;
    var k, s := sys.history[x], sys.nodes[i].store;
    WaitingIsBuffered(cfg, sys, i, k);
    EarliestIsNext(cfg, sys, i, x);
    forall d | d in cfg.Dependencies(k.owner)
      ensures At(s.clock, d) >= At(s.undelivered[k].clock, d)
    {
      DependencyIsMet(cfg, sys, i, x, d);
    }
  }

  /** An acked packet that is not delivered is buffered under its name, with its acks counted. */
  lemma SeenIsBuffered(cfg: Config, s: Store, k: Key)
    requires StoreInv(cfg, s) && k !in s.delivered && Senders(s.acked, k) != {}
    ensures k in s.undelivered && s.undelivered[k].Id() == k && StoreHolds(s, s.undelivered[k])
    ensures k in s.counter && s.counter[k] == |Senders(s.acked, k)|
  {
  }

  lemma FrontierReached(cfg: Config, s: Store, k: Key)
    requires cfg.kind == Lcb && StoreInv(cfg, s) && k !in s.delivered && 1 <= k.packet
    requires forall q :: 1 <= q < k.packet ==> Key(k.owner, q) in s.delivered
    ensures Next(s, k.owner) == k.packet
  {
    assert k.packet > 1 ==> Key(k.owner, k.packet - 1) in s.delivered;
  }

  lemma EarlierIsDelivered(cfg: Config, sys: System, i: nat, x: nat, k: Key)
    requires i in sys.nodes && x <= |sys.history| && k in sys.history[..x]
    requires forall y: nat :: y < x ==> !Waiting(cfg, sys, i, sys.history[y])
    requires 1 <= k.packet && forall j :: Needed(cfg.kind, k, j) ==> Seen(sys, i, j)
    ensures k in sys.nodes[i].store.delivered
  {
    var y :| 0 <= y < x && sys.history[..x][y] == k;
  }

  lemma DependencyIsMet(cfg: Config, sys: System, i: nat, x: nat, d: nat)
    requires cfg.kind == Lcb && Inv(cfg, sys) && LcbInv(cfg, sys)
    requires AckComplete(sys) && MajorityLive(cfg, sys) && Live(sys, i)
    requires x < |sys.history|
    requires forall y: nat :: y < x ==> !Waiting(cfg, sys, i, sys.history[y])
    ensures At(sys.nodes[i].store.clock, d) >= ClockOf(sys, sys.history[x], d)
  {
    hide Inv, StampedLog, ClocksBounded, HistoryComplete, AckComplete, MajorityLive, ClockOf;
    var k := sys.history[x];
    var c := ClockOf(sys, k, d);
    assert OrderedAt(sys, x);
    if c > 0 {
      ClockInRange(cfg, sys, k, d);
      CountedWasDelivered(cfg, sys, k, d);
      forall q | 1 <= q <= c
        ensures Seen(sys, i, Key(d, q))
      {
        var w := LiveWitness(cfg, sys, k.owner, Key(d, q));
        SeenIsShared(cfg, sys, w, i, Key(d, q));
      }
      DeliveredIsGenuine(cfg, sys, k.owner, Key(d, c));
      EarlierIsDelivered(cfg, sys, i, x, Key(d, c));
      DeliveredIsCounted(cfg, sys, i, Key(d, c));
    }
  }

  lemma DeliveredIsCounted(cfg: Config, sys: System, i: nat, k: Key)
    requires cfg.kind == Lcb && Inv(cfg, sys) && i in sys.nodes && k in sys.nodes[i].store.delivered
    requires k.owner in sys.nodes
    ensures At(sys.nodes[i].store.clock, k.owner) >= k.packet
  {
    hide Coherent, Obliged, Truthful, AcksAnswer, WireAcksAnswer, OwnSeen, NumberedAt;
    NodeStoreInv(cfg, sys, i);
  }

  /** The owner of a packet has delivered whatever the packet's clock counts. */
  lemma CountedWasDelivered(cfg: Config, sys: System, k: Key, d: nat)
    requires cfg.kind == Lcb && Inv(cfg, sys) && LcbInv(cfg, sys) && ClockOf(sys, k, d) > 0 && d <= cfg.n
    ensures k.owner in sys.nodes
    ensures forall q: nat :: 1 <= q <= ClockOf(sys, k, d) ==> Key(d, q) in sys.nodes[k.owner].store.delivered
  {
    hide Inv, ClocksBounded, HistoryComplete, HistoryOrdered, Coherent, FifoLog;
    var s := sys.nodes[k.owner].store;
    OwnCount(cfg, sys, k.owner);
    NodeStoreInv(cfg, sys, k.owner);
    var y := StampPosition(cfg, sys, k.owner, k.packet);
    CountGrows(s.log, y, |s.log|, d);
    assert s.log[..|s.log|] == s.log;
  }

  lemma ClockInRange(cfg: Config, sys: System, k: Key, d: nat)
    requires Inv(cfg, sys) && ClockOf(sys, k, d) > 0
    ensures d <= cfg.n
  {
    hide Stores, Obliged, Truthful, AcksAnswer, WireAcksAnswer, OwnSeen;
    assert NumberedAt(cfg, k.owner, sys.nodes[k.owner]);
  }

  lemma {:induction false} SomeEarliest(cfg: Config, sys: System, i: nat, x: nat) returns (k: Key)
    requires cfg.kind == Lcb && Inv(cfg, sys) && LcbInv(cfg, sys)
    requires AckComplete(sys) && MajorityLive(cfg, sys) && Live(sys, i)
    requires x < |sys.history| && Waiting(cfg, sys, i, sys.history[x])
    ensures var s := sys.nodes[i].store;
      k in s.undelivered && LcbReady(cfg, s, s.undelivered[k])
    decreases x
  {
    if y: nat :| y < x && Waiting(cfg, sys, i, sys.history[y]) {
      k := SomeEarliest(cfg, sys, i, y);
    } else {
      EarliestIsReady(cfg, sys, i, x);
      k := sys.history[x];
    }
  }

  /** The `Lcb` guard never deadlocks: once the live nodes, a majority, lack no ack from each other, a live
      node that has not delivered a packet, although it has seen it and all its FIFO predecessors, buffers some
      packet that passes the guard. */
  lemma GuardNeverDeadlocks(cfg: Config, sys: System, i: nat, b: Key) returns (k: Key)
    requires Proper(cfg) && cfg.kind == Lcb && Reachable(cfg, sys)
    requires AckComplete(sys) && MajorityLive(cfg, sys) && Live(sys, i) && Waiting(cfg, sys, i, b)
    ensures var s := sys.nodes[i].store;
      k in s.undelivered && LcbReady(cfg, s, s.undelivered[k])
  {
    hide Inv, StampedLog, ClocksBounded, HistoryOrdered, AckComplete, MajorityLive;
    ReachableLcbInv(cfg, sys);
    assert Needed(cfg.kind, b, b);
    SeenIsGenuine(cfg, sys, i, b);
    assert b in sys.history;
    var x :| 0 <= x < |sys.history| && sys.history[x] == b;
    k := SomeEarliest(cfg, sys, i, x);
  }
}
