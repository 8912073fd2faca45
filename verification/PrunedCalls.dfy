/** The calls that one node of the C++ program makes on its store, in its order, and what such calls can queue. */
module PrunedCalls {
  import opened Basics
  import opened Messages
  import opened Store
  import opened StoreFacts
  import opened StoreSpec
  import opened PrunedStore

  // ---- The calls of one node ----

  /** Calls of a system of `n` nodes: known nodes, the sender as the payload names it, clocks of `n + 1` entries that
      count nothing of a node 0 and lie behind the packet in the owner's own entry, and the same clock in all
      copies of a packet. */
  ghost predicate Clocked(cfg: Config, calls: seq<Call>)
  {
    && (forall c :: c in calls ==> ClockedCall(cfg, c))
    && (forall c, e :: c in calls && e in calls && c.payload.Id() == e.payload.Id() ==>
          c.payload.clock == e.payload.clock)
  }

  predicate ClockedCall(cfg: Config, c: Call)
  {
    var p := c.payload;
    && c.sender == p.sender && c.sender in Ids(cfg.n) && p.owner in Ids(cfg.n) && 1 <= p.packet
    && |p.clock| == cfg.n + 1 && At(p.clock, 0) == 0 && At(p.clock, p.owner) < p.packet
  }

  /** Node `z` has marked packet `k` as seen. */
  predicate SeenIn(calls: seq<Call>, z: nat, k: Key)
  {
    exists c | c in calls :: c.sender == z && c.payload.Id() == k
  }

  /** How many packets of its own node `z` has broadcast. */
  function OwnIn(calls: seq<Call>, z: nat): nat
  {
    if calls == [] then
      0
    else
      var last := calls[|calls| - 1];
      OwnIn(calls[..|calls| - 1], z) + if last.sender == z && last.payload.owner == z then 1 else 0
  }

  /** The calls end with a broadcast of `z`: it numbers its packets, stamps its clock and marks the packet seen. */
  ghost predicate EndsInBroadcast(cfg: Config, z: nat, calls: seq<Call>)
    requires calls != []
  {
    var init, last := calls[..|calls| - 1], calls[|calls| - 1];
    && last.sender == z && last.payload.owner == z
    && last.payload.packet == OwnIn(init, z) + 1 && last.payload.clock == InsertsPruned(cfg, init).clock
  }

  /** They end with a receipt of what `z` has seen. */
  ghost predicate EndsInAck(z: nat, calls: seq<Call>)
    requires calls != []
  {
    var init, last := calls[..|calls| - 1], calls[|calls| - 1];
    last.sender != z && SeenIn(init, z, last.payload.Id())
  }

  /** They end with a receipt of what `z` has not seen: under the sender, and at once under `z` itself. */
  ghost predicate EndsInNews(z: nat, calls: seq<Call>)
    requires |calls| >= 2
  {
    var init, c, last := calls[..|calls| - 2], calls[|calls| - 2], calls[|calls| - 1];
    && c.sender != z && c.payload.owner != z && !SeenIn(init, z, c.payload.Id())
    && last == Call(z, c.payload.(sender := z))
  }

  /** The calls, in order, are some that node `z` makes. */
  ghost predicate MadeAt(cfg: Config, z: nat, calls: seq<Call>)
    decreases |calls|
  {
    || calls == []
    || ((EndsInBroadcast(cfg, z, calls) || EndsInAck(z, calls)) && MadeAt(cfg, z, calls[..|calls| - 1]))
    || (|calls| >= 2 && EndsInNews(z, calls) && MadeAt(cfg, z, calls[..|calls| - 2]))
  }

  // ---- Some nodes ack one packet, one after the other ----

  function AckedIn(order: seq<nat>, p: Payload): seq<Call>
  {
    seq(|order|, x requires 0 <= x < |order| => Call(order[x], p.(sender := order[x])))
  }

  lemma AckedInLast(order: seq<nat>, p: Payload)
    requires order != []
    ensures var l := order[|order| - 1];
      AckedIn(order, p) == AckedIn(order[..|order| - 1], p) + [Call(l, p.(sender := l))]
  {
  }

  lemma InAckedIn(order: seq<nat>, p: Payload, c: Call)
    ensures c in AckedIn(order, p) <==> c.sender in order && c.payload == p.(sender := c.sender)
  {
    if c.sender in order && c.payload == p.(sender := c.sender) {
      var x :| 0 <= x < |order| && order[x] == c.sender;
      assert AckedIn(order, p)[x] == c;
    }
  }

  /** The nodes of `op` ack `p`, and then those of `ot` ack `t`. */
  function Acking(p: Payload, op: seq<nat>, t: Payload, ot: seq<nat>): seq<Call>
  {
    AckedIn(op, p) + AckedIn(ot, t)
  }

  /** Who has acked what in these calls. */
  lemma AckingAckers(p: Payload, op: seq<nat>, t: Payload, ot: seq<nat>, k: Key)
    requires p.Id() != t.Id()
    ensures forall l :: l in Ackers(Acking(p, op, t, ot), k) <==>
      (k == p.Id() && l in op) || (k == t.Id() && l in ot)
  {
    var calls := Acking(p, op, t, ot);
    forall l: nat
      ensures l in Ackers(calls, k) <==> (k == p.Id() && l in op) || (k == t.Id() && l in ot)
    {
      SenderIsThere(Acks(calls), l, k);
      InAckedIn(op, p, Call(l, p.(sender := l)));
      InAckedIn(ot, t, Call(l, t.(sender := l)));
      if c :| c in calls && Ack(c.sender, c.payload.Id()) == Ack(l, k) {
        InAckedIn(op, p, c);
        InAckedIn(ot, t, c);
      }
    }
  }

  predicate Distinct(order: seq<nat>)
  {
    forall x, y :: 0 <= x < y < |order| ==> order[x] != order[y]
  }

  lemma {:induction false} DistinctSize(order: seq<nat>, nodes: set<nat>)
    requires forall l :: l in nodes <==> l in order
    ensures |nodes| <= |order| && (Distinct(order) ==> |nodes| == |order|)
  {
    if order == [] {
      assert nodes == {};
    } else {
      var init, l := order[..|order| - 1], order[|order| - 1];
      assert order == init + [l];
      if l in init {
        DistinctSize(init, nodes);
      } else {
        DistinctSize(init, nodes - {l});
      }
    }
  }

  /** How many nodes have acked `p` or `t`. */
  lemma AckingCounts(p: Payload, op: seq<nat>, t: Payload, ot: seq<nat>, k: Key)
    requires p.Id() != t.Id()
    ensures var size := |Ackers(Acking(p, op, t, ot), k)|;
      && (k == p.Id() ==> size <= |op| && (Distinct(op) ==> size == |op|))
      && (k == t.Id() ==> size <= |ot| && (Distinct(ot) ==> size == |ot|))
      && (k != p.Id() && k != t.Id() ==> size == 0)
  {
    AckingAckers(p, op, t, ot, k);
    var ackers := Ackers(Acking(p, op, t, ot), k);
    hide Acks, Acking;
    if k == p.Id() {
      DistinctSize(op, ackers);
    } else if k == t.Id() {
      DistinctSize(ot, ackers);
    } else {
      assert ackers == {};
    }
  }

  /** A majority of distinct nodes, in an order that starts as given. */
  ghost predicate QuorumOrder(cfg: Config, order: seq<nat>)
  {
    |order| == Majority(cfg.n) && Distinct(order) && forall l :: l in order ==> l in Ids(cfg.n)
  }

  lemma {:induction false} SomeQuorum(cfg: Config, first: seq<nat>) returns (order: seq<nat>)
    requires cfg.n >= 1 && |first| <= Majority(cfg.n) && Distinct(first) && forall l :: l in first ==> l in Ids(cfg.n)
    ensures QuorumOrder(cfg, order) && first <= order
    decreases Majority(cfg.n) - |first|
  {
    if |first| == Majority(cfg.n) {
      order := first;
    } else {
      var used := set l | l in first;
      DistinctSize(first, used);
      IdsSize(cfg.n);
      if Ids(cfg.n) <= used {
        SubsetSize(Ids(cfg.n), used);
        assert false;
      }
      var l :| l in Ids(cfg.n) && l !in used;
      order := SomeQuorum(cfg, first + [l]);
    }
  }

  // ---- They are calls that a node makes ----

  lemma AckedInClocked(cfg: Config, order: seq<nat>, p: Payload)
    requires ClockedCall(cfg, Call(p.sender, p)) && forall l :: l in order ==> l in Ids(cfg.n)
    ensures forall c :: c in AckedIn(order, p) ==>
      ClockedCall(cfg, c) && c.payload.Id() == p.Id() && c.payload.clock == p.clock
  {
    forall c | c in AckedIn(order, p)
      ensures ClockedCall(cfg, c) && c.payload.Id() == p.Id() && c.payload.clock == p.clock
    {
      InAckedIn(order, p, c);
    }
  }

  lemma AckingClocked(cfg: Config, p: Payload, op: seq<nat>, t: Payload, ot: seq<nat>)
    requires ClockedCall(cfg, Call(p.sender, p)) && ClockedCall(cfg, Call(t.sender, t)) && p.Id() != t.Id()
    requires forall l :: l in op || l in ot ==> l in Ids(cfg.n)
    ensures Clocked(cfg, Acking(p, op, t, ot))
  {
    hide ClockedCall, AckedIn;
    AckedInClocked(cfg, op, p);
    AckedInClocked(cfg, ot, t);
  }

  /** After `z` has marked a packet seen it may receive it from any others. */
  lemma {:induction false} MoreAcksMade(cfg: Config, z: nat, before: seq<Call>, order: seq<nat>, p: Payload)
    requires MadeAt(cfg, z, before) && SeenIn(before, z, p.Id()) && z !in order
    ensures MadeAt(cfg, z, before + AckedIn(order, p))
    decreases |order|
  {
    if order == [] {
      assert before + AckedIn(order, p) == before;
    } else {
      var init := order[..|order| - 1];
      MoreAcksMade(cfg, z, before, init, p);
      AckedInLast(order, p);
      AckMade(cfg, z, before + AckedIn(init, p), order[|order| - 1], p);
      assert before + AckedIn(order, p) ==
        (before + AckedIn(init, p)) + [Call(order[|order| - 1], p.(sender := order[|order| - 1]))];
    }
  }

  lemma AckMade(cfg: Config, z: nat, before: seq<Call>, l: nat, p: Payload)
    requires MadeAt(cfg, z, before) && SeenIn(before, z, p.Id()) && l != z
    ensures MadeAt(cfg, z, before + [Call(l, p.(sender := l))])
  {
    var calls := before + [Call(l, p.(sender := l))];
    assert calls[..|calls| - 1] == before;
    assert EndsInAck(z, calls);
  }

  lemma NewsMade(cfg: Config, z: nat, before: seq<Call>, l: nat, p: Payload)
    requires MadeAt(cfg, z, before) && p.owner != z && l != z && !SeenIn(before, z, p.Id())
    ensures var calls := before + [Call(l, p.(sender := l)), Call(z, p.(sender := z))];
      MadeAt(cfg, z, calls) && SeenIn(calls, z, p.Id())
  {
    var own := Call(z, p.(sender := z));
    var calls := before + [Call(l, p.(sender := l)), own];
    assert calls[..|calls| - 2] == before;
    assert EndsInNews(z, calls);
    assert own in calls;
  }

  lemma BroadcastMade(cfg: Config, z: nat, before: seq<Call>, p: Payload)
    requires MadeAt(cfg, z, before) && p.owner == z
    requires p.packet == OwnIn(before, z) + 1 && p.clock == InsertsPruned(cfg, before).clock
    ensures var calls := before + [Call(z, p.(sender := z))];
      MadeAt(cfg, z, calls) && SeenIn(calls, z, p.Id())
  {
    hide InsertsPruned, OwnIn;
    var own := Call(z, p.(sender := z));
    var calls := before + [own];
    assert calls[..|calls| - 1] == before;
    assert EndsInBroadcast(cfg, z, calls);
    assert own in calls;
  }

  lemma AckedInSplit(before: seq<Call>, order: seq<nat>, p: Payload, x: nat)
    requires x <= |order|
    ensures before + AckedIn(order, p) == before + AckedIn(order[..x], p) + AckedIn(order[x..], p)
  {
  }

  /** A packet of another node, received first from `order[0]` and so acked next by `z`, then from others. */
  lemma ForeignMade(cfg: Config, z: nat, before: seq<Call>, order: seq<nat>, p: Payload)
    requires MadeAt(cfg, z, before) && p.owner != z && !SeenIn(before, z, p.Id())
    requires |order| >= 2 && order[1] == z && Distinct(order)
    ensures MadeAt(cfg, z, before + AckedIn(order, p))
  {
    hide MadeAt, SeenIn;
    NewsMade(cfg, z, before, order[0], p);
    AckedInSplit(before, order, p, 2);
    assert AckedIn(order[..2], p) == [Call(order[0], p.(sender := order[0])), Call(z, p.(sender := z))];
    hide AckedIn;
    MoreAcksMade(cfg, z, before + AckedIn(order[..2], p), order[2..], p);
  }

  /** A packet of `z` itself, acked first by `z` and then by others. */
  lemma OwnMade(cfg: Config, z: nat, before: seq<Call>, order: seq<nat>, p: Payload)
    requires MadeAt(cfg, z, before) && p.owner == z && order != [] && order[0] == z && Distinct(order)
    requires p.packet == OwnIn(before, z) + 1 && p.clock == InsertsPruned(cfg, before).clock
    ensures MadeAt(cfg, z, before + AckedIn(order, p))
  {
    hide MadeAt, SeenIn, InsertsPruned, OwnIn;
    BroadcastMade(cfg, z, before, p);
    AckedInSplit(before, order, p, 1);
    assert AckedIn(order[..1], p) == [Call(z, p.(sender := z))];
    hide AckedIn;
    MoreAcksMade(cfg, z, before + AckedIn(order[..1], p), order[1..], p);
  }

  /** Acks of a packet of another node are no broadcasts and say nothing of other packets. */
  lemma {:induction false} ForeignOnly(z: nat, order: seq<nat>, p: Payload)
    requires p.owner != z
    ensures OwnIn(AckedIn(order, p), z) == 0
    ensures forall k :: k != p.Id() ==> !SeenIn(AckedIn(order, p), z, k)
    decreases |order|
  {
    if order != [] {
      AckedInLast(order, p);
      var calls := AckedIn(order, p);
      assert calls[..|calls| - 1] == AckedIn(order[..|order| - 1], p);
      ForeignOnly(z, order[..|order| - 1], p);
    }
    forall c | c in AckedIn(order, p)
      ensures c.payload.Id() == p.Id()
    {
      InAckedIn(order, p, c);
    }
  }

  // ---- What they can queue ----

  lemma {:induction false} InsertsPrunedAck(cfg: Config, calls: seq<Call>)
    requires InRange(cfg)
    ensures InsertsPruned(cfg, calls).acked == Acks(calls)
  {
    if calls != [] {
      hide PrunedInv;
      var init, last := calls[..|calls| - 1], calls[|calls| - 1];
      InsertsPrunedAck(cfg, init);
      InsertsPrunedInv(cfg, init);
      InsertPrunedInv(cfg, InsertsPruned(cfg, init), last.sender, last.payload);
      assert calls == init + [last];
    }
  }

  /** While nothing is queued every frontier is 1, the clock is 0, and the counters count the ackers. */
  lemma NothingQueued(cfg: Config, s: Pruned)
    requires PrunedInv(cfg, s) && s.queue == []
    ensures forall o: nat :: o <= cfg.n ==> UpTo(s, o) == 1
    ensures forall e :: At(s.clock, e) == 0
    ensures forall k: Key :: k.owner <= cfg.n && 1 <= k.packet ==> CountOf(s, k) == |Senders(s.acked, k)|
  {
    hide Forgotten, Stored, QueueSound, FifoLog;
    assert Handed(s.queue) == [];
  }

  lemma {:induction false} DrainAllIdle(cfg: Config, s: Pruned, clock: seq<nat>, nodes: seq<nat>)
    requires forall b :: b in nodes ==> !CanLcb(cfg, s, clock, b)
    ensures DrainAll(cfg, s, clock, nodes) == s
    decreases |nodes|
  {
    hide CanLcb;
    if nodes != [] {
      assert nodes[0] in nodes && forall b :: b in nodes[1..] ==> b in nodes;
      assert Drain(cfg, s, clock, nodes[0]) == s;
      DrainAllIdle(cfg, s, clock, nodes[1..]);
    }
  }

  /** The state in which the loops of the last call start. */
  function LastReceived(cfg: Config, calls: seq<Call>): Pruned
    requires calls != []
  {
    var last := calls[|calls| - 1];
    Received(cfg, InsertsPruned(cfg, calls[..|calls| - 1]), last.sender, last.payload)
  }

  /** A call records its ack and then, if its packet is next, runs the loops. */
  lemma LastCall(cfg: Config, calls: seq<Call>)
    requires InRange(cfg) && calls != []
    ensures var u, p := LastReceived(cfg, calls), calls[|calls| - 1].payload;
      && PrunedInv(cfg, u) && u.acked == Acks(calls)
      && u.queue == InsertsPruned(cfg, calls[..|calls| - 1]).queue
      && u.upTo == InsertsPruned(cfg, calls[..|calls| - 1]).upTo
      && u.clock == InsertsPruned(cfg, calls[..|calls| - 1]).clock
      && InsertsPruned(cfg, calls) ==
           if p.packet == UpTo(u, p.owner) then DrainAll(cfg, u, p.clock, cfg.Dependencies(p.owner)) else u
  {
    hide PrunedInv, Senders;
    var init, last := calls[..|calls| - 1], calls[|calls| - 1];
    var s := InsertsPruned(cfg, init);
    InsertsPrunedInv(cfg, init);
    InsertsPrunedAck(cfg, init);
    ReceivedInv(cfg, s, last.sender, last.payload);
    assert calls == init + [last];
    assert LastReceived(cfg, calls).acked == Acks(calls);
    hide Counted, Copy, DrainAll, Acks;
  }

  /** The clock asks for no packet of a dependency of `b`. */
  ghost predicate AsksNothing(cfg: Config, clock: seq<nat>, b: nat)
  {
    forall d :: d in cfg.Dependencies(b) ==> At(clock, d) == 0
  }

  /** While nothing is queued only the ackers and the clock decide whether a node's first packet may be. */
  lemma FirstCan(cfg: Config, u: Pruned, calls: seq<Call>, clock: seq<nat>, b: nat)
    requires PrunedInv(cfg, u) && u.queue == [] && u.acked == Acks(calls) && b <= cfg.n
    ensures CanLcb(cfg, u, clock, b) <==>
      |Ackers(calls, Key(b, 1))| >= Majority(cfg.n) && AsksNothing(cfg, clock, b)
  {
    hide PrunedInv;
    NothingQueued(cfg, u);
  }

  /** Acks of `p` never queue `p`, and acks of `t`, a first packet, neither `t` nor `p`. */
  ghost predicate Powerless(cfg: Config, p: Payload, op: seq<nat>, t: Payload, ot: seq<nat>)
  {
    && p.Id() != t.Id() && p.owner <= cfg.n && t.owner <= cfg.n && 1 <= p.packet
    && (p.packet == 1 && p.owner in cfg.Dependencies(p.owner) ==>
          |op| < Majority(cfg.n) || !AsksNothing(cfg, p.clock, p.owner))
    && (ot != [] ==>
          && t.packet == 1
          && (t.owner in cfg.Dependencies(t.owner) ==> |ot| < Majority(cfg.n))
          && (p.packet == 1 && p.owner in cfg.Dependencies(t.owner) ==> !AsksNothing(cfg, t.clock, p.owner)))
  }

  lemma NoneCan(cfg: Config, p: Payload, op: seq<nat>, t: Payload, ot: seq<nat>, u: Pruned, b: nat)
    requires Powerless(cfg, p, op, t, ot) && PrunedInv(cfg, u) && u.queue == [] && b <= cfg.n
    requires u.acked == Acks(Acking(p, op, t, ot))
    requires var c := if ot != [] then t else p; c.packet == 1 && b in cfg.Dependencies(c.owner)
    ensures !CanLcb(cfg, u, if ot != [] then t.clock else p.clock, b)
  {
    hide PrunedInv, Acking, Acks, CanLcb, AsksNothing;
    AckingCounts(p, op, t, ot, Key(b, 1));
    FirstCan(cfg, u, Acking(p, op, t, ot), if ot != [] then t.clock else p.clock, b);
  }

  /** So nothing is queued. */
  lemma {:induction false} StaysIdle(cfg: Config, p: Payload, op: seq<nat>, t: Payload, ot: seq<nat>)
    requires InRange(cfg) && Powerless(cfg, p, op, t, ot)
    ensures InsertsPruned(cfg, Acking(p, op, t, ot)).queue == []
    decreases |op| + |ot|
  {
    hide InsertsPruned, Acking, PrunedInv, Acks, CanLcb, LastReceived, AsksNothing;
    var calls := Acking(p, op, t, ot);
    AckingInit(p, op, t, ot);
    if op == [] && ot == [] {
      NoCalls(cfg);
    } else {
      if ot != [] {
        StaysIdle(cfg, p, op, t, ot[..|ot| - 1]);
      } else {
        StaysIdle(cfg, p, op[..|op| - 1], t, []);
      }
      LastCall(cfg, calls);
      var u, c := LastReceived(cfg, calls), if ot != [] then t else p;
      NothingQueued(cfg, u);
      if c.packet == 1 {
        forall b | b in cfg.Dependencies(c.owner)
          ensures !CanLcb(cfg, u, c.clock, b)
        {
          NoneCan(cfg, p, op, t, ot, u, b);
        }
        DrainAllIdle(cfg, u, c.clock, cfg.Dependencies(c.owner));
      }
    }
  }

  lemma NoCalls(cfg: Config)
    ensures InsertsPruned(cfg, []).queue == []
  {
  }

  lemma AckingInit(p: Payload, op: seq<nat>, t: Payload, ot: seq<nat>)
    ensures var calls := Acking(p, op, t, ot);
      if op == [] && ot == [] then
        calls == []
      else
        && calls != []
        && calls[|calls| - 1].payload.(sender := 0) == (if ot != [] then t else p).(sender := 0)
        && calls[..|calls| - 1] ==
             if ot != [] then Acking(p, op, t, ot[..|ot| - 1]) else Acking(p, op[..|op| - 1], t, [])
  {
    var calls := Acking(p, op, t, ot);
    if ot != [] {
      AckedInLast(ot, t);
    } else if op != [] {
      AckedInLast(op, p);
      assert calls == AckedIn(op, p);
      assert Acking(p, op[..|op| - 1], t, []) == AckedIn(op[..|op| - 1], p);
    }
  }

  /** Then the last call, of a first packet, starts with everything acked and nothing queued. */
  lemma LastOfIdle(cfg: Config, p: Payload, op: seq<nat>, t: Payload, ot: seq<nat>)
    requires InRange(cfg) && ot != [] && Powerless(cfg, p, op, t, ot[..|ot| - 1]) && t.packet == 1
    ensures var calls := Acking(p, op, t, ot);
      && calls != []
      && PrunedInv(cfg, LastReceived(cfg, calls)) && LastReceived(cfg, calls).queue == []
      && LastReceived(cfg, calls).acked == Acks(calls)
      && InsertsPruned(cfg, calls) == DrainAll(cfg, LastReceived(cfg, calls), t.clock, cfg.Dependencies(t.owner))
  {
    hide InsertsPruned, Acking, PrunedInv, Acks, LastReceived, AsksNothing;
    AckingInit(p, op, t, ot);
    StaysIdle(cfg, p, op, t, ot[..|ot| - 1]);
    LastCall(cfg, Acking(p, op, t, ot));
    NothingQueued(cfg, LastReceived(cfg, Acking(p, op, t, ot)));
  }

  // ---- And node `z` makes them ----

  /** `order` starts with the nodes from which `z` hears first: `z` itself, or the sender and then `z`. */
  predicate StartsAt(z: nat, p: Payload, order: seq<nat>)
  {
    Distinct(order) && if p.owner == z then order != [] && order[0] == z else |order| >= 2 && order[1] == z
  }

  /** Acks of a packet of another node and then of any first packet are calls of `z`, if they start with it and, where
      `z` stamps the second packet, nothing is queued before. */
  lemma AckingMade(cfg: Config, z: nat, p: Payload, op: seq<nat>, t: Payload, ot: seq<nat>)
    requires InRange(cfg) && p.owner != z && t.packet == 1 && Powerless(cfg, p, op, t, [])
    requires StartsAt(z, p, op) && StartsAt(z, t, ot) && (t.owner == z ==> t.clock == Fresh(cfg.n).clock)
    ensures MadeAt(cfg, z, Acking(p, op, t, ot))
  {
    hide SeenIn, AckedIn, Powerless;
    assert MadeAt(cfg, z, []) && !SeenIn([], z, p.Id()) by { NothingMade(cfg, z, p.Id()); }
    DifferentPackets(cfg, p, op, t);
    ForeignMade(cfg, z, [], op, p);
    assert [] + AckedIn(op, p) == AckedIn(op, p);
    ForeignOnly(z, op, p);
    hide MadeAt;
    if t.owner == z {
      ClockStill(cfg, p, op, t);
      OwnMade(cfg, z, AckedIn(op, p), ot, t);
    } else {
      ForeignMade(cfg, z, AckedIn(op, p), ot, t);
    }
  }

  lemma DifferentPackets(cfg: Config, p: Payload, op: seq<nat>, t: Payload)
    requires Powerless(cfg, p, op, t, [])
    ensures p.Id() != t.Id()
  {
  }

  lemma NothingMade(cfg: Config, z: nat, k: Key)
    ensures MadeAt(cfg, z, []) && !SeenIn([], z, k) && OwnIn([], z) == 0
    ensures InsertsPruned(cfg, []).clock == Fresh(cfg.n).clock
  {
  }

  lemma ClockStill(cfg: Config, p: Payload, op: seq<nat>, t: Payload)
    requires InRange(cfg) && Powerless(cfg, p, op, t, [])
    ensures InsertsPruned(cfg, AckedIn(op, p)).clock == Fresh(cfg.n).clock
  {
    hide InsertsPruned, AckedIn, PrunedInv;
    StaysIdle(cfg, p, op, t, []);
    NoMore(p, op, t);
    InsertsPrunedInv(cfg, AckedIn(op, p));
    NothingQueued(cfg, InsertsPruned(cfg, AckedIn(op, p)));
    ZeroClock(cfg, InsertsPruned(cfg, AckedIn(op, p)));
  }

  lemma NoMore(p: Payload, op: seq<nat>, t: Payload)
    ensures Acking(p, op, t, []) == AckedIn(op, p)
  {
  }

  lemma ZeroClock(cfg: Config, s: Pruned)
    requires PrunedInv(cfg, s) && forall e :: At(s.clock, e) == 0
    ensures s.clock == Fresh(cfg.n).clock
  {
    hide Lean, QueueSound;
    assert forall e :: 0 <= e < |s.clock| ==> s.clock[e] == At(s.clock, e);
  }
}
