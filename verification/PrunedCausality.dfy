/** Localized causality and the C++ store. `insert` looks for deliverable packets of the nodes that the arriving
    packet's owner depends on, and tests the arriving packet's clock: exactly when its queue obeys the guard all
    the same. */
module PrunedCausality {
  import opened Basics
  import opened Messages
  import opened Store
  import opened StoreFacts
  import opened StoreSpec
  import opened PrunedStore
  import opened PrunedCalls
  import opened Refinement

  /** Each packet is queued only after as many packets of each of its owner's dependencies as its clock asks for. */
  ghost predicate QueueGuarded(cfg: Config, calls: seq<Call>)
  {
    var log := Handed(InsertsPruned(cfg, calls).queue);
    forall x: nat, c, d ::
      x < |log| && c in calls && c.payload.Id() == log[x].payload.Id() && d in cfg.Dependencies(c.payload.owner) ==>
        At(c.payload.clock, d) <= Count(log[..x], d)
  }

  /** A node that some node depends on, itself or another, depends on no other node than itself. */
  predicate ListedAlone(cfg: Config)
  {
    forall o | o in Ids(cfg.n) :: forall a | a in cfg.Dependencies(o) :: a in Ids(cfg.n) ==>
      forall d | d in cfg.Dependencies(a) :: d in Ids(cfg.n) ==> d == a
  }

  // ---- Then FIFO order is all that the guard asks for ----

  ghost predicate Listed(cfg: Config, a: nat)
  {
    exists o :: o in Ids(cfg.n) && a in cfg.Dependencies(o)
  }

  /** Only packets of listed nodes were queued. */
  ghost predicate QueueListed(cfg: Config, s: Pruned)
  {
    forall x :: 0 <= x < |QueueKeys(s.queue)| ==> Listed(cfg, QueueKeys(s.queue)[x].owner)
  }

  lemma DrainListed(cfg: Config, s: Pruned, clock: seq<nat>, a: nat)
    requires PrunedInv(cfg, s) && a <= cfg.n && Listed(cfg, a) && QueueListed(cfg, s)
    ensures QueueListed(cfg, Drain(cfg, s, clock, a))
  {
    hide PrunedInv, Listed, QueueKeys;
    DrainExtends(cfg, s, clock, a);
    var before, after := QueueKeys(s.queue), QueueKeys(Drain(cfg, s, clock, a).queue);
    forall x | 0 <= x < |after|
      ensures Listed(cfg, after[x].owner)
    {
      assert x < |before| ==> after[x] == before[x];
    }
  }

  lemma {:induction false} DrainAllListed(cfg: Config, s: Pruned, clock: seq<nat>, nodes: seq<nat>)
    requires PrunedInv(cfg, s) && QueueListed(cfg, s)
    requires forall a: nat :: a in nodes ==> a <= cfg.n && Listed(cfg, a)
    ensures QueueListed(cfg, DrainAll(cfg, s, clock, nodes))
    decreases |nodes|
  {
    hide PrunedInv, QueueListed, Listed;
    if nodes != [] {
      assert nodes[0] in nodes && forall a: nat :: a in nodes[1..] ==> a in nodes;
      DrainInv(cfg, s, clock, nodes[0]);
      DrainListed(cfg, s, clock, nodes[0]);
      DrainAllListed(cfg, Drain(cfg, s, clock, nodes[0]), clock, nodes[1..]);
    }
  }

  lemma CallListed(cfg: Config, s: Pruned, sender: nat, p: Payload)
    requires InRange(cfg) && PrunedInv(cfg, s) && QueueListed(cfg, s) && p.owner in Ids(cfg.n)
    ensures QueueListed(cfg, InsertPruned(cfg, s, sender, p))
  {
    hide PrunedInv, QueueListed;
    ReceivedListed(cfg, s, sender, p);
    ReceivedInv(cfg, s, sender, p);
    DependenciesListed(cfg, p.owner);
    DrainAllListed(cfg, Received(cfg, s, sender, p), p.clock, cfg.Dependencies(p.owner));
  }

  lemma DependenciesListed(cfg: Config, o: nat)
    requires InRange(cfg) && o in Ids(cfg.n)
    ensures forall a: nat :: a in cfg.Dependencies(o) ==> a <= cfg.n && Listed(cfg, a)
  {
  }

  lemma {:induction false} InsertsListed(cfg: Config, calls: seq<Call>)
    requires InRange(cfg) && Clocked(cfg, calls)
    ensures QueueListed(cfg, InsertsPruned(cfg, calls))
  {
    if calls != [] {
      hide PrunedInv, QueueListed, InsertPruned, InRange;
      var init, last := calls[..|calls| - 1], calls[|calls| - 1];
      assert last in calls && forall c :: c in init ==> c in calls;
      InsertsListed(cfg, init);
      InsertsPrunedInv(cfg, init);
      CallListed(cfg, InsertsPruned(cfg, init), last.sender, last.payload);
    }
  }

  lemma ReceivedListed(cfg: Config, s: Pruned, sender: nat, p: Payload)
    requires QueueListed(cfg, s)
    ensures QueueListed(cfg, Received(cfg, s, sender, p))
  {
    assert Received(cfg, s, sender, p).queue == s.queue;
  }

  lemma ListedAloneGuards(cfg: Config, calls: seq<Call>)
    requires InRange(cfg) && ListedAlone(cfg) && Clocked(cfg, calls)
    ensures QueueGuarded(cfg, calls)
  {
    var s := InsertsPruned(cfg, calls);
    var log := Handed(s.queue);
    InsertsPrunedInv(cfg, calls);
    InsertsListed(cfg, calls);
    hide Lean, QueueSound, InsertsPruned;
    assert forall c :: c in calls ==> ClockedCall(cfg, c);
    forall x: nat, c, d | x < |log| && c in calls && c.payload.Id() == log[x].payload.Id() &&
      d in cfg.Dependencies(c.payload.owner)
      ensures At(c.payload.clock, d) <= Count(log[..x], d)
    {
      assert QueueKeys(s.queue)[x] == c.payload.Id();
      assert Listed(cfg, c.payload.owner);
      assert d == c.payload.owner || d == 0;
    }
  }

  // ---- Otherwise some calls break the guard ----

  /** `t` makes the store look for packets of the owner of `p`, which waits for a packet of `d`; either `p`
      arrives at its turn already, or `t` is the packet before it. */
  ghost predicate Breaking(cfg: Config, p: Payload, t: Payload, d: nat)
  {
    && p.owner in Ids(cfg.n) && t.owner in Ids(cfg.n) && p.owner in cfg.Dependencies(t.owner)
    && d in cfg.Dependencies(p.owner) && d != p.owner && At(p.clock, d) == 1
    && t.packet == 1 && (forall e :: At(t.clock, e) == 0)
    && p.packet == if t.owner == p.owner then 2 else 1
  }

  lemma {:induction false} DrainGrows(cfg: Config, s: Pruned, clock: seq<nat>, a: nat)
    ensures s.queue <= Drain(cfg, s, clock, a).queue
    decreases |s.counter|
  {
    if CanLcb(cfg, s, clock, a) {
      DropKeySize(s.counter, Key(a, UpTo(s, a)));
      DrainGrows(cfg, QueueNext(s, a), clock, a);
    }
  }

  lemma {:induction false} DrainAllGrows(cfg: Config, s: Pruned, clock: seq<nat>, nodes: seq<nat>)
    ensures s.queue <= DrainAll(cfg, s, clock, nodes).queue
    decreases |nodes|
  {
    if nodes != [] {
      DrainGrows(cfg, s, clock, nodes[0]);
      DrainAllGrows(cfg, Drain(cfg, s, clock, nodes[0]), clock, nodes[1..]);
    }
  }

  /** If only packets of `a` can be queued, the queue starts with them. */
  lemma {:induction false} DrainAllComesTo(cfg: Config, s: Pruned, clock: seq<nat>, nodes: seq<nat>, a: nat)
    requires a in nodes && forall b :: b in nodes && b != a ==> !CanLcb(cfg, s, clock, b)
    ensures Drain(cfg, s, clock, a).queue <= DrainAll(cfg, s, clock, nodes).queue
    decreases |nodes|
  {
    hide CanLcb;
    if nodes[0] == a {
      DrainAllGrows(cfg, Drain(cfg, s, clock, a), clock, nodes[1..]);
    } else {
      assert nodes[0] in nodes && a in nodes[1..] && forall b :: b in nodes[1..] ==> b in nodes;
      assert Drain(cfg, s, clock, nodes[0]) == s;
      DrainAllComesTo(cfg, s, clock, nodes[1..], a);
    }
  }

  /** Enough nodes ack both packets that the last ack queues `p`. */
  ghost predicate BreakingOrders(cfg: Config, p: Payload, op: seq<nat>, t: Payload, ot: seq<nat>)
  {
    QuorumOrder(cfg, op) && if t.owner == p.owner then QuorumOrder(cfg, ot) else ot == [t.owner]
  }

  lemma BreakingIsPowerless(cfg: Config, p: Payload, op: seq<nat>, t: Payload, ot: seq<nat>, d: nat)
    requires Breaking(cfg, p, t, d) && BreakingOrders(cfg, p, op, t, ot)
    ensures ot != [] && Powerless(cfg, p, op, t, ot[..|ot| - 1])
  {
  }

  /** It does, although no packet of `d` was queued. */
  lemma LastAckBreaks(cfg: Config, p: Payload, op: seq<nat>, t: Payload, ot: seq<nat>, d: nat)
    requires InRange(cfg) && Breaking(cfg, p, t, d) && BreakingOrders(cfg, p, op, t, ot)
    ensures StartsWith(InsertsPruned(cfg, Acking(p, op, t, ot)).queue, p)
  {
    var calls := Acking(p, op, t, ot);
    BreakingIsPowerless(cfg, p, op, t, ot, d);
    hide InsertsPruned, Acking, PrunedInv, Acks, CanLcb, StartsWith, Powerless;
    LastOfIdle(cfg, p, op, t, ot);
    var u := LastReceived(cfg, calls);
    forall b | b in cfg.Dependencies(t.owner) && b != p.owner
      ensures !CanLcb(cfg, u, t.clock, b)
    {
      AckingCounts(p, op, t, ot, Key(b, 1));
      TwoNodes(cfg, p, t);
      FirstCan(cfg, u, calls, t.clock, b);
    }
    BothHaveMajority(cfg, p, op, t, ot, d, u);
    DrainQueues(cfg, u, p, t);
    DrainAllComesTo(cfg, u, t.clock, cfg.Dependencies(t.owner), p.owner);
    StillStartsWith(Drain(cfg, u, t.clock, p.owner).queue,
                    DrainAll(cfg, u, t.clock, cfg.Dependencies(t.owner)).queue, p);
  }

  lemma TwoNodes(cfg: Config, p: Payload, t: Payload)
    requires p.owner in Ids(cfg.n) && t.owner in Ids(cfg.n)
    ensures p.owner != t.owner ==> Majority(cfg.n) >= 2
  {
  }

  /** The queue holds the packets of the owner of `p` up to `p`, and before `p` nothing else. */
  ghost predicate StartsWith(queue: seq<Option<Payload>>, p: Payload)
  {
    var keys := QueueKeys(queue);
    && 1 <= p.packet <= |keys| && keys[p.packet - 1] == p.Id()
    && forall x :: 0 <= x < p.packet - 1 ==> keys[x].owner == p.owner
  }

  lemma StillStartsWith(queue: seq<Option<Payload>>, more: seq<Option<Payload>>, p: Payload)
    requires StartsWith(queue, p) && queue <= more
    ensures StartsWith(more, p)
  {
    assert forall x :: 0 <= x < |queue| ==> QueueKeys(more)[x] == QueueKeys(queue)[x];
  }

  lemma BothHaveMajority(cfg: Config, p: Payload, op: seq<nat>, t: Payload, ot: seq<nat>, d: nat, u: Pruned)
    requires Breaking(cfg, p, t, d) && BreakingOrders(cfg, p, op, t, ot) && PrunedInv(cfg, u) && u.queue == []
    requires u.acked == Acks(Acking(p, op, t, ot))
    ensures UpTo(u, p.owner) == 1 && CountOf(u, p.Id()) >= Majority(cfg.n)
    ensures p.packet == 2 ==> CountOf(u, Key(p.owner, 1)) >= Majority(cfg.n)
  {
    hide PrunedInv, Acking, Acks;
    NothingQueued(cfg, u);
    AckingCounts(p, op, t, ot, p.Id());
    AckingCounts(p, op, t, ot, t.Id());
  }

  lemma DrainQueues(cfg: Config, u: Pruned, p: Payload, t: Payload)
    requires PrunedInv(cfg, u) && u.queue == [] && p.owner <= cfg.n && UpTo(u, p.owner) == 1
    requires forall e :: At(t.clock, e) == 0
    requires CountOf(u, p.Id()) >= Majority(cfg.n)
    requires p.packet == 1 || (p.packet == 2 && CountOf(u, Key(p.owner, 1)) >= Majority(cfg.n))
    ensures StartsWith(Drain(cfg, u, t.clock, p.owner).queue, p)
  {
    assert QueueKeys(u.queue) == [];
    hide PrunedInv, StartsWith, QueueKeys, CountOf;
    var a := p.owner;
    var v := QueueNext(u, a);
    var first := if p.packet == 1 then p else t.(owner := a, packet := 1);
    assert first.Id() == Key(a, 1);
    DrainOne(cfg, u, t, a);
    hide QueueNext, Drain;
    StartsHere(v.queue, first);
    DrainGrows(cfg, v, t.clock, a);
    if p.packet == 1 {
      StillStartsWith(v.queue, Drain(cfg, u, t.clock, a).queue, p);
    } else {
      QueueNextInv(cfg, u, t.clock, a);
      DrainsSecond(cfg, v, p, t);
    }
  }

  lemma DrainsSecond(cfg: Config, v: Pruned, p: Payload, t: Payload)
    requires PrunedInv(cfg, v) && p.owner <= cfg.n && UpTo(v, p.owner) == 2 == p.packet
    requires QueueKeys(v.queue) == [Key(p.owner, 1)]
    requires forall e :: At(t.clock, e) == 0
    requires CountOf(v, p.Id()) >= Majority(cfg.n)
    ensures StartsWith(Drain(cfg, v, t.clock, p.owner).queue, p)
  {
    hide PrunedInv, StartsWith, QueueKeys, CountOf;
    DrainOne(cfg, v, t, p.owner);
    hide QueueNext, Drain;
    StartsHere(QueueNext(v, p.owner).queue, p);
    DrainGrows(cfg, QueueNext(v, p.owner), t.clock, p.owner);
    StillStartsWith(QueueNext(v, p.owner).queue, Drain(cfg, v, t.clock, p.owner).queue, p);
  }

  lemma StartsHere(queue: seq<Option<Payload>>, p: Payload)
    requires p.packet in {1, 2}
    requires QueueKeys(queue) == if p.packet == 1 then [p.Id()] else [Key(p.owner, 1), p.Id()]
    ensures StartsWith(queue, p)
  {
    hide QueueKeys;
  }

  /** One turn of the inner loop. */
  lemma DrainOne(cfg: Config, u: Pruned, t: Payload, a: nat)
    requires PrunedInv(cfg, u) && a <= cfg.n && CountOf(u, Key(a, UpTo(u, a))) >= Majority(cfg.n)
    requires forall e :: At(t.clock, e) == 0
    ensures CanLcb(cfg, u, t.clock, a) && Drain(cfg, u, t.clock, a) == Drain(cfg, QueueNext(u, a), t.clock, a)
    ensures QueueKeys(QueueNext(u, a).queue) == QueueKeys(u.queue) + [Key(a, UpTo(u, a))]
    ensures UpTo(QueueNext(u, a), a) == UpTo(u, a) + 1
    ensures forall k: Key :: k != Key(a, UpTo(u, a)) ==> CountOf(QueueNext(u, a), k) == CountOf(u, k)
  {
    hide InStep, QueueSound, Forgotten, Exact, QueueKeys;
    assert CanLcb(cfg, u, t.clock, a);
    var first := QueueNextQueues(u, a);
  }

  /** A node `z` that makes such calls: the owner of `t`, if it is another node, and else a node that the owner
      of both depends on. */
  lemma BreakingCalls(cfg: Config, o: nat, a: nat, d: nat)
    returns (z: nat, p: Payload, op: seq<nat>, t: Payload, ot: seq<nat>)
    requires InRange(cfg) && o in Ids(cfg.n) && a in cfg.Dependencies(o) && a in Ids(cfg.n)
    requires d in cfg.Dependencies(a) && d in Ids(cfg.n) && d != a
    ensures z in Ids(cfg.n) && Breaking(cfg, p, t, d) && BreakingOrders(cfg, p, op, t, ot)
    ensures Clocked(cfg, Acking(p, op, t, ot)) && MadeAt(cfg, z, Acking(p, op, t, ot))
  {
    hide MadeAt, Acking, Clocked, AckedIn;
    var zeros := Fresh(cfg.n).clock;
    t := Payload(o, o, 1, Lcb, false, zeros, "");
    p := Payload(a, a, if o == a then 2 else 1, Lcb, false, zeros[d := 1], "");
    z := if o == a then d else o;
    op := SomeQuorum(cfg, [a, z]);
    ot := if o == a then op else [o];
    assert op[0] == a && op[1] == z;
    AckingClocked(cfg, p, op, t, ot);
    assert !AsksNothing(cfg, p.clock, p.owner);
    AckingMade(cfg, z, p, op, t, ot);
  }

  lemma BreakingIsUnguarded(cfg: Config, p: Payload, op: seq<nat>, t: Payload, ot: seq<nat>, d: nat)
    requires InRange(cfg) && Breaking(cfg, p, t, d) && BreakingOrders(cfg, p, op, t, ot)
    ensures !QueueGuarded(cfg, Acking(p, op, t, ot))
  {
    hide InsertsPruned;
    var calls, c := Acking(p, op, t, ot), Call(op[0], p.(sender := op[0]));
    LastAckBreaks(cfg, p, op, t, ot, d);
    InAckedIn(op, p, c);
    assert c in calls;
    var log, x := Handed(InsertsPruned(cfg, calls).queue), p.packet - 1;
    assert QueueKeys(InsertsPruned(cfg, calls).queue)[x] == log[x].payload.Id();
    assert x == 1 ==> QueueKeys(InsertsPruned(cfg, calls).queue)[0] == log[0].payload.Id();
    assert Count(log[..x], d) == 0;
  }

  /** The C++ queue obeys the guard of localized causal order, for all calls in the order in which a node makes them,
      if and only if every node that is listed as a dependency depends at most on itself. */
  lemma GuardedIff(cfg: Config)
    requires InRange(cfg)
    ensures (forall z, calls :: z in Ids(cfg.n) && Clocked(cfg, calls) && MadeAt(cfg, z, calls) ==>
               QueueGuarded(cfg, calls)) <==> ListedAlone(cfg)
  {
    hide QueueGuarded, Clocked, MadeAt, Breaking, BreakingOrders, Acking;
    if ListedAlone(cfg) {
      forall calls | Clocked(cfg, calls)
        ensures QueueGuarded(cfg, calls)
      {
        ListedAloneGuards(cfg, calls);
      }
    } else {
      var o, a, d :| o in Ids(cfg.n) && a in cfg.Dependencies(o) && a in Ids(cfg.n) &&
        d in cfg.Dependencies(a) && d in Ids(cfg.n) && d != a;
      var z, p, op, t, ot := BreakingCalls(cfg, o, a, d);
      BreakingIsUnguarded(cfg, p, op, t, ot, d);
    }
  }

  /** For example, of three nodes where 2 depends on 1, and 3 on 2: node 3 receives packet 1 of node 2, which node 2
      broadcast after a delivery from node 1, and marks it seen. It waits, until node 3 broadcasts a packet of its
      own: that queues it, although nothing of node 1 was queued. */
  lemma BreaksForThreeNodes()
    ensures var cfg := Config(3, Lcb, 1, map[1 := [1], 2 := [2, 1], 3 := [3, 2]], map[], map[]);
      var p, t := Payload(2, 2, 1, Lcb, false, [0, 1, 0, 0], "1"), Payload(3, 3, 1, Lcb, false, [0, 0, 0, 0], "1");
      var calls := [Call(2, p), Call(3, p.(sender := 3)), Call(3, t)];
      var queue := InsertsPruned(cfg, calls).queue;
      && Clocked(cfg, calls) && MadeAt(cfg, 3, calls)
      && 1 in cfg.Dependencies(2) && At(p.clock, 1) == 1 && queue != [] && QueueKeys(queue)[0] == p.Id()
  {
    var cfg := Config(3, Lcb, 1, map[1 := [1], 2 := [2, 1], 3 := [3, 2]], map[], map[]);
    var p, t := Payload(2, 2, 1, Lcb, false, [0, 1, 0, 0], "1"), Payload(3, 3, 1, Lcb, false, [0, 0, 0, 0], "1");
    assert Acking(p, [2, 3], t, [3]) == [Call(2, p), Call(3, p.(sender := 3)), Call(3, t)];
    hide InsertsPruned, MadeAt, Clocked, Acking;
    assert Fresh(3).clock == [0, 0, 0, 0];
    assert 1 in cfg.Dependencies(2);
    AckingClocked(cfg, p, [2, 3], t, [3]);
    assert !AsksNothing(cfg, p.clock, 2);
    AckingMade(cfg, 3, p, [2, 3], t, [3]);
    LastAckBreaks(cfg, p, [2, 3], t, [3], 1);
  }
}
