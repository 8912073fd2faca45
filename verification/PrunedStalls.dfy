/** When the C++ store leaves a deliverable packet behind, for all calls in the order in which a node makes them. */
module PrunedStalls {
  import opened Basics
  import opened Messages
  import opened Store
  import opened StoreFacts
  import opened StoreSpec
  import opened PrunedStore
  import opened PrunedCalls
  import opened PrunedCausality

  /** `p` is the next packet of its owner, has a majority of ackers, and its clock is met. */
  predicate Due(cfg: Config, s: Pruned, p: Payload)
  {
    p.packet == UpTo(s, p.owner) && CountOf(s, p.Id()) >= Majority(cfg.n) && ClockMet(cfg, s, p.clock, p.owner)
  }

  /** No packet that is due is left. */
  ghost predicate NothingDue(cfg: Config, calls: seq<Call>)
  {
    forall c :: c in calls ==> !Due(cfg, InsertsPruned(cfg, calls), c.payload)
  }

  /** The same nodes of the system are dependencies of `o` and of `d`. */
  predicate SameDependencies(cfg: Config, o: nat, d: nat)
  {
    forall e | e in Ids(cfg.n) :: e in cfg.Dependencies(o) <==> e in cfg.Dependencies(d)
  }

  /** The nodes fall into classes: a node depends on those of its own class, itself included, and on no others. */
  predicate Classes(cfg: Config)
  {
    forall o | o in Ids(cfg.n) ::
      && o in cfg.Dependencies(o)
      && forall d | d in cfg.Dependencies(o) :: d in Ids(cfg.n) ==> SameDependencies(cfg, o, d)
  }

  // ---- What the loops leave alone, and what they use up ----

  lemma {:induction false} DrainTouches(cfg: Config, s: Pruned, clock: seq<nat>, a: nat)
    ensures var t := Drain(cfg, s, clock, a);
      && !CanLcb(cfg, t, clock, a)
      && (forall e :: At(t.clock, e) >= At(s.clock, e))
      && (forall e :: e != a ==> At(t.clock, e) == At(s.clock, e))
      && (forall b :: b != a ==> UpTo(t, b) == UpTo(s, b))
      && (forall k: Key :: k.owner != a ==> CountOf(t, k) == CountOf(s, k))
    decreases |s.counter|
  {
    if CanLcb(cfg, s, clock, a) {
      DropKeySize(s.counter, Key(a, UpTo(s, a)));
      QueueNextTouches(s, a);
      hide QueueNext, CanLcb;
      DrainTouches(cfg, QueueNext(s, a), clock, a);
    }
  }

  lemma QueueNextTouches(s: Pruned, a: nat)
    ensures var t := QueueNext(s, a);
      && (forall e :: At(t.clock, e) >= At(s.clock, e))
      && (forall e :: e != a ==> At(t.clock, e) == At(s.clock, e))
      && (forall b :: b != a ==> UpTo(t, b) == UpTo(s, b))
      && (forall k: Key :: k.owner != a ==> CountOf(t, k) == CountOf(s, k))
  {
  }

  lemma {:induction false} DrainAllTouches(cfg: Config, s: Pruned, clock: seq<nat>, nodes: seq<nat>)
    ensures var t := DrainAll(cfg, s, clock, nodes);
      && (forall e :: At(t.clock, e) >= At(s.clock, e))
      && (forall e :: e !in nodes ==> At(t.clock, e) == At(s.clock, e))
      && (forall b :: b !in nodes ==> UpTo(t, b) == UpTo(s, b))
      && (forall k: Key :: k.owner !in nodes ==> CountOf(t, k) == CountOf(s, k))
    decreases |nodes|
  {
    if nodes != [] {
      hide CanLcb, Drain;
      DrainTouches(cfg, s, clock, nodes[0]);
      DrainAllTouches(cfg, Drain(cfg, s, clock, nodes[0]), clock, nodes[1..]);
      assert forall b :: b in nodes <==> b == nodes[0] || b in nodes[1..];
    }
  }

  lemma MetStays(cfg: Config, s: Pruned, t: Pruned, clock: seq<nat>, b: nat)
    requires ClockMet(cfg, s, clock, b) && forall e :: At(t.clock, e) >= At(s.clock, e)
    ensures ClockMet(cfg, t, clock, b)
  {
    forall d | d in cfg.Dependencies(b)
      ensures At(t.clock, d) >= At(clock, d)
    {
      assert At(s.clock, d) >= At(clock, d);
    }
  }

  /** A listed node for which the arriving clock is met has no packet with a majority at its frontier afterwards. */
  lemma {:induction false} DrainAllSpends(cfg: Config, s: Pruned, clock: seq<nat>, nodes: seq<nat>, b: nat)
    requires b in nodes && ClockMet(cfg, s, clock, b)
    ensures var t := DrainAll(cfg, s, clock, nodes); !CanUrb(cfg, t, Key(b, UpTo(t, b)))
    decreases |nodes|
  {
    var v := Drain(cfg, s, clock, nodes[0]);
    DrainTouches(cfg, s, clock, nodes[0]);
    MetStays(cfg, s, v, clock, b);
    hide ClockMet, Drain;
    if b in nodes[1..] {
      DrainAllSpends(cfg, v, clock, nodes[1..], b);
    } else {
      DrainAllTouches(cfg, v, clock, nodes[1..]);
    }
  }

  /** A node that is not listed, or whose dependency `e` is not listed and not met, keeps its frontier. */
  lemma {:induction false} DrainAllSpares(cfg: Config, s: Pruned, clock: seq<nat>, nodes: seq<nat>, o: nat, e: nat)
    requires o !in nodes || (e !in nodes && e in cfg.Dependencies(o) && At(s.clock, e) < At(clock, e))
    ensures UpTo(DrainAll(cfg, s, clock, nodes), o) == UpTo(s, o)
    decreases |nodes|
  {
    if nodes != [] {
      assert nodes[0] in nodes && forall b :: b in nodes[1..] ==> b in nodes;
      DrainTouches(cfg, s, clock, nodes[0]);
      assert nodes[0] == o ==> !ClockMet(cfg, s, clock, o);
      DrainAllSpares(cfg, Drain(cfg, s, clock, nodes[0]), clock, nodes[1..], o, e);
    }
  }

  // ---- Where the nodes fall into classes nothing is left ----

  lemma ReceivedOther(cfg: Config, s: Pruned, sender: nat, p: Payload, k: Key)
    requires k != p.Id()
    ensures CountOf(Received(cfg, s, sender, p), k) == CountOf(s, k)
  {
  }

  /** The last call makes no other packet due before the loops run. */
  lemma OthersNotDue(cfg: Config, calls: seq<Call>, c: Call)
    requires InRange(cfg) && calls != [] && NothingDue(cfg, calls[..|calls| - 1])
    requires c in calls && c.payload.Id() != calls[|calls| - 1].payload.Id()
    ensures !Due(cfg, LastReceived(cfg, calls), c.payload)
  {
    hide InsertsPruned, PrunedInv;
    var init, last := calls[..|calls| - 1], calls[|calls| - 1];
    assert calls == init + [last];
    assert !Due(cfg, InsertsPruned(cfg, init), c.payload);
    LastCall(cfg, calls);
    ReceivedOther(cfg, InsertsPruned(cfg, init), last.sender, last.payload, c.payload.Id());
  }

  /** Only packets of the system's nodes are acked. */
  lemma AckedIsKnown(cfg: Config, calls: seq<Call>, l: nat, k: Key)
    requires Clocked(cfg, calls) && l in Ackers(calls, k)
    ensures k.owner in Ids(cfg.n)
  {
    SenderIsThere(Acks(calls), l, k);
    var c :| c in calls && Ack(c.sender, c.payload.Id()) == Ack(l, k);
    assert ClockedCall(cfg, c);
  }

  lemma NodeZero(cfg: Config, u: Pruned, calls: seq<Call>)
    requires Clocked(cfg, calls) && PrunedInv(cfg, u) && u.acked == Acks(calls)
    ensures !CanUrb(cfg, u, Key(0, UpTo(u, 0)))
  {
    var k := Key(0, UpTo(u, 0));
    hide Clocked, Acks;
    forall l: nat
      ensures l !in Ackers(calls, k)
    {
      if l in Ackers(calls, k) {
        AckedIsKnown(cfg, calls, l, k);
        assert false;
      }
    }
    assert Ackers(calls, k) == {};
  }

  /** The clock of a packet is met for all of its class or for none. */
  lemma ClassIsMet(cfg: Config, s: Pruned, clock: seq<nat>, o: nat, b: nat)
    requires InRange(cfg) && Classes(cfg) && At(clock, 0) == 0 && o in Ids(cfg.n) && b in Ids(cfg.n)
    requires b in cfg.Dependencies(o)
    ensures ClockMet(cfg, s, clock, o) <==> ClockMet(cfg, s, clock, b)
  {
    assert SameDependencies(cfg, o, b);
    forall d | d in cfg.Dependencies(o) || d in cfg.Dependencies(b)
      ensures d == 0 || (d in cfg.Dependencies(o) && d in cfg.Dependencies(b))
    {
      assert d <= cfg.n;
      assert d != 0 ==> d in Ids(cfg.n);
    }
  }

  /** If the arriving packet's clock is not met, its class gets nothing. */
  lemma UnmetIsIdle(cfg: Config, u: Pruned, calls: seq<Call>, p: Payload)
    requires InRange(cfg) && Classes(cfg) && Clocked(cfg, calls) && PrunedInv(cfg, u) && u.acked == Acks(calls)
    requires At(p.clock, 0) == 0 && p.owner in Ids(cfg.n) && !ClockMet(cfg, u, p.clock, p.owner)
    ensures DrainAll(cfg, u, p.clock, cfg.Dependencies(p.owner)) == u
  {
    hide Classes, ClockMet, PrunedInv, Clocked;
    forall b | b in cfg.Dependencies(p.owner)
      ensures !CanLcb(cfg, u, p.clock, b)
    {
      assert b <= cfg.n;
      if b == 0 {
        NodeZero(cfg, u, calls);
      } else {
        ClassIsMet(cfg, u, p.clock, p.owner, b);
      }
    }
    DrainAllIdle(cfg, u, p.clock, cfg.Dependencies(p.owner));
  }

  /** If it is met, nothing of its class is due afterwards, and other classes do not notice. */
  lemma MetSpends(cfg: Config, u: Pruned, p: Payload, c: Payload)
    requires InRange(cfg) && Classes(cfg) && At(p.clock, 0) == 0 && p.owner in Ids(cfg.n)
    requires ClockMet(cfg, u, p.clock, p.owner)
    requires At(c.clock, 0) == 0 && c.owner in Ids(cfg.n) && (c.Id() != p.Id() ==> !Due(cfg, u, c))
    ensures !Due(cfg, DrainAll(cfg, u, p.clock, cfg.Dependencies(p.owner)), c)
  {
    hide Classes, DrainAll, Drain, ClockMet;
    var nodes := cfg.Dependencies(p.owner);
    var t := DrainAll(cfg, u, p.clock, nodes);
    if c.owner in nodes {
      ClassIsMet(cfg, u, p.clock, p.owner, c.owner);
      DrainAllSpends(cfg, u, p.clock, nodes, c.owner);
    } else {
      DrainAllTouches(cfg, u, p.clock, nodes);
      OtherClassMet(cfg, u, t, c.clock, p.owner, c.owner);
      OwnClass(cfg, p.owner);
    }
  }

  lemma OwnClass(cfg: Config, o: nat)
    requires Classes(cfg) && o in Ids(cfg.n)
    ensures o in cfg.Dependencies(o)
  {
  }

  /** A node outside a class depends on none of it. */
  lemma OtherClass(cfg: Config, o: nat, a: nat, d: nat)
    requires Classes(cfg) && o in Ids(cfg.n) && a in Ids(cfg.n) && d in Ids(cfg.n)
    requires a !in cfg.Dependencies(o) && d in cfg.Dependencies(a)
    ensures d !in cfg.Dependencies(o)
  {
    assert a in cfg.Dependencies(a) && SameDependencies(cfg, a, d);
    assert d in cfg.Dependencies(o) ==> SameDependencies(cfg, o, d);
  }

  lemma OtherClassMet(cfg: Config, u: Pruned, t: Pruned, clock: seq<nat>, o: nat, a: nat)
    requires InRange(cfg) && Classes(cfg) && o in Ids(cfg.n) && a in Ids(cfg.n) && a !in cfg.Dependencies(o)
    requires At(clock, 0) == 0 && forall e :: e !in cfg.Dependencies(o) ==> At(t.clock, e) == At(u.clock, e)
    ensures ClockMet(cfg, t, clock, a) ==> ClockMet(cfg, u, clock, a)
  {
    hide Classes;
    forall d | d in cfg.Dependencies(a) && ClockMet(cfg, t, clock, a)
      ensures At(u.clock, d) >= At(clock, d)
    {
      assert At(t.clock, d) >= At(clock, d) && d <= cfg.n;
      if d != 0 {
        OtherClass(cfg, o, a, d);
      }
    }
  }

  lemma CallLeavesNothing(cfg: Config, calls: seq<Call>)
    requires InRange(cfg) && Classes(cfg) && Clocked(cfg, calls) && calls != []
    requires NothingDue(cfg, calls[..|calls| - 1])
    ensures NothingDue(cfg, calls)
  {
    hide InsertsPruned, PrunedInv, Classes, DrainAll, ClockMet;
    var last, u := calls[|calls| - 1], LastReceived(cfg, calls);
    var p := last.payload;
    LastCall(cfg, calls);
    hide LastReceived;
    assert last in calls && ClockedCall(cfg, last);
    forall c | c in calls
      ensures !Due(cfg, InsertsPruned(cfg, calls), c.payload)
    {
      assert ClockedCall(cfg, c);
      if c.payload.Id() != p.Id() {
        OthersNotDue(cfg, calls, c);
      }
      if p.packet == UpTo(u, p.owner) {
        if ClockMet(cfg, u, p.clock, p.owner) {
          MetSpends(cfg, u, p, c.payload);
        } else {
          UnmetIsIdle(cfg, u, calls, p);
        }
      }
    }
  }

  lemma {:induction false} ClassesLeaveNothing(cfg: Config, calls: seq<Call>)
    requires InRange(cfg) && Classes(cfg) && Clocked(cfg, calls)
    ensures NothingDue(cfg, calls)
  {
    if calls != [] {
      var init := calls[..|calls| - 1];
      assert forall c :: c in init ==> c in calls;
      assert Clocked(cfg, init);
      hide NothingDue, Classes, Clocked;
      ClassesLeaveNothing(cfg, init);
      CallLeavesNothing(cfg, calls);
    }
  }

  // ---- Elsewhere something can be ----

  /** `o` does not list itself: its first packet stays, although all nodes of a majority have acked it. */
  lemma UnlistedStays(cfg: Config, o: nat) returns (calls: seq<Call>)
    requires InRange(cfg) && o in Ids(cfg.n) && o !in cfg.Dependencies(o)
    ensures Clocked(cfg, calls) && MadeAt(cfg, o, calls) && !NothingDue(cfg, calls)
  {
    hide MadeAt, Acking, InsertsPruned, PrunedInv, AckedIn;
    var p := Payload(o, o, 1, Lcb, false, Fresh(cfg.n).clock, "");
    var t := p.(packet := 2);
    var order := SomeQuorum(cfg, [o]);
    assert order[0] == o;
    calls := AckedIn(order, p);
    NoMore(p, order, t);
    AckingClocked(cfg, p, order, t, []);
    NothingMade(cfg, o, p.Id());
    OwnMade(cfg, o, [], order, p);
    assert [] + calls == calls;
    StaysIdle(cfg, p, order, t, []);
    AckedIsCounted(cfg, p, order, t, []);
    InsertsPrunedInv(cfg, calls);
    NothingQueued(cfg, InsertsPruned(cfg, calls));
    SomeCall(order, p, t, []);
  }

  lemma SomeCall(order: seq<nat>, p: Payload, t: Payload, ot: seq<nat>)
    requires order != []
    ensures Call(order[0], p.(sender := order[0])) in Acking(p, order, t, ot)
  {
    InAckedIn(order, p, Call(order[0], p.(sender := order[0])));
  }

  /** A packet that stays at its frontier is counted exactly. */
  lemma AckedIsCounted(cfg: Config, p: Payload, op: seq<nat>, t: Payload, ot: seq<nat>)
    requires InRange(cfg) && p.Id() != t.Id() && Distinct(op) && Distinct(ot)
    ensures var s := InsertsPruned(cfg, Acking(p, op, t, ot));
      && (UpTo(s, p.owner) <= p.packet ==> CountOf(s, p.Id()) == |op|)
      && (UpTo(s, t.owner) <= t.packet ==> CountOf(s, t.Id()) == |ot|)
  {
    hide InsertsPruned, Acking, Acks, InStep, QueueSound;
    var calls := Acking(p, op, t, ot);
    InsertsPrunedInv(cfg, calls);
    InsertsPrunedAck(cfg, calls);
    AckingCounts(p, op, t, ot, p.Id());
    AckingCounts(p, op, t, ot, t.Id());
  }

  /** `p` waits for the first packet `t` of a dependency; the arrival of `t` does not lead to `p`: the owner of `p` is
      not listed there, or its dependency `e`, also not listed, is not met by the clock of `t`. */
  ghost predicate Stranding(cfg: Config, p: Payload, t: Payload, e: nat)
  {
    && p.owner in Ids(cfg.n) && t.owner in Ids(cfg.n) && p.owner != t.owner && p.packet == 1 && t.packet == 1
    && t.owner in cfg.Dependencies(p.owner) && t.owner in cfg.Dependencies(t.owner)
    && (forall d :: At(p.clock, d) == if d == t.owner then 1 else 0)
    && e !in cfg.Dependencies(t.owner)
    && (forall d :: d != e ==> At(t.clock, d) == 0)
    && (p.owner !in cfg.Dependencies(t.owner) || (e in cfg.Dependencies(p.owner) && At(t.clock, e) == 1))
  }

  lemma StrandingIsPowerless(cfg: Config, p: Payload, op: seq<nat>, t: Payload, ot: seq<nat>, e: nat)
    requires Stranding(cfg, p, t, e) && QuorumOrder(cfg, op) && QuorumOrder(cfg, ot)
    ensures ot != [] && Powerless(cfg, p, op, t, ot[..|ot| - 1]) && Powerless(cfg, p, op, t, [])
  {
  }

  /** The majority's last ack of `t` queues `t` and leaves the frontier of the owner of `p`. */
  lemma LastAckPasses(cfg: Config, p: Payload, op: seq<nat>, t: Payload, ot: seq<nat>, e: nat)
    requires InRange(cfg) && Stranding(cfg, p, t, e) && QuorumOrder(cfg, op) && QuorumOrder(cfg, ot)
    ensures var s := InsertsPruned(cfg, Acking(p, op, t, ot));
      UpTo(s, p.owner) == 1 && !CanUrb(cfg, s, Key(t.owner, UpTo(s, t.owner)))
  {
    var calls := Acking(p, op, t, ot);
    StrandingIsPowerless(cfg, p, op, t, ot, e);
    hide InsertsPruned, Acking, PrunedInv, Acks, Powerless, LastReceived, DrainAll, CanUrb, QuorumOrder;
    LastOfIdle(cfg, p, op, t, ot);
    var u := LastReceived(cfg, calls);
    NothingQueued(cfg, u);
    DrainAllSpares(cfg, u, t.clock, cfg.Dependencies(t.owner), p.owner, e);
    assert ClockMet(cfg, u, t.clock, t.owner);
    DrainAllSpends(cfg, u, t.clock, cfg.Dependencies(t.owner), t.owner);
  }

  /** So `p` is due. */
  lemma LastAckStrands(cfg: Config, p: Payload, op: seq<nat>, t: Payload, ot: seq<nat>, e: nat)
    requires InRange(cfg) && Stranding(cfg, p, t, e) && QuorumOrder(cfg, op) && QuorumOrder(cfg, ot)
    ensures Due(cfg, InsertsPruned(cfg, Acking(p, op, t, ot)), p)
  {
    hide InsertsPruned, Acking, PrunedInv, CanUrb, UpTo, CountOf;
    var s := InsertsPruned(cfg, Acking(p, op, t, ot));
    LastAckPasses(cfg, p, op, t, ot, e);
    AckedIsCounted(cfg, p, op, t, ot);
    InsertsPrunedInv(cfg, Acking(p, op, t, ot));
    SpentIsQueued(cfg, s, t);
  }

  lemma SpentIsQueued(cfg: Config, s: Pruned, t: Payload)
    requires PrunedInv(cfg, s) && t.owner in Ids(cfg.n) && t.packet == 1 && !CanUrb(cfg, s, Key(t.owner, UpTo(s, t.owner)))
    requires UpTo(s, t.owner) <= t.packet ==> CountOf(s, t.Id()) >= Majority(cfg.n)
    ensures At(s.clock, t.owner) >= 1
  {
    hide Lean, QueueSound, FifoLog;
  }

  lemma DependencyStrands(cfg: Config, o: nat, d: nat, e: nat) returns (z: nat, calls: seq<Call>)
    requires InRange(cfg) && o in Ids(cfg.n) && d in Ids(cfg.n) && e in Ids(cfg.n) && d != o && e != d
    requires d in cfg.Dependencies(o) && d in cfg.Dependencies(d)
    requires e in cfg.Dependencies(o) && e !in cfg.Dependencies(d)
    ensures z in Ids(cfg.n) && Clocked(cfg, calls) && MadeAt(cfg, z, calls) && !NothingDue(cfg, calls)
  {
    hide MadeAt, Acking, InsertsPruned, AckedIn;
    var zeros, mutual := Fresh(cfg.n).clock, o in cfg.Dependencies(d);
    var p := Payload(o, o, 1, Lcb, false, zeros[d := 1], "");
    var t := Payload(d, d, 1, Lcb, false, if mutual then zeros[e := 1] else zeros, "");
    z := if mutual then e else d;
    var op := SomeQuorum(cfg, [o, z]);
    var ot := SomeQuorum(cfg, if mutual then [d, z] else [d]);
    assert op[0] == o && op[1] == z && ot[0] == d && (mutual ==> ot[1] == z);
    calls := Acking(p, op, t, ot);
    assert Stranding(cfg, p, t, e);
    AckingClocked(cfg, p, op, t, ot);
    StrandingIsPowerless(cfg, p, op, t, ot, e);
    AckingMade(cfg, z, p, op, t, ot);
    LastAckStrands(cfg, p, op, t, ot, e);
    SomeCall(op, p, t, ot);
    assert Due(cfg, InsertsPruned(cfg, calls), p.(sender := op[0]));
  }

  /** The C++ store leaves nothing that is due, for all calls in the order in which a node makes them, if and only if
      the nodes fall into classes that depend on each other and on no others. */
  lemma NothingDueIff(cfg: Config)
    requires InRange(cfg)
    ensures (forall z, calls :: z in Ids(cfg.n) && Clocked(cfg, calls) && MadeAt(cfg, z, calls) ==>
               NothingDue(cfg, calls)) <==> Classes(cfg)
  {
    hide NothingDue, Clocked, MadeAt;
    if Classes(cfg) {
      forall calls | Clocked(cfg, calls)
        ensures NothingDue(cfg, calls)
      {
        ClassesLeaveNothing(cfg, calls);
      }
    } else if o :| o in Ids(cfg.n) && o !in cfg.Dependencies(o) {
      var calls := UnlistedStays(cfg, o);
    } else {
      var o, d, e :| o in Ids(cfg.n) && d in Ids(cfg.n) && e in Ids(cfg.n) && d in cfg.Dependencies(o) &&
        (e in cfg.Dependencies(o)) != (e in cfg.Dependencies(d));
      var z, calls := StrandsEitherWay(cfg, o, d, e);
    }
  }

  lemma StrandsEitherWay(cfg: Config, o: nat, d: nat, e: nat) returns (z: nat, calls: seq<Call>)
    requires InRange(cfg) && o in Ids(cfg.n) && d in Ids(cfg.n) && e in Ids(cfg.n) && d in cfg.Dependencies(o)
    requires (e in cfg.Dependencies(o)) != (e in cfg.Dependencies(d))
    requires forall a :: a in Ids(cfg.n) ==> a in cfg.Dependencies(a)
    ensures z in Ids(cfg.n) && Clocked(cfg, calls) && MadeAt(cfg, z, calls) && !NothingDue(cfg, calls)
  {
    hide NothingDue, Clocked, MadeAt;
    if e in cfg.Dependencies(o) {
      z, calls := DependencyStrands(cfg, o, d, e);
    } else if o in cfg.Dependencies(d) {
      z, calls := DependencyStrands(cfg, d, o, e);
    } else {
      z, calls := DependencyStrands(cfg, o, d, o);
    }
  }

  /** Each node depends on itself and on no other node of the system. */
  predicate AloneOnly(cfg: Config)
  {
    forall o | o in Ids(cfg.n) :: forall d | d in Ids(cfg.n) :: d in cfg.Dependencies(o) <==> d == o
  }

  lemma AloneOnlyIff(cfg: Config)
    ensures AloneOnly(cfg) <==> ListedAlone(cfg) && Classes(cfg)
  {
    if AloneOnly(cfg) {
      forall o, d | o in Ids(cfg.n) && d in cfg.Dependencies(o) && d in Ids(cfg.n)
        ensures d == o
      {
      }
    }
    if ListedAlone(cfg) && Classes(cfg) {
      forall o, d | o in Ids(cfg.n) && d in Ids(cfg.n)
        ensures d in cfg.Dependencies(o) <==> d == o
      {
        assert o in cfg.Dependencies(o);
      }
    }
  }

  /** So the C++ store obeys the guard and leaves nothing that is due if and only if each node depends on itself only,
      that is, where localized causal order is FIFO order. */
  lemma GuardedAndNothingDueIff(cfg: Config)
    requires InRange(cfg)
    ensures (forall z, calls :: z in Ids(cfg.n) && Clocked(cfg, calls) && MadeAt(cfg, z, calls) ==>
               QueueGuarded(cfg, calls) && NothingDue(cfg, calls)) <==> AloneOnly(cfg)
  {
    hide QueueGuarded, NothingDue, Clocked, MadeAt, ListedAlone, Classes, AloneOnly;
    GuardedIff(cfg);
    NothingDueIff(cfg);
    AloneOnlyIff(cfg);
  }
}
