/** The C++ delivery store as a value. It forgets the counter and the payload of a packet once it is queued
    for delivery, and tests the clock of the arriving packet. */
module PrunedStore {
  import opened Basics
  import opened Messages
  import opened Store
  import opened StoreFacts

  /** `counter` holds the counters that are not 0. A null pointer in the queue would be a `None`. */
  datatype Pruned = Pruned(
    acked: set<Ack>,
    counter: map<Key, nat>,
    undelivered: map<Key, Payload>,
    upTo: map<nat, nat>,
    clock: seq<nat>,
    queue: seq<Option<Payload>>)

  function Fresh(n: nat): Pruned
  {
    Pruned({}, map[], map[], map o | o in Ids(n) + {0} :: 1, seq(n + 1, _ => 0), [])
  }

  function UpTo(s: Pruned, o: nat): nat
  {
    if o in s.upTo then s.upTo[o] else 0
  }

  function CountOf(s: Pruned, k: Key): nat
  {
    if k in s.counter then s.counter[k] else 0
  }

  predicate CanUrb(cfg: Config, s: Pruned, k: Key)
  {
    k.packet < UpTo(s, k.owner) || CountOf(s, k) > cfg.n / 2
  }

  predicate ClockMet(cfg: Config, s: Pruned, clock: seq<nat>, a: nat)
  {
    forall d | d in cfg.Dependencies(a) :: At(s.clock, d) >= At(clock, d)
  }

  predicate CanLcb(cfg: Config, s: Pruned, clock: seq<nat>, a: nat)
  {
    ClockMet(cfg, s, clock, a) && CanUrb(cfg, s, Key(a, UpTo(s, a)))
  }

  /** The copy that the store keeps has one clock entry less than the payload. */
  function Copy(n: nat, p: Payload): Payload
  {
    p.(clock := if |p.clock| <= n then p.clock else p.clock[..n])
  }

  /** Queues the next packet of `a` and forgets it. */
  function QueueNext(s: Pruned, a: nat): Pruned
  {
    var k := Key(a, UpTo(s, a));
    s.(queue := s.queue + [if k in s.undelivered then Some(s.undelivered[k]) else None],
       undelivered := s.undelivered - {k},
       counter := s.counter - {k},
       upTo := s.upTo[a := UpTo(s, a) + 1],
       clock := if a < |s.clock| then s.clock[a := s.clock[a] + 1] else s.clock)
  }

  /** The inner loop of `insert`. */
  function Drain(cfg: Config, s: Pruned, clock: seq<nat>, a: nat): Pruned
    decreases |s.counter|
  {
    if !CanLcb(cfg, s, clock, a) then
      s
    else
      DropKeySize(s.counter, Key(a, UpTo(s, a)));
      Drain(cfg, QueueNext(s, a), clock, a)
  }

  /** The outer loop of `insert`. */
  function DrainAll(cfg: Config, s: Pruned, clock: seq<nat>, nodes: seq<nat>): Pruned
    decreases |nodes|
  {
    if nodes == [] then s else DrainAll(cfg, Drain(cfg, s, clock, nodes[0]), clock, nodes[1..])
  }

  /** Counts one more acker; the first one brings the payload. */
  function CountIn(cfg: Config, s: Pruned, p: Payload): Pruned
  {
    s.(counter := Counted(s.counter, p.Id()),
       undelivered := if p.Id() in s.counter then s.undelivered else s.undelivered[p.Id() := Copy(cfg.n, p)])
  }

  function InsertPruned(cfg: Config, s: Pruned, sender: nat, p: Payload): Pruned
  {
    var seen := Ack(sender, p.Id()) in s.acked;
    var t := s.(acked := s.acked + {Ack(sender, p.Id())});
    if !seen && p.packet < UpTo(s, p.owner) then
      t
    else
      var u := if seen then t else CountIn(cfg, t, p);
      if UpTo(u, p.owner) == p.packet then
        DrainAll(cfg, u, p.clock, cfg.Dependencies(p.owner))
      else
        u
  }

  function InsertsPruned(cfg: Config, calls: seq<Call>): Pruned
  {
    if calls == [] then
      Fresh(cfg.n)
    else
      var last := calls[|calls| - 1];
      InsertPruned(cfg, InsertsPruned(cfg, calls[..|calls| - 1]), last.sender, last.payload)
  }

  // ---- The queue as a log ----

  /** What the writer thread is handed, in order; the source has no packet 0 of node 0 to stand for a null
      pointer. */
  function Handed(queue: seq<Option<Payload>>): seq<Event>
  {
    seq(|queue|, i requires 0 <= i < |queue| =>
      Delivery(if queue[i].Some? then queue[i].value else Payload(0, 0, 0, Tcp, false, [], "")))
  }

  /** The names of the packets of a log. */
  function LogKeys(log: seq<Event>): seq<Key>
  {
    seq(|log|, i requires 0 <= i < |log| => log[i].payload.Id())
  }

  function QueueKeys(queue: seq<Option<Payload>>): seq<Key>
  {
    LogKeys(Handed(queue))
  }

  // ---- The pruning invariant ----

  /** Before the frontier nothing is kept. */
  ghost predicate Forgotten(s: Pruned)
  {
    forall k: Key :: k.packet < UpTo(s, k.owner) ==> k !in s.counter && k !in s.undelivered
  }

  /** From the frontier on the counters are exact. */
  ghost predicate Exact(s: Pruned)
  {
    && (forall k: Key :: k.packet >= UpTo(s, k.owner) ==> CountOf(s, k) == |Senders(s.acked, k)|)
    && (forall k: Key :: k.packet >= UpTo(s, k.owner) ==> (k in s.counter <==> Senders(s.acked, k) != {}))
  }

  /** Exactly the counted packets are stored, each under its own name. */
  ghost predicate Stored(s: Pruned)
  {
    s.undelivered.Keys == s.counter.Keys && forall k: Key :: k in s.undelivered ==> s.undelivered[k].Id() == k
  }

  ghost predicate Lean(s: Pruned)
  {
    Forgotten(s) && Exact(s) && Stored(s)
  }

  /** The frontier of each node, the clock and the queue agree. */
  ghost predicate InStep(cfg: Config, s: Pruned)
  {
    && |s.clock| == cfg.n + 1
    && (forall o: nat :: o in s.upTo <==> o <= cfg.n)
    && (forall o: nat :: o <= cfg.n ==> UpTo(s, o) == s.clock[o] + 1 == Count(Handed(s.queue), o) + 1)
    && FifoLog(Handed(s.queue))
  }

  /** No null pointer was queued, and every queued packet has a majority of ackers. */
  ghost predicate QueueSound(cfg: Config, s: Pruned)
  {
    && (forall x :: 0 <= x < |s.queue| ==> s.queue[x].Some?)
    && (forall x :: 0 <= x < |s.queue| ==> |Senders(s.acked, QueueKeys(s.queue)[x])| >= Majority(cfg.n))
  }

  ghost predicate PrunedInv(cfg: Config, s: Pruned)
  {
    Lean(s) && InStep(cfg, s) && QueueSound(cfg, s)
  }

  lemma QueueNextQueues(s: Pruned, a: nat) returns (p: Payload)
    requires Lean(s) && Key(a, UpTo(s, a)) in s.undelivered
    ensures p.Id() == Key(a, UpTo(s, a))
    ensures Handed(QueueNext(s, a).queue) == Handed(s.queue) + [Delivery(p)]
    ensures QueueKeys(QueueNext(s, a).queue) == QueueKeys(s.queue) + [p.Id()]
  {
    p := s.undelivered[Key(a, UpTo(s, a))];
  }

  lemma QueueNextLean(cfg: Config, s: Pruned, a: nat)
    requires Lean(s) && CanUrb(cfg, s, Key(a, UpTo(s, a)))
    ensures Lean(QueueNext(s, a)) && Key(a, UpTo(s, a)) in s.undelivered
    ensures |Senders(s.acked, Key(a, UpTo(s, a)))| >= Majority(cfg.n)
  {
    hide Senders;
    var k := Key(a, UpTo(s, a));
    assert CountOf(s, k) == |Senders(s.acked, k)|;
    hide Forgotten, Exact;
    assert k in s.undelivered;
    QueueNextExact(s, a);
  }

  lemma QueueNextExact(s: Pruned, a: nat)
    requires Forgotten(s) && Exact(s)
    ensures Forgotten(QueueNext(s, a)) && Exact(QueueNext(s, a))
  {
    hide Senders;
  }

  lemma QueueNextSound(cfg: Config, s: Pruned, a: nat, p: Payload)
    requires QueueSound(cfg, s) && p.Id() == Key(a, UpTo(s, a)) && p.Id() in s.undelivered
    requires |Senders(s.acked, p.Id())| >= Majority(cfg.n)
    requires QueueKeys(QueueNext(s, a).queue) == QueueKeys(s.queue) + [p.Id()]
    ensures QueueSound(cfg, QueueNext(s, a))
  {
    hide Senders;
  }

  lemma QueueNextInv(cfg: Config, s: Pruned, clock: seq<nat>, a: nat)
    requires PrunedInv(cfg, s) && CanLcb(cfg, s, clock, a) && a <= cfg.n
    ensures PrunedInv(cfg, QueueNext(s, a))
  {
    hide Lean, InStep, QueueSound, Senders;
    QueueNextLean(cfg, s, a);
    var p := QueueNextQueues(s, a);
    QueueNextInStep(cfg, s, a, p);
    QueueNextSound(cfg, s, a, p);
  }

  lemma QueueNextInStep(cfg: Config, s: Pruned, a: nat, p: Payload)
    requires InStep(cfg, s) && a <= cfg.n && p.Id() == Key(a, UpTo(s, a))
    requires Handed(QueueNext(s, a).queue) == Handed(s.queue) + [Delivery(p)]
    ensures InStep(cfg, QueueNext(s, a))
  {
    FifoLogAppend(Handed(s.queue), Delivery(p));
    hide FifoLog, Count;
    forall o {
      CountAppend(Handed(s.queue), Delivery(p), o);
    }
  }

  lemma {:induction false} DrainInv(cfg: Config, s: Pruned, clock: seq<nat>, a: nat)
    requires PrunedInv(cfg, s) && a <= cfg.n
    ensures PrunedInv(cfg, Drain(cfg, s, clock, a)) && Drain(cfg, s, clock, a).acked == s.acked
    decreases |s.counter|
  {
    hide PrunedInv;
    if CanLcb(cfg, s, clock, a) {
      DropKeySize(s.counter, Key(a, UpTo(s, a)));
      QueueNextInv(cfg, s, clock, a);
      DrainInv(cfg, QueueNext(s, a), clock, a);
    }
  }

  lemma {:induction false} DrainAllInv(cfg: Config, s: Pruned, clock: seq<nat>, nodes: seq<nat>)
    requires PrunedInv(cfg, s) && forall a: nat :: a in nodes ==> a <= cfg.n
    ensures PrunedInv(cfg, DrainAll(cfg, s, clock, nodes)) && DrainAll(cfg, s, clock, nodes).acked == s.acked
    decreases |nodes|
  {
    hide PrunedInv;
    if nodes != [] {
      assert nodes[0] in nodes && forall a: nat :: a in nodes[1..] ==> a in nodes;
      DrainInv(cfg, s, clock, nodes[0]);
      DrainAllInv(cfg, Drain(cfg, s, clock, nodes[0]), clock, nodes[1..]);
    }
  }

  lemma MoreAckers(acked: set<Ack>, b: Ack, k: Key)
    ensures Senders(acked, k) <= Senders(acked + {b}, k)
    ensures |Senders(acked, k)| <= |Senders(acked + {b}, k)|
  {
    SendersOfOne(acked, b.sender, b.key, k);
    SubsetSize(Senders(acked, k), Senders(acked + {b}, k));
  }

  /** Recording an ack, before any packet is queued. */
  function Received(cfg: Config, s: Pruned, sender: nat, p: Payload): Pruned
  {
    var t := s.(acked := s.acked + {Ack(sender, p.Id())});
    if Ack(sender, p.Id()) in s.acked || p.packet < UpTo(s, p.owner) then t else CountIn(cfg, t, p)
  }

  /** The counter of packet `j` stays exact. */
  lemma ReceivedCounts(cfg: Config, s: Pruned, sender: nat, p: Payload, j: Key)
    requires Exact(s) && j.packet >= UpTo(s, j.owner)
    ensures var t := Received(cfg, s, sender, p);
      CountOf(t, j) == |Senders(t.acked, j)| && (j in t.counter <==> Senders(t.acked, j) != {})
  {
    var k := p.Id();
    SenderIsThere(s.acked, sender, k);
    SendersOfOne(s.acked, sender, k, j);
    var before, after := Senders(s.acked, j), Senders(s.acked + {Ack(sender, k)}, j);
    hide Senders, Copy;
    assert sender in before ==> before + {sender} == before;
    assert CountOf(s, j) == |before| && (j in s.counter <==> before != {});
  }

  lemma ReceivedExact(cfg: Config, s: Pruned, sender: nat, p: Payload)
    requires Exact(s)
    ensures Exact(Received(cfg, s, sender, p))
  {
    var t := Received(cfg, s, sender, p);
    assert t.upTo == s.upTo;
    forall j: Key | j.packet >= UpTo(t, j.owner)
      ensures CountOf(t, j) == |Senders(t.acked, j)| && (j in t.counter <==> Senders(t.acked, j) != {})
    {
      ReceivedCounts(cfg, s, sender, p, j);
    }
  }

  lemma ReceivedStored(cfg: Config, s: Pruned, sender: nat, p: Payload)
    requires Stored(s) && Forgotten(s)
    ensures Stored(Received(cfg, s, sender, p)) && Forgotten(Received(cfg, s, sender, p))
  {
  }

  lemma ReceivedLean(cfg: Config, s: Pruned, sender: nat, p: Payload)
    requires Lean(s)
    ensures Lean(Received(cfg, s, sender, p))
  {
    hide Exact, Stored, Forgotten, Received;
    ReceivedExact(cfg, s, sender, p);
    ReceivedStored(cfg, s, sender, p);
  }

  lemma ReceivedQueueSound(cfg: Config, s: Pruned, sender: nat, p: Payload)
    requires QueueSound(cfg, s)
    ensures QueueSound(cfg, Received(cfg, s, sender, p))
  {
    var t := Received(cfg, s, sender, p);
    assert t.queue == s.queue;
    forall x | 0 <= x < |t.queue|
      ensures |Senders(t.acked, QueueKeys(t.queue)[x])| >= Majority(cfg.n)
    {
      MoreAckers(s.acked, Ack(sender, p.Id()), QueueKeys(s.queue)[x]);
    }
  }

  lemma ReceivedInv(cfg: Config, s: Pruned, sender: nat, p: Payload)
    requires PrunedInv(cfg, s)
    ensures PrunedInv(cfg, Received(cfg, s, sender, p))
  {
    hide Lean, QueueSound, FifoLog, Count, Handed;
    ReceivedLean(cfg, s, sender, p);
    ReceivedQueueSound(cfg, s, sender, p);
  }

  ghost predicate InRange(cfg: Config)
  {
    forall o, d :: d in cfg.Dependencies(o) ==> d <= cfg.n
  }

  /** Every call keeps the pruning invariant, for any causality map over the system's nodes. */
  lemma InsertPrunedInv(cfg: Config, s: Pruned, sender: nat, p: Payload)
    requires InRange(cfg) && PrunedInv(cfg, s)
    ensures PrunedInv(cfg, InsertPruned(cfg, s, sender, p))
    ensures InsertPruned(cfg, s, sender, p).acked == s.acked + {Ack(sender, p.Id())}
  {
    hide PrunedInv;
    var t := Received(cfg, s, sender, p);
    ReceivedInv(cfg, s, sender, p);
    DrainAllInv(cfg, t, p.clock, cfg.Dependencies(p.owner));
  }

  /** After any calls, with any causality map: what lies behind the frontier is forgotten, what lies at or
      after it is counted exactly, the clock is the frontier less one, and every queued pointer is a real
      packet, next in the order of its owner and acked by a majority. */
  lemma {:induction false} InsertsPrunedInv(cfg: Config, calls: seq<Call>)
    requires InRange(cfg)
    ensures PrunedInv(cfg, InsertsPruned(cfg, calls))
  {
    if calls != [] {
      hide PrunedInv;
      InsertsPrunedInv(cfg, calls[..|calls| - 1]);
      var last := calls[|calls| - 1];
      InsertPrunedInv(cfg, InsertsPruned(cfg, calls[..|calls| - 1]), last.sender, last.payload);
    } else {
      assert Lean(Fresh(cfg.n));
    }
  }
}
