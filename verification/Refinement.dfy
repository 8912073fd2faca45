/** The C++ store refines the Rust store: where only FIFO order is asked for, both hand over the same packets
    in the same order, call by call, although the C++ store forgets what it has queued. */
module Refinement {
  import opened Basics
  import opened Messages
  import opened Store
  import opened StoreFacts
  import opened StoreSpec
  import opened NodeFacts
  import opened PrunedStore

  // ---- The setting ----

  /** Each node depends on itself only. */
  ghost predicate OwnOrderOnly(cfg: Config)
  {
    forall o: nat :: 1 <= o <= cfg.n ==> cfg.Dependencies(o) == [o]
  }

  /** Calls that the system makes: known owners, packets numbered from 1, and an owner's clock entry behind
      its packet. */
  ghost predicate Plain(cfg: Config, calls: seq<Call>)
  {
    forall c :: c in calls ==>
      && c.payload.kind == Fifob
      && 1 <= c.payload.owner <= cfg.n
      && At(c.payload.clock, c.payload.owner) < c.payload.packet
  }

  // ---- The C++ store leaves nothing deliverable behind ----

  /** No packet at a frontier has a majority. */
  ghost predicate Spent(cfg: Config, s: Pruned)
  {
    forall o: nat :: 1 <= o <= cfg.n ==> !CanUrb(cfg, s, Key(o, UpTo(s, o)))
  }

  /** Only node `a` may have one. */
  ghost predicate SpentBut(cfg: Config, s: Pruned, a: nat)
  {
    forall o: nat :: 1 <= o <= cfg.n && o != a ==> !CanUrb(cfg, s, Key(o, UpTo(s, o)))
  }

  lemma {:induction false} DrainSpends(cfg: Config, s: Pruned, clock: seq<nat>, a: nat)
    requires PrunedInv(cfg, s) && a <= cfg.n && cfg.Dependencies(a) == [a]
    requires SpentBut(cfg, s, a) && At(s.clock, a) >= At(clock, a)
    ensures Spent(cfg, Drain(cfg, s, clock, a))
    decreases |s.counter|
  {
    hide Lean, QueueSound, FifoLog, Count, Handed;
    if CanLcb(cfg, s, clock, a) {
      DropKeySize(s.counter, Key(a, UpTo(s, a)));
      QueueNextInv(cfg, s, clock, a);
      DrainSpends(cfg, QueueNext(s, a), clock, a);
    }
  }

  lemma ReceivedSpends(cfg: Config, s: Pruned, sender: nat, p: Payload)
    requires Spent(cfg, s)
    ensures SpentBut(cfg, Received(cfg, s, sender, p), p.owner)
    ensures p.packet != UpTo(s, p.owner) ==> Spent(cfg, Received(cfg, s, sender, p))
  {
    var t := Received(cfg, s, sender, p);
    forall o: nat | 1 <= o <= cfg.n && (o != p.owner || p.packet != UpTo(s, o))
      ensures !CanUrb(cfg, t, Key(o, UpTo(t, o)))
    {
      assert !CanUrb(cfg, s, Key(o, UpTo(s, o)));
    }
  }

  lemma InsertSpends(cfg: Config, s: Pruned, sender: nat, p: Payload)
    requires OwnOrderOnly(cfg) && PrunedInv(cfg, s) && Spent(cfg, s)
    requires 1 <= p.owner <= cfg.n && At(p.clock, p.owner) < p.packet
    ensures Spent(cfg, InsertPruned(cfg, s, sender, p))
  {
    hide Lean, QueueSound, FifoLog, Count, Handed, Spent, SpentBut;
    var t := Received(cfg, s, sender, p);
    ReceivedSpends(cfg, s, sender, p);
    ReceivedInv(cfg, s, sender, p);
    if p.packet == UpTo(t, p.owner) {
      DrainSpends(cfg, t, p.clock, p.owner);
      DrainAllOne(cfg, t, p.clock, p.owner);
    }
  }

  lemma DrainAllOne(cfg: Config, s: Pruned, clock: seq<nat>, a: nat)
    ensures DrainAll(cfg, s, clock, [a]) == Drain(cfg, s, clock, a)
  {
    assert [a][1..] == [];
    assert DrainAll(cfg, Drain(cfg, s, clock, a), clock, []) == Drain(cfg, s, clock, a);
  }

  // ---- One call queues packets of one owner ----

  ghost predicate ExtendsFor(keys: seq<Key>, more: seq<Key>, o: nat)
  {
    keys <= more && forall x :: |keys| <= x < |more| ==> more[x].owner == o
  }

  lemma {:induction false} DrainExtends(cfg: Config, s: Pruned, clock: seq<nat>, a: nat)
    requires PrunedInv(cfg, s) && a <= cfg.n
    ensures ExtendsFor(QueueKeys(s.queue), QueueKeys(Drain(cfg, s, clock, a).queue), a)
    decreases |s.counter|
  {
    hide Lean, InStep, QueueSound, QueueKeys;
    if CanLcb(cfg, s, clock, a) {
      DropKeySize(s.counter, Key(a, UpTo(s, a)));
      QueueNextLean(cfg, s, a);
      var p := QueueNextQueues(s, a);
      QueueNextInv(cfg, s, clock, a);
      DrainExtends(cfg, QueueNext(s, a), clock, a);
    }
  }

  lemma InsertPrunedExtends(cfg: Config, s: Pruned, sender: nat, p: Payload)
    requires OwnOrderOnly(cfg) && PrunedInv(cfg, s) && 1 <= p.owner <= cfg.n
    ensures ExtendsFor(QueueKeys(s.queue), QueueKeys(InsertPruned(cfg, s, sender, p).queue), p.owner)
  {
    hide PrunedInv, QueueKeys;
    var t := Received(cfg, s, sender, p);
    ReceivedInv(cfg, s, sender, p);
    DrainExtends(cfg, t, p.clock, p.owner);
    DrainAllOne(cfg, t, p.clock, p.owner);
  }

  ghost predicate DeliveriesOnly(log: seq<Event>)
  {
    forall e :: e in log ==> e.Delivery?
  }

  lemma {:induction false} CascadeExtends(cfg: Config, s: Store, k: Key)
    requires Named(s) && Buffers(s, {Fifob})
    ensures ExtendsFor(LogKeys(s.log), LogKeys(Cascade(cfg, s, [k]).log), k.owner)
    ensures DeliveriesOnly(s.log) ==> DeliveriesOnly(Cascade(cfg, s, [k]).log)
    decreases |s.undelivered|
  {
    if Deliverable(cfg, s, [k]) {
      var p, t := s.undelivered[k], DeliverOne(s, k);
      DropKeySize(s.undelivered, k);
      assert [k][..0] + Followups(cfg, t, p) == [Key(p.owner, p.packet + 1)];
      CascadeExtends(cfg, t, Key(p.owner, p.packet + 1));
      assert LogKeys(t.log) == LogKeys(s.log) + [k];
    }
  }

  lemma InsertExtends(cfg: Config, s: Store, sender: nat, p: Payload)
    requires Named(s) && Buffers(s, {Fifob}) && p.kind == Fifob && DeliveriesOnly(s.log)
    ensures ExtendsFor(LogKeys(s.log), LogKeys(Insert(cfg, s, sender, p).log), p.owner)
    ensures DeliveriesOnly(Insert(cfg, s, sender, p).log)
  {
    if p.Id() !in s.delivered {
      CascadeExtends(cfg, Buffer(s, sender, p), p.Id());
    }
  }

  // ---- FIFO order and the counts determine a log ----

  lemma {:induction false} SameCount(a: seq<Event>, b: seq<Event>, o: nat)
    requires DeliveriesOnly(a) && DeliveriesOnly(b) && LogKeys(a) == LogKeys(b)
    ensures Count(a, o) == Count(b, o)
  {
    assert |LogKeys(a)| == |a| && |LogKeys(b)| == |b|;
    if a != [] {
      var m := |a| - 1;
      assert LogKeys(a[..m]) == LogKeys(a)[..m] && LogKeys(b[..m]) == LogKeys(b)[..m];
      SameCount(a[..m], b[..m], o);
      assert a[m] in a && b[m] in b && LogKeys(a)[m] == LogKeys(b)[m];
    }
  }

  lemma {:induction false} CountBeyond(log: seq<Event>, x: nat, o: nat)
    requires x <= |log| && DeliveriesOnly(log) && forall y :: x <= y < |log| ==> log[y].payload.owner == o
    ensures Count(log, o) == Count(log[..x], o) + |log| - x
  {
    if |log| == x {
      assert log[..x] == log;
    } else {
      var init := log[..|log| - 1];
      assert init[..x] == log[..x] && log[|log| - 1] in log;
      CountBeyond(init, x, o);
    }
  }

  /** The packet at a position behind `x`, if all behind it are of `o`. */
  lemma FifoBeyond(log: seq<Event>, x: nat, y: nat, o: nat)
    requires x <= y < |log| && DeliveriesOnly(log) && FifoLog(log)
    requires forall z :: x <= z < |log| ==> log[z].payload.owner == o
    ensures log[y].payload.Id() == Key(o, Count(log[..x], o) + y - x + 1)
  {
    assert log[y] in log && log[..y][..x] == log[..x];
    CountBeyond(log[..y], x, o);
  }

  /** Two FIFO logs that continue the same one with packets of the same owner, equally many, are equal. */
  lemma SameContinuation(keys: seq<Key>, a: seq<Event>, b: seq<Event>, o: nat)
    requires ExtendsFor(keys, LogKeys(a), o) && ExtendsFor(keys, LogKeys(b), o)
    requires DeliveriesOnly(a) && DeliveriesOnly(b) && FifoLog(a) && FifoLog(b) && Count(a, o) == Count(b, o)
    ensures LogKeys(a) == LogKeys(b)
  {
    var x := |keys|;
    BeyondIsOf(keys, a, o);
    BeyondIsOf(keys, b, o);
    hide FifoLog;
    SameCount(a[..x], b[..x], o);
    CountBeyond(a, x, o);
    CountBeyond(b, x, o);
    forall y | x <= y < |a|
      ensures LogKeys(a)[y] == LogKeys(b)[y]
    {
      FifoBeyond(a, x, y, o);
      FifoBeyond(b, x, y, o);
    }
    assert forall y :: 0 <= y < x ==> LogKeys(a)[y] == keys[y] == LogKeys(b)[y];
  }

  lemma BeyondIsOf(keys: seq<Key>, log: seq<Event>, o: nat)
    requires ExtendsFor(keys, LogKeys(log), o)
    ensures |keys| <= |log| && LogKeys(log[..|keys|]) == keys
    ensures forall y :: |keys| <= y < |log| ==> log[y].payload.owner == o
  {
    assert |LogKeys(log)| == |log|;
    forall y | |keys| <= y < |log|
      ensures log[y].payload.owner == o
    {
      assert LogKeys(log)[y].owner == o;
    }
  }

  // ---- The frontiers agree ----

  lemma FrontierMajorities(cfg: Config, s: Store, o: nat)
    requires Coherent(s) && Buffers(s, {Fifob}) && InOrder(s) && Settled(cfg, s) && MajorityAcked(cfg, s)
    ensures forall q: nat :: 1 <= q < Next(s, o) ==> |Senders(s.acked, Key(o, q))| >= Majority(cfg.n)
    ensures |Senders(s.acked, Key(o, Next(s, o)))| < Majority(cfg.n)
  {
    hide LoggedOnce;
    NextLacksMajority(cfg, s, o);
    forall q: nat | 1 <= q < Next(s, o)
      ensures |Senders(s.acked, Key(o, q))| >= Majority(cfg.n)
    {
      assert Key(o, q) in s.delivered;
    }
  }

  lemma PrunedFrontierMajorities(cfg: Config, s: Pruned, o: nat)
    requires PrunedInv(cfg, s) && Spent(cfg, s) && 1 <= o <= cfg.n
    ensures forall q: nat :: 1 <= q < UpTo(s, o) ==> |Senders(s.acked, Key(o, q))| >= Majority(cfg.n)
    ensures |Senders(s.acked, Key(o, UpTo(s, o)))| < Majority(cfg.n)
    ensures UpTo(s, o) >= 1
  {
    forall q: nat | 1 <= q < UpTo(s, o)
      ensures |Senders(s.acked, Key(o, q))| >= Majority(cfg.n)
    {
      var handed := Handed(s.queue);
      assert handed[..|handed|] == handed;
      var x := CountedIsDelivered(handed, |handed|, o, q);
      assert QueueKeys(s.queue)[x] == Key(o, q);
    }
    assert !CanUrb(cfg, s, Key(o, UpTo(s, o)));
  }

  lemma FrontiersAgree(cfg: Config, s: Store, c: Pruned, o: nat)
    requires Coherent(s) && Buffers(s, {Fifob}) && InOrder(s) && Settled(cfg, s) && MajorityAcked(cfg, s)
    requires PrunedInv(cfg, c) && Spent(cfg, c) && 1 <= o <= cfg.n && s.acked == c.acked
    ensures Next(s, o) == UpTo(c, o)
    ensures Count(Handed(c.queue), o) == Count(s.log, o)
  {
    hide Coherent, Buffers, Settled, MajorityAcked, Spent, Lean, QueueSound, FifoLog;
    FrontierMajorities(cfg, s, o);
    PrunedFrontierMajorities(cfg, c, o);
  }

  // ---- Call by call ----

  ghost predicate Matches(cfg: Config, s: Store, c: Pruned)
  {
    s.acked == c.acked && LogKeys(s.log) == QueueKeys(c.queue)
  }

  ghost predicate FifoStore(cfg: Config, s: Store)
  {
    && Coherent(s) && Buffers(s, {Fifob}) && InOrder(s) && Settled(cfg, s) && MajorityAcked(cfg, s)
    && DeliveriesOnly(s.log)
  }

  ghost predicate SpentStore(cfg: Config, c: Pruned)
  {
    PrunedInv(cfg, c) && Spent(cfg, c)
  }

  lemma InsertFifoStore(cfg: Config, s: Store, sender: nat, p: Payload)
    requires FifoStore(cfg, s) && p.kind == Fifob
    ensures FifoStore(cfg, Insert(cfg, s, sender, p))
    ensures ExtendsFor(LogKeys(s.log), LogKeys(Insert(cfg, s, sender, p).log), p.owner)
    ensures Insert(cfg, s, sender, p).acked == s.acked + {Ack(sender, p.Id())}
  {
    InsertExtends(cfg, s, sender, p);
    hide LoggedOnce, CounterExact;
    InsertFrame(cfg, s, sender, p);
    InsertCoherent(cfg, s, sender, p);
    InsertInOrder(cfg, s, sender, p);
    InsertMajorityAcked(cfg, s, sender, p);
    InsertSettles(cfg, s, sender, p);
  }

  lemma HandedDelivers(queue: seq<Option<Payload>>)
    ensures DeliveriesOnly(Handed(queue)) && |Handed(queue)| == |queue|
  {
  }

  lemma SameLogs(cfg: Config, keys: seq<Key>, s: Store, c: Pruned, o: nat)
    requires FifoStore(cfg, s) && SpentStore(cfg, c) && s.acked == c.acked && 1 <= o <= cfg.n
    requires ExtendsFor(keys, LogKeys(s.log), o) && ExtendsFor(keys, QueueKeys(c.queue), o)
    ensures LogKeys(s.log) == QueueKeys(c.queue)
  {
    hide Coherent, Settled, MajorityAcked, Spent, Lean, QueueSound, FifoLog, LogKeys, Handed, ExtendsFor;
    FrontiersAgree(cfg, s, c, o);
    HandedDelivers(c.queue);
    SameContinuation(keys, s.log, Handed(c.queue), o);
  }

  lemma CallMatches(cfg: Config, s: Store, c: Pruned, sender: nat, p: Payload)
    requires OwnOrderOnly(cfg) && InRange(cfg) && Plain(cfg, [Call(sender, p)])
    requires FifoStore(cfg, s) && SpentStore(cfg, c) && Matches(cfg, s, c)
    ensures FifoStore(cfg, Insert(cfg, s, sender, p)) && SpentStore(cfg, InsertPruned(cfg, c, sender, p))
    ensures Matches(cfg, Insert(cfg, s, sender, p), InsertPruned(cfg, c, sender, p))
  {
    hide FifoStore, PrunedInv, Spent, LogKeys, QueueKeys, ExtendsFor, OwnOrderOnly;
    assert Call(sender, p) in [Call(sender, p)];
    InsertFifoStore(cfg, s, sender, p);
    InsertPrunedInv(cfg, c, sender, p);
    InsertSpends(cfg, c, sender, p);
    InsertPrunedExtends(cfg, c, sender, p);
    SameLogs(cfg, LogKeys(s.log), Insert(cfg, s, sender, p), InsertPruned(cfg, c, sender, p), p.owner);
  }

  lemma {:induction false} StoresMatch(cfg: Config, calls: seq<Call>)
    requires OwnOrderOnly(cfg) && InRange(cfg) && Plain(cfg, calls)
    ensures FifoStore(cfg, Inserts(cfg, calls)) && SpentStore(cfg, InsertsPruned(cfg, calls))
    ensures Matches(cfg, Inserts(cfg, calls), InsertsPruned(cfg, calls))
  {
    if calls == [] {
      InsertsPrunedInv(cfg, []);
    } else {
      hide FifoStore, SpentStore, Matches;
      var init, last := calls[..|calls| - 1], calls[|calls| - 1];
      assert forall c :: c in init ==> c in calls;
      assert last in calls;
      StoresMatch(cfg, init);
      CallMatches(cfg, Inserts(cfg, init), InsertsPruned(cfg, init), last.sender, last.payload);
    }
  }

  /** The same calls make both stores record the same acks and hand over the same packets in the same order.
      As this holds after every call, they hand them over at the same calls. */
  lemma PrunedRefines(cfg: Config, calls: seq<Call>)
    requires OwnOrderOnly(cfg) && InRange(cfg) && Plain(cfg, calls)
    ensures QueueKeys(InsertsPruned(cfg, calls).queue) == LogKeys(Inserts(cfg, calls).log)
    ensures InsertsPruned(cfg, calls).acked == Inserts(cfg, calls).acked
    ensures forall o: nat :: 1 <= o <= cfg.n ==> UpTo(InsertsPruned(cfg, calls), o) == Next(Inserts(cfg, calls), o)
  {
    hide Coherent, Settled, MajorityAcked, Spent, PrunedInv;
    StoresMatch(cfg, calls);
    forall o: nat | 1 <= o <= cfg.n {
      FrontiersAgree(cfg, Inserts(cfg, calls), InsertsPruned(cfg, calls), o);
    }
  }

  // ---- The lines written are the same, too ----

  ghost predicate FromCalls(calls: seq<Call>, p: Payload)
  {
    exists c :: c in calls && c.payload.Id() == p.Id() && c.payload.buffer == p.buffer
  }

  lemma {:induction false} HeldFromCalls(cfg: Config, calls: seq<Call>, p: Payload)
    requires StoreHolds(Inserts(cfg, calls), p)
    ensures FromCalls(calls, p)
  {
    if calls != [] {
      var init, last := calls[..|calls| - 1], calls[|calls| - 1];
      InsertHolds(cfg, Inserts(cfg, init), last.sender, last.payload);
      assert last in calls;
      if p != last.payload {
        HeldFromCalls(cfg, init, p);
        var c :| c in init && c.payload.Id() == p.Id() && c.payload.buffer == p.buffer;
        assert c in calls;
      }
    }
  }

  ghost predicate PrunedHolds(s: Pruned, p: Payload)
  {
    (exists k :: k in s.undelivered && s.undelivered[k] == p) || Some(p) in s.queue
  }

  lemma {:induction false} DrainHolds(cfg: Config, s: Pruned, clock: seq<nat>, a: nat)
    ensures forall p :: PrunedHolds(Drain(cfg, s, clock, a), p) ==> PrunedHolds(s, p)
    decreases |s.counter|
  {
    if CanLcb(cfg, s, clock, a) {
      DropKeySize(s.counter, Key(a, UpTo(s, a)));
      DrainHolds(cfg, QueueNext(s, a), clock, a);
    }
  }

  lemma {:induction false} DrainAllHolds(cfg: Config, s: Pruned, clock: seq<nat>, nodes: seq<nat>)
    ensures forall p :: PrunedHolds(DrainAll(cfg, s, clock, nodes), p) ==> PrunedHolds(s, p)
    decreases |nodes|
  {
    if nodes != [] {
      DrainHolds(cfg, s, clock, nodes[0]);
      DrainAllHolds(cfg, Drain(cfg, s, clock, nodes[0]), clock, nodes[1..]);
    }
  }

  lemma {:induction false} PrunedHeldFromCalls(cfg: Config, calls: seq<Call>, p: Payload)
    requires PrunedHolds(InsertsPruned(cfg, calls), p)
    ensures FromCalls(calls, p)
  {
    if calls != [] {
      var init, last := calls[..|calls| - 1], calls[|calls| - 1];
      var s := InsertsPruned(cfg, init);
      var t := Received(cfg, s, last.sender, last.payload);
      DrainAllHolds(cfg, t, last.payload.clock, cfg.Dependencies(last.payload.owner));
      assert last in calls;
      if p != Copy(cfg.n, last.payload) {
        assert PrunedHolds(s, p);
        PrunedHeldFromCalls(cfg, init, p);
        var c :| c in init && c.payload.Id() == p.Id() && c.payload.buffer == p.buffer;
        assert c in calls;
      }
    }
  }

  /** If all copies of a packet carry the same contents, the two stores hand over the same contents. */
  lemma PrunedWritesTheSame(cfg: Config, calls: seq<Call>, x: nat)
    requires OwnOrderOnly(cfg) && InRange(cfg) && Plain(cfg, calls)
    requires forall c, d :: c in calls && d in calls && c.payload.Id() == d.payload.Id() ==>
      c.payload.buffer == d.payload.buffer
    requires x < |Inserts(cfg, calls).log|
    ensures x < |InsertsPruned(cfg, calls).queue| && InsertsPruned(cfg, calls).queue[x].Some?
    ensures var p, q := Inserts(cfg, calls).log[x].payload, InsertsPruned(cfg, calls).queue[x].value;
      p.owner == q.owner && p.packet == q.packet && p.buffer == q.buffer
  {
    var s, t := Inserts(cfg, calls), InsertsPruned(cfg, calls);
    StoresMatch(cfg, calls);
    hide Coherent, Settled, MajorityAcked, Spent, Lean, InStep, InOrder;
    assert |QueueKeys(t.queue)| == |t.queue| && QueueKeys(t.queue)[x] == LogKeys(s.log)[x];
    assert s.log[x] in s.log && t.queue[x] in t.queue;
    HeldFromCalls(cfg, calls, s.log[x].payload);
    PrunedHeldFromCalls(cfg, calls, t.queue[x].value);
  }
}
