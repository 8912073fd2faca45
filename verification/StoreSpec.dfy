/** The declarative meaning of the store: which packets a sequence of calls delivers depends only on
    which nodes acked which packets, not on the order or the repetition of the calls. */
module StoreSpec {
  import opened Basics
  import opened Messages
  import opened Store
  import opened StoreFacts

  function Acks(calls: seq<Call>): set<Ack>
  {
    set c | c in calls :: Ack(c.sender, c.payload.Id())
  }

  /** The distinct nodes that acked packet `k` in these calls. */
  function Ackers(calls: seq<Call>, k: Key): set<nat>
  {
    Senders(Acks(calls), k)
  }

  ghost predicate AllOf(calls: seq<Call>, kind: Kind)
  {
    forall c :: c in calls ==> c.payload.kind == kind
  }

  lemma {:induction false} InsertsAck(cfg: Config, calls: seq<Call>)
    ensures Inserts(cfg, calls).acked == Acks(calls)
  {
    if calls != [] {
      var init, last := calls[..|calls| - 1], calls[|calls| - 1];
      InsertsAck(cfg, init);
      InsertFrame(cfg, Inserts(cfg, init), last.sender, last.payload);
      assert calls == init + [last];
    }
  }

  /** `Fifob` calls keep the frontier, the delivered set and the log in step, and leave nothing
      deliverable behind. */
  lemma {:induction false} FifobInserts(cfg: Config, calls: seq<Call>)
    requires AllOf(calls, Fifob)
    ensures var s := Inserts(cfg, calls);
      Coherent(s) && Buffers(s, {Fifob}) && InOrder(s) && MajorityAcked(cfg, s) && Settled(cfg, s)
  {
    if calls != [] {
      var init, last := calls[..|calls| - 1], calls[|calls| - 1];
      var s := Inserts(cfg, init);
      FifobInserts(cfg, init);
      InsertFrame(cfg, s, last.sender, last.payload);
      InsertCoherent(cfg, s, last.sender, last.payload);
      InsertInOrder(cfg, s, last.sender, last.payload);
      InsertMajorityAcked(cfg, s, last.sender, last.payload);
      InsertSettles(cfg, s, last.sender, last.payload);
    }
  }

  lemma {:induction false} UrbInserts(cfg: Config, calls: seq<Call>)
    requires AllOf(calls, Urb)
    ensures var s := Inserts(cfg, calls);
      Coherent(s) && Buffers(s, {Urb}) && MajorityAcked(cfg, s) && Settled(cfg, s)
  {
    if calls != [] {
      var init, last := calls[..|calls| - 1], calls[|calls| - 1];
      var s := Inserts(cfg, init);
      UrbInserts(cfg, init);
      InsertFrame(cfg, s, last.sender, last.payload);
      InsertCoherent(cfg, s, last.sender, last.payload);
      InsertMajorityAcked(cfg, s, last.sender, last.payload);
      InsertSettles(cfg, s, last.sender, last.payload);
    }
  }

  /** `Lcb` calls keep the FIFO story too, and the clock counts deliveries. */
  lemma {:induction false} LcbInserts(cfg: Config, calls: seq<Call>)
    requires AllOf(calls, Lcb)
    ensures var s := Inserts(cfg, calls);
      Coherent(s) && Buffers(s, {Lcb}) && InOrder(s) && MajorityAcked(cfg, s) && Causal(cfg, s)
  {
    if calls != [] {
      var init, last := calls[..|calls| - 1], calls[|calls| - 1];
      var s := Inserts(cfg, init);
      LcbInserts(cfg, init);
      InsertFrame(cfg, s, last.sender, last.payload);
      InsertCoherent(cfg, s, last.sender, last.payload);
      InsertInOrder(cfg, s, last.sender, last.payload);
      InsertMajorityAcked(cfg, s, last.sender, last.payload);
      InsertCausal(cfg, s, last.sender, last.payload);
    }
  }

  /** In a settled FIFO store the next packet of any owner lacks a majority of acks. */
  lemma NextLacksMajority(cfg: Config, s: Store, o: nat)
    requires Coherent(s) && Buffers(s, {Fifob}) && InOrder(s) && Settled(cfg, s)
    ensures |Senders(s.acked, Key(o, Next(s, o)))| < Majority(cfg.n)
  {
    var k := Key(o, Next(s, o));
    assert k !in s.delivered;
    if k !in s.undelivered {
      assert Senders(s.acked, k) == {};
    }
  }

  /** A packet is delivered once it and all before it have a majority of acks. */
  lemma FrontierPasses(cfg: Config, s: Store, k: Key)
    requires Coherent(s) && Buffers(s, {Fifob}) && InOrder(s) && Settled(cfg, s) && 1 <= k.packet
    requires forall q: nat :: 1 <= q <= k.packet ==> |Senders(s.acked, Key(k.owner, q))| >= Majority(cfg.n)
    ensures k in s.delivered
  {
    NextLacksMajority(cfg, s, k.owner);
  }

  /** The frontier of each owner stands just after the longest run of packets 1, 2, ... that each have a
      majority of distinct ackers; the delivered packets are those before it. */
  lemma FifobMeaning(cfg: Config, calls: seq<Call>, o: nat)
    requires AllOf(calls, Fifob)
    ensures var s := Inserts(cfg, calls);
      && (forall q: nat :: 1 <= q < Next(s, o) ==> |Ackers(calls, Key(o, q))| >= Majority(cfg.n))
      && |Ackers(calls, Key(o, Next(s, o)))| < Majority(cfg.n)
      && (forall q: nat :: Key(o, q) in s.delivered <==> 1 <= q < Next(s, o))
  {
    var s := Inserts(cfg, calls);
    FifobInserts(cfg, calls);
    InsertsAck(cfg, calls);
    NextLacksMajority(cfg, s, o);
    forall q: nat | 1 <= q < Next(s, o)
      ensures |Ackers(calls, Key(o, q))| >= Majority(cfg.n)
    {
      assert Key(o, q) in s.delivered;
    }
  }

  /** Two sequences of `Fifob` calls with the same acks, in any order and repeated at will, reach the
      same frontiers and deliver the same packets. */
  lemma FifobOrderDoesNotMatter(cfg: Config, a: seq<Call>, b: seq<Call>)
    requires AllOf(a, Fifob) && AllOf(b, Fifob) && Acks(a) == Acks(b)
    ensures Inserts(cfg, a).delivered == Inserts(cfg, b).delivered
    ensures forall o :: Next(Inserts(cfg, a), o) == Next(Inserts(cfg, b), o)
  {
    var s, t := Inserts(cfg, a), Inserts(cfg, b);
    FifobInserts(cfg, a);
    FifobInserts(cfg, b);
    forall o
      ensures Next(s, o) == Next(t, o)
    {
      FifobMeaning(cfg, a, o);
      FifobMeaning(cfg, b, o);
      assert Ackers(a, Key(o, Next(s, o))) == Ackers(b, Key(o, Next(s, o)));
      assert Ackers(a, Key(o, Next(t, o))) == Ackers(b, Key(o, Next(t, o)));
    }
  }

  lemma MajorityIsDelivered(cfg: Config, s: Store, k: Key)
    requires Coherent(s) && Buffers(s, {Urb}) && Settled(cfg, s)
    requires |Senders(s.acked, k)| >= Majority(cfg.n)
    ensures k in s.delivered
  {
    assert k !in s.delivered && k !in s.undelivered ==> Senders(s.acked, k) == {};
  }

  /** Without order, `Urb` delivers a packet as soon as, and only when, a majority acked it. */
  lemma UrbMeaning(cfg: Config, calls: seq<Call>, k: Key)
    requires AllOf(calls, Urb)
    ensures k in Inserts(cfg, calls).delivered <==> |Ackers(calls, k)| >= Majority(cfg.n)
  {
    var s := Inserts(cfg, calls);
    UrbInserts(cfg, calls);
    InsertsAck(cfg, calls);
    if |Ackers(calls, k)| >= Majority(cfg.n) {
      MajorityIsDelivered(cfg, s, k);
    }
  }
}
