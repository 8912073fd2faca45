/** When the `Lcb` worklist leaves deliverable packets behind. The loop ends at the first entry that is missing
    or blocked and drops the rest, among it the entries of packets that the last delivery made deliverable. */
module Stalls {
  import opened Basics
  import opened Messages
  import opened Store
  import opened StoreFacts
  import opened StoreSpec

  /** After a delivery of node `o` the worklist ends with the next packet of `o`. */
  predicate OwnNextLast(cfg: Config, o: nat)
  {
    cfg.Affected(o) == [] || cfg.Affected(o)[|cfg.Affected(o)| - 1] == o
  }

  /** That is so for every node, and no node of the system depends on another. The two maps need not fit each
      other. */
  predicate Unstalled(cfg: Config)
  {
    forall o | o in Ids(cfg.n) ::
      OwnNextLast(cfg, o) && forall a | a in Ids(cfg.n) :: o in cfg.Dependencies(a) ==> a == o
  }

  /** The worklist entry that comes first after the delivery of the first packet of `o`. */
  function FirstAfter(cfg: Config, o: nat): Key
  {
    if cfg.Affected(o) == [] then
      Key(o, 2)
    else
      var x := cfg.Affected(o)[|cfg.Affected(o)| - 1];
      Key(x, if x == o then 2 else 1)
  }

  /** If another node depends on `o`, it is the one that the worklist comes to first after the first packet of
      `o`. So at most one other node depends on `o`. */
  predicate DependentFirst(cfg: Config)
  {
    forall o | o in Ids(cfg.n) :: forall a | a in Ids(cfg.n) ::
      o in cfg.Dependencies(a) && a != o ==> FirstAfter(cfg, o) == Key(a, 1)
  }

  /** Calls whose nodes, numbers and clocks are those of a system of `n` nodes. */
  ghost predicate WellFormed(cfg: Config, calls: seq<Call>)
  {
    forall c :: c in calls ==>
      && c.sender in Ids(cfg.n) && c.payload.owner in Ids(cfg.n)
      && 1 <= c.payload.packet && |c.payload.clock| == cfg.n + 1
  }

  /** Whatever the calls, no deliverable packet is left in the buffer. */
  ghost predicate NeverStalls(cfg: Config)
  {
    forall calls :: AllOf(calls, Lcb) && WellFormed(cfg, calls) ==> Settled(cfg, Inserts(cfg, calls))
  }

  // ---- Then nothing is left behind ----

  /** Every buffered packet is of a node of the system. */
  ghost predicate OwnersKnown(cfg: Config, s: Store)
  {
    forall k :: k in s.undelivered ==> s.undelivered[k].owner in Ids(cfg.n)
  }

  /** Every buffered packet is the first of its owner. */
  ghost predicate FirstPackets(s: Store)
  {
    forall k :: k in s.undelivered ==> k.packet == 1
  }

  /** The two settings in which a worklist that ends early loses nothing. */
  ghost predicate Harmless(cfg: Config, s: Store)
  {
    Unstalled(cfg) || (DependentFirst(cfg) && FirstPackets(s))
  }

  /** Only the packet that the worklist comes to next can have become deliverable. */
  lemma DeliverOneUnblocks(cfg: Config, s: Store, k: Key)
    requires Harmless(cfg, s) && OwnersKnown(cfg, s) && Buffers(s, {Lcb}) && Named(s) && k in s.undelivered
    requires SettledBut(cfg, s, k) && Ready(cfg, s, s.undelivered[k])
    ensures var t := DeliverOne(s, k);
      var more := Followups(cfg, t, s.undelivered[k]);
      Harmless(cfg, t) && more != [] && SettledBut(cfg, t, more[|more| - 1])
  {
    var t := DeliverOne(s, k);
    var more := Followups(cfg, t, s.undelivered[k]);
    forall j | j in t.undelivered && Ready(cfg, t, t.undelivered[j])
      ensures j == more[|more| - 1]
    {
      assert !Ready(cfg, s, s.undelivered[j]);
      Unblocked(cfg, s, k, j);
    }
  }

  /** A packet that a delivery makes deliverable is the next one of the same node or of one that depends on it. */
  lemma UnblockedIsNext(cfg: Config, s: Store, k: Key, j: Key)
    requires Buffers(s, {Lcb}) && Named(s)
    requires k in s.undelivered && j in s.undelivered && j != k && Ready(cfg, s, s.undelivered[k])
    requires !Ready(cfg, s, s.undelivered[j]) && Ready(cfg, DeliverOne(s, k), s.undelivered[j])
    ensures j.packet == Next(DeliverOne(s, k), j.owner) && k.packet == Next(s, k.owner)
    ensures if j.owner == k.owner then j.packet == k.packet + 1 else k.owner in cfg.Dependencies(j.owner)
  {
    assert s.undelivered[j].Id() == j && s.undelivered[k].Id() == k;
  }

  lemma Unblocked(cfg: Config, s: Store, k: Key, j: Key)
    requires Harmless(cfg, s) && OwnersKnown(cfg, s) && Buffers(s, {Lcb}) && Named(s)
    requires k in s.undelivered && j in s.undelivered && j != k && Ready(cfg, s, s.undelivered[k])
    requires !Ready(cfg, s, s.undelivered[j]) && Ready(cfg, DeliverOne(s, k), s.undelivered[j])
    ensures var more := Followups(cfg, DeliverOne(s, k), s.undelivered[k]); j == more[|more| - 1]
  {
    UnblockedIsNext(cfg, s, k, j);
    hide Ready;
    assert s.undelivered[j].Id() == j && s.undelivered[k].Id() == k;
    if j.owner != k.owner {
      assert FirstAfter(cfg, k.owner) == Key(j.owner, 1);
    } else {
      assert OwnNextLast(cfg, k.owner);
    }
  }

  lemma DeliverOneKeeps(cfg: Config, s: Store, k: Key)
    requires OwnersKnown(cfg, s) && Named(s) && Buffers(s, {Lcb}) && k in s.undelivered
    ensures OwnersKnown(cfg, DeliverOne(s, k)) && Named(DeliverOne(s, k)) && Buffers(DeliverOne(s, k), {Lcb})
  {
  }

  lemma {:induction false} CascadeSettlesLcb(cfg: Config, s: Store, work: seq<Key>, k: Key)
    requires Harmless(cfg, s) && OwnersKnown(cfg, s) && Named(s) && Buffers(s, {Lcb}) && SettledBut(cfg, s, k)
    requires work != [] && work[|work| - 1] == k
    ensures Settled(cfg, Cascade(cfg, s, work))
    decreases |s.undelivered|
  {
    hide Harmless, OwnersKnown, Named, Buffers, Ready;
    if Deliverable(cfg, s, work) {
      hide Settled, SettledBut;
      var t := DeliverOne(s, k);
      DropKeySize(s.undelivered, k);
      DeliverOneUnblocks(cfg, s, k);
      DeliverOneKeeps(cfg, s, k);
      var more := Followups(cfg, t, s.undelivered[k]);
      CascadeSettlesLcb(cfg, t, work[..|work| - 1] + more, more[|more| - 1]);
    }
  }

  lemma InsertSettlesLcb(cfg: Config, s: Store, sender: nat, p: Payload)
    requires Unstalled(cfg) || (DependentFirst(cfg) && FirstPackets(s) && p.packet == 1)
    requires p.kind == Lcb && p.owner in Ids(cfg.n)
    requires Named(s) && s.delivered !! s.undelivered.Keys && Buffers(s, {Lcb})
    requires OwnersKnown(cfg, s) && Settled(cfg, s)
    ensures OwnersKnown(cfg, Insert(cfg, s, sender, p)) && Settled(cfg, Insert(cfg, s, sender, p))
    ensures FirstPackets(s) && p.packet == 1 ==> FirstPackets(Insert(cfg, s, sender, p))
  {
    hide Unstalled, DependentFirst, Cascade, Ready;
    InsertKeepsOwners(cfg, s, sender, p);
    if p.Id() !in s.delivered {
      BufferSettled(cfg, s, sender, p, {Lcb});
      CascadeSettlesLcb(cfg, Buffer(s, sender, p), [p.Id()], p.Id());
    } else {
      RecordSettled(cfg, s, sender, p.Id());
    }
  }

  lemma InsertKeepsOwners(cfg: Config, s: Store, sender: nat, p: Payload)
    requires OwnersKnown(cfg, s) && p.owner in Ids(cfg.n)
    ensures OwnersKnown(cfg, Insert(cfg, s, sender, p))
    ensures FirstPackets(s) && p.packet == 1 ==> FirstPackets(Insert(cfg, s, sender, p))
  {
    if p.Id() !in s.delivered {
      CascadeGrows(cfg, Buffer(s, sender, p), [p.Id()]);
    }
  }

  lemma {:induction false} UnstalledSettles(cfg: Config, calls: seq<Call>)
    requires Unstalled(cfg) && AllOf(calls, Lcb) && WellFormed(cfg, calls)
    ensures OwnersKnown(cfg, Inserts(cfg, calls)) && Settled(cfg, Inserts(cfg, calls))
  {
    if calls != [] {
      var init, last := calls[..|calls| - 1], calls[|calls| - 1];
      var s := Inserts(cfg, init);
      UnstalledSettles(cfg, init);
      LcbInserts(cfg, init);
      hide CounterExact, LoggedOnce, InOrder, Causal, MajorityAcked, Unstalled, Settled, Named, OwnersKnown;
      InsertSettlesLcb(cfg, s, last.sender, last.payload);
    }
  }

  // ---- Otherwise something can be ----

  /** The same packet with the same clock; the acker, the ack flag and the contents do not matter here. */
  predicate Alike(p: Payload, q: Payload)
  {
    p.Id() == q.Id() && p.kind == q.kind == Lcb && p.clock == q.clock
  }

  /** `q` is the first packet of its owner, `p` waits only for it, and the worklist does not come to `p` first
      after it. */
  ghost predicate Stalling(cfg: Config, p: Payload, q: Payload)
  {
    && p.kind == Lcb && q.kind == Lcb && p.Id() != q.Id() && q.owner in Ids(cfg.n)
    && q.packet == 1 && (forall d :: At(q.clock, d) == 0)
    && p.packet == (if p.owner == q.owner then 2 else 1)
    && (p.packet == 2 || q.owner in cfg.Dependencies(p.owner))
    && (forall d :: At(p.clock, d) == if d == q.owner && p.packet == 1 then 1 else 0)
    && FirstAfter(cfg, q.owner) != p.Id()
  }

  /** Nothing is delivered, nothing but `p` and `q` is buffered, and `q` lacks a majority. */
  ghost predicate Parked(cfg: Config, s: Store, p: Payload, q: Payload)
  {
    && s.upTo == map[] && s.delivered == {} && s.clock == Empty(cfg.n).clock
    && (forall k :: k in s.undelivered ==> Alike(s.undelivered[k], p) || Alike(s.undelivered[k], q))
    && |Senders(s.acked, q.Id())| < Majority(cfg.n)
  }

  /** `q` is delivered; `p` may be, but stays in the buffer. */
  ghost predicate Stalled(cfg: Config, s: Store, p: Payload, q: Payload)
  {
    && q.Id() in s.delivered && p.Id() !in s.delivered
    && p.Id() in s.undelivered && Ready(cfg, s, s.undelivered[p.Id()])
  }

  /** While copies of `p` are inserted the store stays parked; once `p` has a majority, inserting copies of `q`
      ends in a stall. */
  ghost predicate Phase(cfg: Config, s: Store, p: Payload, q: Payload, k: Key)
  {
    if k == p.Id() then
      Parked(cfg, s, p, q)
    else
      (Parked(cfg, s, p, q) && |Senders(s.acked, p.Id())| >= Majority(cfg.n)) || Stalled(cfg, s, p, q)
  }

  lemma BufferSenders(s: Store, sender: nat, p: Payload, k: Key)
    ensures Senders(Buffer(s, sender, p).acked, k) ==
      Senders(s.acked, k) + if k == p.Id() then {sender} else {}
  {
    RecordSenders(s, sender, p.Id());
  }

  /** A packet that may not be delivered is only buffered. */
  lemma BlockedInsert(cfg: Config, s: Store, sender: nat, c: Payload)
    requires c.Id() !in s.delivered && !Ready(cfg, Buffer(s, sender, c), c)
    ensures Insert(cfg, s, sender, c) == Buffer(s, sender, c)
  {
  }

  lemma ParkFirst(cfg: Config, s: Store, p: Payload, q: Payload, sender: nat, c: Payload)
    requires Stalling(cfg, p, q) && Parked(cfg, s, p, q) && Alike(c, p)
    ensures Parked(cfg, Insert(cfg, s, sender, c), p, q)
  {
    hide Insert, Senders;
    var u := Buffer(s, sender, c);
    BufferSenders(s, sender, c, q.Id());
    assert !LcbReady(cfg, u, c);
    BlockedInsert(cfg, s, sender, c);
  }

  lemma ParkSecond(cfg: Config, s: Store, p: Payload, q: Payload, sender: nat, c: Payload)
    requires Coherent(s) && Parked(cfg, s, p, q) && Alike(c, q) && p.Id() != q.Id()
    requires |Senders(s.acked, q.Id()) + {sender}| < Majority(cfg.n)
    ensures Parked(cfg, Insert(cfg, s, sender, c), p, q)
    ensures Senders(Insert(cfg, s, sender, c).acked, p.Id()) == Senders(s.acked, p.Id())
  {
    hide Coherent, Insert, Senders, Buffer, Parked;
    assert s.delivered == {} by { ParkedDeliversNothing(cfg, s, p, q); }
    BufferSenders(s, sender, c, q.Id());
    BufferSenders(s, sender, c, p.Id());
    BufferCoherent(s, sender, c);
    LacksMajority(cfg, Buffer(s, sender, c), c);
    BlockedInsert(cfg, s, sender, c);
    BufferStaysParked(cfg, s, p, q, sender, c);
  }

  lemma ParkedDeliversNothing(cfg: Config, s: Store, p: Payload, q: Payload)
    requires Parked(cfg, s, p, q)
    ensures s.delivered == {}
  {
  }

  lemma LacksMajority(cfg: Config, u: Store, c: Payload)
    requires Coherent(u) && |Senders(u.acked, c.Id())| < Majority(cfg.n) && c.kind == Lcb
    ensures !Ready(cfg, u, c)
  {
    hide Conserved, Named, LoggedOnce;
    assert !UrbReady(cfg, u, c);
  }

  lemma BufferStaysParked(cfg: Config, s: Store, p: Payload, q: Payload, sender: nat, c: Payload)
    requires Parked(cfg, s, p, q) && Alike(c, q)
    requires |Senders(Buffer(s, sender, c).acked, q.Id())| < Majority(cfg.n)
    ensures Parked(cfg, Buffer(s, sender, c), p, q)
  {
  }

  /** Nothing is delivered yet, but both packets are buffered and have a majority. */
  ghost predicate Primed(cfg: Config, s: Store, p: Payload, q: Payload)
  {
    && s.upTo == map[] && s.delivered == {} && s.clock == Empty(cfg.n).clock
    && s.undelivered.Keys == {p.Id(), q.Id()}
    && Alike(s.undelivered[p.Id()], p) && Alike(s.undelivered[q.Id()], q)
    && p.Id() in s.counter && s.counter[p.Id()] >= Majority(cfg.n)
    && q.Id() in s.counter && s.counter[q.Id()] >= Majority(cfg.n)
  }

  lemma ParkedIsPrimed(cfg: Config, s: Store, p: Payload, q: Payload)
    requires Coherent(s) && s.upTo == map[] && s.delivered == {} && s.clock == Empty(cfg.n).clock
    requires forall k :: k in s.undelivered ==> Alike(s.undelivered[k], p) || Alike(s.undelivered[k], q)
    requires |Senders(s.acked, p.Id())| >= Majority(cfg.n) && |Senders(s.acked, q.Id())| >= Majority(cfg.n)
    requires p.Id() != q.Id()
    ensures Primed(cfg, s, p, q)
  {
    hide LoggedOnce;
    assert p.Id() in s.undelivered && q.Id() in s.undelivered;
    forall k | k in s.undelivered
      ensures k == p.Id() || k == q.Id()
    {
      assert s.undelivered[k].Id() == k;
    }
  }

  /** Delivering `q` unblocks `p`, but the worklist ends at an entry that is missing before it comes to `p`. */
  lemma PrimedStalls(cfg: Config, u: Store, p: Payload, q: Payload, k: Key)
    requires Stalling(cfg, p, q) && Primed(cfg, u, p, q) && k == q.Id()
    ensures Stalled(cfg, Cascade(cfg, u, [k]), p, q)
  {
    var c := u.undelivered[k];
    assert Deliverable(cfg, u, [k]);
    var t := DeliverOne(u, k);
    var more := Followups(cfg, t, c);
    DeliveredUnblocks(cfg, u, p, q);
    hide Ready;
    assert more[|more| - 1] == FirstAfter(cfg, q.owner) && FirstAfter(cfg, q.owner) !in t.undelivered;
    assert [k][..0] + more == more;
    assert Cascade(cfg, t, more) == t;
  }

  lemma DeliveredUnblocks(cfg: Config, u: Store, p: Payload, q: Payload)
    requires Stalling(cfg, p, q) && Primed(cfg, u, p, q)
    ensures Stalled(cfg, DeliverOne(u, q.Id()), p, q)
  {
  }

  /** So the majority's last ack of `q` leads to a stall. */
  lemma LastAckStalls(cfg: Config, s: Store, p: Payload, q: Payload, sender: nat, c: Payload)
    requires Stalling(cfg, p, q) && Coherent(s) && Parked(cfg, s, p, q) && Alike(c, q)
    requires |Senders(s.acked, p.Id())| >= Majority(cfg.n)
    requires |Senders(s.acked, q.Id()) + {sender}| >= Majority(cfg.n)
    ensures Stalled(cfg, Insert(cfg, s, sender, c), p, q)
  {
    hide Coherent, Primed, Stalled, Ready, Cascade;
    var u := Buffer(s, sender, c);
    BufferCoherent(s, sender, c);
    BufferSenders(s, sender, c, q.Id());
    BufferSenders(s, sender, c, p.Id());
    ParkedIsPrimed(cfg, u, p, q);
    PrimedStalls(cfg, u, p, q, c.Id());
  }

  /** Once stalled, the store stays so: the insertion only records the ack. */
  lemma StaysStalled(cfg: Config, s: Store, p: Payload, q: Payload, sender: nat, c: Payload)
    requires Stalled(cfg, s, p, q) && Named(s) && Alike(c, q) && p.Id() != q.Id()
    ensures Stalled(cfg, Insert(cfg, s, sender, c), p, q)
  {
  }

  lemma InsertPhase(cfg: Config, s: Store, p: Payload, q: Payload, sender: nat, c: Payload)
    requires Stalling(cfg, p, q) && Coherent(s) && Phase(cfg, s, p, q, c.Id()) && (Alike(c, p) || Alike(c, q))
    ensures Phase(cfg, Insert(cfg, s, sender, c), p, q, c.Id())
  {
    hide Parked, Stalled, Insert;
    if Alike(c, p) {
      ParkFirst(cfg, s, p, q, sender, c);
    } else if Stalled(cfg, s, p, q) {
      StaysStalled(cfg, s, p, q, sender, c);
    } else if |Senders(s.acked, q.Id()) + {sender}| < Majority(cfg.n) {
      ParkSecond(cfg, s, p, q, sender, c);
    } else {
      LastAckStalls(cfg, s, p, q, sender, c);
    }
  }

  // ---- Calls that stall ----

  /** Nodes `1..a` ack `p`. */
  function AckedBy(p: Payload, a: nat): seq<Call>
  {
    if a == 0 then [] else AckedBy(p, a - 1) + [Call(a, p)]
  }

  lemma {:induction false} AckedByCalls(p: Payload, a: nat)
    ensures forall c :: c in AckedBy(p, a) <==> c.payload == p && 1 <= c.sender <= a
  {
    if a > 0 {
      AckedByCalls(p, a - 1);
    }
  }

  lemma AckedByLast(before: seq<Call>, p: Payload, a: nat)
    requires a > 0
    ensures before + AckedBy(p, a) == before + AckedBy(p, a - 1) + [Call(a, p)]
  {
  }

  /** Nodes `1..m`, a majority, ack `p` and then `q`. */
  function MajorityAcks(cfg: Config, p: Payload, q: Payload): seq<Call>
  {
    AckedBy(p, Majority(cfg.n)) + AckedBy(q, Majority(cfg.n))
  }

  lemma InsertsLast(cfg: Config, calls: seq<Call>, c: Call)
    ensures Inserts(cfg, calls + [c]) == Insert(cfg, Inserts(cfg, calls), c.sender, c.payload)
  {
    assert (calls + [c])[..|calls|] == calls;
  }

  lemma CallKeepsPhase(cfg: Config, calls: seq<Call>, p: Payload, q: Payload, c: Payload, sender: nat)
    requires Stalling(cfg, p, q) && (c == p || c == q) && Phase(cfg, Inserts(cfg, calls), p, q, c.Id())
    ensures Phase(cfg, Inserts(cfg, calls + [Call(sender, c)]), p, q, c.Id())
  {
    hide Phase, Inserts, Insert, Stalling, Coherent;
    StallingKinds(cfg, p, q);
    InsertsLast(cfg, calls, Call(sender, c));
    InsertsCoherent(cfg, calls);
    InsertPhase(cfg, Inserts(cfg, calls), p, q, sender, c);
  }

  lemma {:induction false} InsertsPhase(cfg: Config, before: seq<Call>, p: Payload, q: Payload, c: Payload, a: nat)
    requires Stalling(cfg, p, q) && (c == p || c == q)
    requires Phase(cfg, Inserts(cfg, before), p, q, c.Id())
    ensures Phase(cfg, Inserts(cfg, before + AckedBy(c, a)), p, q, c.Id())
    decreases a
  {
    hide Phase, Inserts, Stalling;
    if a == 0 {
      assert before + AckedBy(c, 0) == before;
    } else {
      InsertsPhase(cfg, before, p, q, c, a - 1);
      CallKeepsPhase(cfg, before + AckedBy(c, a - 1), p, q, c, a);
      AckedByLast(before, c, a);
    }
  }

  lemma StallingKinds(cfg: Config, p: Payload, q: Payload)
    requires Stalling(cfg, p, q)
    ensures p.kind == Lcb && q.kind == Lcb && p.Id() != q.Id()
  {
  }

  /** The nodes that ack in these calls. */
  lemma MajorityAckers(cfg: Config, p: Payload, calls: seq<Call>)
    requires forall c :: c in AckedBy(p, Majority(cfg.n)) ==> c in calls
    ensures |Senders(Inserts(cfg, calls).acked, p.Id())| >= Majority(cfg.n)
  {
    hide Inserts;
    var m, acked := Majority(cfg.n), Inserts(cfg, calls).acked;
    AckedByCalls(p, m);
    InsertsAck(cfg, calls);
    forall l | l in Ids(m)
      ensures l in Senders(acked, p.Id())
    {
      assert Call(l, p) in calls;
      SenderIsThere(acked, l, p.Id());
    }
    IdsSize(m);
    SubsetSize(Ids(m), Senders(acked, p.Id()));
  }

  lemma MajorityAcksStall(cfg: Config, p: Payload, q: Payload)
    requires Stalling(cfg, p, q)
    ensures Stalled(cfg, Inserts(cfg, MajorityAcks(cfg, p, q)), p, q)
  {
    hide Stalled, Stalling, Inserts;
    var m := Majority(cfg.n);
    var first, all := AckedBy(p, m), MajorityAcks(cfg, p, q);
    StallingKinds(cfg, p, q);
    EmptyIsParked(cfg, p, q);
    InsertsPhase(cfg, [], p, q, p, m);
    assert [] + first == first;
    MajorityAckers(cfg, p, first);
    AckedByCalls(p, m);
    InsertsPhase(cfg, first, p, q, q, m);
    MajorityAckers(cfg, q, all);
  }

  lemma EmptyIsParked(cfg: Config, p: Payload, q: Payload)
    ensures Parked(cfg, Inserts(cfg, []), p, q)
  {
    assert Senders({}, q.Id()) == {};
  }

  lemma MajorityAcksWellFormed(cfg: Config, p: Payload, q: Payload)
    requires cfg.n >= 1 && p.kind == q.kind == Lcb && p.owner in Ids(cfg.n) && q.owner in Ids(cfg.n)
    requires 1 <= p.packet && 1 <= q.packet && |p.clock| == |q.clock| == cfg.n + 1
    ensures AllOf(MajorityAcks(cfg, p, q), Lcb) && WellFormed(cfg, MajorityAcks(cfg, p, q))
  {
    AckedByCalls(p, Majority(cfg.n));
    AckedByCalls(q, Majority(cfg.n));
  }

  /** The two ways to stall: the worklist comes to another node first, or a node depends on another. */
  lemma SomeStalling(cfg: Config, o: nat, a: nat) returns (p: Payload, q: Payload)
    requires o in Ids(cfg.n) && a in Ids(cfg.n)
    requires !OwnNextLast(cfg, o) || (o in cfg.Dependencies(a) && a != o)
    ensures Stalling(cfg, p, q) && p.owner in Ids(cfg.n) && |p.clock| == |q.clock| == cfg.n + 1
  {
    var zeros := Empty(cfg.n).clock;
    q := Payload(o, o, 1, Lcb, false, zeros, "");
    if OwnNextLast(cfg, o) {
      p := Payload(a, a, 1, Lcb, false, zeros[o := 1], "");
    } else {
      p := Payload(o, o, 2, Lcb, false, zeros, "");
    }
  }

  /** Whatever the two maps are, the `Lcb` store never leaves a deliverable packet behind if and only if no node
      depends on another and the inverse map lists, for each node, nobody or the node itself last. */
  lemma NeverStallsIff(cfg: Config)
    ensures NeverStalls(cfg) <==> Unstalled(cfg)
  {
    if Unstalled(cfg) {
      forall calls | AllOf(calls, Lcb) && WellFormed(cfg, calls)
        ensures Settled(cfg, Inserts(cfg, calls))
      {
        UnstalledSettles(cfg, calls);
      }
    } else {
      hide Stalling, Inserts, MajorityAcks;
      var o :| o in Ids(cfg.n) &&
        !(OwnNextLast(cfg, o) && forall a | a in Ids(cfg.n) :: o in cfg.Dependencies(a) ==> a == o);
      var a :| a in Ids(cfg.n) && (!OwnNextLast(cfg, o) || (o in cfg.Dependencies(a) && a != o));
      var p, q := SomeStalling(cfg, o, a);
      MajorityAcksStall(cfg, p, q);
      StallingNumbers(cfg, p, q);
      MajorityAcksWellFormed(cfg, p, q);
      assert !Settled(cfg, Inserts(cfg, MajorityAcks(cfg, p, q)));
    }
  }

  lemma StallingNumbers(cfg: Config, p: Payload, q: Payload)
    requires Stalling(cfg, p, q)
    ensures p.kind == q.kind == Lcb && q.owner in Ids(cfg.n) && 1 <= p.packet && 1 <= q.packet && cfg.n >= 1
  {
  }

  /** For example, at node 2 of two nodes where node 2 depends on node 1: packet 2 of node 1 arrives first and is
      acked by both, then packet 1. The store delivers packet 1, finds nothing of node 2, and leaves packet 2,
      which it may deliver. */
  lemma StallsForTwoNodes()
    ensures var cfg := Config(2, Lcb, 2, map[2 := [1]], map[1 := [2]], map[]);
      var p, q := Payload(1, 1, 2, Lcb, false, [0, 0, 0], "2"), Payload(1, 1, 1, Lcb, false, [0, 0, 0], "1");
      var s := Inserts(cfg, [Call(1, p), Call(2, p), Call(1, q), Call(2, q)]);
      Key(1, 1) in s.delivered && Key(1, 2) !in s.delivered &&
      Key(1, 2) in s.undelivered && Ready(cfg, s, s.undelivered[Key(1, 2)])
  {
    var cfg := Config(2, Lcb, 2, map[2 := [1]], map[1 := [2]], map[]);
    var p, q := Payload(1, 1, 2, Lcb, false, [0, 0, 0], "2"), Payload(1, 1, 1, Lcb, false, [0, 0, 0], "1");
    assert MajorityAcks(cfg, p, q) == [Call(1, p), Call(2, p), Call(1, q), Call(2, q)] by {
      assert AckedBy(p, 1) == [Call(1, p)] && AckedBy(q, 1) == [Call(1, q)];
    }
    MajorityAcksStall(cfg, p, q);
  }
}
