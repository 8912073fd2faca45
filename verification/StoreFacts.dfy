/** What every `insert` keeps true of a store. Each fact is shown of one delivery, then of the worklist
    loop by induction on the buffer, then of `Insert`, then of any sequence of calls. */
module StoreFacts {
  import opened Basics
  import opened Messages
  import opened Store

  // ---- What one call may change ----

  /** `t` is `s` after deliveries only. */
  ghost predicate Grows(s: Store, t: Store)
  {
    && t.acked == s.acked
    && t.counter == s.counter
    && |t.clock| == |s.clock|
    && s.delivered <= t.delivered
    && (forall k :: k in t.undelivered ==> k in s.undelivered && t.undelivered[k] == s.undelivered[k])
    && s.log <= t.log
    && (forall i :: |s.log| <= i < |t.log| ==>
          t.log[i].Delivery? && exists k :: k in s.undelivered && s.undelivered[k] == t.log[i].payload)
  }

  lemma DeliverOneGrows(s: Store, k: Key)
    requires k in s.undelivered
    ensures Grows(s, DeliverOne(s, k))
  {
  }

  lemma {:induction false} CascadeGrows(cfg: Config, s: Store, work: seq<Key>)
    ensures Grows(s, Cascade(cfg, s, work))
    decreases |s.undelivered|
  {
    if Deliverable(cfg, s, work) {
      var k := work[|work| - 1];
      var t := DeliverOne(s, k);
      DropKeySize(s.undelivered, k);
      DeliverOneGrows(s, k);
      CascadeGrows(cfg, t, work[..|work| - 1] + Followups(cfg, t, s.undelivered[k]));
    }
  }

  /** An `insert` records one ack, and may log and buffer only the payload it was given and payloads
      that were already buffered. */
  lemma InsertFrame(cfg: Config, s: Store, sender: nat, p: Payload)
    ensures var t := Insert(cfg, s, sender, p);
      && t.acked == s.acked + {Ack(sender, p.Id())}
      && |t.clock| == |s.clock|
      && s.delivered <= t.delivered
      && (forall k :: k in t.undelivered ==>
            t.undelivered[k] == p || (k in s.undelivered && t.undelivered[k] == s.undelivered[k]))
      && s.log <= t.log
      && (forall i :: |s.log| <= i < |t.log| ==> t.log[i].Delivery?)
      && (forall i :: |s.log| <= i < |t.log| ==>
            t.log[i].payload == p || exists k :: k in s.undelivered && s.undelivered[k] == t.log[i].payload)
  {
    if p.Id() !in s.delivered {
      CascadeGrows(cfg, Buffer(s, sender, p), [p.Id()]);
    }
  }

  /** Whatever the causality map and its inverse are, a worklist loop only moves packets from the buffer
      to the log. So it stops, and one call delivers at most the packets that are buffered. */
  lemma {:induction false} CascadeMovesBufferToLog(cfg: Config, s: Store, work: seq<Key>)
    ensures var t := Cascade(cfg, s, work);
      && |t.log| + |t.undelivered| == |s.log| + |s.undelivered|
      && |t.log| - |s.log| <= |s.undelivered|
    decreases |s.undelivered|
  {
    if Deliverable(cfg, s, work) {
      var k := work[|work| - 1];
      var t := DeliverOne(s, k);
      DropKeySize(s.undelivered, k);
      CascadeMovesBufferToLog(cfg, t, work[..|work| - 1] + Followups(cfg, t, s.undelivered[k]));
    }
  }

  // ---- Coherence, for payloads of every kind ----

  lemma SendersOfOne(acked: set<Ack>, sender: nat, k: Key, j: Key)
    ensures Senders(acked + {Ack(sender, k)}, j) ==
      if j == k then Senders(acked, j) + {sender} else Senders(acked, j)
  {
  }

  lemma SenderIsThere(acked: set<Ack>, sender: nat, k: Key)
    ensures sender in Senders(acked, k) <==> Ack(sender, k) in acked
  {
    if sender in Senders(acked, k) {
      var a :| a in acked && a.key == k && a.sender == sender;
      assert a == Ack(sender, k);
    }
    assert Ack(sender, k) in acked ==> Ack(sender, k).sender in Senders(acked, k);
  }

  /** The counter counts the distinct ackers of each packet. */
  ghost predicate CounterExact(s: Store)
  {
    && (forall k :: k in s.counter ==> s.counter[k] == |Senders(s.acked, k)|)
    && (forall k :: k in s.counter <==> Senders(s.acked, k) != {})
  }

  /** Acked packets are exactly those that are delivered or buffered, never both. */
  ghost predicate Conserved(s: Store)
  {
    && (forall k :: k in s.delivered || k in s.undelivered <==> Senders(s.acked, k) != {})
    && s.delivered !! s.undelivered.Keys
  }

  /** Each packet is buffered under its own name. */
  ghost predicate Named(s: Store)
  {
    forall k :: k in s.undelivered ==> s.undelivered[k].Id() == k
  }

  /** The log delivers exactly the delivered packets, each of them once. */
  ghost predicate LoggedOnce(s: Store)
  {
    && (forall i: nat :: i < |s.log| && s.log[i].Delivery? ==> s.log[i].payload.Id() in s.delivered)
    && (forall k :: k in s.delivered ==> exists i: nat :: DeliversAt(s.log, i, k))
    && (forall i: nat, j: nat, k :: DeliversAt(s.log, i, k) && DeliversAt(s.log, j, k) ==> i == j)
  }

  ghost predicate Coherent(s: Store)
  {
    CounterExact(s) && Conserved(s) && Named(s) && LoggedOnce(s)
  }

  lemma DeliverOneLogsOnce(s: Store, k: Key)
    requires LoggedOnce(s) && k in s.undelivered && s.undelivered[k].Id() == k && k !in s.delivered
    ensures LoggedOnce(DeliverOne(s, k))
  {
    var t := DeliverOne(s, k);
    assert forall i: nat, j :: i < |s.log| ==> (DeliversAt(s.log, i, j) <==> DeliversAt(t.log, i, j));
    assert DeliversAt(t.log, |s.log|, k);
    forall j | j in t.delivered
      ensures exists i: nat :: DeliversAt(t.log, i, j)
    {
      if j != k {
        var i: nat :| DeliversAt(s.log, i, j);
        assert DeliversAt(t.log, i, j);
      }
    }
  }

  lemma DeliverOneCoherent(s: Store, k: Key)
    requires Coherent(s) && k in s.undelivered
    ensures Coherent(DeliverOne(s, k))
  {
    DeliverOneLogsOnce(s, k);
  }

  lemma {:induction false} CascadeCoherent(cfg: Config, s: Store, work: seq<Key>)
    requires Coherent(s)
    ensures Coherent(Cascade(cfg, s, work))
    decreases |s.undelivered|
  {
    if Deliverable(cfg, s, work) {
      var k := work[|work| - 1];
      var t := DeliverOne(s, k);
      DropKeySize(s.undelivered, k);
      DeliverOneCoherent(s, k);
      CascadeCoherent(cfg, t, work[..|work| - 1] + Followups(cfg, t, s.undelivered[k]));
    }
  }

  lemma RecordSenders(s: Store, sender: nat, k: Key)
    ensures Senders(Record(s, sender, k).acked, k) == Senders(s.acked, k) + {sender}
    ensures forall j :: j != k ==> Senders(Record(s, sender, k).acked, j) == Senders(s.acked, j)
  {
    assert Record(s, sender, k).acked == s.acked + {Ack(sender, k)};
    forall j {
      SendersOfOne(s.acked, sender, k, j);
    }
  }

  lemma RecordCounts(s: Store, sender: nat, k: Key)
    requires CounterExact(s)
    ensures CounterExact(Record(s, sender, k))
    ensures Ack(sender, k) in Record(s, sender, k).acked
  {
    var t := Record(s, sender, k);
    SenderIsThere(s.acked, sender, k);
    RecordSenders(s, sender, k);
    var before, after := Senders(s.acked, k), Senders(t.acked, k);
    assert after == before + {sender};
    if Ack(sender, k) !in s.acked {
      assert |after| == |before| + 1;
    }
  }

  lemma BufferCoherent(s: Store, sender: nat, p: Payload)
    requires Coherent(s) && p.Id() !in s.delivered
    ensures Coherent(Buffer(s, sender, p))
  {
    RecordCounts(s, sender, p.Id());
    RecordSenders(s, sender, p.Id());
  }

  lemma InsertCoherent(cfg: Config, s: Store, sender: nat, p: Payload)
    requires Coherent(s)
    ensures Coherent(Insert(cfg, s, sender, p))
  {
    RecordCounts(s, sender, p.Id());
    RecordSenders(s, sender, p.Id());
    if p.Id() !in s.delivered {
      BufferCoherent(s, sender, p);
      CascadeCoherent(cfg, Buffer(s, sender, p), [p.Id()]);
    }
  }

  /** After any calls, of any and even of mixed kinds: the counters count distinct ackers, every acked
      packet is either delivered or buffered, and the log holds each delivered packet exactly once. */
  lemma {:induction false} InsertsCoherent(cfg: Config, calls: seq<Call>)
    ensures Coherent(Inserts(cfg, calls))
  {
    if calls != [] {
      var last := calls[|calls| - 1];
      InsertsCoherent(cfg, calls[..|calls| - 1]);
      InsertCoherent(cfg, Inserts(cfg, calls[..|calls| - 1]), last.sender, last.payload);
    }
  }

  // ---- Majorities: the kinds Urb, Fifob and Lcb ----

  predicate Uniform(kind: Kind)
  {
    kind in {Urb, Fifob, Lcb}
  }

  ghost predicate Buffers(s: Store, kinds: set<Kind>)
  {
    forall k :: k in s.undelivered ==> s.undelivered[k].kind in kinds
  }

  /** Every delivered packet has a majority of distinct ackers. */
  ghost predicate MajorityAcked(cfg: Config, s: Store)
  {
    forall k :: k in s.delivered ==> k in s.counter && s.counter[k] >= Majority(cfg.n)
  }

  lemma DeliverOneMajorityAcked(cfg: Config, s: Store, k: Key)
    requires Named(s) && MajorityAcked(cfg, s) && k in s.undelivered
    requires Uniform(s.undelivered[k].kind) && Ready(cfg, s, s.undelivered[k])
    ensures MajorityAcked(cfg, DeliverOne(s, k))
  {
  }

  lemma {:induction false} CascadeMajorityAcked(cfg: Config, s: Store, work: seq<Key>)
    requires Named(s) && Buffers(s, {Urb, Fifob, Lcb}) && MajorityAcked(cfg, s)
    ensures MajorityAcked(cfg, Cascade(cfg, s, work))
    decreases |s.undelivered|
  {
    if Deliverable(cfg, s, work) {
      var k := work[|work| - 1];
      var t := DeliverOne(s, k);
      DropKeySize(s.undelivered, k);
      DeliverOneMajorityAcked(cfg, s, k);
      CascadeMajorityAcked(cfg, t, work[..|work| - 1] + Followups(cfg, t, s.undelivered[k]));
    }
  }

  lemma InsertMajorityAcked(cfg: Config, s: Store, sender: nat, p: Payload)
    requires Named(s) && Buffers(s, {Urb, Fifob, Lcb}) && MajorityAcked(cfg, s) && Uniform(p.kind)
    ensures MajorityAcked(cfg, Insert(cfg, s, sender, p))
    ensures Buffers(Insert(cfg, s, sender, p), {Urb, Fifob, Lcb})
  {
    InsertFrame(cfg, s, sender, p);
    if p.Id() !in s.delivered {
      CascadeMajorityAcked(cfg, Buffer(s, sender, p), [p.Id()]);
    }
  }

  // ---- FIFO order: the kinds Fifob and Lcb ----

  /** Packet numbers of each owner appear in the log as 1, 2, 3, ... */
  ghost predicate FifoLog(log: seq<Event>)
  {
    forall i: nat :: i < |log| && log[i].Delivery? ==>
      log[i].payload.packet == Count(log[..i], log[i].payload.owner) + 1
  }

  /** The frontier, the delivered set and the log tell the same story about every owner. */
  ghost predicate InOrder(s: Store)
  {
    && FifoLog(s.log)
    && (forall o :: Next(s, o) == Count(s.log, o) + 1)
    && (forall k :: k in s.delivered <==> 1 <= k.packet < Next(s, k.owner))
  }

  lemma FifoInit(log: seq<Event>)
    requires FifoLog(log) && log != []
    ensures var init, e := log[..|log| - 1], log[|log| - 1];
      FifoLog(init) && (e.Delivery? ==> e.payload.packet == Count(init, e.payload.owner) + 1)
  {
    hide Count;
    var init := log[..|log| - 1];
    assert forall x: nat :: x < |init| ==> init[..x] == log[..x];
  }

  lemma CountAppend(log: seq<Event>, e: Event, o: nat)
    ensures Count(log + [e], o) == Count(log, o) + if e.Delivery? && e.payload.owner == o then 1 else 0
  {
    assert (log + [e])[..|log|] == log;
  }

  lemma FifoLogAppend(log: seq<Event>, e: Event)
    requires FifoLog(log)
    requires e.Delivery? ==> e.payload.packet == Count(log, e.payload.owner) + 1
    ensures FifoLog(log + [e])
  {
    forall i: nat | i < |log + [e]| && (log + [e])[i].Delivery?
      ensures (log + [e])[i].payload.packet == Count((log + [e])[..i], (log + [e])[i].payload.owner) + 1
    {
      PrefixOfAppend(log, [e], i);
      assert log[..|log|] == log;
    }
  }

  lemma {:induction false} CountGrows(log: seq<Event>, x: nat, y: nat, o: nat)
    requires x <= y <= |log|
    ensures Count(log[..x], o) <= Count(log[..y], o)
  {
    if x < y {
      assert log[..y][..y - 1] == log[..y - 1];
      CountGrows(log, x, y - 1, o);
    }
  }

  /** In a FIFO log the packets counted so far have been delivered, each at its own position. */
  lemma {:induction false} CountedIsDelivered(log: seq<Event>, y: nat, o: nat, q: nat) returns (x: nat)
    requires FifoLog(log) && y <= |log| && 1 <= q <= Count(log[..y], o)
    ensures x < y && DeliversAt(log, x, Key(o, q))
  {
    assert log[..y][..y - 1] == log[..y - 1];
    if q <= Count(log[..y - 1], o) {
      x := CountedIsDelivered(log, y - 1, o, q);
    } else {
      x := y - 1;
    }
  }

  /** One more delivery of node `o` moves its frontier by one and keeps the others. */
  lemma FrontierMoves(s: Store, t: Store, e: Event)
    requires e.Delivery? && e.payload.packet == Next(s, e.payload.owner)
    requires t.upTo == s.upTo[e.payload.owner := e.payload.packet + 1] && t.log == s.log + [e]
    requires forall o :: Next(s, o) == Count(s.log, o) + 1
    ensures forall o :: Next(t, o) == Count(t.log, o) + 1
    ensures forall o :: Next(t, o) == Next(s, o) + if o == e.payload.owner then 1 else 0
  {
    hide Count;
    forall o
      ensures Next(t, o) == Count(t.log, o) + 1
    {
      CountAppend(s.log, e, o);
    }
  }

  /** Delivering the next packet of a node keeps its frontier, its delivered packets and the log in step. */
  lemma NextKeepsOrder(s: Store, k: Key)
    requires InOrder(s) && k in s.undelivered && s.undelivered[k].kind in {Fifob, Lcb}
    requires s.undelivered[k].packet == Next(s, s.undelivered[k].owner)
    ensures InOrder(DeliverOne(s, k))
  {
    var e, t := Delivery(s.undelivered[k]), DeliverOne(s, k);
    FifoLogAppend(s.log, e);
    hide FifoLog, Count;
    FrontierMoves(s, t, e);
    assert t.delivered == s.delivered + {e.payload.Id()};
    hide DeliverOne, Next;
  }

  lemma DeliverOneInOrder(cfg: Config, s: Store, k: Key)
    requires InOrder(s) && k in s.undelivered
    requires s.undelivered[k].kind in {Fifob, Lcb} && Ready(cfg, s, s.undelivered[k])
    ensures InOrder(DeliverOne(s, k))
  {
    hide InOrder;
    NextKeepsOrder(s, k);
  }

  lemma {:induction false} CascadeInOrder(cfg: Config, s: Store, work: seq<Key>)
    requires Named(s) && Buffers(s, {Fifob, Lcb}) && InOrder(s)
    ensures InOrder(Cascade(cfg, s, work))
    decreases |s.undelivered|
  {
    if Deliverable(cfg, s, work) {
      var k := work[|work| - 1];
      var t := DeliverOne(s, k);
      DropKeySize(s.undelivered, k);
      DeliverOneInOrder(cfg, s, k);
      CascadeInOrder(cfg, t, work[..|work| - 1] + Followups(cfg, t, s.undelivered[k]));
    }
  }

  lemma InsertInOrder(cfg: Config, s: Store, sender: nat, p: Payload)
    requires Named(s) && Buffers(s, {Fifob, Lcb}) && InOrder(s) && p.kind in {Fifob, Lcb}
    ensures InOrder(Insert(cfg, s, sender, p))
    ensures Buffers(Insert(cfg, s, sender, p), {Fifob, Lcb})
  {
    hide FifoLog, Count, Cascade;
    InsertFrame(cfg, s, sender, p);
    if p.Id() !in s.delivered {
      CascadeInOrder(cfg, Buffer(s, sender, p), [p.Id()]);
    }
  }

  /** What is out of order keeps no frontier, and only `Lcb` keeps a clock. */
  ghost predicate Unordered(s: Store, kind: Kind)
  {
    && (kind !in {Fifob, Lcb} ==> s.upTo == map[])
    && (kind != Lcb ==> forall d :: At(s.clock, d) == 0)
  }

  lemma {:induction false} CascadeUnordered(cfg: Config, s: Store, work: seq<Key>, kind: Kind)
    requires Buffers(s, {kind}) && Unordered(s, kind)
    ensures Unordered(Cascade(cfg, s, work), kind)
    decreases |s.undelivered|
  {
    if Deliverable(cfg, s, work) {
      var k := work[|work| - 1];
      var t := DeliverOne(s, k);
      DropKeySize(s.undelivered, k);
      CascadeUnordered(cfg, t, work[..|work| - 1] + Followups(cfg, t, s.undelivered[k]), kind);
    }
  }

  lemma InsertUnordered(cfg: Config, s: Store, sender: nat, p: Payload)
    requires Buffers(s, {p.kind}) && Unordered(s, p.kind)
    ensures Unordered(Insert(cfg, s, sender, p), p.kind)
  {
    if p.Id() !in s.delivered {
      CascadeUnordered(cfg, Buffer(s, sender, p), [p.Id()], p.kind);
    }
  }

  // ---- Localized causal order: the kind Lcb ----

  /** Each delivered packet came after as many packets of each of its dependencies as its clock asks for. */
  ghost predicate CausalLog(cfg: Config, log: seq<Event>)
  {
    forall i: nat, d: nat :: i < |log| && log[i].Delivery? && d in cfg.Dependencies(log[i].payload.owner) ==>
      At(log[i].payload.clock, d) <= Count(log[..i], d)
  }

  ghost predicate Causal(cfg: Config, s: Store)
  {
    && CausalLog(cfg, s.log)
    && (forall d: nat :: d < |s.clock| ==> s.clock[d] == Count(s.log, d))
  }

  lemma CausalLogAppend(cfg: Config, log: seq<Event>, e: Event)
    requires CausalLog(cfg, log)
    requires e.Delivery? ==>
      forall d :: d in cfg.Dependencies(e.payload.owner) ==> At(e.payload.clock, d) <= Count(log, d)
    ensures CausalLog(cfg, log + [e])
  {
    hide Count;
    forall i: nat, d: nat | i < |log + [e]| && (log + [e])[i].Delivery? &&
      d in cfg.Dependencies((log + [e])[i].payload.owner)
      ensures At((log + [e])[i].payload.clock, d) <= Count((log + [e])[..i], d)
    {
      PrefixOfAppend(log, [e], i);
      assert log[..|log|] == log;
    }
  }

  lemma DeliverOneCausal(cfg: Config, s: Store, k: Key)
    requires Causal(cfg, s) && k in s.undelivered
    requires s.undelivered[k].kind == Lcb && Ready(cfg, s, s.undelivered[k])
    ensures Causal(cfg, DeliverOne(s, k))
  {
    var e := Delivery(s.undelivered[k]);
    CausalLogAppend(cfg, s.log, e);
    hide CausalLog, Count;
    forall d {
      CountAppend(s.log, e, d);
    }
  }

  lemma {:induction false} CascadeCausal(cfg: Config, s: Store, work: seq<Key>)
    requires Buffers(s, {Lcb}) && Causal(cfg, s)
    ensures Causal(cfg, Cascade(cfg, s, work))
    decreases |s.undelivered|
  {
    if Deliverable(cfg, s, work) {
      var k := work[|work| - 1];
      var t := DeliverOne(s, k);
      DropKeySize(s.undelivered, k);
      DeliverOneCausal(cfg, s, k);
      CascadeCausal(cfg, t, work[..|work| - 1] + Followups(cfg, t, s.undelivered[k]));
    }
  }

  lemma InsertCausal(cfg: Config, s: Store, sender: nat, p: Payload)
    requires Buffers(s, {Lcb}) && Causal(cfg, s) && p.kind == Lcb
    ensures Causal(cfg, Insert(cfg, s, sender, p))
    ensures Buffers(Insert(cfg, s, sender, p), {Lcb})
  {
    InsertFrame(cfg, s, sender, p);
    if p.Id() !in s.delivered {
      CascadeCausal(cfg, Buffer(s, sender, p), [p.Id()]);
    }
  }

  // ---- Nothing deliverable is left behind: the kinds Urb and Fifob ----

  /** No buffered packet may be delivered. */
  ghost predicate Settled(cfg: Config, s: Store)
  {
    forall k :: k in s.undelivered ==> !Ready(cfg, s, s.undelivered[k])
  }

  /** Only the packet `k` may be deliverable. */
  ghost predicate SettledBut(cfg: Config, s: Store, k: Key)
  {
    forall j :: j in s.undelivered && j != k ==> !Ready(cfg, s, s.undelivered[j])
  }

  /** An ack of `k` makes no other packet deliverable. */
  lemma RecordSettled(cfg: Config, s: Store, sender: nat, k: Key)
    requires Named(s) && Settled(cfg, s) && Buffers(s, {Urb, Fifob, Lcb})
    ensures SettledBut(cfg, Record(s, sender, k), k)
  {
  }

  lemma BufferSettled(cfg: Config, s: Store, sender: nat, p: Payload, kinds: set<Kind>)
    requires Named(s) && Settled(cfg, s) && Buffers(s, kinds) && p.kind in kinds && kinds <= {Urb, Fifob, Lcb}
    ensures SettledBut(cfg, Buffer(s, sender, p), p.Id())
    ensures Named(Buffer(s, sender, p)) && Buffers(Buffer(s, sender, p), kinds)
  {
  }

  /** A delivery lets only the next packet of the same node be delivered, and in `Urb` none. */
  lemma DeliverOneSettles(cfg: Config, s: Store, k: Key)
    requires Named(s) && Buffers(s, {Urb, Fifob}) && SettledBut(cfg, s, k) && k in s.undelivered
    ensures var t, p := DeliverOne(s, k), s.undelivered[k];
      if p.kind == Fifob then SettledBut(cfg, t, Key(p.owner, p.packet + 1)) else Settled(cfg, t)
  {
    var t := DeliverOne(s, k);
    forall j | j in t.undelivered && Ready(cfg, t, t.undelivered[j])
      ensures s.undelivered[k].kind == Fifob && j == Key(k.owner, k.packet + 1)
    {
      assert !Ready(cfg, s, s.undelivered[j]);
    }
  }

  lemma {:induction false} CascadeSettles(cfg: Config, s: Store, k: Key)
    requires Named(s) && Buffers(s, {Urb, Fifob}) && SettledBut(cfg, s, k)
    ensures Settled(cfg, Cascade(cfg, s, [k]))
    decreases |s.undelivered|
  {
    hide Ready;
    if Deliverable(cfg, s, [k]) {
      var p := s.undelivered[k];
      var t := DeliverOne(s, k);
      DropKeySize(s.undelivered, k);
      DeliverOneSettles(cfg, s, k);
      var next := Key(p.owner, p.packet + 1);
      if p.kind == Fifob {
        assert [k][..0] + Followups(cfg, t, p) == [next];
        CascadeSettles(cfg, t, next);
      } else {
        assert [k][..0] + Followups(cfg, t, p) == [];
      }
    }
  }

  lemma InsertSettles(cfg: Config, s: Store, sender: nat, p: Payload)
    requires Named(s) && s.delivered !! s.undelivered.Keys
    requires Buffers(s, {Urb, Fifob}) && Settled(cfg, s) && p.kind in {Urb, Fifob}
    ensures Settled(cfg, Insert(cfg, s, sender, p))
    ensures Buffers(Insert(cfg, s, sender, p), {Urb, Fifob})
  {
    hide Cascade, Ready;
    InsertFrame(cfg, s, sender, p);
    if p.Id() !in s.delivered {
      BufferSettled(cfg, s, sender, p, {Urb, Fifob});
      CascadeSettles(cfg, Buffer(s, sender, p), p.Id());
    } else {
      RecordSettled(cfg, s, sender, p.Id());
    }
  }
}
