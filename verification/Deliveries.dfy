/** What one `insert` delivers, told by the log, the acks and the buffered packets alone: the deliveries form a
    chain, each packet names the next, and the chain ends exactly where the next packet is not there or may
    not be delivered yet. */
module Deliveries {
  import opened Basics
  import opened Messages
  import opened Store
  import opened StoreFacts
  import opened Protocol
  import opened NodeFacts
  import opened Invariants

  /** After `log`, with these acks, `c` may be delivered: it has a majority, if its kind asks for one, is next of its
      owner, if its kind is ordered, and in causal order the log has what its clock asks for. */
  ghost predicate MayDeliver(cfg: Config, log: seq<Event>, acked: set<Ack>, c: Payload)
  {
    && (c.kind in {Urb, Fifob, Lcb} ==> |Senders(acked, c.Id())| >= cfg.n / 2 + 1)
    && (c.kind in {Fifob, Lcb} ==> c.packet == Count(log, c.owner) + 1)
    && (c.kind == Lcb && c.owner in cfg.causality ==>
          forall d :: d in cfg.causality[c.owner] ==> At(c.clock, d) <= Count(log, d))
  }

  /** The node whose packet comes next after a delivery of `c`: the last one that the inverse map lists for the owner
      of `c`, in causal order, and otherwise the owner itself. */
  function Successor(cfg: Config, c: Payload): nat
  {
    if c.kind == Lcb && c.owner in cfg.inverse && cfg.inverse[c.owner] != [] then
      var affected := cfg.inverse[c.owner];
      affected[|affected| - 1]
    else
      c.owner
  }

  /** The packet that comes at position `x` of the log, if any does: first `k`, and then the next in FIFO order of the
      successor of the packet before. */
  function Expected(cfg: Config, start: nat, k: Key, log: seq<Event>, x: nat): Key
    requires start <= x <= |log|
  {
    if x == start then
      k
    else
      var o := Successor(cfg, log[x - 1].payload);
      Key(o, Count(log[..x], o) + 1)
  }

  /** A packet of the buffer that was logged after `log`. */
  ghost predicate LoggedSince(log: seq<Event>, after: seq<Event>, j: Key)
  {
    exists x :: |log| <= x < |after| && after[x].payload.Id() == j
  }

  /** The log entry at position `x` is the delivery that comes there, and the packet may be delivered then. */
  ghost predicate InChain(cfg: Config, start: nat, k: Key, buffer: map<Key, Payload>, acked: set<Ack>,
                          log: seq<Event>, x: nat)
    requires start <= x < |log|
  {
    var j := Expected(cfg, start, k, log, x);
    j in buffer && log[x] == Delivery(buffer[j]) && MayDeliver(cfg, log[..x], acked, buffer[j])
  }

  /** The packet that comes next is not left in the buffer, or may not be delivered. */
  ghost predicate ChainEnds(cfg: Config, start: nat, k: Key, t: Store)
    requires start <= |t.log|
  {
    var j := Expected(cfg, start, k, t.log, |t.log|);
    j in t.undelivered ==> !MayDeliver(cfg, t.log, t.acked, t.undelivered[j])
  }

  /** The buffer has lost just what was logged since. */
  ghost predicate BufferLeft(log: seq<Event>, buffer: map<Key, Payload>, t: Store)
  {
    && (forall j :: j in t.undelivered <==> j in buffer && !LoggedSince(log, t.log, j))
    && (forall j :: j in t.undelivered ==> t.undelivered[j] == buffer[j])
  }

  /** `t` is what a chain of deliveries that starts with `k` makes of a log and a buffer; without order a chain has
      one packet at most. */
  ghost predicate DeliversFrom(cfg: Config, kind: Kind, log: seq<Event>, buffer: map<Key, Payload>, acked: set<Ack>,
                               k: Key, t: Store)
  {
    && t.acked == acked && log <= t.log
    && (forall x :: |log| <= x < |t.log| ==> InChain(cfg, |log|, k, buffer, acked, t.log, x))
    && (if kind in {Fifob, Lcb} || |t.log| == |log| then ChainEnds(cfg, |log|, k, t) else |t.log| == |log| + 1)
    && BufferLeft(log, buffer, t)
  }

  /** A store of one kind of payload: its parts agree, as after any inserts. */
  ghost predicate Sound(cfg: Config, s: Store, kind: Kind)
  {
    && Coherent(s) && Buffers(s, {kind})
    && (kind in {Fifob, Lcb} ==> InOrder(s))
    && (kind == Lcb ==> ClockInStep(cfg, s))
  }

  /** The clock counts the deliveries, and buffered packets carry clocks of the same length. */
  ghost predicate ClockInStep(cfg: Config, s: Store)
  {
    && |s.clock| == cfg.n + 1
    && (forall d :: 0 <= d < |s.clock| ==> s.clock[d] == Count(s.log, d))
    && (forall k :: k in s.undelivered ==> |s.undelivered[k].clock| == cfg.n + 1)
  }

  /** What the store tests is what the log and the acks say. */
  lemma ReadyMeans(cfg: Config, s: Store, k: Key, kind: Kind)
    requires Sound(cfg, s, kind) && k in s.undelivered
    ensures Ready(cfg, s, s.undelivered[k]) <==> MayDeliver(cfg, s.log, s.acked, s.undelivered[k])
  {
    hide Conserved, LoggedOnce, FifoLog, Count;
    var c := s.undelivered[k];
    assert c.Id() == k && c.kind == kind;
    assert UrbReady(cfg, s, c) <==> |Senders(s.acked, k)| >= cfg.n / 2 + 1 by {
      assert Senders(s.acked, k) == {} ==> k !in s.counter;
    }
    if kind == Lcb {
      forall d
        ensures At(s.clock, d) >= At(c.clock, d) <==> At(c.clock, d) <= Count(s.log, d)
      {
      }
    }
  }

  lemma DeliverOneSound(cfg: Config, s: Store, k: Key, kind: Kind)
    requires Sound(cfg, s, kind) && k in s.undelivered && Ready(cfg, s, s.undelivered[k])
    ensures Sound(cfg, DeliverOne(s, k), kind)
  {
    hide Coherent, InOrder, Ready, ClockInStep;
    DeliverOneCoherent(s, k);
    if kind in {Fifob, Lcb} {
      DeliverOneInOrder(cfg, s, k);
    }
    if kind == Lcb {
      DeliverOneClock(cfg, s, k);
    }
  }

  lemma DeliverOneClock(cfg: Config, s: Store, k: Key)
    requires ClockInStep(cfg, s) && k in s.undelivered && s.undelivered[k].kind == Lcb
    ensures ClockInStep(cfg, DeliverOne(s, k))
  {
    hide Count;
    forall d {
      CountAppend(s.log, Delivery(s.undelivered[k]), d);
    }
  }

  /** The worklist ends with the next packet of the successor. */
  lemma LastFollowup(cfg: Config, t: Store, c: Payload)
    requires c.kind in {Fifob, Lcb} && InOrder(t) && Next(t, c.owner) == c.packet + 1
    ensures var more, o := Followups(cfg, t, c), Successor(cfg, c);
      more != [] && more[|more| - 1] == Key(o, Count(t.log, o) + 1)
  {
    hide FifoLog, Count;
  }

  /** A chain with one more delivery at its start. */
  lemma OneMore(cfg: Config, kind: Kind, log: seq<Event>, buffer: map<Key, Payload>, acked: set<Ack>, k: Key, t: Store)
    requires kind in {Fifob, Lcb} && k in buffer && buffer[k].Id() == k && MayDeliver(cfg, log, acked, buffer[k])
    requires var c := buffer[k];
      var o := Successor(cfg, c);
      DeliversFrom(cfg, kind, log + [Delivery(c)], buffer - {k}, acked, Key(o, Count(log + [Delivery(c)], o) + 1), t)
    ensures DeliversFrom(cfg, kind, log, buffer, acked, k, t)
  {
    hide InChain, ChainEnds, BufferLeft, MayDeliver, Successor, Count;
    var c := buffer[k];
    var first := log + [Delivery(c)];
    assert t.log[..|log|] == log && t.log[..|first|] == first && t.log[|log|] == Delivery(c);
    var o := Successor(cfg, c);
    var next := Key(o, Count(first, o) + 1);
    forall x | |log| <= x < |t.log|
      ensures InChain(cfg, |log|, k, buffer, acked, t.log, x)
    {
      ChainLonger(cfg, log, k, next, buffer, acked, t.log, x);
    }
    EndsLater(cfg, log, k, next, c, t);
    MoreLeft(log, buffer, k, t);
  }

  lemma SameExpected(cfg: Config, start: nat, k: Key, next: Key, log: seq<Event>, x: nat)
    requires start + 1 <= x <= |log|
    requires var o := Successor(cfg, log[start].payload); next == Key(o, Count(log[..start + 1], o) + 1)
    ensures Expected(cfg, start + 1, next, log, x) == Expected(cfg, start, k, log, x)
  {
    hide Successor, Count;
  }

  lemma ChainLonger(cfg: Config, log: seq<Event>, k: Key, next: Key, buffer: map<Key, Payload>, acked: set<Ack>,
                    after: seq<Event>, x: nat)
    requires |log| <= x < |after| && after[..|log|] == log && k in buffer && after[|log|] == Delivery(buffer[k])
    requires MayDeliver(cfg, log, acked, buffer[k])
    requires var o := Successor(cfg, buffer[k]); next == Key(o, Count(after[..|log| + 1], o) + 1)
    requires x > |log| ==> InChain(cfg, |log| + 1, next, buffer - {k}, acked, after, x)
    ensures InChain(cfg, |log|, k, buffer, acked, after, x)
  {
    hide Successor, Count, MayDeliver;
    if x > |log| {
      SameExpected(cfg, |log|, k, next, after, x);
    }
  }

  lemma EndsLater(cfg: Config, log: seq<Event>, k: Key, next: Key, c: Payload, t: Store)
    requires |log| < |t.log| && t.log[|log|] == Delivery(c) && ChainEnds(cfg, |log| + 1, next, t)
    requires var o := Successor(cfg, c); next == Key(o, Count(t.log[..|log| + 1], o) + 1)
    ensures ChainEnds(cfg, |log|, k, t)
  {
    hide Successor, Count, MayDeliver;
    SameExpected(cfg, |log|, k, next, t.log, |t.log|);
  }

  lemma MoreLeft(log: seq<Event>, buffer: map<Key, Payload>, k: Key, t: Store)
    requires k in buffer && buffer[k].Id() == k && |log| < |t.log| && t.log[|log|] == Delivery(buffer[k])
    requires BufferLeft(log + [Delivery(buffer[k])], buffer - {k}, t)
    ensures BufferLeft(log, buffer, t)
  {
    hide LoggedSince;
    forall j
      ensures LoggedSince(log, t.log, j) <==> j == k || LoggedSince(log + [Delivery(buffer[k])], t.log, j)
    {
      SinceFirst(log, t.log, buffer[k], j);
    }
  }

  lemma SinceFirst(log: seq<Event>, after: seq<Event>, c: Payload, j: Key)
    requires |log| < |after| && after[|log|] == Delivery(c)
    ensures LoggedSince(log, after, j) <==> j == c.Id() || LoggedSince(log + [Delivery(c)], after, j)
  {
    if LoggedSince(log, after, j) {
      var x :| |log| <= x < |after| && after[x].payload.Id() == j;
      assert x > |log| ==> LoggedSince(log + [Delivery(c)], after, j);
    }
  }

  lemma {:induction false} CascadeDelivers(cfg: Config, kind: Kind, s: Store, work: seq<Key>, k: Key)
    requires Sound(cfg, s, kind) && work != [] && work[|work| - 1] == k && (kind in {Fifob, Lcb} || |work| == 1)
    ensures DeliversFrom(cfg, kind, s.log, s.undelivered, s.acked, k, Cascade(cfg, s, work))
    decreases |s.undelivered|
  {
    hide MayDeliver, Ready, Sound, Followups, DeliversFrom, DeliverOne;
    if k !in s.undelivered || !Ready(cfg, s, s.undelivered[k]) {
      NoDelivery(cfg, kind, s, k);
    } else {
      ReadyMeans(cfg, s, k, kind);
      var c, t := s.undelivered[k], DeliverOne(s, k);
      var more := work[..|work| - 1] + Followups(cfg, t, c);
      OfItsKind(cfg, s, k, kind);
      if kind in {Fifob, Lcb} {
        DropKeySize(s.undelivered, k);
        DeliverOneSound(cfg, s, k, kind);
        FollowsOn(cfg, s, k, kind);
        CascadeDelivers(cfg, kind, t, more, more[|more| - 1]);
        OneMore(cfg, kind, s.log, s.undelivered, s.acked, k, Cascade(cfg, t, more));
      } else {
        assert more == [] by { NoFollowups(cfg, t, c); }
        assert Cascade(cfg, t, more) == t;
        OnlyOne(cfg, kind, s, k);
      }
    }
  }

  /** A chain of none. */
  lemma NoDelivery(cfg: Config, kind: Kind, s: Store, k: Key)
    requires Sound(cfg, s, kind) && (k !in s.undelivered || !Ready(cfg, s, s.undelivered[k]))
    ensures DeliversFrom(cfg, kind, s.log, s.undelivered, s.acked, k, s)
  {
    if k in s.undelivered {
      ReadyMeans(cfg, s, k, kind);
    }
    hide MayDeliver, Ready, Sound, Count;
    assert s.log[..|s.log|] == s.log;
  }

  lemma NoFollowups(cfg: Config, t: Store, c: Payload)
    requires c.kind !in {Fifob, Lcb}
    ensures Followups(cfg, t, c) == []
  {
  }

  lemma OfItsKind(cfg: Config, s: Store, k: Key, kind: Kind)
    requires Sound(cfg, s, kind) && k in s.undelivered
    ensures s.undelivered[k].kind == kind && s.undelivered[k].Id() == k
  {
  }

  lemma FollowsOn(cfg: Config, s: Store, k: Key, kind: Kind)
    requires kind in {Fifob, Lcb} && Sound(cfg, s, kind) && k in s.undelivered && Ready(cfg, s, s.undelivered[k])
    ensures var t, c := DeliverOne(s, k), s.undelivered[k];
      var more, o := Followups(cfg, t, c), Successor(cfg, c);
      && t.log == s.log + [Delivery(c)] && t.undelivered == s.undelivered - {k} && t.acked == s.acked
      && more != [] && more[|more| - 1] == Key(o, Count(t.log, o) + 1)
  {
    DeliverOneSound(cfg, s, k, kind);
    hide Ready, Followups;
    LastFollowup(cfg, DeliverOne(s, k), s.undelivered[k]);
  }

  /** A chain of one delivery. */
  lemma OnlyOne(cfg: Config, kind: Kind, s: Store, k: Key)
    requires kind !in {Fifob, Lcb} && k in s.undelivered && s.undelivered[k].Id() == k && s.undelivered[k].kind == kind
    requires MayDeliver(cfg, s.log, s.acked, s.undelivered[k])
    ensures DeliversFrom(cfg, kind, s.log, s.undelivered, s.acked, k, DeliverOne(s, k))
  {
    hide MayDeliver;
    var t := DeliverOne(s, k);
    assert t.log[..|s.log|] == s.log;
    forall j
      ensures LoggedSince(s.log, t.log, j) <==> j == k
    {
      assert t.log[|s.log|].payload.Id() == k;
    }
  }

  /** One `insert` records its ack. If the packet is delivered already, that is all. Otherwise it is buffered in
      place of an earlier copy, and the chain of deliveries that starts with it follows. The delivered set, the
      frontiers, the counters and the clock are what the log and the acks say (`Sound`). */
  lemma InsertDelivers(cfg: Config, s: Store, sender: nat, p: Payload)
    requires Sound(cfg, s, p.kind) && |p.clock| == cfg.n + 1
    ensures var t := Insert(cfg, s, sender, p);
      && t.acked == s.acked + {Ack(sender, p.Id())}
      && (if p.Id() in s.delivered then
            t.log == s.log && t.undelivered == s.undelivered
          else
            DeliversFrom(cfg, p.kind, s.log, s.undelivered[p.Id() := p], t.acked, p.Id(), t))
      && Sound(cfg, t, p.kind)
  {
    hide DeliversFrom, Sound, Coherent;
    InsertKeepsSound(cfg, s, sender, p);
    if p.Id() !in s.delivered {
      BufferSound(cfg, s, sender, p);
      CascadeDelivers(cfg, p.kind, Buffer(s, sender, p), [p.Id()], p.Id());
    }
    InsertFrame(cfg, s, sender, p);
  }

  lemma BufferSound(cfg: Config, s: Store, sender: nat, p: Payload)
    requires Sound(cfg, s, p.kind) && |p.clock| == cfg.n + 1 && p.Id() !in s.delivered
    ensures Sound(cfg, Buffer(s, sender, p), p.kind)
  {
    hide Coherent, FifoLog, Count;
    BufferCoherent(s, sender, p);
  }

  lemma {:induction false} CascadeSound(cfg: Config, kind: Kind, s: Store, work: seq<Key>)
    requires Sound(cfg, s, kind)
    ensures Sound(cfg, Cascade(cfg, s, work), kind)
    decreases |s.undelivered|
  {
    hide Sound, Ready, Followups;
    if Deliverable(cfg, s, work) {
      var k := work[|work| - 1];
      var t := DeliverOne(s, k);
      DropKeySize(s.undelivered, k);
      DeliverOneSound(cfg, s, k, kind);
      CascadeSound(cfg, kind, t, work[..|work| - 1] + Followups(cfg, t, s.undelivered[k]));
    }
  }

  lemma InsertKeepsSound(cfg: Config, s: Store, sender: nat, p: Payload)
    requires Sound(cfg, s, p.kind) && |p.clock| == cfg.n + 1
    ensures Sound(cfg, Insert(cfg, s, sender, p), p.kind)
  {
    hide Sound, Coherent;
    if p.Id() in s.delivered {
      RepeatSound(cfg, s, sender, p);
    } else {
      BufferSound(cfg, s, sender, p);
      CascadeSound(cfg, p.kind, Buffer(s, sender, p), [p.Id()]);
    }
  }

  lemma RepeatSound(cfg: Config, s: Store, sender: nat, p: Payload)
    requires Sound(cfg, s, p.kind) && p.Id() in s.delivered
    ensures Sound(cfg, Insert(cfg, s, sender, p), p.kind)
  {
    hide Coherent, FifoLog, Count;
    InsertCoherent(cfg, s, sender, p);
  }

  // ---- The stores of a run ----

  lemma StoreSound(cfg: Config, s: Store)
    requires StoreInv(cfg, s) && forall k :: k in s.undelivered ==> |s.undelivered[k].clock| == cfg.n + 1
    ensures Sound(cfg, s, cfg.kind)
  {
    hide Coherent, FifoLog, CausalLog, Count, MajorityAcked, Settled, Unordered;
  }

  lemma RunStoreSound(cfg: Config, sys: System, i: nat)
    requires Inv(cfg, sys) && i in sys.nodes
    ensures Sound(cfg, sys.nodes[i].store, cfg.kind)
  {
    hide Inv, Sound, StoreInv;
    var s := sys.nodes[i].store;
    NodeStoreInv(cfg, sys, i);
    forall k | k in s.undelivered
      ensures |s.undelivered[k].clock| == cfg.n + 1
    {
      BufferedLength(cfg, sys, i, k);
    }
    StoreSound(cfg, s);
  }

  lemma BufferedLength(cfg: Config, sys: System, i: nat, k: Key)
    requires Inv(cfg, sys) && i in sys.nodes && k in sys.nodes[i].store.undelivered
    ensures |sys.nodes[i].store.undelivered[k].clock| == cfg.n + 1
  {
    hide Stores, Obliged, Truthful, AcksAnswer, WireAcksAnswer, OwnSeen, NumberedAt;
    var s := sys.nodes[i].store;
    assert StoreHolds(s, s.undelivered[k]) && Holds(sys.nodes[i], s.undelivered[k]);
    GenuineKind(cfg, sys, s.undelivered[k]);
  }

  /** So an `insert` of any packet of a run, at any node in any reachable state, delivers just that chain. */
  lemma RunInsertDelivers(cfg: Config, sys: System, i: nat, sender: nat, p: Payload)
    requires Proper(cfg) && Relaying(cfg.kind) && Reachable(cfg, sys) && i in sys.nodes && Genuine(sys, p)
    ensures var s, t := sys.nodes[i].store, Insert(cfg, sys.nodes[i].store, sender, p);
      if p.Id() in s.delivered then
        t.log == s.log && t.undelivered == s.undelivered
      else
        DeliversFrom(cfg, cfg.kind, s.log, s.undelivered[p.Id() := p], s.acked + {Ack(sender, p.Id())}, p.Id(), t)
  {
    hide Sound, DeliversFrom, Insert, Genuine, Stores, Obliged, Truthful, AcksAnswer, WireAcksAnswer, OwnSeen;
    ReachableInv(cfg, sys);
    GenuineKind(cfg, sys, p);
    RunStoreSound(cfg, sys, i);
    InsertDelivers(cfg, sys.nodes[i].store, sender, p);
  }
}
