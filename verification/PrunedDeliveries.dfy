/** What one call of the C++ `insert` queues, told by the queue, the acks and the stored packets alone: one block of
    packets for each listed node, in the order of the list. */
module PrunedDeliveries {
  import opened Basics
  import opened Messages
  import opened Store
  import opened StoreFacts
  import opened StoreSpec
  import opened PrunedStore
  import opened PrunedCalls

  /** After `log`, with these acks, the next packet of `a` may be queued: it has a majority, and the log has what the
      arriving clock asks for of the dependencies of `a`. */
  ghost predicate MayQueue(cfg: Config, log: seq<Event>, acked: set<Ack>, clock: seq<nat>, a: nat)
  {
    && |Senders(acked, Key(a, Count(log, a) + 1))| >= cfg.n / 2 + 1
    && forall d :: d in cfg.Dependencies(a) ==> At(clock, d) <= Count(log, d)
  }

  /** Entry `y` of the queue is the next packet of `a`, as it was stored, and might be queued then. */
  ghost predicate QueuedAt(cfg: Config, stored: map<Key, Payload>, acked: set<Ack>, clock: seq<nat>, a: nat,
                           queue: seq<Option<Payload>>, y: nat)
    requires y < |queue|
  {
    var k := Key(a, Count(Handed(queue)[..y], a) + 1);
    && k in stored && stored[k].Id() == k && queue[y] == Some(stored[k])
    && MayQueue(cfg, Handed(queue)[..y], acked, clock, a)
  }

  /** From position `from` up to `to` the queue holds packets of `a`, as many as might be queued. */
  ghost predicate Block(cfg: Config, stored: map<Key, Payload>, acked: set<Ack>, clock: seq<nat>, a: nat,
                        queue: seq<Option<Payload>>, from: nat, to: nat)
    requires from <= to <= |queue|
  {
    && (forall y :: from <= y < to ==> QueuedAt(cfg, stored, acked, clock, a, queue, y))
    && !MayQueue(cfg, Handed(queue)[..to], acked, clock, a)
  }

  /** Block `x` of the queue, from `cuts[x]` to `cuts[x + 1]`, is that of node `x` of the list. */
  ghost predicate BlockAt(cfg: Config, stored: map<Key, Payload>, acked: set<Ack>, clock: seq<nat>, nodes: seq<nat>,
                          queue: seq<Option<Payload>>, cuts: seq<nat>, x: nat)
    requires x < |nodes| && |cuts| == |nodes| + 1
  {
    && cuts[x] <= cuts[x + 1] <= |queue|
    && Block(cfg, stored, acked, clock, nodes[x], queue, cuts[x], cuts[x + 1])
  }

  /** The queue from position `from` on consists of one block for each of `nodes`, in their order; `cuts` says where
      the blocks begin and end. */
  ghost predicate Blocks(cfg: Config, stored: map<Key, Payload>, acked: set<Ack>, clock: seq<nat>, nodes: seq<nat>,
                         queue: seq<Option<Payload>>, from: nat, cuts: seq<nat>)
  {
    && |cuts| == |nodes| + 1 && cuts[0] == from && cuts[|nodes|] == |queue|
    && (forall x :: 0 <= x < |nodes| ==> BlockAt(cfg, stored, acked, clock, nodes, queue, cuts, x))
  }

  ghost predicate QueuedSince(queue: seq<Option<Payload>>, from: nat, k: Key)
  {
    exists y :: from <= y < |queue| && queue[y].Some? && queue[y].value.Id() == k
  }

  /** Exactly the packets that were queued from position `from` on are gone from the stored ones. */
  ghost predicate StoredLeft(stored: map<Key, Payload>, queue: seq<Option<Payload>>, from: nat, left: map<Key, Payload>)
  {
    && (forall k :: k in left <==> k in stored && !QueuedSince(queue, from, k))
    && (forall k :: k in left ==> left[k] == stored[k])
  }

  /** What the store tests is what the queue and the acks say. */
  lemma CanMeans(cfg: Config, s: Pruned, clock: seq<nat>, a: nat)
    requires InRange(cfg) && PrunedInv(cfg, s) && a <= cfg.n
    ensures CanLcb(cfg, s, clock, a) <==> MayQueue(cfg, Handed(s.queue), s.acked, clock, a)
  {
    hide QueueSound, Forgotten, Stored, FifoLog, Count, Handed, Senders;
    assert forall d :: d in cfg.Dependencies(a) ==> d <= cfg.n && At(s.clock, d) == Count(Handed(s.queue), d);
    assert CountOf(s, Key(a, UpTo(s, a))) == |Senders(s.acked, Key(a, UpTo(s, a)))|;
  }

  /** The pruned counters still answer whether any packet has a majority of ackers, also one before the frontier. */
  lemma CanUrbMeans(cfg: Config, s: Pruned, k: Key)
    requires PrunedInv(cfg, s) && k.owner <= cfg.n && k.packet >= 1
    ensures CanUrb(cfg, s, k) <==> |Senders(s.acked, k)| >= cfg.n / 2 + 1
  {
    hide Forgotten, Stored, FifoLog, Count, Senders;
    var log := Handed(s.queue);
    if k.packet < UpTo(s, k.owner) {
      assert log[..|log|] == log;
      var x := CountedIsDelivered(log, |log|, k.owner, k.packet);
      assert QueueKeys(s.queue)[x] == k;
    }
  }

  lemma HandedPrefix(queue: seq<Option<Payload>>, more: seq<Option<Payload>>)
    requires queue <= more
    ensures Handed(more)[..|queue|] == Handed(queue)
  {
    assert forall y :: 0 <= y < |queue| ==> queue[y] == more[y];
  }

  /** One turn of the inner loop queues the next packet of `a` as it was stored. */
  lemma QueueNextAt(cfg: Config, s: Pruned, clock: seq<nat>, a: nat)
    requires InRange(cfg) && PrunedInv(cfg, s) && a <= cfg.n && CanLcb(cfg, s, clock, a)
    ensures var t, k := QueueNext(s, a), Key(a, Count(Handed(s.queue), a) + 1);
      && k in s.undelivered && s.undelivered[k].Id() == k
      && t.queue == s.queue + [Some(s.undelivered[k])]
      && t.undelivered == s.undelivered - {k} && t.acked == s.acked
      && PrunedInv(cfg, t) && |t.counter| < |s.counter|
  {
    hide QueueSound, FifoLog, Count, Handed, Senders, Exact, Forgotten;
    QueueNextLean(cfg, s, a);
    QueueNextInv(cfg, s, clock, a);
    DropKeySize(s.counter, Key(a, UpTo(s, a)));
  }

  lemma {:induction false} DrainBlock(cfg: Config, s: Pruned, clock: seq<nat>, a: nat)
    requires InRange(cfg) && PrunedInv(cfg, s) && a <= cfg.n
    ensures var t := Drain(cfg, s, clock, a);
      && PrunedInv(cfg, t) && t.acked == s.acked && s.queue <= t.queue
      && Block(cfg, s.undelivered, s.acked, clock, a, t.queue, |s.queue|, |t.queue|)
      && StoredLeft(s.undelivered, t.queue, |s.queue|, t.undelivered)
    decreases |s.counter|
  {
    hide PrunedInv, MayQueue, CanLcb, StoredLeft, QueueNext, Count, Block;
    CanMeans(cfg, s, clock, a);
    if CanLcb(cfg, s, clock, a) {
      var u := QueueNext(s, a);
      QueueNextAt(cfg, s, clock, a);
      DrainBlock(cfg, u, clock, a);
      var t := Drain(cfg, s, clock, a);
      assert t == Drain(cfg, u, clock, a);
      var k := Key(a, Count(Handed(s.queue), a) + 1);
      HandedPrefix(s.queue, t.queue);
      BlockLonger(cfg, s.undelivered, s.acked, clock, a, t.queue, |s.queue|, k);
      LeftLonger(s.undelivered, t.queue, |s.queue|, k, t.undelivered);
    } else {
      EmptyBlock(cfg, s, clock, a);
    }
  }

  lemma EmptyBlock(cfg: Config, s: Pruned, clock: seq<nat>, a: nat)
    requires !MayQueue(cfg, Handed(s.queue), s.acked, clock, a)
    ensures Block(cfg, s.undelivered, s.acked, clock, a, s.queue, |s.queue|, |s.queue|)
    ensures StoredLeft(s.undelivered, s.queue, |s.queue|, s.undelivered)
  {
    hide MayQueue;
    assert Handed(s.queue)[..|s.queue|] == Handed(s.queue);
  }

  lemma BlockLonger(cfg: Config, stored: map<Key, Payload>, acked: set<Ack>, clock: seq<nat>, a: nat,
                    queue: seq<Option<Payload>>, from: nat, k: Key)
    requires from < |queue| && k in stored && stored[k].Id() == k && queue[from] == Some(stored[k])
    requires k == Key(a, Count(Handed(queue)[..from], a) + 1)
    requires MayQueue(cfg, Handed(queue)[..from], acked, clock, a)
    requires Block(cfg, stored - {k}, acked, clock, a, queue, from + 1, |queue|)
    ensures Block(cfg, stored, acked, clock, a, queue, from, |queue|)
  {
    hide MayQueue, Count, Handed;
    forall y | from <= y < |queue|
      ensures QueuedAt(cfg, stored, acked, clock, a, queue, y)
    {
      assert y > from ==> QueuedAt(cfg, stored - {k}, acked, clock, a, queue, y);
    }
  }

  lemma LeftLonger(stored: map<Key, Payload>, queue: seq<Option<Payload>>, from: nat, k: Key, left: map<Key, Payload>)
    requires from < |queue| && k in stored && stored[k].Id() == k && queue[from] == Some(stored[k])
    requires StoredLeft(stored - {k}, queue, from + 1, left)
    ensures StoredLeft(stored, queue, from, left)
  {
    assert queue[from].value.Id() == k;
    forall j
      ensures QueuedSince(queue, from, j) <==> j == k || QueuedSince(queue, from + 1, j)
    {
      if QueuedSince(queue, from, j) {
        var y :| from <= y < |queue| && queue[y].Some? && queue[y].value.Id() == j;
        assert y > from ==> QueuedSince(queue, from + 1, j);
      }
    }
  }

  /** A block stays one when more is queued behind it, and with the packets stored that were stored before. */
  lemma BlockStays(cfg: Config, stored: map<Key, Payload>, acked: set<Ack>, clock: seq<nat>, a: nat,
                   queue: seq<Option<Payload>>, from: nat, to: nat, before: map<Key, Payload>,
                   more: seq<Option<Payload>>)
    requires from <= to <= |queue| && queue <= more && Block(cfg, stored, acked, clock, a, queue, from, to)
    requires forall k :: k in stored ==> k in before && before[k] == stored[k]
    ensures Block(cfg, before, acked, clock, a, more, from, to)
  {
    hide MayQueue, Count;
    HandedPrefix(queue, more);
    assert forall y :: 0 <= y <= |queue| ==> Handed(more)[..y] == Handed(queue)[..y] by {
      assert forall y :: 0 <= y <= |queue| ==> Handed(more)[..|queue|][..y] == Handed(more)[..y];
    }
    hide Handed;
    forall y | from <= y < to
      ensures QueuedAt(cfg, before, acked, clock, a, more, y)
    {
      assert QueuedAt(cfg, stored, acked, clock, a, queue, y);
    }
  }

  /** The first block, and those behind it. */
  lemma BlocksLonger(cfg: Config, stored: map<Key, Payload>, mid: map<Key, Payload>, acked: set<Ack>, clock: seq<nat>,
                     nodes: seq<nat>, queue: seq<Option<Payload>>, more: seq<Option<Payload>>, from: nat,
                     rest: seq<nat>)
    requires nodes != [] && from <= |queue| && queue <= more
    requires Block(cfg, stored, acked, clock, nodes[0], queue, from, |queue|)
    requires forall k :: k in mid ==> k in stored && stored[k] == mid[k]
    requires Blocks(cfg, mid, acked, clock, nodes[1..], more, |queue|, rest)
    ensures Blocks(cfg, stored, acked, clock, nodes, more, from, [from] + rest)
  {
    hide Block;
    var cuts := [from] + rest;
    BlockStays(cfg, stored, acked, clock, nodes[0], queue, from, |queue|, stored, more);
    forall x | 0 <= x < |nodes|
      ensures BlockAt(cfg, stored, acked, clock, nodes, more, cuts, x)
    {
      if x > 0 {
        assert BlockAt(cfg, mid, acked, clock, nodes[1..], more, rest, x - 1);
        BlockStays(cfg, mid, acked, clock, nodes[x], more, cuts[x], cuts[x + 1], stored, more);
      }
    }
  }

  /** The blocks of the nodes of the outer loop. */
  lemma {:induction false} DrainAllBlocks(cfg: Config, s: Pruned, clock: seq<nat>, nodes: seq<nat>)
    returns (cuts: seq<nat>)
    requires InRange(cfg) && PrunedInv(cfg, s) && forall a: nat :: a in nodes ==> a <= cfg.n
    ensures var t := DrainAll(cfg, s, clock, nodes);
      && PrunedInv(cfg, t) && t.acked == s.acked && s.queue <= t.queue
      && Blocks(cfg, s.undelivered, s.acked, clock, nodes, t.queue, |s.queue|, cuts)
      && StoredLeft(s.undelivered, t.queue, |s.queue|, t.undelivered)
    decreases |nodes|
  {
    hide PrunedInv, StoredLeft, Block, BlockAt, Drain;
    if nodes == [] {
      cuts := [|s.queue|];
      NothingLeft(s);
    } else {
      hide Blocks;
      assert nodes[0] in nodes && forall a: nat :: a in nodes[1..] ==> a in nodes;
      var u := Drain(cfg, s, clock, nodes[0]);
      var t := DrainAll(cfg, s, clock, nodes);
      DrainBlock(cfg, s, clock, nodes[0]);
      var rest := DrainAllBlocks(cfg, u, clock, nodes[1..]);
      cuts := [|s.queue|] + rest;
      LeftIsStored(s.undelivered, u.queue, |s.queue|, u.undelivered);
      BlocksLonger(cfg, s.undelivered, u.undelivered, s.acked, clock, nodes, u.queue, t.queue, |s.queue|, rest);
      LeftTwice(s.undelivered, u.queue, |s.queue|, u.undelivered, t.queue, t.undelivered);
    }
  }

  lemma NothingLeft(s: Pruned)
    ensures StoredLeft(s.undelivered, s.queue, |s.queue|, s.undelivered)
  {
  }

  lemma LeftIsStored(stored: map<Key, Payload>, queue: seq<Option<Payload>>, from: nat, left: map<Key, Payload>)
    requires StoredLeft(stored, queue, from, left)
    ensures forall k :: k in left ==> k in stored && stored[k] == left[k]
  {
  }

  lemma LeftTwice(stored: map<Key, Payload>, queue: seq<Option<Payload>>, from: nat, mid: map<Key, Payload>,
                  more: seq<Option<Payload>>, left: map<Key, Payload>)
    requires from <= |queue| && queue <= more && StoredLeft(stored, queue, from, mid)
    requires StoredLeft(mid, more, |queue|, left)
    ensures StoredLeft(stored, more, from, left)
  {
    forall k
      ensures QueuedSince(more, from, k) <==> QueuedSince(queue, from, k) || QueuedSince(more, |queue|, k)
    {
      SinceEither(queue, more, from, k);
    }
  }

  lemma SinceEither(queue: seq<Option<Payload>>, more: seq<Option<Payload>>, from: nat, k: Key)
    requires from <= |queue| && queue <= more
    ensures QueuedSince(more, from, k) <==> QueuedSince(queue, from, k) || QueuedSince(more, |queue|, k)
  {
    assert forall y :: 0 <= y < |queue| ==> queue[y] == more[y];
    if QueuedSince(more, from, k) {
      var y :| from <= y < |more| && more[y].Some? && more[y].value.Id() == k;
      assert if y < |queue| then QueuedSince(queue, from, k) else QueuedSince(more, |queue|, k);
    }
  }

  /** The stored packets when the loops start: the first ack of a packet at or after the frontier stores its payload
      without the last clock entry. */
  ghost predicate StoresFirst(cfg: Config, s: Pruned, p: Payload, stored: map<Key, Payload>)
    requires |p.clock| == cfg.n + 1
  {
    if p.packet <= Count(Handed(s.queue), p.owner) || Senders(s.acked, p.Id()) != {} then
      stored == s.undelivered
    else
      stored == s.undelivered[p.Id() := p.(clock := p.clock[..cfg.n])]
  }

  lemma ReceivedStores(cfg: Config, s: Pruned, sender: nat, p: Payload)
    requires PrunedInv(cfg, s) && p.owner <= cfg.n && |p.clock| == cfg.n + 1
    ensures StoresFirst(cfg, s, p, Received(cfg, s, sender, p).undelivered)
    ensures Received(cfg, s, sender, p).queue == s.queue
    ensures Received(cfg, s, sender, p).acked == s.acked + {Ack(sender, p.Id())}
  {
    hide QueueSound, FifoLog, Count, Handed;
    SenderIsThere(s.acked, sender, p.Id());
  }

  /** One call records its ack. If its packet is the next of its owner, the queue then gains one block of packets for
      each node that the owner depends on, in the order of the list; otherwise it gains nothing. The frontiers, the
      clock and the counters are what the queue and the acks say (`PrunedInv`). */
  lemma InsertQueues(cfg: Config, s: Pruned, sender: nat, p: Payload) returns (stored: map<Key, Payload>, cuts: seq<nat>)
    requires InRange(cfg) && PrunedInv(cfg, s) && p.owner <= cfg.n && |p.clock| == cfg.n + 1
    ensures var t := InsertPruned(cfg, s, sender, p);
      && PrunedInv(cfg, t) && t.acked == s.acked + {Ack(sender, p.Id())}
      && StoresFirst(cfg, s, p, stored) && s.queue <= t.queue
      && (if p.packet == Count(Handed(s.queue), p.owner) + 1 then
            Blocks(cfg, stored, t.acked, p.clock, cfg.Dependencies(p.owner), t.queue, |s.queue|, cuts)
          else
            t.queue == s.queue)
      && StoredLeft(stored, t.queue, |s.queue|, t.undelivered)
  {
    hide Lean, QueueSound, FifoLog, Count, Handed, StoresFirst, Blocks, StoredLeft;
    var u := Received(cfg, s, sender, p);
    ReceivedInv(cfg, s, sender, p);
    ReceivedStores(cfg, s, sender, p);
    stored := u.undelivered;
    InsertUnfolds(cfg, s, sender, p);
    if UpTo(s, p.owner) == p.packet {
      cuts := DrainAllBlocks(cfg, u, p.clock, cfg.Dependencies(p.owner));
    } else {
      cuts := [];
      NothingLeft(u);
    }
  }

  lemma InsertUnfolds(cfg: Config, s: Pruned, sender: nat, p: Payload)
    ensures UpTo(Received(cfg, s, sender, p), p.owner) == UpTo(s, p.owner)
    ensures var u := Received(cfg, s, sender, p);
      InsertPruned(cfg, s, sender, p) ==
        if UpTo(s, p.owner) == p.packet then DrainAll(cfg, u, p.clock, cfg.Dependencies(p.owner)) else u
  {
    hide DrainAll;
  }

  // ---- The order of the list matters ----

  /** A call after which no listed node has a first packet that might be queued queues nothing. */
  lemma StillNothing(cfg: Config, calls: seq<Call>)
    requires InRange(cfg) && calls != [] && InsertsPruned(cfg, calls[..|calls| - 1]).queue == []
    requires var p := calls[|calls| - 1].payload;
      && p.packet == 1 && p.owner <= cfg.n
      && forall b :: b in cfg.Dependencies(p.owner) ==>
           |Ackers(calls, Key(b, 1))| < Majority(cfg.n) || !AsksNothing(cfg, p.clock, b)
    ensures InsertsPruned(cfg, calls).queue == []
  {
    hide InsertsPruned, PrunedInv, Acks, AsksNothing, CanLcb, LastReceived;
    var u, p := LastReceived(cfg, calls), calls[|calls| - 1].payload;
    LastCall(cfg, calls);
    NothingQueued(cfg, u);
    forall b | b in cfg.Dependencies(p.owner)
      ensures !CanLcb(cfg, u, p.clock, b)
    {
      FirstCan(cfg, u, calls, p.clock, b);
    }
    DrainAllIdle(cfg, u, p.clock, cfg.Dependencies(p.owner));
  }

  lemma FewAckers(calls: seq<Call>, k: Key, nodes: set<nat>)
    requires forall c :: c in calls && c.payload.Id() == k ==> c.sender in nodes
    ensures |Ackers(calls, k)| <= |nodes|
  {
    forall l | l in Ackers(calls, k)
      ensures l in nodes
    {
      SenderIsThere(Acks(calls), l, k);
    }
    SubsetSize(Ackers(calls, k), nodes);
  }

  lemma ManyAckers(calls: seq<Call>, k: Key, nodes: set<nat>)
    requires forall l :: l in nodes ==> exists c :: c in calls && c.sender == l && c.payload.Id() == k
    ensures |Ackers(calls, k)| >= |nodes|
  {
    forall l | l in nodes
      ensures l in Ackers(calls, k)
    {
      SenderIsThere(Acks(calls), l, k);
    }
    SubsetSize(nodes, Ackers(calls, k));
  }

  /** Five nodes; 1 and 2 depend on each other. */
  function FiveNodes(): Config
  {
    Config(5, Lcb, 1, map[1 := [1, 2], 2 := [2, 1], 3 := [3], 4 := [4], 5 := [5]], map[], map[])
  }

  /** What node 5 hears: the first packets of nodes 1 and 2, and then node 4's ack of the former. */
  function FiveCalls(): seq<Call>
  {
    var t := Payload(1, 1, 1, Lcb, false, [0, 0, 0, 0, 0, 0], "1");
    var q := Payload(2, 2, 1, Lcb, false, [0, 1, 0, 0, 0, 0], "1");
    [Call(1, t), Call(5, t.(sender := 5)), Call(2, q), Call(5, q.(sender := 5)), Call(3, q.(sender := 3)),
     Call(4, t.(sender := 4))]
  }

  /** Before the last call node 1's packet has two ackers, and node 2's lacks a majority or waits for node 1. */
  lemma FewBefore(x: nat)
    requires 1 <= x <= 5
    ensures |Ackers(FiveCalls()[..x], Key(1, 1))| <= 2
    ensures x <= 4 ==> |Ackers(FiveCalls()[..x], Key(2, 1))| <= 2
  {
    hide Acks, Senders;
    FewAckers(FiveCalls()[..x], Key(1, 1), {1, 5});
    if x <= 4 {
      FewAckers(FiveCalls()[..x], Key(2, 1), {2, 5});
    }
  }

  lemma CallFacts(x: nat)
    requires x < 5
    ensures var p := FiveCalls()[x].payload;
      && p.packet == 1 && p.owner in {1, 2}
      && (x == 4 ==> !AsksNothing(FiveNodes(), p.clock, 2))
    ensures FiveNodes().n == 5 && FiveNodes().Dependencies(1) == [1, 2] && FiveNodes().Dependencies(2) == [2, 1]
  {
    assert x == 4 ==> 1 in FiveNodes().Dependencies(2) && At(FiveCalls()[x].payload.clock, 1) == 1;
  }

  lemma TakeInit(calls: seq<Call>, x: nat)
    requires 1 <= x <= |calls|
    ensures |calls[..x]| == x && calls[..x][..x - 1] == calls[..x - 1] && calls[..x][x - 1] == calls[x - 1]
  {
  }

  lemma FirstFiveQueueNothing(x: nat)
    requires x <= 5
    ensures InsertsPruned(FiveNodes(), FiveCalls()[..x]).queue == []
    decreases x
  {
    if x > 0 {
      FirstFiveQueueNothing(x - 1);
      FewBefore(x);
      CallFacts(x - 1);
      LastOfFive();
      TakeInit(FiveCalls(), x);
      hide InsertsPruned, Acks, Senders, FiveCalls, FiveNodes, AsksNothing, InRange;
      StillNothing(FiveNodes(), FiveCalls()[..x]);
    }
  }

  lemma AllAcked()
    ensures |Ackers(FiveCalls(), Key(1, 1))| >= 3 && |Ackers(FiveCalls(), Key(2, 1))| >= 3
    ensures |Ackers(FiveCalls(), Key(1, 2))| == 0 && |Ackers(FiveCalls(), Key(2, 2))| == 0
  {
    hide Acks, Senders;
    var calls := FiveCalls();
    ThreeAckers(calls, Key(1, 1), 0, 1, 5);
    ThreeAckers(calls, Key(2, 1), 2, 3, 4);
    FewAckers(calls, Key(1, 2), {});
    FewAckers(calls, Key(2, 2), {});
  }

  lemma ThreeAckers(calls: seq<Call>, k: Key, x: nat, y: nat, z: nat)
    requires x < |calls| && y < |calls| && z < |calls|
    requires calls[x].payload.Id() == calls[y].payload.Id() == calls[z].payload.Id() == k
    requires calls[x].sender != calls[y].sender && calls[y].sender != calls[z].sender
    requires calls[x].sender != calls[z].sender
    ensures |Ackers(calls, k)| >= 3
  {
    var nodes := {calls[x].sender, calls[y].sender, calls[z].sender};
    assert calls[x] in calls && calls[y] in calls && calls[z] in calls;
    ManyAckers(calls, k, nodes);
  }

  /** The last call makes the first packet of node 1 due, and that of node 2 in turn: the store serves node 1 first, as
      the list of node 1 has it, and so queues both in causal order. */
  lemma ServedInListOrder()
    ensures Clocked(FiveNodes(), FiveCalls()) && MadeAt(FiveNodes(), 5, FiveCalls())
    ensures QueueKeys(InsertsPruned(FiveNodes(), FiveCalls()).queue) == [Key(1, 1), Key(2, 1)]
  {
    var cfg, calls := FiveNodes(), FiveCalls();
    FiveCallsMade();
    FirstFiveQueueNothing(5);
    AllAcked();
    LastOfFive();
    hide FiveCalls, Clocked, MadeAt, Acks;
    var s, last := InsertsPruned(cfg, calls[..5]), calls[5];
    assert calls[..|calls| - 1] == calls[..5];
    InsertsPrunedInv(cfg, calls[..5]);
    InsertsPrunedAck(cfg, calls);
    assert InsertsPruned(cfg, calls) == InsertPruned(cfg, s, last.sender, last.payload);
    hide InsertsPruned, PrunedInv, Senders, InsertPruned;
    var stored, cuts := InsertQueues(cfg, s, last.sender, last.payload);
    assert Handed(s.queue) == [];
    TwoBlocks(cfg, stored, Acks(calls), last.payload.clock, InsertsPruned(cfg, calls).queue, cuts);
  }

  lemma LastOfFive()
    ensures |FiveCalls()| == 6 && InRange(FiveNodes()) && FiveNodes().Dependencies(1) == [1, 2]
    ensures var p := FiveCalls()[5].payload; p.owner == 1 && p.packet == 1 && p.clock == [0, 0, 0, 0, 0, 0]
  {
  }

  lemma TwoBlocks(cfg: Config, stored: map<Key, Payload>, acked: set<Ack>, clock: seq<nat>,
                  queue: seq<Option<Payload>>, cuts: seq<nat>)
    requires cfg == FiveNodes() && clock == [0, 0, 0, 0, 0, 0]
    requires |Senders(acked, Key(1, 1))| >= 3 && |Senders(acked, Key(2, 1))| >= 3
    requires |Senders(acked, Key(1, 2))| == 0 && |Senders(acked, Key(2, 2))| == 0
    requires Blocks(cfg, stored, acked, clock, [1, 2], queue, 0, cuts)
    ensures QueueKeys(queue) == [Key(1, 1), Key(2, 1)]
  {
    hide Senders;
    var log := Handed(queue);
    assert BlockAt(cfg, stored, acked, clock, [1, 2], queue, cuts, 0);
    assert BlockAt(cfg, stored, acked, clock, [1, 2], queue, cuts, 1);
    BlockOfOne(cfg, stored, acked, clock, 1, queue, cuts[0], cuts[1]);
    assert log[..1][..0] == log[..0] == [];
    BlockOfOne(cfg, stored, acked, clock, 2, queue, cuts[1], cuts[2]);
  }

  /** A node whose first packet has a majority and whose second has no ack gets a block of one. */
  lemma BlockOfOne(cfg: Config, stored: map<Key, Payload>, acked: set<Ack>, clock: seq<nat>, a: nat,
                   queue: seq<Option<Payload>>, from: nat, to: nat)
    requires cfg.n == 5 && from <= to <= |queue| && Block(cfg, stored, acked, clock, a, queue, from, to)
    requires |Senders(acked, Key(a, 1))| >= 3 && |Senders(acked, Key(a, 2))| == 0
    requires Count(Handed(queue)[..from], a) == 0 && forall e :: At(clock, e) == 0
    ensures to == from + 1 && queue[from].Some? && queue[from].value.Id() == Key(a, 1)
  {
    hide Senders;
    assert MayQueue(cfg, Handed(queue)[..from], acked, clock, a);
    assert from < to && QueuedAt(cfg, stored, acked, clock, a, queue, from);
    if from + 1 < to {
      var log := Handed(queue);
      assert QueuedAt(cfg, stored, acked, clock, a, queue, from + 1);
      assert log[..from + 1] == log[..from] + [log[from]];
      CountAppend(log[..from], log[from], a);
      assert false;
    }
  }

  lemma FiveCallsMade()
    ensures Clocked(FiveNodes(), FiveCalls()) && MadeAt(FiveNodes(), 5, FiveCalls())
  {
    hide InsertsPruned, MadeAt;
    var calls := FiveCalls();
    forall x | 0 <= x < 6
      ensures ClockedCall(FiveNodes(), calls[x])
      ensures calls[x].payload.clock == if calls[x].payload.owner == 2 then [0, 1, 0, 0, 0, 0] else [0, 0, 0, 0, 0, 0]
    {
    }
    hide ClockedCall, FiveNodes;
    assert Clocked(FiveNodes(), calls);
    MadeFirstTwo(calls);
    MadeNextTwo(calls);
    MadeLastTwo(calls);
  }

  lemma MadeLastTwo(calls: seq<Call>)
    requires calls == FiveCalls() && MadeAt(FiveNodes(), 5, calls[..4])
    ensures MadeAt(FiveNodes(), 5, calls)
  {
    hide InsertsPruned, FiveNodes;
    assert SeenIn(calls[..4], 5, Key(2, 1)) by { assert calls[3] in calls[..4]; }
    assert calls[..5][..4] == calls[..4] && EndsInAck(5, calls[..5]);
    assert SeenIn(calls[..5], 5, Key(1, 1)) by { assert calls[1] in calls[..5]; }
    assert calls[..6] == calls && calls[..5] == calls[..|calls| - 1] && EndsInAck(5, calls);
  }

  lemma MadeFirstTwo(calls: seq<Call>)
    requires calls == FiveCalls()
    ensures MadeAt(FiveNodes(), 5, calls[..2])
  {
    hide InsertsPruned;
    assert calls[..2][..0] == [] && EndsInNews(5, calls[..2]);
  }

  lemma MadeNextTwo(calls: seq<Call>)
    requires calls == FiveCalls() && MadeAt(FiveNodes(), 5, calls[..2])
    ensures MadeAt(FiveNodes(), 5, calls[..4])
  {
    hide InsertsPruned;
    assert calls[..4][..2] == calls[..2] && EndsInNews(5, calls[..4]);
  }
}
