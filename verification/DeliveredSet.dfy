/** The delivery store as the source keeps it: an object whose nested maps are updated in place. Every
    method is proved against the value model in module `Store`. */
module DeliveredSet {
  import opened Basics
  import opened Messages
  import S = Store

  // ---- Nested maps, read as flat ones ----

  function Flat<V>(m: map<nat, map<nat, V>>): map<Key, V>
  {
    map o, p | o in m && p in m[o] :: Key(o, p) := m[o][p]
  }

  function FlatSet(m: map<nat, set<nat>>): set<Key>
  {
    set o, p | o in m && p in m[o] :: Key(o, p)
  }

  function FlatAcks(m: map<nat, map<nat, set<nat>>>): set<Ack>
  {
    set s, o, p | s in m && o in m[s] && p in m[s][o] :: Ack(s, Key(o, p))
  }

  /** `m.entry(o).or_insert(HashMap::new())` */
  function Inner<V>(m: map<nat, map<nat, V>>, o: nat): map<nat, V>
  {
    if o in m then m[o] else map[]
  }

  /** `m.entry(o).or_insert(HashSet::new())` */
  function InnerSet(m: map<nat, set<nat>>, o: nat): set<nat>
  {
    if o in m then m[o] else {}
  }

  lemma InFlat<V>(m: map<nat, map<nat, V>>, k: Key)
    ensures k in Flat(m) <==> k.owner in m && k.packet in m[k.owner]
    ensures k in Flat(m) ==> Flat(m)[k] == m[k.owner][k.packet]
  {
    assert k == Key(k.owner, k.packet);
  }

  lemma FlatPut<V>(m: map<nat, map<nat, V>>, o: nat, p: nat, v: V)
    ensures Flat(m[o := Inner(m, o)[p := v]]) == Flat(m)[Key(o, p) := v]
  {
  }

  lemma FlatDrop<V>(m: map<nat, map<nat, V>>, o: nat, p: nat)
    ensures Flat(m[o := Inner(m, o) - {p}]) == Flat(m) - {Key(o, p)}
  {
  }

  lemma FlatSetAdd(m: map<nat, set<nat>>, o: nat, p: nat)
    ensures FlatSet(m[o := InnerSet(m, o) + {p}]) == FlatSet(m) + {Key(o, p)}
  {
  }

  lemma InFlatAcks(m: map<nat, map<nat, set<nat>>>, a: Ack)
    ensures a in FlatAcks(m) <==>
      a.sender in m && a.key.owner in m[a.sender] && a.key.packet in m[a.sender][a.key.owner]
  {
    assert a == Ack(a.sender, Key(a.key.owner, a.key.packet));
  }

  lemma FlatAcksAdd(m: map<nat, map<nat, set<nat>>>, s: nat, o: nat, p: nat)
    ensures FlatAcks(m[s := Inner(m, s)[o := InnerSet(Inner(m, s), o) + {p}]]) == FlatAcks(m) + {Ack(s, Key(o, p))}
  {
    var m' := m[s := Inner(m, s)[o := InnerSet(Inner(m, s), o) + {p}]];
    forall a: Ack
      ensures a in FlatAcks(m') <==> a in FlatAcks(m) + {Ack(s, Key(o, p))}
    {
      InFlatAcks(m, a);
      InFlatAcks(m', a);
    }
  }

  class DeliveredSet {
    const cfg: Config
    const self: nat

    var acked: map<nat, map<nat, set<nat>>>
    var ackedCounter: map<nat, map<nat, nat>>
    var receivedUpTo: map<nat, nat>
    var undelivered: map<nat, map<nat, Payload>>
    var delivered: map<nat, set<nat>>
    var vectorClock: seq<nat>
    /** The channel to the writer thread. */
    var log: seq<Event>

    /** The store that this object stands for. */
    ghost function View(): S.Store
      reads this
    {
      S.Store(FlatAcks(acked), Flat(ackedCounter), receivedUpTo, Flat(undelivered), FlatSet(delivered),
              vectorClock, log)
    }

    /** Every clock entry that `p` makes the store read or write exists. */
    predicate Fits(p: Payload)
    {
      p.kind == Lcb ==> p.owner <= cfg.n && |p.clock| == cfg.n + 1
    }

    ghost predicate Valid()
      reads this
    {
      && (forall o, d :: d in cfg.Dependencies(o) ==> d <= cfg.n)
      && |vectorClock| == cfg.n + 1
      && (forall k :: k in View().undelivered ==> View().undelivered[k].Id() == k && Fits(View().undelivered[k]))
    }

    constructor (cfg: Config, self: nat)
      requires forall o, d :: d in cfg.Dependencies(o) ==> d <= cfg.n
      ensures Valid() && View() == S.Empty(cfg.n) && this.cfg == cfg && this.self == self
    {
      this.cfg, this.self := cfg, self;
      acked, ackedCounter, receivedUpTo, undelivered, delivered := map[], map[], map[], map[], map[];
      vectorClock := seq(cfg.n + 1, _ => 0);
      log := [];
    }

    function NextOf(o: nat): (next: nat)
      reads this
      ensures next == S.Next(View(), o)
    {
      if o in receivedUpTo then receivedUpTo[o] else 1
    }

    predicate CanUrbDeliver(p: Payload)
      reads this
      ensures CanUrbDeliver(p) == S.UrbReady(cfg, View(), p)
    {
      p.owner in ackedCounter && p.packet in ackedCounter[p.owner]
      && ackedCounter[p.owner][p.packet] >= Majority(cfg.n)
    }

    predicate CanFifobDeliver(p: Payload)
      reads this
      ensures CanFifobDeliver(p) == S.FifobReady(cfg, View(), p)
    {
      CanUrbDeliver(p) && p.packet == NextOf(p.owner)
    }

    predicate CanLcbDeliver(p: Payload)
      requires Valid() && |p.clock| == cfg.n + 1
      reads this
      ensures CanLcbDeliver(p) == S.LcbReady(cfg, View(), p)
    {
      (forall d | d in cfg.Dependencies(p.owner) :: vectorClock[d] >= p.clock[d]) && CanFifobDeliver(p)
    }

    predicate CanDeliver(p: Payload)
      requires Valid() && Fits(p)
      reads this
      ensures CanDeliver(p) == S.Ready(cfg, View(), p)
    {
      match p.kind
      case Tcp => true
      case Beb => true
      case Rb => true
      case Urb => CanUrbDeliver(p)
      case Fifob => CanFifobDeliver(p)
      case Lcb => CanLcbDeliver(p)
    }

    method Contains(sender: nat, owner: nat, packet: nat) returns (found: bool)
      ensures found == (Ack(sender, Key(owner, packet)) in View().acked)
    {
      found := sender in acked && owner in acked[sender] && packet in acked[sender][owner];
    }

    method WasSeen(p: Payload) returns (seen: bool)
      ensures seen == (Ack(self, p.Id()) in View().acked)
    {
      seen := Contains(self, p.owner, p.packet);
    }

    method CloneVectorClock() returns (clock: seq<nat>)
      ensures clock == View().clock
    {
      clock := vectorClock;
    }

    /** Marks `p` delivered and logs it. */
    method Deliver(p: Payload)
      modifies this`delivered, this`log
      ensures View() == old(View()).(delivered := old(View()).delivered + {p.Id()},
                                     log := old(View()).log + [Delivery(p)])
    {
      FlatSetAdd(delivered, p.owner, p.packet);
      delivered := delivered[p.owner := InnerSet(delivered, p.owner) + {p.packet}];
      log := log + [Delivery(p)];
    }

    method FifobDeliver(p: Payload) returns (work: seq<Key>)
      modifies this`delivered, this`log, this`receivedUpTo
      ensures View() == old(View()).(delivered := old(View()).delivered + {p.Id()},
                                     log := old(View()).log + [Delivery(p)],
                                     upTo := old(View()).upTo[p.owner := p.packet + 1])
      ensures work == [Key(p.owner, p.packet + 1)]
    {
      Deliver(p);
      var next := p.packet + 1;
      receivedUpTo := receivedUpTo[p.owner := next];
      work := [Key(p.owner, next)];
    }

    method LcbDeliver(p: Payload) returns (work: seq<Key>)
      requires p.owner < |vectorClock|
      modifies this`delivered, this`log, this`receivedUpTo, this`vectorClock
      ensures View() == old(View()).(delivered := old(View()).delivered + {p.Id()},
                                     log := old(View()).log + [Delivery(p)],
                                     upTo := old(View()).upTo[p.owner := p.packet + 1],
                                     clock := old(View()).clock[p.owner := old(View()).clock[p.owner] + 1])
      ensures work == [Key(p.owner, p.packet + 1)] + S.Frontiers(View(), cfg.Affected(p.owner))
    {
      hide Flat, FlatAcks, FlatSet;
      work := FifobDeliver(p);
      vectorClock := vectorClock[p.owner := vectorClock[p.owner] + 1];
      var affected := cfg.Affected(p.owner);
      for i := 0 to |affected|
        invariant work == [Key(p.owner, p.packet + 1)] + S.Frontiers(View(), affected)[..i]
      {
        work := work + [Key(affected[i], NextOf(affected[i]))];
      }
    }

    method Unbuffer(k: Key)
      modifies this`undelivered
      ensures Flat(undelivered) == old(Flat(undelivered)) - {k}
    {
      FlatDrop(undelivered, k.owner, k.packet);
      undelivered := undelivered[k.owner := Inner(undelivered, k.owner) - {k.packet}];
    }

    /** One turn of the worklist loop: takes `p` out of the buffer and delivers it. */
    method Release(p: Payload) returns (work: seq<Key>)
      requires Valid() && p.Id() in View().undelivered && View().undelivered[p.Id()] == p
      modifies this
      ensures Valid() && View() == S.DeliverOne(old(View()), p.Id())
      ensures work == S.Followups(cfg, View(), p)
    {
      hide Flat, FlatAcks, FlatSet;
      Unbuffer(p.Id());
      work := [];
      match p.kind {
        case Fifob => work := FifobDeliver(p);
        case Lcb => work := LcbDeliver(p);
        case _ => Deliver(p);
      }
    }

    /** The worklist loop: ends at the first entry that is missing or blocked. */
    method TryDelivering(start: seq<Key>)
      requires Valid()
      modifies this
      ensures Valid() && View() == S.Cascade(cfg, old(View()), start)
    {
      hide Flat, FlatAcks, FlatSet, S.Ready, S.Followups;
      var work := start;
      while work != []
        invariant Valid()
        invariant S.Cascade(cfg, View(), work) == S.Cascade(cfg, old(View()), start)
        decreases |View().undelivered|
      {
        var k := work[|work| - 1];
        InFlat(undelivered, k);
        if k.owner !in undelivered || k.packet !in undelivered[k.owner] {
          return;
        }
        var p := undelivered[k.owner][k.packet];
        if !CanDeliver(p) {
          return;
        }
        DropKeySize(View().undelivered, k);
        var more := Release(p);
        work := work[..|work| - 1] + more;
      }
    }

    /** Adds `sender` to the ackers of `k`. */
    method AddAcker(sender: nat, k: Key) returns (alreadyAcked: bool)
      modifies this`acked
      ensures alreadyAcked == (Ack(sender, k) in old(FlatAcks(acked)))
      ensures FlatAcks(acked) == old(FlatAcks(acked)) + {Ack(sender, k)}
    {
      InFlatAcks(acked, Ack(sender, k));
      FlatAcksAdd(acked, sender, k.owner, k.packet);
      var packets: set<nat> := InnerSet(Inner(acked, sender), k.owner);
      alreadyAcked := k.packet in packets;
      acked := acked[sender := Inner(acked, sender)[k.owner := packets + {k.packet}]];
    }

    /** Counts one more acker of `k`. */
    method CountAcker(k: Key)
      modifies this`ackedCounter
      ensures Flat(ackedCounter) == S.Counted(old(Flat(ackedCounter)), k)
    {
      InFlat(ackedCounter, k);
      var counts: map<nat, nat> := Inner(ackedCounter, k.owner);
      var count: nat := if k.packet in counts then counts[k.packet] + 1 else 1;
      FlatPut(ackedCounter, k.owner, k.packet, count);
      ackedCounter := ackedCounter[k.owner := counts[k.packet := count]];
    }

    method RecordAck(sender: nat, k: Key)
      modifies this`acked, this`ackedCounter
      ensures View() == S.Record(old(View()), sender, k)
    {
      var alreadyAcked := AddAcker(sender, k);
      if !alreadyAcked {
        CountAcker(k);
      }
    }

    method PutUndelivered(p: Payload)
      modifies this`undelivered
      ensures Flat(undelivered) == old(Flat(undelivered))[p.Id() := p]
    {
      FlatPut(undelivered, p.owner, p.packet, p);
      undelivered := undelivered[p.owner := Inner(undelivered, p.owner)[p.packet := p]];
    }

    predicate AlreadyDelivered(k: Key)
      reads this
      ensures AlreadyDelivered(k) == (k in View().delivered)
    {
      k.packet in InnerSet(delivered, k.owner)
    }

    method Insert(sender: nat, p: Payload)
      requires Valid() && Fits(p)
      modifies this
      ensures Valid() && View() == S.Insert(cfg, old(View()), sender, p)
    {
      hide FlatAcks, Flat;
      RecordAck(sender, p.Id());
      if !AlreadyDelivered(p.Id()) {
        PutUndelivered(p);
        assert View() == S.Buffer(old(View()), sender, p);
        TryDelivering([p.Id()]);
      }
    }

    method MarkAsSeen(p: Payload)
      requires Valid() && Fits(p)
      modifies this
      ensures Valid() && View() == S.Insert(cfg, old(View()), self, p)
    {
      Insert(self, p);
    }
  }
}
