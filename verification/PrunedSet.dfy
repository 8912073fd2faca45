/** The C++ delivery store as an object: nested maps and a clock array changed by `Insert` in nested loops. */
module PrunedSet {
  import opened Basics
  import opened Messages
  import opened DeliveredSet
  import P = PrunedStore

  /** The counters that are not 0. Reading a counter that is not there puts a 0 in its place. */
  function Positive(m: map<Key, nat>): map<Key, nat>
  {
    map k | k in m && m[k] > 0 :: m[k]
  }

  lemma NoCounters(m: map<nat, map<nat, nat>>)
    requires m == map[]
    ensures Positive(Flat(m)) == map[]
  {
    assert Flat(m) == map[];
    hide Flat;
  }

  /** A counter that is read gets itself, or a 0 if it is not there. */
  lemma ReadPositive(m: map<nat, map<nat, nat>>, k: Key)
    ensures var count := if k.packet in Inner(m, k.owner) then Inner(m, k.owner)[k.packet] else 0;
      && Positive(Flat(m[k.owner := Inner(m, k.owner)[k.packet := count]])) == Positive(Flat(m))
      && count == (if k in Positive(Flat(m)) then Positive(Flat(m))[k] else 0)
      && (count > 0 <==> k in Positive(Flat(m)))
  {
    var count := if k.packet in Inner(m, k.owner) then Inner(m, k.owner)[k.packet] else 0;
    InFlat(m, k);
    FlatPut(m, k.owner, k.packet, count);
    assert count > 0 <==> k in Positive(Flat(m));
    hide Flat;
  }

  lemma NoPayloads(m: map<nat, map<nat, Payload>>)
    requires m == map[]
    ensures Flat(m) == map[]
  {
  }

  lemma NoAcks(m: map<nat, map<nat, set<nat>>>)
    requires m == map[]
    ensures FlatAcks(m) == {}
  {
  }

  class PrunedSet {
    const cfg: Config
    const self: nat

    var acked: map<nat, map<nat, set<nat>>>
    var ackedCounter: map<nat, map<nat, nat>>
    var undelivered: map<nat, map<nat, Payload>>
    var receivedUpTo: map<nat, nat>
    const vectorClock: array<nat>
    /** The queue of payload pointers that the writer thread empties. */
    var deliverable: seq<Option<Payload>>

    ghost function View(): P.Pruned
      reads this, vectorClock
    {
      P.Pruned(FlatAcks(acked), Positive(Flat(ackedCounter)), Flat(undelivered), receivedUpTo,
               vectorClock[..], deliverable)
    }

    ghost predicate Valid()
      reads this, vectorClock
    {
      && vectorClock.Length == cfg.n + 1
      && (forall o: nat :: o in receivedUpTo <==> o <= cfg.n)
      && P.InRange(cfg)
    }

    constructor (cfg: Config, self: nat)
      requires P.InRange(cfg)
      ensures Valid() && View() == P.Fresh(cfg.n) && fresh(vectorClock) && this.cfg == cfg && this.self == self
    {
      this.cfg, this.self := cfg, self;
      acked, ackedCounter, undelivered := map[], map[], map[];
      vectorClock := new nat[cfg.n + 1];
      deliverable := [];
      new;
      ResetFrontiers();
      StartsFresh();
    }

    lemma StartsFresh()
      requires acked == map[] && ackedCounter == map[] && undelivered == map[] && deliverable == []
      requires receivedUpTo == P.Fresh(cfg.n).upTo && vectorClock[..] == P.Fresh(cfg.n).clock
      ensures View() == P.Fresh(cfg.n)
    {
      hide Flat, FlatAcks, Positive;
      NoCounters(ackedCounter);
      NoPayloads(undelivered);
      NoAcks(acked);
    }

    /** The constructor's loop: every node's frontier is 1 and its clock entry 0. */
    method ResetFrontiers()
      requires vectorClock.Length == cfg.n + 1
      modifies this`receivedUpTo, vectorClock
      ensures receivedUpTo == P.Fresh(cfg.n).upTo && vectorClock[..] == P.Fresh(cfg.n).clock
      ensures forall o: nat :: o in receivedUpTo <==> o <= cfg.n
    {
      receivedUpTo := map[];
      for o := 0 to cfg.n + 1
        invariant forall i: nat :: i in receivedUpTo <==> i < o
        invariant forall i: nat :: i < o ==> receivedUpTo[i] == 1 && vectorClock[i] == 0
      {
        receivedUpTo := receivedUpTo[o := 1];
        vectorClock[o] := 0;
      }
    }

    method ContainsUnsafe(sender: nat, p: Payload) returns (found: bool)
      ensures found == (Ack(sender, p.Id()) in View().acked)
    {
      InFlatAcks(acked, Ack(sender, p.Id()));
      found := sender in acked && p.owner in acked[sender] && p.packet in acked[sender][p.owner];
    }

    method AddAcker(sender: nat, k: Key)
      modifies this`acked
      ensures FlatAcks(acked) == old(FlatAcks(acked)) + {Ack(sender, k)}
    {
      FlatAcksAdd(acked, sender, k.owner, k.packet);
      acked := acked[sender := Inner(acked, sender)[k.owner := InnerSet(Inner(acked, sender), k.owner) + {k.packet}]];
    }

    /** Reads a counter; one that is not there springs up as 0. */
    method ReadCounter(k: Key) returns (count: nat)
      modifies this`ackedCounter
      ensures Positive(Flat(ackedCounter)) == old(Positive(Flat(ackedCounter)))
      ensures count == if k in old(Positive(Flat(ackedCounter))) then old(Positive(Flat(ackedCounter)))[k] else 0
      ensures count > 0 <==> k in old(Positive(Flat(ackedCounter)))
    {
      ReadPositive(ackedCounter, k);
      hide Positive, Flat;
      var counts: map<nat, nat> := Inner(ackedCounter, k.owner);
      count := if k.packet in counts then counts[k.packet] else 0;
      ackedCounter := ackedCounter[k.owner := counts[k.packet := count]];
    }

    method WriteCounter(k: Key, count: nat)
      requires count > 0
      modifies this`ackedCounter
      ensures Positive(Flat(ackedCounter)) == old(Positive(Flat(ackedCounter)))[k := count]
    {
      FlatPut(ackedCounter, k.owner, k.packet, count);
      ackedCounter := ackedCounter[k.owner := Inner(ackedCounter, k.owner)[k.packet := count]];
    }

    method EraseCounter(k: Key)
      modifies this`ackedCounter
      ensures Positive(Flat(ackedCounter)) == old(Positive(Flat(ackedCounter))) - {k}
    {
      FlatDrop(ackedCounter, k.owner, k.packet);
      ackedCounter := ackedCounter[k.owner := Inner(ackedCounter, k.owner) - {k.packet}];
    }

    method CanUrbDeliver(k: Key) returns (can: bool)
      requires k.owner in receivedUpTo
      modifies this`ackedCounter
      ensures View() == old(View()) && can == P.CanUrb(cfg, View(), k)
    {
      if k.packet < receivedUpTo[k.owner] {
        return true;
      }
      var count := ReadCounter(k);
      can := count > cfg.n / 2;
    }

    method CanLcbDeliver(clock: seq<nat>, a: nat) returns (can: bool)
      requires Valid() && a <= cfg.n && |clock| == cfg.n + 1
      modifies this`ackedCounter
      ensures View() == old(View()) && can == P.CanLcb(cfg, View(), clock, a)
    {
      var lcbHappy := true;
      var dependencies := cfg.Dependencies(a);
      assert forall d :: d in dependencies ==> d <= cfg.n;
      for x := 0 to |dependencies|
        invariant lcbHappy
        invariant forall y :: 0 <= y < x ==> At(vectorClock[..], dependencies[y]) >= At(clock, dependencies[y])
      {
        assert dependencies[x] in dependencies;
        if vectorClock[dependencies[x]] < clock[dependencies[x]] {
          lcbHappy := false;
          break;
        }
      }
      assert lcbHappy == P.ClockMet(cfg, View(), clock, a);
      var urbHappy := CanUrbDeliver(Key(a, receivedUpTo[a]));
      can := lcbHappy && urbHappy;
    }

    /** Moves the payload of `k`, if there is one, to the queue; a null pointer otherwise. */
    method Enqueue(k: Key)
      modifies this`deliverable, this`undelivered
      ensures deliverable == old(deliverable) +
        [if k in old(Flat(undelivered)) then Some(old(Flat(undelivered))[k]) else None]
      ensures Flat(undelivered) == old(Flat(undelivered)) - {k}
    {
      InFlat(undelivered, k);
      FlatDrop(undelivered, k.owner, k.packet);
      hide Flat;
      var packets: map<nat, Payload> := Inner(undelivered, k.owner);
      deliverable := deliverable + [if k.packet in packets then Some(packets[k.packet]) else None];
      undelivered := undelivered[k.owner := packets - {k.packet}];
    }

    /** The body of the inner loop of `insert`. */
    method QueueNext(a: nat)
      requires Valid() && a <= cfg.n
      modifies this, vectorClock
      ensures Valid() && View() == P.QueueNext(old(View()), a)
    {
      hide Flat, FlatAcks, Positive;
      var k := Key(a, receivedUpTo[a]);
      Enqueue(k);
      EraseCounter(k);
      receivedUpTo := receivedUpTo[a := receivedUpTo[a] + 1];
      vectorClock[a] := vectorClock[a] + 1;
    }

    /** The inner loop of `insert`. */
    method Drain(clock: seq<nat>, a: nat)
      requires Valid() && a <= cfg.n && |clock| == cfg.n + 1
      modifies this, vectorClock
      ensures Valid() && View() == P.Drain(cfg, old(View()), clock, a)
    {
      hide Flat, FlatAcks, Positive;
      var can := CanLcbDeliver(clock, a);
      while can
        invariant Valid() && can == P.CanLcb(cfg, View(), clock, a)
        invariant P.Drain(cfg, View(), clock, a) == P.Drain(cfg, old(View()), clock, a)
        decreases |View().counter|, can
      {
        DropKeySize(View().counter, Key(a, P.UpTo(View(), a)));
        QueueNext(a);
        can := CanLcbDeliver(clock, a);
      }
    }

    /** Counts one more acker; the first one brings the payload, copied without its last clock entry. */
    method CountIn(p: Payload)
      requires Valid() && |p.clock| == cfg.n + 1
      modifies this`ackedCounter, this`undelivered
      ensures Valid() && View() == P.CountIn(cfg, old(View()), p)
    {
      hide Flat, FlatAcks, Positive;
      var count := ReadCounter(p.Id());
      WriteCounter(p.Id(), count + 1);
      if count + 1 == 1 {
        var copy := p.(clock := p.clock[..cfg.n]);
        FlatPut(undelivered, p.owner, p.packet, copy);
        undelivered := undelivered[p.owner := Inner(undelivered, p.owner)[p.packet := copy]];
      }
    }

    method Insert(sender: nat, p: Payload)
      requires Valid() && sender <= cfg.n && p.owner <= cfg.n && |p.clock| == cfg.n + 1
      modifies this, vectorClock
      ensures Valid() && View() == P.InsertPruned(cfg, old(View()), sender, p)
    {
      hide Flat, FlatAcks, Positive;
      var seen := ContainsUnsafe(sender, p);
      AddAcker(sender, p.Id());
      if !seen {
        if p.packet < receivedUpTo[p.owner] {
          return;
        }
        CountIn(p);
      }
      if receivedUpTo[p.owner] == p.packet {
        DrainNodes(p.clock, cfg.Dependencies(p.owner));
      }
    }

    /** The outer loop of `insert`. */
    method DrainNodes(clock: seq<nat>, nodes: seq<nat>)
      requires Valid() && |clock| == cfg.n + 1 && forall a: nat :: a in nodes ==> a <= cfg.n
      modifies this, vectorClock
      ensures Valid() && View() == P.DrainAll(cfg, old(View()), clock, nodes)
    {
      hide Flat, FlatAcks, Positive;
      for x := 0 to |nodes|
        invariant Valid()
        invariant P.DrainAll(cfg, View(), clock, nodes[x..]) == P.DrainAll(cfg, old(View()), clock, nodes)
      {
        assert nodes[x..][1..] == nodes[x + 1..];
        assert nodes[x] in nodes;
        Drain(clock, nodes[x]);
      }
    }

    method MarkAsSeen(p: Payload)
      requires Valid() && self <= cfg.n && p.owner <= cfg.n && |p.clock| == cfg.n + 1
      modifies this, vectorClock
      ensures Valid() && View() == P.InsertPruned(cfg, old(View()), self, p)
    {
      Insert(self, p);
    }

    method WasSeen(p: Payload) returns (seen: bool)
      ensures seen == (Ack(self, p.Id()) in View().acked)
    {
      seen := ContainsUnsafe(self, p);
    }
  }
}
