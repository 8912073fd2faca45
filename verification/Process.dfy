/** The threads of one node as the source writes them: loop bodies that pop and push the node's channels and
    update its delivery store in place. Each is proved against the node's part of a protocol action. */
module Process {
  import opened Messages
  import opened Protocol
  import D = DeliveredSet
  import Decimal
  import S = Store

  class Process {
    const cfg: Config
    const id: nat
    const store: D.DeliveredSet
    var sending: seq<Message>
    var retrans: seq<Message>
    var sent: nat

    ghost function View(): Node
      reads this, store
    {
      Node(store.View(), sending, retrans, sent, false)
    }

    ghost predicate Valid()
      reads this, store
    {
      store.Valid() && store.cfg == cfg && store.self == id && 1 <= id <= cfg.n
    }

    constructor (cfg: Config, id: nat)
      requires 1 <= id <= cfg.n
      requires forall o, d :: d in cfg.Dependencies(o) ==> d <= cfg.n
      ensures Valid() && fresh(store) && this.cfg == cfg && this.id == id
      ensures View() == Node(S.Empty(cfg.n), [], [], 0, false)
    {
      this.cfg, this.id := cfg, id;
      store := new D.DeliveredSet(cfg, id);
      sending, retrans, sent := [], [], 0;
    }

    method BestEffortBroadcast(p: Payload)
      requires Valid() && store.Fits(p)
      modifies this`sending, store
      ensures Valid() && View() == BestEffort(cfg, id, old(View()), p)
    {
      var peers := cfg.Peers(id);
      for k := 0 to |peers|
        invariant sending == old(sending) + Copies(peers[..k], id, p)
        invariant Valid() && store.View() == old(store.View())
      {
        assert peers[..k + 1][..k] == peers[..k];
        if peers[k] != id {
          sending := sending + [Message(p, peers[k])];
        }
      }
      assert peers[..|peers|] == peers;
      store.MarkAsSeen(p);
    }

    method ReliableBroadcast(p: Payload)
      requires Valid() && store.Fits(p)
      modifies this`sending, store
      ensures Valid() && View() == Reliable(cfg, id, old(View()), p)
    {
      var seen := store.WasSeen(p);
      if !seen {
        BestEffortBroadcast(p);
      }
    }

    /** One turn of the enqueue loop. */
    method BroadcastNext()
      requires Valid() && cfg.kind != Tcp
      modifies this, store
      ensures Valid() && View() == NodeBroadcast(cfg, id, old(View()))
    {
      hide D.Flat, D.FlatAcks, D.FlatSet, S.Insert, Decimal.ToString, Copies;
      var contents := Decimal.ToString(sent + 1);
      var clock := store.CloneVectorClock();
      var p := Payload(id, id, sent + 1, cfg.kind, false, clock, contents);
      store.log := store.log + [Dispatch(p)];
      sent := sent + 1;
      if cfg.kind == Beb {
        BestEffortBroadcast(p);
      } else {
        ReliableBroadcast(p);
      }
    }

    /** The enqueue loop, when no other thread runs. */
    method EnqueueBroadcasts(count: nat)
      requires Valid() && cfg.kind != Tcp
      modifies this, store
      ensures Valid() && View() == NodeBroadcasts(cfg, id, old(View()), count)
    {
      for i := 0 to count
        invariant Valid() && View() == NodeBroadcasts(cfg, id, old(View()), i)
      {
        BroadcastNext();
      }
    }

    /** One turn of the sending loop; `datagram` is what goes on the wire. */
    method SendNext() returns (datagram: Message)
      requires Valid() && sending != []
      modifies this`sending, this`retrans
      ensures Valid() && View() == NodeSend(id, old(View()))
      ensures datagram == Stamped(id, old(sending)[0])
    {
      var m := sending[0];
      sending := sending[1..];
      datagram := m.(payload := m.payload.(sender := id));
      if !datagram.payload.isAck {
        retrans := retrans + [datagram];
      }
    }

    /** One turn of the receiving loop. */
    method ReceiveOne(p: Payload)
      requires Valid() && store.Fits(p)
      modifies this`sending, store
      ensures Valid() && View() == NodeReceive(cfg, id, old(View()), p)
    {
      hide D.Flat, D.FlatAcks, D.FlatSet, S.Insert, Copies;
      if !p.isAck {
        sending := sending + [Message(p.(isAck := true), p.sender)];
      }
      store.Insert(p.sender, p);
      match p.kind {
        case Tcp =>
        case Beb =>
        case _ => ReliableBroadcast(p);
      }
    }

    /** One turn of the retransmitting loop. */
    method RetransmitNext()
      requires Valid() && retrans != []
      modifies this`sending, this`retrans
      ensures Valid() && View() == NodeRetransmit(old(View()))
    {
      var m := retrans[0];
      retrans := retrans[1..];
      var acked := store.Contains(m.dest, m.payload.owner, m.payload.packet);
      if !acked {
        sending := sending + [m];
      }
    }
  }
}
