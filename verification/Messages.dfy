/** The values that nodes exchange and log, and the parameters of a run. */
module Messages {
  datatype Kind = Tcp | Beb | Rb | Urb | Fifob | Lcb

  /** A packet is named by the node that broadcast it and its number there. */
  datatype Key = Key(owner: nat, packet: nat)

  /** "`sender` has acked the packet `key`". */
  datatype Ack = Ack(sender: nat, key: Key)

  datatype Payload = Payload(
    owner: nat,
    sender: nat,
    packet: nat,
    kind: Kind,
    isAck: bool,
    clock: seq<nat>,
    buffer: string)
  {
    function Id(): Key {
      Key(owner, packet)
    }
  }

  /** What a node sends to its writer thread. The source's events keep the kind and the contents
      (and, for a delivery, the owner) of the payload; here they keep the payload. */
  datatype Event = Dispatch(payload: Payload) | Delivery(payload: Payload)

  /** `causality` and `inverse` are the two maps read from the configuration file: any maps at all.
      `peers[i]` is the order in which node `i` walks through the table of hosts. */
  datatype Config = Config(
    n: nat,
    kind: Kind,
    messages: nat,
    causality: map<nat, seq<nat>>,
    inverse: map<nat, seq<nat>>,
    peers: map<nat, seq<nat>>)
  {
    function Dependencies(o: nat): seq<nat> {
      if o in causality then causality[o] else []
    }

    function Affected(o: nat): seq<nat> {
      if o in inverse then inverse[o] else []
    }

    function Peers(i: nat): seq<nat> {
      if i in peers then peers[i] else []
    }

    /** A missing entry of a table reads as an empty list, any other as it is. */
    lemma TablesAsRead(o: nat)
      ensures o in causality ==> Dependencies(o) == causality[o]
      ensures o in inverse ==> Affected(o) == inverse[o]
      ensures o in peers ==> Peers(o) == peers[o]
      ensures o !in causality ==> Dependencies(o) == []
      ensures o !in inverse ==> Affected(o) == []
      ensures o !in peers ==> Peers(o) == []
    {
    }
  }

  /** Clock entry `d`; an entry that does not exist reads as 0. (The store class proves that it
      never reads such an entry.) */
  function At(clock: seq<nat>, d: nat): nat
  {
    if d < |clock| then clock[d] else 0
  }
}
