/** The delivery store of one node as a value, and what one `insert` makes of it.
    Class `DeliveredSet` holds the same state in nested maps and is proved against these functions. */
module Store {
  import opened Basics
  import opened Messages

  datatype Store = Store(
    acked: set<Ack>,
    counter: map<Key, nat>,
    upTo: map<nat, nat>,
    undelivered: map<Key, Payload>,
    delivered: set<Key>,
    clock: seq<nat>,
    log: seq<Event>)

  function Empty(n: nat): Store
  {
    Store({}, map[], map[], map[], {}, seq(n + 1, _ => 0), [])
  }

  /** The number of the packet of `o` that comes next in FIFO order. */
  function Next(s: Store, o: nat): nat
  {
    if o in s.upTo then s.upTo[o] else 1
  }

  predicate UrbReady(cfg: Config, s: Store, p: Payload)
  {
    p.Id() in s.counter && s.counter[p.Id()] >= Majority(cfg.n)
  }

  predicate FifobReady(cfg: Config, s: Store, p: Payload)
  {
    UrbReady(cfg, s, p) && p.packet == Next(s, p.owner)
  }

  predicate LcbReady(cfg: Config, s: Store, p: Payload)
  {
    && (forall d | d in cfg.Dependencies(p.owner) :: At(s.clock, d) >= At(p.clock, d))
    && FifobReady(cfg, s, p)
  }

  predicate Ready(cfg: Config, s: Store, p: Payload)
  {
    match p.kind
    case Urb => UrbReady(cfg, s, p)
    case Fifob => FifobReady(cfg, s, p)
    case Lcb => LcbReady(cfg, s, p)
    case _ => true
  }

  /** One delivery: the packet leaves the buffer and the log gains it; the ordered kinds advance the
      FIFO frontier and `Lcb` also the clock. */
  function DeliverOne(s: Store, k: Key): Store
    requires k in s.undelivered
  {
    var p := s.undelivered[k];
    var t := s.(undelivered := s.undelivered - {k},
                delivered := s.delivered + {p.Id()},
                log := s.log + [Delivery(p)]);
    match p.kind
    case Fifob => t.(upTo := t.upTo[p.owner := p.packet + 1])
    case Lcb => t.(upTo := t.upTo[p.owner := p.packet + 1],
                   clock := if p.owner < |t.clock| then t.clock[p.owner := t.clock[p.owner] + 1] else t.clock)
    case _ => t
  }

  /** What a delivery pushes on the worklist, given the store after it. */
  function Followups(cfg: Config, t: Store, p: Payload): seq<Key>
  {
    match p.kind
    case Fifob => [Key(p.owner, p.packet + 1)]
    case Lcb => [Key(p.owner, p.packet + 1)] + Frontiers(t, cfg.Affected(p.owner))
    case _ => []
  }

  function Frontiers(t: Store, nodes: seq<nat>): seq<Key>
  {
    seq(|nodes|, i requires 0 <= i < |nodes| => Key(nodes[i], Next(t, nodes[i])))
  }

  /** Is there a last worklist entry, is it buffered, and may it be delivered? */
  predicate Deliverable(cfg: Config, s: Store, work: seq<Key>)
  {
    && work != []
    && work[|work| - 1] in s.undelivered
    && Ready(cfg, s, s.undelivered[work[|work| - 1]])
  }

  /** The worklist loop. An entry that is missing or blocked ends it, whatever is left on the list. */
  function Cascade(cfg: Config, s: Store, work: seq<Key>): Store
    decreases |s.undelivered|
  {
    if !Deliverable(cfg, s, work) then
      s
    else
      var k := work[|work| - 1];
      DropKeySize(s.undelivered, k);
      var t := DeliverOne(s, k);
      Cascade(cfg, t, work[..|work| - 1] + Followups(cfg, t, s.undelivered[k]))
  }

  /** The acks that a set of acks holds for one packet. */
  function Senders(acked: set<Ack>, k: Key): set<nat>
  {
    set a | a in acked && a.key == k :: a.sender
  }

  /** One more in the count of packet `k`. */
  function Counted(counter: map<Key, nat>, k: Key): map<Key, nat>
  {
    counter[k := if k in counter then counter[k] + 1 else 1]
  }

  function Record(s: Store, sender: nat, k: Key): Store
  {
    s.(acked := s.acked + {Ack(sender, k)},
       counter := if Ack(sender, k) in s.acked then s.counter else Counted(s.counter, k))
  }

  /** The store just before the worklist loop of an `insert` starts. */
  function Buffer(s: Store, sender: nat, p: Payload): Store
  {
    var t := Record(s, sender, p.Id());
    t.(undelivered := t.undelivered[p.Id() := p])
  }

  function Insert(cfg: Config, s: Store, sender: nat, p: Payload): Store
  {
    if p.Id() in s.delivered then
      Record(s, sender, p.Id())
    else
      Cascade(cfg, Buffer(s, sender, p), [p.Id()])
  }

  /** A call of `insert`. */
  datatype Call = Call(sender: nat, payload: Payload)

  /** The store after a sequence of calls on an empty one. */
  function Inserts(cfg: Config, calls: seq<Call>): Store
  {
    if calls == [] then
      Empty(cfg.n)
    else
      var last := calls[|calls| - 1];
      Insert(cfg, Inserts(cfg, calls[..|calls| - 1]), last.sender, last.payload)
  }

  // ---- Reading a log ----

  /** How many packets of `o` a log says were delivered. */
  function Count(log: seq<Event>, o: nat): nat
  {
    if log == [] then
      0
    else
      var e := log[|log| - 1];
      Count(log[..|log| - 1], o) + if e.Delivery? && e.payload.owner == o then 1 else 0
  }

  /** The payloads that a log says its own node broadcast, in order. */
  function Dispatched(log: seq<Event>): seq<Payload>
  {
    if log == [] then
      []
    else
      var e := log[|log| - 1];
      Dispatched(log[..|log| - 1]) + if e.Dispatch? then [e.payload] else []
  }

  /** Entry `i` of the log delivers packet `k`. */
  predicate DeliversAt(log: seq<Event>, i: nat, k: Key)
  {
    i < |log| && log[i].Delivery? && log[i].payload.Id() == k
  }
}
