/** What the writer thread makes of a node's events, and what the numbers of a run grow to. */
module WrittenLogs {
  import opened Basics
  import opened Messages
  import opened Store
  import opened StoreFacts
  import opened Protocol
  import opened NodeFacts
  import opened Invariants
  import opened Agreement
  import opened Causality
  import Decimal
  import V = Validator

  /** The words of the line that an event writes. */
  function Line(e: Event): seq<string>
  {
    match e
    case Dispatch(p) => ["b", p.buffer]
    case Delivery(p) => ["d", Decimal.ToString(p.owner), p.buffer]
  }

  function Lines(log: seq<Event>): seq<seq<string>>
  {
    seq(|log|, x requires 0 <= x < |log| => Line(log[x]))
  }

  /** Every packet carries its number, written out, as its contents. */
  ghost predicate NumbersWritten(log: seq<Event>)
  {
    && (forall e :: e in log && e.Delivery? ==> e.payload.buffer == Decimal.ToString(e.payload.packet))
    && (forall x: nat :: x < |log| && log[x].Dispatch? ==>
          log[x].payload.buffer == Decimal.ToString(|Dispatched(log[..x])| + 1))
  }

  function UpToNumber(k: nat): seq<int>
  {
    seq(k, x => x + 1)
  }

  lemma ReadLine(e: Event, q: nat)
    requires e.payload.buffer == Decimal.ToString(q)
    ensures V.Read(Line(e)) == if e.Dispatch? then V.Broadcast(q) else V.Delivery(e.payload.owner, q)
  {
    Decimal.ReadBack(q);
    Decimal.ReadBack(e.payload.owner);
    hide Decimal.ToString, Decimal.ParseInt;
  }

  /** The number that an event writes. */
  function Written(log: seq<Event>, e: Event): nat
  {
    if e.Dispatch? then |Dispatched(log)| + 1 else Count(log, e.payload.owner) + 1
  }

  lemma InitNumbered(log: seq<Event>)
    requires FifoLog(log) && NumbersWritten(log) && log != []
    ensures FifoLog(log[..|log| - 1]) && NumbersWritten(log[..|log| - 1])
  {
    hide Decimal.ToString, Count, Dispatched;
    var init := log[..|log| - 1];
    FifoInit(log);
    hide FifoLog;
    assert forall x: nat :: x < |init| ==> init[..x] == log[..x];
  }

  lemma LastLine(log: seq<Event>)
    requires FifoLog(log) && NumbersWritten(log) && log != []
    ensures var e := log[|log| - 1];
      var q := Written(log[..|log| - 1], e);
      V.Read(Line(e)) == if e.Dispatch? then V.Broadcast(q) else V.Delivery(e.payload.owner, q)
  {
    hide V.Read, Line, Decimal.ToString, Count, Dispatched;
    var init, e := log[..|log| - 1], log[|log| - 1];
    assert e in log;
    ReadLine(e, Written(init, e));
  }

  lemma LinesAppend(log: seq<Event>, e: Event)
    ensures Lines(log + [e]) == Lines(log) + [Line(e)]
    ensures Lines(log + [e])[..|log|] == Lines(log)
  {
    hide Line;
  }

  lemma UpToNext(k: nat)
    ensures UpToNumber(k + 1) == UpToNumber(k) + [k + 1]
    ensures V.Consecutive(UpToNumber(k))
  {
  }

  /** What one more event adds to the numbers read back. */
  lemma LinesStep(log: seq<Event>, e: Event, s: int)
    ensures var r := V.Read(Line(e));
      && V.Broadcasts(Lines(log + [e])) == V.Broadcasts(Lines(log)) + (if r.Broadcast? then [r.msg] else [])
      && V.Deliveries(Lines(log + [e]), s) ==
           V.Deliveries(Lines(log), s) + (if r.Delivery? && r.sender == s then [r.msg] else [])
      && (V.Readable(Lines(log)) && !r.Unreadable? ==> V.Readable(Lines(log + [e])))
  {
    hide Line, V.Read;
    LinesAppend(log, e);
  }

  /** A log read back lists its own packets and those of `s` as 1, 2, 3, ... */
  ghost predicate ReadsBack(log: seq<Event>, s: int)
  {
    && V.Broadcasts(Lines(log)) == UpToNumber(|Dispatched(log)|)
    && V.Deliveries(Lines(log), s) == (if s < 0 then [] else UpToNumber(Count(log, s)))
    && V.Readable(Lines(log))
  }

  lemma ReadsBackOn(log: seq<Event>, e: Event, s: int)
    requires ReadsBack(log, s)
    requires V.Read(Line(e)) ==
      if e.Dispatch? then V.Broadcast(Written(log, e)) else V.Delivery(e.payload.owner, Written(log, e))
    ensures ReadsBack(log + [e], s)
  {
    hide V.Read, V.Broadcasts, V.Deliveries, V.Readable, Line, Lines, UpToNumber, Count, Dispatched;
    LinesStep(log, e, s);
    DispatchedAppend(log, e);
    UpToNext(|Dispatched(log)|);
    if s >= 0 {
      CountAppend(log, e, s);
      UpToNext(Count(log, s));
    }
  }

  lemma {:induction false} LinesCount(log: seq<Event>, s: int)
    requires FifoLog(log) && NumbersWritten(log)
    ensures ReadsBack(log, s)
  {
    if log != [] {
      var init, e := log[..|log| - 1], log[|log| - 1];
      assert log == init + [e];
      InitNumbered(log);
      LastLine(log);
      hide FifoLog, NumbersWritten, ReadsBack, V.Read, Line;
      LinesCount(init, s);
      ReadsBackOn(init, e, s);
    }
  }

  lemma NodeLogNumbered(cfg: Config, sys: System, i: nat)
    requires Inv(cfg, sys) && i in sys.nodes
    ensures NumbersWritten(sys.nodes[i].store.log)
  {
    hide Stores, Obliged, Truthful, AcksAnswer, WireAcksAnswer, OwnSeen;
    var log := sys.nodes[i].store.log;
    forall e | e in log && e.Delivery?
      ensures e.payload.buffer == Decimal.ToString(e.payload.packet)
    {
      assert Holds(sys.nodes[i], e.payload);
      GenuineKind(cfg, sys, e.payload);
    }
    forall x: nat | x < |log| && log[x].Dispatch?
      ensures log[x].payload.buffer == Decimal.ToString(|Dispatched(log[..x])| + 1)
    {
      DispatchedAt(log, x);
      assert NumberedAt(cfg, i, sys.nodes[i]);
    }
  }

  lemma NodeLogReads(cfg: Config, sys: System, i: nat, o: int)
    requires Proper(cfg) && cfg.kind in {Fifob, Lcb} && Inv(cfg, sys) && i in sys.nodes
    ensures var log := sys.nodes[i].store.log;
      && V.Broadcasts(Lines(log)) == UpToNumber(sys.nodes[i].sent)
      && V.Deliveries(Lines(log), o) == (if o < 0 then [] else UpToNumber(Next(sys.nodes[i].store, o) - 1))
      && V.Readable(Lines(log))
  {
    hide Inv, Coherent, NumbersWritten, FifoLog, V.Broadcasts, V.Deliveries;
    NodeStoreInv(cfg, sys, i);
    NodeLogNumbered(cfg, sys, i);
    OwnCount(cfg, sys, i);
    LinesCount(sys.nodes[i].store.log, o);
  }

  /** The log of every node of a `Fifob` or `Lcb` run is one that the validator accepts; read back, it lists
      what the node broadcast and what it delivered of each owner. */
  lemma NodeLogAccepted(cfg: Config, sys: System, i: nat)
    requires Proper(cfg) && cfg.kind in {Fifob, Lcb} && Reachable(cfg, sys) && i in sys.nodes
    ensures var lines := Lines(sys.nodes[i].store.log);
      && V.Readable(lines) && V.Ordered(lines) && V.Complete(lines, 0)
      && |V.Broadcasts(lines)| == sys.nodes[i].sent
      && (forall k: Key :: k in sys.nodes[i].store.delivered <==> k.packet in V.Deliveries(lines, k.owner))
  {
    hide Inv, Lines, V.Broadcasts, V.Deliveries, V.Readable;
    ReachableInv(cfg, sys);
    var s := sys.nodes[i].store;
    var lines := Lines(s.log);
    forall o
      ensures V.Consecutive(V.Deliveries(lines, o)) && V.Readable(lines)
      ensures V.Broadcasts(lines) == UpToNumber(sys.nodes[i].sent)
    {
      NodeLogReads(cfg, sys, i, o);
      if o >= 0 {
        DeliveredUpTo(cfg, sys, i, Key(o, 0));
        UpToNext(Next(s, o) - 1);
      }
    }
    assert V.Consecutive(V.Deliveries(lines, 0));
    UpToNext(sys.nodes[i].sent);
    forall k: Key
      ensures k in s.delivered <==> k.packet in V.Deliveries(lines, k.owner)
    {
      NodeLogReads(cfg, sys, i, k.owner);
      DeliveredUpTo(cfg, sys, i, k);
      InUpToNumber(Next(s, k.owner) - 1, k.packet);
    }
  }

  /** Line `x` of the log of a node of a `Fifob` or `Lcb` run has no words but "b" and a number or "d", an owner and a
      number; the number is that of the node's broadcasts, or of the owner's deliveries, up to this line. */
  lemma NodeLogLines(cfg: Config, sys: System, i: nat, x: nat)
    requires Proper(cfg) && cfg.kind in {Fifob, Lcb} && Reachable(cfg, sys) && i in sys.nodes
    requires x < |sys.nodes[i].store.log|
    ensures var log := sys.nodes[i].store.log;
      Lines(log)[x] ==
        match log[x]
        case Dispatch(p) => ["b", Decimal.ToString(|Dispatched(log[..x])| + 1)]
        case Delivery(p) => ["d", Decimal.ToString(p.owner), Decimal.ToString(Count(log[..x], p.owner) + 1)]
  {
    hide Inv, Coherent, Dispatched, Count, Decimal.ToString;
    ReachableInv(cfg, sys);
    NodeStoreInv(cfg, sys, i);
    NodeLogNumbered(cfg, sys, i);
    assert sys.nodes[i].store.log[x] in sys.nodes[i].store.log;
  }

  lemma DeliveredUpTo(cfg: Config, sys: System, i: nat, k: Key)
    requires cfg.kind in {Fifob, Lcb} && Inv(cfg, sys) && i in sys.nodes
    ensures var s := sys.nodes[i].store;
      Next(s, k.owner) >= 1 && (k in s.delivered <==> 1 <= k.packet <= Next(s, k.owner) - 1)
  {
    hide Inv, Coherent, FifoLog;
    NodeStoreInv(cfg, sys, i);
  }

  lemma InUpToNumber(k: nat, q: nat)
    ensures q in UpToNumber(k) <==> 1 <= q <= k
  {
    assert 1 <= q <= k ==> UpToNumber(k)[q - 1] == q;
  }

  // ---- The numbers stay within 32 bits ----

  const MAX_WORD: nat := 0xFFFF_FFFF

  /** With fewer than 2^32 - 1 nodes and as many messages each, every counter, frontier, clock entry and packet
      number of a run of any relaying kind, and the successor of each, fits a 32-bit word: no addition wraps. */
  lemma NumbersFit(cfg: Config, sys: System, i: nat)
    requires Proper(cfg) && Relaying(cfg.kind) && Reachable(cfg, sys) && i in sys.nodes
    requires cfg.n < MAX_WORD && cfg.messages < MAX_WORD
    ensures var s := sys.nodes[i].store;
      && (forall k :: k in s.counter ==> s.counter[k] + 1 <= MAX_WORD)
      && (forall o :: Next(s, o) <= cfg.messages + 1 <= MAX_WORD)
      && (forall d :: At(s.clock, d) + 1 <= MAX_WORD)
      && (forall p :: Holds(sys.nodes[i], p) ==> p.packet + 1 <= MAX_WORD)
      && sys.nodes[i].sent + 1 <= MAX_WORD
  {
    hide Inv, Coherent, Holds;
    ReachableInv(cfg, sys);
    NodeStoreInv(cfg, sys, i);
    forall k | k in sys.nodes[i].store.counter
      ensures sys.nodes[i].store.counter[k] <= cfg.n
    {
      CounterBounded(cfg, sys, i, k);
    }
    forall o
      ensures Next(sys.nodes[i].store, o) <= cfg.messages + 1
      ensures At(sys.nodes[i].store.clock, o) <= cfg.messages
    {
      FrontierBounded(cfg, sys, i, o);
    }
    forall p | Holds(sys.nodes[i], p)
      ensures p.packet <= cfg.messages
    {
      HeldBounded(cfg, sys, i, p);
    }
    SentBounded(cfg, sys, i);
  }

  lemma CounterBounded(cfg: Config, sys: System, i: nat, k: Key)
    requires Inv(cfg, sys) && i in sys.nodes && k in sys.nodes[i].store.counter
    ensures sys.nodes[i].store.counter[k] <= cfg.n
  {
    hide Inv;
    NodeStoreInv(cfg, sys, i);
    AckersHaveSeen(cfg, sys, i, k);
    IdsSize(cfg.n);
    SubsetSize(Senders(sys.nodes[i].store.acked, k), Ids(cfg.n));
  }

  /** Frontiers and clock entries count deliveries, and those were broadcast. */
  lemma FrontierBounded(cfg: Config, sys: System, i: nat, o: nat)
    requires Relaying(cfg.kind) && Inv(cfg, sys) && i in sys.nodes
    ensures var s := sys.nodes[i].store;
      Next(s, o) <= cfg.messages + 1 && At(s.clock, o) <= cfg.messages
  {
    hide Inv, Coherent, FifoLog;
    var s := sys.nodes[i].store;
    NodeStoreInv(cfg, sys, i);
    if Next(s, o) > 1 {
      DeliveredIsGenuine(cfg, sys, i, Key(o, Next(s, o) - 1));
      SentBounded(cfg, sys, o);
    }
    assert cfg.kind == Lcb ==> At(s.clock, o) <= Count(s.log, o) == Next(s, o) - 1;
  }

  lemma SentBounded(cfg: Config, sys: System, o: nat)
    requires Inv(cfg, sys) && o in sys.nodes
    ensures sys.nodes[o].sent <= cfg.messages
  {
    assert NumberedAt(cfg, o, sys.nodes[o]);
  }

  lemma HeldBounded(cfg: Config, sys: System, i: nat, p: Payload)
    requires Inv(cfg, sys) && i in sys.nodes && Holds(sys.nodes[i], p)
    ensures p.packet <= cfg.messages
  {
    GenuineKind(cfg, sys, p);
  }
}
