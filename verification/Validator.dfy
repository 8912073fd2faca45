/** The log validator: it reads the lines of one node's output, split into words, and accepts or rejects them. */
module Validator {
  import opened Basics
  import Decimal

  /** `Crashed` stands for an IndexError or a ValueError. */
  datatype Verdict = Accepted | Rejected | Crashed

  datatype Entry = Broadcast(msg: int) | Delivery(sender: int, msg: int) | Other | Unreadable

  function Number(tokens: seq<string>, x: nat): Option<int>
  {
    if x < |tokens| then Decimal.ParseInt(tokens[x]) else None
  }

  /** What one line says. */
  function Read(tokens: seq<string>): Entry
  {
    if tokens == [] then
      Unreadable
    else if tokens[0] == "b" then
      match Number(tokens, 1)
      case None => Unreadable
      case Some(msg) => Broadcast(msg)
    else if tokens[0] == "d" then
      match Number(tokens, 1)
      case None => Unreadable
      case Some(sender) =>
        match Number(tokens, 2)
        case None => Unreadable
        case Some(msg) => Delivery(sender, msg)
    else
      Other
  }

  /** Word `x` of the line is a numeral. */
  predicate NumeralAt(tokens: seq<string>, x: nat)
  {
    x < |tokens| && Decimal.IsNumeral(tokens[x])
  }

  /** What the words of a line make it: unreadable, if it is empty or "b" or "d" lacks its numerals; a broadcast or a
      delivery of what the numerals denote; something else, if it starts with another word. */
  lemma LineMeans(tokens: seq<string>)
    ensures Read(tokens).Unreadable? <==>
      || tokens == []
      || (tokens[0] == "b" && !NumeralAt(tokens, 1))
      || (tokens[0] == "d" && !(NumeralAt(tokens, 1) && NumeralAt(tokens, 2)))
    ensures Read(tokens).Other? <==> tokens != [] && tokens[0] != "b" && tokens[0] != "d"
    ensures Read(tokens).Broadcast? ==> tokens[0] == "b" && Decimal.Denotes(tokens[1], Read(tokens).msg)
    ensures Read(tokens).Delivery? ==>
      tokens[0] == "d" && Decimal.Denotes(tokens[1], Read(tokens).sender) && Decimal.Denotes(tokens[2], Read(tokens).msg)
  {
    if |tokens| > 1 {
      Decimal.ParseMeans(tokens[1]);
    }
    if |tokens| > 2 {
      Decimal.ParseMeans(tokens[2]);
    }
    hide Decimal.ParseInt, Decimal.IsNumeral, Decimal.Denotes;
  }

  /** The numbers of the broadcast lines. */
  function Broadcasts(lines: seq<seq<string>>): seq<int>
  {
    if lines == [] then
      []
    else
      var e := Read(lines[|lines| - 1]);
      Broadcasts(lines[..|lines| - 1]) + if e.Broadcast? then [e.msg] else []
  }

  /** The numbers of the lines that deliver from `sender`. */
  function Deliveries(lines: seq<seq<string>>, sender: int): seq<int>
  {
    if lines == [] then
      []
    else
      var e := Read(lines[|lines| - 1]);
      Deliveries(lines[..|lines| - 1], sender) + if e.Delivery? && e.sender == sender then [e.msg] else []
  }

  /** 1, 2, 3, ... */
  ghost predicate Consecutive(xs: seq<int>)
  {
    forall x :: 0 <= x < |xs| ==> xs[x] == x + 1
  }

  ghost predicate Readable(lines: seq<seq<string>>)
  {
    forall x :: 0 <= x < |lines| ==> !Read(lines[x]).Unreadable?
  }

  /** Broadcasts, and the deliveries from each sender, are numbered 1, 2, 3, ... */
  ghost predicate Ordered(lines: seq<seq<string>>)
  {
    Consecutive(Broadcasts(lines)) && forall s :: Consecutive(Deliveries(lines, s))
  }

  /** Every sender that appears was heard exactly `m` times; `m` = 0 asks for nothing. */
  ghost predicate Complete(lines: seq<seq<string>>, m: int)
  {
    m == 0 || forall s :: Deliveries(lines, s) == [] || |Deliveries(lines, s)| == m
  }

  /** The first unreadable line comes before any line out of order. */
  ghost predicate BreaksOff(lines: seq<seq<string>>)
  {
    exists x :: 0 <= x < |lines| && Ordered(lines[..x]) && Readable(lines[..x]) && Read(lines[x]).Unreadable?
  }

  // ---- In order and complete, told line by line ----

  /** How many of the first `x` lines broadcast. */
  ghost function BroadcastLines(lines: seq<seq<string>>, x: nat): nat
  {
    |set y | 0 <= y < |lines| && Read(lines[y]).Broadcast? && y < x|
  }

  /** How many of the first `x` lines deliver from `sender`. */
  ghost function DeliveryLines(lines: seq<seq<string>>, x: nat, sender: int): nat
  {
    |set y | 0 <= y < |lines| && Read(lines[y]).Delivery? && Read(lines[y]).sender == sender && y < x|
  }

  /** The number in line `x` is one more than the number of lines before it of its sort and, if it delivers, sender. */
  ghost predicate InPlace(lines: seq<seq<string>>, x: nat)
    requires x < |lines|
  {
    match Read(lines[x])
    case Broadcast(msg) => msg == BroadcastLines(lines, x) + 1
    case Delivery(sender, msg) => msg == DeliveryLines(lines, x, sender) + 1
    case _ => true
  }

  lemma OneMoreLine(lines: seq<seq<string>>, x: nat, s: int)
    requires x < |lines|
    ensures BroadcastLines(lines, x + 1) == BroadcastLines(lines, x) + if Read(lines[x]).Broadcast? then 1 else 0
    ensures var e := Read(lines[x]);
      DeliveryLines(lines, x + 1, s) == DeliveryLines(lines, x, s) + if e.Delivery? && e.sender == s then 1 else 0
  {
    OneMoreBroadcast(lines, x);
    OneMoreDelivery(lines, x, s);
  }

  lemma OneMoreBroadcast(lines: seq<seq<string>>, x: nat)
    requires x < |lines|
    ensures BroadcastLines(lines, x + 1) == BroadcastLines(lines, x) + if Read(lines[x]).Broadcast? then 1 else 0
  {
    hide Read;
    var before := set y | 0 <= y < |lines| && Read(lines[y]).Broadcast? && y < x;
    var after := set y | 0 <= y < |lines| && Read(lines[y]).Broadcast? && y < x + 1;
    assert after == if Read(lines[x]).Broadcast? then before + {x} else before;
  }

  lemma OneMoreDelivery(lines: seq<seq<string>>, x: nat, s: int)
    requires x < |lines|
    ensures var e := Read(lines[x]);
      DeliveryLines(lines, x + 1, s) == DeliveryLines(lines, x, s) + if e.Delivery? && e.sender == s then 1 else 0
  {
    hide Read;
    var before := set y | 0 <= y < |lines| && Read(lines[y]).Delivery? && Read(lines[y]).sender == s && y < x;
    var after := set y | 0 <= y < |lines| && Read(lines[y]).Delivery? && Read(lines[y]).sender == s && y < x + 1;
    assert after == if Read(lines[x]).Delivery? && Read(lines[x]).sender == s then before + {x} else before;
  }

  lemma NoLine(lines: seq<seq<string>>, s: int)
    ensures BroadcastLines(lines, 0) == 0 && DeliveryLines(lines, 0, s) == 0
  {
    hide Read;
    assert (set y | 0 <= y < |lines| && Read(lines[y]).Broadcast? && y < 0) == {};
    assert (set y | 0 <= y < |lines| && Read(lines[y]).Delivery? && Read(lines[y]).sender == s && y < 0) == {};
  }

  lemma {:induction false} CountLines(lines: seq<seq<string>>, x: nat, s: int)
    requires x <= |lines|
    ensures |Broadcasts(lines[..x])| == BroadcastLines(lines, x)
    ensures |Deliveries(lines[..x], s)| == DeliveryLines(lines, x, s)
  {
    hide Read, BroadcastLines, DeliveryLines;
    if x == 0 {
      NoLine(lines, s);
    } else {
      CountLines(lines, x - 1, s);
      OneMoreLine(lines, x - 1, s);
      AppendLine(lines, x - 1, s);
      hide Broadcasts, Deliveries;
    }
  }

  lemma LastInPlace(numbers: seq<int>, msg: int)
    ensures Consecutive(numbers + [msg]) <==> Consecutive(numbers) && msg == |numbers| + 1
  {
    var more := numbers + [msg];
    assert more[|numbers|] == msg;
    assert forall y :: 0 <= y < |numbers| ==> more[y] == numbers[y];
  }

  /** One more line adds a number in its place to the numbers of its sort, or none. */
  lemma ConsecutiveOneMore(lines: seq<seq<string>>, x: nat, s: int)
    requires x < |lines|
    ensures var e := Read(lines[x]);
      && (Consecutive(Broadcasts(lines[..x + 1])) <==>
            Consecutive(Broadcasts(lines[..x])) && (e.Broadcast? ==> e.msg == BroadcastLines(lines, x) + 1))
      && (Consecutive(Deliveries(lines[..x + 1], s)) <==>
            && Consecutive(Deliveries(lines[..x], s))
            && (e.Delivery? && e.sender == s ==> e.msg == DeliveryLines(lines, x, s) + 1))
  {
    var e := Read(lines[x]);
    hide Read, Broadcasts, Deliveries, Consecutive, BroadcastLines, DeliveryLines;
    CountLines(lines, x, s);
    AppendLine(lines, x, s);
    var b, d := Broadcasts(lines[..x]), Deliveries(lines[..x], s);
    assert b + [] == b && d + [] == d;
    if e.Broadcast? {
      LastInPlace(b, e.msg);
    } else if e.Delivery? && e.sender == s {
      LastInPlace(d, e.msg);
    }
  }

  lemma OrderedOneMore(lines: seq<seq<string>>, x: nat)
    requires x < |lines|
    ensures Ordered(lines[..x + 1]) <==> Ordered(lines[..x]) && InPlace(lines, x)
  {
    hide Read, Broadcasts, Deliveries, Consecutive, BroadcastLines, DeliveryLines;
    var e, after := Read(lines[x]), lines[..x + 1];
    ConsecutiveOneMore(lines, x, if e.Delivery? then e.sender else 0);
    forall s
      ensures Consecutive(Deliveries(after, s)) <==>
          && Consecutive(Deliveries(lines[..x], s))
          && (e.Delivery? && e.sender == s ==> e.msg == DeliveryLines(lines, x, s) + 1)
    {
      ConsecutiveOneMore(lines, x, s);
    }
  }

  lemma {:induction false} OrderedUpTo(lines: seq<seq<string>>, x: nat)
    requires x <= |lines|
    ensures Ordered(lines[..x]) <==> forall y :: 0 <= y < x ==> InPlace(lines, y)
  {
    hide Read, InPlace;
    if x > 0 {
      hide Ordered;
      OrderedUpTo(lines, x - 1);
      OrderedOneMore(lines, x - 1);
    }
  }

  /** What the verdicts are about, line by line: a log is in order if and only if each of its lines has the number that
      comes next in its place, and complete if and only if `m` is 0 or `m` lines deliver from each sender heard. */
  lemma LineByLine(lines: seq<seq<string>>, m: int)
    ensures Ordered(lines) <==> forall x :: 0 <= x < |lines| ==> InPlace(lines, x)
    ensures Complete(lines, m) <==>
      m == 0 || forall x :: 0 <= x < |lines| && Read(lines[x]).Delivery? ==>
        DeliveryLines(lines, |lines|, Read(lines[x]).sender) == m
  {
    hide Read, InPlace, Ordered;
    OrderedUpTo(lines, |lines|);
    assert lines[..|lines|] == lines;
    forall s
      ensures |Deliveries(lines, s)| == DeliveryLines(lines, |lines|, s)
      ensures DeliveryLines(lines, |lines|, s) > 0 <==>
        exists x :: 0 <= x < |lines| && Read(lines[x]).Delivery? && Read(lines[x]).sender == s
    {
      CountLines(lines, |lines|, s);
      SomeLine(lines, s);
    }
  }

  lemma SomeLine(lines: seq<seq<string>>, s: int)
    ensures DeliveryLines(lines, |lines|, s) > 0 <==>
      exists x :: 0 <= x < |lines| && Read(lines[x]).Delivery? && Read(lines[x]).sender == s
  {
    hide Read;
    var found := set y | 0 <= y < |lines| && Read(lines[y]).Delivery? && Read(lines[y]).sender == s && y < |lines|;
    assert |found| == DeliveryLines(lines, |lines|, s);
    if x :| 0 <= x < |lines| && Read(lines[x]).Delivery? && Read(lines[x]).sender == s {
      assert x in found;
    }
  }

  // ---- The validator ----

  lemma AppendLine(lines: seq<seq<string>>, x: nat, s: int)
    requires x < |lines|
    ensures var e := Read(lines[x]);
      && Broadcasts(lines[..x + 1]) == Broadcasts(lines[..x]) + (if e.Broadcast? then [e.msg] else [])
      && Deliveries(lines[..x + 1], s) ==
           Deliveries(lines[..x], s) + (if e.Delivery? && e.sender == s then [e.msg] else [])
  {
    assert lines[..x + 1][..x] == lines[..x];
  }

  /** A prefix of an ordered log is ordered. */
  lemma {:induction false} OrderedPrefix(lines: seq<seq<string>>, x: nat)
    requires x <= |lines| && Ordered(lines)
    ensures Ordered(lines[..x])
    decreases |lines| - x
  {
    if x == |lines| {
      assert lines[..x] == lines;
    } else {
      OrderedPrefix(lines, x + 1);
      forall s
        ensures Consecutive(Broadcasts(lines[..x])) && Consecutive(Deliveries(lines[..x], s))
      {
        AppendLine(lines, x, s);
        var b, c := Broadcasts(lines[..x]), Broadcasts(lines[..x + 1]);
        assert forall y :: 0 <= y < |b| ==> b[y] == c[y];
        var d, e := Deliveries(lines[..x], s), Deliveries(lines[..x + 1], s);
        assert forall y :: 0 <= y < |d| ==> d[y] == e[y];
      }
    }
  }

  /** The next number expected from each sender that has been heard. */
  ghost predicate Tracks(lines: seq<seq<string>>, nextMessage: map<int, int>)
  {
    && (forall s :: s in nextMessage <==> Deliveries(lines, s) != [])
    && (forall s :: s in nextMessage ==> nextMessage[s] == |Deliveries(lines, s)| + 1)
  }

  lemma NonEmpty(senders: set<int>)
    requires senders != {}
    ensures exists s :: s in senders
  {
    assert (forall s :: s !in senders) ==> senders == {};
  }

  method CheckNextMessages(nextMessage: map<int, int>, m: int) returns (ok: bool)
    ensures ok <==> m == 0 || forall s :: s in nextMessage ==> nextMessage[s] - 1 == m
  {
    if m == 0 {
      return true;
    }
    var left: set<int> := nextMessage.Keys;
    while left != {}
      invariant left <= nextMessage.Keys
      invariant forall s :: s in nextMessage && s !in left ==> nextMessage[s] - 1 == m
      decreases left
    {
      NonEmpty(left);
      var proc :| proc in left;
      if nextMessage[proc] - 1 != m {
        return false;
      }
      left := left - {proc};
    }
    return true;
  }

  lemma OutOfOrder(lines: seq<seq<string>>, x: nat)
    requires x < |lines| && Ordered(lines[..x]) && Readable(lines[..x]) && !Read(lines[x]).Unreadable?
    requires !Ordered(lines[..x + 1])
    ensures !Ordered(lines) && !BreaksOff(lines)
  {
    hide Ordered, Read;
    if Ordered(lines) {
      OrderedPrefix(lines, x + 1);
    }
    if BreaksOff(lines) {
      var y :| 0 <= y < |lines| && Ordered(lines[..y]) && Readable(lines[..y]) && Read(lines[y]).Unreadable?;
      assert forall z :: 0 <= z < x ==> lines[..x][z] == lines[z];
      if y > x {
        assert lines[..y][..x + 1] == lines[..x + 1];
        OrderedPrefix(lines[..y], x + 1);
      }
    }
  }

  /** The lines read so far are in order, and the validator's counters say so. */
  ghost predicate OnTrack(lines: seq<seq<string>>, i: int, nextMessage: map<int, int>)
  {
    && Readable(lines)
    && Ordered(lines)
    && i == |Broadcasts(lines)| + 1
    && Tracks(lines, nextMessage)
  }

  function Expected(nextMessage: map<int, int>, sender: int): int
  {
    if sender in nextMessage then nextMessage[sender] else 1
  }

  lemma ReadableOn(lines: seq<seq<string>>, x: nat)
    requires x < |lines| && Readable(lines[..x]) && !Read(lines[x]).Unreadable?
    ensures Readable(lines[..x + 1])
  {
    assert lines[..x + 1] == lines[..x] + [lines[x]];
  }

  lemma GoodBroadcast(lines: seq<seq<string>>, x: nat, i: int, nextMessage: map<int, int>)
    requires x < |lines| && OnTrack(lines[..x], i, nextMessage) && Read(lines[x]) == Broadcast(i)
    ensures OnTrack(lines[..x + 1], i + 1, nextMessage)
  {
    hide Read, Readable, Broadcasts, Deliveries;
    var after := lines[..x + 1];
    ReadableOn(lines, x);
    AppendLine(lines, x, 0);
    forall s
      ensures Deliveries(after, s) == Deliveries(lines[..x], s)
      ensures Consecutive(Deliveries(after, s))
    {
      AppendLine(lines, x, s);
      assert Consecutive(Deliveries(lines[..x], s));
    }
  }

  lemma GoodOther(lines: seq<seq<string>>, x: nat, i: int, nextMessage: map<int, int>)
    requires x < |lines| && OnTrack(lines[..x], i, nextMessage) && Read(lines[x]) == Other
    ensures OnTrack(lines[..x + 1], i, nextMessage)
  {
    hide Read, Readable, Broadcasts, Deliveries;
    var after := lines[..x + 1];
    ReadableOn(lines, x);
    AppendLine(lines, x, 0);
    forall s
      ensures Deliveries(after, s) == Deliveries(lines[..x], s)
      ensures Consecutive(Deliveries(after, s))
    {
      AppendLine(lines, x, s);
      assert Consecutive(Deliveries(lines[..x], s));
    }
  }

  lemma ConsecutiveOn(numbers: seq<int>, msg: int)
    requires Consecutive(numbers) && msg == |numbers| + 1
    ensures Consecutive(numbers + [msg])
  {
  }

  lemma GoodDelivery(lines: seq<seq<string>>, x: nat, i: int, nextMessage: map<int, int>, sender: int, msg: int)
    requires x < |lines| && OnTrack(lines[..x], i, nextMessage) && Read(lines[x]) == Delivery(sender, msg)
    requires msg == Expected(nextMessage, sender)
    ensures OnTrack(lines[..x + 1], i, nextMessage[sender := msg + 1])
  {
    hide Read, Readable, Broadcasts, Deliveries;
    var after := lines[..x + 1];
    ReadableOn(lines, x);
    AppendLine(lines, x, 0);
    forall s
      ensures Deliveries(after, s) == Deliveries(lines[..x], s) + if s == sender then [msg] else []
      ensures Consecutive(Deliveries(after, s))
    {
      AppendLine(lines, x, s);
      assert Consecutive(Deliveries(lines[..x], s));
      if s == sender {
        ConsecutiveOn(Deliveries(lines[..x], s), msg);
      }
    }
    hide Consecutive;
  }

  lemma BadLine(lines: seq<seq<string>>, x: nat, i: int, nextMessage: map<int, int>)
    requires x < |lines| && OnTrack(lines[..x], i, nextMessage)
    requires var e := Read(lines[x]);
      (e.Broadcast? && e.msg != i) || (e.Delivery? && e.msg != Expected(nextMessage, e.sender))
    ensures !Ordered(lines) && !BreaksOff(lines)
  {
    var e := Read(lines[x]);
    hide Read, Readable, Broadcasts, Deliveries, BreaksOff;
    if e.Broadcast? {
      AppendLine(lines, x, 0);
      assert Broadcasts(lines[..x + 1])[i - 1] == e.msg;
    } else {
      AppendLine(lines, x, e.sender);
      var n := |Deliveries(lines[..x], e.sender)|;
      assert Deliveries(lines[..x + 1], e.sender)[n] == e.msg;
    }
    OutOfOrder(lines, x);
  }

  /** The validator accepts exactly the logs whose broadcasts and whose deliveries from each sender are
      numbered 1, 2, 3, ..., with `m` deliveries from every sender heard if `m` is not 0; it breaks off at an
      unreadable line unless a line before it is out of order. */
  method CheckProcess(lines: seq<seq<string>>, m: int) returns (verdict: Verdict)
    ensures verdict.Accepted? <==> Readable(lines) && Ordered(lines) && Complete(lines, m)
    ensures verdict.Crashed? <==> BreaksOff(lines)
  {
    hide Read, Broadcasts, Deliveries, Ordered;
    var i := 1;
    var nextMessage: map<int, int> := map[];
    NothingRead();
    for x := 0 to |lines|
      invariant OnTrack(lines[..x], i, nextMessage)
    {
      var e := Read(lines[x]);
      match e {
        case Unreadable =>
          assert !Readable(lines);
          return Crashed;
        case Broadcast(msg) =>
          if msg != i {
            BadLine(lines, x, i, nextMessage);
            return Rejected;
          }
          GoodBroadcast(lines, x, i, nextMessage);
          i := i + 1;
        case Delivery(sender, msg) =>
          if msg != Expected(nextMessage, sender) {
            BadLine(lines, x, i, nextMessage);
            return Rejected;
          }
          GoodDelivery(lines, x, i, nextMessage, sender, msg);
          nextMessage := nextMessage[sender := msg + 1];
        case Other =>
          GoodOther(lines, x, i, nextMessage);
      }
    }
    assert lines[..|lines|] == lines;
    var ok := CheckNextMessages(nextMessage, m);
    verdict := if ok then Accepted else Rejected;
  }

  lemma NothingRead()
    ensures OnTrack([], 1, map[])
  {
  }
}
