/** The byte layout of a datagram of the C++ program: a fixed head, the contents, and the clock. */
module Wire {
  import opened Basics

  type Byte = b: nat | b < 0x100

  const META_SIZE: nat := 13
  const MAX_PACKET: nat := 65535

  /** `payload_t`, with its buffer and its clock. */
  datatype Packet = Packet(
    buffSize: nat,
    owner: nat,
    packet: nat,
    sender: nat,
    isAck: bool,
    clock: seq<nat>,
    buffer: seq<Byte>)

  predicate IsWord(x: nat)
  {
    x < 0x1_0000_0000
  }

  /** A payload of a system of `n` nodes: 32-bit fields, a clock of `n + 1` entries, a buffer of `buffSize`. */
  predicate Fits(n: nat, p: Packet)
  {
    && IsWord(p.owner) && IsWord(p.packet) && IsWord(p.sender)
    && |p.clock| == n + 1 && (forall d :: 0 <= d <= n ==> IsWord(p.clock[d]))
    && |p.buffer| == p.buffSize
  }

  // ---- Words in little-endian byte order ----

  function Word(x: nat): (w: seq<Byte>)
    ensures |w| == 4
  {
    [x % 0x100, x / 0x100 % 0x100, x / 0x1_0000 % 0x100, x / 0x100_0000 % 0x100]
  }

  function FromWord(w: seq<Byte>): (x: nat)
    requires |w| == 4
    ensures IsWord(x)
  {
    w[0] as int + 0x100 * w[1] as int + 0x1_0000 * w[2] as int + 0x100_0000 * w[3] as int
  }

  lemma WordRoundTrip(x: nat)
    requires IsWord(x)
    ensures FromWord(Word(x)) == x
  {
    var a, b, c := x / 0x100, x / 0x1_0000, x / 0x100_0000;
    assert x == x % 0x100 + 0x100 * a && a == a % 0x100 + 0x100 * b && b == b % 0x100 + 0x100 * c;
  }

  lemma WordBack(w: seq<Byte>)
    requires |w| == 4
    ensures Word(FromWord(w)) == w
  {
    var x := FromWord(w);
    assert x / 0x100 == w[1] as int + 0x100 * w[2] as int + 0x1_0000 * w[3] as int;
    assert x / 0x1_0000 == w[2] as int + 0x100 * w[3] as int;
    assert x / 0x100_0000 == w[3] as int;
  }

  function Words(xs: seq<nat>): (bytes: seq<Byte>)
    ensures |bytes| == 4 * |xs|
  {
    if xs == [] then [] else Words(xs[..|xs| - 1]) + Word(xs[|xs| - 1])
  }

  function FromWords(bytes: seq<Byte>): (xs: seq<nat>)
    requires |bytes| % 4 == 0
    ensures 4 * |xs| == |bytes| && forall d :: 0 <= d < |xs| ==> IsWord(xs[d])
  {
    if bytes == [] then [] else FromWords(bytes[..|bytes| - 4]) + [FromWord(bytes[|bytes| - 4..])]
  }

  lemma FromWordsAppend(bytes: seq<Byte>, w: seq<Byte>)
    requires |bytes| % 4 == 0 && |w| == 4
    ensures FromWords(bytes + w) == FromWords(bytes) + [FromWord(w)]
  {
    hide FromWord;
    var all := bytes + w;
    assert all[..|all| - 4] == bytes && all[|all| - 4..] == w;
  }

  lemma {:induction false} WordsRoundTrip(xs: seq<nat>)
    requires forall d :: 0 <= d < |xs| ==> IsWord(xs[d])
    ensures FromWords(Words(xs)) == xs
  {
    hide Word, FromWord, FromWords;
    if xs == [] {
      NoWords();
    } else {
      WordsRoundTrip(xs[..|xs| - 1]);
      WordRoundTrip(xs[|xs| - 1]);
      FromWordsAppend(Words(xs[..|xs| - 1]), Word(xs[|xs| - 1]));
    }
  }

  lemma NoWords()
    ensures FromWords([]) == []
  {
  }

  lemma {:induction false} WordsBack(bytes: seq<Byte>)
    requires |bytes| % 4 == 0
    ensures Words(FromWords(bytes)) == bytes
  {
    hide Word, FromWord;
    if bytes != [] {
      WordsBack(bytes[..|bytes| - 4]);
      WordBack(bytes[|bytes| - 4..]);
      var xs := FromWords(bytes);
      assert xs[..|xs| - 1] == FromWords(bytes[..|bytes| - 4]);
    }
  }

  // ---- The layout ----

  function Encoded(p: Packet): seq<Byte>
  {
    Word(p.packet) + Word(p.sender) + Word(p.owner) + [if p.isAck then 1 else 0] + p.buffer + Words(p.clock)
  }

  /** What a datagram of a system of `n` nodes says; one too short for its clock is not a payload. */
  function Decoded(n: nat, bytes: seq<Byte>): Option<Packet>
  {
    var vcSize := 4 * (n + 1);
    if |bytes| < META_SIZE + vcSize then
      None
    else
      var end := |bytes| - vcSize;
      Some(Packet(end - META_SIZE,
                  FromWord(bytes[8..12]), FromWord(bytes[0..4]), FromWord(bytes[4..8]), bytes[12] != 0,
                  FromWords(bytes[end..]), bytes[META_SIZE..end]))
  }

  /** Decoding what was encoded, at the length that the encoder returned, restores every field, the whole
      buffer and the whole clock. */
  lemma RoundTrip(n: nat, p: Packet)
    requires Fits(n, p)
    ensures |Encoded(p)| == META_SIZE + p.buffSize + 4 * (n + 1)
    ensures Decoded(n, Encoded(p)) == Some(p)
  {
    var bytes := Encoded(p);
    assert bytes[0..4] == Word(p.packet) && bytes[4..8] == Word(p.sender) && bytes[8..12] == Word(p.owner);
    assert bytes[META_SIZE..META_SIZE + p.buffSize] == p.buffer && bytes[META_SIZE + p.buffSize..] == Words(p.clock);
    WordRoundTrip(p.packet);
    WordRoundTrip(p.sender);
    WordRoundTrip(p.owner);
    WordsRoundTrip(p.clock);
  }

  /** So no two payloads of a system have the same datagram. */
  lemma EncodingIsInjective(n: nat, p: Packet, q: Packet)
    requires Fits(n, p) && Fits(n, q) && Encoded(p) == Encoded(q)
    ensures p == q
  {
    RoundTrip(n, p);
    RoundTrip(n, q);
  }

  /** Conversely, exactly the datagrams that are long enough are decoded, and each is the encoding of the payload that
      it decodes to, but for a flag byte above 1, which is read as true. */
  lemma DecodedIsEncoded(n: nat, bytes: seq<Byte>)
    ensures Decoded(n, bytes).Some? <==> |bytes| >= 13 + 4 * (n + 1)
    ensures Decoded(n, bytes).Some? ==>
      && Fits(n, Decoded(n, bytes).value)
      && Encoded(Decoded(n, bytes).value) == bytes[12 := if bytes[12] == 0 then 0 else 1]
  {
    if |bytes| >= META_SIZE + 4 * (n + 1) {
      LongEnough(n, bytes);
    }
  }

  lemma LongEnough(n: nat, bytes: seq<Byte>)
    requires |bytes| >= META_SIZE + 4 * (n + 1)
    ensures Decoded(n, bytes).Some? && Fits(n, Decoded(n, bytes).value)
    ensures Encoded(Decoded(n, bytes).value) == bytes[12 := if bytes[12] == 0 then 0 else 1]
  {
    hide Word, FromWord, Words, FromWords;
    var end := |bytes| - 4 * (n + 1);
    WordBack(bytes[0..4]);
    WordBack(bytes[4..8]);
    WordBack(bytes[8..12]);
    WordsBack(bytes[end..]);
    var flag := if bytes[12] == 0 then 0 else 1;
    assert bytes[12 := flag] ==
           bytes[0..4] + bytes[4..8] + bytes[8..12] + [flag] + bytes[META_SIZE..end] + bytes[end..];
  }

  /** Byte `b` of a word, the lowest first. */
  function ByteOf(x: nat, b: nat): (byte: Byte)
  {
    match b
    case 0 => x % 0x100
    case 1 => x / 0x100 % 0x100
    case 2 => x / 0x1_0000 % 0x100
    case _ => x / 0x100_0000 % 0x100
  }

  lemma {:induction false} WordsLayout(xs: seq<nat>, d: nat, b: nat)
    requires d < |xs| && b < 4
    ensures Words(xs)[4 * d + b] == ByteOf(xs[d], b)
    decreases |xs|
  {
    var init := xs[..|xs| - 1];
    if d < |init| {
      WordsLayout(init, d, b);
    }
  }

  /** Where each field stands in a datagram: the packet number first, then the sender, the owner, the flag, the
      contents and the clock, each word with its lowest byte first. */
  lemma Layout(n: nat, p: Packet)
    requires Fits(n, p)
    ensures var bytes := Encoded(p);
      && |bytes| == 13 + p.buffSize + 4 * (n + 1)
      && (forall b :: 0 <= b < 4 ==> bytes[b] == ByteOf(p.packet, b))
      && (forall b :: 0 <= b < 4 ==> bytes[4 + b] == ByteOf(p.sender, b))
      && (forall b :: 0 <= b < 4 ==> bytes[8 + b] == ByteOf(p.owner, b))
      && bytes[12] == (if p.isAck then 1 else 0)
      && (forall y :: 0 <= y < p.buffSize ==> bytes[13 + y] == p.buffer[y])
      && (forall d, b :: 0 <= d <= n && 0 <= b < 4 ==> bytes[13 + p.buffSize + 4 * d + b] == ByteOf(p.clock[d], b))
  {
    hide Words;
    var bytes := Encoded(p);
    forall d, b | 0 <= d <= n && 0 <= b < 4
      ensures bytes[13 + p.buffSize + 4 * d + b] == ByteOf(p.clock[d], b)
    {
      WordsLayout(p.clock, d, b);
      assert bytes[13 + p.buffSize..] == Words(p.clock);
    }
  }

  // ---- In place ----

  /** `memcpy(buffer + at, from, |from|)` */
  method CopyTo(buffer: array<Byte>, at: nat, from: seq<Byte>)
    requires at + |from| <= buffer.Length
    modifies buffer
    ensures buffer[..] == old(buffer[..at]) + from + old(buffer[at + |from|..])
  {
    for x := 0 to |from|
      invariant buffer[..] == old(buffer[..at]) + from[..x] + old(buffer[at + x..])
    {
      buffer[at + x] := from[x];
    }
    assert from[..|from|] == from;
  }

  function Head(p: Packet): (head: seq<Byte>)
    ensures |head| == META_SIZE
  {
    Word(p.packet) + Word(p.sender) + Word(p.owner) + [if p.isAck then 1 else 0]
  }

  method EncodeHead(p: Packet, buffer: array<Byte>)
    requires META_SIZE <= buffer.Length
    modifies buffer
    ensures buffer[..] == Head(p) + old(buffer[META_SIZE..])
  {
    hide Word;
    ghost var start := buffer[..];
    CopyTo(buffer, 0, Word(p.packet));
    CopyTo(buffer, 4, Word(p.sender));
    assert buffer[..8] == Word(p.packet) + Word(p.sender) && buffer[8..] == start[8..];
    CopyTo(buffer, 8, Word(p.owner));
    assert buffer[..12] == Word(p.packet) + Word(p.sender) + Word(p.owner) && buffer[12..] == start[12..];
    CopyTo(buffer, 12, [if p.isAck then 1 else 0]);
    assert buffer[..META_SIZE] == Head(p) && buffer[META_SIZE..] == start[META_SIZE..];
  }

  /** Writes `p` at the start of `buffer` and returns the length of the datagram. */
  method Encode(n: nat, p: Packet, buffer: array<Byte>) returns (length: nat)
    requires Fits(n, p) && META_SIZE + p.buffSize + 4 * (n + 1) <= buffer.Length
    modifies buffer
    ensures length == |Encoded(p)| == META_SIZE + p.buffSize + 4 * (n + 1)
    ensures buffer[..length] == Encoded(p) && buffer[length..] == old(buffer[META_SIZE + p.buffSize + 4 * (n + 1)..])
  {
    hide Word, Words, IsWord;
    EncodeHead(p, buffer);
    CopyTo(buffer, META_SIZE, p.buffer);
    CopyTo(buffer, META_SIZE + p.buffSize, Words(p.clock));
    length := META_SIZE + p.buffSize + 4 * (n + 1);
    assert Encoded(p) == Head(p) + p.buffer + Words(p.clock);
  }

  /** Reads `count` words from `at` on. */
  method ReadWords(buffer: array<Byte>, at: nat, count: nat) returns (words: seq<nat>)
    requires at + 4 * count <= buffer.Length
    ensures words == FromWords(buffer[at..at + 4 * count])
  {
    hide FromWord, FromWords;
    words := [];
    NoWords();
    for d := 0 to count
      invariant words == FromWords(buffer[at..at + 4 * d])
    {
      var word := buffer[at + 4 * d..at + 4 * d + 4];
      FromWordsAppend(buffer[at..at + 4 * d], word);
      assert buffer[at..at + 4 * (d + 1)] == buffer[at..at + 4 * d] + word;
      words := words + [FromWord(word)];
    }
  }

  /** Reads the datagram of `length` bytes at the start of `buffer`; `None` where the source would ask for a
      buffer of negative size. */
  method Decode(n: nat, buffer: array<Byte>, length: nat) returns (p: Option<Packet>)
    requires MAX_PACKET <= buffer.Length && length <= buffer.Length
    ensures p == Decoded(n, buffer[..length])
  {
    hide FromWord, FromWords;
    ghost var bytes := buffer[..length];
    var packet, sender := FromWord(buffer[0..4]), FromWord(buffer[4..8]);
    var owner, isAck := FromWord(buffer[8..12]), buffer[12] != 0;
    var buffSize: int := length - META_SIZE - 4 * (n + 1);
    if buffSize < 0 {
      return None;
    }
    var end := META_SIZE + buffSize;
    var clock := ReadWords(buffer, end, n + 1);
    assert bytes[end..] == buffer[end..end + 4 * (n + 1)];
    assert bytes[0..4] == buffer[0..4] && bytes[4..8] == buffer[4..8] && bytes[8..12] == buffer[8..12];
    assert bytes[META_SIZE..end] == buffer[META_SIZE..end];
    p := Some(Packet(buffSize, owner, packet, sender, isAck, clock, buffer[META_SIZE..end]));
  }
}
