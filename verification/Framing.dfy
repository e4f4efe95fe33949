/** Length-prefixed messages over a byte stream that may be cut anywhere. */
module Framing {
  import opened Basics
  import opened Bytes

  /** A message body; its length is sent as an `int`. */
  type Message = m: seq<Byte> | |m| < 0x8000_0000

  function Frame(m: Message): seq<Byte> {
    BigEndian(|m|) + m
  }

  /** The header as the client reads it: `ntohl` into a 32-bit `int`. */
  function SizeAsInt(head: seq<Byte>): int
    requires |head| == 4
  {
    var n := FromBigEndian(head);
    if n < TWO31 then n else n - TWO32
  }

  /** A client can only learn the size of messages under 2^31 bytes. */
  lemma SizeSurvivesIff(n: u32)
    ensures SizeAsInt(BigEndian(n)) == n <==> n < TWO31
  {
    BigEndianRoundTrip(n);
  }

  function Encode(ms: seq<Message>): seq<Byte> {
    if ms == [] then [] else Frame(ms[0]) + Encode(ms[1..])
  }

  /** A frame is four bytes that read as the length, in network order, and then the body. */
  lemma FrameLayout(m: Message)
    ensures |Frame(m)| == 4 + |m| && SizeAsInt(Frame(m)[..4]) == |m| && Frame(m)[4..] == m
  {
    assert Frame(m)[..4] == BigEndian(|m|);
    SizeSurvivesIff(|m|);
  }

  lemma EncodeNonempty(ms: seq<Message>)
    ensures ms != [] ==> |Encode(ms)| >= 4
  {
  }

  lemma {:induction false} EncodeSnoc(ms: seq<Message>, m: Message)
    ensures Encode(ms + [m]) == Encode(ms) + Frame(m)
  {
    if ms == [] {
      assert [m][1..] == [];
      assert ms + [m] == [m];
    } else {
      assert (ms + [m])[1..] == ms[1..] + [m];
      EncodeSnoc(ms[1..], m);
    }
  }

  /** Two streams that begin with a frame and agree begin with the same frame. */
  lemma SameFirstFrame(a: Message, r: seq<Byte>, b: Message, s: seq<Byte>)
    requires Frame(a) + r == Frame(b) + s
    ensures a == b && r == s
  {
    var x := Frame(a) + r;
    assert x[..4] == BigEndian(|a|) && (Frame(b) + s)[..4] == BigEndian(|b|);
    BigEndianRoundTrip(|a|);
    BigEndianRoundTrip(|b|);
    assert x[4..4 + |a|] == a && (Frame(b) + s)[4..4 + |b|] == b;
    assert x[4 + |a|..] == r && (Frame(b) + s)[4 + |b|..] == s;
  }

  // ---- One connection, written and read in pieces, in any interleaving ----

  /** What the reader holds of the next message: part of its header, or its size and part of its body. */
  datatype Reader = InHeader(head: seq<Byte>) | InBody(size: u32, part: seq<Byte>)

  datatype Conn = Conn(unsent: seq<Byte>, wire: seq<Byte>, reader: Reader, received: seq<seq<Byte>>)

  ghost predicate WellFormed(r: Reader) {
    match r
    case InHeader(head) => |head| < 4
    case InBody(size, part) => |part| < size
  }

  function Needed(r: Reader): int {
    match r
    case InHeader(head) => 4 - |head|
    case InBody(size, part) => size - |part|
  }

  /** The reader takes `chunk`, no more than it asked for. */
  function Take(c: Conn, chunk: seq<Byte>): Conn
    requires |chunk| <= Needed(c.reader)
  {
    match c.reader
    case InHeader(head) =>
      var head' := head + chunk;
      if |head'| < 4 then c.(reader := InHeader(head'))
      else if FromBigEndian(head') == 0 then c.(reader := InHeader([]), received := c.received + [[]])
      else c.(reader := InBody(FromBigEndian(head'), []))
    case InBody(size, part) =>
      var part' := part + chunk;
      if |part'| < size then c.(reader := InBody(size, part'))
      else c.(reader := InHeader([]), received := c.received + [part'])
  }

  ghost predicate SendSome(c: Conn, c': Conn, n: nat) {
    && 1 <= n <= |c.unsent|
    && c' == c.(unsent := c.unsent[n..], wire := c.wire + c.unsent[..n])
  }

  ghost predicate ReadSome(c: Conn, c': Conn, n: nat) {
    && 1 <= n <= |c.wire| && n <= Needed(c.reader)
    && c' == Take(c.(wire := c.wire[n..]), c.wire[..n])
  }

  ghost predicate Next(c: Conn, c': Conn) {
    exists n: nat :: SendSome(c, c', n) || ReadSome(c, c', n)
  }

  ghost function Partial(r: Reader): seq<Byte> {
    match r
    case InHeader(head) => head
    case InBody(size, part) => BigEndian(size) + part
  }

  /** Nothing is lost or moved: what was received, is held, is on the wire and is unsent spell the stream. */
  ghost predicate Inv(c: Conn, ms: seq<Message>) {
    && WellFormed(c.reader)
    && c.received <= ms
    && Encode(ms[|c.received|..]) == Partial(c.reader) + c.wire + c.unsent
  }

  /** The reader is always inside the next message that was sent, and knows its true size. */
  lemma NextFrame(c: Conn, ms: seq<Message>)
    requires Inv(c, ms) && (c.reader.InBody? || c.wire != [])
    ensures |c.received| < |ms|
    ensures Encode(ms[|c.received|..]) == Frame(ms[|c.received|]) + Encode(ms[|c.received| + 1..])
    ensures c.reader.InBody? ==>
      && c.reader.size == |ms[|c.received|]|
      && c.reader.part <= ms[|c.received|]
  {
    var k := |c.received|;
    var stream := Partial(c.reader) + c.wire + c.unsent;
    assert ms[k..][1..] == ms[k + 1..];
    if c.reader.InBody? {
      var m := ms[k];
      BigEndianRoundTrip(|m|);
      BigEndianRoundTrip(c.reader.size);
      assert stream[..4] == BigEndian(c.reader.size);
      assert (Frame(m) + Encode(ms[k + 1..]))[..4] == BigEndian(|m|);
      assert stream[4..4 + |c.reader.part|] == c.reader.part;
      assert (Frame(m) + Encode(ms[k + 1..]))[4..4 + |m|] == m;
      assert stream[4..4 + |m|][..|c.reader.part|] == c.reader.part;
    }
  }

  lemma SendKeepsInv(c: Conn, c': Conn, n: nat, ms: seq<Message>)
    requires Inv(c, ms) && SendSome(c, c', n)
    ensures Inv(c', ms)
  {
    assert Partial(c.reader) + c.wire + c.unsent == Partial(c.reader) + (c.wire + c.unsent[..n]) + c.unsent[n..];
  }

  /** A reader still inside its header or body only moves bytes from the wire into its buffer. */
  lemma ReadMoves(c: Conn, n: nat, r: Reader, ms: seq<Message>)
    requires Inv(c, ms) && n <= |c.wire| && WellFormed(r)
    requires Partial(r) == Partial(c.reader) + c.wire[..n]
    ensures Inv(c.(wire := c.wire[n..], reader := r), ms)
  {
    assert c.wire == c.wire[..n] + c.wire[n..];
    assert Partial(c.reader) + c.wire + c.unsent == Partial(r) + c.wire[n..] + c.unsent;
  }

  /** A reader that holds a whole frame has received exactly the next message. */
  lemma ReadCompletes(c: Conn, n: nat, m: Message, ms: seq<Message>)
    requires Inv(c, ms) && n <= |c.wire| && |c.received| < |ms|
    requires Encode(ms[|c.received|..]) == Frame(ms[|c.received|]) + Encode(ms[|c.received| + 1..])
    requires Frame(m) == Partial(c.reader) + c.wire[..n]
    ensures Inv(c.(wire := c.wire[n..], reader := InHeader([]), received := c.received + [m]), ms)
  {
    hide Frame, Encode;
    var k := |c.received|;
    var rest := c.wire[n..] + c.unsent;
    assert Partial(c.reader) + c.wire + c.unsent == Frame(m) + rest by {
      assert c.wire == c.wire[..n] + c.wire[n..];
    }
    SameFirstFrame(m, rest, ms[k], Encode(ms[k + 1..]));
    assert rest == [] + c.wire[n..] + c.unsent;
    assert (c.received + [m])[..k] == ms[..k];
  }

  lemma ReadKeepsInv(c: Conn, c': Conn, n: nat, ms: seq<Message>)
    requires Inv(c, ms) && ReadSome(c, c', n)
    ensures Inv(c', ms)
  {
    NextFrame(c, ms);
    var chunk := c.wire[..n];
    match c.reader
    case InHeader(head) =>
      var head' := head + chunk;
      if |head'| < 4 {
        ReadMoves(c, n, InHeader(head'), ms);
      } else {
        FromBigEndianRoundTrip(head');
        if FromBigEndian(head') == 0 {
          assert Frame([]) == head';
          ReadCompletes(c, n, [], ms);
        } else {
          ReadMoves(c, n, InBody(FromBigEndian(head'), []), ms);
        }
      }
    case InBody(size, part) =>
      var part' := part + chunk;
      assert BigEndian(size) + part + chunk == BigEndian(size) + part';
      if |part'| < size {
        ReadMoves(c, n, InBody(size, part'), ms);
      } else {
        ReadCompletes(c, n, part', ms);
      }
  }

  ghost predicate IsRun(run: seq<Conn>, ms: seq<Message>) {
    && run != []
    && run[0] == Conn(Encode(ms), [], InHeader([]), [])
    && forall i :: 0 <= i < |run| - 1 ==> Next(run[i], run[i + 1])
  }

  lemma {:induction false} RunKeepsInv(run: seq<Conn>, ms: seq<Message>)
    requires IsRun(run, ms)
    ensures Inv(run[|run| - 1], ms)
  {
    var n := |run| - 1;
    if n == 0 {
      assert ms[0..] == ms;
    } else {
      assert IsRun(run[..n], ms);
      RunKeepsInv(run[..n], ms);
      assert Next(run[n - 1], run[n - 1 + 1]);
      var k: nat :| SendSome(run[n - 1], run[n], k) || ReadSome(run[n - 1], run[n], k);
      if SendSome(run[n - 1], run[n], k) {
        SendKeepsInv(run[n - 1], run[n], k, ms);
      } else {
        ReadKeepsInv(run[n - 1], run[n], k, ms);
      }
    }
  }

  /**
   * However the stream is cut into sends and reads and however these interleave, the messages received
   * are a prefix of those sent, and all of them once no byte is left to send or read.
   */
  lemma FramingRoundTrip(run: seq<Conn>, ms: seq<Message>)
    requires IsRun(run, ms)
    ensures var c := run[|run| - 1];
      && c.received <= ms
      && (c.unsent == [] && c.wire == [] ==> c.received == ms && c.reader == InHeader([]))
  {
    RunKeepsInv(run, ms);
    var c := run[|run| - 1];
    if c.unsent == [] && c.wire == [] {
      if c.reader.InBody? {
        NextFrame(c, ms);
        assert false;
      }
      EncodeNonempty(ms[|c.received|..]);
    }
  }

  /** A reader that is not done can go on as soon as bytes are there: no fragmentation blocks it. */
  lemma ReaderNeverStuck(run: seq<Conn>, ms: seq<Message>)
    requires IsRun(run, ms)
    ensures var c := run[|run| - 1];
      (c.unsent != [] || c.wire != []) ==> exists c' :: Next(c, c')
  {
    RunKeepsInv(run, ms);
    var c := run[|run| - 1];
    if c.unsent != [] {
      var c' := c.(unsent := c.unsent[1..], wire := c.wire + c.unsent[..1]);
      assert SendSome(c, c', 1);
      assert Next(c, c');
    } else if c.wire != [] {
      var c' := Take(c.(wire := c.wire[1..]), c.wire[..1]);
      assert ReadSome(c, c', 1);
      assert Next(c, c');
    }
  }

  /** Bytes left to send or read shrink with every step, so every connection runs dry. */
  lemma BytesRemainingShrink(c: Conn, c': Conn)
    requires Next(c, c')
    ensures 2 * |c'.unsent| + |c'.wire| < 2 * |c.unsent| + |c.wire|
  {
    var n: nat :| SendSome(c, c', n) || ReadSome(c, c', n);
  }

  // ---- The loops ----

  /** One direction of a socket: the bytes written and not yet read. */
  class Channel {
    var bytes: seq<Byte>

    constructor ()
      ensures bytes == []
    {
      bytes := [];
    }

    /** `send`: accepts some positive part of the data. */
    method Send(data: seq<Byte>) returns (sent: nat)
      requires data != []
      modifies this
      ensures 1 <= sent <= |data|
      ensures bytes == old(bytes) + data[..sent]
    {
      sent :| 1 <= sent <= |data|;
      bytes := bytes + data[..sent];
    }

    /** `read`: delivers some positive part of what is there, at most `max` bytes. */
    method Read(max: nat) returns (chunk: seq<Byte>)
      requires max > 0 && bytes != []
      modifies this
      ensures 1 <= |chunk| <= max
      ensures old(bytes) == chunk + bytes
    {
      var n :| 1 <= n <= |bytes| && n <= max;
      chunk := bytes[..n];
      bytes := bytes[n..];
    }

    method SendAll(data: seq<Byte>) returns (totalSent: nat)
      modifies this
      ensures bytes == old(bytes) + data && totalSent == |data|
    {
      totalSent := 0;
      while totalSent != |data|
        invariant 0 <= totalSent <= |data|
        invariant bytes == old(bytes) + data[..totalSent]
        decreases |data| - totalSent
      {
        var sent := Send(data[totalSent..]);
        assert data[..totalSent] + data[totalSent..][..sent] == data[..totalSent + sent];
        totalSent := totalSent + sent;
      }
    }

    /** The bytes asked for must arrive eventually; the loop then takes exactly those. */
    method ReadAll(len: nat) returns (data: seq<Byte>)
      requires len <= |bytes|
      modifies this
      ensures |data| == len && old(bytes) == data + bytes
    {
      data := [];
      while |data| < len
        invariant |data| <= len && old(bytes) == data + bytes
        decreases len - |data|
      {
        var chunk := Read(len - |data|);
        data := data + chunk;
      }
    }

    method SendMessage(m: Message)
      modifies this
      ensures bytes == old(bytes) + Frame(m)
    {
      var _ := SendAll(BigEndian(|m|));
      var _ := SendAll(m);
    }

    /** Header first, then as many bytes as it says. */
    method ReceiveMessage(ghost m: Message, ghost rest: seq<Byte>) returns (r: seq<Byte>)
      requires bytes == Frame(m) + rest
      modifies this
      ensures r == m && bytes == rest
    {
      var head := ReadAll(4);
      assert head == (Frame(m) + rest)[..4] == BigEndian(|m|);
      BigEndianRoundTrip(|m|);
      assert bytes == (Frame(m) + rest)[4..] == m + rest;
      SizeSurvivesIff(|m|);
      r := ReadAll(SizeAsInt(head));
      assert r == (m + rest)[..|m|] && bytes == (m + rest)[|m|..];
    }
  }

  method SendThenReceive(ms: seq<Message>) returns (got: seq<seq<Byte>>)
    ensures got == ms
  {
    var ch := new Channel();
    for i := 0 to |ms|
      invariant ch.bytes == Encode(ms[..i])
    {
      ch.SendMessage(ms[i]);
      EncodeSnoc(ms[..i], ms[i]);
      assert ms[..i + 1] == ms[..i] + [ms[i]];
    }
    assert ms[..|ms|] == ms == ms[0..];
    got := [];
    for i := 0 to |ms|
      invariant got == ms[..i] && ch.bytes == Encode(ms[i..])
    {
      assert ms[i..][1..] == ms[i + 1..];
      var m := ch.ReceiveMessage(ms[i], Encode(ms[i + 1..]));
      got := got + [m];
    }
  }
}
