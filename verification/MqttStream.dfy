/**
  Publishing and reassembling MQTT packets over a byte stream
  (hil/controller/src/MqttClient.cpp: publish, writeAll, readExact, readerLoop, processPacket).

  `Outbound` and `Inbound` stand for the two directions of the socket: a call may move fewer
  bytes than asked for, as many or as few as it likes, but at least one if it succeeds.
 */
module MqttStream {
  import opened Words
  import opened MqttLength

  type bytes = seq<byte>

  datatype Message = Message(topic: bytes, payload: bytes)

  // ---------------------------------------------------------------------------------
  // Packets
  // ---------------------------------------------------------------------------------

  /** `appendU16`; the caller's cast keeps the low 16 bits. */
  function U16(n: nat): bytes {
    [n / 256 % 256, n % 256]
  }

  /** `appendStr`, section 1.5.3 of MQTT 3.1.1. */
  function Str(s: bytes): bytes {
    U16(|s| % 65536) + s
  }

  type qos = q: int | 0 <= q <= 2

  function PublishBody(m: Message, q: qos, id: uint16): bytes {
    Str(m.topic) + (if q > 0 then U16(id) else []) + m.payload
  }

  /** A fixed header, the remaining length and the rest. */
  function Packet(first: byte, body: bytes): bytes {
    [first] + EncodeLen(|body| % WORD) + body
  }

  /** `0x30 | (qos << 1)`. */
  function PublishHeader(q: qos): byte {
    0x30 + 2 * q
  }

  /** The first byte by section 3.3.1 of MQTT 3.1.1: type 3, DUP and RETAIN clear, the quality of service in between. */
  lemma HeaderBits(q: qos)
    ensures var b := PublishHeader(q);
            b / 16 == 3 && b / 8 % 2 == 0 && b / 2 % 4 == q && b % 2 == 0
  {
  }

  /** Every packet starts with its first byte, and a publish body with the topic's length, high byte first, and the topic. */
  lemma PacketLayout(m: Message, q: qos, id: uint16)
    requires |m.topic| < 65536
    ensures var body := PublishBody(m, q, id);
            var n := 2 + |m.topic|;
            && Packet(PublishHeader(q), body)[0] == PublishHeader(q)
            && |body| >= n && 256 * (body[0] as int) + body[1] == |m.topic| && body[2..n] == m.topic
            && (if q == 0 then body[n..] == m.payload
                else |body| >= n + 2 && 256 * (body[n] as int) + body[n + 1] == id && body[n + 2..] == m.payload)
  {
  }

  // ---------------------------------------------------------------------------------
  // Sending
  // ---------------------------------------------------------------------------------

  class Outbound {
    var wire: bytes

    constructor ()
      ensures wire == []
    {
      wire := [];
    }

    /** `::write`: any number of bytes up to all of them, or a failure. */
    method Write(data: bytes) returns (n: int)
      modifies this
      ensures -1 <= n <= |data|
      ensures wire == old(wire) + if n > 0 then data[..n] else []
    {
      n :| -1 <= n <= |data|;
      if n > 0 {
        wire := wire + data[..n];
      }
    }

    /** `writeAll`: short writes are continued; on failure a proper prefix has gone out. */
    method WriteAll(buf: bytes) returns (ok: bool)
      modifies this
      ensures ok ==> wire == old(wire) + buf
      ensures !ok ==> exists k :: 0 <= k < |buf| && wire == old(wire) + buf[..k]
    {
      var sent := 0;
      while sent < |buf|
        invariant 0 <= sent <= |buf|
        invariant wire == old(wire) + buf[..sent]
      {
        var n := Write(buf[sent..]);
        if n <= 0 { return false; }
        assert buf[..sent] + buf[sent..][..n] == buf[..sent + n];
        sent := sent + n;
      }
      assert buf[..sent] == buf;
      ok := true;
    }
  }

  class Publisher {
    const out: Outbound
    var connected: bool
    var pktId: uint16

    constructor (o: Outbound, isConnected: bool)
      ensures out == o && connected == isConnected && pktId == 1
    {
      out, connected, pktId := o, isConnected, 1;
    }

    /** `publish`; the packet number counts up and wraps, also when the client is not connected. */
    method Publish(m: Message, q: qos) returns (ok: bool)
      modifies this`pktId, out
      ensures !connected ==> !ok && out.wire == old(out.wire)
      ensures pktId == if q > 0 then (old(pktId) + 1) % 65536 else old(pktId)
      ensures var packet := Packet(PublishHeader(q), PublishBody(m, q, old(pktId)));
              if ok then out.wire == old(out.wire) + packet
              else exists k :: 0 <= k < |packet| && out.wire == old(out.wire) + packet[..k]
    {
      var body := Str(m.topic);
      if q > 0 {
        body := body + U16(pktId);
        pktId := (pktId + 1) % 65536;
      }
      body := body + m.payload;
      assert body == PublishBody(m, q, old(pktId));
      var pkt := AppendRemainingLen([PublishHeader(q)], |body| % WORD);
      pkt := pkt + body;
      assert pkt == Packet(PublishHeader(q), PublishBody(m, q, old(pktId)));
      if !connected {
        assert pkt[..0] == [];
        return false;
      }
      ok := out.WriteAll(pkt);
    }

    /** A series of QoS 0 publishes, as long as all of them succeed. */
    method PublishAll(ms: seq<Message>) returns (ok: bool)
      modifies this`pktId, out
      ensures ok ==> out.wire == old(out.wire) + Stream(Publishes(ms))
    {
      hide Stream, Packet, Publishes, PublishBody;
      ok := true;
      assert ms[..0] == [];
      NothingToSend();
      for n := 0 to |ms|
        invariant ok ==> out.wire == old(out.wire) + Stream(Publishes(ms[..n]))
      {
        if ok {
          ghost var id := pktId;
          ok := Publish(ms[n], 0);
          PacketNumberUnused(ms[n], id);
          assert ms[..n + 1] == ms[..n] + [ms[n]];
          StreamAppend(ms[..n], ms[n]);
        }
      }
      assert ms[..|ms|] == ms;
    }
  }

  lemma NothingToSend()
    ensures Stream(Publishes([])) == []
  {
  }

  lemma PacketNumberUnused(m: Message, id: uint16)
    ensures Wire(Pub(m)) == Packet(PublishHeader(0), PublishBody(m, 0, id))
  {
  }

  // ---------------------------------------------------------------------------------
  // Receiving
  // ---------------------------------------------------------------------------------

  /** Why the reader loop ended: no more bytes, an index beyond a packet's body, or the flag was cleared. */
  datatype End = Closed | OutOfBounds | Stopped

  /** The two-byte topic length at the start of a publish body. */
  function TopicLength(data: bytes): nat
    requires |data| >= 2
  {
    256 * (data[0] as int) + data[1] as int
  }

  /** `processPacket` reads the topic length and the topic without a check. */
  predicate BodyInBounds(data: bytes) {
    |data| >= 2 && 2 + TopicLength(data) <= |data|
  }

  function ParseBody(data: bytes): Message
    requires BodyInBounds(data)
  {
    var i := 2 + TopicLength(data);
    Message(data[2..i], data[i..])
  }

  datatype Cut = Short | Cut(first: byte, data: bytes, after: bytes)

  /** The first packet of a non-empty stream, unless the stream ends within it. */
  function FirstPacket(s: bytes): (c: Cut)
    requires s != []
    ensures c.Cut? ==> |c.after| < |s|
  {
    var l := ReadLen(s[1..], 0, 1);
    var rest := s[1..][l.consumed..];
    if |rest| < l.value then Short else Cut(s[0], rest[..l.value], rest[l.value..])
  }

  datatype Parsed = Parsed(messages: seq<Message>, end: End)

  /** What the reader loop makes of a stream of bytes, whatever the bytes are. */
  function Parse(s: bytes): Parsed
    decreases |s|
  {
    if s == [] then Parsed([], Closed)
    else
      match FirstPacket(s)
      case Short => Parsed([], Closed)
      case Cut(first, data, after) =>
        if first / 16 != 3 then Parse(after)
        else if !BodyInBounds(data) then Parsed([], OutOfBounds)
        else
          var tail := Parse(after);
          Parsed([ParseBody(data)] + tail.messages, tail.end)
  }

  class Inbound {
    var pending: bytes

    constructor (stream: bytes)
      ensures pending == stream
    {
      pending := stream;
    }

    /** `::read`: at least one byte unless the stream has ended, at most `max`. */
    method Read(max: nat) returns (chunk: bytes)
      requires max > 0
      modifies this
      ensures |chunk| <= max && old(pending) == chunk + pending
      ensures chunk == [] <==> old(pending) == []
    {
      if pending == [] { return []; }
      var n :| 1 <= n <= max && n <= |pending|;
      chunk := pending[..n];
      pending := pending[n..];
    }

    method ReadByte() returns (ok: bool, b: byte)
      modifies this
      ensures ok <==> old(pending) != []
      ensures ok ==> b == old(pending)[0] && pending == old(pending)[1..]
      ensures !ok ==> pending == []
    {
      b := 0;
      var chunk := Read(1);
      ok := |chunk| == 1;
      if ok { b := chunk[0]; }
    }

    /** `readExact`: short reads are continued. */
    method ReadExact(n: nat) returns (ok: bool, buf: bytes)
      modifies this
      ensures ok <==> n <= |old(pending)|
      ensures ok ==> buf == old(pending)[..n] && pending == old(pending)[n..]
    {
      buf := [];
      while |buf| < n
        invariant |buf| <= n && old(pending) == buf + pending
        decreases n - |buf|
      {
        var chunk := Read(n - |buf|);
        if |chunk| == 0 { return false, buf; }
        buf := buf + chunk;
      }
      ok := true;
    }

    /** `readRemainingLength`. */
    method ReadRemainingLength() returns (len: uint32)
      modifies this
      ensures var l := ReadLen(old(pending), 0, 1);
              len == l.value && pending == old(pending)[l.consumed..]
    {
      var val: uint32, mul: uint32 := 0, 1;
      var more := true;
      ghost var consumed := 0;
      while more
        invariant 0 <= consumed <= |old(pending)| && pending == old(pending)[consumed..]
        invariant var l := ReadLen(old(pending), 0, 1);
                  if more then
                    var k := ReadLen(pending, val, mul);
                    l == Length(k.value, consumed + k.consumed)
                  else l == Length(val, consumed)
        decreases more, |pending|
      {
        hide Accumulate, Shift7;
        var ok, b := ReadByte();
        if !ok { return 0; }
        consumed := consumed + 1;
        val := Accumulate(val, b, mul);
        mul := Shift7(mul);
        more := b >= 128;
      }
      len := val;
    }

    /** One round of `readerLoop` up to the call of `processPacket`; not `open` if the stream ended. */
    method ReadPacket() returns (open: bool, first: byte, data: bytes)
      modifies this
      ensures old(pending) == [] ==> !open
      ensures old(pending) != [] ==>
                match FirstPacket(old(pending))
                case Short => !open
                case Cut(f, d, after) => open && first == f && data == d && pending == after
    {
      hide ReadLen;
      data := [];
      open, first := ReadByte();
      if !open { return; }
      ghost var rest := pending;
      var rem := ReadRemainingLength();
      if rem > 0 {
        open, data := ReadExact(rem);
      }
    }

    /**
      `readerLoop`, seeing the running flag set for `rounds` rounds. The messages handed on
      depend on the bytes alone, not on how the reads cut them up; clearing the flag early
      can only cost messages at the end.
     */
    method ReaderLoop(rounds: nat) returns (messages: seq<Message>, end: End)
      modifies this
      ensures if end == Stopped then messages <= Parse(old(pending)).messages
              else Parsed(messages, end) == Parse(old(pending))
      ensures end == Stopped ==> rounds <= |old(pending)|
    {
      hide Parse, FirstPacket, BodyInBounds;
      messages := [];
      for n := 0 to rounds
        invariant Parse(old(pending)) == Parsed(messages + Parse(pending).messages, Parse(pending).end)
        invariant n + |pending| <= |old(pending)|
      {
        ParseRound(pending);
        ghost var s := pending;
        var open, first, data := ReadPacket();
        if !open { return messages, Closed; }
        assert s != [];
        if first / 16 == 3 {
          if !BodyInBounds(data) { return messages, OutOfBounds; }
          messages := messages + [ParseBody(data)];
        }
      }
      end := Stopped;
    }
  }

  /** One round of the reader on what is left of the stream. */
  lemma ParseRound(s: bytes)
    ensures s == [] ==> Parse(s) == Parsed([], Closed)
    ensures s != [] ==>
              match FirstPacket(s)
              case Short => Parse(s) == Parsed([], Closed)
              case Cut(first, data, after) =>
                && |after| < |s|
                && Parse(s) == if first / 16 != 3 then Parse(after)
                               else if !BodyInBounds(data) then Parsed([], OutOfBounds)
                               else Parsed([ParseBody(data)] + Parse(after).messages, Parse(after).end)
  {
    hide BodyInBounds, ParseBody;
  }

  // ---------------------------------------------------------------------------------
  // The round trip
  // ---------------------------------------------------------------------------------

  /** What may be on the wire: a QoS 0 publish, or a packet of any other type. */
  datatype Item = Pub(message: Message) | Other(first: byte, body: bytes)

  function Wire(i: Item): bytes {
    match i
    case Pub(m) => Packet(PublishHeader(0), PublishBody(m, 0, 1))
    case Other(first, body) => Packet(first, body)
  }

  function Stream(items: seq<Item>): bytes {
    if items == [] then [] else Wire(items[0]) + Stream(items[1..])
  }

  function Publishes(ms: seq<Message>): seq<Item> {
    seq(|ms|, i requires 0 <= i < |ms| => Pub(ms[i]))
  }

  function MessagesOf(items: seq<Item>): seq<Message> {
    if items == [] then []
    else (if items[0].Pub? then [items[0].message] else []) + MessagesOf(items[1..])
  }

  lemma {:induction false} StreamConcat(a: seq<Item>, b: seq<Item>)
    ensures Stream(a + b) == Stream(a) + Stream(b)
  {
    if a == [] {
      assert a + b == b;
    } else {
      assert (a + b)[1..] == a[1..] + b;
      StreamConcat(a[1..], b);
    }
  }

  lemma StreamAppend(ms: seq<Message>, m: Message)
    ensures Stream(Publishes(ms + [m])) == Stream(Publishes(ms)) + Wire(Pub(m))
  {
    assert Publishes(ms + [m]) == Publishes(ms) + [Pub(m)];
    StreamConcat(Publishes(ms), [Pub(m)]);
    assert Stream([Pub(m)]) == Wire(Pub(m)) + Stream([]);
  }

  /** Topics of at most 65535 bytes, bodies below 4 GiB, and no foreign publish packets. */
  predicate Transmissible(i: Item) {
    match i
    case Pub(m) => |m.topic| < 65536 && |PublishBody(m, 0, 1)| < WORD
    case Other(first, body) => first / 16 != 3 && |body| < WORD
  }

  lemma CutPacket(first: byte, body: bytes, after: bytes)
    requires |body| < WORD
    ensures FirstPacket(Packet(first, body) + after) == Cut(first, body, after)
  {
    hide EncodeLen, ReadLen;
    var e := EncodeLen(|body|);
    var s := Packet(first, body) + after;
    LengthRoundTrip(|body|, body + after);
    assert s[1..] == e + (body + after);
    assert s[1..][|e|..] == body + after;
    assert (body + after)[..|body|] == body && (body + after)[|body|..] == after;
  }

  lemma ParsePacket(first: byte, body: bytes, after: bytes)
    requires |body| < WORD
    ensures var p := Parse(Packet(first, body) + after);
            if first / 16 != 3 then p == Parse(after)
            else if !BodyInBounds(body) then p == Parsed([], OutOfBounds)
            else p == Parsed([ParseBody(body)] + Parse(after).messages, Parse(after).end)
  {
    hide FirstPacket, BodyInBounds, ParseBody, EncodeLen;
    CutPacket(first, body, after);
  }

  /**
    The reader recovers exactly the published messages, in order, from any stream of publishes
    interleaved with other packets. With the contracts of `PublishAll` and `ReaderLoop` this
    holds for every pattern of short writes and short reads.
   */
  lemma {:induction false} StreamRoundTrip(items: seq<Item>)
    requires forall k :: 0 <= k < |items| ==> Transmissible(items[k])
    ensures Parse(Stream(items)) == Parsed(MessagesOf(items), Closed)
  {
    hide Parse, Packet, PublishBody;
    if items == [] {
      ParseNothing();
    } else {
      StreamRoundTrip(items[1..]);
      match items[0] {
        case Pub(m) =>
          ParsePacket(PublishHeader(0), PublishBody(m, 0, 1), Stream(items[1..]));
          PublishBodyShape(m, 0, 1);
        case Other(first, body) =>
          ParsePacket(first, body, Stream(items[1..]));
      }
    }
  }

  // ---------------------------------------------------------------------------------
  // Streams that are cut off
  // ---------------------------------------------------------------------------------

  /** A packet cut off after `k` bytes: inside the length it reads as empty, later as no packet. */
  lemma CutShort(first: byte, body: bytes, k: nat)
    requires |body| < WORD && 0 < k < |Packet(first, body)|
    ensures FirstPacket(Packet(first, body)[..k])
            == if k <= |EncodeLen(|body|)| then Cut(first, [], []) else Short
  {
    hide EncodeLen, ReadLen;
    var e := EncodeLen(|body|);
    var s := Packet(first, body)[..k];
    if k <= |e| {
      assert s[1..] == e[..k - 1];
      ReadTruncated(|body|, k - 1, 0, 1);
    } else {
      var got := body[..k - 1 - |e|];
      assert s[1..] == e + got;
      LengthRoundTrip(|body|, got);
    }
  }

  function BodyOf(i: Item): bytes {
    match i
    case Pub(m) => PublishBody(m, 0, 1)
    case Other(_, body) => body
  }

  function HeaderOf(i: Item): byte {
    match i
    case Pub(_) => PublishHeader(0)
    case Other(first, _) => first
  }

  /** The stream ends after the first byte of a publish but before the end of its length field. */
  predicate EndsInPublishLength(items: seq<Item>, k: nat) {
    if items == [] then false
    else if k < |Wire(items[0])| then items[0].Pub? && 0 < k <= |EncodeLen(|BodyOf(items[0])|)|
    else EndsInPublishLength(items[1..], k - |Wire(items[0])|)
  }

  /**
    If the connection ends after any `k` bytes, what has been delivered is a prefix of what
    was published. The reader then goes on to index an empty body exactly if the connection
    ended inside the length field of a publish.
   */
  lemma {:induction false} CutStream(items: seq<Item>, k: nat)
    requires forall j :: 0 <= j < |items| ==> Transmissible(items[j])
    requires k <= |Stream(items)|
    ensures var p := Parse(Stream(items)[..k]);
            p.messages <= MessagesOf(items) && (p.end == OutOfBounds <==> EndsInPublishLength(items, k))
    decreases |items|
  {
    hide Parse, Packet, PublishBody, FirstPacket, EncodeLen, ParseBody, BodyInBounds;
    ParseNothing();
    if items == [] {
      assert Stream(items)[..k] == [];
      return;
    }
    var w, body := Wire(items[0]), BodyOf(items[0]);
    if k < |w| {
      assert Stream(items)[..k] == w[..k];
      if k == 0 {
        assert w[..k] == [];
      } else {
        CutShort(HeaderOf(items[0]), body, k);
        ParseCut(w[..k]);
      }
    } else {
      var after := Stream(items[1..])[..k - |w|];
      assert Stream(items)[..k] == w + after;
      CutStream(items[1..], k - |w|);
      ParsePacket(HeaderOf(items[0]), body, after);
      if items[0].Pub? {
        PublishBodyShape(items[0].message, 0, 1);
      }
    }
  }

  lemma ParseCut(s: bytes)
    requires s != [] && (FirstPacket(s) == Short || FirstPacket(s) == Cut(FirstPacket(s).first, [], []))
    ensures var short := FirstPacket(s).Short?;
            Parse(s) == Parsed([], if !short && FirstPacket(s).first / 16 == 3 then OutOfBounds else Closed)
  {
  }

  lemma ParseNothing()
    ensures Parse([]) == Parsed([], Closed)
  {
  }

  /** The client publishes `ms` through short writes, the peer reads through short reads. */
  method EndToEnd(ms: seq<Message>) returns (sent: bool, received: seq<Message>)
    requires forall k :: 0 <= k < |ms| ==> Transmissible(Pub(ms[k]))
    ensures sent ==> received == ms
  {
    received := [];
    var out := new Outbound();
    var client := new Publisher(out, true);
    sent := client.PublishAll(ms);
    if sent {
      var peer := new Inbound(out.wire);
      var end;
      received, end := peer.ReaderLoop(|out.wire| + 1);
      StreamRoundTrip(Publishes(ms));
      MessagesOfPublishes(ms);
      assert out.wire == Stream(Publishes(ms));
    }
  }

  lemma {:induction false} MessagesOfPublishes(ms: seq<Message>)
    ensures MessagesOf(Publishes(ms)) == ms
  {
    if ms != [] {
      assert Publishes(ms)[1..] == Publishes(ms[1..]);
      MessagesOfPublishes(ms[1..]);
    }
  }

  /**
    A single publish survives exactly if it is sent at QoS 0 and its topic has at most 65535
    bytes: at QoS 1 and 2 the packet number ends up in the payload, and a longer topic is cut
    at its length modulo 65536.
   */
  lemma SinglePublish(m: Message, q: qos, id: uint16)
    requires |PublishBody(m, q, id)| < WORD
    ensures Parse(Packet(PublishHeader(q), PublishBody(m, q, id))) == Parsed([m], Closed)
            <==> q == 0 && |m.topic| < 65536
  {
    hide Packet, Parse;
    var body := PublishBody(m, q, id);
    var packet := Packet(PublishHeader(q), body);
    assert packet + [] == packet;
    ParsePacket(PublishHeader(q), body, []);
    ParseNothing();
    PublishBodyShape(m, q, id);
    hide PublishBody, ParseBody;
    var got := ParseBody(body);
    assert Parse(packet).messages == [got];
    assert [got] == [m] ==> [got][0] == [m][0];
  }

  /** At QoS 1 and 2 the receiver finds the packet number in front of the payload. */
  lemma PacketNumberDelivered(m: Message, q: qos, id: uint16)
    requires q > 0 && |m.topic| < 65536 && |PublishBody(m, q, id)| < WORD
    ensures Parse(Packet(PublishHeader(q), PublishBody(m, q, id)))
            == Parsed([Message(m.topic, U16(id) + m.payload)], Closed)
  {
    hide Packet, Parse;
    var body := PublishBody(m, q, id);
    var packet := Packet(PublishHeader(q), body);
    assert packet + [] == packet;
    ParsePacket(PublishHeader(q), body, []);
    ParseNothing();
    U16RoundTrip(|m.topic|);
    assert body[..2] == U16(|m.topic|) && TopicLength(body) == |m.topic|;
    var i := 2 + |m.topic|;
    assert body[2..i] == m.topic && body[i..] == U16(id) + m.payload;
  }

  /** The payload `x`, published on topic `t` at QoS 1 as packet 1, arrives with two bytes in front. */
  lemma QosOneExample()
    ensures var m := Message([116], [120]);
            Parse(Packet(PublishHeader(1), PublishBody(m, 1, 1))) == Parsed([Message([116], [0, 1, 120])], Closed)
  {
    hide Parse, Packet, PublishBody;
    var m := Message([116], [120]);
    BodyLength(m, 1, 1);
    PacketNumberDelivered(m, 1, 1);
    assert U16(1) + [120] == [0, 1, 120];
  }

  lemma BodyLength(m: Message, q: qos, id: uint16)
    ensures |PublishBody(m, q, id)| == 2 + |m.topic| + (if q > 0 then 2 else 0) + |m.payload|
  {
  }

  lemma PublishBodyShape(m: Message, q: qos, id: uint16)
    ensures var body := PublishBody(m, q, id);
            BodyInBounds(body) && (ParseBody(body) == m <==> q == 0 && |m.topic| < 65536)
  {
    var body := PublishBody(m, q, id);
    var n := |m.topic| % 65536;
    U16RoundTrip(n);
    assert body[..2] == U16(n) && TopicLength(body) == n;
    var extra := if q > 0 then 2 else 0;
    assert |body| == 2 + |m.topic| + extra + |m.payload|;
    if q == 0 && n == |m.topic| {
      assert body[2..2 + n] == m.topic && body[2 + n..] == m.payload;
    } else {
      assert |ParseBody(body).topic| == n && |ParseBody(body).payload| == |body| - 2 - n;
    }
  }

  lemma U16RoundTrip(n: uint16)
    ensures TopicLength(U16(n)) == n
  {
  }
}
