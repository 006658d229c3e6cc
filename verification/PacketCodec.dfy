/** The framing codec and the receive drain loop: a frame is a 6-byte header, the payload length as
    32 bits and the packet id as 16 bits, both little-endian, followed by the payload. */
module PacketCodec {
  import opened Bytes
  import opened Words

  const HEADER_SIZE: nat := 6
  const MAX_PACKET_SIZE: nat := 65536

  newtype uint16 = x: int | 0 <= x < 65536

  datatype Packet = Packet(packetId: uint16, payload: ByteBuffer)

  predicate WithinLimit(p: Packet) {
    |p.payload| <= MAX_PACKET_SIZE
  }

  // ---- the codec ----

  /** The length field is the payload's size truncated to 32 bits. */
  function Encode(p: Packet): (frame: ByteBuffer)
    ensures |frame| == HEADER_SIZE + |p.payload|
  {
    LittleEndian(|p.payload| % WORD32, 4) + LittleEndian(p.packetId as nat, 2) + p.payload
  }

  /** The frame, byte by byte: four bytes of the payload's size, two of the id, each lowest byte first, and
      the payload. */
  lemma FrameLayout(p: Packet)
    ensures var f := Encode(p); var n := |p.payload| % 0x1_0000_0000; var id := p.packetId as nat;
      && |f| == 6 + |p.payload|
      && f[0] as nat == n % 256 && f[1] as nat == n / 256 % 256
      && f[2] as nat == n / 65536 % 256 && f[3] as nat == n / 16777216
      && f[4] as nat == id % 256 && f[5] as nat == id / 256
      && f[6..] == p.payload
  {
    var n, id := |p.payload| % 0x1_0000_0000, p.packetId as nat;
    ShortFields(n);
    ShortFields(id);
    assert n / 16777216 < 256 && id / 256 < 256;
    hide LittleEndian;
    assert Encode(p) == LittleEndian(n, 4) + LittleEndian(id, 2) + p.payload;
  }

  /** What Decode finds at the front of the stream. */
  datatype Front =
    | Incomplete
    | Oversized
    | Frame(packet: Packet, rest: ByteBuffer)

  function PayloadLength(b: ByteBuffer): (n: nat)
    requires |b| >= HEADER_SIZE
  {
    FromLittleEndian(b[..4])
  }

  function PacketIdOf(b: ByteBuffer): (id: uint16)
    requires |b| >= HEADER_SIZE
  {
    FieldSizes();
    FromLittleEndian(b[4..6]) as uint16
  }

  function FrontOf(b: ByteBuffer): (front: Front)
    ensures front.Frame? ==> |front.rest| + HEADER_SIZE <= |b|
  {
    if |b| < HEADER_SIZE then Incomplete
    else
      var n := PayloadLength(b);
      if n > MAX_PACKET_SIZE then Oversized
      else if |b| < HEADER_SIZE + n then Incomplete
      else Frame(Packet(PacketIdOf(b), b[HEADER_SIZE..HEADER_SIZE + n]), b[HEADER_SIZE + n..])
  }

  /** Which of the three it is, by the bytes themselves: six make a header, of which four give the payload's
      size, at most 65536, and two the id. */
  lemma FrontByBytes(b: ByteBuffer)
    ensures |b| < 6 ==> FrontOf(b).Incomplete?
    ensures |b| >= 6 ==>
      var n := b[0] as nat + 256 * b[1] as nat + 65536 * b[2] as nat + 16777216 * b[3] as nat;
      FrontOf(b) ==
        if n > 65536 then Oversized
        else if |b| < 6 + n then Incomplete
        else Frame(Packet((b[4] as nat + 256 * b[5] as nat) as uint16, b[6..6 + n]), b[6 + n..])
  {
    if |b| >= 6 {
      ShortValues(b[..4]);
      ShortValues(b[4..6]);
      hide FromLittleEndian;
    }
  }

  class StreamBuffer {
    var data: ByteBuffer

    constructor ()
      ensures data == []
    {
      data := [];
    }
  }

  class ReceivedPacket {
    var connectionId: nat
    var packetId: uint16
    var payload: ByteBuffer

    constructor ()
      ensures connectionId == 0 && packetId == 0 && payload == []
    {
      connectionId, packetId, payload := 0, 0, [];
    }

    function Content(): Packet
      reads this
    {
      Packet(packetId, payload)
    }
  }

  /** Takes one frame off the front of the buffer; an incomplete frame leaves both arguments as they
      are, an oversized one empties the buffer. */
  method Decode(receiveBuffer: StreamBuffer, outPacket: ReceivedPacket) returns (ok: bool)
    modifies receiveBuffer, outPacket`packetId, outPacket`payload
    ensures ok <==> FrontOf(old(receiveBuffer.data)).Frame?
    ensures match FrontOf(old(receiveBuffer.data))
      case Incomplete => receiveBuffer.data == old(receiveBuffer.data)
        && outPacket.Content() == old(outPacket.Content())
      case Oversized => receiveBuffer.data == [] && outPacket.Content() == old(outPacket.Content())
      case Frame(p, rest) =>
        old(receiveBuffer.data) == Encode(p) + rest && WithinLimit(p) &&
        receiveBuffer.data == rest && outPacket.Content() == p
  {
    if |receiveBuffer.data| < HEADER_SIZE {
      return false;
    }
    var payloadLength := PayloadLength(receiveBuffer.data);
    if payloadLength > MAX_PACKET_SIZE {
      receiveBuffer.data := [];
      return false;
    }
    var totalPacketSize := HEADER_SIZE + payloadLength;
    if |receiveBuffer.data| < totalPacketSize {
      return false;
    }
    FrameIsEncoding(receiveBuffer.data);
    outPacket.packetId := PacketIdOf(receiveBuffer.data);
    outPacket.payload := receiveBuffer.data[HEADER_SIZE..totalPacketSize];
    receiveBuffer.data := receiveBuffer.data[totalPacketSize..];
    return true;
  }

  /** Decode undoes Encode, whatever follows the frame, exactly for payloads within the limit (Encode
      itself accepts any payload). */
  lemma DecodeEncoded(p: Packet, tail: ByteBuffer)
    ensures FrontOf(Encode(p) + tail) == Frame(p, tail) <==> WithinLimit(p)
  {
    if WithinLimit(p) {
      DecodeWithinLimit(p, tail);
    } else if FrontOf(Encode(p) + tail).Frame? {
      FrameIsEncoding(Encode(p) + tail);
      hide Encode, FrontOf;
    }
  }

  lemma DecodeWithinLimit(p: Packet, tail: ByteBuffer)
    requires WithinLimit(p)
    ensures FrontOf(Encode(p) + tail) == Frame(p, tail)
  {
    hide LittleEndian, FromLittleEndian, Pow256;
    var b := Encode(p) + tail;
    FieldSizes();
    assert b[..4] == LittleEndian(|p.payload| % WORD32, 4);
    assert b[4..6] == LittleEndian(p.packetId as nat, 2);
    FieldRoundTrip(|p.payload|, 4);
    FieldRoundTrip(p.packetId as nat, 2);
    assert b[6..6 + |p.payload|] == p.payload;
    assert b[6 + |p.payload|..] == tail;
  }

  /** Encode undoes Decode: the bytes removed are exactly the packet's encoding. */
  lemma FrameIsEncoding(b: ByteBuffer)
    requires FrontOf(b).Frame?
    ensures WithinLimit(FrontOf(b).packet)
    ensures b == Encode(FrontOf(b).packet) + FrontOf(b).rest
  {
    hide LittleEndian, FromLittleEndian, Pow256;
    var n := PayloadLength(b);
    BytesRoundTrip(b[..4]);
    BytesRoundTrip(b[4..6]);
    FieldSizes();
    assert b == b[..4] + b[4..6] + b[6..6 + n] + b[6 + n..];
  }

  // ---- the drain loop ----

  datatype Drained = Drained(packets: seq<Packet>, rest: ByteBuffer, broken: bool)

  /** Decoding until Decode fails; `broken` records that it failed on an oversized header. */
  function Drain(b: ByteBuffer): (d: Drained)
    ensures FrontOf(d.rest).Incomplete?
    decreases |b|
  {
    match FrontOf(b)
    case Incomplete => Drained([], b, false)
    case Oversized => Drained([], [], true)
    case Frame(p, rest) => var d := Drain(rest); d.(packets := [p] + d.packets)
  }

  const INBOUND_CAPACITY: nat := 65536

  /** The queue from the connections to the game thread; `entered` is history. */
  class InboundQueue {
    var queue: seq<ReceivedPacket>
    ghost var entered: seq<ReceivedPacket>

    ghost predicate Valid()
      reads this
    {
      |queue| <= INBOUND_CAPACITY && |queue| <= |entered| && queue == entered[|entered| - |queue|..]
    }

    constructor ()
      ensures Valid() && queue == [] && entered == []
    {
      queue, entered := [], [];
    }

    method Enqueue(packet: ReceivedPacket) returns (ok: bool)
      requires Valid()
      modifies this
      ensures Valid() && ok == (|old(queue)| < 65536)
      ensures queue == (if ok then old(queue) + [packet] else old(queue))
      ensures entered == if ok then old(entered) + [packet] else old(entered)
    {
      if |queue| >= INBOUND_CAPACITY {
        return false;
      }
      queue, entered := queue + [packet], entered + [packet];
      return true;
    }

    /** The game thread polls, any number of times. */
    method BePolled()
      requires Valid()
      modifies this`queue
      ensures Valid() && |queue| <= |old(queue)|
    {
      var more: bool := *;
      while queue != [] && more
        invariant Valid() && |queue| <= |old(queue)|
        decreases |queue|
      {
        queue := queue[1..];
        more := *;
      }
    }
  }

  /** The packets that found room, given how long the queue was when each of them came. */
  function Kept(received: seq<ReceivedPacket>, sizes: seq<nat>): (kept: seq<ReceivedPacket>)
    requires |sizes| == |received|
    ensures |kept| <= |received|
  {
    if received == [] then []
    else
      var n := |received| - 1;
      Kept(received[..n], sizes[..n]) + if sizes[n] < INBOUND_CAPACITY then [received[n]] else []
  }

  lemma KeptSnoc(received: seq<ReceivedPacket>, sizes: seq<nat>, packet: ReceivedPacket, size: nat)
    requires |sizes| == |received|
    ensures Kept(received + [packet], sizes + [size]) == Kept(received, sizes) + if size < INBOUND_CAPACITY then
      [packet] else []
  {
    assert (received + [packet])[..|received|] == received && (sizes + [size])[..|sizes|] == sizes;
  }

  /** No packet finds the queue longer than it was at first, and longer by those kept before it. */
  ghost predicate SizesFit(received: seq<ReceivedPacket>, sizes: seq<nat>, first: nat) {
    && |sizes| == |received|
    && forall i {:trigger sizes[i]} :: 0 <= i < |sizes| ==> sizes[i] <= first + |Kept(received[..i], sizes[..i])|
  }

  lemma SizesSnoc(received: seq<ReceivedPacket>, sizes: seq<nat>, first: nat, packet: ReceivedPacket, size: nat)
    requires SizesFit(received, sizes, first) && size <= first + |Kept(received, sizes)|
    ensures SizesFit(received + [packet], sizes + [size], first)
  {
    hide Kept;
    forall i | 0 <= i < |sizes + [size]|
      ensures (sizes + [size])[i] <= first + |Kept((received + [packet])[..i], (sizes + [size])[..i])|
    {
      assert (received + [packet])[..i] == received[..i] && (sizes + [size])[..i] == sizes[..i];
      assert received[..|received|] == received && sizes[..|sizes|] == sizes;
    }
  }

  lemma SizesInit(received: seq<ReceivedPacket>, sizes: seq<nat>, first: nat)
    requires SizesFit(received, sizes, first) && received != []
    ensures var n := |received| - 1;
      SizesFit(received[..n], sizes[..n], first) && sizes[n] <= first + |Kept(received[..n], sizes[..n])|
  {
    hide Kept;
    var n := |received| - 1;
    forall i | 0 <= i < n ensures sizes[..n][i] <= first + |Kept(received[..n][..i], sizes[..n][..i])| {
      assert received[..n][..i] == received[..i] && sizes[..n][..i] == sizes[..i];
    }
  }

  /** With room for all of them, none is dropped. */
  lemma {:induction false} RoomForAll(received: seq<ReceivedPacket>, sizes: seq<nat>, first: nat)
    requires SizesFit(received, sizes, first) && first + |received| <= INBOUND_CAPACITY
    ensures |sizes| == |received| && Kept(received, sizes) == received
    decreases |received|
  {
    assert |sizes| == |received|;
    hide SizesFit;
    if received != [] {
      var n := |received| - 1;
      SizesInit(received, sizes, first);
      RoomForAll(received[..n], sizes[..n], first);
    }
  }

  /** A completed read: the chunk is appended to the stream, complete frames are taken off it, and each
      is passed on to the game thread, which polls meanwhile; a packet is dropped exactly when it
      finds the queue full. */
  method Receive(stream: StreamBuffer, chunk: ByteBuffer, connectionId: nat, inbound: InboundQueue)
    returns (received: seq<ReceivedPacket>, ghost sizes: seq<nat>)
    requires inbound.Valid()
    modifies stream, inbound
    ensures Drain(old(stream.data) + chunk).packets == Contents(received)
    ensures Drain(old(stream.data) + chunk).rest == stream.data
    ensures forall i :: 0 <= i < |received| ==> fresh(received[i]) && received[i].connectionId == connectionId
    ensures inbound.Valid() && SizesFit(received, sizes, |old(inbound.queue)|)
    ensures inbound.entered == old(inbound.entered) + Kept(received, sizes)
    ensures |old(inbound.queue)| + |received| <= INBOUND_CAPACITY ==> inbound.entered == old(inbound.entered) + received
  {
    hide FrontOf, Encode, WithinLimit, Drain, Kept, SizesFit, PassedOn;
    stream.data := stream.data + chunk;
    ghost var all := stream.data;
    received, sizes := [], [];
    NoneYet(inbound);
    while true
      invariant Drain(all) == var d := Drain(stream.data); d.(packets := Contents(received) + d.packets)
      invariant forall i :: 0 <= i < |received| ==> fresh(received[i]) && received[i].connectionId == connectionId
      invariant |sizes| == |received| && PassedOn(inbound, old(inbound.entered), |old(inbound.queue)|, received, sizes)
      decreases |stream.data|
    {
      ghost var before, contents := stream.data, Contents(received);
      var ok, packet, size := ReceiveOne(stream, connectionId, inbound, old(inbound.entered), |old(inbound.queue)|,
        received, sizes);
      assert Contents(received) == contents;
      DrainStep(before);
      if !ok {
        break;
      }
      ContentsAppend(received, packet);
      received, sizes := received + [packet], sizes + [size];
    }
    AllPassedOn(inbound, old(inbound.entered), |old(inbound.queue)|, received, sizes);
  }

  /** One round of the drain loop. */
  method ReceiveOne(stream: StreamBuffer, connectionId: nat, inbound: InboundQueue, ghost before: seq<ReceivedPacket>,
      ghost first: nat, ghost received: seq<ReceivedPacket>, ghost sizes: seq<nat>)
    returns (ok: bool, packet: ReceivedPacket, ghost size: nat)
    requires |sizes| == |received| && PassedOn(inbound, before, first, received, sizes)
    modifies stream, inbound
    ensures fresh(packet) && (ok ==> packet.connectionId == connectionId)
    ensures match FrontOf(old(stream.data))
      case Incomplete => !ok && stream.data == old(stream.data)
      case Oversized => !ok && stream.data == []
      case Frame(p, rest) => ok && stream.data == rest && packet.Content() == p
    ensures if ok then PassedOn(inbound, before, first, received + [packet], sizes + [size])
      else PassedOn(inbound, before, first, received, sizes)
  {
    hide FrontOf, Encode, WithinLimit, PassedOn;
    size := 0;
    packet := new ReceivedPacket();
    ok := Decode(stream, packet);
    if ok {
      packet.connectionId := connectionId;
      size := PassOn(inbound, packet, before, first, received, sizes);
    }
  }

  /** What has come of the packets received so far. */
  ghost predicate PassedOn(inbound: InboundQueue, before: seq<ReceivedPacket>, first: nat,
      received: seq<ReceivedPacket>, sizes: seq<nat>)
    requires |sizes| == |received|
    reads inbound
  {
    && inbound.Valid() && SizesFit(received, sizes, first) && inbound.entered == before + Kept(received, sizes)
    && |inbound.queue| <= first + |Kept(received, sizes)|
  }

  /** The packet is offered to the queue, after any polls. */
  method PassOn(inbound: InboundQueue, packet: ReceivedPacket, ghost before: seq<ReceivedPacket>, ghost first: nat,
                ghost received: seq<ReceivedPacket>, ghost sizes: seq<nat>)
    returns (ghost size: nat)
    requires |sizes| == |received| && PassedOn(inbound, before, first, received, sizes)
    modifies inbound
    ensures PassedOn(inbound, before, first, received + [packet], sizes + [size])
  {
    hide Kept, SizesFit;
    inbound.BePolled();
    size := |inbound.queue|;
    var _ := inbound.Enqueue(packet);
    KeptSnoc(received, sizes, packet, size);
    SizesSnoc(received, sizes, first, packet, size);
  }

  lemma NoneYet(inbound: InboundQueue)
    requires inbound.Valid()
    ensures PassedOn(inbound, inbound.entered, |inbound.queue|, [], [])
  {
  }

  lemma AllPassedOn(inbound: InboundQueue, before: seq<ReceivedPacket>, first: nat, received: seq<ReceivedPacket>,
      sizes: seq<nat>)
    requires |sizes| == |received| && PassedOn(inbound, before, first, received, sizes)
    ensures inbound.Valid() && SizesFit(received, sizes, first) && inbound.entered == before + Kept(received, sizes)
    ensures first + |received| <= INBOUND_CAPACITY ==> inbound.entered == before + received
  {
    if first + |received| <= INBOUND_CAPACITY { RoomForAll(received, sizes, first); }
  }

  lemma DrainStep(b: ByteBuffer)
    ensures match FrontOf(b)
      case Incomplete => Drain(b) == Drained([], b, false)
      case Oversized => Drain(b) == Drained([], [], true)
      case Frame(p, rest) => Drain(b) == var d := Drain(rest); d.(packets := [p] + d.packets)
  {
  }

  ghost function Contents(received: seq<ReceivedPacket>): (contents: seq<Packet>)
    reads received
    ensures |contents| == |received|
  {
    seq(|received|, i requires 0 <= i < |received| reads received => received[i].Content())
  }

  lemma ContentsAppend(received: seq<ReceivedPacket>, packet: ReceivedPacket)
    ensures Contents(received + [packet]) == Contents(received) + [packet.Content()]
  {
  }

  // ---- chunking ----

  lemma FrontExtends(b: ByteBuffer, c: ByteBuffer)
    ensures FrontOf(b).Frame? ==> FrontOf(b + c) == Frame(FrontOf(b).packet, FrontOf(b).rest + c)
    ensures FrontOf(b).Oversized? ==> FrontOf(b + c).Oversized?
  {
    if |b| >= HEADER_SIZE {
      var n := PayloadLength(b);
      assert (b + c)[..4] == b[..4] && (b + c)[4..6] == b[4..6];
      if |b| >= HEADER_SIZE + n {
        assert (b + c)[HEADER_SIZE..HEADER_SIZE + n] == b[HEADER_SIZE..HEADER_SIZE + n];
        assert (b + c)[HEADER_SIZE + n..] == b[HEADER_SIZE + n..] + c;
      }
    }
  }

  /** Draining early changes nothing, as long as no oversized header turns up. */
  lemma {:induction false} DrainAppend(b: ByteBuffer, c: ByteBuffer)
    requires !Drain(b + c).broken
    ensures !Drain(b).broken
    ensures Drain(b + c) == var d := Drain(Drain(b).rest + c); d.(packets := Drain(b).packets + d.packets)
    decreases |b|
  {
    FrontExtends(b, c);
    DrainStep(b);
    DrainStep(b + c);
    hide FrontOf, Drain;
    if FrontOf(b).Frame? {
      DrainAppend(FrontOf(b).rest, c);
    } else if FrontOf(b).Incomplete? {
      assert Drain(b).packets + Drain(b + c).packets == Drain(b + c).packets;
    }
  }

  function Concat(chunks: seq<ByteBuffer>): ByteBuffer {
    if chunks == [] then [] else chunks[0] + Concat(chunks[1..])
  }

  /** The reads of one connection, one chunk after the other. */
  function ReceiveAll(buffer: ByteBuffer, chunks: seq<ByteBuffer>): (d: Drained)
    decreases |chunks|
  {
    if chunks == [] then Drained([], buffer, false)
    else
      var first := Drain(buffer + chunks[0]);
      var others := ReceiveAll(first.rest, chunks[1..]);
      Drained(first.packets + others.packets, others.rest, first.broken || others.broken)
  }

  /** Draining breaks off on an oversized header after chunk `n` has come. */
  predicate BreaksAt(buffer: ByteBuffer, chunks: seq<ByteBuffer>, n: nat) {
    n < |chunks| && Drain(ReceiveAll(buffer, chunks[..n]).rest + chunks[n]).broken
  }

  lemma BreaksLater(buffer: ByteBuffer, chunks: seq<ByteBuffer>, n: nat)
    requires chunks != []
    ensures BreaksAt(buffer, chunks, n + 1) <==> BreaksAt(Drain(buffer + chunks[0]).rest, chunks[1..], n)
  {
    if n + 1 < |chunks| {
      assert chunks[..n + 1][0] == chunks[0] && chunks[..n + 1][1..] == chunks[1..][..n];
    }
  }

  /** The reads of a connection break off exactly if some chunk brings an oversized header to the front. */
  lemma {:induction false} BrokenByAChunk(buffer: ByteBuffer, chunks: seq<ByteBuffer>)
    ensures ReceiveAll(buffer, chunks).broken <==> exists n: nat :: BreaksAt(buffer, chunks, n)
    decreases |chunks|
  {
    if chunks != [] {
      var rest := Drain(buffer + chunks[0]).rest;
      BrokenByAChunk(rest, chunks[1..]);
      assert BreaksAt(buffer, chunks, 0) <==> Drain(buffer + chunks[0]).broken by {
        assert chunks[..0] == [];
      }
      hide BreaksAt, Drain;
      if n: nat :| BreaksAt(rest, chunks[1..], n) {
        BreaksLater(buffer, chunks, n);
      }
      if n: nat :| BreaksAt(buffer, chunks, n) {
        if n > 0 { BreaksLater(buffer, chunks, n - 1); }
      }
    }
  }

  /** For every byte stream without an oversized header, the cuts do not matter. */
  lemma {:induction false} ChunkingIndependent(buffer: ByteBuffer, chunks: seq<ByteBuffer>)
    requires FrontOf(buffer).Incomplete? && !Drain(buffer + Concat(chunks)).broken
    ensures ReceiveAll(buffer, chunks) == Drain(buffer + Concat(chunks))
    decreases |chunks|
  {
    if chunks == [] {
      assert buffer + Concat(chunks) == buffer;
    } else {
      assert buffer + Concat(chunks) == (buffer + chunks[0]) + Concat(chunks[1..]);
      DrainAppend(buffer + chunks[0], Concat(chunks[1..]));
      ChunkingIndependent(Drain(buffer + chunks[0]).rest, chunks[1..]);
    }
  }

  function EncodeAll(packets: seq<Packet>): ByteBuffer {
    if packets == [] then [] else Encode(packets[0]) + EncodeAll(packets[1..])
  }

  lemma {:induction false} DrainEncodings(packets: seq<Packet>)
    requires forall i :: 0 <= i < |packets| ==> WithinLimit(packets[i])
    ensures Drain(EncodeAll(packets)) == Drained(packets, [], false)
    decreases |packets|
  {
    if packets != [] {
      DecodeEncoded(packets[0], EncodeAll(packets[1..]));
      DrainEncodings(packets[1..]);
    }
  }

  /** What is taken off the stream and what stays make up the stream. */
  lemma {:induction false} DrainConserves(b: ByteBuffer)
    requires !Drain(b).broken
    ensures b == EncodeAll(Drain(b).packets) + Drain(b).rest
    decreases |b|
  {
    hide Encode, FrontOf, WithinLimit;
    if FrontOf(b).Frame? {
      FrameIsEncoding(b);
      DrainConserves(FrontOf(b).rest);
      assert Drain(b).packets[1..] == Drain(FrontOf(b).rest).packets;
    }
  }

  lemma {:induction false} EncodeAllAppend(a: seq<Packet>, b: seq<Packet>)
    ensures EncodeAll(a + b) == EncodeAll(a) + EncodeAll(b)
    decreases |a|
  {
    if a == [] {
      assert a + b == b;
    } else {
      assert (a + b)[1..] == a[1..] + b;
      EncodeAllAppend(a[1..], b);
    }
  }

  lemma {:induction false} ConcatAppend(a: seq<ByteBuffer>, b: seq<ByteBuffer>)
    ensures Concat(a + b) == Concat(a) + Concat(b)
    decreases |a|
  {
    if a == [] {
      assert a + b == b;
    } else {
      assert (a + b)[1..] == a[1..] + b;
      ConcatAppend(a[1..], b);
    }
  }

  /** The receiver is between frames `k` and `k + 1`: `rest` is part of the next frame, not all of it. */
  predicate Between(packets: seq<Packet>, k: nat, rest: ByteBuffer) {
    && k <= |packets|
    && if k == |packets| then rest == [] else |rest| < |Encode(packets[k])| && rest == Encode(packets[k])[..|rest|]
  }

  lemma PartOfFrame(rest: ByteBuffer, z: ByteBuffer, p: Packet, more: ByteBuffer)
    requires WithinLimit(p) && FrontOf(rest).Incomplete? && rest + z == Encode(p) + more
    ensures |rest| < |Encode(p)| && rest == Encode(p)[..|rest|]
  {
    var frame := Encode(p);
    DecodeEncoded(p, more);
    hide Encode, FrontOf;
    if |rest| >= |frame| {
      assert frame == (frame + more)[..|frame|] == (rest + z)[..|frame|] == rest[..|frame|];
      assert rest == frame + rest[|frame|..];
      DecodeEncoded(p, rest[|frame|..]);
      assert false;
    }
    assert rest == (frame + more)[..|rest|] == frame[..|rest|];
  }

  lemma CutTheSame(a: ByteBuffer, rest: ByteBuffer, z: ByteBuffer, b: ByteBuffer)
    requires (a + rest) + z == a + b
    ensures rest + z == b
  {
    assert (a + rest) + z == a + (rest + z);
    assert rest + z == (a + (rest + z))[|a|..] == (a + b)[|a|..] == b;
  }

  lemma EncodeAllFirst(packets: seq<Packet>)
    ensures EncodeAll(packets) == if packets == [] then [] else Encode(packets[0]) + EncodeAll(packets[1..])
  {
  }

  lemma PartOfStream(packets: seq<Packet>, a: ByteBuffer, z: ByteBuffer)
    requires forall i :: 0 <= i < |packets| ==> WithinLimit(packets[i])
    requires EncodeAll(packets) == a + z
    ensures var d := Drain(a); var k := |d.packets|;
      !d.broken && k <= |packets| && d.packets == packets[..k] && Between(packets, k, d.rest)
  {
    hide Encode, FrontOf, WithinLimit;
    DrainEncodings(packets);
    DrainAppend(a, z);
    DrainConserves(a);
    hide Drain;
    var d := Drain(a);
    var k := |d.packets|;
    assert packets == d.packets + Drain(d.rest + z).packets;
    assert d.packets == packets[..k] && packets == packets[..k] + packets[k..];
    EncodeAllAppend(packets[..k], packets[k..]);
    hide EncodeAll;
    CutTheSame(EncodeAll(packets[..k]), d.rest, z, EncodeAll(packets[k..]));
    if k < |packets| {
      assert packets[k..][0] == packets[k];
      EncodeAllFirst(packets[k..]);
      PartOfFrame(d.rest, z, packets[k], EncodeAll(packets[k..][1..]));
    } else {
      assert packets[k..] == [];
      EncodeAllFirst(packets[k..]);
    }
  }

  lemma AfterSomeChunks(packets: seq<Packet>, chunks: seq<ByteBuffer>, n: nat)
    requires n <= |chunks| && Concat(chunks) == EncodeAll(packets)
    requires forall i :: 0 <= i < |packets| ==> WithinLimit(packets[i])
    ensures var d := ReceiveAll([], chunks[..n]); var k := |d.packets|;
      !d.broken && k <= |packets| && d.packets == packets[..k] && Between(packets, k, d.rest)
  {
    assert FrontOf([]).Incomplete?;
    hide Between, Drain, Encode, FrontOf, WithinLimit, Concat, EncodeAll, ReceiveAll;
    assert chunks == chunks[..n] + chunks[n..];
    ConcatAppend(chunks[..n], chunks[n..]);
    var a := Concat(chunks[..n]);
    PartOfStream(packets, a, Concat(chunks[n..]));
    assert [] + a == a;
    ChunkingIndependent([], chunks[..n]);
  }

  /** For every list of packets within the limit and every cut of their encodings into chunks: after
      each chunk the receiver has exactly the packets whose frames are complete and a proper part
      of the next frame, and after the last chunk all packets, in order, and an empty buffer. */
  lemma StreamRoundTrip(packets: seq<Packet>, chunks: seq<ByteBuffer>)
    requires forall i :: 0 <= i < |packets| ==> WithinLimit(packets[i])
    requires Concat(chunks) == EncodeAll(packets)
    ensures ReceiveAll([], chunks) == Drained(packets, [], false)
    ensures forall n :: 0 <= n <= |chunks| ==>
      var d := ReceiveAll([], chunks[..n]); var k := |d.packets|;
      !d.broken && k <= |packets| && d.packets == packets[..k] && Between(packets, k, d.rest)
  {
    assert FrontOf([]).Incomplete?;
    hide Between, Drain, Encode, FrontOf, WithinLimit, Concat, EncodeAll, ReceiveAll;
    forall n | 0 <= n <= |chunks|
      ensures var d := ReceiveAll([], chunks[..n]); var k := |d.packets|;
        !d.broken && k <= |packets| && d.packets == packets[..k] && Between(packets, k, d.rest)
    {
      AfterSomeChunks(packets, chunks, n);
    }
    DrainEncodings(packets);
    assert [] + Concat(chunks) == EncodeAll(packets);
    ChunkingIndependent([], chunks);
  }

  /** An oversized header empties the whole buffer, so what it takes with it depends on the cuts:
      in two reads the second packet survives, in one it does not. */
  lemma OversizedDependsOnCuts() returns (bad: ByteBuffer, good: Packet)
    ensures ReceiveAll([], [bad, Encode(good)]).packets == [good]
    ensures ReceiveAll([], [bad + Encode(good)]).packets == []
  {
    bad := LittleEndian(MAX_PACKET_SIZE + 1, 4) + LittleEndian(0, 2);
    good := Packet(0, []);
    FieldSizes();
    FieldRoundTrip(MAX_PACKET_SIZE + 1, 4);
    assert bad[..4] == LittleEndian(MAX_PACKET_SIZE + 1, 4);
    assert FrontOf(bad).Oversized?;
    FrontExtends(bad, Encode(good));
    DecodeEncoded(good, []);
    hide FrontOf, Encode;
    assert [] + bad == bad && [] + Encode(good) == Encode(good) == Encode(good) + [];
    var one, two := [bad + Encode(good)], [bad, Encode(good)];
    assert [] + one[0] == bad + Encode(good);
    assert two[1..] == [Encode(good)];
    assert Drain(bad).packets == [] && Drain(bad).rest == [];
    assert Drain(Encode(good)).packets == [good];
    assert ReceiveAll([], [Encode(good)]).packets == [good];
  }
}
