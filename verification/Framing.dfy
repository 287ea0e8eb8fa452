/** Length-prefixed framing: control envelopes, chunk headers, and the stream of one data channel. */
module Framing {
  import opened Wrappers
  import opened Chunks
  import opened Storage

  const MAX_CONTROL_FRAME_BYTES: nat := 1024 * 1024
  const MAX_CHUNK_HEADER_BYTES: nat := 64 * 1024
  const PROTOCOL_MAJOR: nat := 1
  const HASH_BYTES: nat := 32

  datatype FrameError =
    | StreamEnded
    | FrameTooLarge(actual: nat)
    | Undecodable
    | IncompatibleVersion(remoteMajor: nat)

  /** A message codec: the library's encoder and its partial decoder. */
  datatype Codec<!M> = Codec(encode: M -> Bytes, decode: Bytes -> Option<M>)

  ghost predicate Inverse<M(!new)>(codec: Codec<M>) {
    forall m: M :: codec.decode(codec.encode(m)) == Some(m)
  }

  // ----- u32 in network byte order -----

  function ToBe32(n: nat): (b: Bytes)
    requires n <= U32_MAX
    ensures |b| == 4
  {
    [n / 0x100_0000, n / 0x1_0000 % 0x100, n / 0x100 % 0x100, n % 0x100]
  }

  function FromBe32(b: Bytes): nat
    requires |b| == 4
  {
    (b[0] as nat) * 0x100_0000 + (b[1] as nat) * 0x1_0000 + (b[2] as nat) * 0x100 + b[3] as nat
  }

  lemma Be32RoundTrip(n: nat)
    requires n <= U32_MAX
    ensures FromBe32(ToBe32(n)) == n
  {
    var high, low := n / 0x1_0000, n % 0x1_0000;
    assert n == high * 0x1_0000 + low;
    assert n / 0x100_0000 == high / 0x100 && n / 0x1_0000 % 0x100 == high % 0x100;
    assert n / 0x100 % 0x100 == low / 0x100 && n % 0x100 == low % 0x100;
  }

  /** The high byte comes first. */
  lemma HighByteFirst()
    ensures ToBe32(0x0102_0304) == [1, 2, 3, 4]
  {
  }

  // ----- one frame -----

  function Frame(body: Bytes): Bytes
    requires |body| <= U32_MAX
  {
    ToBe32(|body|) + body
  }

  /** The first frame of a stream and what follows it. */
  function TakeFrame(stream: Bytes, limit: nat): (r: Result<(Bytes, Bytes), FrameError>)
    ensures r.Ok? ==> |r.value.1| < |stream|
  {
    if |stream| < 4 then Err(StreamEnded)
    else
      var length := FromBe32(stream[..4]);
      if length > limit then Err(FrameTooLarge(length))
      else if |stream| - 4 < length then Err(StreamEnded)
      else Ok((stream[4..4 + length], stream[4 + length..]))
  }

  lemma TakeFrameInverse(body: Bytes, rest: Bytes, limit: nat)
    requires |body| <= limit && |body| <= U32_MAX
    ensures TakeFrame(Frame(body) + rest, limit) == Ok((body, rest))
  {
    var stream := Frame(body) + rest;
    Be32RoundTrip(|body|);
    assert stream[..4] == ToBe32(|body|);
    assert stream[4..4 + |body|] == body;
    assert stream[4 + |body|..] == rest;
  }

  /** Four bytes are the big-endian form of one number only. */
  lemma Be32Exactly(b: Bytes)
    requires |b| == 4
    ensures FromBe32(b) <= U32_MAX && ToBe32(FromBe32(b)) == b
  {
    FourDigits(b[0], b[1], b[2], b[3]);
    assert ToBe32(FromBe32(b)) == [b[0], b[1], b[2], b[3]];
  }

  lemma FourDigits(b0: Byte, b1: Byte, b2: Byte, b3: Byte)
    ensures var n: int := (b0 as int) * 0x100_0000 + (b1 as int) * 0x1_0000 + (b2 as int) * 0x100 + (b3 as int);
            && n <= U32_MAX && n / 0x100_0000 == b0 && n / 0x1_0000 % 0x100 == b1
            && n / 0x100 % 0x100 == b2 && n % 0x100 == b3
  {
    var low: int := (b2 as int) * 0x100 + (b3 as int);
    var high: int := (b0 as int) * 0x100 + (b1 as int);
    var n := high * 0x1_0000 + low;
    assert 0 <= low < 0x1_0000;
    assert n / 0x1_0000 == high;
    assert n % 0x1_0000 == low;
    assert n / 0x100 == high * 0x100 + (b2 as int);
  }

  /** What is taken is a frame within the limit, and what follows it. */
  lemma TakeFrameExactly(stream: Bytes, limit: nat, body: Bytes, rest: Bytes)
    requires |body| <= U32_MAX
    ensures TakeFrame(stream, limit) == Ok((body, rest)) <==> |body| <= limit && stream == Frame(body) + rest
  {
    if |body| <= limit && stream == Frame(body) + rest {
      TakeFrameInverse(body, rest, limit);
    }
    if TakeFrame(stream, limit) == Ok((body, rest)) {
      Be32Exactly(stream[..4]);
      hide ToBe32, FromBe32;
      assert stream == stream[..4] + stream[4..4 + |body|] + stream[4 + |body|..];
    }
  }

  /** A prefix that announces more than the limit is refused before its body is looked at; anything else that is not a
      frame is a stream that ends too early. */
  lemma FrameRefusedExactly(stream: Bytes, limit: nat, n: nat)
    requires n <= U32_MAX
    ensures TakeFrame(stream, limit) == Err(FrameTooLarge(n)) <==>
              n > limit && |stream| >= 4 && stream[..4] == ToBe32(n)
    ensures TakeFrame(stream, limit).Err? ==>
              TakeFrame(stream, limit).error.StreamEnded? || TakeFrame(stream, limit).error.FrameTooLarge?
  {
    Be32RoundTrip(n);
    if |stream| >= 4 {
      Be32Exactly(stream[..4]);
    }
    hide ToBe32, FromBe32;
  }

  /** A frame cut short reads as end of stream, never as another frame. */
  lemma TakeFrameCut(body: Bytes, n: nat, limit: nat)
    requires |body| <= limit <= U32_MAX && n < |Frame(body)|
    ensures TakeFrame(Frame(body)[..n], limit) == Err(StreamEnded)
  {
    Be32RoundTrip(|body|);
    if n >= 4 {
      assert Frame(body)[..n][..4] == ToBe32(|body|);
    }
  }

  // ----- a byte stream between two peers -----

  class Pipe {
    var bytes: Bytes

    constructor (bytes: Bytes)
      ensures this.bytes == bytes
    {
      this.bytes := bytes;
    }

    method WriteAll(data: Bytes)
      modifies this
      ensures bytes == old(bytes) + data
    {
      bytes := bytes + data;
    }

    /** Takes exactly `n` bytes; at a shorter stream the rest is consumed and the read fails. */
    method ReadExact(n: nat) returns (r: Result<Bytes, FrameError>)
      modifies this
      ensures |old(bytes)| >= n ==> r == Ok(old(bytes)[..n]) && bytes == old(bytes)[n..]
      ensures |old(bytes)| < n ==> r == Err(StreamEnded) && bytes == []
    {
      if |bytes| < n {
        bytes := [];
        return Err(StreamEnded);
      }
      r := Ok(bytes[..n]);
      bytes := bytes[n..];
    }

    method WriteFrame(body: Bytes, limit: nat) returns (r: Result<(), FrameError>)
      requires limit <= U32_MAX
      modifies this
      ensures r.Ok? <==> |body| <= limit
      ensures r.Ok? ==> bytes == old(bytes) + Frame(body)
      ensures r.Err? ==> r.error == FrameTooLarge(|body|) && bytes == old(bytes)
    {
      if |body| > limit {
        return Err(FrameTooLarge(|body|));
      }
      WriteAll(ToBe32(|body|));
      WriteAll(body);
      assert bytes == old(bytes) + Frame(body);
      return Ok(());
    }

    method ReadFrame(limit: nat) returns (r: Result<Bytes, FrameError>)
      modifies this
      ensures match TakeFrame(old(bytes), limit)
              case Ok(taken) => r == Ok(taken.0) && bytes == taken.1
              case Err(error) => r == Err(error)
    {
      var prefix := ReadExact(4);
      if prefix.Err? {
        return Err(prefix.error);
      }
      var length := FromBe32(prefix.value);
      if length > limit {
        return Err(FrameTooLarge(length));
      }
      r := ReadExact(length);
      if r.Ok? {
        assert old(bytes)[4..][..length] == old(bytes)[4..4 + length];
        assert old(bytes)[4..][length..] == old(bytes)[4 + length..];
      }
    }
  }

  // ----- control envelopes -----

  datatype Envelope<+P> = Envelope(protocolMajor: nat, protocolMinor: nat, payload: P)

  /** The envelope `wire::envelope` builds around every outgoing payload. */
  function Wrap<P>(payload: P): Envelope<P> {
    Envelope(PROTOCOL_MAJOR, 0, payload)
  }

  method WriteEnvelope<P>(pipe: Pipe, codec: Codec<Envelope<P>>, envelope: Envelope<P>)
    returns (r: Result<(), FrameError>)
    modifies pipe
    ensures r.Ok? <==> |codec.encode(envelope)| <= MAX_CONTROL_FRAME_BYTES
    ensures r.Ok? ==> pipe.bytes == old(pipe.bytes) + Frame(codec.encode(envelope))
    ensures r.Err? ==> pipe.bytes == old(pipe.bytes)
  {
    r := pipe.WriteFrame(codec.encode(envelope), MAX_CONTROL_FRAME_BYTES);
  }

  function TakeEnvelope<P>(stream: Bytes, codec: Codec<Envelope<P>>): (r: Result<(Envelope<P>, Bytes), FrameError>)
    ensures r.Ok? ==> |r.value.1| < |stream|
  {
    var taken :- TakeFrame(stream, MAX_CONTROL_FRAME_BYTES);
    match codec.decode(taken.0)
    case None => Err(Undecodable)
    case Some(envelope) =>
      if envelope.protocolMajor != PROTOCOL_MAJOR then Err(IncompatibleVersion(envelope.protocolMajor))
      else Ok((envelope, taken.1))
  }

  method ReadEnvelope<P>(pipe: Pipe, codec: Codec<Envelope<P>>) returns (r: Result<Envelope<P>, FrameError>)
    modifies pipe
    ensures match TakeEnvelope(old(pipe.bytes), codec)
            case Ok(taken) => r == Ok(taken.0) && pipe.bytes == taken.1
            case Err(error) => r == Err(error)
  {
    var body := pipe.ReadFrame(MAX_CONTROL_FRAME_BYTES);
    if body.Err? {
      return Err(body.error);
    }
    match codec.decode(body.value)
    case None =>
      return Err(Undecodable);
    case Some(envelope) =>
      if envelope.protocolMajor != PROTOCOL_MAJOR {
        return Err(IncompatibleVersion(envelope.protocolMajor));
      }
      return Ok(envelope);
  }

  /** What one side writes, the other reads back, and the bytes after it are left alone. */
  lemma EnvelopeRoundTrip<P(!new)>(codec: Codec<Envelope<P>>, payload: P, rest: Bytes)
    requires Inverse(codec) && |codec.encode(Wrap(payload))| <= MAX_CONTROL_FRAME_BYTES
    ensures TakeEnvelope(Frame(codec.encode(Wrap(payload))) + rest, codec) == Ok((Wrap(payload), rest))
  {
    TakeFrameInverse(codec.encode(Wrap(payload)), rest, MAX_CONTROL_FRAME_BYTES);
  }

  /** An envelope is taken exactly if it came in a frame within the limit, decodes, and is of this major version. */
  lemma TakeEnvelopeExactly<P(!new)>(stream: Bytes, codec: Codec<Envelope<P>>, envelope: Envelope<P>, rest: Bytes)
    ensures TakeEnvelope(stream, codec) == Ok((envelope, rest)) <==>
              envelope.protocolMajor == 1
              && exists body: Bytes :: |body| <= 1024 * 1024 && stream == Frame(body) + rest
                                       && codec.decode(body) == Some(envelope)
  {
    hide Frame, TakeFrame;
    forall body: Bytes | |body| <= U32_MAX
      ensures TakeFrame(stream, MAX_CONTROL_FRAME_BYTES) == Ok((body, rest)) <==>
                |body| <= MAX_CONTROL_FRAME_BYTES && stream == Frame(body) + rest
    {
      TakeFrameExactly(stream, MAX_CONTROL_FRAME_BYTES, body, rest);
    }
    if TakeEnvelope(stream, codec) == Ok((envelope, rest)) {
      FrameBodyFits(stream, MAX_CONTROL_FRAME_BYTES);
      assert codec.decode(TakeFrame(stream, MAX_CONTROL_FRAME_BYTES).value.0) == Some(envelope);
    }
  }

  lemma FrameBodyFits(stream: Bytes, limit: nat)
    requires TakeFrame(stream, limit).Ok?
    ensures |TakeFrame(stream, limit).value.0| <= limit
  {
  }

  /** Another major version is refused, whatever else the envelope says. */
  lemma OtherVersionRefused<P(!new)>(codec: Codec<Envelope<P>>, envelope: Envelope<P>, rest: Bytes)
    requires Inverse(codec) && |codec.encode(envelope)| <= MAX_CONTROL_FRAME_BYTES && envelope.protocolMajor != 1
    ensures TakeEnvelope(Frame(codec.encode(envelope)) + rest, codec)
            == Err(IncompatibleVersion(envelope.protocolMajor))
  {
    TakeFrameInverse(codec.encode(envelope), rest, MAX_CONTROL_FRAME_BYTES);
  }

  // ----- the data channel -----

  datatype ChunkHeader = ChunkHeader(
    transferId: string, itemId: string, chunkIndex: nat, offset: nat, length: nat, digest: Bytes)

  /** A chunk as it leaves the wire loop, before verification and writing. */
  datatype Delivery = Delivery(itemId: string, chunk: VerifiedChunk)

  datatype ChannelError =
    | BadFrame(frameError: FrameError)
    | UnknownItem(itemId: string)
    | UnexpectedChunk
    | InvalidChunkLength(length: nat)
    | ChunkOutsideFile
    | InvalidHashLength(actual: nat)
    | PlanError(planError: ChunkError)
    | ChunkPlanMismatch
    | PayloadCut

  /** What the receiver knows about one transfer. */
  datatype Receiver = Receiver(transferId: string, plans: map<string, ChunkPlan>)

  ghost predicate ValidReceiver(receiver: Receiver) {
    forall id | id in receiver.plans ::
      receiver.plans[id].Valid() && receiver.plans[id].chunkSize == DEFAULT_CHUNK_SIZE
  }

  function ValidateHeader(header: ChunkHeader, transferId: string, itemId: string,
                          fileSize: nat): Result<(), ChannelError> {
    if header.transferId != transferId || header.itemId != itemId then Err(UnexpectedChunk)
    else if header.length == 0 || header.length > DEFAULT_CHUNK_SIZE then Err(InvalidChunkLength(header.length))
    else if SaturatingAdd(header.offset, header.length) > fileSize then Err(ChunkOutsideFile)
    else if |header.digest| != HASH_BYTES then Err(InvalidHashLength(|header.digest|))
    else Ok(())
  }

  /** All the checks between a header and its payload; the planned chunk on success. */
  function CheckHeader(receiver: Receiver, header: ChunkHeader): Result<ChunkSpec, ChannelError>
    requires ValidReceiver(receiver)
  {
    if header.itemId !in receiver.plans then Err(UnknownItem(header.itemId))
    else
      var plan := receiver.plans[header.itemId];
      var valid :- ValidateHeader(header, receiver.transferId, header.itemId, plan.fileSize);
      match plan.Chunk(header.chunkIndex)
      case Err(error) => Err(PlanError(error))
      case Ok(expected) =>
        if expected.offset != header.offset || expected.length != header.length then Err(ChunkPlanMismatch)
        else Ok(expected)
  }

  /** A header passes exactly when it names a planned chunk of a known file of this transfer. */
  /** What a refused header is told: the first of the checks it fails, in this order. */
  lemma HeaderRefusedExactly(receiver: Receiver, header: ChunkHeader)
    requires ValidReceiver(receiver)
    ensures var known := header.itemId in receiver.plans;
            var ours := known && header.transferId == receiver.transferId;
            var sized := ours && 1 <= header.length <= 4 * 1024 * 1024;
            var inside := sized
              && SaturatingAdd(header.offset, header.length) <= receiver.plans[header.itemId].fileSize;
            var hashed := inside && |header.digest| == 32;
            var indexed := hashed && header.chunkIndex < receiver.plans[header.itemId].chunkCount;
            var refused := CheckHeader(receiver, header);
            && (refused == Err(UnknownItem(header.itemId)) <==> !known)
            && (refused == Err(UnexpectedChunk) <==> known && !ours)
            && (refused == Err(InvalidChunkLength(header.length)) <==> ours && !sized)
            && (refused == Err(ChunkOutsideFile) <==> sized && !inside)
            && (refused == Err(InvalidHashLength(|header.digest|)) <==> inside && !hashed)
            && (refused.Err? && refused.error.PlanError? <==> hashed && !indexed)
            && (refused == Err(ChunkPlanMismatch) ==> indexed)
  {
    hide ChunkPlan.Valid, ChunkPlan.At;
  }

  lemma HeaderAcceptedExactly(receiver: Receiver, header: ChunkHeader)
    requires ValidReceiver(receiver)
    ensures CheckHeader(receiver, header).Ok? <==>
              && header.transferId == receiver.transferId && header.itemId in receiver.plans
              && header.chunkIndex < receiver.plans[header.itemId].chunkCount
              && ChunkSpec(header.chunkIndex, header.offset, header.length)
                 == receiver.plans[header.itemId].At(header.chunkIndex)
              && |header.digest| == HASH_BYTES
    ensures CheckHeader(receiver, header).Ok? ==>
              CheckHeader(receiver, header).value == ChunkSpec(header.chunkIndex, header.offset, header.length)
  {
    if header.itemId in receiver.plans && header.chunkIndex < receiver.plans[header.itemId].chunkCount {
      ChunksAbut(receiver.plans[header.itemId], header.chunkIndex);
    }
  }

  function TakeHeader(stream: Bytes, codec: Codec<ChunkHeader>): (r: Result<(ChunkHeader, Bytes), FrameError>)
    ensures r.Ok? ==> |r.value.1| < |stream|
  {
    var taken :- TakeFrame(stream, MAX_CHUNK_HEADER_BYTES);
    match codec.decode(taken.0)
    case None => Err(Undecodable)
    case Some(header) => Ok((header, taken.1))
  }

  datatype ChannelEnd = Drained | Broken(error: ChannelError)

  /** One round of the receiving loop. An end of stream while a header is being read, even in its middle, ends
      the loop cleanly; one inside a payload breaks it. */
  function NextChunk(receiver: Receiver, codec: Codec<ChunkHeader>, stream: Bytes):
    (r: Result<(Delivery, Bytes), ChannelEnd>)
    requires ValidReceiver(receiver)
    ensures r.Ok? ==> |r.value.1| < |stream|
  {
    match TakeHeader(stream, codec)
    case Err(error) => Err(if error == StreamEnded then Drained else Broken(BadFrame(error)))
    case Ok(taken) =>
      match CheckHeader(receiver, taken.0)
      case Err(error) => Err(Broken(error))
      case Ok(spec) =>
        if |taken.1| < spec.length then Err(Broken(PayloadCut))
        else
          var chunk := VerifiedChunk(spec, taken.0.digest, taken.1[..spec.length]);
          Ok((Delivery(taken.0.itemId, chunk), taken.1[spec.length..]))
  }

  /** Everything the receiving loop hands on from a stream, and how the loop ends. */
  function Receive(receiver: Receiver, codec: Codec<ChunkHeader>, stream: Bytes): (seq<Delivery>, ChannelEnd)
    requires ValidReceiver(receiver)
    decreases |stream|
  {
    match NextChunk(receiver, codec, stream)
    case Err(end) => ([], end)
    case Ok(next) =>
      var later := Receive(receiver, codec, next.1);
      ([next.0] + later.0, later.1)
  }

  method ReadChunk(receiver: Receiver, codec: Codec<ChunkHeader>, pipe: Pipe) returns (r: Result<Delivery, ChannelEnd>)
    requires ValidReceiver(receiver)
    modifies pipe
    ensures match NextChunk(receiver, codec, old(pipe.bytes))
            case Ok(next) => r == Ok(next.0) && pipe.bytes == next.1
            case Err(end) => r == Err(end)
  {
    var body := pipe.ReadFrame(MAX_CHUNK_HEADER_BYTES);
    if body.Err? {
      return Err(if body.error == StreamEnded then Drained else Broken(BadFrame(body.error)));
    }
    var decoded := codec.decode(body.value);
    if decoded.None? {
      return Err(Broken(BadFrame(Undecodable)));
    }
    var header := decoded.value;
    var checked := CheckHeader(receiver, header);
    if checked.Err? {
      return Err(Broken(checked.error));
    }
    var payload := pipe.ReadExact(checked.value.length);
    if payload.Err? {
      return Err(Broken(PayloadCut));
    }
    return Ok(Delivery(header.itemId, VerifiedChunk(checked.value, header.digest, payload.value)));
  }

  /** The receiving loop over the stream itself. */
  method ReceiveLoop(receiver: Receiver, codec: Codec<ChunkHeader>, pipe: Pipe)
    returns (delivered: seq<Delivery>, end: ChannelEnd)
    requires ValidReceiver(receiver)
    modifies pipe
    ensures (delivered, end) == Receive(receiver, codec, old(pipe.bytes))
  {
    ghost var all := Receive(receiver, codec, pipe.bytes);
    delivered := [];
    while true
      invariant all.0 == delivered + Receive(receiver, codec, pipe.bytes).0
      invariant all.1 == Receive(receiver, codec, pipe.bytes).1
      decreases |pipe.bytes|
    {
      ghost var before := pipe.bytes;
      var next := ReadChunk(receiver, codec, pipe);
      if next.Err? {
        assert Receive(receiver, codec, before) == ([], next.error);
        assert delivered + [] == delivered;
        return delivered, next.error;
      }
      ghost var later := Receive(receiver, codec, pipe.bytes);
      assert Receive(receiver, codec, before) == ([next.value] + later.0, later.1);
      ConcatAssociates(delivered, [next.value], later.0);
      delivered := delivered + [next.value];
    }
  }

  /** A chunk the sender may put on a channel of this transfer. */
  ghost predicate Sendable(receiver: Receiver, codec: Codec<ChunkHeader>, d: Delivery) {
    && d.itemId in receiver.plans
    && receiver.plans[d.itemId].Valid()
    && d.chunk.spec.index < receiver.plans[d.itemId].chunkCount
    && d.chunk.spec == receiver.plans[d.itemId].At(d.chunk.spec.index)
    && |d.chunk.bytes| == d.chunk.spec.length
    && |d.chunk.digest| == HASH_BYTES
    && |codec.encode(HeaderOf(receiver, d))| <= MAX_CHUNK_HEADER_BYTES
  }

  function HeaderOf(receiver: Receiver, d: Delivery): ChunkHeader {
    ChunkHeader(receiver.transferId, d.itemId, d.chunk.spec.index, d.chunk.spec.offset, d.chunk.spec.length,
        d.chunk.digest)
  }

  /** The bytes one channel writes for one chunk. */
  ghost function ChunkBytes(receiver: Receiver, codec: Codec<ChunkHeader>, d: Delivery): Bytes
    requires Sendable(receiver, codec, d)
  {
    Frame(codec.encode(HeaderOf(receiver, d))) + d.chunk.bytes
  }

  ghost function StreamOf(receiver: Receiver, codec: Codec<ChunkHeader>, sent: seq<Delivery>): Bytes
    requires forall d | d in sent :: Sendable(receiver, codec, d)
  {
    if sent == [] then []
    else ChunkBytes(receiver, codec, sent[0]) + StreamOf(receiver, codec, sent[1..])
  }

  method WriteChunk(receiver: Receiver, codec: Codec<ChunkHeader>, d: Delivery, pipe: Pipe)
    requires Sendable(receiver, codec, d)
    modifies pipe
    ensures pipe.bytes == old(pipe.bytes) + ChunkBytes(receiver, codec, d)
  {
    var wrote := pipe.WriteFrame(codec.encode(HeaderOf(receiver, d)), MAX_CHUNK_HEADER_BYTES);
    pipe.WriteAll(d.chunk.bytes);
    ConcatAssociates(old(pipe.bytes), Frame(codec.encode(HeaderOf(receiver, d))), d.chunk.bytes);
  }

  /** Sending: `write_header` then the payload, chunk after chunk. */
  method SendLoop(receiver: Receiver, codec: Codec<ChunkHeader>, sent: seq<Delivery>, pipe: Pipe)
    requires forall d | d in sent :: Sendable(receiver, codec, d)
    modifies pipe
    ensures pipe.bytes == old(pipe.bytes) + StreamOf(receiver, codec, sent)
  {
    var rest := sent;
    while rest != []
      invariant forall d | d in rest :: Sendable(receiver, codec, d)
      invariant pipe.bytes + StreamOf(receiver, codec, rest) == old(pipe.bytes) + StreamOf(receiver, codec, sent)
      decreases |rest|
    {
      ConcatAssociates(pipe.bytes, ChunkBytes(receiver, codec, rest[0]), StreamOf(receiver, codec, rest[1..]));
      WriteChunk(receiver, codec, rest[0], pipe);
      rest := rest[1..];
    }
  }

  /** The first chunk of a stream is delivered whole and the loop goes on right behind it. */
  lemma ReceiveOne(receiver: Receiver, codec: Codec<ChunkHeader>, d: Delivery, rest: Bytes)
    requires ValidReceiver(receiver) && Inverse(codec) && Sendable(receiver, codec, d)
    ensures Receive(receiver, codec, ChunkBytes(receiver, codec, d) + rest)
            == ([d] + Receive(receiver, codec, rest).0, Receive(receiver, codec, rest).1)
  {
    var header := HeaderOf(receiver, d);
    var body := codec.encode(header);
    var stream := ChunkBytes(receiver, codec, d) + rest;
    assert stream == Frame(body) + (d.chunk.bytes + rest);
    TakeFrameInverse(body, d.chunk.bytes + rest, MAX_CHUNK_HEADER_BYTES);
    HeaderAcceptedExactly(receiver, header);
    assert (d.chunk.bytes + rest)[..d.chunk.spec.length] == d.chunk.bytes;
    assert (d.chunk.bytes + rest)[d.chunk.spec.length..] == rest;
  }

  /** A chunk cut anywhere delivers nothing; the loop ends cleanly exactly when the cut is before the payload. */
  lemma ReceiveCut(receiver: Receiver, codec: Codec<ChunkHeader>, d: Delivery, n: nat)
    requires ValidReceiver(receiver) && Inverse(codec) && Sendable(receiver, codec, d)
    requires n < |ChunkBytes(receiver, codec, d)|
    ensures var r := Receive(receiver, codec, ChunkBytes(receiver, codec, d)[..n]);
            r.0 == [] && (r.1 == Drained <==> n < |Frame(codec.encode(HeaderOf(receiver, d)))|)
  {
    var header := HeaderOf(receiver, d);
    var body := codec.encode(header);
    var cut := ChunkBytes(receiver, codec, d)[..n];
    if n < |Frame(body)| {
      assert cut == Frame(body)[..n];
      TakeFrameCut(body, n, MAX_CHUNK_HEADER_BYTES);
    } else {
      var part := d.chunk.bytes[..n - |Frame(body)|];
      assert cut == Frame(body) + part;
      TakeFrameInverse(body, part, MAX_CHUNK_HEADER_BYTES);
      HeaderAcceptedExactly(receiver, header);
    }
  }

  /** Reading a channel's whole stream gives back exactly the chunks sent, in order. */
  lemma {:induction false} StreamRoundTrip(receiver: Receiver, codec: Codec<ChunkHeader>, sent: seq<Delivery>)
    requires ValidReceiver(receiver) && Inverse(codec)
    requires forall d | d in sent :: Sendable(receiver, codec, d)
    ensures Receive(receiver, codec, StreamOf(receiver, codec, sent)) == (sent, Drained)
  {
    hide Receive, NextChunk, ChunkBytes, Sendable, ValidReceiver, Inverse;
    if sent == [] {
      ReceiveNothing(receiver, codec);
    } else {
      StreamRoundTrip(receiver, codec, sent[1..]);
      ReceiveOne(receiver, codec, sent[0], StreamOf(receiver, codec, sent[1..]));
      assert [sent[0]] + sent[1..] == sent;
    }
  }

  lemma ReceiveNothing(receiver: Receiver, codec: Codec<ChunkHeader>)
    requires ValidReceiver(receiver)
    ensures Receive(receiver, codec, []) == ([], Drained)
  {
  }

  /** How many of the chunks lie entirely within the first `n` bytes of their stream. */
  ghost function WholeChunks(receiver: Receiver, codec: Codec<ChunkHeader>, sent: seq<Delivery>, n: nat): (k: nat)
    requires forall d | d in sent :: Sendable(receiver, codec, d)
    ensures k <= |sent|
  {
    if sent == [] || n < |ChunkBytes(receiver, codec, sent[0])| then 0
    else 1 + WholeChunks(receiver, codec, sent[1..], n - |ChunkBytes(receiver, codec, sent[0])|)
  }

  /** A stream cut after `n` bytes delivers exactly the chunks that arrived whole: a prefix of what was sent. */
  lemma {:induction false} TruncatedStream(receiver: Receiver, codec: Codec<ChunkHeader>, sent: seq<Delivery>, n: nat)
    requires ValidReceiver(receiver) && Inverse(codec)
    requires forall d | d in sent :: Sendable(receiver, codec, d)
    requires n <= |StreamOf(receiver, codec, sent)|
    ensures Receive(receiver, codec, StreamOf(receiver, codec, sent)[..n]).0
            == sent[..WholeChunks(receiver, codec, sent, n)]
  {
    hide Receive, NextChunk, ChunkBytes, Sendable, ValidReceiver, Inverse;
    if sent == [] {
      ReceiveNothing(receiver, codec);
    } else {
      var first, later := ChunkBytes(receiver, codec, sent[0]), StreamOf(receiver, codec, sent[1..]);
      TakeOfConcat(first, later, n);
      if n < |first| {
        ReceiveCut(receiver, codec, sent[0], n);
      } else {
        var k := WholeChunks(receiver, codec, sent[1..], n - |first|);
        TruncatedStream(receiver, codec, sent[1..], n - |first|);
        ReceiveOne(receiver, codec, sent[0], later[..n - |first|]);
        TakeOfConcat([sent[0]], sent[1..], 1 + k);
        assert [sent[0]] + sent[1..] == sent;
      }
    }
  }
}
