/** The transforms between messages and frames (packages/dubbo/src/protocol/async-iterable.ts). */
module Transforms {
  import opened Common
  import opened Errors
  import opened Streams
  import opened Envelopes
  import opened JsText
  import opened LimitIo

  datatype Serialization<!T(!new)> = Serialization(serialize: T -> Try<seq<byte>>, parse: seq<byte> -> Try<T>) {
    /** What a message format promises: parsing undoes serializing. */
    ghost predicate Lawful() {
      forall v, b | serialize(v) == Ok(b) :: parse(b) == Ok(v)
    }

    /** The same for payloads up to a size. */
    ghost predicate LawfulWithin(max: nat) {
      forall v, b | serialize(v) == Ok(b) && |b| <= max :: parse(b) == Ok(v)
    }
  }

  /** `limitSerialization`. */
  function LimitSerialization<T(!new)>(s: Serialization<T>, writeMax: nat, readMax: nat): Serialization<T> {
    Serialization(
      v =>
        match s.serialize(v)
        case Throws(r) => Throws(r)
        case Ok(b) => if |b| > writeMax then Throws(WriteError(|b|, writeMax)) else Ok(b),
      b => if |b| > readMax then Throws(SizeError(|b|, readMax)) else s.parse(b))
  }

  /** The sender's limit on writing and the reader's limit on reading leave the format lawful up to the
      reader's limit. */
  lemma LimitsKeepLaw<T(!new)>(s: Serialization<T>, writeMax: nat, readMax: nat)
    requires s.Lawful()
    ensures LimitSerialization(s, writeMax, readMax).LawfulWithin(readMax)
    ensures forall v, b | LimitSerialization(s, writeMax, readMax).serialize(v) == Ok(b) :: |b| <= writeMax
  {
    var l := LimitSerialization(s, writeMax, readMax);
    forall v, b | l.serialize(v) == Ok(b) ensures s.serialize(v) == Ok(b) && |b| <= writeMax {
    }
  }

  /** A value is written iff its payload is within the limit, and one that is too large is never parsed. Both are
      ResourceExhausted (8). */
  lemma LimitsExactly<T(!new)>(s: Serialization<T>, writeMax: nat, readMax: nat, v: T, b: seq<byte>)
    ensures var l := LimitSerialization(s, writeMax, readMax);
      && (l.serialize(v) == Ok(b) <==> s.serialize(v) == Ok(b) && |b| <= writeMax)
      && (s.serialize(v) == Ok(b) && |b| > writeMax ==>
            l.serialize(v) == Throws(Dubbo(DubboError(8, "message size " + Decimal(|b|)
              + " is larger than configured writeMaxBytes " + Decimal(writeMax), map[], []))))
      && (s.serialize(v).Throws? ==> l.serialize(v) == s.serialize(v))
      && l.parse(b) == if |b| <= readMax then s.parse(b)
         else Throws(Dubbo(DubboError(8, "message size " + Decimal(|b|)
                + " is larger than configured readMaxBytes " + Decimal(readMax), map[], [])))
  {
  }

  /** A parsed envelope: a message, or the end of the stream. */
  datatype Frame<+T, +E> = Message(value: T) | End(end: E)

  /** `transformSerializeEnvelope` without an end flag. */
  function SerializeEnvelope<T(!new)>(v: T, s: Serialization<T>): Try<Envelope> {
    var data :- s.serialize(v);
    Ok(Envelope(0, data))
  }

  /** `transformParseEnvelope` with an end flag and an end serialization. */
  function ParseEnvelope<T(!new), E>(
          e: Envelope, s: Serialization<T>, endFlag: nat, parseEnd: seq<byte> -> Try<E>): Try<Frame<T, E>>
    requires endFlag > 0
  {
    if HasFlag(e.flags, endFlag) then
      var v :- parseEnd(e.data);
      Ok(End(v))
    else
      var v :- s.parse(e.data);
      Ok(Message(v))
  }

  /** The argument of the catch-finally callback: `None` is `undefined`. */
  function Caught(end: Outcome): Option<Reason> {
    if end.Failed? && !end.reason.Undefined? then Some(end.reason) else None
  }

  /** `transformCatchFinally`: pass the values on, then add the callback's value, or fail if it throws. */
  function CatchFinally<T>(s: Stream<T>, last: Option<Reason> -> Try<T>): Stream<T> {
    match last(Caught(s.end))
    case Ok(v) => Stream(s.values + [v], Done)
    case Throws(r) => Stream(s.values, Failed(r))
  }

  method TransformCatchFinally<T>(s: Stream<T>, last: Option<Reason> -> Try<T>) returns (r: Stream<T>)
    ensures r == CatchFinally(s, last)
  {
    var err: Option<Reason> := None;
    var yielded := [];
    var i := 0;
    while true
      invariant i <= |s.values| && yielded == s.values[..i] && err == None
      decreases |s.values| - i
    {
      if i == |s.values| {
        if s.end.Failed? && !s.end.reason.Undefined? {
          err := Some(s.end.reason);
        }
        break;
      }
      yielded := yielded + [s.values[i]];
      i := i + 1;
    }
    var caught := last(err);
    if caught.Throws? {
      return Stream(yielded, Failed(caught.reason));
    }
    return Stream(yielded + [caught.value], Done);
  }
}

/** The client's end-of-stream automata (packages/dubbo/src/protocol-triple/transport.ts and
    packages/dubbo/src/protocol-grpc-web/transport.ts). */
module Readers {
  import opened Common
  import opened Errors
  import opened Streams
  import opened Transforms

  /** What differs between the protocols: the error an end frame carries and the three violations. */
  datatype Dialect<!E> = Dialect(errorOf: E -> Option<Reason>, extraEnd: Reason, extraMessage: Reason,
          missingEnd: Reason)

  /** Messages yielded, how the iteration ends, and the end frame whose fields became the trailer. */
  datatype Received<+T, +E> = Received(values: seq<T>, outcome: Outcome, trailer: Option<E>)

  function ReadFrames<T, E>(frames: seq<Frame<T, E>>, upstream: Outcome, seen: Option<E>, d: Dialect<E>): Received<T, E>
    decreases |frames|
  {
    if frames == [] then
      Received([], if upstream.Failed? then upstream else if seen.None? then Failed(d.missingEnd) else Done, seen)
    else
      match frames[0]
      case End(e) =>
        if seen.Some? then Received([], Failed(d.extraEnd), seen)
        else if d.errorOf(e).Some? then Received([], Failed(d.errorOf(e).value), None)
        else ReadFrames(frames[1..], upstream, Some(e), d)
      case Message(v) =>
        if seen.Some? then Received([], Failed(d.extraMessage), seen)
        else
          var rest := ReadFrames(frames[1..], upstream, seen, d);
          rest.(values := [v] + rest.values)
  }

  /** The messages before the first end frame. */
  function Messages<T, E>(frames: seq<Frame<T, E>>): seq<T> {
    if frames == [] || frames[0].End? then [] else [frames[0].value] + Messages(frames[1..])
  }

  /** Messages only, then one end frame without an error. */
  predicate WellFormed<T, E>(frames: seq<Frame<T, E>>, d: Dialect<E>) {
    && frames != []
    && frames[|frames| - 1].End? && d.errorOf(frames[|frames| - 1].end).None?
    && forall i | 0 <= i < |frames| - 1 :: frames[i].Message?
  }

  /** After the end frame nothing is yielded, and only the end of the input completes the stream. */
  lemma AfterEnd<T, E>(frames: seq<Frame<T, E>>, upstream: Outcome, e: E, d: Dialect<E>)
    ensures var r := ReadFrames(frames, upstream, Some(e), d);
      r.values == [] && r.trailer == Some(e) && (r.outcome.Done? <==> frames == [] && upstream.Done?)
  {
  }

  /** The language: the reader completes iff the input ends normally after messages and exactly one
      error-free end frame, whose fields are the trailer. In every case the messages before the first
      end frame, and no others, are yielded. */
  lemma {:induction false} ReaderAccepts<T, E>(frames: seq<Frame<T, E>>, upstream: Outcome, d: Dialect<E>)
    ensures var r := ReadFrames(frames, upstream, None, d);
      && r.values == Messages(frames)
      && (r.outcome.Done? <==> upstream.Done? && WellFormed(frames, d))
      && (r.outcome.Done? ==> r.trailer == Some(frames[|frames| - 1].end))
    decreases |frames|
  {
    if frames != [] {
      var rest := frames[1..];
      if frames[0].End? {
        AfterEnd(rest, upstream, frames[0].end, d);
      } else {
        ReaderAccepts(rest, upstream, d);
        WellFormedTail(frames, d);
      }
    }
  }

  /** Which error it is otherwise. Without an end frame: the input's, or that the end is missing. At the first end
      frame: the error it carries. After it: that a second end frame or a message follows, or the input's. */
  lemma {:induction false} ReaderOutcome<T, E>(frames: seq<Frame<T, E>>, upstream: Outcome, d: Dialect<E>)
    ensures var r, n := ReadFrames(frames, upstream, None, d), |Messages(frames)|;
      if n >= |frames| then
        n == |frames| && r.outcome == (if upstream.Failed? then upstream else Failed(d.missingEnd)) && r.trailer == None
      else
        && frames[n].End?
        && var e := frames[n].end;
        if d.errorOf(e).Some? then r.outcome == Failed(d.errorOf(e).value) && r.trailer == None
        else
          && r.trailer == Some(e)
          && r.outcome ==
            if |frames| == n + 1 then upstream
            else if frames[n + 1].End? then Failed(d.extraEnd) else Failed(d.extraMessage)
    decreases |frames|
  {
    if frames != [] && frames[0].Message? {
      ReaderOutcome(frames[1..], upstream, d);
      var n := |Messages(frames[1..])|;
      assert n < |frames[1..]| ==> frames[1..][n] == frames[n + 1];
      assert n + 1 < |frames[1..]| ==> frames[1..][n + 1] == frames[n + 2];
    }
  }

  lemma WellFormedTail<T, E>(frames: seq<Frame<T, E>>, d: Dialect<E>)
    requires frames != [] && frames[0].Message?
    ensures WellFormed(frames, d) <==> WellFormed(frames[1..], d)
    ensures frames[1..] != [] ==> frames[|frames| - 1] == frames[1..][|frames[1..]| - 1]
  {
    var rest := frames[1..];
    if WellFormed(rest, d) {
      forall i | 0 <= i < |frames| - 1 ensures frames[i].Message? {
        if i > 0 {
          assert frames[i] == rest[i - 1];
        }
      }
    }
  }

  /** Messages followed by one end frame, read in full. */
  lemma {:induction false} ReadWhole<T, E>(values: seq<T>, e: E, frames: seq<Frame<T, E>>, d: Dialect<E>)
    requires |frames| == |values| + 1 && frames[|values|] == End(e)
    requires forall i | 0 <= i < |values| :: frames[i] == Message(values[i])
    ensures ReadFrames(frames, Done, None, d) ==
      if d.errorOf(e).Some? then Received(values, Failed(d.errorOf(e).value), None) else Received(values, Done, Some(e))
    decreases |values|
  {
    if values == [] {
      assert frames[1..] == [];
    } else {
      ReadWhole(values[1..], e, frames[1..], d);
      assert values == [values[0]] + values[1..];
    }
  }

  /** Messages without an end frame never complete. */
  lemma {:induction false} ReadUnended<T, E>(values: seq<T>, frames: seq<Frame<T, E>>, upstream: Outcome, d: Dialect<E>)
    requires |frames| == |values|
    requires forall i | 0 <= i < |values| :: frames[i] == Message(values[i])
    ensures ReadFrames(frames, upstream, None, d) ==
      Received(values, if upstream.Failed? then upstream else Failed(d.missingEnd), None)
    decreases |values|
  {
    if values != [] {
      ReadUnended(values[1..], frames[1..], upstream, d);
      assert values == [values[0]] + values[1..];
    }
  }

  /** The reader loop of both transports: `endStreamReceived`, and the fields set on `res.trailer`. */
  method ReaderLoop<T, E>(frames: seq<Frame<T, E>>, upstream: Outcome, d: Dialect<E>) returns (r: Received<T, E>)
    ensures r == ReadFrames(frames, upstream, None, d)
  {
    var received: Option<E> := None;
    var yielded: seq<T> := [];
    assert frames[0..] == frames;
    for i := 0 to |frames|
      invariant ReadFrames(frames, upstream, None, d) ==
        Yielding(yielded, ReadFrames(frames[i..], upstream, received, d))
    {
      assert frames[i..][1..] == frames[i + 1..];
      if frames[i].End? {
        if received.Some? {
          return Received(yielded, Failed(d.extraEnd), received);
        }
        var error := d.errorOf(frames[i].end);
        if error.Some? {
          return Received(yielded, Failed(error.value), None);
        }
        received := Some(frames[i].end);
        continue;
      }
      if received.Some? {
        return Received(yielded, Failed(d.extraMessage), received);
      }
      YieldingSnoc(yielded, frames[i].value, ReadFrames(frames[i + 1..], upstream, received, d));
      yielded := yielded + [frames[i].value];
    }
    if upstream.Failed? {
      return Received(yielded, upstream, received);
    }
    if received.None? {
      return Received(yielded, Failed(d.missingEnd), received);
    }
    return Received(yielded, Done, received);
  }

  function Yielding<T, E>(values: seq<T>, r: Received<T, E>): Received<T, E> {
    r.(values := values + r.values)
  }

  lemma YieldingSnoc<T, E>(values: seq<T>, v: T, r: Received<T, E>)
    ensures Yielding(values + [v], r) == Yielding(values, r.(values := [v] + r.values))
  {
    Associative(values, [v], r.values);
  }

  /** The gRPC-Web reader. With a grpc-status found in the response headers (a trailers-only response)
      it looks at the first result only. */
  method GrpcWebReader<T, E>(
          frames: seq<Frame<T, E>>, upstream: Outcome, foundStatus: bool, extraData: Reason, d: Dialect<E>)
    returns (r: Received<T, E>)
    ensures !foundStatus ==> r == ReadFrames(frames, upstream, None, d)
    ensures foundStatus ==> r == Received([], if frames != [] then Failed(extraData) else upstream, None)
  {
    if foundStatus {
      return Received([], if frames != [] then Failed(extraData) else upstream, None);
    }
    r := ReaderLoop(frames, upstream, d);
  }
}

/** Frames over the wire: compressed, encoded, re-chunked, split and decompressed. */
module Wire {
  import opened Common
  import opened Errors
  import opened Streams
  import opened Envelopes
  import opened LimitIo
  import opened Splitter

  /** Compression settings of one direction. */
  datatype Coding = Coding(compression: Option<Compression>, minBytes: nat, readMaxBytes: nat) {
    ghost predicate Lawful() {
      compression.Some? ==> compression.value.Lawful()
    }
  }

  /** A frame the sender produces: one byte of flags, not compressed yet. */
  predicate Plain(e: Envelope) {
    e.flags < 256 && !HasFlag(e.flags, COMPRESSED_FLAG)
  }

  /** Compressing it, if it is to be compressed, does not fail. */
  predicate Sendable(e: Envelope, c: Coding) {
    Plain(e) && EnvelopeCompress(e, c.compression, c.minBytes).Ok?
  }

  predicate AllSendable(frames: seq<Envelope>, c: Coding) {
    forall i | 0 <= i < |frames| :: Sendable(frames[i], c)
  }

  function Compress(e: Envelope, c: Coding): (z: Envelope)
    requires Sendable(e, c)
  {
    EnvelopeCompress(e, c.compression, c.minBytes).value
  }

  function CompressAll(frames: seq<Envelope>, c: Coding): (z: seq<Envelope>)
    requires AllSendable(frames, c)
    ensures |z| == |frames|
  {
    seq(|frames|, i requires 0 <= i < |frames| => Compress(frames[i], c))
  }

  /** The payload on the wire and the payload of the frame are both within the reader's limit. */
  predicate Fits(e: Envelope, c: Coding)
    requires Sendable(e, c)
  {
    |Compress(e, c).data| <= c.readMaxBytes && |e.data| <= c.readMaxBytes
  }

  /** `transformCompressEnvelope` then `transformJoinEnvelopes`: the chunks sent. */
  function Sent(frames: Stream<Envelope>, c: Coding): Stream<seq<byte>> {
    MapStream(MapStream(frames, (e: Envelope) => EnvelopeCompress(e, c.compression, c.minBytes)),
      (e: Envelope) => Ok(Encode(e)))
  }

  /** `transformSplitEnvelope` then `transformDecompressEnvelope`: the frames received. */
  function Arrived(bytes: seq<byte>, upstream: Outcome, c: Coding): Stream<Envelope> {
    MapStream(Split(bytes, upstream, c.readMaxBytes),
      (e: Envelope) => EnvelopeDecompress(e, c.compression, c.readMaxBytes))
  }

  /** The chunks sent are the encodings of the compressed frames. */
  lemma SentChunks(frames: seq<Envelope>, c: Coding)
    requires AllSendable(frames, c)
    ensures Sent(Stream(frames, Done), c).end == Done && |Sent(Stream(frames, Done), c).values| == |frames|
    ensures Concat(Sent(Stream(frames, Done), c).values) == EncodeAll(CompressAll(frames, c))
  {
    var z := CompressAll(frames, c);
    var compressed := Stream(z, Done);
    MapStreamOk(Stream(frames, Done), (e: Envelope) => EnvelopeCompress(e, c.compression, c.minBytes), z);
    var chunks := seq(|z|, i requires 0 <= i < |z| => Encode(z[i]));
    MapStreamOk(compressed, (e: Envelope) => Ok(Encode(e)), chunks);
    ConcatEncoded(z, chunks);
  }

  /** The body ends as the frames do iff every frame can be compressed; otherwise it fails at the first one
      that cannot, after the chunks of those before it. */
  lemma SentFully(frames: Stream<Envelope>, c: Coding)
    requires forall i | 0 <= i < |frames.values| :: Plain(frames.values[i])
    ensures var n := |Sent(frames, c).values|;
      && n <= |frames.values| && AllSendable(frames.values[..n], c)
      && Concat(Sent(frames, c).values) == EncodeAll(CompressAll(frames.values[..n], c))
      && (if AllSendable(frames.values, c) then n == |frames.values| && Sent(frames, c).end == frames.end
          else n < |frames.values| && !Sendable(frames.values[n], c) && Sent(frames, c).end.Failed?)
  {
    hide EnvelopeCompress, HasFlag;
    var compress := (e: Envelope) => EnvelopeCompress(e, c.compression, c.minBytes);
    MapStreamPrefix(frames, compress);
    var z := MapStream(frames, compress);
    var n := |z.values|;
    assert CompressAll(frames.values[..n], c) == z.values;
    var chunks := seq(n, i requires 0 <= i < n => Encode(z.values[i]));
    MapStreamOk(z, (e: Envelope) => Ok(Encode(e)), chunks);
    ConcatEncoded(z.values, chunks);
  }

  lemma {:induction false} ConcatEncoded(envs: seq<Envelope>, chunks: seq<seq<byte>>)
    requires |chunks| == |envs| && forall i | 0 <= i < |envs| :: chunks[i] == Encode(envs[i])
    ensures Concat(chunks) == EncodeAll(envs)
  {
    if envs != [] {
      ConcatEncoded(envs[1..], chunks[1..]);
    }
  }

  lemma CompressFacts(e: Envelope, c: Coding)
    requires Sendable(e, c) && c.Lawful()
    ensures Compress(e, c).flags < 256
    ensures Fits(e, c) ==> EnvelopeDecompress(Compress(e, c), c.compression, c.readMaxBytes) == Ok(e)
    ensures |Compress(e, c).data| <= c.readMaxBytes < |e.data| ==>
      EnvelopeDecompress(Compress(e, c), c.compression, c.readMaxBytes).Throws?
  {
    CompressDecompress(e, c.compression, c.minBytes, c.readMaxBytes);
    if c.compression.Some? && |e.data| >= c.minBytes {
      assert var r := c.compression.value.decompress(c.compression.value.compress(e.data).value, c.readMaxBytes);
        if |e.data| <= c.readMaxBytes then r == Ok(e.data) else r.Throws?;
    }
  }

  /** Frames that fit come back unchanged, for every way of cutting the bytes into chunks and however the
      connection ends. */
  lemma WireRoundTrip(frames: seq<Envelope>, c: Coding, chunks: seq<seq<byte>>, upstream: Outcome)
    requires AllSendable(frames, c) && c.Lawful() && c.readMaxBytes < TWO_TO_THE_32
    requires Concat(chunks) == Concat(Sent(Stream(frames, Done), c).values)
    requires forall i | 0 <= i < |frames| :: Fits(frames[i], c)
    ensures Arrived(Concat(chunks), upstream, c) == Stream(frames, upstream)
  {
    hide EnvelopeCompress, EnvelopeDecompress, HasFlag, ScanBytes, EncodeAll;
    SentChunks(frames, c);
    var z := CompressAll(frames, c);
    forall i | 0 <= i < |z|
      ensures Framable(z[i]) && |z[i].data| <= c.readMaxBytes
      ensures EnvelopeDecompress(z[i], c.compression, c.readMaxBytes) == Ok(frames[i])
    {
      CompressFacts(frames[i], c);
      assert Fits(frames[i], c);
    }
    AcceptsExactlyEncodings(Concat(chunks), c.readMaxBytes, z);
    MapStreamOk(Stream(z, upstream), (e: Envelope) => EnvelopeDecompress(e, c.compression, c.readMaxBytes), frames);
  }

  /** The first frame that does not fit ends the stream with an error; those before it arrive. */
  lemma WireStops(frames: seq<Envelope>, k: nat, c: Coding, chunks: seq<seq<byte>>)
    requires AllSendable(frames, c) && c.Lawful() && c.readMaxBytes < TWO_TO_THE_32
    requires Concat(chunks) == Concat(Sent(Stream(frames, Done), c).values)
    requires forall i | 0 <= i < |frames| :: |CompressAll(frames, c)[i].data| < TWO_TO_THE_32
    requires k < |frames| && !Fits(frames[k], c) && forall i | 0 <= i < k :: Fits(frames[i], c)
    ensures Arrived(Concat(chunks), Done, c).values == frames[..k]
    ensures Arrived(Concat(chunks), Done, c).end.Failed?
  {
    hide EnvelopeCompress, EnvelopeDecompress, HasFlag;
    SentChunks(frames, c);
    var z := CompressAll(frames, c);
    forall i | 0 <= i < |z| ensures Framable(z[i]) {
      CompressFacts(frames[i], c);
    }
    forall i | 0 <= i < k
      ensures |z[i].data| <= c.readMaxBytes
        && EnvelopeDecompress(z[i], c.compression, c.readMaxBytes) == Ok(frames[..k][i])
    {
      CompressFacts(frames[i], c);
      assert Fits(frames[i], c);
    }
    CompressFacts(frames[k], c);
    StopsAt(z, frames[..k], k, c, Concat(chunks));
  }

  lemma StopsAt(z: seq<Envelope>, image: seq<Envelope>, k: nat, c: Coding, bytes: seq<byte>)
    requires |image| == k < |z| && bytes == EncodeAll(z)
    requires forall i | 0 <= i < |z| :: Framable(z[i])
    requires forall i | 0 <= i < k ::
      |z[i].data| <= c.readMaxBytes && EnvelopeDecompress(z[i], c.compression, c.readMaxBytes) == Ok(image[i])
    requires |z[k].data| > c.readMaxBytes || EnvelopeDecompress(z[k], c.compression, c.readMaxBytes).Throws?
    ensures Arrived(bytes, Done, c).values == image && Arrived(bytes, Done, c).end.Failed?
  {
    hide EnvelopeDecompress, HasFlag, ScanBytes, EncodeAll, SizeError, Incomplete;
    if |z[k].data| > c.readMaxBytes {
      StopsOversized(z, image, k, c, bytes);
    } else {
      ScanFirst(z, k + 1, c.readMaxBytes);
      var split := Split(bytes, Done, c.readMaxBytes);
      var decompress := (e: Envelope) => EnvelopeDecompress(e, c.compression, c.readMaxBytes);
      assert forall i | 0 <= i < k + 1 :: split.values[i] == z[..k + 1][i] == z[i];
      MapStreamThrows(split, decompress, image, decompress(z[k]).reason);
    }
  }

  lemma StopsOversized(z: seq<Envelope>, image: seq<Envelope>, k: nat, c: Coding, bytes: seq<byte>)
    requires |image| == k < |z| && bytes == EncodeAll(z)
    requires forall i | 0 <= i < |z| :: Framable(z[i])
    requires forall i | 0 <= i < k ::
      |z[i].data| <= c.readMaxBytes && EnvelopeDecompress(z[i], c.compression, c.readMaxBytes) == Ok(image[i])
    requires |z[k].data| > c.readMaxBytes
    ensures Arrived(bytes, Done, c).values == image && Arrived(bytes, Done, c).end.Failed?
  {
    hide EnvelopeDecompress, HasFlag, ScanBytes, EncodeAll, SizeError, Incomplete;
    ScanOversized(z, k, c.readMaxBytes);
    var split := Split(bytes, Done, c.readMaxBytes);
    assert split.values == z[..k] && split.end.Failed?;
    MapStreamOk(split, (e: Envelope) => EnvelopeDecompress(e, c.compression, c.readMaxBytes), image);
  }

  /** The scan yields the first envelopes that fit, whatever comes after them. */
  lemma ScanFirst(z: seq<Envelope>, n: nat, max: nat)
    requires n <= |z|
    requires forall i | 0 <= i < n :: Framable(z[i]) && |z[i].data| <= max
    ensures z[..n] <= ScanBytes(EncodeAll(z), max).envelopes
  {
    EncodeAllSplit(z[..n], z[n..]);
    assert z == z[..n] + z[n..];
    ScanEncoded(z[..n], EncodeAll(z[n..]), max);
  }

  /** Of a truncated body fewer frames arrive, all of them unchanged. */
  lemma WireTruncated(frames: seq<Envelope>, c: Coding, bytes: seq<byte>, upstream: Outcome)
    requires AllSendable(frames, c) && c.Lawful() && c.readMaxBytes < TWO_TO_THE_32
    requires forall i | 0 <= i < |frames| :: Fits(frames[i], c)
    requires bytes < Concat(Sent(Stream(frames, Done), c).values)
    ensures var a := Arrived(bytes, upstream, c);
      |a.values| < |frames| && a.values == frames[..|a.values|]
  {
    hide EnvelopeCompress, EnvelopeDecompress, HasFlag, ScanBytes, EncodeAll;
    SentChunks(frames, c);
    var z := CompressAll(frames, c);
    forall i | 0 <= i < |z|
      ensures Framable(z[i]) && |z[i].data| <= c.readMaxBytes
      ensures EnvelopeDecompress(z[i], c.compression, c.readMaxBytes) == Ok(frames[i])
    {
      CompressFacts(frames[i], c);
      assert Fits(frames[i], c);
    }
    ScanTruncated(z, bytes, c.readMaxBytes);
    var split := Split(bytes, upstream, c.readMaxBytes);
    var n := |split.values|;
    MapStreamOk(split, (e: Envelope) => EnvelopeDecompress(e, c.compression, c.readMaxBytes), frames[..n]);
  }
}
