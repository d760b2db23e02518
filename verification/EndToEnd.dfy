/** From the outputs of an implementation to what the caller of a streaming method sees, for any
    protocol that ends a stream with one flagged frame. */
module EndToEnd {
  import opened Common
  import opened Errors
  import opened Streams
  import opened Envelopes
  import opened Splitter
  import opened Transforms
  import opened Readers
  import opened Wire

  /** The server's frames: the serialized outputs, then the end frame for how they ended. */
  function ServerFrames<T(!new)>(output: Stream<T>, s: Serialization<T>,
          last: Option<Reason> -> Try<Envelope>): Stream<Envelope>
  {
    CatchFinally(MapStream(output, (v: T) => SerializeEnvelope(v, s)), last)
  }

  /** The client's pipeline on the bytes of a response body. */
  function ClientReads<T(!new), E>(bytes: seq<byte>, upstream: Outcome, s: Serialization<T>, c: Coding,
                                   endFlag: nat, parseEnd: seq<byte> -> Try<E>, d: Dialect<E>): Received<T, E>
    requires endFlag > 0
  {
    var frames := MapStream(Arrived(bytes, upstream, c), (e: Envelope) => ParseEnvelope(e, s, endFlag, parseEnd));
    ReadFrames(frames.values, frames.end, None, d)
  }

  /** The error a handler puts in the end frame: a `DubboError` as it is, anything else as Internal. */
  function ErrorToSend(caught: Option<Reason>): Option<DubboError> {
    match caught
    case None => None
    case Some(Dubbo(e)) => Some(e)
    case Some(_) => Some(NewError("internal error", INTERNAL))
  }

  /** A protocol error raised by a client. */
  function Violation(message: string): Reason {
    Dubbo(NewError(message, INVALID_ARGUMENT))
  }

  /** How many outputs are serialized before serialization fails or the implementation ends. */
  function SerializedCount<T(!new)>(output: Stream<T>, s: Serialization<T>): nat {
    |MapStream(output, (v: T) => SerializeEnvelope(v, s)).values|
  }

  /** How the serialized outputs end: as the implementation did, or with the serialization error. */
  function SerializedEnd<T(!new)>(output: Stream<T>, s: Serialization<T>): Outcome {
    MapStream(output, (v: T) => SerializeEnvelope(v, s)).end
  }

  /** The catch-finally callback's frame. */
  function LastFrame<T(!new)>(output: Stream<T>, s: Serialization<T>,
          last: Option<Reason> -> Try<Envelope>): Try<Envelope>
  {
    last(Caught(SerializedEnd(output, s)))
  }

  /** The frames of a server, one by one. */
  lemma ServerFramesShape<T(!new)>(output: Stream<T>, s: Serialization<T>, last: Option<Reason> -> Try<Envelope>)
    ensures var n := SerializedCount(output, s);
      var f := ServerFrames(output, s, last);
      && n <= |output.values|
      && (match LastFrame(output, s, last)
          case Ok(frame) => |f.values| == n + 1 && f.values[n] == frame && f.end == Done
          case Throws(r) => |f.values| == n && f.end == Failed(r))
      && (forall i | 0 <= i < n :: f.values[i].flags == 0 && s.serialize(output.values[i]) == Ok(f.values[i].data))
      && (n < |output.values| ==> s.serialize(output.values[n]).Throws?)
      && (n == |output.values| ==> SerializedEnd(output, s) == output.end)
      && (forall i | 0 <= i < n :: Plain(f.values[i]))
  {
    var f := (v: T) => SerializeEnvelope(v, s);
    MapStreamPrefix(output, f);
    var m := MapStream(output, f);
    forall i | 0 <= i < |m.values|
      ensures m.values[i].flags == 0 && s.serialize(output.values[i]) == Ok(m.values[i].data)
    {
      assert f(output.values[i]) == Ok(m.values[i]);
    }
  }

  /** A handler closes its stream properly iff the callback's frame can be made and every frame compressed: then
      the body ends without an error and holds exactly one end frame, last. Otherwise it holds none. */
  lemma ClosesOnce<T(!new)>(output: Stream<T>, s: Serialization<T>, last: Option<Reason> -> Try<Envelope>, c: Coding,
          endFlag: nat)
    requires endFlag in {END_STREAM_FLAG, TRAILER_FLAG}
    requires LastFrame(output, s, last).Ok? ==> LastFrame(output, s, last).value.flags == endFlag
    ensures var f := ServerFrames(output, s, last);
      var body := Sent(f, c);
      && (body.end == Done <==> LastFrame(output, s, last).Ok? && AllSendable(f.values, c))
      && |body.values| <= |f.values|
      && AllSendable(f.values[..|body.values|], c)
      && Concat(body.values) == EncodeAll(CompressAll(f.values[..|body.values|], c))
      && (forall i | 0 <= i < |body.values| ::
            HasFlag(f.values[i].flags, endFlag) <==> body.end == Done && i == |body.values| - 1)
      && (body.end == Done ==> |body.values| > 0)
  {
    hide EnvelopeCompress, EncodeAll, Sent;
    var f := ServerFrames(output, s, last);
    ServerFramesShape(output, s, last);
    assert forall i | 0 <= i < |f.values| :: Plain(f.values[i]);
    SentFully(f, c);
  }

  lemma MessageParsed<T(!new), E>(v: T, frame: Envelope, s: Serialization<T>, max: nat, endFlag: nat,
                                  parseEnd: seq<byte> -> Try<E>)
    requires s.LawfulWithin(max) && endFlag in {END_STREAM_FLAG, TRAILER_FLAG}
    requires frame.flags == 0 && s.serialize(v) == Ok(frame.data) && |frame.data| <= max
    ensures ParseEnvelope(frame, s, endFlag, parseEnd) == Ok(Message(v))
  {
    assert !HasFlag(0, endFlag);
    assert s.parse(frame.data) == Ok(v);
  }

  /** What the client makes of frames that arrive unchanged. */
  lemma FramesRead<T(!new), E>(values: seq<T>, frames: seq<Envelope>, s: Serialization<T>, max: nat,
                               endFlag: nat, parseEnd: seq<byte> -> Try<E>, d: Dialect<E>)
    requires s.LawfulWithin(max) && endFlag in {END_STREAM_FLAG, TRAILER_FLAG}
    requires |frames| == |values| + 1 && frames[|values|].flags == endFlag
    requires forall i | 0 <= i < |values| ::
      frames[i].flags == 0 && s.serialize(values[i]) == Ok(frames[i].data) && |frames[i].data| <= max
    ensures var p := MapStream(Stream(frames, Done), (e: Envelope) => ParseEnvelope(e, s, endFlag, parseEnd));
      ReadFrames(p.values, p.end, None, d) == EndedBy(values, parseEnd(frames[|values|].data), d)
  {
    var parse := (e: Envelope) => ParseEnvelope(e, s, endFlag, parseEnd);
    var messages := seq(|values|, i requires 0 <= i < |values| => Message(values[i]));
    forall i | 0 <= i < |values| ensures parse(frames[i]) == Ok(messages[i]) {
      MessageParsed(values[i], frames[i], s, max, endFlag, parseEnd);
    }
    assert HasFlag(endFlag, endFlag);
    match parseEnd(frames[|values|].data)
    case Ok(e) =>
      var all := messages + [End(e)];
      MapStreamOk(Stream(frames, Done), parse, all);
      ReadWhole(values, e, all, d);
    case Throws(r) =>
      MapStreamThrows(Stream(frames, Done), parse, messages, r);
      ReadUnended(values, messages, Failed(r), d);
  }

  lemma FitsWithin(frames: seq<Envelope>, c: Coding, n: nat)
    requires n <= |frames| && forall i | 0 <= i < n :: Sendable(frames[i], c) && Fits(frames[i], c)
    ensures forall i | 0 <= i < n :: |frames[i].data| <= c.readMaxBytes
  {
  }

  /** Every frame can be sent and fits the reader's limit. */
  ghost predicate BodyArrives<T(!new)>(output: Stream<T>, s: Serialization<T>, last: Option<Reason> -> Try<Envelope>,
          c: Coding)
  {
    var f := ServerFrames(output, s, last);
    forall i | 0 <= i < |f.values| :: Sendable(f.values[i], c) && Fits(f.values[i], c)
  }

  /** The messages, and the completion or error the parsed end frame stands for. */
  function EndedBy<T, E>(values: seq<T>, end: Try<E>, d: Dialect<E>): Received<T, E> {
    match end
    case Throws(r) => Received(values, Failed(r), None)
    case Ok(e) =>
      if d.errorOf(e).Some? then Received(values, Failed(d.errorOf(e).value), None) else Received(values, Done, Some(e))
  }

  /** End to end: whatever the chunking of the response, if every frame fits the reader's limit, the
      client yields the serialized outputs in order and ends as the parsed end frame says. */
  lemma OutputsArrive<T(!new), E>(
          output: Stream<T>, s: Serialization<T>, last: Option<Reason> -> Try<Envelope>, c: Coding,
          endFlag: nat, parseEnd: seq<byte> -> Try<E>, d: Dialect<E>, chunks: seq<seq<byte>>)
    requires s.LawfulWithin(c.readMaxBytes) && c.Lawful() && c.readMaxBytes < TWO_TO_THE_32
      && endFlag in {END_STREAM_FLAG, TRAILER_FLAG}
    requires LastFrame(output, s, last).Ok? && LastFrame(output, s, last).value.flags == endFlag
    requires BodyArrives(output, s, last, c)
    requires Concat(chunks) == Concat(Sent(ServerFrames(output, s, last), c).values)
    ensures SerializedCount(output, s) <= |output.values|
    ensures ClientReads(Concat(chunks), Done, s, c, endFlag, parseEnd, d) ==
      EndedBy(output.values[..SerializedCount(output, s)], parseEnd(LastFrame(output, s, last).value.data), d)
  {
    hide EnvelopeCompress, ReadFrames, ParseEnvelope, Sent, Arrived, Fits;
    var f := ServerFrames(output, s, last);
    ServerFramesShape(output, s, last);
    WireRoundTrip(f.values, c, chunks, Done);
    FitsWithin(f.values, c, SerializedCount(output, s));
    FramesRead(output.values[..SerializedCount(output, s)], f.values, s, c.readMaxBytes, endFlag, parseEnd, d);
  }

  /** A body that fails is always detected: if the callback throws or a frame cannot be compressed, the client
      yields the outputs sent before, however the connection ends, and fails. */
  lemma MissingEndIsDetected<T(!new), E>(
          output: Stream<T>, s: Serialization<T>, last: Option<Reason> -> Try<Envelope>, c: Coding,
          endFlag: nat, parseEnd: seq<byte> -> Try<E>, d: Dialect<E>, chunks: seq<seq<byte>>, upstream: Outcome)
    requires s.LawfulWithin(c.readMaxBytes) && c.Lawful() && c.readMaxBytes < TWO_TO_THE_32
      && endFlag in {END_STREAM_FLAG, TRAILER_FLAG}
    requires LastFrame(output, s, last).Ok? ==> LastFrame(output, s, last).value.flags == endFlag
    requires var f := ServerFrames(output, s, last);
      var body := Sent(f, c);
      && body.end.Failed? && |body.values| <= |f.values| && Concat(chunks) == Concat(body.values)
      && forall i | 0 <= i < |body.values| :: Sendable(f.values[i], c) && Fits(f.values[i], c)
    ensures var n := |Sent(ServerFrames(output, s, last), c).values|;
      && n <= |output.values|
      && ClientReads(Concat(chunks), upstream, s, c, endFlag, parseEnd, d) ==
        Received(output.values[..n], if upstream.Failed? then upstream else Failed(d.missingEnd), None)
  {
    hide EnvelopeCompress, ReadFrames, ParseEnvelope, Sent, Arrived, Fits, EncodeAll;
    var f := ServerFrames(output, s, last);
    var n := |Sent(f, c).values|;
    ServerFramesShape(output, s, last);
    ClosesOnce(output, s, last, c, endFlag);
    SentCount(output, s, last, c, endFlag);
    var frames := f.values[..n];
    SentChunks(frames, c);
    WireRoundTrip(frames, c, chunks, upstream);
    FitsWithin(frames, c, n);
    CutFramesRead(output.values[..n], Stream(frames, upstream), s, c.readMaxBytes, endFlag, parseEnd, d);
  }

  lemma SentCount<T(!new)>(
          output: Stream<T>, s: Serialization<T>, last: Option<Reason> -> Try<Envelope>, c: Coding, endFlag: nat)
    requires endFlag in {END_STREAM_FLAG, TRAILER_FLAG}
    requires LastFrame(output, s, last).Ok? ==> LastFrame(output, s, last).value.flags == endFlag
    requires Sent(ServerFrames(output, s, last), c).end.Failed?
    ensures |Sent(ServerFrames(output, s, last), c).values| <= SerializedCount(output, s) <= |output.values|
  {
    hide EnvelopeCompress, EncodeAll, Sent;
    var f := ServerFrames(output, s, last);
    ServerFramesShape(output, s, last);
    assert forall i | 0 <= i < |f.values| :: Plain(f.values[i]);
    SentFully(f, c);
  }

  lemma SentValues(f: Stream<Envelope>, c: Coding)
    requires AllSendable(f.values, c)
    ensures Concat(Sent(f, c).values) == Concat(Sent(Stream(f.values, Done), c).values)
  {
    hide EnvelopeCompress, EncodeAll;
    SentFully(f, c);
    SentChunks(f.values, c);
    assert f.values[..|f.values|] == f.values;
  }

  /** If some frame does not fit, the client yields exactly the outputs before the first such frame and
      then fails. */
  lemma OutputsCutAtLimit<T(!new), E>(
          output: Stream<T>, s: Serialization<T>, last: Option<Reason> -> Try<Envelope>, c: Coding,
          endFlag: nat, parseEnd: seq<byte> -> Try<E>, d: Dialect<E>,
          chunks: seq<seq<byte>>, k: nat)
    requires s.LawfulWithin(c.readMaxBytes) && c.Lawful() && c.readMaxBytes < TWO_TO_THE_32
      && endFlag in {END_STREAM_FLAG, TRAILER_FLAG}
    requires var f := ServerFrames(output, s, last);
      && AllSendable(f.values, c)
      && (forall i | 0 <= i < |f.values| :: |CompressAll(f.values, c)[i].data| < TWO_TO_THE_32)
      && k < |f.values| && !Fits(f.values[k], c) && forall i | 0 <= i < k :: Fits(f.values[i], c)
    requires Concat(chunks) == Concat(Sent(ServerFrames(output, s, last), c).values)
    ensures k <= |output.values|
    ensures var r := ClientReads(Concat(chunks), Done, s, c, endFlag, parseEnd, d);
      r.values == output.values[..k] && r.outcome.Failed?
  {
    hide EnvelopeCompress, ReadFrames, ParseEnvelope, Sent, Arrived, Fits;
    var f := ServerFrames(output, s, last);
    ServerFramesShape(output, s, last);
    SentValues(f, c);
    WireStops(f.values, k, c, chunks);
    FitsWithin(f.values, c, k);
    CutFramesRead(output.values[..k], Arrived(Concat(chunks), Done, c), s, c.readMaxBytes, endFlag, parseEnd, d);
  }

  lemma CutFramesRead<T(!new), E>(values: seq<T>, frames: Stream<Envelope>, s: Serialization<T>, max: nat,
                                  endFlag: nat, parseEnd: seq<byte> -> Try<E>, d: Dialect<E>)
    requires s.LawfulWithin(max) && endFlag in {END_STREAM_FLAG, TRAILER_FLAG}
    requires |frames.values| == |values|
    requires forall i | 0 <= i < |values| ::
      frames.values[i].flags == 0 && s.serialize(values[i]) == Ok(frames.values[i].data)
        && |frames.values[i].data| <= max
    ensures var p := MapStream(frames, (e: Envelope) => ParseEnvelope(e, s, endFlag, parseEnd));
      ReadFrames(p.values, p.end, None, d) ==
        Received(values, if frames.end.Failed? then frames.end else Failed(d.missingEnd), None)
  {
    var parse := (e: Envelope) => ParseEnvelope(e, s, endFlag, parseEnd);
    var messages := seq(|values|, i requires 0 <= i < |values| => Message(values[i]));
    forall i | 0 <= i < |values| ensures parse(frames.values[i]) == Ok(messages[i]) {
      MessageParsed(values[i], frames.values[i], s, max, endFlag, parseEnd);
    }
    MapStreamOk(frames, parse, messages);
    ReadUnended(values, messages, frames.end, d);
  }

  /** A truncated response is always detected: if any proper prefix of the body arrives, cut anywhere and
      however the connection ends, the client yields a prefix of the outputs and then fails. */
  lemma TruncationIsDetected<T(!new), E>(
          output: Stream<T>, s: Serialization<T>, last: Option<Reason> -> Try<Envelope>, c: Coding,
          endFlag: nat, parseEnd: seq<byte> -> Try<E>, d: Dialect<E>, bytes: seq<byte>,
          upstream: Outcome)
    requires s.LawfulWithin(c.readMaxBytes) && c.Lawful() && c.readMaxBytes < TWO_TO_THE_32
      && endFlag in {END_STREAM_FLAG, TRAILER_FLAG}
    requires BodyArrives(output, s, last, c)
    requires bytes < Concat(Sent(ServerFrames(output, s, last), c).values)
    ensures var r := ClientReads(bytes, upstream, s, c, endFlag, parseEnd, d);
      r.values <= output.values && r.outcome.Failed? && r.trailer == None
  {
    hide EnvelopeCompress, ReadFrames, ParseEnvelope, Sent, Arrived, Fits;
    var f := ServerFrames(output, s, last);
    ServerFramesShape(output, s, last);
    SentValues(f, c);
    WireTruncated(f.values, c, bytes, upstream);
    var arrived := Arrived(bytes, upstream, c);
    FitsWithin(f.values, c, |arrived.values|);
    CutFramesRead(output.values[..|arrived.values|], arrived, s, c.readMaxBytes, endFlag, parseEnd, d);
  }
}

/** A Triple streaming call (packages/dubbo/src/protocol-triple/handler-factory.ts and transport.ts). */
module Triple {
  import opened Common
  import opened Errors
  import opened Streams
  import opened Envelopes
  import opened HttpHeaders
  import opened Platform
  import opened ErrorJson
  import opened EndStream
  import opened Transforms
  import opened Readers
  import opened Wire
  import opened EndToEnd

  /** The catch-finally callback of the handler. `trailer` is the context's response trailer. */
  function EndFrame(caught: Option<Reason>, trailer: Fields, lib: Library): Try<Envelope> {
    var data :- Serialize(EndStreamResponse(trailer, ErrorToSend(caught)), lib);
    Ok(Envelope(END_STREAM_FLAG, data))
  }

  /** The error the end frame of a call carries. */
  function SentError<O(!new)>(output: Stream<O>, s: Serialization<O>): Option<DubboError> {
    ErrorToSend(Caught(SerializedEnd(output, s)))
  }

  /** The chunks of the response body. */
  function ResponseBody<O(!new)>(output: Stream<O>, trailer: Fields, s: Serialization<O>, lib: Library,
          c: Coding): Stream<seq<byte>>
  {
    Sent(ServerFrames(output, s, caught => EndFrame(caught, trailer, lib)), c)
  }

  function TripleDialect(): Dialect<EndStreamResponse> {
    Dialect((r: EndStreamResponse) => if r.error.Some? then Some(Dubbo(r.error.value)) else None,
            Violation("protocol error: received extra EndStreamResponse"),
            Violation("protocol error: received extra message after EndStreamResponse"),
            Violation("protocol error: missing EndStreamResponse"))
  }

  /** The end frame has flag 2 and holds the JSON of the trailers and the error; making it fails with Internal (13).
      A `DubboError` is sent as it is, and any other reason but `undefined` as an internal error. */
  lemma EndFrameIs(caught: Option<Reason>, trailer: Fields, lib: Library)
    ensures var error :=
        if caught == None then None
        else if caught.value.Dubbo? then Some(caught.value.error)
        else Some(DubboError(13, "internal error", map[], []));
      var json, frame := EndStreamJson(trailer, error, lib), EndFrame(caught, trailer, lib);
      if json.Ok? then frame == Ok(Envelope(2, lib.utf8Encode(lib.jsonText(JObject(json.value)))))
      else frame.Throws? && frame.reason.Dubbo? && frame.reason.error.code == 13
  {
    hide EndStreamJson, MessageText;
  }

  /** The violations are InvalidArgument (3), and the error of an end frame is raised as it is. */
  lemma Violations(r: EndStreamResponse)
    ensures var d := TripleDialect();
      && d.errorOf(r) == (if r.error.Some? then Some(Dubbo(r.error.value)) else None)
      && d.missingEnd == Dubbo(DubboError(3, "protocol error: missing EndStreamResponse", map[], []))
      && d.extraEnd == Dubbo(DubboError(3, "protocol error: received extra EndStreamResponse", map[], []))
      && d.extraMessage ==
        Dubbo(DubboError(3, "protocol error: received extra message after EndStreamResponse", map[], []))
  {
  }

  /** The response messages of the client's `stream()`. */
  function ResponseMessages<O(!new)>(bytes: seq<byte>, upstream: Outcome, s: Serialization<O>, lib: Library, c: Coding)
    : Received<O, EndStreamResponse>
  {
    ClientReads(bytes, upstream, s, c, END_STREAM_FLAG, data => Parse(data, lib), TripleDialect())
  }

  /** The end the client should see. */
  function ExpectedEnd(resp: EndStreamResponse): (Outcome, Option<EndStreamResponse>)
    requires Encodable(resp)
  {
    match AfterWire(resp)
    case Throws(r) => (Failed(r), None)
    case Ok(v) => if v.error.Some? then (Failed(Dubbo(v.error.value)), None) else (Done, Some(v))
  }

  /** The body of a call whose implementation throws `undefined` is the one of a call that returned. */
  lemma UndefinedLooksLikeReturn<O(!new)>(values: seq<O>, trailer: Fields, s: Serialization<O>, lib: Library, c: Coding)
    ensures ResponseBody(Stream(values, Failed(Undefined)), trailer, s, lib, c)
      == ResponseBody(Stream(values, Done), trailer, s, lib, c)
  {
    hide Sent;
    MapStreamEnds(values, Failed(Undefined), Done, (v: O) => SerializeEnvelope(v, s));
  }

  /** Header fields are legal, as `Headers` objects see to, and the details of the error can be encoded. */
  predicate ValidCall(trailer: Fields, end: Outcome) {
    && ValidFields(trailer)
    && (end.Failed? && end.reason.Dubbo? ==>
          ValidFields(end.reason.error.metadata) && AllEncodable(Some(end.reason.error)))
  }

  /** Every frame can be sent and fits the client's limit. */
  ghost predicate BodyFits<O(!new)>(output: Stream<O>, trailer: Fields, s: Serialization<O>, lib: Library, c: Coding) {
    BodyArrives(output, s, caught => EndFrame(caught, trailer, lib), c)
  }

  /** The handler closes a stream iff every detail of the error to send can be encoded and every frame
      compressed: then the body ends without an error and holds exactly one end frame, last. Otherwise the
      body fails and holds no end frame. */
  lemma HandlerClosesOnce<O(!new)>(output: Stream<O>, trailer: Fields, s: Serialization<O>, lib: Library, c: Coding)
    ensures var f := ServerFrames(output, s, caught => EndFrame(caught, trailer, lib));
      var body := ResponseBody(output, trailer, s, lib, c);
      && (body.end == Done <==> AllEncodable(SentError(output, s)) && AllSendable(f.values, c))
      && |body.values| <= |f.values|
      && AllSendable(f.values[..|body.values|], c)
      && Concat(body.values) == EncodeAll(CompressAll(f.values[..|body.values|], c))
      && (forall i | 0 <= i < |body.values| ::
            HasFlag(f.values[i].flags, END_STREAM_FLAG) <==> body.end == Done && i == |body.values| - 1)
      && (body.end == Done ==> |body.values| > 0)
  {
    hide EnvelopeCompress, EncodeAll, ServerFrames, Sent, SerializedEnd;
    SerializesIffEncodable(EndStreamResponse(trailer, SentError(output, s)), lib);
    ClosesOnce(output, s, caught => EndFrame(caught, trailer, lib), c, END_STREAM_FLAG);
  }

  /** The Triple streaming theorem. For every output stream, every response trailer and every chunking
      of the response body, the client yields the serialized outputs in order, then ends as the end
      frame says: see `EndStream.AfterWire`. */
  lemma StreamingRoundTrip<O(!new)>(output: Stream<O>, trailer: Fields, s: Serialization<O>, lib: Library, c: Coding,
                                    chunks: seq<seq<byte>>)
    requires s.LawfulWithin(c.readMaxBytes) && lib.Lawful() && c.Lawful() && c.readMaxBytes < TWO_TO_THE_32
    requires ValidCall(trailer, SerializedEnd(output, s))
    requires BodyFits(output, trailer, s, lib, c)
    requires Concat(chunks) == Concat(ResponseBody(output, trailer, s, lib, c).values)
    ensures SerializedCount(output, s) <= |output.values|
    ensures var r := ResponseMessages(Concat(chunks), Done, s, lib, c);
      && r.values == output.values[..SerializedCount(output, s)]
      && (r.outcome, r.trailer) == ExpectedEnd(EndStreamResponse(trailer, SentError(output, s)))
  {
    hide Fits, Sent, SerializedEnd, SerializedCount, ServerFrames, EndedBy, ExpectedEnd;
    var resp := EndStreamResponse(trailer, SentError(output, s));
    SerializesIffEncodable(resp, lib);
    OutputsArrive(output, s, caught => EndFrame(caught, trailer, lib), c, END_STREAM_FLAG, data => Parse(data, lib),
                  TripleDialect(), chunks);
    EndArrives(output.values[..SerializedCount(output, s)], resp, lib);
  }

  /** The end frame, serialized and parsed. */
  lemma EndArrives<O(!new)>(values: seq<O>, resp: EndStreamResponse, lib: Library)
    requires lib.Lawful() && Encodable(resp)
    requires ValidFields(resp.metadata) && (resp.error.Some? ==> ValidFields(resp.error.value.metadata))
    ensures Serialize(resp, lib).Ok?
    ensures EndedBy(values, Parse(Serialize(resp, lib).value, lib), TripleDialect()) ==
      Received(values, ExpectedEnd(resp).0, ExpectedEnd(resp).1)
  {
    hide AfterWire, Serialize, Parse;
    SerializesIffEncodable(resp, lib);
    RoundTrip(resp, lib);
  }

  /** When the call looks to the caller exactly as the implementation meant it, and when not: with all
      outputs serialized, the client completes iff the implementation returned or threw `undefined`;
      it raises the same code, message and details iff the error thrown has a known code and no scalar
      debug value; and it sees the very trailers iff none is named `__proto__` or has outer white space. */
  lemma CallerSeesIntent<O(!new)>(output: Stream<O>, trailer: Fields, s: Serialization<O>, lib: Library, c: Coding,
                                  chunks: seq<seq<byte>>)
    requires s.LawfulWithin(c.readMaxBytes) && lib.Lawful() && c.Lawful() && c.readMaxBytes < TWO_TO_THE_32
    requires forall i | 0 <= i < |output.values| :: s.serialize(output.values[i]).Ok?
    requires ValidCall(trailer, output.end)
    requires BodyFits(output, trailer, s, lib, c)
    requires Concat(chunks) == Concat(ResponseBody(output, trailer, s, lib, c).values)
    ensures var r := ResponseMessages(Concat(chunks), Done, s, lib, c);
      && r.values == output.values
      && (r.outcome.Done? <==> output.end.Done? || output.end.reason.Undefined?)
      && (r.outcome.Done? ==>
          r.trailer.Some? && (r.trailer.value.metadata == trailer <==> PROTO !in trailer && NormalizedFields(trailer)))
      && (output.end.Failed? && output.end.reason.Dubbo? ==>
          var e := output.end.reason.error;
          if KnownCode(e.code) && AllReadable(e.details)
          then r.outcome ==
            Failed(Dubbo(e.(metadata := Recovered(Merged(trailer, e.metadata)), details := AllIncoming(e.details))))
          else r.outcome == Failed(UnreadableEnd(Dubbo(PARSE_ERROR))))
      && (output.end.Failed? && !output.end.reason.Dubbo? && !output.end.reason.Undefined? ==>
          r.outcome.Failed? && r.outcome.reason.Dubbo?
          && r.outcome.reason.error.code == INTERNAL && r.outcome.reason.error.rawMessage == "internal error")
  {
    hide ResponseMessages, ResponseBody, BodyFits, SerializedCount, SerializedEnd, MessageText, Recovered, Merged;
    AllSerialized(output, s);
    StreamingRoundTrip(output, trailer, s, lib, c, chunks);
    RecoveredExactly(trailer);
  }

  lemma AllSerialized<O(!new)>(output: Stream<O>, s: Serialization<O>)
    requires forall i | 0 <= i < |output.values| :: s.serialize(output.values[i]).Ok?
    ensures SerializedCount(output, s) == |output.values| && SerializedEnd(output, s) == output.end
  {
    MapStreamPrefix(output, (v: O) => SerializeEnvelope(v, s));
  }
}
