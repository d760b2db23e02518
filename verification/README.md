# The streaming RPC engine of Apache Dubbo for JavaScript, in Dafny

This project models how the library moves messages over a byte stream and keeps the connection under it
alive, and proves what that machinery promises. `dafny verify dfyconfig.toml` checks everything.

| file | modules | what it models |
|---|---|---|
| `Common.dfy`, `JsText.dfy`, `Errors.dfy`, `HttpHeaders.dfy` | `Common`, `JsText`, `Errors`, `Streams`, `LimitIo`, `HttpHeaders` | bytes, the JavaScript string functions used, thrown values and `DubboError`, asynchronous iterables, `Headers` |
| `Envelope.dfy`, `Splitter.dfy`, `ReadAll.dfy` | `Envelopes`, `Splitter`, `ReadAll` | the 5-byte envelope, its in-place encoders, the compressed flag, both incremental splitters, `readAllBytes` |
| `Pipeline.dfy`, `EndToEnd.dfy` | `Transforms`, `Readers`, `Wire`, `EndToEnd`, `Triple` | the transforms between messages and bytes, the client automata, a streaming call from implementation to caller |
| `EndStream.dfy`, `GrpcTrailer.dfy` | `Platform`, `ErrorJson`, `EndStream`, `GrpcWebTrailer`, `TrailerStatus`, `GrpcWeb` | the two in-band trailers |
| `WritableIterable.dfy`, `AbortSignals.dfy`, `RunCall.dfy` | `WritableIterables`, `AbortSignals`, `RunCall` | the rendezvous queue, the graph of abort signals, deadlines and interceptors |
| `Http2Ready.dfy`, `Http2Effects.dfy`, `Http2Manager.dfy` | `Http2Ready`, `ReadyEffects`, `ReadyObjects`, `Http2Manager` | the HTTP/2 session: streams, timers, PINGs, what each event does to them, and the manager's states |
| `QpsCounter.dfy`, `NodeErrors.dfy` | `QpsCounters`, `NodeErrors` | the pruned request counter and the walk along error causes |

## How it is modelled

- An asynchronous iterable is the values it yields and how it ends (`Streams.Stream`). A `for await` loop that
  transforms each value is `MapStream`; generators that keep state are methods with loops.
- A `Headers` object is a map from lower-case names to combined values. `append` and `set` trim HTTP white
  space, and reject illegal names and values, as the Fetch standard says.
- Objects that change in place are classes. Each method of the queue and of the ready state is proved equal
  to a step function on a value. What each step does to the fields, and the statements about all runs, are lemmas
  about that function.
- The signal objects live in one heap addressed by number, so that `abort` can be a recursive method; it
  terminates on the set of signals not yet aborted.
- Every closure of the session's ready state is one event at a given time. Streams, PING answers and timers
  may interleave in any order; a timer fires at most once and not before its delay; the clock does not
  step back.
- Protobuf, compression, base64, UTF-8, percent-encoding and `JSON.stringify`/`JSON.parse` are function
  values with a stated law each (`Lawful`): the decoder undoes the encoder, and decompression raises beyond
  its limit. A serialization only has to be lawful up to the reader's `readMaxBytes`, so that the end-to-end
  theorems cover the limited one the library uses. Serializing, compressing and encoding an error detail may
  throw. `TextDecoder` is only assumed to undo `TextEncoder` when the text does not start with a byte order mark.

## Where the code does less than it says

Each of these is proved, together with the exact condition under which it happens.

- An error detail that protobuf refuses to encode, such as one with an integer field out of range, makes the
  handler's last callback throw, and so does compression that fails: the response body then fails without an
  end frame (`Triple.HandlerClosesOnce`, `GrpcWeb.HandlerClosesOnce`), which the client detects
  (`EndToEnd.MissingEndIsDetected`, `EndStream.UnencodableDetailFails`). In gRPC-Web a code outside 32 bits on an
  error with details does the same.
- An implementation that throws `undefined` looks like one that returned: the caller completes normally
  (`Triple.CallerSeesIntent`, `Triple.UndefinedLooksLikeReturn`).
- One error detail whose debug value is a JSON string, number or boolean, which is what `toJson` gives for a
  protobuf `Timestamp` or wrapper, or a code outside the enum, replaces the whole error by "invalid end stream"
  (`ErrorJson.ErrorRoundTrip`, `EndStream.RoundTrip`, `ErrorJson.ScalarDebugLosesError`).
- A trailer named `__proto__` is lost in the EndStreamResponse, because `md[key] = [value]` sets a prototype;
  a combined value that ends in white space comes back trimmed (`EndStream.RecoveredExactly`, `EndStream.TrailersLost`).
- A `grpc-status-details-bin` field already in the trailer hides a status set later without details
  (`GrpcWeb.StaleDetailsHideStatus`, `GrpcWeb.ErrorIsFound`). A detail type with a slash is cut
  (`TrailerStatus.SurfacesFaithfully`, `TrailerStatus.SlashCutsType`).
- The WHATWG splitter reads lengths as signed: from 2^31 bytes on it goes wrong, except by accident when its buffer
  holds exactly 2^32 bytes (`Splitter.ReaderBoundIsExact`), and on some headers it makes no progress at all
  (`Splitter.ReaderStuckIff`). On shorter frames it enqueues a truncated body and enforces no limit
  (`Splitter.ReaderAgreesExactly`, `Splitter.TruncatedBodyIsEnqueued`).
- `throw(undefined)` on a writable iterable discards the queue without stopping later writes
  (`WritableIterables.WriteAfterThrow`); the order can break afterwards iff something was queued and the iterable
  is still open (`WritableIterables.ThrowKeepsOrder`, `WritableIterables.CallKeepsOrder`).
- A connection that has been verified with a PING becomes current again with its hooks installed but its listeners
  gone. The close or error event of the current connection changes the manager's state iff that connection was
  never verified (`Http2Manager.SessionManager.ConnectionEnded`, `Http2Manager.VerifiedConnectionIsDeaf`,
  `Http2Manager.UnverifiedConnectionIsHeard`).
- Leaving the ready state to verify it stops all its timers, the PING timeout just armed included, although the
  documentation of the states says that an unanswered verification PING times out
  (`Http2Manager.SessionManager.GotoReady`). The answer restarts none of them. An idle connection is left without
  its idle timer exactly then, until a stream has been opened and closed (`Http2Ready.IdleConnectionsAreTimed`,
  `Http2Ready.VerifiedIsNotTimed`).
- A connection aborted after its connect event, but before the callback of its promise has run, becomes the current
  ready state although it is destroyed (`Http2Manager.SessionManager.ConnectSettled`,
  `Http2Manager.AbortedConnectionIsReady`).
- A connection that is not destroyed and has open streams is left without a PING scheduled or outstanding exactly
  by these events, when no other keep-alive PING is outstanding: such a PING fails while no interval timer is live;
  the ready state is left, as it is for a verification; or the interval is restarted with a value `setTimeout` does
  not support. Opening further streams does not help; a response header or response bytes do
  (`Http2Ready.KeepAliveNeverStalls`, `Http2Ready.FailedPingStalls`, `Http2Ready.VerifiedIsNotKeptAlive`).
- A cleanup makes the request counter lose increments iff it comes after them with a clock more than five seconds
  ahead of their second, so `getQps` can only be wrong when the clock steps back (`QpsCounters.BucketIsExact`,
  `QpsCounters.QpsRefinesHistory`, `QpsCounters.SteppingBackLosesCounts`).

## Model

| member | source | states |
|---|---|---|
| Envelopes.Uint32RoundTrip | packages/dubbo/src/protocol/envelope.ts:169-169 | the big-endian length field gives a length back modulo 2^32 |
| Envelopes.Uint32BytesRoundTrip | packages/dubbo/src/protocol/async-iterable.ts:1042-1042 | every four bytes are the encoding of the length read from them, which is below 2^32 |
| Envelopes.EncodeEnvelope | packages/dubbo/src/protocol/envelope.ts:164-171 | the array filled in place (payload, then flags, then length) is the envelope's encoding |
| Envelopes.EncodeEnvelopes | packages/dubbo/src/protocol/envelope.ts:178-194 | the one array filled at a moving offset is the concatenation of the single encodings |
| Envelopes.EncodeLayout | packages/dubbo/src/protocol/envelope.ts:164-171 | one byte of flags, the length in four bytes with the most significant first, then the payload |
| Envelopes.CompressDecompress | packages/dubbo/src/protocol/envelope.ts:110-157 | compression only sets bit 0, so both end flags are classified as before, and fails iff the algorithm does; decompression gives the envelope back iff it was not compressed or its payload is within the limit |
| Envelopes.CompressionErrors | packages/dubbo/src/protocol/envelope.ts:110-157 | bit 0 already set is Internal when compressing, and InvalidArgument when decompressing without an algorithm; without bit 0 an envelope is taken as it is |
| Splitter.ScanExtend | packages/dubbo/src/protocol/async-iterable.ts:1049-1064 | parsing bytes in two pieces equals parsing them at once: the basis of chunking independence |
| Splitter.ScanConserves | packages/dubbo/src/protocol/async-iterable.ts:1047-1064 | the envelopes yielded and the buffer together are exactly the bytes consumed |
| Splitter.AcceptsExactlyEncodings | packages/dubbo/src/protocol/async-iterable.ts:1004-1076 | the input is accepted with given envelopes iff it is their encoding and each is framable and within the limit; in particular the envelopes are unique |
| Splitter.FramableIsNecessary | packages/dubbo/src/protocol/envelope.ts:164-171 | an envelope survives framing iff its flags are a byte and its length is below 2^32 |
| Splitter.ScanOversized | packages/dubbo/src/protocol/async-iterable.ts:1056-1056 | the first payload above readMaxBytes stops the splitter with everything before it yielded |
| Splitter.ScanTruncated | packages/dubbo/src/protocol/async-iterable.ts:1065-1074 | a proper prefix of an encoding yields fewer envelopes and is never taken for an oversized one |
| Splitter.CutFrameSays | packages/dubbo/src/protocol/async-iterable.ts:1056-1074 | a body cut at any byte inside an envelope: the envelopes before it, then ResourceExhausted if its whole header announces too much, else the error of the input, else InvalidArgument with the bytes promised and got |
| Splitter.SplitEnvelopes | packages/dubbo/src/protocol/async-iterable.ts:1004-1076 | for every chunking, the envelopes yielded and the outcome are those of the pure parser on the concatenation; at each chunk boundary encoding and buffer are the bytes consumed |
| Splitter.ShiftedLengthIsSigned | packages/dubbo/src/protocol/envelope.ts:68-71 | the shift-and-add loop computes the length as a signed 32-bit number |
| Splitter.EnvelopeReader.Pull | packages/dubbo/src/protocol/envelope.ts:64-99 | one pull leaves buffer, unread chunks and result as the step function says, for every state |
| Splitter.PullForgetsChunks | packages/dubbo/src/protocol/envelope.ts:64-99 | below 2^31 bytes, a pull depends on the concatenation and on how the source ends only |
| Splitter.ReaderAgreesExactly | packages/dubbo/src/protocol/envelope.ts:47-101 | on input whose headers all announce less than 2^31 bytes, the WHATWG splitter agrees with the other one iff, the input ending normally, that one accepts it; or, the input failing, no frame is oversized (or the failure cuts that frame short and is the very error of the limit) |
| Splitter.TruncatedBodyIsEnqueued | packages/dubbo/src/protocol/envelope.ts:79-98 | a body one byte short, enqueued by the one splitter and refused by the other |
| Splitter.BothSplittersReturn | packages/dubbo/src/protocol/envelope.ts:47-101 | whole envelopes below 2^31 bytes and within the limit come back from both splitters, for every chunking |
| Splitter.StrayBytesSay | packages/dubbo/src/protocol/envelope.ts:79-88 | one to four stray bytes are DataLoss in the one splitter and InvalidArgument in the other, for every chunking |
| Splitter.ReaderBoundIsExact | packages/dubbo/src/protocol/envelope.ts:67-98 | for every chunking, and whatever follows, an envelope is enqueued unchanged iff it is below 2^31 bytes, or is below 2^32 - 5 bytes and met with exactly 2^32 bytes buffered |
| Splitter.ReaderStuckIff | packages/dubbo/src/protocol/envelope.ts:64-99 | a pull enqueues an envelope without consuming anything iff the length announced is 2^32 - 5, or at least 2^31 and with the buffered bytes at most 2^32 - 5 |
| Splitter.ReaderStuckOnHugeLength | packages/dubbo/src/protocol/envelope.ts:67-98 | a header announcing 2^32 - 5 bytes is enqueued as an empty envelope and never consumed |
| ReadAll.ReadAllBytes | packages/dubbo/src/protocol/async-iterable.ts:1089-1150 | for every chunking the result or the error is the one allowed for the total bytes, the end of the source, the limit and the hint |
| ReadAll.ReadPromised | packages/dubbo/src/protocol/async-iterable.ts:1095-1120 | the preallocated path: success exactly on the promised number of bytes, the right error otherwise |
| ReadAll.ReadUnknown | packages/dubbo/src/protocol/async-iterable.ts:1121-1134 | the chunk-list path: the concatenation, or the limit error |
| ReadAll.ReadsExactly | packages/dubbo/src/protocol/async-iterable.ts:1078-1135 | with a hint it succeeds iff the total equals it and it is within the limit, without one iff the total is; both paths return the same bytes |
| ReadAll.ParseLengthHint | packages/dubbo/src/protocol/async-iterable.ts:1138-1150 | the hint counts iff it is a number, or a text that starts with one, from 0 to 2^53 - 1 |
| ReadAll.ReadErrors | packages/dubbo/src/protocol/async-iterable.ts:1095-1134 | codes and texts of the errors |
| JsText.ParseIntReads | packages/dubbo/src/protocol/async-iterable.ts:1145-1145 | the number at the start of a text is read, after white space and before anything that is not a digit |
| Transforms.LimitsKeepLaw | packages/dubbo/src/protocol/serialization.ts:158-176 | with both limits, what is written is within the write limit and read back if also within the read limit |
| Transforms.LimitsExactly | packages/dubbo/src/protocol/limit-io.ts:72-109 | a value is written iff its payload is within the write limit, a payload above the read limit is never parsed, and both are ResourceExhausted |
| Transforms.TransformCatchFinally | packages/dubbo/src/protocol/async-iterable.ts:650-676 | all upstream values, then the callback's value for the error caught, undefined meaning none, or the error the callback throws |
| Streams.MapStreamPrefix | packages/dubbo/src/protocol/async-iterable.ts:945-974 | a transform yields the images of the values before the first one it throws on, then that error, or ends as its input |
| Readers.ReaderLoop | packages/dubbo/src/protocol-triple/transport.ts:348-381 | the reader loop computes the automaton |
| Readers.GrpcWebReader | packages/dubbo/src/protocol-grpc-web/transport.ts:264-313 | the same automaton if no status was in the headers; with one, any frame is an error |
| Readers.ReaderAccepts | packages/dubbo/src/protocol-triple/transport.ts:348-381 | the reader completes iff the input ends normally after messages and exactly one error-free end frame; in every case it yields exactly the messages before the first end frame |
| Readers.ReaderOutcome | packages/dubbo/src/protocol-triple/transport.ts:348-381 | when it does not complete, the error: that of the input, of the first end frame, or which of the three violations |
| Wire.SentChunks | packages/dubbo/src/protocol/async-iterable.ts:982-991 | the chunks sent are the encodings of the compressed frames, one each |
| Wire.SentFully | packages/dubbo/src/protocol/async-iterable.ts:945-991 | the body ends as the frames do iff every frame can be compressed, otherwise it fails at the first that cannot, after the encodings of those before it |
| Wire.WireRoundTrip | packages/dubbo/src/protocol/async-iterable.ts:945-991 | compress, join, re-chunk arbitrarily, split and decompress give the frames back if they fit the limit |
| Wire.WireStops | packages/dubbo/src/protocol/async-iterable.ts:1056-1056 | the first frame whose wire or decompressed payload is too large ends the stream with an error, those before it arrive |
| Wire.WireTruncated | packages/dubbo/src/protocol/async-iterable.ts:1065-1074 | of a truncated body fewer frames arrive, all unchanged |
| EndToEnd.ServerFramesShape | packages/dubbo/src/protocol-triple/handler-factory.ts:418-439 | the server's frames are the serialized outputs up to the first serialization error, then one end frame for how they ended, unless making it throws |
| EndToEnd.OutputsArrive | packages/dubbo/src/protocol-triple/transport.ts:336-383 | for every chunking of a body that fits, the client yields the serialized outputs in order and ends as the parsed end frame says |
| EndToEnd.OutputsCutAtLimit | packages/dubbo/src/protocol-triple/transport.ts:336-383 | otherwise it yields exactly the outputs before the first frame that does not fit, and fails |
| EndToEnd.TruncationIsDetected | packages/dubbo/src/protocol-triple/transport.ts:375-380 | for every proper prefix of the body, however the connection ends, the client yields a prefix of the outputs and fails |
| EndToEnd.MissingEndIsDetected | packages/dubbo/src/protocol-triple/transport.ts:375-380 | if the body failed because the end frame could not be made or a frame not compressed, the client yields exactly the outputs sent before and fails, however the connection ends |
| Triple.HandlerClosesOnce | packages/dubbo/src/protocol-triple/handler-factory.ts:419-441 | the response body ends without an error and holds exactly one end frame, last, iff every detail of the error to send can be encoded and every frame compressed; otherwise it fails and holds none |
| Triple.EndFrameIs | packages/dubbo/src/protocol-triple/handler-factory.ts:419-439 | the end frame has flag 2 and the JSON of trailers and error; a DubboError is sent as it is, any other reason as an internal error; failing to make it is Internal |
| Triple.Violations | packages/dubbo/src/protocol-triple/transport.ts:348-381 | the three violations are InvalidArgument, and the error of an end frame is raised as it is |
| Triple.StreamingRoundTrip | packages/dubbo/src/protocol-triple/handler-factory.ts:397-442 | for every output stream, trailer and chunking, if the error can be encoded: the outputs in order, then the trailers or the error as they come out of the EndStreamResponse |
| Triple.CallerSeesIntent | packages/dubbo/src/protocol-triple/handler-factory.ts:419-439 | completion iff the implementation returned or threw undefined; same code, message and details iff known code and no scalar debug value; Internal for other errors; same trailers iff none is `__proto__` or untrimmed |
| Triple.UndefinedLooksLikeReturn | packages/dubbo/src/protocol-triple/handler-factory.ts:419-439 | a call whose implementation throws undefined has the same body as one that returned |
| HttpHeaders.AppendHeaders | packages/dubbo/src/http-headers.ts:87-95 | the names are those of both inputs; a name in one has its value without outer white space, a name in both the first value, a comma and a blank, and the second value |
| HttpHeaders.NormalizeStrips | packages/dubbo/src/http-headers.ts:87-95 | a value loses exactly the blanks, tabs and line ends at its ends |
| HttpHeaders.AppendHolds | packages/dubbo/src/protocol-triple/end-stream.ts:80-82 | append succeeds iff name and value are legal, and then every name holds its values in order, with a comma and a blank between two |
| ErrorJson.ErrorFromJson | packages/dubbo/src/protocol-triple/error-json.ts:30-82 | the error read, or the fallback thrown with the metadata appended to it |
| ErrorJson.ErrorReads | packages/dubbo/src/protocol-triple/error-json.ts:40-80 | an error is read from exactly the objects with a known status, a text or nothing as message, and details that can all be read; each property gives its own field |
| ErrorJson.DetailReads | packages/dubbo/src/protocol-triple/error-json.ts:57-75 | a detail is read from exactly the objects with texts for type and value, decodable bytes, and no scalar debug value |
| ErrorJson.ErrorWritten | packages/dubbo/src/protocol-triple/error-json.ts:116-157 | the object written: the code, the message unless empty, the details in order unless there are none |
| ErrorJson.DetailWritten | packages/dubbo/src/protocol-triple/error-json.ts:133-155 | the object of a detail: its type, its bytes in base64, its debug value if there is one |
| ErrorJson.ErrorRoundTrip | packages/dubbo/src/protocol-triple/error-json.ts:116-157 | of an error that can be encoded, code, message and ordered details come back iff the code is known and no debug value is a scalar, and otherwise nothing does |
| ErrorJson.ScalarDebugLosesError | packages/dubbo/src/protocol-triple/error-json.ts:55-70 | a detail with a string for its debug value that loses the error |
| EndStream.EndStreamToJson | packages/dubbo/src/protocol-triple/end-stream.ts:109-130 | the object built by the loop over the fields, with the error's metadata appended, or the error a detail throws when encoded |
| EndStream.EndStreamWritten | packages/dubbo/src/protocol-triple/end-stream.ts:109-130 | the object has the error iff there is one, and the fields, one string each, `__proto__` excepted, iff there are any |
| EndStream.EndStreamFromJson | packages/dubbo/src/protocol-triple/end-stream.ts:50-96 | the nested loops over entries and values read what the recursive reader reads, errors included (see `EndStreamReads`) |
| EndStream.EndStreamReads | packages/dubbo/src/protocol-triple/end-stream.ts:50-96 | a response is read from exactly the objects whose metadata, if there, maps names to arrays of legal strings and whose error, if there, can be read; its metadata holds all strings of a name in order, joined by a comma and a blank |
| EndStream.MetadataHolds | packages/dubbo/src/protocol-triple/end-stream.ts:73-83 | the same for the metadata alone, from any `Headers` object on |
| EndStream.UnreadableIsInvalid | packages/dubbo/src/protocol-triple/end-stream.ts:152-165 | a frame that cannot be read is InvalidArgument |
| EndStream.RecoveredExactly | packages/dubbo/src/protocol-triple/end-stream.ts:119-124 | the metadata comes back unchanged iff no name is `__proto__` and no value has outer white space |
| EndStream.TrailersLost | packages/dubbo/src/protocol-triple/end-stream.ts:119-124 | a trailer that is lost and one that comes back shorter |
| EndStream.SerializesIffEncodable | packages/dubbo/src/protocol-triple/end-stream.ts:137-151 | the end frame is serialized iff every detail of its error can be encoded |
| EndStream.UnencodableDetailFails | packages/dubbo/src/protocol-triple/end-stream.ts:137-151 | an end frame that cannot be serialized, and the error raised |
| EndStream.RoundTrip | packages/dubbo/src/protocol-triple/end-stream.ts:137-167 | parsing the serialized end frame recovers metadata (trailers with the error's appended), code, message and details, or the stated error |
| GrpcWebTrailer.TrailerSerialize | packages/dubbo/src/protocol-grpc-web/trailer.ts:52-58 | the lines collected and joined are the text of the trailer (see `TrailerTextIs`) |
| GrpcWebTrailer.TrailerTextIs | packages/dubbo/src/protocol-grpc-web/trailer.ts:52-58 | one line for each field in order: name, colon, blank, value, CRLF |
| GrpcWebTrailer.TrailerParse | packages/dubbo/src/protocol-grpc-web/trailer.ts:30-45 | succeeds iff every field listed by a line with a name is legal; then each name holds its trimmed values in the order of the lines, joined by a comma and a blank |
| GrpcWebTrailer.LinesHold | packages/dubbo/src/protocol-grpc-web/trailer.ts:33-44 | the same, from any `Headers` object on |
| JsText.SplitLinesExact | packages/dubbo/src/protocol-grpc-web/trailer.ts:32-32 | the lines joined by CRLF are the text, and no line contains CRLF |
| JsText.TrimDrops | packages/dubbo/src/protocol-grpc-web/trailer.ts:39-41 | trimming removes white space at the ends only |
| GrpcWebTrailer.TrailerRoundTrip | packages/dubbo/src/protocol-grpc-web/trailer.ts:30-58 | every field comes back trimmed; the map comes back unchanged iff all values equal their trim |
| TrailerStatus.SetTrailerStatus | packages/dubbo/src/protocol-grpc/trailer-status.ts:43-69 | the target's fields after the call, also when it throws, and what it throws |
| TrailerStatus.StatusWritten | packages/dubbo/src/protocol-grpc/trailer-status.ts:43-69 | `grpc-status: 0` alone without an error; otherwise the decimal code and a text that decodes to the message; no other field is touched but the details |
| TrailerStatus.DetailsWritten | packages/dubbo/src/protocol-grpc/trailer-status.ts:50-64 | the details field is set iff there are details and the status can be encoded, and it then decodes to code, message and the details with prefixed types |
| TrailerStatus.ReportedIffEncodable | packages/dubbo/src/protocol-grpc/trailer-status.ts:47-65 | setting a status throws iff a detail cannot be encoded or the error has details and a code outside 32 bits |
| TrailerStatus.StatusRoundTrip | packages/dubbo/src/protocol-grpc/trailer-status.ts:43-125 | the error found on fields that carry a status, for every code |
| TrailerStatus.DetailsDecide | packages/dubbo/src/protocol-grpc/trailer-status.ts:88-104 | a details field decides alone: DataLoss if it cannot be decoded, no error for code 0, otherwise its code, message and details |
| TrailerStatus.StatusDecides | packages/dubbo/src/protocol-grpc/trailer-status.ts:105-125 | without it: none for a missing or zero status, the decoded message for a known code, Internal for anything else |
| TrailerStatus.SurfacesFaithfully | packages/dubbo/src/protocol-grpc/trailer-status.ts:80-125 | of an error whose details can be encoded: same code, raw message and details iff the code is known, or non-zero with details |
| TrailerStatus.SlashCutsType | packages/dubbo/src/protocol-grpc/trailer-status.ts:99-102 | a detail type that is cut |
| GrpcWeb.TrailerCarriesStatus | packages/dubbo/src/protocol-grpc-web/trailer.ts:30-58 | status and trailer composed: the error set is found, and none when none was set |
| GrpcWeb.StaleDetailsHideStatus | packages/dubbo/src/protocol-grpc/trailer-status.ts:88-104 | with a details field the status does not overwrite, that field alone decides |
| GrpcWeb.StreamingRoundTrip | packages/dubbo/src/protocol-grpc-web/handler-factory.ts:152-194 | for every output stream, trailer and chunking, if the error can be reported: the outputs in order, then the error found in the trailer received, or that trailer |
| GrpcWeb.ErrorIsFound | packages/dubbo/src/protocol-grpc-web/handler-factory.ts:170-189 | the error found in the trailer received is the one reported, unless a details field of the implementation hides it; if the outputs ended normally, and no such field is there, none is found iff the status field reads 0 or is missing |
| GrpcWeb.HandlerClosesOnce | packages/dubbo/src/protocol-grpc-web/handler-factory.ts:152-194 | the body ends without an error and holds exactly one trailer frame, last, iff the error can be reported and every frame compressed |
| GrpcWeb.TrailerFrameIs | packages/dubbo/src/protocol-grpc-web/handler-factory.ts:170-194 | the trailer frame has flag 128 and, without an error, the lines of the trailer as it is |
| GrpcWeb.Violations | packages/dubbo/src/protocol-grpc-web/transport.ts:264-313 | the three violations are InvalidArgument, and an error found in the trailer is raised as it is |
| WritableIterables.StepKeepsInvariant | packages/dubbo/src/protocol/async-iterable.ts:1303-1391 | every operation keeps: accepted payloads are the settled ones in order, then the queued ones; readers got what was delivered; a waiting reader means an empty queue; queued writes are pending with their own promises; the end is accepted once, last |
| WritableIterables.WriteDoes | packages/dubbo/src/protocol/async-iterable.ts:1310-1352 | for every state: a write or close is accepted iff the iterable is open and no error is stored; it is delivered iff a reader waits, and queued at the end otherwise |
| WritableIterables.NextDoes | packages/dubbo/src/protocol/async-iterable.ts:1355-1373 | a read is rejected iff an error is stored, gets the head of the queue iff there is one, and waits otherwise |
| WritableIterables.ThrowDoes | packages/dubbo/src/protocol/async-iterable.ts:1374-1387 | a throw stores its argument, discards the queue in order and rejects exactly the writes in it |
| WritableIterables.RefusedExactly | packages/dubbo/src/protocol/async-iterable.ts:1303-1391 | in every run, a write or close is refused iff a close came before it or the last throw before it was truthy, and a read is rejected iff the latter |
| WritableIterables.SettledOnce | packages/dubbo/src/protocol/async-iterable.ts:1322-1333 | no promise is settled twice and no read result changes |
| WritableIterables.Conservation | packages/dubbo/src/protocol/async-iterable.ts:1303-1391 | in every run in which no call delivers a payload after one was discarded: accepted = delivered, then discarded by a throw, then queued, in order; runs without a falsy throw are such runs |
| WritableIterables.CallKeepsOrder | packages/dubbo/src/protocol/async-iterable.ts:1310-1387 | the order survives a call iff the call does not deliver a payload after one was discarded |
| WritableIterables.RunKeepsOrder | packages/dubbo/src/protocol/async-iterable.ts:1303-1391 | the same for whole runs |
| WritableIterables.ThrowKeepsOrder | packages/dubbo/src/protocol/async-iterable.ts:1374-1387 | with nothing discarded before, the order survives a throw and every later run without a falsy throw iff the value thrown is truthy, or nothing is queued, or the iterable is closed |
| WritableIterables.PromisesTellFate | packages/dubbo/src/protocol/async-iterable.ts:1310-1373 | in every run, the promise of the n-th write or close is resolved iff that call's payload was delivered and pending iff it is queued; hence rejected iff it was refused or discarded |
| WritableIterables.NothingAfterThrow | packages/dubbo/src/protocol/async-iterable.ts:1374-1387 | after a truthy throw nothing is accepted, queued or delivered, whatever is called short of a throw with a falsy value |
| WritableIterables.WriteAfterThrow | packages/dubbo/src/protocol/async-iterable.ts:1310-1314 | a write after a throw is refused iff the value thrown is truthy |
| WritableIterables.FalsyThrowReorders | packages/dubbo/src/protocol/async-iterable.ts:1374-1387 | a run with a falsy throw that breaks the order |
| WritableIterables.WritableIterable.WriteValue | packages/dubbo/src/protocol/async-iterable.ts:1340-1345 | the transition `WriteDoes`, `RefusedExactly`, `Conservation` and `SettledOnce` are proved of, invariant kept |
| WritableIterables.WritableIterable.CloseQueue | packages/dubbo/src/protocol/async-iterable.ts:1346-1352 | the same transition with the end as payload; the end is accepted at most once; invariant kept |
| WritableIterables.WritableIterable.ReadNext | packages/dubbo/src/protocol/async-iterable.ts:1355-1373 | a reader gets the oldest queued payload and settles its write, or waits, or is rejected after a throw; same refinement, invariant kept |
| WritableIterables.WritableIterable.ThrowInto | packages/dubbo/src/protocol/async-iterable.ts:1374-1387 | the loop over the queue rejects every queued write in order and empties it; same refinement, invariant kept |
| AbortSignals.AbortHeap.Abort | packages/dubbo/src/protocol/signals.ts:46-53 | aborts exactly the signals reachable over links, all with the same reason; earlier aborts win; no aborted controller keeps a listener anywhere |
| AbortSignals.AbortHeap.Dispatch | packages/dubbo/src/protocol/signals.ts:46-53 | the recursion: listeners run in order unless removed meanwhile, terminating on the live signals |
| AbortSignals.AbortHeap.OnAbort | packages/dubbo/src/protocol/signals.ts:46-53 | the controller is aborted with the signal's reason and its listener removed from every source |
| AbortSignals.AbortHeap.CreateLinked | packages/dubbo/src/protocol/signals.ts:29-56 | the first aborted argument decides and nothing listens; otherwise the controller listens on every argument once, and on itself |
| AbortSignals.AbortSpreads | packages/dubbo/src/protocol/signals.ts:29-56 | what propagation along links means: a signal is aborted afterwards iff it was, or is reachable |
| AbortSignals.DispatchDone | packages/dubbo/src/protocol/signals.ts:50-52 | once its listeners have run, everything linked to a signal is aborted and its controller is registered nowhere |
| RunCall.CreateDeadlineSignal | packages/dubbo/src/protocol/signals.ts:68-87 | a non-positive timeout aborts the signal at once with DeadlineExceeded, a positive one starts a timer |
| RunCall.Call.constructor | packages/dubbo/src/protocol/run-call.ts:142-147 | the request signal starts aborted iff the caller's or the deadline's is, the caller's reason first |
| RunCall.Call.AbortCall | packages/dubbo/src/protocol/run-call.ts:150-159 | after an error: timer cancelled, signal aborted with the error surfaced, no listener left; that error is DeadlineExceeded if the deadline was reached, and otherwise a reported DubboError itself, Canceled for an AbortError and Unknown for anything else, with its message |
| RunCall.Call.Done | packages/dubbo/src/protocol/run-call.ts:160-163 | after success: timer cancelled, signal aborted, no listener left |
| RunCall.RunUnaryCall | packages/dubbo/src/protocol/run-call.ts:46-63 | a unary call ends finished; a rejection surfaces as that error, code and message |
| RunCall.RunStreamingCall | packages/dubbo/src/protocol/run-call.ts:81-126 | under any interleaving of deadline, aborts and reads, a call read to its end or an error is finished and stays so; each rejected read surfaces one error in order: DeadlineExceeded iff the deadline was reached before it while the call ran, else the DubboError itself, Canceled or Unknown with the message reported |
| RunCall.FirstInterceptorIsOutermost | packages/dubbo/src/protocol/run-call.ts:172-186 | reverse and reduce nest the interceptors with the first one outermost |
| Http2Ready.StepKeepsInvariant | packages/dubbo-node/src/http2-session-manager.ts:510-711 | every event keeps: exact stream count, one live timer per kind and only for its reason, signs of life no later than the last one |
| Http2Ready.ReachableStates | packages/dubbo-node/src/http2-session-manager.ts:541-558 | after every run: the count is the number of open streams; at most one timer of each kind; idle only without streams, interval only with streams or for idle connections; no sign of life after a live PING timeout was armed |
| Http2Ready.KillsAreJustified | packages/dubbo-node/src/http2-session-manager.ts:596-657 | after every run, a timer destroys the connection only after pingTimeoutMs without any such sign of life, and closes it only with no open stream, and idleConnectionTimeoutMs after the last one closed |
| ReadyEffects.FieldsAfter | packages/dubbo-node/src/http2-session-manager.ts:541-711 | for every event, in fields: what destroys and what closes the connection, who is listened to, what is a sign of life, which PINGs are outstanding, and nothing else |
| ReadyEffects.TimersAfter | packages/dubbo-node/src/http2-session-manager.ts:580-657 | for every event and each of the three timers: stopped, armed now with its delay (if supported), or left alone |
| ReadyEffects.FiringDoes | packages/dubbo-node/src/http2-session-manager.ts:608-657 | a timer that fires destroys the connection iff it is a PING timeout, closes it iff it is the idle timeout, and sends a PING iff it is the interval |
| ReadyEffects.LateAnswerDestroys | packages/dubbo-node/src/http2-session-manager.ts:630-637 | an answer later than pingTimeoutMs destroys the connection, for keep-alive and verification PINGs alike; a timely or failed one does not |
| ReadyEffects.UnansweredPingDestroys | packages/dubbo-node/src/http2-session-manager.ts:612-619 | in every run, once a PING is sent and nothing clears its timeout, the timeout can fire after pingTimeoutMs and destroys the connection |
| ReadyEffects.InitialTimers | packages/dubbo-node/src/http2-session-manager.ts:510-527 | a new ready state has its idle timer only, and counts as just seen alive |
| Http2Ready.RunRecords | packages/dubbo-node/src/http2-session-manager.ts:547-571 | the last sign of life and the last close are no earlier than any response header, accepted response bytes, timely PING answer or stream close of the run |
| Http2Ready.IdleConnectionsAreTimed | packages/dubbo-node/src/http2-session-manager.ts:643-704 | all along a run, an idle connection that is neither closed nor destroyed has a live idle timer (if its delay is supported), iff the ready state is never left with such a connection |
| Http2Ready.StepArms | packages/dubbo-node/src/http2-session-manager.ts:580-657 | for every event: the idle timer of an idle connection stays armed iff the event does not leave the ready state, and keep-alive goes on iff the event is not one that ends it |
| Http2Ready.KeepAliveNeverStalls | packages/dubbo-node/src/http2-session-manager.ts:588-641 | all along a run, a connection with open streams that is not destroyed has a PING scheduled or outstanding, iff no event of the run is one that ends keep-alive |
| Http2Ready.FailedPingStalls | packages/dubbo-node/src/http2-session-manager.ts:620-628 | a run with a failed PING that leaves a connection with an open stream without any timer or PING |
| Http2Ready.VerifiedIsNotTimed | packages/dubbo-node/src/http2-session-manager.ts:572-592 | a run that verifies an idle connection and leaves it current without any timer |
| Http2Ready.VerifiedIsNotKeptAlive | packages/dubbo-node/src/http2-session-manager.ts:541-592 | a run that verifies a connection with an open stream and opens another: it is current, without any timer or PING |
| Http2Ready.ExitStopsTimers | packages/dubbo-node/src/http2-session-manager.ts:698-704 | leaving the ready state stops every timer |
| ReadyObjects.ReadyState.constructor | packages/dubbo-node/src/http2-session-manager.ts:510-527 | a new ready state starts its idle timer only |
| ReadyObjects.ReadyState.RegisterRequest | packages/dubbo-node/src/http2-session-manager.ts:541-558 | the first stream restarts the PING interval and stops the idle timer; every safety statement of `Http2Ready` applies to the object, invariant kept |
| ReadyObjects.ReadyState.ResponseReceived | packages/dubbo-node/src/http2-session-manager.ts:547-550 | a response header is a sign of life that restarts the interval; refinement and invariant as above |
| ReadyObjects.ReadyState.StreamClose | packages/dubbo-node/src/http2-session-manager.ts:551-557 | the last stream to close restarts the interval for an idle connection and arms the idle timer; refinement and invariant as above |
| ReadyObjects.ReadyState.ResponseByteRead | packages/dubbo-node/src/http2-session-manager.ts:559-571 | bytes are a sign of life only for this session, while it is open and has streams; refinement and invariant as above |
| ReadyObjects.ReadyState.Ping | packages/dubbo-node/src/http2-session-manager.ts:572-577 | a verification PING is outstanding and its timeout armed; refinement and invariant as above |
| ReadyObjects.ReadyState.PingCallback | packages/dubbo-node/src/http2-session-manager.ts:620-640 | the timeout stops; a late answer destroys the connection, a failed one is ignored, and only a keep-alive answer restarts the interval; refinement and invariant as above |
| ReadyObjects.ReadyState.TimerFired | packages/dubbo-node/src/http2-session-manager.ts:608-657 | the transition `FiringDoes` and `TimersAfter` are proved of; an idle timeout is reported iff the hooks are installed; invariant kept |
| ReadyObjects.ReadyState.ConnectionEnds | packages/dubbo-node/src/http2-session-manager.ts:675-696 | every timer and listener is dropped if the event is heard; it is reported iff it is heard and the hooks are installed |
| ReadyObjects.ReadyState.GoAwayReceived | packages/dubbo-node/src/http2-session-manager.ts:659-673 | ENHANCE_YOUR_CALM with too_many_pings doubles a finite interval of all ready states sharing the options |
| Http2Manager.SessionManager.SetState | packages/dubbo-node/src/http2-session-manager.ts:260-305 | keeps: a ready state has its hooks installed iff it is the current state; the state left is not listened to any more |
| Http2Manager.SessionManager.GotoReady | packages/dubbo-node/src/http2-session-manager.ts:236-245 | verifies iff the state is ready and its last sign of life longer ago than a finite pingIntervalMs, whatever happened to the connection before; connects when there is none, and otherwise changes nothing; the promise waited for is outstanding; the connection to be verified has its PING outstanding but no listener and no timer |
| Http2Manager.SessionManager.AttemptEvent | packages/dubbo-node/src/http2-session-manager.ts:389-405 | the connect and error events of a new connection settle its promise only while the manager is in that connecting state |
| Http2Manager.SessionManager.ConnectSettled | packages/dubbo-node/src/http2-session-manager.ts:271-280 | also when late: a new current ready state, destroyed iff the connection was, or closed or error |
| Http2Manager.SessionManager.VerifySettled | packages/dubbo-node/src/http2-session-manager.ts:281-294 | also when late: the state that was verified is current again without listeners, or a new attempt that is listened to, or closed or error; the state left is left in full |
| Http2Manager.SessionManager.Abort | packages/dubbo-node/src/http2-session-manager.ts:230-234 | ends in closed or error, whatever the state; a ready, verifying or connecting connection is destroyed, and the promise of the latter rejected unless settled |
| Http2Manager.ClosedIffCanceled | packages/dubbo-node/src/http2-session-manager.ts:356-361 | a reason closes the manager iff it is a cancellation, and is kept as the error otherwise, too_many_pings included |
| Http2Manager.LeavingForgets | packages/dubbo-node/src/http2-session-manager.ts:260-268 | leaving a state changes no connection attempt but its own, which is not listened to any more |
| Http2Manager.SessionManager.ConnectionEnded | packages/dubbo-node/src/http2-session-manager.ts:675-696 | a close or error event changes the manager's state iff the ready state is current and still listened to, that is, current and never verified |
| Http2Manager.SessionManager.ReadyTimerFired | packages/dubbo-node/src/http2-session-manager.ts:654-657 | only the idle timeout of the current ready state changes the manager's state |
| Http2Manager.SessionManager.ReadyEvent | packages/dubbo-node/src/http2-session-manager.ts:541-571 | no other event of a ready state changes the manager's state or another ready state; a timely answer settles exactly the unsettled verifications of this connection that wait for that PING |
| Http2Manager.SessionManager.ReadyGoAway | packages/dubbo-node/src/http2-session-manager.ts:659-673 | a GOAWAY frame changes its own ready state as the step says, the shared interval at most, and no other ready state |
| Http2Manager.VerificationCompletes | packages/dubbo-node/src/http2-session-manager.ts:236-294 | from any state of a manager with a silent connection: verify it, get the PING answered, and the same ready state is current again, just seen alive and not listened to |
| Http2Manager.SilentAgain | packages/dubbo-node/src/http2-session-manager.ts:236-294 | a whole run with two silences: the connection verified after the first is verified again iff the second is too long as well |
| Http2Manager.DeadConnectionIsReplaced | packages/dubbo-node/src/http2-session-manager.ts:236-294 | from any state of a manager with a silent connection: verify it, let it fail, and a new connection becomes current, listened to |
| Http2Manager.VerifiedConnectionIsDeaf | packages/dubbo-node/src/http2-session-manager.ts:236-294 | a whole run from a new manager, at the end of which the current connection is destroyed unnoticed |
| Http2Manager.UnverifiedConnectionIsHeard | packages/dubbo-node/src/http2-session-manager.ts:236-258 | the same run without the silence, at the end of which the manager is closed |
| Http2Manager.AbortedConnectionIsReady | packages/dubbo-node/src/http2-session-manager.ts:407-417 | a whole run at the end of which the manager is ready with the connection it has aborted |
| QpsCounters.BucketIsExact | packages/dubbo-observable/src/qps-counter.ts:42-53 | whatever the clock did, a bucket counts exactly the increments of its second iff no cleanup has deleted it after one of them |
| QpsCounters.QpsRefinesHistory | packages/dubbo-observable/src/qps-counter.ts:72-91 | under a non-decreasing clock getQps is the number of increments ever made in the previous second |
| QpsCounters.QpsIsExact | packages/dubbo-observable/src/qps-counter.ts:72-79 | whatever the clock did, getQps is right iff no cleanup has deleted the previous second after an increment in it |
| QpsCounters.AtMostSixBuckets | packages/dubbo-observable/src/qps-counter.ts:44-52 | right after a cleanup at most six buckets remain, under a non-decreasing clock |
| QpsCounters.KeptIffRecent | packages/dubbo-observable/src/qps-counter.ts:44-52 | a cleanup keeps a bucket, unchanged, iff the clock is less than six seconds past the start of its second |
| QpsCounters.Second | packages/dubbo-observable/src/qps-counter.ts:65-67 | the second that contains a time, also before the epoch |
| QpsCounters.SteppingBackLosesCounts | packages/dubbo-observable/src/qps-counter.ts:44-52 | a history with a clock that steps back for which the count is wrong |
| QpsCounters.QpsCounter.Increment | packages/dubbo-observable/src/qps-counter.ts:84-91 | the buckets are those of the history with one more increment |
| QpsCounters.QpsCounter.CleanupTick | packages/dubbo-observable/src/qps-counter.ts:44-52 | the loop over the keys leaves the buckets of the history with one more cleanup |
| QpsCounters.QpsCounter.GetQps | packages/dubbo-observable/src/qps-counter.ts:72-79 | the increments of the previous second iff none was deleted, always so under a non-decreasing clock |
| NodeErrors.UnwrapNodeErrorChain | packages/dubbo-node/src/node-error.ts:73-90 | terminates on every finite graph of causes, cycles included, with the duplicate-free path to the first non-error, missing cause or repeated error |
| NodeErrors.ChainIsUnique | packages/dubbo-node/src/node-error.ts:73-90 | that specification determines the chain |

## Left out

- Liveness of the session manager: whether a verification or a connection attempt ever ends is not stated.
- Http2Manager.SessionManager.VerifySettled: between an answered PING and the callback any other event may come, in any number; microtask order is not modelled, so the model allows more runs than the code.
- Several outstanding reads on a writable iterable: conservation covers them, but a reader replaced by a later one is never answered, so no statement says that every read is.
- `transformPrepend`, `untilFirst`, `pipe` and `makeIterableAbortable`: they pass values on; errors of a consumer propagated upstream are not modelled.
- The request direction: the handler's own splitting, decompression and parsing of request messages uses the same transforms without an end frame.
- Unary calls over HTTP, content negotiation, timeouts in headers, and the unary error body.
- The `set-cookie` field, which a `Headers` object does not combine; names of JSON properties that look like array indices, whose enumeration order differs.
- Strings with lone surrogates, which `encodeURIComponent` rejects and UTF-8 replaces.
- Message texts of errors raised inside libraries (base64, protobuf, percent-decoding, illegal header fields) are fixed strings.
- Compressed frames above 2^32 bytes.
- `dubboErrorFromNodeReason` and the HTTP/2 reset codes: finite tables.
- Sockets, `fetch`, the server adapters, generated code, and option merging.
