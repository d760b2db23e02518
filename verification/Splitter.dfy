/** The two incremental splitters: the async-iterable one (packages/dubbo/src/protocol/async-iterable.ts)
    and the WHATWG-stream one (packages/dubbo/src/protocol/envelope.ts). */
module Splitter {
  import opened Common
  import opened Errors
  import opened Streams
  import opened Envelopes
  import opened JsText
  import opened LimitIo

  // ----- the reference: a parser of the whole byte string

  /** The envelopes at the front of a byte string, what is left, and the length that broke the limit. */
  datatype Scan = Scan(envelopes: seq<Envelope>, rest: seq<byte>, oversized: Option<nat>) {
    predicate Accepts() {
      rest == [] && oversized == None
    }
  }

  function PrependAll(envs: seq<Envelope>, s: Scan): Scan {
    s.(envelopes := envs + s.envelopes)
  }

  lemma PrependAllTwice(a: seq<Envelope>, b: seq<Envelope>, s: Scan)
    ensures PrependAll(a, PrependAll(b, s)) == PrependAll(a + b, s)
  {
    assert a + (b + s.envelopes) == a + b + s.envelopes;
  }

  function ScanBytes(b: seq<byte>, max: nat): Scan
    decreases |b|
  {
    if |b| < 5 then Scan([], b, None)
    else
      var length := Uint32(b[1..5]);
      if length > max then Scan([], b, Some(length))
      else if |b| < 5 + length then Scan([], b, None)
      else PrependAll([Envelope(b[0], b[5..5 + length])], ScanBytes(b[5 + length..], max))
  }

  /** Why a non-empty remainder at the end of the stream is an error. */
  function Incomplete(rest: seq<byte>): Reason {
    var message :=
      if |rest| < 5 then "protocol error: incomplete envelope"
      else "protocol error: promised " + Decimal(Uint32(rest[1..5])) + " bytes in enveloped message, got "
           + Decimal(|rest| - 5) + " bytes";
    Dubbo(NewError(message, INVALID_ARGUMENT))
  }

  /** What the splitter makes of the concatenated input and the way the input ended. */
  function Split(b: seq<byte>, upstream: Outcome, max: nat): Stream<Envelope> {
    var s := ScanBytes(b, max);
    Stream(s.envelopes,
      match s.oversized
      case Some(length) => Failed(SizeError(length, max))
      case None =>
        if upstream.Failed? || s.rest == [] then upstream else Failed(Incomplete(s.rest)))
  }

  /** `b` starts with a frame announcing the whole of `data`. */
  predicate StartsWithFrame(b: seq<byte>, flags: nat, data: seq<byte>, more: seq<byte>) {
    && |b| == 5 + |data| + |more|
    && b[0] == flags
    && Uint32(b[1..5]) == |data|
    && b[5..5 + |data|] == data
    && b[5 + |data|..] == more
  }

  lemma FrameAtFront(e: Envelope, more: seq<byte>)
    requires Framable(e)
    ensures StartsWithFrame(Encode(e) + more, e.flags, e.data, more)
  {
    Uint32RoundTrip(|e.data|);
    var b := Encode(e) + more;
    assert b[1..5] == Uint32Bytes(|e.data|);
    assert b[5..5 + |e.data|] == e.data;
    assert b[5 + |e.data|..] == more;
  }

  /** Writing back the envelope read from the front of a byte string. */
  lemma FrameWrittenBack(b: seq<byte>, length: nat)
    requires |b| >= 5 && length == Uint32(b[1..5]) && |b| >= 5 + length
    ensures Encode(Envelope(b[0], b[5..5 + length])) + b[5 + length..] == b
    ensures length < TWO_TO_THE_32
  {
    Uint32BytesRoundTrip(b[1..5]);
    assert b == [b[0]] + b[1..5] + b[5..5 + length] + b[5 + length..];
  }

  lemma ScanFront(b: seq<byte>, e: Envelope, more: seq<byte>, max: nat)
    requires StartsWithFrame(b, e.flags, e.data, more)
    ensures |e.data| <= max ==> ScanBytes(b, max) == PrependAll([e], ScanBytes(more, max))
    ensures |e.data| > max ==> ScanBytes(b, max) == Scan([], b, Some(|e.data|))
  {
  }

  lemma FrameExtended(a: seq<byte>, b: seq<byte>, flags: nat, data: seq<byte>, more: seq<byte>)
    requires StartsWithFrame(a, flags, data, more)
    ensures StartsWithFrame(a + b, flags, data, more + b)
  {
    assert (a + b)[1..5] == a[1..5];
    SlicesOfPrefix(a, b, 5, 5 + |data|);
  }

  /** Appending bytes continues the scan from what was left over. */
  lemma {:induction false} ScanExtend(a: seq<byte>, b: seq<byte>, max: nat)
    ensures var s := ScanBytes(a, max);
      if s.oversized.Some?
      then ScanBytes(a + b, max) == Scan(s.envelopes, s.rest + b, s.oversized)
      else ScanBytes(a + b, max) == PrependAll(s.envelopes, ScanBytes(s.rest + b, max))
    decreases |a|
  {
    if |a| >= 5 {
      var length := Uint32(a[1..5]);
      if length <= max && |a| >= 5 + length {
        var e, more := Envelope(a[0], a[5..5 + length]), a[5 + length..];
        var s := ScanBytes(more, max);
        assert StartsWithFrame(a, e.flags, e.data, more);
        FrameExtended(a, b, e.flags, e.data, more);
        ScanFront(a + b, e, more + b, max);
        ScanExtend(more, b, max);
        PrependAllTwice([e], s.envelopes, ScanBytes(s.rest + b, max));
      } else {
        assert (a + b)[1..5] == a[1..5];
      }
    }
  }

  /** Nothing is lost: the envelopes and the remainder are the bytes read. */
  lemma {:induction false} ScanConserves(b: seq<byte>, max: nat)
    ensures var s := ScanBytes(b, max);
      && EncodeAll(s.envelopes) + s.rest == b
      && forall i | 0 <= i < |s.envelopes| :: Framable(s.envelopes[i]) && |s.envelopes[i].data| <= max
    decreases |b|
  {
    if |b| >= 5 {
      var length := Uint32(b[1..5]);
      if length <= max && |b| >= 5 + length {
        FrameWrittenBack(b, length);
        ScanConserves(b[5 + length..], max);
        ConservesStep(Envelope(b[0], b[5..5 + length]), ScanBytes(b[5 + length..], max));
      }
    }
  }

  lemma ConservesStep(e: Envelope, s: Scan)
    ensures EncodeAll([e] + s.envelopes) + s.rest == Encode(e) + (EncodeAll(s.envelopes) + s.rest)
  {
    assert ([e] + s.envelopes)[1..] == s.envelopes;
  }

  /** Encoded envelopes within the limit come back, whatever follows them. */
  lemma {:induction false} ScanEncoded(envs: seq<Envelope>, tail: seq<byte>, max: nat)
    requires forall i | 0 <= i < |envs| :: Framable(envs[i]) && |envs[i].data| <= max
    ensures ScanBytes(EncodeAll(envs) + tail, max) == PrependAll(envs, ScanBytes(tail, max))
  {
    if envs == [] {
      assert EncodeAll(envs) + tail == tail;
    } else {
      var more := EncodeAll(envs[1..]) + tail;
      assert EncodeAll(envs) + tail == Encode(envs[0]) + more;
      FrameAtFront(envs[0], more);
      ScanFront(EncodeAll(envs) + tail, envs[0], more, max);
      ScanEncoded(envs[1..], tail, max);
      PrependAllTwice([envs[0]], envs[1..], ScanBytes(tail, max));
      assert envs == [envs[0]] + envs[1..];
    }
  }

  /** The first oversized envelope stops the scan with everything before it yielded. */
  lemma ScanOversized(envs: seq<Envelope>, k: nat, max: nat)
    requires k < |envs|
    requires forall i | 0 <= i < |envs| :: Framable(envs[i])
    requires forall i | 0 <= i < k :: |envs[i].data| <= max
    requires |envs[k].data| > max
    ensures var s := ScanBytes(EncodeAll(envs), max);
      s.envelopes == envs[..k] && s.oversized == Some(|envs[k].data|)
  {
    var tail := EncodeAll(envs[k..]);
    EncodeAllSplit(envs[..k], envs[k..]);
    assert envs == envs[..k] + envs[k..];
    ScanEncoded(envs[..k], tail, max);
    FrameAtFront(envs[k], EncodeAll(envs[k..][1..]));
    ScanFront(tail, envs[k], EncodeAll(envs[k..][1..]), max);
  }

  /** A proper prefix of an encoding yields fewer envelopes, and is never mistaken for an oversized one. */
  lemma {:induction false} ScanTruncated(envs: seq<Envelope>, b: seq<byte>, max: nat)
    requires forall i | 0 <= i < |envs| :: Framable(envs[i]) && |envs[i].data| <= max
    requires b < EncodeAll(envs)
    ensures var s := ScanBytes(b, max);
      s.oversized == None && |s.envelopes| < |envs| && s.envelopes == envs[..|s.envelopes|]
    decreases |envs|
  {
    hide StartsWithFrame, Encode, ScanBytes;
    var e, more := envs[0], EncodeAll(envs[1..]);
    FrameAtFront(e, more);
    if |b| < 5 + |e.data| {
      ScanShort(b, EncodeAll(envs), e, more, max);
    } else {
      var b' := b[5 + |e.data|..];
      PrefixAfter(b, Encode(e), more);
      FrameAtFront(e, b');
      ScanFront(b, e, b', max);
      ScanTruncated(envs[1..], b', max);
      var s := ScanBytes(b', max);
      assert envs[..|s.envelopes| + 1] == [e] + envs[1..][..|s.envelopes|];
    }
  }

  lemma PrefixAfter<T>(b: seq<T>, front: seq<T>, more: seq<T>)
    requires b < front + more && |b| >= |front|
    ensures b == front + b[|front|..] && b[|front|..] < more
  {
    var whole := front + more;
    assert b[..|front|] == whole[..|front|] == front;
    assert more == whole[|front|..];
  }

  lemma ScanShort(b: seq<byte>, whole: seq<byte>, e: Envelope, more: seq<byte>, max: nat)
    requires StartsWithFrame(whole, e.flags, e.data, more) && b < whole && |b| < 5 + |e.data| && |e.data| <= max
    ensures ScanBytes(b, max) == Scan([], b, None)
  {
    if |b| >= 5 {
      assert b[1..5] == whole[1..5];
    }
  }

  /** The language accepted: exactly the encodings of framable envelopes within the limit, and each
      byte string encodes at most one list of them. */
  lemma AcceptsExactlyEncodings(b: seq<byte>, max: nat, envs: seq<Envelope>)
    ensures (ScanBytes(b, max).Accepts() && ScanBytes(b, max).envelopes == envs)
        <==> (EncodeAll(envs) == b && forall i | 0 <= i < |envs| :: Framable(envs[i]) && |envs[i].data| <= max)
  {
    ScanConserves(b, max);
    assert EncodeAll(envs) + [] == EncodeAll(envs);
    if EncodeAll(envs) == b && forall i | 0 <= i < |envs| :: Framable(envs[i]) && |envs[i].data| <= max {
      ScanEncoded(envs, [], max);
    }
  }

  /** A single envelope survives framing exactly when the prefix can describe it. */
  lemma FramableIsNecessary(e: Envelope, max: nat)
    requires |e.data| <= max
    ensures Framable(e) <==> ScanBytes(Encode(e), max) == Scan([e], [], None)
  {
    ScanConserves(Encode(e), max);
    if Framable(e) {
      FrameAtFront(e, []);
      assert Encode(e) + [] == Encode(e);
      ScanFront(Encode(e), e, [], max);
    }
    assert [e][0] == e;
  }

  /** What is said of a body cut inside an envelope: the envelopes before it come first. A header that announces
      too much is ResourceExhausted (8) as soon as it is complete, however the input ends; otherwise a failure of
      the input comes first, and a normal end is InvalidArgument (3) with the number of bytes promised and got. */
  lemma CutFrameSays(envs: seq<Envelope>, e: Envelope, k: nat, upstream: Outcome, max: nat)
    requires forall i | 0 <= i < |envs| :: Framable(envs[i]) && |envs[i].data| <= max
    requires Framable(e) && 0 < k < |Encode(e)|
    ensures var r := Split(EncodeAll(envs) + Encode(e)[..k], upstream, max);
      && r.values == envs
      && r.end ==
        if k >= 5 && |e.data| > max then
          Failed(Dubbo(DubboError(8, "message size " + Decimal(|e.data|) + " is larger than configured readMaxBytes "
                                     + Decimal(max), map[], [])))
        else if upstream.Failed? then upstream
        else
          Failed(Dubbo(DubboError(3,
            if k < 5 then "protocol error: incomplete envelope"
            else "protocol error: promised " + Decimal(|e.data|) + " bytes in enveloped message, got "
                 + Decimal(k - 5) + " bytes", map[], [])))
  {
    hide Encode;
    var tail := Encode(e)[..k];
    ScanEncoded(envs, tail, max);
    FrameAtFront(e, []);
    assert Encode(e) + [] == Encode(e);
    if k >= 5 {
      assert tail[1..5] == Encode(e)[1..5];
    }
    assert envs + [] == envs;
  }

  // ----- transformSplitEnvelope

  datatype Header = Header(flags: nat, length: nat)

  function PeekHeader(buffer: seq<byte>): Option<Header> {
    if |buffer| < 5 then None else Some(Header(buffer[0], Uint32(buffer[1..5])))
  }

  function ShiftEnvelope(buffer: seq<byte>, header: Header): (Option<Envelope>, seq<byte>) {
    if |buffer| < 5 + header.length then (None, buffer)
    else (Some(Envelope(header.flags, buffer[5..5 + header.length])), buffer[5 + header.length..])
  }

  /** The inner loop: shift envelopes off the buffer until it holds none, or one is too large. */
  method ShiftEnvelopes(chunkedBuffer: seq<byte>, readMaxBytes: nat)
    returns (yielded: seq<Envelope>, buffer: seq<byte>, oversized: Option<nat>)
    ensures Scan(yielded, buffer, oversized) == ScanBytes(chunkedBuffer, readMaxBytes)
  {
    yielded, buffer, oversized := [], chunkedBuffer, None;
    while true
      invariant PrependAll(yielded, ScanBytes(buffer, readMaxBytes)) == ScanBytes(chunkedBuffer, readMaxBytes)
      invariant oversized == None
      decreases |buffer|
    {
      var header := PeekHeader(buffer);
      if header == None {
        break;
      }
      if header.value.length > readMaxBytes {
        oversized := Some(header.value.length);
        break;
      }
      var (env, rest) := ShiftEnvelope(buffer, header.value);
      if env == None {
        break;
      }
      PrependAllTwice(yielded, [env.value], ScanBytes(rest, readMaxBytes));
      yielded, buffer := yielded + [env.value], rest;
    }
  }

  /** The generator. `upstream` is how the iteration over the chunks ends.
      At every chunk boundary the envelopes yielded and the buffer are the bytes consumed. */
  method SplitEnvelopes(chunks: seq<seq<byte>>, upstream: Outcome, readMaxBytes: nat)
    returns (yielded: seq<Envelope>, end: Outcome)
    ensures Stream(yielded, end) == Split(Concat(chunks), upstream, readMaxBytes)
  {
    var buffer: seq<byte> := [];
    yielded := [];
    for i := 0 to |chunks|
      invariant ScanBytes(Concat(chunks[..i]), readMaxBytes) == Scan(yielded, buffer, None)
      invariant EncodeAll(yielded) + buffer == Concat(chunks[..i])
    {
      ScanExtend(Concat(chunks[..i]), chunks[i], readMaxBytes);
      ConcatSnoc(chunks, i);
      var envs, rest, oversized := ShiftEnvelopes(buffer + chunks[i], readMaxBytes);
      yielded, buffer := yielded + envs, rest;
      if oversized.Some? {
        ConcatTake(chunks, i + 1);
        ScanExtend(Concat(chunks[..i + 1]), Concat(chunks[i + 1..]), readMaxBytes);
        end := Failed(SizeError(oversized.value, readMaxBytes));
        return;
      }
      ScanConserves(Concat(chunks[..i + 1]), readMaxBytes);
    }
    assert chunks[..|chunks|] == chunks;
    if upstream.Failed? {
      end := upstream;
    } else if |buffer| > 0 {
      end := Failed(Incomplete(buffer));
    } else {
      end := Done;
    }
  }

  // ----- createEnvelopeReadableStream

  /** `subarray(begin, end)`: negative positions count from the end, all are clamped. */
  function Subarray(b: seq<byte>, begin: int, end: int): seq<byte> {
    var from := Position(|b|, begin);
    var to := Position(|b|, end);
    if from < to then b[from..to] else []
  }

  function Position(length: nat, p: int): (r: nat)
    ensures r <= length
  {
    if p < 0 then (if length + p < 0 then 0 else length + p) else if p > length then length else p
  }

  /** `v << 8` on a JavaScript number: the result is a signed 32-bit integer. */
  function ShiftLeft8(v: int): int {
    var w := v * 256 % TWO_TO_THE_32;
    if w < TWO_TO_THE_31 then w else w - TWO_TO_THE_32
  }

  /** The length loop of `pull`, read as a fold. */
  function ShiftedLength(b: seq<byte>): int {
    if b == [] then 0 else ShiftLeft8(ShiftedLength(b[..|b| - 1])) + b[|b| - 1]
  }

  lemma NextByte(b: seq<byte>, x: byte)
    ensures ShiftedLength([]) == 0 && ShiftedLength(b + [x]) == ShiftLeft8(ShiftedLength(b)) + x
  {
    hide ShiftLeft8;
    assert (b + [x])[..|b|] == b;
  }

  /** Below 2^24 the sign bit alone decides what the shift gives. */
  lemma ShiftIsSigned(v: nat)
    requires v < 0x100_0000
    ensures ShiftLeft8(v) == if v < 0x80_0000 then v * 256 else v * 256 - TWO_TO_THE_32
  {
  }

  /** The length of the first three bytes. */
  lemma ThreeBytes(b: seq<byte>)
    requires |b| == 4
    ensures ShiftedLength(b[..3]) == b[0] as int * 0x1_0000 + b[1] as int * 256 + b[2] as int
  {
    hide ShiftedLength, ShiftLeft8;
    NextByte([], b[0]);
    NextByte([b[0]], b[1]);
    NextByte([b[0], b[1]], b[2]);
    assert [] + [b[0]] == [b[0]] && [b[0]] + [b[1]] == [b[0], b[1]] && [b[0], b[1]] + [b[2]] == b[..3];
    ShiftIsSigned(0);
    ShiftIsSigned(b[0]);
    ShiftIsSigned(b[0] as int * 256 + b[1] as int);
  }

  /** The loop computes the length as a signed number. */
  lemma ShiftedLengthIsSigned(b: seq<byte>)
    requires |b| == 4
    ensures ShiftedLength(b) == if Uint32(b) < TWO_TO_THE_31 then Uint32(b) else Uint32(b) - TWO_TO_THE_32
  {
    hide ShiftedLength, ShiftLeft8;
    ThreeBytes(b);
    assert b == b[..3] + [b[3]];
    NextByte(b[..3], b[3]);
    ShiftIsSigned(b[0] as int * 0x1_0000 + b[1] as int * 256 + b[2] as int);
  }

  datatype Pulled = Enqueued(envelope: Envelope) | Closed | Errored(reason: Reason)

  function Premature(): Reason {
    Dubbo(NewError("premature end of stream", DATA_LOSS))
  }

  /** The signed length in the header of a buffer. */
  function HeaderLength(buffer: seq<byte>): int
    requires |buffer| >= 5
  {
    ShiftedLength(buffer[1..5])
  }

  /** One `pull`, as a function of the reader's buffer and the chunks it has not read. */
  function PullOf(buffer: seq<byte>, source: seq<seq<byte>>, upstream: Outcome): (Pulled, seq<byte>, seq<seq<byte>>)
    decreases |source|
  {
    if |buffer| >= 5 && |buffer| >= HeaderLength(buffer) + 5 then Take(buffer, source)
    else if source != [] then PullOf(buffer + source[0], source[1..], upstream)
    else if upstream.Failed? then (Errored(upstream.reason), buffer, [])
    else if |buffer| >= 5 then Take(buffer, [])
    else if buffer == [] then (Closed, buffer, [])
    else (Errored(Premature()), buffer, [])
  }

  function Take(buffer: seq<byte>, source: seq<seq<byte>>): (Pulled, seq<byte>, seq<seq<byte>>)
    requires |buffer| >= 5
  {
    var length := HeaderLength(buffer);
    (Enqueued(Envelope(buffer[0], Subarray(buffer, 5, 5 + length))),
     Subarray(buffer, 5 + length, |buffer|),
     source)
  }

  class EnvelopeReader {
    var buffer: seq<byte>
    var source: seq<seq<byte>>
    const upstream: Outcome

    constructor (source: seq<seq<byte>>, upstream: Outcome)
      ensures this.buffer == [] && this.source == source && this.upstream == upstream
    {
      this.buffer, this.source, this.upstream := [], source, upstream;
    }

    /** The loop over the four bytes of the length. */
    method ReadLength() returns (length: int)
      requires |buffer| >= 5
      ensures length == HeaderLength(buffer)
    {
      hide ShiftLeft8;
      length := 0;
      for i := 1 to 5
        invariant length == ShiftedLength(buffer[1..i])
      {
        assert buffer[1..i + 1][..i - 1] == buffer[1..i];
        length := ShiftLeft8(length) + buffer[i];
      }
    }

    method Pull() returns (r: Pulled)
      modifies this
      ensures (r, buffer, source) == PullOf(old(buffer), old(source), upstream)
    {
      hide ShiftedLength, Subarray;
      var header: Option<(nat, int)> := None;
      while true
        invariant PullOf(buffer, source, upstream) == PullOf(old(buffer), old(source), upstream)
        invariant header.Some? ==> |buffer| >= 5 && header.value == (buffer[0], HeaderLength(buffer))
        decreases |source|
      {
        if header.None? && |buffer| >= 5 {
          var length := ReadLength();
          header := Some((buffer[0], length));
        }
        if header.Some? && |buffer| >= header.value.1 + 5 {
          break;
        }
        if source == [] {
          if upstream.Failed? {
            return Errored(upstream.reason);
          }
          break;
        }
        assert |buffer| >= 5 ==> (buffer + source[0])[1..5] == buffer[1..5];
        buffer, source := buffer + source[0], source[1..];
      }
      if header.None? {
        if |buffer| == 0 {
          return Closed;
        }
        return Errored(Premature());
      }
      var (flags, length) := header.value;
      var data := Subarray(buffer, 5, 5 + length);
      buffer := Subarray(buffer, 5 + length, |buffer|);
      return Enqueued(Envelope(flags, data));
    }
  }

  // ----- comparing the two splitters

  /** Every header met while reading `b` frame by frame announces a length below 2^31. */
  predicate SmallHeaders(b: seq<byte>)
    decreases |b|
  {
    |b| >= 5 ==>
      var length := Uint32(b[1..5]);
      length < TWO_TO_THE_31 && (|b| >= 5 + length ==> SmallHeaders(b[5 + length..]))
  }

  /** The outcome of one pull on the whole remaining input `b`. */
  predicate PullsFrom(b: seq<byte>, upstream: Outcome, p: (Pulled, seq<byte>, seq<seq<byte>>)) {
    if |b| >= 5 && (upstream.Done? || |b| >= 5 + Uint32(b[1..5])) then
      var end := if |b| < 5 + Uint32(b[1..5]) then |b| else 5 + Uint32(b[1..5]);
      p.0 == Enqueued(Envelope(b[0], b[5..end])) && p.1 + Concat(p.2) == b[end..]
    else if upstream.Failed? then p.0 == Errored(upstream.reason)
    else if b == [] then p.0 == Closed
    else p.0 == Errored(Premature())
  }

  lemma TakeForgetsChunks(buffer: seq<byte>, source: seq<seq<byte>>, upstream: Outcome)
    requires |buffer| >= 5 && Uint32(buffer[1..5]) < TWO_TO_THE_31
    requires |buffer| >= 5 + Uint32(buffer[1..5]) || (source == [] && upstream.Done?)
    ensures PullsFrom(buffer + Concat(source), upstream, Take(buffer, source))
  {
    hide ShiftedLength, HeaderLength, Uint32, Subarray;
    var b := buffer + Concat(source);
    assert buffer[1..5] == b[1..5];
    assert source == [] ==> b == buffer;
    SmallHeaderLength(buffer);
    var length := HeaderLength(buffer);
    var end := if |buffer| < 5 + length then |buffer| else 5 + length;
    SlicesOfPrefix(buffer, Concat(source), 5, end);
    SubarrayOf(buffer, 5, 5 + length);
    SubarrayOf(buffer, 5 + length, |buffer|);
  }

  lemma SmallHeaderLength(buffer: seq<byte>)
    requires |buffer| >= 5 && Uint32(buffer[1..5]) < TWO_TO_THE_31
    ensures HeaderLength(buffer) == Uint32(buffer[1..5])
  {
    hide ShiftedLength;
    ShiftedLengthIsSigned(buffer[1..5]);
  }

  /** `subarray` between positions that are not negative. */
  lemma SubarrayOf(b: seq<byte>, begin: nat, end: nat)
    ensures var from, to := if begin < |b| then begin else |b|, if end < |b| then end else |b|;
      Subarray(b, begin, end) == if from < to then b[from..to] else []
  {
  }

  /** One pull depends on the concatenation, and on how the source ends, only, as long as the header's length
      is small. */
  lemma {:induction false} PullForgetsChunks(buffer: seq<byte>, source: seq<seq<byte>>, upstream: Outcome)
    requires SmallHeaders(buffer + Concat(source))
    ensures PullsFrom(buffer + Concat(source), upstream, PullOf(buffer, source, upstream))
    decreases |source|
  {
    hide ShiftedLength, Take, Subarray;
    var b := buffer + Concat(source);
    assert source == [] ==> b == buffer;
    if |buffer| >= 5 {
      assert buffer[1..5] == b[1..5];
      ShiftedLengthIsSigned(b[1..5]);
      assert HeaderLength(buffer) == Uint32(b[1..5]);
    }
    if source != [] && !(|buffer| >= 5 && |buffer| >= HeaderLength(buffer) + 5) {
      Associative(buffer, source[0], Concat(source[1..]));
      PullForgetsChunks(buffer + source[0], source[1..], upstream);
    } else if |buffer| >= 5 && (|buffer| >= HeaderLength(buffer) + 5 || upstream.Done?) {
      TakeForgetsChunks(buffer, source, upstream);
    }
  }

  /** Pulling until the stream closes or errors. */
  function PullAll(buffer: seq<byte>, source: seq<seq<byte>>, upstream: Outcome): Stream<Envelope>
    requires SmallHeaders(buffer + Concat(source))
    decreases |buffer + Concat(source)|
  {
    PullForgetsChunks(buffer, source, upstream);
    var (r, buffer', source') := PullOf(buffer, source, upstream);
    match r
    case Closed => Stream([], Done)
    case Errored(e) => Stream([], Failed(e))
    case Enqueued(e) =>
      assert (buffer + Concat(source))[|buffer + Concat(source)|..] == [];
      Prepend(e, PullAll(buffer', source', upstream))
  }

  /** When the two splitters agree. If the input ends normally: exactly when it is accepted, because the reader
      reports a truncated header with another code, enqueues a truncated body short, and enforces no limit. If
      it fails: exactly when no frame is oversized, or the failure cuts that frame short and happens to be the
      very error the limit raises. */
  predicate Agreeing(b: seq<byte>, upstream: Outcome, max: nat) {
    var s := ScanBytes(b, max);
    match upstream
    case Done => s.Accepts()
    case Failed(reason) =>
      s.oversized.None? || (|s.rest| < 5 + s.oversized.value && reason == SizeError(s.oversized.value, max))
  }

  /** `PullAll`, unfolded once. */
  lemma PullAllStep(buffer: seq<byte>, source: seq<seq<byte>>, upstream: Outcome)
    requires SmallHeaders(buffer + Concat(source))
    ensures var p := PullOf(buffer, source, upstream);
      && PullsFrom(buffer + Concat(source), upstream, p)
      && (p.0.Closed? ==> PullAll(buffer, source, upstream) == Stream([], Done))
      && (p.0.Errored? ==> PullAll(buffer, source, upstream) == Stream([], Failed(p.0.reason)))
      && (p.0.Enqueued? ==>
            && SmallHeaders(p.1 + Concat(p.2)) && |p.1 + Concat(p.2)| < |buffer + Concat(source)|
            && PullAll(buffer, source, upstream) == Prepend(p.0.envelope, PullAll(p.1, p.2, upstream)))
  {
    hide PullOf;
    PullForgetsChunks(buffer, source, upstream);
    var b := buffer + Concat(source);
    assert b[|b|..] == [];
  }

  /** The front of the input is a whole frame within the limit. */
  predicate FrontFits(b: seq<byte>, max: nat) {
    |b| >= 5 && Uint32(b[1..5]) <= max && |b| >= 5 + Uint32(b[1..5])
  }

  lemma SplitStep(b: seq<byte>, upstream: Outcome, max: nat)
    requires FrontFits(b, max)
    ensures var end := 5 + Uint32(b[1..5]);
      && Split(b, upstream, max) == Prepend(Envelope(b[0], b[5..end]), Split(b[end..], upstream, max))
      && (Agreeing(b, upstream, max) <==> Agreeing(b[end..], upstream, max))
  {
    hide Uint32, SizeError, Incomplete;
  }

  /** Otherwise the splitter yields nothing more, and agrees with a reader that just fails. */
  lemma SplitEnds(b: seq<byte>, upstream: Outcome, max: nat)
    requires !FrontFits(b, max)
    ensures Split(b, upstream, max).values == []
    ensures |b| >= 5 && (upstream.Done? || |b| >= 5 + Uint32(b[1..5])) ==> !Agreeing(b, upstream, max)
    ensures upstream.Failed? && !(|b| >= 5 && |b| >= 5 + Uint32(b[1..5])) ==>
      (Agreeing(b, upstream, max) <==> Split(b, upstream, max).end == upstream)
    ensures upstream.Done? && |b| < 5 ==>
      (Agreeing(b, upstream, max) <==> b == [])
      && Split(b, upstream, max).end == (if b == [] then Done else Failed(Incomplete(b)))
  {
    hide Uint32, SizeError, Incomplete;
  }

  /** Both splitters refuse one to four stray bytes, with different errors: InvalidArgument (3) and DataLoss (15). */
  lemma StrayBytesSay(buffer: seq<byte>, source: seq<seq<byte>>, max: nat)
    requires 0 < |buffer + Concat(source)| < 5
    ensures Split(buffer + Concat(source), Done, max) ==
      Stream([], Failed(Dubbo(DubboError(3, "protocol error: incomplete envelope", map[], []))))
    ensures PullOf(buffer, source, Done).0 == Errored(Dubbo(DubboError(15, "premature end of stream", map[], [])))
  {
    hide PullOf;
    PullForgetsChunks(buffer, source, Done);
  }

  lemma IncompleteIsNotPremature(b: seq<byte>)
    ensures Incomplete(b) != Premature()
  {
  }

  /** The reader agrees with the splitter exactly then. */
  lemma {:induction false} ReaderAgreesExactly(buffer: seq<byte>, source: seq<seq<byte>>, upstream: Outcome, max: nat)
    requires SmallHeaders(buffer + Concat(source))
    ensures var b := buffer + Concat(source);
      PullAll(buffer, source, upstream) == Split(b, upstream, max) <==> Agreeing(b, upstream, max)
    decreases |buffer + Concat(source)|
  {
    hide PullOf, PullAll, Split, Agreeing, SmallHeaders, Uint32, Incomplete, Premature;
    var b := buffer + Concat(source);
    PullAllStep(buffer, source, upstream);
    var p := PullOf(buffer, source, upstream);
    if FrontFits(b, max) {
      ReaderAgreesExactly(p.1, p.2, upstream, max);
      SplitStep(b, upstream, max);
      PrependInjective(p.0.envelope, PullAll(p.1, p.2, upstream), Split(p.1 + Concat(p.2), upstream, max));
    } else {
      SplitEnds(b, upstream, max);
      IncompleteIsNotPremature(b);
    }
  }

  /** A frame that announces two bytes of payload and carries one: enqueued by the one, refused by the other. */
  lemma TruncatedBodyIsEnqueued()
    ensures var b: seq<byte> := [0, 0, 0, 0, 2, 7];
      && PullOf(b, [], Done).0 == Enqueued(Envelope(0, [7]))
      && Split(b, Done, 2) == Stream([], Failed(Incomplete(b)))
  {
    hide ShiftedLength, Incomplete;
    var b: seq<byte> := [0, 0, 0, 0, 2, 7];
    assert b[1..5] == [0, 0, 0, 2] && b[5..6] == [7];
    ShiftedLengthIsSigned(b[1..5]);
  }

  lemma PrependInjective<T>(v: T, s: Stream<T>, t: Stream<T>)
    ensures Prepend(v, s) == Prepend(v, t) <==> s == t
  {
    assert Prepend(v, s).values[1..] == s.values;
    assert Prepend(v, t).values[1..] == t.values;
  }

  lemma {:induction false} SmallEnvelopesHaveSmallHeaders(envs: seq<Envelope>)
    requires forall i | 0 <= i < |envs| :: envs[i].flags < 256 && |envs[i].data| < TWO_TO_THE_31
    ensures SmallHeaders(EncodeAll(envs))
  {
    if envs != [] {
      SmallEnvelopesHaveSmallHeaders(envs[1..]);
      FrameAtFront(envs[0], EncodeAll(envs[1..]));
      SmallHeaderAtFront(EncodeAll(envs), envs[0], EncodeAll(envs[1..]));
    }
  }

  lemma SmallHeaderAtFront(b: seq<byte>, e: Envelope, more: seq<byte>)
    requires StartsWithFrame(b, e.flags, e.data, more)
    requires |e.data| < TWO_TO_THE_31 && SmallHeaders(more)
    ensures SmallHeaders(b)
  {
  }

  /** On whole envelopes below 2^31 bytes and within the limit, for every pair of chunkings, both
      splitters give the envelopes back. */
  lemma BothSplittersReturn(envs: seq<Envelope>, source: seq<seq<byte>>, max: nat)
    requires forall i | 0 <= i < |envs| ::
      envs[i].flags < 256 && |envs[i].data| < TWO_TO_THE_31 && |envs[i].data| <= max
    requires Concat(source) == EncodeAll(envs)
    ensures SmallHeaders([] + Concat(source))
    ensures PullAll([], source, Done) == Split(Concat(source), Done, max) == Stream(envs, Done)
  {
    SmallEnvelopesHaveSmallHeaders(envs);
    assert [] + Concat(source) == Concat(source);
    AcceptsExactlyEncodings(Concat(source), max, envs);
    ReaderAgreesExactly([], source, Done, max);
  }

  /** The reader's buffer once it can hold a header. */
  function Front(buffer: seq<byte>, source: seq<seq<byte>>): seq<byte>
    decreases |source|
  {
    if |buffer| >= 5 || source == [] then buffer else Front(buffer + source[0], source[1..])
  }

  lemma {:induction false} FrontIsPrefix(buffer: seq<byte>, source: seq<seq<byte>>)
    requires |buffer + Concat(source)| >= 5
    ensures |Front(buffer, source)| >= 5 && Front(buffer, source) <= buffer + Concat(source)
    decreases |source|
  {
    if |buffer| < 5 && source != [] {
      Associative(buffer, source[0], Concat(source[1..]));
      FrontIsPrefix(buffer + source[0], source[1..]);
    }
  }

  lemma HeaderOfFrame(b: seq<byte>, e: Envelope, more: seq<byte>)
    requires Framable(e) && StartsWithFrame(b, e.flags, e.data, more)
    ensures HeaderLength(b) == if |e.data| < TWO_TO_THE_31 then |e.data| else |e.data| - TWO_TO_THE_32
  {
    ShiftedLengthIsSigned(b[1..5]);
  }

  /** A frame below 2^31 bytes is enqueued as it is, however it is chunked and whatever comes after it. */
  lemma {:induction false} PullSmall(buffer: seq<byte>, source: seq<seq<byte>>, e: Envelope, more: seq<byte>)
    requires Framable(e) && |e.data| < TWO_TO_THE_31 && StartsWithFrame(buffer + Concat(source), e.flags, e.data, more)
    ensures PullOf(buffer, source, Done).0 == Enqueued(e)
    decreases |source|
  {
    var b := buffer + Concat(source);
    HeaderOfFrame(b, e, more);
    assert source == [] ==> b == buffer;
    assert |buffer| >= 5 ==> buffer[1..5] == b[1..5];
    if |buffer| >= 5 && |buffer| >= HeaderLength(buffer) + 5 {
      TakeForgetsChunks(buffer, source, Done);
    } else {
      Associative(buffer, source[0], Concat(source[1..]));
      PullSmall(buffer + source[0], source[1..], e, more);
    }
  }

  /** A larger frame is taken as soon as its header is there. */
  lemma {:induction false} PullLarge(buffer: seq<byte>, source: seq<seq<byte>>, e: Envelope, more: seq<byte>)
    requires Framable(e) && |e.data| >= TWO_TO_THE_31 && StartsWithFrame(buffer + Concat(source), e.flags, e.data, more)
    ensures |Front(buffer, source)| >= 5
    ensures PullOf(buffer, source, Done).0 == Take(Front(buffer, source), []).0
    decreases |source|
  {
    var b := buffer + Concat(source);
    HeaderOfFrame(b, e, more);
    assert source == [] ==> b == buffer;
    assert |buffer| >= 5 ==> buffer[1..5] == b[1..5];
    if |buffer| < 5 {
      Associative(buffer, source[0], Concat(source[1..]));
      PullLarge(buffer + source[0], source[1..], e, more);
    }
  }

  /** What a negative length leaves of the payload. */
  lemma NegativeEnd(front: seq<byte>, length: nat)
    requires |front| >= 5 && TWO_TO_THE_31 <= length < TWO_TO_THE_32
    ensures var data := Subarray(front, 5, 5 + length - TWO_TO_THE_32);
      if |front| == TWO_TO_THE_32 && length < TWO_TO_THE_32 - 5 then data == front[5..5 + length] else |data| != length
  {
  }

  /** The bound, exactly: for every chunking, and whatever comes after it, an envelope is enqueued as it is iff
      it is shorter than 2^31 bytes, or by accident: its header is followed by fewer than 2^32 - 5 bytes of
      payload and arrives with a buffer of exactly 2^32 bytes. */
  lemma ReaderBoundIsExact(e: Envelope, more: seq<byte>, source: seq<seq<byte>>)
    requires Framable(e) && Concat(source) == Encode(e) + more
    ensures PullOf([], source, Done).0 == Enqueued(e)
      <==> |e.data| < TWO_TO_THE_31 || (|e.data| < TWO_TO_THE_32 - 5 && |Front([], source)| == TWO_TO_THE_32)
  {
    hide PullOf, Front, ShiftedLength, Encode, Subarray;
    var b := Encode(e) + more;
    FrameAtFront(e, more);
    assert [] + Concat(source) == b;
    if |e.data| < TWO_TO_THE_31 {
      PullSmall([], source, e, more);
    } else {
      PullLarge([], source, e, more);
      FrontIsPrefix([], source);
      TakeLarge(b, Front([], source), e, more);
    }
  }

  lemma TakeLarge(b: seq<byte>, front: seq<byte>, e: Envelope, more: seq<byte>)
    requires Framable(e) && |e.data| >= TWO_TO_THE_31 && StartsWithFrame(b, e.flags, e.data, more)
    requires |front| >= 5 && front <= b
    ensures Take(front, []).0 == Enqueued(e) <==> |e.data| < TWO_TO_THE_32 - 5 && |front| == TWO_TO_THE_32
  {
    hide ShiftedLength, Subarray;
    HeaderOfFrame(b, e, more);
    assert front[1..5] == b[1..5];
    NegativeEnd(front, |e.data|);
    if |front| == TWO_TO_THE_32 && |e.data| < TWO_TO_THE_32 - 5 {
      assert b == front + b[|front|..];
      SlicesOfPrefix(front, b[|front|..], 5, 5 + |e.data|);
    }
  }

  /** When a pull enqueues an envelope and consumes nothing, so that the next pull does the same: exactly when
      the length announced is 2^32 - 5, or between 2^31 and that while the buffer is too short for it to matter
      that a negative position counts from the end. */
  lemma ReaderStuckIff(buffer: seq<byte>, source: seq<seq<byte>>, upstream: Outcome)
    requires |buffer| >= 5
    ensures var (r, buffer', source') := PullOf(buffer, source, upstream);
      var length := Uint32(buffer[1..5]);
      (r.Enqueued? && buffer' == buffer && source' == source)
      <==>
      (TWO_TO_THE_31 <= length && (length == TWO_TO_THE_32 - 5 || |buffer| + length <= TWO_TO_THE_32 - 5))
  {
    hide ShiftedLength, Uint32;
    ShiftedLengthIsSigned(buffer[1..5]);
    assert HeaderLength(buffer) == ShiftedLength(buffer[1..5]);
    TakeLeaves(buffer, source);
    if source != [] {
      PullShortens(buffer + source[0], source[1..], upstream);
    }
  }

  /** What a taken envelope leaves in the buffer. */
  lemma TakeLeaves(buffer: seq<byte>, source: seq<seq<byte>>)
    requires |buffer| >= 5
    ensures var end := 5 + HeaderLength(buffer);
      Take(buffer, source).1 == buffer <==> end == 0 || (end < 0 && |buffer| + end <= 0)
  {
    hide ShiftedLength, HeaderLength;
  }

  lemma {:induction false} PullShortens(buffer: seq<byte>, source: seq<seq<byte>>, upstream: Outcome)
    ensures |PullOf(buffer, source, upstream).2| <= |source|
    decreases |source|
  {
    if source != [] {
      PullShortens(buffer + source[0], source[1..], upstream);
    }
  }

  lemma HugeHeader()
    ensures var header: seq<byte> := [0, 255, 255, 255, 251];
      header[1..5] == [255, 255, 255, 251] && Uint32(header[1..5]) == 0xffff_fffb && HeaderLength(header) == -5
  {
    hide ShiftedLength;
    var header: seq<byte> := [0, 255, 255, 255, 251];
    assert header[1..5] == [255, 255, 255, 251];
    ShiftedLengthIsSigned(header[1..5]);
  }

  /** A five-byte header announcing 2^32 - 5 bytes is enqueued as an empty envelope and never consumed:
      the reader makes no progress, where the other splitter rejects it. */
  lemma ReaderStuckOnHugeLength()
    ensures var header: seq<byte> := [0, 255, 255, 255, 251];
      && PullOf(header, [], Done) == (Enqueued(Envelope(0, [])), header, [])
      && Split(header, Done, 0xffff_ffff).end.Failed?
  {
    hide ShiftedLength, Uint32, HeaderLength;
    var header: seq<byte> := [0, 255, 255, 255, 251];
    HugeHeader();
    assert header[0..5] == header;
  }
}
