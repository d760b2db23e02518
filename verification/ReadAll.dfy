/** Reading a byte stream into one array (packages/dubbo/src/protocol/async-iterable.ts, readAllBytes). */
module ReadAll {
  import opened Common
  import opened Errors
  import opened Streams
  import opened JsText
  import opened LimitIo

  /** The `lengthHint` argument. `OddNumber` stands for NaN, infinities and fractions. */
  datatype Hint = NoHint | Number(n: int) | OddNumber | Text(s: string)

  const MAX_SAFE_INTEGER := 0x1f_ffff_ffff_ffff

  /** `parseLengthHint`: the hint if it is a non-negative safe integer. */
  function ParseLengthHint(h: Hint): (r: Option<nat>)
    ensures forall n: nat ::
      r == Some(n) <==> n <= 9007199254740991 && (h == Number(n) || (h.Text? && ParseInt(h.s) == Some(n)))
  {
    var n := match h
      case NoHint => None
      case Number(n) => Some(n)
      case OddNumber => None
      case Text(s) => ParseInt(s);
    if n.Some? && 0 <= n.value <= MAX_SAFE_INTEGER then Some(n.value) else None
  }

  function PromiseError(hint: nat, received: nat): Reason {
    Dubbo(NewError("protocol error: promised " + Decimal(hint) + " bytes, received " + Decimal(received),
      INVALID_ARGUMENT))
  }

  /** What `readAllBytes` may return for a source carrying the bytes `all` and ending with `end`.
      Only the number of bytes reported for too long a source depends on the chunking. */
  ghost predicate Reads(all: seq<byte>, end: Outcome, max: nat, hint: Option<nat>, r: Try<seq<byte>>) {
    match hint
    case Some(n) =>
      if n > max then r == Throws(SizeError(n, max))
      else if |all| > n then exists received: nat :: n < received <= |all| && r == Throws(PromiseError(n, received))
      else if end.Failed? then r == Throws(end.reason)
      else if |all| < n then r == Throws(PromiseError(n, |all|))
      else r == Ok(all)
    case None =>
      if |all| > max then r == Throws(LimitError(max))
      else if end.Failed? then r == Throws(end.reason)
      else r == Ok(all)
  }

  /** The errors: ResourceExhausted (8) above the limit, InvalidArgument (3) for a broken promise. */
  lemma ReadErrors(n: nat, received: nat, max: nat)
    ensures LimitError(max) == Dubbo(DubboError(
        8, "message size is larger than configured readMaxBytes " + Decimal(max), map[], []))
    ensures SizeError(n, max) == Dubbo(DubboError(
        8, "message size " + Decimal(n) + " is larger than configured readMaxBytes " + Decimal(max), map[], []))
    ensures PromiseError(n, received) == Dubbo(DubboError(
        3, "protocol error: promised " + Decimal(n) + " bytes, received " + Decimal(received), map[], []))
  {
  }

  /** When reading succeeds, and that the bytes returned do not depend on the path taken. */
  lemma ReadsExactly(all: seq<byte>, end: Outcome, max: nat, hint: Option<nat>, r: Try<seq<byte>>,
          plain: Try<seq<byte>>)
    requires Reads(all, end, max, hint, r) && Reads(all, end, max, None, plain)
    ensures plain.Ok? <==> end.Done? && |all| <= max
    ensures hint.Some? ==> (r.Ok? <==> end.Done? && |all| == hint.value <= max)
    ensures r.Ok? ==> plain == r == Ok(all)
  {
  }

  method ReadAllBytes(chunks: seq<seq<byte>>, end: Outcome, readMaxBytes: nat, lengthHint: Hint)
    returns (r: Try<seq<byte>>)
    ensures Reads(Concat(chunks), end, readMaxBytes, ParseLengthHint(lengthHint), r)
  {
    var hint := ParseLengthHint(lengthHint);
    if hint.Some? {
      r := ReadPromised(chunks, end, readMaxBytes, hint.value);
    } else {
      r := ReadUnknown(chunks, end, readMaxBytes);
    }
  }

  /** The path with a valid hint: one array of the promised size. */
  method ReadPromised(chunks: seq<seq<byte>>, end: Outcome, readMaxBytes: nat, hint: nat) returns (r: Try<seq<byte>>)
    ensures Reads(Concat(chunks), end, readMaxBytes, Some(hint), r)
  {
    if hint > readMaxBytes {
      return Throws(SizeError(hint, readMaxBytes));
    }
    var buffer := new byte[hint](_ => 0);
    var offset := 0;
    for i := 0 to |chunks|
      invariant buffer.Length == hint && 0 <= offset <= hint && fresh(buffer)
      invariant buffer[..offset] == Concat(chunks[..i])
    {
      ConcatSnoc(chunks, i);
      ConcatTake(chunks, i + 1);
      if offset + |chunks[i]| > hint {
        return Throws(PromiseError(hint, offset + |chunks[i]|));
      }
      ghost var before := buffer[..];
      SetBytes(buffer, chunks[i], offset);
      assert buffer[..offset + |chunks[i]|] == before[..offset] + chunks[i];
      offset := offset + |chunks[i]|;
    }
    assert chunks[..|chunks|] == chunks;
    if end.Failed? {
      return Throws(end.reason);
    }
    if offset < hint {
      return Throws(PromiseError(hint, offset));
    }
    assert buffer[..] == buffer[..offset];
    return Ok(buffer[..]);
  }

  /** The path without a hint: collect the chunks, then copy them into one array. */
  method ReadUnknown(source: seq<seq<byte>>, end: Outcome, readMaxBytes: nat) returns (r: Try<seq<byte>>)
    ensures Reads(Concat(source), end, readMaxBytes, None, r)
  {
    var chunks: seq<seq<byte>> := [];
    var count := 0;
    for i := 0 to |source|
      invariant chunks == source[..i] && 0 <= count == |Concat(chunks)| <= readMaxBytes
    {
      ConcatSnoc(source, i);
      ConcatTake(source, i + 1);
      count := count + |source[i]|;
      if count > readMaxBytes {
        return Throws(LimitError(readMaxBytes));
      }
      chunks := chunks + [source[i]];
      assert chunks == source[..i + 1];
    }
    assert source[..|source|] == source;
    if end.Failed? {
      return Throws(end.reason);
    }
    var all := new byte[count](_ => 0);
    var offset := 0;
    while chunks != []
      invariant all.Length == count && fresh(all) && 0 <= offset <= count
      invariant all[..offset] + Concat(chunks) == Concat(source)
      decreases |chunks|
    {
      var chunk := chunks[0];
      chunks := chunks[1..];
      Associative(all[..offset], chunk, Concat(chunks));
      ghost var before := all[..];
      SetBytes(all, chunk, offset);
      assert all[..offset + |chunk|] == before[..offset] + chunk;
      offset := offset + |chunk|;
    }
    assert all[..offset] + [] == all[..offset] && |all[..offset]| == count;
    assert all[..] == all[..offset];
    return Ok(all[..]);
  }
}
