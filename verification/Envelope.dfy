/** The 5-byte envelope prefix, its codec in place on byte arrays, and the compressed flag
    (packages/dubbo/src/protocol/envelope.ts). */
module Envelopes {
  import opened Common
  import opened Errors

  /** Flags are a JavaScript number: only what is read back from the wire is known to be a byte. */
  datatype Envelope = Envelope(flags: nat, data: seq<byte>)

  const TWO_TO_THE_32 := 0x1_0000_0000
  const TWO_TO_THE_31 := 0x8000_0000

  /** `(flags & mask) === mask` for a mask with one bit. */
  predicate HasFlag(flags: nat, mask: nat)
    requires mask > 0
  {
    flags / mask % 2 == 1
  }

  const COMPRESSED_FLAG := 1
  const END_STREAM_FLAG := 2
  const TRAILER_FLAG := 128

  // ----- big-endian 32-bit lengths

  /** `setUint32(n)`: the low 32 bits, most significant byte first. */
  function Uint32Bytes(n: nat): (b: seq<byte>)
    ensures |b| == 4
  {
    [n / 256 / 256 / 256 % 256, n / 256 / 256 % 256, n / 256 % 256, n % 256]
  }

  /** `getUint32`. */
  function Uint32(b: seq<byte>): nat
    requires |b| == 4
  {
    b[0] as int * 0x100_0000 + b[1] as int * 0x1_0000 + b[2] as int * 0x100 + b[3] as int
  }

  lemma Uint32RoundTrip(n: nat)
    ensures Uint32(Uint32Bytes(n)) == n % TWO_TO_THE_32
  {
    var q := n / 256 / 256 / 256 / 256;
    var r := n - TWO_TO_THE_32 * q;
    assert n / 256 / 256 / 256 == 256 * q + n / 256 / 256 / 256 % 256;
    assert n / 256 / 256 == 256 * (n / 256 / 256 / 256) + n / 256 / 256 % 256;
    assert n / 256 == 256 * (n / 256 / 256) + n / 256 % 256;
    assert Uint32(Uint32Bytes(n)) == r && 0 <= r < TWO_TO_THE_32;
    DivisionIsUnique(n, q, r);
  }

  lemma DivisionIsUnique(n: nat, q: nat, r: nat)
    requires n == TWO_TO_THE_32 * q + r && r < TWO_TO_THE_32
    ensures n % TWO_TO_THE_32 == r
  {
  }

  lemma Uint32BytesRoundTrip(b: seq<byte>)
    requires |b| == 4
    ensures Uint32Bytes(Uint32(b)) == b && Uint32(b) < TWO_TO_THE_32
  {
    var n := Uint32(b);
    assert n / 256 == b[0] as int * 0x1_0000 + b[1] as int * 256 + b[2] as int;
    assert n / 256 / 256 == b[0] as int * 256 + b[1] as int;
    assert n / 256 / 256 / 256 == b[0];
  }

  // ----- one envelope and many

  /** The bytes of one envelope: flags, length, payload. */
  function Encode(e: Envelope): (b: seq<byte>)
    ensures |b| == 5 + |e.data|
  {
    [e.flags % 256] + Uint32Bytes(|e.data|) + e.data
  }

  /** The layout on the wire: one byte of flags, four of length with the most significant first, the payload. */
  lemma EncodeLayout(e: Envelope)
    ensures var b := Encode(e);
      && b[0] == e.flags % 256
      && b[1] as int * 0x100_0000 + b[2] as int * 0x1_0000 + b[3] as int * 0x100 + b[4] as int
         == |e.data| % 0x1_0000_0000
      && b[5..] == e.data
  {
    hide Uint32Bytes;
    var b := Encode(e);
    Uint32RoundTrip(|e.data|);
    assert b[1..5] == Uint32Bytes(|e.data|);
    assert b[1..5][0] == b[1] && b[1..5][1] == b[2] && b[1..5][2] == b[3] && b[1..5][3] == b[4];
  }

  function EncodeAll(envs: seq<Envelope>): seq<byte> {
    if envs == [] then [] else Encode(envs[0]) + EncodeAll(envs[1..])
  }

  lemma {:induction false} EncodeAllSplit(a: seq<Envelope>, b: seq<Envelope>)
    ensures EncodeAll(a + b) == EncodeAll(a) + EncodeAll(b)
  {
    if a == [] {
      assert a + b == b;
    } else {
      EncodeAllSplit(a[1..], b);
      Associative(Encode(a[0]), EncodeAll(a[1..]), EncodeAll(b));
      assert (a + b)[0] == a[0] && (a + b)[1..] == a[1..] + b;
    }
  }

  /** An envelope the prefix can describe. */
  predicate Framable(e: Envelope) {
    e.flags < 256 && |e.data| < TWO_TO_THE_32
  }

  /** `encodeEnvelope`: payload first, then flags and length in front of it. */
  method EncodeEnvelope(flags: nat, data: seq<byte>) returns (bytes: array<byte>)
    ensures fresh(bytes) && bytes[..] == Encode(Envelope(flags, data))
  {
    bytes := new byte[|data| + 5](_ => 0);
    SetBytes(bytes, data, 5);
    assert bytes[..][5..] == data;
    SetBytes(bytes, [flags % 256], 0);
    assert bytes[..][0] == flags % 256 && bytes[..][5..] == data;
    SetBytes(bytes, Uint32Bytes(|data|), 1);
    assert bytes[..] == bytes[..][..1] + bytes[..][1..5] + bytes[..][5..];
  }

  /** One round of `encodeEnvelopes`: flags, length and payload at `offset`. */
  method WriteEnvelope(bytes: array<byte>, e: Envelope, offset: nat)
    requires offset + 5 + |e.data| <= bytes.Length
    modifies bytes
    ensures bytes[..] == Patched(old(bytes[..]), Encode(e), offset)
  {
    var flags, length := [e.flags % 256], Uint32Bytes(|e.data|);
    SetBytes(bytes, flags, offset);
    SetBytes(bytes, length, offset + 1);
    PatchedTwice(old(bytes[..]), flags, length, offset);
    SetBytes(bytes, e.data, offset + 5);
    PatchedTwice(old(bytes[..]), flags + length, e.data, offset);
  }

  /** `encodeEnvelopes`: one array of the summed length, filled at a moving offset. */
  method EncodeEnvelopes(envelopes: seq<Envelope>) returns (bytes: array<byte>)
    ensures fresh(bytes) && bytes[..] == EncodeAll(envelopes)
  {
    var len := 0;
    for i := 0 to |envelopes|
      invariant len == |EncodeAll(envelopes[..i])|
    {
      EncodeSnoc(envelopes, i);
      len := len + |envelopes[i].data| + 5;
    }
    assert envelopes[..|envelopes|] == envelopes;
    bytes := new byte[len](_ => 0);
    var offset := 0;
    for i := 0 to |envelopes|
      invariant bytes.Length == len && offset == |EncodeAll(envelopes[..i])| <= len
      invariant bytes[..offset] == EncodeAll(envelopes[..i])
    {
      var e := envelopes[i];
      EncodeSnoc(envelopes, i);
      EncodeTakeLength(envelopes, i + 1);
      ghost var before := bytes[..];
      WriteEnvelope(bytes, e, offset);
      assert bytes[..offset + 5 + |e.data|] == before[..offset] + Encode(e);
      offset := offset + |e.data| + 5;
    }
    assert bytes[..] == bytes[..offset];
  }

  lemma EncodeSnoc(envs: seq<Envelope>, i: nat)
    requires i < |envs|
    ensures EncodeAll(envs[..i + 1]) == EncodeAll(envs[..i]) + Encode(envs[i])
  {
    EncodeAllSplit(envs[..i], [envs[i]]);
    assert envs[..i + 1] == envs[..i] + [envs[i]];
    assert EncodeAll([envs[i]]) == Encode(envs[i]) + EncodeAll([]);
  }

  lemma EncodeTakeLength(envs: seq<Envelope>, i: nat)
    requires i <= |envs|
    ensures |EncodeAll(envs[..i])| <= |EncodeAll(envs)|
  {
    EncodeAllSplit(envs[..i], envs[i..]);
    assert envs == envs[..i] + envs[i..];
  }

  // ----- compression

  datatype Compression = Compression(
    compress: seq<byte> -> Try<seq<byte>>,
    decompress: (seq<byte>, nat) -> Try<seq<byte>>)
  {
    /** What a compression algorithm promises: decompression undoes compression within the limit
        and raises beyond it. */
    ghost predicate Lawful() {
      forall d: seq<byte>, max: nat | compress(d).Ok? ::
        if |d| <= max then decompress(compress(d).value, max) == Ok(d) else decompress(compress(d).value, max).Throws?
    }
  }

  /** `envelopeCompress`. */
  function EnvelopeCompress(e: Envelope, compression: Option<Compression>, minBytes: nat): Try<Envelope> {
    if HasFlag(e.flags, COMPRESSED_FLAG) then
      Raise("invalid envelope, already compressed", INTERNAL)
    else if compression.Some? && |e.data| >= minBytes then
      var data :- compression.value.compress(e.data);
      Ok(Envelope(e.flags + COMPRESSED_FLAG, data))
    else
      Ok(e)
  }

  /** `envelopeDecompress`. */
  function EnvelopeDecompress(e: Envelope, compression: Option<Compression>, readMaxBytes: nat): Try<Envelope> {
    if HasFlag(e.flags, COMPRESSED_FLAG) then
      match compression
      case None => Raise("received compressed envelope, but do not know how to decompress", INVALID_ARGUMENT)
      case Some(c) =>
        var data :- c.decompress(e.data, readMaxBytes);
        Ok(Envelope(e.flags - COMPRESSED_FLAG, data))
    else
      Ok(e)
  }

  /** Compressing an envelope with bit 0 set is an Internal error (13), and decompressing one without knowing the
      algorithm is InvalidArgument (3). Without bit 0 the reader takes the envelope as it is. */
  lemma CompressionErrors(e: Envelope, compression: Option<Compression>, minBytes: nat, readMaxBytes: nat)
    ensures e.flags % 2 == 1 ==>
      && EnvelopeCompress(e, compression, minBytes) ==
         Throws(Dubbo(DubboError(13, "invalid envelope, already compressed", map[], [])))
      && EnvelopeDecompress(e, None, readMaxBytes) ==
         Throws(Dubbo(DubboError(
           3, "received compressed envelope, but do not know how to decompress", map[], [])))
    ensures e.flags % 2 == 0 ==> EnvelopeDecompress(e, compression, readMaxBytes) == Ok(e)
  {
  }

  lemma SetLowestBit(flags: nat)
    requires flags % 2 == 0
    ensures (flags + 1) % 2 == 1 && (flags + 1) / 2 == flags / 2 && (flags + 1) / 128 == flags / 128
  {
    var q, r := flags / 128, flags % 128;
    assert r == 2 * (flags / 2 - 64 * q);
    assert flags + 1 == 128 * q + (r + 1) && r + 1 < 128;
  }

  /** Compression sets bit 0 only, so both end flags are classified as before; decompression gives the
      envelope back, unless the payload was compressed and is larger than the limit. It fails only if the
      algorithm does. */
  lemma CompressDecompress(e: Envelope, compression: Option<Compression>, minBytes: nat, readMaxBytes: nat)
    requires compression.Some? ==> compression.value.Lawful()
    requires !HasFlag(e.flags, COMPRESSED_FLAG)
    ensures var z := EnvelopeCompress(e, compression, minBytes);
      && (z.Ok? <==> compression.None? || |e.data| < minBytes || compression.value.compress(e.data).Ok?)
      && (z.Ok? ==>
          && HasFlag(z.value.flags, END_STREAM_FLAG) == HasFlag(e.flags, END_STREAM_FLAG)
          && HasFlag(z.value.flags, TRAILER_FLAG) == HasFlag(e.flags, TRAILER_FLAG)
          && (e.flags < 256 ==> z.value.flags < 256)
          && (HasFlag(z.value.flags, COMPRESSED_FLAG) <==> compression.Some? && |e.data| >= minBytes)
          && (EnvelopeDecompress(z.value, compression, readMaxBytes) == Ok(e)
              <==> !HasFlag(z.value.flags, COMPRESSED_FLAG) || |e.data| <= readMaxBytes))
  {
    SetLowestBit(e.flags);
    if compression.Some? && compression.value.compress(e.data).Ok? {
      assert var r := compression.value.decompress(compression.value.compress(e.data).value, readMaxBytes);
        if |e.data| <= readMaxBytes then r == Ok(e.data) else r.Throws?;
    }
  }
}
