/** JSON values, header fields, `DubboError`, and everything else JavaScript code can throw. */
module Errors {
  import opened Common

  /** A parsed JSON document. A number that is not an integer keeps its literal. */
  datatype Json =
    | JNull
    | JBool(b: bool)
    | JInt(n: int)
    | JFraction(literal: string)
    | JString(s: string)
    | JArray(items: seq<Json>)
    | JObject(fields: map<string, Json>)

  /** The fields of a `Headers` object, by lower-case name. */
  type Fields = map<string, string>

  /** An error detail: a protobuf message about to be sent, or an `IncomingDetail` read from the wire.
      `binary` is what `Message.toBinary` returns or throws, `json` what `toJson` returns, `None` when it
      throws. */
  datatype Detail =
    | Outgoing(typeName: string, binary: Try<seq<byte>>, json: Option<Json>)
    | Incoming(type_: string, value: seq<byte>, debug: Option<Json>)

  /** A `DubboError`. Codes are the numbers of the `Code` enum, but nothing stops other integers. */
  datatype DubboError = DubboError(code: int, rawMessage: string, metadata: Fields, details: seq<Detail>)

  const CANCELED := 1
  const UNKNOWN := 2
  const INVALID_ARGUMENT := 3
  const DEADLINE_EXCEEDED := 4
  const RESOURCE_EXHAUSTED := 8
  const INTERNAL := 13
  const DATA_LOSS := 15

  /** `code in Code` for a number. */
  predicate KnownCode(code: int) {
    1 <= code <= 16
  }

  function NewError(message: string, code: int): DubboError {
    DubboError(code, message, map[], [])
  }

  /** A thrown value. `Undefined` is what `throw undefined` throws. */
  datatype Reason =
    | Dubbo(error: DubboError)
    | AbortError(message: string)
    | OtherError(message: string)
    | OtherValue(text: string)
    | Undefined

  datatype Try<+T> = Ok(value: T) | Throws(reason: Reason) {
    predicate IsFailure() { Throws? }
    function PropagateFailure<U>(): Try<U>
      requires Throws?
    {
      Throws(reason)
    }
    function Extract(): T
      requires Ok?
    {
      value
    }
  }

  function Raise<T>(message: string, code: int): Try<T> {
    Throws(Dubbo(NewError(message, code)))
  }

  /** `DubboError.from(reason)`. */
  function FromReason(reason: Reason): DubboError {
    match reason
    case Dubbo(e) => e
    case AbortError(m) => NewError(m, CANCELED)
    case OtherError(m) => NewError(m, UNKNOWN)
    case OtherValue(t) => NewError(t, UNKNOWN)
    case Undefined => NewError("undefined", UNKNOWN)
  }
}

/** Asynchronous iterables: the values yielded and how the iteration ends. */
module Streams {
  import opened Common
  import opened Errors

  datatype Outcome = Done | Failed(reason: Reason)

  datatype Stream<+T> = Stream(values: seq<T>, end: Outcome)

  function Prepend<T>(v: T, s: Stream<T>): Stream<T> {
    Stream([v] + s.values, s.end)
  }

  /** `for await (const x of s) yield f(x)`: stops at the first value `f` throws on. */
  function MapStream<A, B>(s: Stream<A>, f: A -> Try<B>): Stream<B>
    decreases |s.values|
  {
    if s.values == [] then Stream([], s.end)
    else
      match f(s.values[0])
      case Throws(r) => Stream([], Failed(r))
      case Ok(v) => Prepend(v, MapStream(Stream(s.values[1..], s.end), f))
  }

  /** If `f` succeeds on every value, the values are mapped one by one and the end is kept. */
  lemma {:induction false} MapStreamOk<A, B>(s: Stream<A>, f: A -> Try<B>, image: seq<B>)
    requires |image| == |s.values|
    requires forall i | 0 <= i < |image| :: f(s.values[i]) == Ok(image[i])
    ensures MapStream(s, f) == Stream(image, s.end)
    decreases |image|
  {
    if image != [] {
      MapStreamOk(Stream(s.values[1..], s.end), f, image[1..]);
      assert image == [image[0]] + image[1..];
    }
  }

  /** If `f` throws on value `k` first, the values before it are mapped and the stream fails there. */
  lemma {:induction false} MapStreamThrows<A, B>(s: Stream<A>, f: A -> Try<B>, image: seq<B>, r: Reason)
    requires |image| < |s.values|
    requires forall i | 0 <= i < |image| :: f(s.values[i]) == Ok(image[i])
    requires f(s.values[|image|]) == Throws(r)
    ensures MapStream(s, f) == Stream(image, Failed(r))
    decreases |image|
  {
    if image != [] {
      MapStreamThrows(Stream(s.values[1..], s.end), f, image[1..], r);
      assert image == [image[0]] + image[1..];
    }
  }

  /** How the input ends only matters if `f` throws on no value. */
  lemma {:induction false} MapStreamEnds<A, B>(values: seq<A>, e: Outcome, e': Outcome, f: A -> Try<B>)
    ensures var m, m' := MapStream(Stream(values, e), f), MapStream(Stream(values, e'), f);
      m.values == m'.values && (m.end == m'.end || (m.end == e && m'.end == e'))
    decreases |values|
  {
    if values != [] && f(values[0]).Ok? {
      MapStreamEnds(values[1..], e, e', f);
    }
  }

  /** Every stream is mapped in one of these two ways. */
  lemma {:induction false} MapStreamPrefix<A, B>(s: Stream<A>, f: A -> Try<B>)
    ensures var m := MapStream(s, f);
      && |m.values| <= |s.values|
      && (forall i | 0 <= i < |m.values| :: f(s.values[i]) == Ok(m.values[i]))
      && (if |m.values| < |s.values| then m.end.Failed? && f(s.values[|m.values|]) == Throws(m.end.reason)
          else m.end == s.end)
    decreases |s.values|
  {
    if s.values != [] && f(s.values[0]).Ok? {
      MapStreamPrefix(Stream(s.values[1..], s.end), f);
    }
  }
}

/** The errors for messages above a configured limit (packages/dubbo/src/protocol/limit-io.ts). */
module LimitIo {
  import opened Errors
  import opened JsText

  /** `assertReadMaxBytes` when the size is known in advance. */
  function SizeError(size: nat, max: nat): Reason {
    Dubbo(NewError("message size " + Decimal(size) + " is larger than configured readMaxBytes " + Decimal(max),
      RESOURCE_EXHAUSTED))
  }

  /** `assertReadMaxBytes` while still counting. */
  function LimitError(max: nat): Reason {
    Dubbo(NewError("message size is larger than configured readMaxBytes " + Decimal(max), RESOURCE_EXHAUSTED))
  }

  /** `assertWriteMaxBytes`. */
  function WriteError(size: nat, max: nat): Reason {
    Dubbo(NewError("message size " + Decimal(size) + " is larger than configured writeMaxBytes " + Decimal(max),
      RESOURCE_EXHAUSTED))
  }
}
