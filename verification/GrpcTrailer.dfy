/** The in-band trailer of gRPC-Web: fields separated by CRLF (packages/dubbo/src/protocol-grpc-web/trailer.ts). */
module GrpcWebTrailer {
  import opened Common
  import opened Errors
  import opened JsText
  import opened HttpHeaders

  /** The fields of a `Headers` object in the order `forEach` visits them, each once. */
  predicate Lists(fields: seq<(string, string)>, h: Fields) {
    && (forall i, j | 0 <= i < j < |fields| :: fields[i].0 != fields[j].0)
    && (forall i | 0 <= i < |fields| :: fields[i].0 in h && h[fields[i].0] == fields[i].1)
    && (forall k | k in h :: (k, h[k]) in fields)
  }

  function Line(name: string, value: string): string {
    name + [':', ' '] + value + CRLF
  }

  /** The text of a trailer. */
  function TrailerText(fields: seq<(string, string)>): string {
    if fields == [] then "" else Line(fields[0].0, fields[0].1) + TrailerText(fields[1..])
  }

  /** One line for each field, in order. */
  lemma {:induction false} TrailerTextIs(fields: seq<(string, string)>, name: string, value: string)
    ensures TrailerText([]) == []
    ensures TrailerText(fields + [(name, value)]) ==
      TrailerText(fields) + (name + [':', ' '] + value + ['\r', '\n'])
  {
    var all, line := fields + [(name, value)], name + [':', ' '] + value + ['\r', '\n'];
    if fields == [] {
      assert all[1..] == [] && line + "" == line;
    } else {
      hide Line;
      TrailerTextIs(fields[1..], name, value);
      assert all[0] == fields[0] && all[1..] == fields[1..] + [(name, value)];
      Associative(Line(fields[0].0, fields[0].1), TrailerText(fields[1..]), line);
    }
  }

  /** `trailerSerialize`, before UTF-8: collect the lines, then join them. */
  method TrailerSerialize(fields: seq<(string, string)>) returns (text: string)
    ensures text == TrailerText(fields)
  {
    hide Line, TrailerText, Concat;
    var lines: seq<string> := [];
    assert fields[0..] == fields;
    NoLines(TrailerText(fields));
    for i := 0 to |fields|
      invariant Concat(lines) + TrailerText(fields[i..]) == TrailerText(fields)
    {
      var line := Line(fields[i].0, fields[i].1);
      TrailerTextStep(fields, i);
      ConcatOne(lines, line);
      Associative(Concat(lines), line, TrailerText(fields[i + 1..]));
      lines := lines + [line];
    }
    assert fields[|fields|..] == [];
    EmptyTrailer();
    text := Concat(lines);
  }

  lemma NoLines(text: string)
    ensures Concat<char>([]) + text == text
  {
  }

  lemma EmptyTrailer()
    ensures TrailerText([]) == []
  {
  }

  lemma TrailerTextStep(fields: seq<(string, string)>, i: nat)
    requires i < |fields|
    ensures TrailerText(fields[i..]) == Line(fields[i].0, fields[i].1) + TrailerText(fields[i + 1..])
  {
    assert fields[i..][1..] == fields[i + 1..];
  }

  /** One line: no name before a colon means the line is skipped. */
  function ParseLine(h: Fields, line: string): Try<Fields> {
    var i := IndexOf(line, ':');
    if 0 < i < |line| then Append(h, Trim(line[..i]), Trim(line[i + 1..])) else Ok(h)
  }

  function ParseLines(h: Fields, lines: seq<string>): Try<Fields>
    decreases |lines|
  {
    if lines == [] then Ok(h)
    else
      var next :- ParseLine(h, lines[0]);
      ParseLines(next, lines[1..])
  }

  /** The fields the lines list, in order: the trimmed text before the first colon and the trimmed text after
      it. A line without a colon, or with nothing before it, lists none. */
  function LineFields(lines: seq<string>): seq<(string, string)> {
    if lines == [] then []
    else
      var i := IndexOf(lines[0], ':');
      (if 0 < i < |lines[0]| then [(Trim(lines[0][..i]), Trim(lines[0][i + 1..]))] else []) + LineFields(lines[1..])
  }

  lemma {:induction false} LinesHold(h: Fields, fields: seq<(string, string)>, lines: seq<string>)
    requires Holds(h, fields)
    ensures ParseLines(h, lines).Ok? <==> AllLegal(LineFields(lines))
    ensures ParseLines(h, lines).Ok? ==> Holds(ParseLines(h, lines).value, fields + LineFields(lines))
    decreases |lines|
  {
    hide Holds, Append, AllLegal, Legal, Trim;
    if lines == [] {
      NoneIllegal();
      assert fields + LineFields(lines) == fields;
    } else {
      var rest := LineFields(lines[1..]);
      var i := IndexOf(lines[0], ':');
      if 0 < i < |lines[0]| {
        var name, value := Trim(lines[0][..i]), Trim(lines[0][i + 1..]);
        AppendHolds(h, fields, name, value);
        FirstLegal((name, value), rest);
        Associative(fields, [(name, value)], rest);
        if Append(h, name, value).Ok? {
          LinesHold(Append(h, name, value).value, fields + [(name, value)], lines[1..]);
        }
      } else {
        assert LineFields(lines) == rest;
        LinesHold(h, fields, lines[1..]);
      }
    }
  }

  lemma LinesRead(lines: seq<string>)
    ensures ParseLines(map[], lines).Ok? <==> AllLegal(LineFields(lines))
    ensures ParseLines(map[], lines).Ok? ==> Holds(ParseLines(map[], lines).value, LineFields(lines))
  {
    hide Holds, AllLegal, LineFields, ParseLines;
    HoldsNothing();
    LinesHold(map[], [], lines);
    assert [] + LineFields(lines) == LineFields(lines);
  }

  /** `trailerParse`, after UTF-8: succeeds iff every field listed is legal, and holds exactly those, the values
      of one name joined in order. */
  method TrailerParse(text: string) returns (r: Try<Fields>)
    ensures r == ParsedText(text)
    ensures r.Ok? <==> AllLegal(LineFields(SplitLines(text)))
    ensures r.Ok? ==> Holds(r.value, LineFields(SplitLines(text)))
  {
    hide Holds, AllLegal, LineFields, SplitLines, Append, Trim, Normalize, ValidName, ValidValue;
    LinesRead(SplitLines(text));
    var headers: Fields := map[];
    var lines := SplitLines(text);
    assert lines[0..] == lines;
    for n := 0 to |lines|
      invariant ParseLines(map[], lines) == ParseLines(headers, lines[n..])
    {
      var line := lines[n];
      assert lines[n..][0] == line && lines[n..][1..] == lines[n + 1..];
      if line == "" {
        continue;
      }
      var i := IndexOf(line, ':');
      if 0 < i < |line| {
        var name, value := Trim(line[..i]), Trim(line[i + 1..]);
        var appended := Append(headers, name, value);
        if appended.Throws? {
          return appended;
        }
        headers := appended.value;
      }
    }
    return Ok(headers);
  }

  function ParsedText(text: string): Try<Fields> {
    ParseLines(map[], SplitLines(text))
  }

  /** All values trimmed as `String.prototype.trim` does. */
  function TrimmedFields(h: Fields): (r: Fields)
    ensures r.Keys == h.Keys
  {
    map k | k in h :: Trim(h[k])
  }

  lemma TokenFacts(name: string)
    requires ValidName(name)
    ensures ':' !in name && '\r' !in name && Trim(name) == name && !IsSpace(name[0])
  {
    hide Trim;
    forall i | 0 <= i < |name| ensures name[i] != ':' && name[i] != '\r' && !IsSpace(name[i]) {
      TokenCharFacts(name[i]);
    }
    TrimIsIdentityIffTrimmed(name);
  }

  lemma TokenCharFacts(c: char)
    requires TokenChar(c)
    ensures c != ':' && c != '\r' && !IsSpace(c)
  {
  }

  /** Trimming keeps a value legal, and leaves nothing for `append` to normalize. */
  lemma TrimmedIsNormal(value: string)
    requires ValidValue(value)
    ensures ValidValue(Trim(value)) && Normalize(Trim(value)) == Trim(value)
  {
    TrimIsIdentityIffTrimmed(value);
    var t := Trim(value);
    var u := TrimStart(value);
    assert t <= u && u == value[|value| - |u|..];
    forall i | 0 <= i < |t| ensures t[i] == value[|value| - |u| + i] {
    }
    assert Normalized(t);
  }

  lemma ParseWrittenLine(h: Fields, name: string, value: string)
    requires ValidName(name) && Lower(name) == name && ValidValue(value) && name !in h
    ensures ParseLine(h, name + [':', ' '] + value) == Ok(h[name := Trim(value)])
  {
    hide Trim, Normalize, ValidValue, Lower;
    var line := name + [':', ' '] + value;
    TokenFacts(name);
    IndexOfFirst(name, ':', [' '] + value);
    assert line == name + [':'] + ([' '] + value);
    assert line[..|name|] == name && line[|name| + 1..] == [' '] + value;
    TrimLeadingSpace(value);
    TrimmedIsNormal(value);
    AppendLegal(h, name, Trim(value));
  }

  lemma WrittenLineIsSplitOff(name: string, value: string, rest: string)
    requires ValidName(name) && ValidValue(value)
    ensures SplitLines(Line(name, value) + rest) == [name + [':', ' '] + value] + SplitLines(rest)
  {
    hide SplitLines;
    var line := name + [':', ' '] + value;
    TokenFacts(name);
    assert '\r' !in value;
    assert Line(name, value) + rest == line + CRLF + rest;
    SplitLinesStep(line, rest);
  }

  function TrimmedListed(h: Fields, fields: seq<(string, string)>): Fields {
    map k | k in h && (exists i | 0 <= i < |fields| :: fields[i].0 == k) :: Trim(h[k])
  }

  lemma TrimmedListedStep(start: Fields, h: Fields, fields: seq<(string, string)>)
    requires fields != [] && fields[0].0 in h
    ensures start[fields[0].0 := Trim(h[fields[0].0])] + TrimmedListed(h, fields[1..]) ==
      start + TrimmedListed(h, fields)
  {
    hide Trim;
    var k := fields[0].0;
    var l, r := start[k := Trim(h[k])] + TrimmedListed(h, fields[1..]), start + TrimmedListed(h, fields);
    forall x ensures x in TrimmedListed(h, fields) <==> x == k || x in TrimmedListed(h, fields[1..]) {
      if i :| 0 < i < |fields| && fields[i].0 == x {
        assert fields[1..][i - 1].0 == x;
      }
    }
    assert l.Keys == r.Keys;
  }

  lemma {:induction false} ParseWritten(start: Fields, h: Fields, fields: seq<(string, string)>)
    requires ValidFields(h)
    requires forall i, j | 0 <= i < j < |fields| :: fields[i].0 != fields[j].0
    requires forall i | 0 <= i < |fields| :: fields[i].0 in h && h[fields[i].0] == fields[i].1 && fields[i].0 !in start
    ensures ParseLines(start, SplitLines(TrailerText(fields))) == Ok(start + TrimmedListed(h, fields))
    decreases |fields|
  {
    hide Trim, Normalize, ValidName, ValidValue, Lower, SplitLines, Line, ParseLine, TrimmedListed;
    if fields == [] {
      ParseNothing(start, h);
    } else {
      var k := fields[0].0;
      WrittenLineIsSplitOff(k, h[k], TrailerText(fields[1..]));
      ParseWrittenLine(start, k, h[k]);
      ParseWritten(start[k := Trim(h[k])], h, fields[1..]);
      TrimmedListedStep(start, h, fields);
    }
  }

  lemma ParseNothing(start: Fields, h: Fields)
    ensures ParseLines(start, SplitLines("")) == Ok(start) && start + TrimmedListed(h, []) == start
  {
    var lines := [""];
    assert SplitLines("") == lines && lines[1..] == [];
    assert IndexOf("", ':') == 0;
  }

  /** The trailer round trip: every field comes back trimmed, so the header map comes back unchanged
      exactly when all its values equal their trim. */
  lemma TrailerRoundTrip(h: Fields, fields: seq<(string, string)>)
    requires ValidFields(h) && Lists(fields, h)
    ensures ParsedText(TrailerText(fields)) == Ok(TrimmedFields(h))
    ensures ParsedText(TrailerText(fields)) == Ok(h) <==> forall k | k in h :: Trimmed(h[k])
  {
    hide Normalize, ValidName, ValidValue, Lower, SplitLines, ParseLines, TrailerText, Trim;
    var none: Fields := map[];
    ParseWritten(none, h, fields);
    AllListed(h, fields);
    forall k | k in h ensures Trim(h[k]) == h[k] <==> Trimmed(h[k]) {
      TrimIsIdentityIffTrimmed(h[k]);
    }
    assert TrimmedFields(h) == h <==> forall k | k in h :: Trim(h[k]) == h[k];
  }

  lemma AllListed(h: Fields, fields: seq<(string, string)>)
    requires Lists(fields, h)
    ensures map[] + TrimmedListed(h, fields) == TrimmedFields(h)
  {
    hide Trim;
    forall k | k in h ensures exists i | 0 <= i < |fields| :: fields[i].0 == k {
      assert (k, h[k]) in fields;
    }
    assert TrimmedListed(h, fields) == TrimmedFields(h);
  }
}

/** The gRPC status in a trailer (packages/dubbo/src/protocol-grpc/trailer-status.ts). */
module TrailerStatus {
  import opened Common
  import opened Errors
  import opened JsText
  import opened HttpHeaders
  import opened Platform
  import opened ErrorJson

  /** `google.rpc.Status`. */
  datatype Status = Status(code: int, message: string, details: seq<Any>)
  datatype Any = Any(typeUrl: string, value: seq<byte>)

  /** The codecs of a status, with the laws they promise. Protobuf refuses a code outside 32 bits; base64 is
      decoded with or without padding. */
  datatype Codec = Codec(
    lib: Library,
    encodeStatus: Status -> Try<seq<byte>>,
    decodeStatus: seq<byte> -> Option<Status>,
    uriEncode: string -> string,
    uriDecode: string -> Option<string>)
  {
    ghost predicate Lawful() {
      && (forall s: Status ::
            if Int32(s.code) then encodeStatus(s).Ok? && decodeStatus(encodeStatus(s).value) == Some(s)
            else encodeStatus(s).Throws?)
      && (forall b ::
            var text := StripPadding(lib.base64Encode(b));
            lib.base64Decode(text) == Some(b) && Visible(text))
      && (forall s :: uriDecode(uriEncode(s)) == Some(s) && Visible(uriEncode(s)))
    }
  }

  /** Printable ASCII without white space: the base64 and percent-encoding alphabets are part of it. */
  predicate Visible(s: string) {
    forall i | 0 <= i < |s| :: '!' <= s[i] <= '~'
  }

  /** `replace(/=+$/, "")`. */
  function StripPadding(s: string): string {
    if s != [] && s[|s| - 1] == '=' then StripPadding(s[..|s| - 1]) else s
  }

  const STATUS_FIELD := "grpc-status"
  const MESSAGE_FIELD := "grpc-message"
  const DETAILS_FIELD := "grpc-status-details-bin"

  /** `toString(10)` of an integer. */
  function IntText(n: int): string {
    if n < 0 then "-" + Decimal(-n) else Decimal(n)
  }

  const TYPE_PREFIX := "type.googleapis.com"

  function DetailToAny(d: Detail): Try<Any> {
    var bytes :- BytesOf(d);
    Ok(Any(TYPE_PREFIX + ['/'] + TypeOf(d), bytes))
  }

  /** All details packed, unless one of them cannot be encoded. */
  function Packed(ds: seq<Detail>): Try<seq<Any>> {
    if ds == [] then Ok([])
    else
      var first :- DetailToAny(ds[0]);
      var rest :- Packed(ds[1..]);
      Ok([first] + rest)
  }

  function DetailsText(e: DubboError, codec: Codec): Try<string> {
    var details :- Packed(e.details);
    var bytes :- codec.encodeStatus(Status(e.code, e.rawMessage, details));
    Ok(StripPadding(codec.lib.base64Encode(bytes)))
  }

  /** What `setTrailerStatus` throws: only details are encoded. */
  function Refusal(error: Option<DubboError>, codec: Codec): Option<Reason> {
    if error.Some? && |error.value.details| > 0 && DetailsText(error.value, codec).Throws?
    then Some(DetailsText(error.value, codec).reason) else None
  }

  /** The fields after `setTrailerStatus`, also when it throws. */
  function WithStatus(h: Fields, error: Option<DubboError>, codec: Codec): Fields {
    match error
    case None => h[STATUS_FIELD := "0"]
    case Some(e) =>
      var h := h[STATUS_FIELD := IntText(e.code)][MESSAGE_FIELD := codec.uriEncode(e.rawMessage)];
      if |e.details| > 0 && DetailsText(e, codec).Ok? then h[DETAILS_FIELD := DetailsText(e, codec).value] else h
  }

  /** An error is reported in full iff every detail can be encoded and, if it has details, the code is a 32-bit
      number. */
  lemma ReportedIffEncodable(e: DubboError, codec: Codec)
    requires codec.Lawful()
    ensures Refusal(Some(e), codec) == None <==> AllEncodable(Some(e)) && (e.details == [] || Int32(e.code))
  {
    PackedIffEncodable(e.details);
  }

  lemma {:induction false} PackedIffEncodable(ds: seq<Detail>)
    ensures Packed(ds).Ok? <==> CanEncode(ds)
  {
    if ds != [] {
      PackedIffEncodable(ds[1..]);
      assert forall i | 0 < i < |ds| :: ds[i] == ds[1..][i - 1];
    }
  }

  class Headers {
    var fields: Fields

    constructor (fields: Fields)
      ensures this.fields == fields
    {
      this.fields := fields;
    }

    /** `set(name, value)` for a lower-case name. */
    method Set(name: string, value: string)
      modifies this
      ensures fields == old(fields)[name := Normalize(value)]
    {
      fields := fields[name := Normalize(value)];
    }
  }

  /** `setTrailerStatus`: what it throws, if anything. */
  method SetTrailerStatus(target: Headers, error: Option<DubboError>, codec: Codec) returns (thrown: Option<Reason>)
    requires codec.Lawful()
    modifies target
    ensures target.fields == WithStatus(old(target.fields), error, codec)
    ensures thrown == Refusal(error, codec)
  {
    hide Normalize, Trim, ValidValue, IntText, DetailsText;
    if error.Some? {
      var e := error.value;
      StatusTextsAreVisible(e, codec);
      target.Set(STATUS_FIELD, IntText(e.code));
      target.Set(MESSAGE_FIELD, codec.uriEncode(e.rawMessage));
      if |e.details| > 0 {
        var text := DetailsText(e, codec);
        if text.Throws? {
          return Some(text.reason);
        }
        DetailsTextIsVisible(e, codec);
        target.Set(DETAILS_FIELD, text.value);
      }
    } else {
      VisibleFacts("0");
      target.Set(STATUS_FIELD, "0");
    }
    return None;
  }

  lemma VisibleFacts(s: string)
    requires Visible(s)
    ensures Normalize(s) == s && Trim(s) == s && ValidValue(s)
  {
    hide Trim, Normalize, IsSpace, HttpSpace;
    forall c: char | '!' <= c <= '~' ensures !IsSpace(c) && !HttpSpace(c) {
      VisibleChar(c);
    }
    TrimIsIdentityIffTrimmed(s);
  }

  lemma VisibleChar(c: char)
    requires '!' <= c <= '~'
    ensures !IsSpace(c) && !HttpSpace(c)
  {
  }

  lemma StatusTextsAreVisible(e: DubboError, codec: Codec)
    requires codec.Lawful()
    ensures forall s | s in [IntText(e.code), codec.uriEncode(e.rawMessage)] ::
      Normalize(s) == s && Trim(s) == s && ValidValue(s)
  {
    hide Normalize, Trim, ValidValue, StripPadding, IntText;
    IntTextIsVisible(e.code);
    VisibleFacts(IntText(e.code));
    VisibleFacts(codec.uriEncode(e.rawMessage));
  }

  lemma DetailsTextIsVisible(e: DubboError, codec: Codec)
    requires codec.Lawful() && DetailsText(e, codec).Ok?
    ensures var s := DetailsText(e, codec).value;
      Normalize(s) == s && Trim(s) == s && ValidValue(s)
  {
    hide Normalize, Trim, ValidValue, StripPadding;
    VisibleFacts(DetailsText(e, codec).value);
  }

  lemma IntTextIsVisible(n: int)
    ensures Visible(IntText(n))
  {
    var digits := Decimal(if n < 0 then -n else n);
    assert forall i | 0 <= i < |digits| :: '0' <= digits[i] <= '9';
  }

  // ----- findTrailerError

  function AnyToDetail(a: Any): Detail {
    Incoming(AfterLast(a.typeUrl, '/'), a.value, None)
  }

  function Unpacked(anys: seq<Any>): seq<Detail> {
    seq(|anys|, i requires 0 <= i < |anys| => AnyToDetail(anys[i]))
  }

  /** The branch for a details field. */
  function ErrorFromDetails(text: string, h: Fields, codec: Codec): Try<Option<DubboError>> {
    var bytes := codec.lib.base64Decode(text);
    var status := if bytes.Some? then codec.decodeStatus(bytes.value) else None;
    match status
    case None => Raise("invalid binary header", DATA_LOSS)
    case Some(s) =>
      if s.code == 0 then Ok(None)
      else
        Ok(Some(DubboError(s.code, s.message, Copied(h), Unpacked(s.details))))
  }

  /** A details field decides alone: one that cannot be decoded is DataLoss (15), one with code 0 no error, and any
      other gives its code, its message and, for each of its details in order, the bytes and the type after the
      last slash. */
  lemma DetailsDecide(h: Fields, codec: Codec)
    requires "grpc-status-details-bin" in h
    ensures var bytes := codec.lib.base64Decode(h["grpc-status-details-bin"]);
      var found := FindTrailerError(h, codec);
      if bytes.None? || codec.decodeStatus(bytes.value).None? then
        found == Throws(Dubbo(DubboError(15, "invalid binary header", map[], [])))
      else
        var s := codec.decodeStatus(bytes.value).value;
        if s.code == 0 then found == Ok(None)
        else
          && found.Ok? && found.value.Some?
          && var e := found.value.value;
          && e.code == s.code && e.rawMessage == s.message && e.metadata == Copied(h)
          && |e.details| == |s.details|
          && forall i | 0 <= i < |s.details| ::
            e.details[i] == Incoming(AfterLast(s.details[i].typeUrl, '/'), s.details[i].value, None)
  {
    hide AfterLast, Copied;
  }

  /** Without a details field: no status, or `0`, is no error; a known code comes with the decoded message, or makes
      decoding fail; anything else is Internal (13). */
  lemma StatusDecides(h: Fields, codec: Codec)
    requires "grpc-status-details-bin" !in h
    ensures var found := FindTrailerError(h, codec);
      if "grpc-status" !in h || h["grpc-status"] == "0" then found == Ok(None)
      else
        var status := h["grpc-status"];
        var code := ParseInt(status);
        var message := codec.uriDecode(if "grpc-message" in h then h["grpc-message"] else "");
        if code.None? || code.value < 1 || code.value > 16 then
          found == Ok(Some(DubboError(13, "invalid grpc-status: " + status, Copied(h), [])))
        else if message.None? then found == Throws(OtherError("URI malformed"))
        else found == Ok(Some(DubboError(code.value, message.value, Copied(h), [])))
  {
    hide ParseInt, Copied;
  }

  /** The details as they are packed: the type behind the prefix, and the bytes. */
  predicate PackedAs(anys: seq<Any>, ds: seq<Detail>) {
    && |anys| == |ds|
    && forall i | 0 <= i < |ds| ::
      anys[i].typeUrl == "type.googleapis.com" + ['/'] + TypeOf(ds[i]) && BytesOf(ds[i]) == Ok(anys[i].value)
  }

  lemma {:induction false} PackedIs(ds: seq<Detail>)
    requires Packed(ds).Ok?
    ensures PackedAs(Packed(ds).value, ds)
  {
    if ds != [] {
      PackedIs(ds[1..]);
      assert forall i | 0 < i < |ds| :: ds[i] == ds[1..][i - 1];
    }
  }

  /** The fields written, in the readers' terms: `0` alone without an error; otherwise the code, the message and, if
      the error has details that can be encoded, the encoded status. Other fields stay. */
  lemma StatusWritten(h: Fields, error: Option<DubboError>, codec: Codec)
    requires codec.Lawful()
    ensures var t := WithStatus(h, error, codec);
      && (forall k | k !in {"grpc-status", "grpc-message", "grpc-status-details-bin"} ::
            (k in t <==> k in h) && (k in h ==> t[k] == h[k]))
      && (error == None ==> t == h["grpc-status" := "0"])
      && (error.Some? ==>
            && "grpc-status" in t && ParseInt(t["grpc-status"]) == Some(error.value.code)
            && (error.value.code >= 0 ==> t["grpc-status"] == Decimal(error.value.code))
            && "grpc-message" in t && codec.uriDecode(t["grpc-message"]) == Some(error.value.rawMessage))
  {
    hide ParseInt, Decimal, DetailsText;
    FieldNames();
    if error.Some? {
      ParseIntText(error.value.code);
      assert codec.uriDecode(codec.uriEncode(error.value.rawMessage)) == Some(error.value.rawMessage);
    }
  }

  /** The details field: set iff there are details and all can be encoded, and then it decodes to the status. */
  lemma DetailsWritten(h: Fields, e: DubboError, codec: Codec)
    requires codec.Lawful()
    ensures var t := WithStatus(h, Some(e), codec);
      var name := "grpc-status-details-bin";
      if e.details != [] && Refusal(Some(e), codec) == None then
        && name in t
        && var bytes := codec.lib.base64Decode(t[name]);
        && bytes.Some? && codec.decodeStatus(bytes.value).Some?
        && var s := codec.decodeStatus(bytes.value).value;
        s.code == e.code && s.message == e.rawMessage && PackedAs(s.details, e.details)
      else (name in t <==> name in h) && (name in h ==> t[name] == h[name])
  {
    hide StripPadding, IntText, PackedAs;
    FieldNames();
    if e.details != [] && Refusal(Some(e), codec) == None {
      PackedIs(e.details);
      var status := Status(e.code, e.rawMessage, Packed(e.details).value);
      assert codec.encodeStatus(status).Ok? && Int32(status.code);
      var bytes := codec.encodeStatus(status).value;
      assert codec.lib.base64Decode(StripPadding(codec.lib.base64Encode(bytes))) == Some(bytes);
      assert codec.decodeStatus(bytes) == Some(status);
    }
  }

  lemma FieldNames()
    ensures forall n | n in [STATUS_FIELD, MESSAGE_FIELD, DETAILS_FIELD] :: ValidName(n) && Lower(n) == n
    ensures STATUS_FIELD != MESSAGE_FIELD && STATUS_FIELD != DETAILS_FIELD && MESSAGE_FIELD != DETAILS_FIELD
  {
    assert |STATUS_FIELD| == 11 && |MESSAGE_FIELD| == 12 && |DETAILS_FIELD| == 23;
  }

  /** The branch for the status and message fields. */
  function ErrorFromStatus(status: string, message: string, h: Fields, codec: Codec): Try<Option<DubboError>> {
    if status == "0" then Ok(None)
    else
      var code := ParseInt(status);
      if code.Some? && KnownCode(code.value) then
        match codec.uriDecode(message)
        case None => Throws(OtherError("URI malformed"))
        case Some(m) => Ok(Some(DubboError(code.value, m, Copied(h), [])))
      else Ok(Some(DubboError(INTERNAL, "invalid grpc-status: " + status, Copied(h), [])))
  }

  /** `findTrailerError`. */
  function FindTrailerError(h: Fields, codec: Codec): Try<Option<DubboError>> {
    if DETAILS_FIELD in h then ErrorFromDetails(h[DETAILS_FIELD], h, codec)
    else if STATUS_FIELD in h then
      ErrorFromStatus(h[STATUS_FIELD], if MESSAGE_FIELD in h then h[MESSAGE_FIELD] else "", h, codec)
    else Ok(None)
  }

  /** A detail as found: the type is cut after its last slash. */
  function AsFound(d: Detail): Detail
    requires BytesOf(d).Ok?
  {
    Incoming(AfterLast(TypeOf(d), '/'), BytesOf(d).value, None)
  }

  function AllFound(ds: seq<Detail>): seq<Detail>
    requires CanEncode(ds)
  {
    seq(|ds|, i requires 0 <= i < |ds| => AsFound(ds[i]))
  }

  /** A type that is cut. */
  lemma SlashCutsType()
    ensures AsFound(Incoming("a/b", [], None)) == Incoming("b", [], None)
  {
    hide AfterLast;
    AfterLastOf("a", '/', "b");
    assert "a/b" == "a" + ['/'] + "b";
    assert '/' !in "b";
  }

  lemma DetailFound(d: Detail)
    requires BytesOf(d).Ok?
    ensures DetailToAny(d).Ok? && AnyToDetail(DetailToAny(d).value) == AsFound(d)
  {
    AfterLastOf(TYPE_PREFIX, '/', TypeOf(d));
  }

  /** The three fields a reader looks at, as the writer set them. */
  predicate CarriesStatus(h: Fields, e: DubboError, codec: Codec) {
    && STATUS_FIELD in h && h[STATUS_FIELD] == IntText(e.code)
    && MESSAGE_FIELD in h && h[MESSAGE_FIELD] == codec.uriEncode(e.rawMessage)
    && (|e.details| > 0 ==> DETAILS_FIELD in h && DetailsText(e, codec) == Ok(h[DETAILS_FIELD]))
  }

  lemma DetailsAreFound(e: DubboError, h: Fields, codec: Codec)
    requires codec.Lawful() && DetailsText(e, codec).Ok?
    ensures CanEncode(e.details)
    ensures ErrorFromDetails(DetailsText(e, codec).value, h, codec) ==
      if e.code == 0 then Ok(None) else Ok(Some(DubboError(e.code, e.rawMessage, Copied(h), AllFound(e.details))))
  {
    hide StripPadding;
    PackedIffEncodable(e.details);
    var status := Status(e.code, e.rawMessage, Packed(e.details).value);
    assert codec.encodeStatus(status).Ok? && Int32(status.code);
    var bytes := codec.encodeStatus(status).value;
    assert codec.lib.base64Decode(DetailsText(e, codec).value) == Some(bytes);
    assert codec.decodeStatus(bytes) == Some(status);
    UnpackedPacked(e.details);
  }

  lemma {:induction false} UnpackedPacked(ds: seq<Detail>)
    requires CanEncode(ds)
    ensures Packed(ds).Ok? && Unpacked(Packed(ds).value) == AllFound(ds)
  {
    hide AfterLast, DetailToAny, AnyToDetail, AsFound;
    if ds != [] {
      DetailFound(ds[0]);
      UnpackedPacked(ds[1..]);
      var first, rest := DetailToAny(ds[0]).value, Packed(ds[1..]).value;
      assert Unpacked([first] + rest) == [AnyToDetail(first)] + Unpacked(rest);
      assert AllFound(ds) == [AsFound(ds[0])] + AllFound(ds[1..]);
    }
  }

  /** What a reader makes of an error reported without details: code 0 is no error, and a code outside
      the enum is replaced. */
  function FromStatusField(e: DubboError, h: Fields): Option<DubboError> {
    if e.code == 0 then None
    else if KnownCode(e.code) then Some(DubboError(e.code, e.rawMessage, Copied(h), []))
    else Some(DubboError(INTERNAL, "invalid grpc-status: " + IntText(e.code), Copied(h), []))
  }

  lemma ParseIntText(n: int)
    ensures ParseInt(IntText(n)) == Some(n)
    ensures IntText(n) == "0" <==> n == 0
  {
    hide Decimal, DigitsValue, DigitPrefix, ParseInt;
    if n < 0 {
      DecimalValue(-n);
      ParseNegative(Decimal(-n));
      assert IntText(n)[0] == '-' != "0"[0];
    } else {
      ParseDecimal(n);
      ZeroIsZero();
    }
  }

  lemma ParseNegative(d: string)
    requires d != [] && AllDigits(d)
    ensures ParseInt("-" + d) == Some(-(DigitsValue(d) as int))
  {
    hide DigitsValue, DigitPrefix, IsSpace;
    DigitPrefixAll(d);
    VisibleChar('-');
    var s := "-" + d;
    assert s[0] == '-' && s[1..] == d && TrimStart(s) == s;
  }

  lemma ZeroIsZero()
    ensures ParseInt("0") == Some(0) && Decimal(0) == "0"
  {
    hide ParseInt;
    assert Decimal(0) == "0";
    ParseDecimal(0);
  }

  lemma StatusIsFound(e: DubboError, h: Fields, codec: Codec)
    requires codec.Lawful()
    ensures ErrorFromStatus(IntText(e.code), codec.uriEncode(e.rawMessage), h, codec) == Ok(FromStatusField(e, h))
  {
    hide ParseInt, Decimal, DigitsValue, IntText;
    ParseIntText(e.code);
    assert codec.uriDecode(codec.uriEncode(e.rawMessage)) == Some(e.rawMessage);
  }

  /** What a reader makes of an error whose status it can see. */
  function Surfaced(e: DubboError, h: Fields): Option<DubboError>
    requires CanEncode(e.details)
  {
    if e.code != 0 && |e.details| > 0 then Some(DubboError(e.code, e.rawMessage, Copied(h), AllFound(e.details)))
    else FromStatusField(e, h)
  }

  predicate Int32(n: int) {
    -0x8000_0000 <= n < 0x8000_0000
  }

  /** The status round trip on fields that carry it, for every code, if no details field set by someone
      else hides the status. */
  lemma StatusRoundTrip(h: Fields, e: DubboError, codec: Codec)
    requires codec.Lawful() && CarriesStatus(h, e, codec)
    requires |e.details| > 0 || DETAILS_FIELD !in h
    ensures CanEncode(e.details) && FindTrailerError(h, codec) == Ok(Surfaced(e, h))
  {
    hide IntText, DetailsText, ErrorFromDetails, ErrorFromStatus;
    if |e.details| > 0 {
      DetailsAreFound(e, h, codec);
    } else {
      StatusIsFound(e, h, codec);
    }
  }

  /** An error surfaces with the same code, raw message and ordered details exactly when its code is one
      of the enum's, or another non-zero one that comes with details; and each detail keeps its type
      exactly when the type has no slash. */
  lemma SurfacesFaithfully(e: DubboError, h: Fields)
    requires CanEncode(e.details)
    ensures Surfaced(e, h) == Some(DubboError(e.code, e.rawMessage, Copied(h), AllFound(e.details)))
      <==> KnownCode(e.code) || (e.code != 0 && |e.details| > 0)
    ensures forall d | d in e.details && d.Incoming? :: AsFound(d).type_ == d.type_ <==> '/' !in d.type_
  {
    assert e.details == [] ==> AllFound(e.details) == [];
  }
}

/** Status and trailer together, and a gRPC-Web streaming call
    (packages/dubbo/src/protocol-grpc-web/handler-factory.ts and transport.ts). */
module GrpcWeb {
  import opened Common
  import opened Errors
  import opened Streams
  import opened JsText
  import opened Envelopes
  import opened HttpHeaders
  import opened ErrorJson
  import opened GrpcWebTrailer
  import opened TrailerStatus
  import opened Transforms
  import opened Readers
  import opened Wire
  import opened EndToEnd

  /** The condition for a status to be readable: nobody put a details field there that the status does
      not overwrite. */
  predicate NotHidden(h: Fields, error: Option<DubboError>) {
    DETAILS_FIELD !in h || (error.Some? && |error.value.details| > 0)
  }

  lemma WithStatusIsValid(h: Fields, error: Option<DubboError>, codec: Codec)
    requires ValidFields(h) && codec.Lawful()
    ensures ValidFields(WithStatus(h, error, codec))
  {
    hide Lower, ValidName, Normalize, ValidValue, IntText, DetailsText, Trim;
    FieldNames();
    VisibleFacts("0");
    if error.Some? {
      StatusTextsAreVisible(error.value, codec);
      if DetailsText(error.value, codec).Ok? {
        DetailsTextIsVisible(error.value, codec);
      }
    }
  }

  /** Trailer and status composed: over the in-band trailer the error set surfaces (with the same code, raw
      message and details when `SurfacesFaithfully` says so), and no error is found when none was set. */
  lemma TrailerCarriesStatus(h: Fields, error: Option<DubboError>, fields: seq<(string, string)>, codec: Codec)
    requires codec.Lawful() && ValidFields(h) && Lists(fields, WithStatus(h, error, codec))
    requires NotHidden(h, error) && Refusal(error, codec) == None
    ensures error.Some? ==> CanEncode(error.value.details)
    ensures var p := ParsedText(TrailerText(fields));
      && p == Ok(TrimmedFields(WithStatus(h, error, codec)))
      && FindTrailerError(p.value, codec) == Ok(if error.Some? then Surfaced(error.value, p.value) else None)
  {
    hide Lower, ValidName, Normalize, ValidValue, WithStatus, TrailerText, ParsedText, FindTrailerError, Surfaced,
      TrimmedFields;
    WithStatusIsValid(h, error, codec);
    TrailerRoundTrip(WithStatus(h, error, codec), fields);
    SentStatusIsFound(h, error, codec);
  }

  lemma SentStatusIsFound(h: Fields, error: Option<DubboError>, codec: Codec)
    requires codec.Lawful() && NotHidden(h, error) && Refusal(error, codec) == None
    ensures error.Some? ==> CanEncode(error.value.details)
    ensures var t := TrimmedFields(WithStatus(h, error, codec));
      FindTrailerError(t, codec) == Ok(if error.Some? then Surfaced(error.value, t) else None)
  {
    hide Lower, ValidName, Normalize, ValidValue, IntText, DetailsText, Trim, Surfaced;
    FieldNames();
    VisibleFacts("0");
    var t := TrimmedFields(WithStatus(h, error, codec));
    if error.Some? {
      StatusTextsAreVisible(error.value, codec);
      if |error.value.details| > 0 {
        DetailsTextIsVisible(error.value, codec);
      }
      assert CarriesStatus(t, error.value, codec);
      hide FindTrailerError;
      StatusRoundTrip(t, error.value, codec);
    }
  }

  /** Otherwise the status set is not looked at: whatever the error, the stale details field decides. */
  lemma StaleDetailsHideStatus(h: Fields, error: Option<DubboError>, fields: seq<(string, string)>, codec: Codec)
    requires codec.Lawful() && ValidFields(h) && Lists(fields, WithStatus(h, error, codec))
    requires !NotHidden(h, error)
    ensures var p := ParsedText(TrailerText(fields));
      && p == Ok(TrimmedFields(WithStatus(h, error, codec)))
      && FindTrailerError(p.value, codec) == ErrorFromDetails(Trim(h[DETAILS_FIELD]), p.value, codec)
  {
    hide Lower, ValidName, Normalize, ValidValue, IntText, DetailsText, Trim, TrailerText, ParsedText, ErrorFromDetails;
    WithStatusIsValid(h, error, codec);
    TrailerRoundTrip(WithStatus(h, error, codec), fields);
    FieldNames();
  }

  // ----- a streaming call

  /** The codecs, and the order in which `Headers.forEach` visits the fields. */
  datatype Web = Web(codec: Codec, forEach: Fields -> seq<(string, string)>) {
    ghost predicate Lawful() {
      && codec.Lawful() && codec.lib.Utf8Law()
      && (forall h :: Lists(forEach(h), h))
    }
  }

  /** The context's trailer as the catch-finally callback leaves it: without an error it is not touched. */
  function FinalTrailer(trailer: Fields, caught: Option<Reason>, web: Web): Fields {
    if caught == None then trailer else WithStatus(trailer, ErrorToSend(caught), web.codec)
  }

  /** The catch-finally callback: setting the status may throw. */
  function TrailerFrame(trailer: Fields, caught: Option<Reason>, web: Web): Try<Envelope> {
    match Refusal(ErrorToSend(caught), web.codec)
    case Some(r) => Throws(r)
    case None =>
      Ok(Envelope(TRAILER_FLAG, web.codec.lib.utf8Encode(TrailerText(web.forEach(FinalTrailer(trailer, caught, web))))))
  }

  function ParseTrailer(data: seq<byte>, web: Web): Try<Fields> {
    ParsedText(web.codec.lib.utf8Decode(data))
  }

  /** `validateTrailer`. */
  function TrailerError(h: Fields, codec: Codec): Option<Reason> {
    match FindTrailerError(h, codec)
    case Throws(r) => Some(r)
    case Ok(None) => None
    case Ok(Some(e)) => Some(Dubbo(e))
  }

  function WebDialect(codec: Codec): Dialect<Fields> {
    Dialect((h: Fields) => TrailerError(h, codec),
            Violation("protocol error: received extra trailer"),
            Violation("protocol error: received extra message after trailer"),
            Violation("protocol error: missing trailer"))
  }

  /** The trailer frame has flag 128 and holds the lines of the trailer. */
  lemma TrailerFrameIs(trailer: Fields, caught: Option<Reason>, web: Web)
    ensures var frame := TrailerFrame(trailer, caught, web);
      && (frame.Ok? <==> Refusal(ErrorToSend(caught), web.codec) == None)
      && (frame.Ok? ==> frame.value.flags == 128)
      && (frame.Ok? && caught == None ==>
            frame.value.data == web.codec.lib.utf8Encode(TrailerText(web.forEach(trailer))))
  {
    hide WithStatus, TrailerText;
  }

  /** The violations are InvalidArgument (3), and an error found in the trailer is raised as it is. */
  lemma Violations(h: Fields, codec: Codec)
    ensures var d := WebDialect(codec);
      && (FindTrailerError(h, codec) == Ok(None) <==> d.errorOf(h) == None)
      && (forall e :: FindTrailerError(h, codec) == Ok(Some(e)) ==> d.errorOf(h) == Some(Dubbo(e)))
      && (forall r :: FindTrailerError(h, codec) == Throws(r) ==> d.errorOf(h) == Some(r))
      && d.missingEnd == Dubbo(DubboError(3, "protocol error: missing trailer", map[], []))
      && d.extraEnd == Dubbo(DubboError(3, "protocol error: received extra trailer", map[], []))
      && d.extraMessage ==
        Dubbo(DubboError(3, "protocol error: received extra message after trailer", map[], []))
  {
    hide FindTrailerError;
  }

  lemma TrailerFrameArrives(trailer: Fields, caught: Option<Reason>, web: Web)
    requires web.Lawful() && ValidFields(trailer) && TrailerFrame(trailer, caught, web).Ok?
    ensures ParseTrailer(TrailerFrame(trailer, caught, web).value.data, web) ==
      Ok(TrimmedFields(FinalTrailer(trailer, caught, web)))
  {
    hide WithStatus, TrimmedFields, ParsedText, Lower, ValidName, ValidValue, Normalize;
    var h := FinalTrailer(trailer, caught, web);
    var fields := web.forEach(h);
    assert Lists(fields, h);
    WithStatusIsValid(trailer, ErrorToSend(caught), web.codec);
    TrailerRoundTrip(h, fields);
    TextStartsWithName(fields, h);
    assert web.codec.lib.utf8Decode(web.codec.lib.utf8Encode(TrailerText(fields))) == TrailerText(fields);
  }

  lemma TextStartsWithName(fields: seq<(string, string)>, h: Fields)
    requires ValidFields(h) && Lists(fields, h)
    ensures TrailerText(fields) == [] || TrailerText(fields)[0] != '\U{FEFF}'
  {
    hide Lower, ValidValue;
    if fields != [] {
      TokenFacts(fields[0].0);
      assert TrailerText(fields)[0] == fields[0].0[0];
    }
  }

  /** The error the handler reports for a call. */
  function Reported<O(!new)>(output: Stream<O>, s: Serialization<O>): Option<DubboError> {
    ErrorToSend(Caught(SerializedEnd(output, s)))
  }

  /** The handler closes a stream iff the error to report can be encoded and every frame compressed; see
      `EndToEnd.ClosesOnce`. */
  lemma HandlerClosesOnce<O(!new)>(output: Stream<O>, trailer: Fields, s: Serialization<O>, web: Web, c: Coding)
    requires web.Lawful()
    ensures var f := ServerFrames(output, s, caught => TrailerFrame(trailer, caught, web));
      var body := Sent(f, c);
      var error := Reported(output, s);
      && (body.end == Done <==>
            AllEncodable(error) && (error.Some? && error.value.details != [] ==> Int32(error.value.code))
              && AllSendable(f.values, c))
      && |body.values| <= |f.values|
      && (forall i | 0 <= i < |body.values| ::
            HasFlag(f.values[i].flags, TRAILER_FLAG) <==> body.end == Done && i == |body.values| - 1)
      && (body.end == Done ==> |body.values| > 0)
  {
    hide ServerFrames, Sent, SerializedEnd, EncodeAll, Packed, DetailsText;
    if Reported(output, s).Some? {
      ReportedIffEncodable(Reported(output, s).value, web.codec);
    }
    ClosesOnce(output, s, caught => TrailerFrame(trailer, caught, web), c, TRAILER_FLAG);
  }

  /** The gRPC-Web streaming theorem. For every output stream, every trailer and every chunking, if the error can
      be reported, the client yields the serialized outputs in order and ends as the trailer it received says:
      with the error found in it, or with that trailer. See `ErrorIsFound` for that error. */
  lemma StreamingRoundTrip<O(!new)>(output: Stream<O>, trailer: Fields, s: Serialization<O>, web: Web, c: Coding,
                                    chunks: seq<seq<byte>>)
    requires s.LawfulWithin(c.readMaxBytes) && web.Lawful() && c.Lawful() && c.readMaxBytes < TWO_TO_THE_32
    requires ValidFields(trailer) && Refusal(Reported(output, s), web.codec) == None
    requires BodyArrives(output, s, caught => TrailerFrame(trailer, caught, web), c)
    requires Concat(chunks) ==
      Concat(Sent(ServerFrames(output, s, caught => TrailerFrame(trailer, caught, web)), c).values)
    ensures SerializedCount(output, s) <= |output.values|
    ensures var r := ClientReads(Concat(chunks), Done, s, c, TRAILER_FLAG, data => ParseTrailer(data, web),
      WebDialect(web.codec));
      var received := TrimmedFields(FinalTrailer(trailer, Caught(SerializedEnd(output, s)), web));
      && r.values == output.values[..SerializedCount(output, s)]
      && (r.outcome, r.trailer) ==
        match TrailerError(received, web.codec)
        case Some(reason) => (Failed(reason), None)
        case None => (Done, Some(received))
  {
    hide Fits, Sent, ServerFrames, SerializedEnd, SerializedCount, ParseTrailer, WithStatus, TrimmedFields,
      FindTrailerError;
    OutputsArrive(output, s, caught => TrailerFrame(trailer, caught, web), c, TRAILER_FLAG,
      data => ParseTrailer(data, web),
                  WebDialect(web.codec), chunks);
    TrailerFrameArrives(trailer, Caught(SerializedEnd(output, s)), web);
  }

  /** The error found in the trailer received: the one reported, as it surfaces (see
      `TrailerStatus.SurfacesFaithfully`), unless a details field the implementation added hides it. If the
      outputs ended normally and there is no such field, there is none iff the implementation left the
      handler's `grpc-status: 0` alone, or deleted it. */
  lemma ErrorIsFound(trailer: Fields, caught: Option<Reason>, web: Web)
    requires web.Lawful() && ValidFields(trailer) && Refusal(ErrorToSend(caught), web.codec) == None
    ensures var received := TrimmedFields(FinalTrailer(trailer, caught, web));
      var error := ErrorToSend(caught);
      && (error.Some? ==> CanEncode(error.value.details))
      && (error.Some? && NotHidden(trailer, error) ==>
            FindTrailerError(received, web.codec) == Ok(Surfaced(error.value, received)))
      && (error.Some? && !NotHidden(trailer, error) ==>
            FindTrailerError(received, web.codec) ==
              ErrorFromDetails(Trim(trailer[DETAILS_FIELD]), received, web.codec))
      && (error.None? && DETAILS_FIELD in trailer ==>
            FindTrailerError(received, web.codec) ==
              ErrorFromDetails(Trim(trailer[DETAILS_FIELD]), received, web.codec))
      && (error.None? && DETAILS_FIELD !in trailer ==>
            (TrailerError(received, web.codec) == None
             <==> (STATUS_FIELD in trailer ==> Trim(trailer[STATUS_FIELD]) == "0")))
  {
    hide Lower, ValidName, Normalize, ValidValue, IntText, DetailsText, Trim, Packed, Surfaced;
    FieldNames();
    VisibleFacts("0");
    var error := ErrorToSend(caught);
    if error.Some? {
      var h := FinalTrailer(trailer, caught, web);
      AllReported(error.value, web.codec);
      if NotHidden(trailer, error) {
        var fields := web.forEach(h);
        assert Lists(fields, h);
        TrailerCarriesStatus(trailer, error, fields, web.codec);
      } else {
        assert DETAILS_FIELD in h && h[DETAILS_FIELD] == trailer[DETAILS_FIELD];
      }
    }
  }

  lemma AllReported(e: DubboError, codec: Codec)
    requires Refusal(Some(e), codec) == None
    ensures CanEncode(e.details)
  {
    PackedIffEncodable(e.details);
  }
}
