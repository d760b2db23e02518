/** Library functions that are not modelled: parameters, with the laws their documentation promises. */
module Platform {
  import opened Common
  import opened Errors

  datatype Library = Library(
    base64Encode: seq<byte> -> string,
    base64Decode: string -> Option<seq<byte>>,
    utf8Encode: string -> seq<byte>,
    utf8Decode: seq<byte> -> string,
    jsonText: Json -> string,
    jsonParse: string -> Option<Json>,
    entries: map<string, Json> -> seq<(string, Json)>)
  {
    ghost predicate Base64Law() {
      forall b :: base64Decode(base64Encode(b)) == Some(b)
    }

    /** `TextDecoder` undoes `TextEncoder`, but drops a byte order mark at the start. */
    ghost predicate Utf8Law() {
      forall s :: (s == [] || s[0] != '\U{FEFF}') ==> utf8Decode(utf8Encode(s)) == s
    }

    /** `JSON.parse` undoes `JSON.stringify`, and the text of an object starts with a brace. */
    ghost predicate JsonLaw() {
      && (forall j :: jsonParse(jsonText(j)) == Some(j))
      && forall m :: jsonText(JObject(m)) != [] && jsonText(JObject(m))[0] == '{'
    }

    /** `Object.entries` lists every property once. */
    ghost predicate EntriesLaw() {
      forall m :: EntriesOf(entries(m), m)
    }

    ghost predicate Lawful() {
      Base64Law() && Utf8Law() && JsonLaw() && EntriesLaw()
    }
  }

  ghost predicate EntriesOf(es: seq<(string, Json)>, m: map<string, Json>) {
    && (forall i, j | 0 <= i < j < |es| :: es[i].0 != es[j].0)
    && (forall i | 0 <= i < |es| :: es[i].0 in m && m[es[i].0] == es[i].1)
    && (forall k | k in m :: (k, m[k]) in es)
  }
}

/** Errors as JSON (packages/dubbo/src/protocol-triple/error-json.ts). */
module ErrorJson {
  import opened Common
  import opened Errors
  import opened HttpHeaders
  import opened Platform

  function TypeOf(d: Detail): string {
    match d case Outgoing(t, _, _) => t case Incoming(t, _, _) => t
  }

  /** The bytes of a detail, or what encoding the message throws. */
  function BytesOf(d: Detail): Try<seq<byte>> {
    match d case Outgoing(_, b, _) => b case Incoming(_, b, _) => Ok(b)
  }

  /** Every detail can be encoded. */
  predicate CanEncode(ds: seq<Detail>) {
    forall i | 0 <= i < |ds| :: BytesOf(ds[i]).Ok?
  }

  /** Every detail of the error to send, if there is one, can be encoded. */
  predicate AllEncodable(error: Option<DubboError>) {
    error.Some? ==> CanEncode(error.value.details)
  }

  function DebugOf(d: Detail): Option<Json> {
    match d case Outgoing(_, _, j) => j case Incoming(_, _, j) => j
  }

  /** `typeof debug == "object"`. */
  predicate ObjectType(j: Json) {
    j.JObject? || j.JArray? || j.JNull?
  }

  /** A detail the reader accepts: its debug value, if any, is not a scalar. */
  predicate Readable(d: Detail) {
    DebugOf(d).Some? ==> ObjectType(DebugOf(d).value)
  }

  /** A detail as it looks after the wire. */
  function AsIncoming(d: Detail): Detail
    requires BytesOf(d).Ok?
  {
    Incoming(TypeOf(d), BytesOf(d).value, DebugOf(d))
  }

  function DetailToJson(d: Detail, lib: Library): Try<Json> {
    var bytes :- BytesOf(d);
    var o := map["type" := JString(TypeOf(d)), "value" := JString(lib.base64Encode(bytes))];
    Ok(JObject(if DebugOf(d).Some? then o["debug" := DebugOf(d).value] else o))
  }

  function DetailsToJson(ds: seq<Detail>, lib: Library): Try<seq<Json>> {
    if ds == [] then Ok([])
    else
      var first :- DetailToJson(ds[0], lib);
      var rest :- DetailsToJson(ds[1..], lib);
      Ok([first] + rest)
  }

  /** `errorToJson`. Only a message that cannot be encoded makes it throw. */
  function ErrorToJson(e: DubboError, lib: Library): Try<Json> {
    var o := map["status" := JInt(e.code)];
    var o := if |e.rawMessage| > 0 then o["message" := JString(e.rawMessage)] else o;
    var details :- DetailsToJson(e.details, lib);
    Ok(JObject(if |e.details| > 0 then o["details" := JArray(details)] else o))
  }

  lemma {:induction false} DetailsSerialize(ds: seq<Detail>, lib: Library)
    ensures DetailsToJson(ds, lib).Ok? <==> CanEncode(ds)
  {
    if ds != [] {
      DetailsSerialize(ds[1..], lib);
      assert forall i | 0 < i < |ds| :: ds[i] == ds[1..][i - 1];
    }
  }

  function DetailFromJson(j: Json, lib: Library): Option<Detail> {
    if j.JObject? && "type" in j.fields && j.fields["type"].JString? && "value" in j.fields
      && j.fields["value"].JString?
       && ("debug" in j.fields ==> ObjectType(j.fields["debug"])) then
      match lib.base64Decode(j.fields["value"].s)
      case None => None
      case Some(b) =>
        Some(Incoming(j.fields["type"].s, b, if "debug" in j.fields then Some(j.fields["debug"]) else None))
    else None
  }

  /** All details, or nothing if one of them is malformed. */
  function DetailsFromJson(items: seq<Json>, lib: Library): Option<seq<Detail>> {
    if items == [] then Some([])
    else
      var first, rest := DetailFromJson(items[0], lib), DetailsFromJson(items[1..], lib);
      if first.Some? && rest.Some? then Some([first.value] + rest.value) else None
  }

  function After(ds: seq<Detail>, rest: Option<seq<Detail>>): Option<seq<Detail>> {
    if rest.Some? then Some(ds + rest.value) else None
  }

  lemma AfterSnoc(ds: seq<Detail>, d: Detail, rest: Option<seq<Detail>>)
    ensures After(ds + [d], rest) == After(ds, After([d], rest))
  {
    if rest.Some? {
      assert ds + [d] + rest.value == ds + ([d] + rest.value);
    }
  }

  lemma AfterEnds(rest: Option<seq<Detail>>)
    ensures After([], rest) == rest
  {
    if rest.Some? {
      assert [] + rest.value == rest.value;
    }
  }

  /** What `errorFromJson` returns, `None` when it throws the fallback. `j` is `None` for `undefined`. */
  function ErrorOf(j: Json, metadata: Fields, lib: Library): Option<DubboError> {
    if !j.JObject? || "status" !in j.fields || !j.fields["status"].JInt? || !KnownCode(j.fields["status"].n) then None
    else if "message" in j.fields && !j.fields["message"].JNull? && !j.fields["message"].JString? then None
    else
      var message := if "message" in j.fields && j.fields["message"].JString? then j.fields["message"].s else "";
      var details :=
        if "details" in j.fields && j.fields["details"].JArray?
        then DetailsFromJson(j.fields["details"].items, lib) else Some([]);
      if details.Some? then Some(DubboError(j.fields["status"].n, message, Copied(metadata), details.value)) else None
  }

  /** `errorFromJson`: the details loop, and the fallback with the metadata appended. */
  method ErrorFromJson(jsonValue: Json, metadata: Fields, fallback: DubboError, lib: Library)
          returns (r: Try<DubboError>)
    requires ValidFields(metadata)
    ensures r == match ErrorOf(jsonValue, metadata, lib)
      case Some(e) => Ok(e)
      case None => Throws(Dubbo(fallback.(metadata := Appended(fallback.metadata, Copied(metadata)))))
  {
    CopiedIsValid(metadata);
    var appended := AppendEach(fallback.metadata, Copied(metadata));
    var failed: Try<DubboError> := Throws(Dubbo(fallback.(metadata := appended)));
    if !jsonValue.JObject? || "status" !in jsonValue.fields || !jsonValue.fields["status"].JInt? {
      return failed;
    }
    var code := jsonValue.fields["status"].n;
    if !KnownCode(code) {
      return failed;
    }
    var message := "";
    if "message" in jsonValue.fields && !jsonValue.fields["message"].JNull? {
      if !jsonValue.fields["message"].JString? {
        return failed;
      }
      message := jsonValue.fields["message"].s;
    }
    var details: seq<Detail> := [];
    if "details" in jsonValue.fields && jsonValue.fields["details"].JArray? {
      var read := ReadDetails(jsonValue.fields["details"].items, lib);
      if read.None? {
        return failed;
      }
      details := read.value;
    }
    return Ok(DubboError(code, message, Copied(metadata), details));
  }

  /** The details loop. */
  method ReadDetails(items: seq<Json>, lib: Library) returns (r: Option<seq<Detail>>)
    ensures r == DetailsFromJson(items, lib)
  {
    hide DetailFromJson;
    var details: seq<Detail> := [];
    AfterEnds(DetailsFromJson(items, lib));
    assert items[0..] == items;
    for i := 0 to |items|
      invariant DetailsFromJson(items, lib) == After(details, DetailsFromJson(items[i..], lib))
    {
      var detail := DetailFromJson(items[i], lib);
      assert items[i..][1..] == items[i + 1..];
      if detail.None? {
        return None;
      }
      AfterSnoc(details, detail.value, DetailsFromJson(items[i + 1..], lib));
      details := details + [detail.value];
    }
    assert items[|items|..] == [] && details + [] == details;
    return Some(details);
  }

  lemma DetailRoundTrip(d: Detail, lib: Library)
    requires lib.Base64Law() && BytesOf(d).Ok?
    ensures DetailToJson(d, lib).Ok?
    ensures DetailFromJson(DetailToJson(d, lib).value, lib) == if Readable(d) then Some(AsIncoming(d)) else None
  {
    assert lib.base64Decode(lib.base64Encode(BytesOf(d).value)) == Some(BytesOf(d).value);
  }

  function AllIncoming(ds: seq<Detail>): seq<Detail>
    requires CanEncode(ds)
  {
    seq(|ds|, i requires 0 <= i < |ds| => AsIncoming(ds[i]))
  }

  predicate AllReadable(ds: seq<Detail>) {
    forall i | 0 <= i < |ds| :: Readable(ds[i])
  }

  lemma {:induction false} DetailsRoundTrip(ds: seq<Detail>, lib: Library)
    requires lib.Base64Law() && CanEncode(ds)
    ensures DetailsToJson(ds, lib).Ok?
    ensures DetailsFromJson(DetailsToJson(ds, lib).value, lib) ==
      if AllReadable(ds) then Some(AllIncoming(ds)) else None
  {
    if ds != [] {
      DetailRoundTrip(ds[0], lib);
      DetailsRoundTrip(ds[1..], lib);
      assert AllReadable(ds) <==> Readable(ds[0]) && AllReadable(ds[1..]);
      assert AllIncoming(ds) == [AsIncoming(ds[0])] + AllIncoming(ds[1..]);
      assert DetailsToJson(ds, lib).value[1..] == DetailsToJson(ds[1..], lib).value;
    }
  }

  /** An error whose detail has a string for its debug value is not read back at all. */
  lemma ScalarDebugLosesError(metadata: Fields, lib: Library)
    requires lib.Base64Law()
    ensures var detail := Outgoing("google.protobuf.Timestamp", Ok([]), Some(JString("1970-01-01T00:00:00Z")));
      var e := DubboError(INTERNAL, "late", map[], [detail]);
      ErrorToJson(e, lib).Ok? && ErrorOf(ErrorToJson(e, lib).value, metadata, lib) == None
  {
    var detail := Outgoing("google.protobuf.Timestamp", Ok([]), Some(JString("1970-01-01T00:00:00Z")));
    assert !Readable([detail][0]);
    ErrorRoundTrip(DubboError(INTERNAL, "late", map[], [detail]), metadata, lib);
  }

  /** An error that can be encoded is read back with its code, message and ordered details exactly when its
      code is one of the enum's and no detail carries a scalar debug value. Otherwise nothing of it survives. */
  lemma ErrorRoundTrip(e: DubboError, metadata: Fields, lib: Library)
    requires lib.Base64Law() && AllEncodable(Some(e))
    ensures ErrorToJson(e, lib).Ok?
    ensures ErrorOf(ErrorToJson(e, lib).value, metadata, lib) ==
      if KnownCode(e.code) && AllReadable(e.details)
      then Some(DubboError(e.code, e.rawMessage, Copied(metadata), AllIncoming(e.details)))
      else None
  {
    DetailsRoundTrip(e.details, lib);
  }

  // ----- the JSON, property by property

  /** The JSON of one detail: its type, its bytes in base64, and its debug value if there is one. */
  predicate DetailIs(j: Json, typeName: string, text: string, debug: Option<Json>) {
    && j.JObject?
    && "type" in j.fields && j.fields["type"] == JString(typeName)
    && "value" in j.fields && j.fields["value"] == JString(text)
    && (if debug.Some? then "debug" in j.fields && j.fields["debug"] == debug.value else "debug" !in j.fields)
  }

  lemma KeysDiffer()
    ensures |"type"| == 4 && |"value"| == 5 && "debug" != "value" && |"debug"| == 5
    ensures |"status"| == 6 && |"message"| == 7 && "details" != "message" && "details" != "metadata"
  {
    assert "debug"[0] != "value"[0] && "details"[0] != "message"[0] && |"details"| == 7 && |"metadata"| == 8;
  }

  lemma DetailWritten(d: Detail, lib: Library)
    requires BytesOf(d).Ok?
    ensures DetailToJson(d, lib).Ok?
    ensures DetailIs(DetailToJson(d, lib).value, TypeOf(d), lib.base64Encode(BytesOf(d).value), DebugOf(d))
  {
    KeysDiffer();
  }

  /** A detail is read from exactly the JSON of that shape whose bytes can be decoded and whose debug value,
      if any, is not a scalar. */
  lemma DetailReads(j: Json, d: Detail, lib: Library)
    ensures DetailFromJson(j, lib) == Some(d) <==>
      && d.Incoming?
      && (exists text :: DetailIs(j, d.type_, text, d.debug) && lib.base64Decode(text) == Some(d.value))
      && (d.debug.Some? ==> d.debug.value.JObject? || d.debug.value.JArray? || d.debug.value.JNull?)
  {
    if DetailFromJson(j, lib) == Some(d) {
      assert DetailIs(j, d.type_, j.fields["value"].s, d.debug);
    }
  }

  lemma {:induction false} DetailsRead(items: seq<Json>, ds: seq<Detail>, lib: Library)
    ensures DetailsFromJson(items, lib) == Some(ds) <==>
      |ds| == |items| && forall i | 0 <= i < |items| :: DetailFromJson(items[i], lib) == Some(ds[i])
    decreases |items|
  {
    hide DetailFromJson;
    if items != [] && ds != [] {
      DetailsRead(items[1..], ds[1..], lib);
      assert ds == [ds[0]] + ds[1..];
      assert forall i | 0 < i < |items| :: items[i] == items[1..][i - 1];
      assert forall i | 0 < i < |ds| :: ds[i] == ds[1..][i - 1];
    }
  }

  lemma {:induction false} DetailsWritten(ds: seq<Detail>, lib: Library)
    requires CanEncode(ds)
    ensures DetailsToJson(ds, lib).Ok? && |DetailsToJson(ds, lib).value| == |ds|
    ensures forall i | 0 <= i < |ds| :: DetailToJson(ds[i], lib) == Ok(DetailsToJson(ds, lib).value[i])
  {
    hide DetailToJson;
    if ds != [] {
      DetailWritten(ds[0], lib);
      DetailsWritten(ds[1..], lib);
      assert forall i | 0 < i < |ds| :: ds[i] == ds[1..][i - 1];
    }
  }

  /** The JSON of an error: the code, the message unless it is empty, and all details in order unless there are
      none. */
  lemma ErrorWritten(e: DubboError, lib: Library)
    requires CanEncode(e.details)
    ensures ErrorToJson(e, lib).Ok? && ErrorToJson(e, lib).value.JObject?
    ensures var o := ErrorToJson(e, lib).value.fields;
      && "status" in o && o["status"] == JInt(e.code)
      && (if e.rawMessage == "" then "message" !in o else "message" in o && o["message"] == JString(e.rawMessage))
      && (if e.details == [] then "details" !in o
          else
            && "details" in o && o["details"].JArray? && |o["details"].items| == |e.details|
            && (forall i | 0 <= i < |e.details| :: DetailToJson(e.details[i], lib) == Ok(o["details"].items[i])))
  {
    hide DetailToJson;
    KeysDiffer();
    DetailsWritten(e.details, lib);
  }

  /** The message `m` stands in the object: its text, or empty when it is `null` or missing. */
  predicate MessageIs(o: map<string, Json>, m: string) {
    if "message" !in o || o["message"] == JNull then m == "" else o["message"] == JString(m)
  }

  /** An error is read from exactly the objects that carry one of the 16 codes, a text or nothing for its
      message, and only details that can be read; anything but an array of details counts as none. */
  lemma ErrorReads(j: Json, metadata: Fields, e: DubboError, lib: Library)
    ensures ErrorOf(j, metadata, lib) == Some(e) <==>
      && j.JObject?
      && "status" in j.fields && j.fields["status"] == JInt(e.code) && 1 <= e.code <= 16
      && MessageIs(j.fields, e.rawMessage)
      && e.metadata == Copied(metadata)
      && (if "details" in j.fields && j.fields["details"].JArray? then
            var items := j.fields["details"].items;
            |e.details| == |items| && forall i | 0 <= i < |items| :: DetailFromJson(items[i], lib) == Some(e.details[i])
          else e.details == [])
  {
    hide Copied, DetailFromJson;
    if j.JObject? && "details" in j.fields && j.fields["details"].JArray? {
      DetailsRead(j.fields["details"].items, e.details, lib);
    }
  }
}

/** The last frame of a Triple stream (packages/dubbo/src/protocol-triple/end-stream.ts). */
module EndStream {
  import opened Common
  import opened Errors
  import opened JsText
  import opened HttpHeaders
  import opened Platform
  import opened ErrorJson

  datatype EndStreamResponse = EndStreamResponse(metadata: Fields, error: Option<DubboError>)

  /** The fields `endStreamToJson` writes: the trailers, with the error's own metadata appended. */
  function MetadataToWrite(metadata: Fields, error: Option<DubboError>): Fields {
    if error.Some? then Merged(metadata, error.value.metadata) else metadata
  }

  /** `md["__proto__"] = [value]` sets the prototype of `md`; every other name becomes a property. */
  const PROTO := "__proto__"

  function FieldsToJson(h: Fields): map<string, Json> {
    map k | k in h && k != PROTO :: JArray([JString(h[k])])
  }

  function EndStreamJson(metadata: Fields, error: Option<DubboError>, lib: Library): Try<map<string, Json>> {
    var es :- ErrorProperty(error, lib);
    var written := MetadataToWrite(metadata, error);
    Ok(if written != map[] then es["metadata" := JObject(FieldsToJson(written))] else es)
  }

  function ErrorProperty(error: Option<DubboError>, lib: Library): Try<map<string, Json>> {
    if error.None? then Ok(map[])
    else
      var json :- ErrorToJson(error.value, lib);
      Ok(map["error" := json])
  }

  /** `md[key] = [value]`. */
  function SetProperty(md: map<string, Json>, key: string, value: string): map<string, Json> {
    if key == PROTO then md else md[key := JArray([JString(value)])]
  }

  lemma FieldsToJsonStep(part: Fields, key: string, value: string)
    requires key !in part
    ensures FieldsToJson(part[key := value]) == SetProperty(FieldsToJson(part), key, value)
  {
    var l, r := FieldsToJson(part[key := value]), SetProperty(FieldsToJson(part), key, value);
    assert l.Keys == r.Keys;
  }

  /** The loop over the fields: `hasMetadata` and the object `md`. */
  method FieldsToObject(written: Fields) returns (hasMetadata: bool, md: map<string, Json>)
    ensures hasMetadata <==> written != map[]
    ensures md == FieldsToJson(written)
  {
    hasMetadata, md := false, map[];
    var todo := written.Keys;
    ghost var part: Fields := map[];
    assert md == FieldsToJson(part);
    while todo != {}
      invariant todo <= written.Keys && part.Keys == written.Keys - todo
      invariant forall k | k in part :: part[k] == written[k]
      invariant hasMetadata <==> part != map[]
      invariant md == FieldsToJson(part)
      decreases |todo|
    {
      var key :| key in todo;
      FieldsToJsonStep(part, key, written[key]);
      hasMetadata, md := true, SetProperty(md, key, written[key]);
      part, todo := part[key := written[key]], todo - {key};
      assert key in part;
    }
    assert part == written;
  }

  /** `endStreamToJson`. */
  method EndStreamToJson(metadata: Fields, error: Option<DubboError>, lib: Library) returns (r: Try<map<string, Json>>)
    requires ValidFields(metadata) && (error.Some? ==> ValidFields(error.value.metadata))
    ensures r == EndStreamJson(metadata, error, lib)
  {
    hide ErrorToJson;
    var es: map<string, Json> := map[];
    var written := metadata;
    if error.Some? {
      var json := ErrorToJson(error.value, lib);
      if json.Throws? {
        return Throws(json.reason);
      }
      es := map["error" := json.value];
      written := AppendHeaders(metadata, error.value.metadata);
    }
    var hasMetadata, md := FieldsToObject(written);
    if hasMetadata {
      es := es["metadata" := JObject(md)];
    }
    return Ok(es);
  }

  const PARSE_ERROR := NewError("invalid end stream", INVALID_ARGUMENT)

  predicate Strings(values: seq<Json>) {
    forall i | 0 <= i < |values| :: values[i].JString?
  }

  /** The inner loop: append every value of one name. */
  function AppendValues(h: Fields, name: string, values: seq<Json>): (r: Try<Fields>)
    requires Strings(values) && ValidFields(h)
    ensures r.Ok? ==> ValidFields(r.value)
    decreases |values|
  {
    if values == [] then Ok(h)
    else
      var next :- Append(h, name, values[0].s);
      AppendKeepsValid(h, name, values[0].s);
      AppendValues(next, name, values[1..])
  }

  /** The outer loop over the entries, in the order `Object.entries` lists them. */
  function MetadataFromJson(h: Fields, entries: seq<(string, Json)>): (r: Try<Fields>)
    requires ValidFields(h)
    ensures r.Ok? ==> ValidFields(r.value)
    decreases |entries|
  {
    if entries == [] then Ok(h)
    else
      var (key, values) := entries[0];
      if !values.JArray? || !Strings(values.items) then Throws(Dubbo(PARSE_ERROR))
      else
        var next :- AppendValues(h, key, values.items);
        MetadataFromJson(next, entries[1..])
  }

  function EndStreamOf(jsonValue: Option<Json>, lib: Library): Try<EndStreamResponse> {
    if jsonValue.None? || !jsonValue.value.JObject? then Throws(Dubbo(PARSE_ERROR))
    else
      var o := jsonValue.value.fields;
      if "metadata" in o && !o["metadata"].JObject? then Throws(Dubbo(PARSE_ERROR))
      else
        var metadata :-
          if "metadata" in o then MetadataFromJson(map[], lib.entries(o["metadata"].fields)) else Ok(map[]);
        if "error" !in o then Ok(EndStreamResponse(metadata, None))
        else
          match ErrorOf(o["error"], metadata, lib)
          case Some(e) => Ok(EndStreamResponse(metadata, Some(e)))
          case None => Throws(Dubbo(PARSE_ERROR.(metadata := Appended(map[], Copied(metadata)))))
  }

  /** The nested loops of `endStreamFromJson`. */
  method ReadMetadata(entries: seq<(string, Json)>) returns (r: Try<Fields>)
    ensures r == MetadataFromJson(map[], entries)
    ensures r.Ok? <==> WellFormed(entries) && AllLegal(Listed(entries))
    ensures r.Ok? ==> Holds(r.value, Listed(entries))
  {
    hide WellFormed, Listed, AllLegal, Holds;
    MetadataRead(entries);
    var metadata: Fields := map[];
    assert entries[0..] == entries;
    for i := 0 to |entries|
      invariant ValidFields(metadata)
      invariant MetadataFromJson(map[], entries) == MetadataFromJson(metadata, entries[i..])
    {
      var (key, values) := entries[i];
      assert entries[i..][1..] == entries[i + 1..];
      if !values.JArray? || !Strings(values.items) {
        return Throws(Dubbo(PARSE_ERROR));
      }
      var appended := ReadValues(metadata, key, values.items);
      if appended.Throws? {
        return appended;
      }
      metadata := appended.value;
    }
    return Ok(metadata);
  }

  method ReadValues(h: Fields, name: string, values: seq<Json>) returns (r: Try<Fields>)
    requires Strings(values) && ValidFields(h)
    ensures r == AppendValues(h, name, values)
  {
    var metadata := h;
    assert values[0..] == values;
    for i := 0 to |values|
      invariant ValidFields(metadata)
      invariant AppendValues(h, name, values) == AppendValues(metadata, name, values[i..])
    {
      assert values[i..][0] == values[i] && values[i..][1..] == values[i + 1..];
      var next := Append(metadata, name, values[i].s);
      if next.Throws? {
        return next;
      }
      AppendKeepsValid(metadata, name, values[i].s);
      metadata := next.value;
    }
    return Ok(metadata);
  }

  /** `endStreamFromJson`, given the result of `JSON.parse` (`None` when it throws). */
  method EndStreamFromJson(jsonValue: Option<Json>, lib: Library) returns (r: Try<EndStreamResponse>)
    ensures r == EndStreamOf(jsonValue, lib)
  {
    if jsonValue.None? || !jsonValue.value.JObject? {
      return Throws(Dubbo(PARSE_ERROR));
    }
    var o := jsonValue.value.fields;
    var metadata: Fields := map[];
    if "metadata" in o {
      if !o["metadata"].JObject? {
        return Throws(Dubbo(PARSE_ERROR));
      }
      var read := ReadMetadata(lib.entries(o["metadata"].fields));
      if read.Throws? {
        return Throws(read.reason);
      }
      metadata := read.value;
    }
    if "error" !in o {
      return Ok(EndStreamResponse(metadata, None));
    }
    var error := ErrorFromJson(o["error"], metadata, PARSE_ERROR, lib);
    if error.Throws? {
      return Throws(error.reason);
    }
    return Ok(EndStreamResponse(metadata, Some(error.value)));
  }

  // ----- the JSON, property by property

  /** The object written: the error if there is one, and the fields, one string each, if there are any. */
  lemma EndStreamWritten(metadata: Fields, error: Option<DubboError>, lib: Library)
    requires AllEncodable(error)
    ensures EndStreamJson(metadata, error, lib).Ok?
    ensures var o := EndStreamJson(metadata, error, lib).value;
      var written := if error.Some? then Merged(metadata, error.value.metadata) else metadata;
      && ("error" in o <==> error.Some?)
      && (error.Some? ==> ErrorToJson(error.value, lib) == Ok(o["error"]))
      && ("metadata" in o <==> written.Keys != {})
      && ("metadata" in o ==>
            && o["metadata"].JObject? && o["metadata"].fields.Keys == written.Keys - {"__proto__"}
            && forall k | k in o["metadata"].fields :: o["metadata"].fields[k] == JArray([JString(written[k])]))
  {
    hide Merged, ErrorToJson;
    assert |"error"| == 5 && |"metadata"| == 8;
    if error.Some? {
      ErrorWritten(error.value, lib);
    }
  }

  /** The strings of an array, each with its name. */
  function Named(name: string, values: seq<Json>): seq<(string, string)>
    requires Strings(values)
  {
    seq(|values|, i requires 0 <= i < |values| => (name, values[i].s))
  }

  /** Every entry is an array of strings. */
  predicate WellFormed(entries: seq<(string, Json)>) {
    forall i | 0 <= i < |entries| :: entries[i].1.JArray? && Strings(entries[i].1.items)
  }

  /** All strings of all entries, in order. */
  function Listed(entries: seq<(string, Json)>): seq<(string, string)>
    requires WellFormed(entries)
  {
    if entries == [] then []
    else Named(entries[0].0, entries[0].1.items) + Listed(entries[1..])
  }

  lemma {:induction false} ValuesHold(h: Fields, fields: seq<(string, string)>, name: string, values: seq<Json>)
    requires Strings(values) && ValidFields(h) && Holds(h, fields)
    ensures AppendValues(h, name, values).Ok? <==> AllLegal(Named(name, values))
    ensures AppendValues(h, name, values).Ok? ==>
      Holds(AppendValues(h, name, values).value, fields + Named(name, values))
    decreases |values|
  {
    hide Append, Legal, Holds, ValidFields;
    if values == [] {
      assert fields + Named(name, values) == fields;
    } else {
      var v := values[0].s;
      AppendHolds(h, fields, name, v);
      assert Named(name, values) == [(name, v)] + Named(name, values[1..]);
      if Append(h, name, v).Ok? {
        AppendKeepsValid(h, name, v);
        ValuesHold(Append(h, name, v).value, fields + [(name, v)], name, values[1..]);
        Associative(fields, [(name, v)], Named(name, values[1..]));
        assert Legal(Named(name, values)[0].0, Named(name, values)[0].1);
        FirstLegal((name, v), Named(name, values[1..]));
      } else {
        assert !Legal(Named(name, values)[0].0, Named(name, values)[0].1);
      }
    }
  }

  /** The metadata is read iff every entry is an array of strings and every field legal; then it holds exactly
      the fields listed, the values of one name joined in order. */
  lemma {:induction false} MetadataHolds(h: Fields, fields: seq<(string, string)>, entries: seq<(string, Json)>)
    requires ValidFields(h) && Holds(h, fields)
    ensures MetadataFromJson(h, entries).Ok? <==> WellFormed(entries) && AllLegal(Listed(entries))
    ensures MetadataFromJson(h, entries).Ok? ==>
      Holds(MetadataFromJson(h, entries).value, fields + Listed(entries))
    decreases |entries|
  {
    hide Holds, ValidFields, AppendValues, Named, AllLegal;
    if entries == [] {
      assert fields + Listed(entries) == fields;
      NoneIllegal();
    } else {
      WellFormedStep(entries);
      var (key, j) := entries[0];
      if WellFormed(entries[..1]) {
        ValuesHold(h, fields, key, j.items);
        var next := AppendValues(h, key, j.items);
        if next.Ok? {
          MetadataHolds(next.value, fields + Named(key, j.items), entries[1..]);
        }
        if WellFormed(entries) {
          AllLegalJoin(Named(key, j.items), Listed(entries[1..]));
          Associative(fields, Named(key, j.items), Listed(entries[1..]));
        }
      }
    }
  }

  lemma MetadataRead(entries: seq<(string, Json)>)
    ensures MetadataFromJson(map[], entries).Ok? <==> WellFormed(entries) && AllLegal(Listed(entries))
    ensures MetadataFromJson(map[], entries).Ok? ==> Holds(MetadataFromJson(map[], entries).value, Listed(entries))
  {
    hide Holds, MetadataFromJson, WellFormed, AllLegal, Listed;
    HoldsNothing();
    MetadataHolds(map[], [], entries);
    if WellFormed(entries) {
      assert [] + Listed(entries) == Listed(entries);
    }
  }

  lemma WellFormedStep(entries: seq<(string, Json)>)
    requires entries != []
    ensures WellFormed(entries) <==> WellFormed(entries[..1]) && WellFormed(entries[1..])
    ensures WellFormed(entries[..1]) <==> entries[0].1.JArray? && Strings(entries[0].1.items)
  {
    hide Strings;
    assert entries[..1][0] == entries[0];
    assert forall i | 0 < i < |entries| :: entries[i] == entries[1..][i - 1];
  }

  /** A response is read from exactly the objects whose metadata, if there, is an object of arrays of legal
      strings, and whose error, if there, can be read. Its metadata holds the fields listed. */
  lemma EndStreamReads(j: Option<Json>, resp: EndStreamResponse, lib: Library)
    ensures EndStreamOf(j, lib) == Ok(resp) <==>
      && j.Some? && j.value.JObject?
      && (if "metadata" in j.value.fields then
            && j.value.fields["metadata"].JObject?
            && var entries := lib.entries(j.value.fields["metadata"].fields);
            WellFormed(entries) && AllLegal(Listed(entries)) && Holds(resp.metadata, Listed(entries))
          else resp.metadata == map[])
      && (if "error" in j.value.fields then
            resp.error.Some? && ErrorOf(j.value.fields["error"], resp.metadata, lib) == resp.error
          else resp.error == None)
  {
    hide Holds, MetadataFromJson, ErrorOf, WellFormed, AllLegal, Listed, Appended, Copied;
    if j.Some? && j.value.JObject? && "metadata" in j.value.fields && j.value.fields["metadata"].JObject? {
      var entries := lib.entries(j.value.fields["metadata"].fields);
      MetadataRead(entries);
      if MetadataFromJson(map[], entries).Ok? {
        if Holds(resp.metadata, Listed(entries)) {
          HoldsOne(resp.metadata, MetadataFromJson(map[], entries).value, Listed(entries));
        }
      }
    }
  }

  // ----- the serialization of the last frame

  /** `serialize`: the JSON text in UTF-8. Any failure becomes Internal. */
  function Serialize(resp: EndStreamResponse, lib: Library): Try<seq<byte>> {
    match EndStreamJson(resp.metadata, resp.error, lib)
    case Ok(json) => Ok(lib.utf8Encode(lib.jsonText(JObject(json))))
    case Throws(r) => Raise("failed to serialize EndStreamResponse: " + MessageText(r), INTERNAL)
  }

  predicate Encodable(resp: EndStreamResponse) {
    AllEncodable(resp.error)
  }

  /** A response is serialized iff every detail of its error can be encoded. */
  lemma SerializesIffEncodable(resp: EndStreamResponse, lib: Library)
    ensures Serialize(resp, lib).Ok? <==> Encodable(resp)
  {
    hide MetadataToWrite, FieldsToJson, MessageText;
    if resp.error.Some? {
      DetailsSerialize(resp.error.value.details, lib);
    }
  }

  /** An error whose detail protobuf refuses to encode cannot be sent. */
  lemma UnencodableDetailFails(lib: Library)
    ensures var detail := Outgoing("T", Throws(OtherError("invalid int 32")), None);
      Serialize(EndStreamResponse(map[], Some(DubboError(INTERNAL, "m", map[], [detail]))), lib)
        == Raise("failed to serialize EndStreamResponse: invalid int 32", INTERNAL)
  {
    var refused := OtherError("invalid int 32");
    var error := DubboError(INTERNAL, "m", map[], [Outgoing("T", Throws(refused), None)]);
    assert DetailToJson(error.details[0], lib) == Throws(refused);
    assert DetailsToJson(error.details, lib) == Throws(refused);
    assert EndStreamJson(map[], Some(error), lib) == Throws(refused);
    assert MessageText(refused) == "invalid int 32";
    assert "failed to serialize EndStreamResponse: " + "invalid int 32"
        == "failed to serialize EndStreamResponse: invalid int 32";
  }

  /** The `message` property of a thrown error. */
  function MessageText(r: Reason): string {
    match r
    case Dubbo(e) =>
      if e.rawMessage == "" then "[" + CodeName(e.code) + "]" else "[" + CodeName(e.code) + "] " + e.rawMessage
    case AbortError(m) => m
    case OtherError(m) => m
    case OtherValue(t) => t
    case Undefined => "undefined"
  }

  const CODE_NAMES := [
    "canceled", "unknown", "invalid_argument", "deadline_exceeded", "not_found", "already_exists",
    "permission_denied", "resource_exhausted", "failed_precondition", "aborted", "out_of_range",
    "unimplemented", "internal", "unavailable", "data_loss", "unauthenticated"]

  /** `codeToString`. */
  function CodeName(code: int): string {
    if 1 <= code <= |CODE_NAMES| then CODE_NAMES[code - 1]
    else if code < 0 then "-" + Decimal(-code) else Decimal(code)
  }

  function UnreadableEnd(r: Reason): Reason {
    Dubbo(NewError("failed to parse EndStreamResponse: " + MessageText(r), INVALID_ARGUMENT))
  }

  /** `parse`: any failure becomes InvalidArgument. */
  function Parse(data: seq<byte>, lib: Library): Try<EndStreamResponse> {
    match EndStreamOf(lib.jsonParse(lib.utf8Decode(data)), lib)
    case Ok(v) => Ok(v)
    case Throws(r) => Throws(UnreadableEnd(r))
  }

  /** A frame that cannot be read is an InvalidArgument error. */
  lemma UnreadableIsInvalid(data: seq<byte>, lib: Library)
    ensures Parse(data, lib).Ok? <==> EndStreamOf(lib.jsonParse(lib.utf8Decode(data)), lib).Ok?
    ensures Parse(data, lib).Throws? ==>
      Parse(data, lib).reason.Dubbo? && Parse(data, lib).reason.error.code == 3
  {
    hide EndStreamOf, MessageText;
  }

  /** The text of a frame that is not what the reader expects: it carries the name of the code. */
  lemma UnreadableText()
    ensures UnreadableEnd(Dubbo(PARSE_ERROR)) == Dubbo(DubboError(
        3, "failed to parse EndStreamResponse: " + ("[" + "invalid_argument" + "] " + "invalid end stream"), map[], []))
  {
  }

  // ----- round trip

  /** What reading recovers of the fields written. */
  function Recovered(h: Fields): Fields {
    map k | k in h && k != PROTO :: Normalize(h[k])
  }

  lemma RecoveredExactly(h: Fields)
    ensures Recovered(h) == h <==> PROTO !in h && NormalizedFields(h)
  {
    assert Recovered(h).Keys == h.Keys - {PROTO};
    if Recovered(h) == h {
      forall k | k in h ensures Normalized(h[k]) {
        assert Recovered(h)[k] == Normalize(h[k]);
      }
    }
  }

  /** A trailer that is lost, and one that comes back shorter. */
  lemma TrailersLost()
    ensures Recovered(map["__proto__" := "x"]) == map[]
    ensures Recovered(map["a" := "b "]) == map["a" := "b"]
  {
    var written: Fields := map["a" := "b "];
    assert |"a"| != |PROTO|;
    assert Normalize("b ") == "b" by {
      assert "b "[..1] == "b";
    }
    assert Recovered(written).Keys == {"a"};
  }

  /** The fields among the first entries, as read. */
  function RecoveredOf(entries: seq<(string, Json)>, written: Fields): Fields {
    map k | k in written && (exists i | 0 <= i < |entries| :: entries[i].0 == k) :: Normalize(written[k])
  }

  lemma RecoveredOfStep(h: Fields, entries: seq<(string, Json)>, written: Fields)
    requires entries != [] && entries[0].0 in written
    requires forall i | 0 < i < |entries| :: entries[0].0 != entries[i].0
    ensures var k := entries[0].0;
      h[k := Normalize(written[k])] + RecoveredOf(entries[1..], written) == h + RecoveredOf(entries, written)
  {
    hide Normalize;
    var k := entries[0].0;
    var l, r := h[k := Normalize(written[k])] + RecoveredOf(entries[1..], written), h + RecoveredOf(entries, written);
    forall x ensures x in RecoveredOf(entries, written) <==> x == k || x in RecoveredOf(entries[1..], written) {
      if i :| 0 < i < |entries| && entries[i].0 == x {
        assert entries[1..][i - 1].0 == x;
      }
    }
    assert l.Keys == r.Keys;
  }

  /** The entries of `FieldsToJson(written)`, from any point on. */
  predicate WrittenEntries(entries: seq<(string, Json)>, written: Fields, h: Fields) {
    && (forall i, j | 0 <= i < j < |entries| :: entries[i].0 != entries[j].0)
    && (forall i | 0 <= i < |entries| ::
          entries[i].0 in written && entries[i].0 !in h && entries[i].1 == JArray([JString(written[entries[i].0])]))
  }

  lemma {:induction false} ReadWrittenFields(h: Fields, entries: seq<(string, Json)>, written: Fields)
    requires ValidFields(h) && ValidFields(written) && WrittenEntries(entries, written, h)
    ensures MetadataFromJson(h, entries) == Ok(h + RecoveredOf(entries, written))
    decreases |entries|
  {
    hide Normalize, ValidName, ValidValue, Lower, Append, AppendValues, RecoveredOf;
    if entries == [] {
      RecoveredOfNothing(h, written);
    } else {
      var k := entries[0].0;
      ReadWrittenField(h, k, written[k]);
      ReadWrittenFields(h[k := Normalize(written[k])], entries[1..], written);
      RecoveredOfStep(h, entries, written);
    }
  }

  lemma RecoveredOfNothing(h: Fields, written: Fields)
    ensures h + RecoveredOf([], written) == h
  {
  }

  lemma ReadWrittenField(h: Fields, k: string, value: string)
    requires ValidFields(h) && k !in h && ValidName(k) && Lower(k) == k && ValidValue(value)
    ensures ValidFields(h[k := Normalize(value)])
    ensures AppendValues(h, k, [JString(value)]) == Ok(h[k := Normalize(value)])
  {
    AppendLegal(h, k, value);
    AppendKeepsValid(h, k, value);
    hide Normalize, ValidName, ValidValue, Lower, Append;
    var values := [JString(value)];
    assert values[1..] == [];
  }

  lemma ReadWritten(written: Fields, entries: seq<(string, Json)>)
    requires ValidFields(written) && EntriesOf(entries, FieldsToJson(written))
    ensures MetadataFromJson(map[], entries) == Ok(Recovered(written))
  {
    hide Normalize, ValidName, ValidValue, Lower, MetadataFromJson;
    var none: Fields := map[];
    assert ValidFields(none) && WrittenEntries(entries, written, none);
    ReadWrittenFields(none, entries, written);
    EntriesRecover(written, entries);
  }

  lemma EntriesRecover(written: Fields, entries: seq<(string, Json)>)
    requires EntriesOf(entries, FieldsToJson(written))
    ensures map[] + RecoveredOf(entries, written) == Recovered(written)
  {
    hide Normalize;
    var o := FieldsToJson(written);
    forall k | k in o ensures exists i | 0 <= i < |entries| :: entries[i].0 == k {
      assert (k, o[k]) in entries;
    }
    var read := RecoveredOf(entries, written);
    assert read.Keys == Recovered(written).Keys;
    assert map[] + read == read;
  }

  /** The fields written are always valid. */
  lemma WrittenIsValid(resp: EndStreamResponse)
    requires ValidFields(resp.metadata) && (resp.error.Some? ==> ValidFields(resp.error.value.metadata))
    ensures ValidFields(MetadataToWrite(resp.metadata, resp.error))
  {
    if resp.error.Some? {
      MergedIsValid(resp.metadata, resp.error.value.metadata);
    }
  }

  /** What the reader makes of a response, for every response that can be encoded. */
  function AfterWire(resp: EndStreamResponse): Try<EndStreamResponse>
    requires Encodable(resp)
  {
    var metadata := Recovered(MetadataToWrite(resp.metadata, resp.error));
    match resp.error
    case None => Ok(EndStreamResponse(metadata, None))
    case Some(e) =>
      if KnownCode(e.code) && AllReadable(e.details) then
        Ok(EndStreamResponse(metadata, Some(DubboError(e.code, e.rawMessage, metadata, AllIncoming(e.details)))))
      else Throws(UnreadableEnd(Dubbo(PARSE_ERROR)))
  }

  /** The round trip, in full: metadata, code, message and ordered details come back; the field
      `__proto__` is lost, values are trimmed, and an error with an unknown code or a scalar debug value
      takes the whole frame with it. */
  lemma RoundTrip(resp: EndStreamResponse, lib: Library)
    requires lib.Lawful() && Encodable(resp)
    requires ValidFields(resp.metadata) && (resp.error.Some? ==> ValidFields(resp.error.value.metadata))
    ensures Serialize(resp, lib).Ok?
    ensures Parse(Serialize(resp, lib).value, lib) == AfterWire(resp)
  {
    hide EndStreamOf, EndStreamJson, MetadataFromJson, ErrorOf, Recovered, MetadataToWrite, FieldsToJson, MessageText;
    SerializesIffEncodable(resp, lib);
    var json := EndStreamJson(resp.metadata, resp.error, lib).value;
    JsonArrives(json, lib);
    MetadataArrives(resp, lib);
    var metadata := Recovered(MetadataToWrite(resp.metadata, resp.error));
    ReadsObject(json, metadata, lib);
    ErrorIsWritten(resp, lib);
    if resp.error.Some? {
      ErrorArrives(resp, lib);
      FallbackText(Appended(map[], Copied(metadata)));
    }
  }

  lemma FallbackText(metadata: Fields)
    ensures MessageText(Dubbo(PARSE_ERROR.(metadata := metadata))) == MessageText(Dubbo(PARSE_ERROR))
  {
  }

  lemma ErrorIsWritten(resp: EndStreamResponse, lib: Library)
    requires EndStreamJson(resp.metadata, resp.error, lib).Ok?
    ensures ("error" in EndStreamJson(resp.metadata, resp.error, lib).value) <==> resp.error.Some?
  {
    hide FieldsToJson, MetadataToWrite, ErrorToJson;
  }

  /** `endStreamFromJson` on an object whose metadata is readable. */
  lemma ReadsObject(o: map<string, Json>, metadata: Fields, lib: Library)
    requires if "metadata" in o
      then o["metadata"].JObject? && MetadataFromJson(map[], lib.entries(o["metadata"].fields)) == Ok(metadata)
      else metadata == map[]
    ensures EndStreamOf(Some(JObject(o)), lib) ==
      if "error" !in o then Ok(EndStreamResponse(metadata, None))
      else match ErrorOf(o["error"], metadata, lib)
        case Some(e) => Ok(EndStreamResponse(metadata, Some(e)))
        case None => Throws(Dubbo(PARSE_ERROR.(metadata := Appended(map[], Copied(metadata)))))
  {
    hide MetadataFromJson, ErrorOf, Appended, Copied;
  }

  /** The part of `endStreamFromJson` up to the metadata. */
  lemma MetadataArrives(resp: EndStreamResponse, lib: Library)
    requires lib.EntriesLaw() && EndStreamJson(resp.metadata, resp.error, lib).Ok?
    requires ValidFields(resp.metadata) && (resp.error.Some? ==> ValidFields(resp.error.value.metadata))
    ensures var o := EndStreamJson(resp.metadata, resp.error, lib).value;
      var written := MetadataToWrite(resp.metadata, resp.error);
      if "metadata" in o
      then o["metadata"] == JObject(FieldsToJson(written))
        && MetadataFromJson(map[], lib.entries(FieldsToJson(written))) == Ok(Recovered(written))
      else Recovered(written) == map[]
  {
    hide Normalize, ValidName, ValidValue, Lower, MetadataFromJson, ErrorToJson;
    var written := MetadataToWrite(resp.metadata, resp.error);
    WrittenIsValid(resp);
    if written != map[] {
      assert EntriesOf(lib.entries(FieldsToJson(written)), FieldsToJson(written));
      ReadWritten(written, lib.entries(FieldsToJson(written)));
    }
  }

  lemma ErrorArrives(resp: EndStreamResponse, lib: Library)
    requires lib.Base64Law() && resp.error.Some? && Encodable(resp)
    ensures EndStreamJson(resp.metadata, resp.error, lib).Ok?
    ensures var o := EndStreamJson(resp.metadata, resp.error, lib).value;
      var metadata := Recovered(MetadataToWrite(resp.metadata, resp.error));
      var e := resp.error.value;
      && "error" in o
      && ErrorOf(o["error"], metadata, lib) ==
        if KnownCode(e.code) && AllReadable(e.details)
        then Some(DubboError(e.code, e.rawMessage, metadata, AllIncoming(e.details))) else None
  {
    hide Normalize, ValidName, ValidValue, Lower, MetadataToWrite;
    var metadata := Recovered(MetadataToWrite(resp.metadata, resp.error));
    ErrorRoundTrip(resp.error.value, metadata, lib);
    assert Copied(metadata) == metadata by { RecoveredIsNormalized(MetadataToWrite(resp.metadata, resp.error)); }
  }

  lemma RecoveredIsNormalized(h: Fields)
    ensures NormalizedFields(Recovered(h))
  {
  }

  lemma JsonArrives(json: map<string, Json>, lib: Library)
    requires lib.Lawful()
    ensures lib.jsonParse(lib.utf8Decode(lib.utf8Encode(lib.jsonText(JObject(json))))) == Some(JObject(json))
  {
    var text := lib.jsonText(JObject(json));
    assert text != [] && text[0] == '{';
  }
}
