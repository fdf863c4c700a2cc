/**
 The response middleware (src/web/response.py): everything an application sends for an /api/
 request is captured and sent on in one of three ways -- event streams message for message,
 other non-JSON bodies in one piece, JSON bodies wrapped into an envelope.

 Byte strings are strings of characters below 256.  JSON text, its encoding and Python's int()
 and str() on other values are the functions of a `Codec`, about which nothing is assumed.
 */
module ResponseWrapper {
  import opened Wrappers
  import opened Text

  // ---- JSON values as Python sees them -----------------------------------------------------------------

  datatype Json =
    | Null
    | Bool(b: bool)
    | Int(n: int)
    | Float(x: real)
    | Str(s: string)
    | Arr(items: seq<Json>)
    | Obj(fields: map<string, Json>)

  /**
   json.loads and json.dumps, str.encode, and int() and str() where they are not the identity;
   None is an exception.
   */
  datatype Codec = Codec(loads: string -> Option<Json>, dumps: Json -> string, encode: string -> string,
                         toInt: Json -> Option<int>, toText: Json -> string)

  predicate Truthy(j: Json) {
    match j
    case Null => false
    case Bool(b) => b
    case Int(n) => n != 0
    case Float(x) => x != 0.0
    case Str(s) => s != ""
    case Arr(items) => items != []
    case Obj(fields) => fields != map[]
  }

  function PyInt(codec: Codec, j: Json): Option<int> {
    match j
    case Int(n) => Some(n)
    case Bool(b) => Some(if b then 1 else 0)
    case _ => codec.toInt(j)
  }

  function PyStr(codec: Codec, j: Json): string {
    if j.Str? then j.s else codec.toText(j)
  }

  function Get(fields: map<string, Json>, key: string): Json {
    if key in fields then fields[key] else Null
  }

  // ---- Envelopes ------------------------------------------------------------------------------------------

  datatype Envelope = Envelope(code: int, success: bool, data: Json, message: string)

  function ToJson(e: Envelope): Json {
    Obj(map["code" := Int(e.code), "success" := Bool(e.success), "data" := e.data, "message" := Str(e.message)])
  }

  /** A body that says itself whether it is a success. */
  function WrapExplicit(codec: Codec, fields: map<string, Json>): Envelope {
    var success := Truthy(Get(fields, "success"));
    var fallback := if success then 0 else 1;
    var raw := Get(fields, "code");
    var parsed := if raw.Null? then fallback else PyInt(codec, raw).GetOr(fallback);
    var code := if success && parsed != 0 then 0 else if !success && parsed == 0 then 1 else parsed;
    if success then
      var data := Get(fields, "data");
      Envelope(code, true, if data.Null? then Obj(fields - {"code", "success", "message"}) else data, "")
    else
      var message := Get(fields, "message");
      Envelope(code, false, Null, if Truthy(message) then PyStr(codec, message) else "failed")
  }

  function ErrorMessage(codec: Codec, detail: Json): string {
    match detail
    case Obj(fields) =>
      if Truthy(Get(fields, "message")) then PyStr(codec, Get(fields, "message"))
      else if Truthy(Get(fields, "detail")) then PyStr(codec, Get(fields, "detail"))
      else codec.dumps(detail)
    case Str(s) => s
    case _ => codec.dumps(detail)
  }

  function WrapError(codec: Codec, status: int, original: Json): Envelope {
    var detail := if original.Obj? && "detail" in original.fields then original.fields["detail"] else original;
    var parsed := if detail.Obj? && !Get(detail.fields, "code").Null?
                  then PyInt(codec, Get(detail.fields, "code")).GetOr(status) else status;
    var code := if parsed != 0 then parsed else if status != 0 then status else 1;
    Envelope(code, false, Null, ErrorMessage(codec, detail))
  }

  function Wrap(codec: Codec, status: int, original: Json): Envelope {
    if 200 <= status < 300 then
      if original.Obj? && "success" in original.fields then WrapExplicit(codec, original.fields)
      else Envelope(0, true, original, "")
    else WrapError(codec, status, original)
  }

  /** The rules of the envelope format. */
  predicate IsRegular(e: Envelope) {
    && (e.success <==> e.code == 0)
    && (e.success ==> e.message == "")
    && (!e.success ==> e.data == Null)
  }

  /** For every status and every body: success iff code 0, no message on success, no data on failure. */
  lemma {:induction false} EnvelopesAreRegular(codec: Codec, status: int, original: Json)
    ensures IsRegular(Wrap(codec, status, original))
  {}

  /** Wrapping an envelope again is harmless iff it is not one of the two lossy kinds. */
  lemma {:induction false} RewrapIsIdentityIff(codec: Codec, status: int, e: Envelope)
    requires IsRegular(e) && 200 <= status < 300
    ensures Wrap(codec, status, ToJson(e)) == e <==>
            !(e.success && e.data == Null) && !(!e.success && e.message == "")
  {}

  /** The two kinds at work: a null becomes an object that holds it, a message is invented. */
  lemma {:induction false} LossyRewraps(codec: Codec)
    ensures Wrap(codec, 200, ToJson(Envelope(0, true, Null, ""))) == Envelope(0, true, Obj(map["data" := Null]), "")
    ensures Wrap(codec, 200, ToJson(Envelope(1, false, Null, ""))) == Envelope(1, false, Null, "failed")
  {
    var fields := ToJson(Envelope(0, true, Null, "")).fields;
    assert fields - {"code", "success", "message"} == map["data" := Null];
  }

  /** Under an error status only failures with a message come back unchanged. */
  lemma {:induction false} RewrapErrorIff(codec: Codec, status: int, e: Envelope)
    requires IsRegular(e) && !(200 <= status < 300) && codec.dumps(ToJson(e)) != ""
    ensures Wrap(codec, status, ToJson(e)) == e <==> !e.success && e.message != ""
  {}

  /** From the second wrapping on, an envelope stays as it is. */
  lemma {:induction false} WrappingSettles(codec: Codec, status: int, original: Json)
    requires 200 <= status < 300
    ensures var twice := Wrap(codec, status, ToJson(Wrap(codec, status, original)));
            Wrap(codec, status, ToJson(twice)) == twice
  {}

  // ---- Messages ---------------------------------------------------------------------------------------

  datatype Header = Header(name: string, value: string)

  /** A message of the ASGI HTTP format; absent headers and bodies are empty ones. */
  datatype Message =
    | Start(status: int, headers: seq<Header>)
    | Body(body: string, more: bool)
    | Other(kind: string)

  datatype Scope = Scope(kind: string, path: string)

  predicate IsWrapped(scope: Scope) {
    scope.kind == "http" && "/api/" <= scope.path
  }

  predicate OccursAt(part: string, s: string, i: nat)
    requires i <= |s|
  {
    part <= s[i..]
  }

  predicate Contains(s: string, part: string) {
    exists i | 0 <= i <= |s| :: OccursAt(part, s, i)
  }

  predicate IsContentType(h: Header) {
    Lower(h.name) == "content-type"
  }

  predicate IsContentLength(h: Header) {
    Lower(h.name) == "content-length"
  }

  predicate NamesEventStream(h: Header) {
    IsContentType(h) && Contains(Lower(h.value), "text/event-stream")
  }

  predicate IsEventStream(headers: seq<Header>) {
    exists i | 0 <= i < |headers| :: NamesEventStream(headers[i])
  }

  /** The value of the first content-type header. */
  function ContentType(headers: seq<Header>): string {
    if headers == [] then ""
    else if IsContentType(headers[0]) then headers[0].value
    else ContentType(headers[1..])
  }

  predicate IsJson(headers: seq<Header>) {
    Contains(ContentType(headers), "application/json")
  }

  function Relabel(h: Header, length: nat): Header {
    if IsContentLength(h) then h.(value := IntToString(length)) else h
  }

  /** The headers with every content-length set to `length`. */
  function Relabelled(headers: seq<Header>, length: nat): seq<Header> {
    seq(|headers|, i requires 0 <= i < |headers| => Relabel(headers[i], length))
  }

  function Join(parts: seq<string>): string {
    if parts == [] then "" else parts[0] + Join(parts[1..])
  }

  function Bodies(messages: seq<Message>): seq<string> {
    if messages == [] then []
    else (if messages[0].Body? then [messages[0].body] else []) + Bodies(messages[1..])
  }

  /** All body bytes of a response. */
  function Payload(messages: seq<Message>): string {
    Join(Bodies(messages))
  }

  lemma {:induction false} ContainsMeans(s: string, part: string)
    ensures Contains(s, part) <==> exists before, after :: s == before + part + after
  {
    if Contains(s, part) {
      var i :| 0 <= i <= |s| && OccursAt(part, s, i);
      assert s == s[..i] + part + s[i + |part|..];
    }
    if before, after :| s == before + part + after {
      assert s[|before|..] == part + after;
      assert OccursAt(part, s, |before|);
    }
  }

  /** Some content type, in any case, names an event stream. */
  lemma {:induction false} EventStreamMeans(headers: seq<Header>)
    ensures IsEventStream(headers) <==>
            exists h, before, after :: h in headers && Lower(h.name) == "content-type"
                                       && Lower(h.value) == before + "text/event-stream" + after
  {
    forall h ensures NamesEventStream(h) <==>
        exists before, after :: Lower(h.name) == "content-type" && Lower(h.value) == before + "text/event-stream" + after
    {
      ContainsMeans(Lower(h.value), "text/event-stream");
    }
    hide NamesEventStream, Lower;
    if h, before, after :| h in headers && Lower(h.name) == "content-type"
                           && Lower(h.value) == before + "text/event-stream" + after
    {
      assert NamesEventStream(h);
    }
  }

  predicate IsFirstType(headers: seq<Header>, i: nat) {
    && i < |headers|
    && Lower(headers[i].name) == "content-type"
    && forall j | 0 <= j < i :: Lower(headers[j].name) != "content-type"
  }

  lemma {:induction false} ContentTypeIsFirst(headers: seq<Header>)
    ensures (exists i: nat :: IsFirstType(headers, i) && ContentType(headers) == headers[i].value)
            || (ContentType(headers) == "" && forall h | h in headers :: Lower(h.name) != "content-type")
  {
    if headers == [] {
    } else if IsContentType(headers[0]) {
      assert IsFirstType(headers, 0);
    } else {
      ContentTypeIsFirst(headers[1..]);
      if i: nat :| IsFirstType(headers[1..], i) && ContentType(headers[1..]) == headers[1..][i].value {
        assert forall j | 0 < j < |headers| :: headers[j] == headers[1..][j - 1];
        assert IsFirstType(headers, i + 1);
      }
    }
  }

  /** The first content type, and no other, contains the name of JSON, in this case. */
  lemma {:induction false} JsonMeans(headers: seq<Header>)
    ensures IsJson(headers) <==>
            exists i: nat, before, after :: IsFirstType(headers, i)
                                            && headers[i].value == before + "application/json" + after
  {
    ContentTypeIsFirst(headers);
    ContainsMeans(ContentType(headers), "application/json");
    assert forall i: nat, j: nat :: IsFirstType(headers, i) && IsFirstType(headers, j) ==> i == j;
    hide Lower;
  }

  /** The body bytes, in the order in which they were sent. */
  lemma {:induction false} PayloadInOrder(a: seq<Message>, b: seq<Message>, status: int, headers: seq<Header>, text: string,
                                         more: bool, kind: string)
    ensures Payload(a + b) == Payload(a) + Payload(b)
    ensures Payload([Body(text, more)]) == text
    ensures Payload([Start(status, headers)]) == Payload([Other(kind)]) == Payload([]) == ""
  {
    assert [text][1..] == [] && Join([text]) == text + Join([]) == text;
    assert [Body(text, more)][1..] == [] && Bodies([Body(text, more)]) == [text];
    assert [Start(status, headers)][1..] == [] && [Other(kind)][1..] == [];
    BodiesConcat(a, b);
    JoinConcat(Bodies(a), Bodies(b));
  }

  lemma {:induction false} BodiesConcat(a: seq<Message>, b: seq<Message>)
    ensures Bodies(a + b) == Bodies(a) + Bodies(b)
  {
    if a == [] {
      assert a + b == b;
    } else {
      BodiesConcat(a[1..], b);
      assert (a + b)[1..] == a[1..] + b;
    }
  }

  lemma {:induction false} JoinConcat(a: seq<string>, b: seq<string>)
    ensures Join(a + b) == Join(a) + Join(b)
  {
    if a == [] {
      assert a + b == b;
    } else {
      JoinConcat(a[1..], b);
      assert (a + b)[1..] == a[1..] + b;
    }
  }

  // ---- What the middleware sends -------------------------------------------------------------------------

  datatype Capture = Capture(status: int, headers: seq<Header>, parts: seq<string>, passthrough: bool, sent: seq<Message>)

  const FRESH := Capture(200, [], [], false, [])

  function Step(s: Capture, m: Message): Capture {
    match m
    case Start(status, headers) =>
      var passthrough := s.passthrough || IsEventStream(headers);
      Capture(status, headers, s.parts, passthrough, if passthrough then s.sent + [m] else s.sent)
    case Body(body, more) =>
      if s.passthrough then s.(sent := s.sent + [m]) else s.(parts := s.parts + [body])
    case Other(kind) => s
  }

  function Steps(s: Capture, messages: seq<Message>): Capture
    decreases messages
  {
    if messages == [] then s else Steps(Step(s, messages[0]), messages[1..])
  }

  /** The new body of a JSON response, unless the body is not JSON after all. */
  function NewBody(codec: Codec, status: int, headers: seq<Header>, body: string): Option<string> {
    if !IsJson(headers) || codec.loads(body).None? then None
    else Some(codec.encode(codec.dumps(ToJson(Wrap(codec, status, codec.loads(body).value)))))
  }

  function Reply(codec: Codec, status: int, headers: seq<Header>, body: string): seq<Message> {
    match NewBody(codec, status, headers, body)
    case None => [Start(status, headers), Body(body, false)]
    case Some(text) => [Start(status, Relabelled(headers, |text|)), Body(text, false)]
  }

  function Finish(codec: Codec, s: Capture): seq<Message> {
    s.sent + if s.passthrough then [] else Reply(codec, s.status, s.headers, Join(s.parts))
  }

  /** Everything sent on for what an application sent. */
  function Handle(codec: Codec, scope: Scope, messages: seq<Message>): seq<Message> {
    if IsWrapped(scope) then Finish(codec, Steps(FRESH, messages)) else messages
  }

  // ---- Laws of the three modes ------------------------------------------------------------------------------

  /** The ASGI message order: a start, then bodies of which exactly the last announces no more. */
  predicate WellFormed(messages: seq<Message>) {
    && |messages| >= 2
    && messages[0].Start?
    && forall i | 1 <= i < |messages| :: messages[i].Body? && (messages[i].more <==> i < |messages| - 1)
  }

  predicate AllBodies(messages: seq<Message>) {
    forall i | 0 <= i < |messages| :: messages[i].Body?
  }

  lemma {:induction false} BodiesPassThrough(s: Capture, messages: seq<Message>)
    requires s.passthrough && AllBodies(messages)
    ensures Steps(s, messages) == s.(sent := s.sent + messages)
    decreases messages
  {
    if messages == [] {
      assert s.sent + messages == s.sent;
    } else {
      BodiesPassThrough(Step(s, messages[0]), messages[1..]);
      assert s.sent + [messages[0]] + messages[1..] == s.sent + messages;
    }
  }

  lemma {:induction false} BodiesAreKept(s: Capture, messages: seq<Message>)
    requires !s.passthrough && AllBodies(messages)
    ensures Steps(s, messages) == s.(parts := s.parts + Bodies(messages))
    decreases messages
  {
    if messages == [] {
    } else {
      BodiesAreKept(Step(s, messages[0]), messages[1..]);
    }
  }

  /** Event streams, and requests outside /api/, are sent on message for message. */
  lemma {:induction false} StreamsPassThrough(codec: Codec, scope: Scope, messages: seq<Message>)
    requires WellFormed(messages) && (IsWrapped(scope) ==> IsEventStream(messages[0].headers))
    ensures Handle(codec, scope, messages) == messages
  {
    if IsWrapped(scope) {
      var s := Step(FRESH, messages[0]);
      BodiesPassThrough(s, messages[1..]);
      assert [messages[0]] + messages[1..] == messages;
    }
  }

  /** Exactly the HTTP requests whose path starts with /api/ are looked at. */
  lemma {:induction false} WrappedMeans(scope: Scope)
    ensures IsWrapped(scope) <==> scope.kind == "http" && exists rest :: scope.path == "/api/" + rest
  {
    if IsWrapped(scope) {
      assert scope.path == "/api/" + scope.path[5..];
    }
  }

  /** Whatever is not HTTP, or not under /api/, is sent on as it is, well-formed or not. */
  lemma {:induction false} OutsideApi(codec: Codec, scope: Scope, messages: seq<Message>)
    requires scope.kind != "http" || |scope.path| < 5 || scope.path[..5] != "/api/"
    ensures Handle(codec, scope, messages) == messages
  {}

  /** An application that sends nothing is answered by an empty response with status 200. */
  lemma {:induction false} SilenceIsAnEmptyResponse(codec: Codec, scope: Scope)
    requires IsWrapped(scope)
    ensures Handle(codec, scope, []) == [Start(200, []), Body("", false)]
  {
    ContainsMeans("", "application/json");
  }

  function WithoutOthers(messages: seq<Message>): seq<Message> {
    if messages == [] then []
    else (if messages[0].Other? then [] else [messages[0]]) + WithoutOthers(messages[1..])
  }

  /** Messages of other types are dropped in every mode. */
  lemma {:induction false} OthersAreDropped(s: Capture, messages: seq<Message>)
    ensures Steps(s, messages) == Steps(s, WithoutOthers(messages))
    decreases messages
  {
    if messages == [] {
    } else {
      OthersAreDropped(Step(s, messages[0]), messages[1..]);
      var rest := WithoutOthers(messages[1..]);
      if messages[0].Other? {
        assert WithoutOthers(messages) == rest;
      } else {
        assert WithoutOthers(messages) == [messages[0]] + rest;
        assert ([messages[0]] + rest)[1..] == rest;
      }
    }
  }

  /** An event stream is never held back: at every moment everything produced has been sent on. */
  lemma {:induction false} StreamsAreNotDelayed(messages: seq<Message>, k: nat)
    requires WellFormed(messages) && IsEventStream(messages[0].headers) && 1 <= k <= |messages|
    ensures Steps(FRESH, messages[..k]).sent == messages[..k]
  {
    var sofar := messages[..k];
    BodiesPassThrough(Step(FRESH, sofar[0]), sofar[1..]);
    assert [sofar[0]] + sofar[1..] == sofar;
  }

  /** Any other response is answered by its status, its headers and its total bytes alone. */
  lemma {:induction false} RestIsBuffered(codec: Codec, scope: Scope, messages: seq<Message>)
    requires WellFormed(messages) && IsWrapped(scope) && !IsEventStream(messages[0].headers)
    ensures Handle(codec, scope, messages)
         == Reply(codec, messages[0].status, messages[0].headers, Payload(messages))
  {
    BodiesAreKept(Step(FRESH, messages[0]), messages[1..]);
    assert FRESH.parts + Bodies(messages[1..]) == Bodies(messages);
  }

  predicate IsEnveloped(codec: Codec, scope: Scope, messages: seq<Message>)
    requires WellFormed(messages)
  {
    && IsWrapped(scope)
    && !IsEventStream(messages[0].headers)
    && IsJson(messages[0].headers)
    && codec.loads(Payload(messages)).Some?
  }

  lemma {:induction false} PayloadOfTwo(m: Message, text: string)
    requires m.Start?
    ensures Payload([m, Body(text, false)]) == text
  {
    assert [m, Body(text, false)][1..] == [Body(text, false)];
    assert Bodies([Body(text, false)]) == [text];
    assert Bodies([m, Body(text, false)]) == [text];
    assert Join([text]) == text;
  }

  /** Responses that are not enveloped keep their status, headers and total bytes. */
  lemma {:induction false} RawResponsesKeepEverything(codec: Codec, scope: Scope, messages: seq<Message>)
    requires WellFormed(messages) && !IsEnveloped(codec, scope, messages)
    ensures var out := Handle(codec, scope, messages);
            WellFormed(out) && out[0] == messages[0] && Payload(out) == Payload(messages)
  {
    if IsWrapped(scope) && !IsEventStream(messages[0].headers) {
      RestIsBuffered(codec, scope, messages);
      PayloadOfTwo(messages[0], Payload(messages));
    } else {
      StreamsPassThrough(codec, scope, messages);
    }
  }

  /**
   An enveloped response is one start and one body: same status, same headers but for the
   content lengths, and the bytes of the envelope.
   */
  lemma {:induction false} JsonIsEnveloped(codec: Codec, scope: Scope, messages: seq<Message>)
    requires WellFormed(messages) && IsEnveloped(codec, scope, messages)
    ensures WellFormed(Handle(codec, scope, messages))
    ensures var out := Handle(codec, scope, messages);
            var headers, kept := messages[0].headers, out[0].headers;
            var envelope := Wrap(codec, messages[0].status, codec.loads(Payload(messages)).value);
            && |out| == 2
            && out[0].status == messages[0].status
            && Payload(out) == codec.encode(codec.dumps(ToJson(envelope)))
            && |kept| == |headers|
            && forall i | 0 <= i < |headers| ::
                 && kept[i].name == headers[i].name
                 && kept[i].value == if Lower(headers[i].name) == "content-length" then IntToString(|Payload(out)|)
                                     else headers[i].value
  {
    RestIsBuffered(codec, scope, messages);
    var out := Handle(codec, scope, messages);
    PayloadOfTwo(out[0], out[1].body);
  }

  // ---- What arrives in an envelope --------------------------------------------------------------------------

  /** The response is answered by one start with its status and one body, the text of this object. */
  predicate Sends(codec: Codec, scope: Scope, messages: seq<Message>, code: int, success: bool, data: Json, message: string)
    requires WellFormed(messages)
  {
    var out := Handle(codec, scope, messages);
    && |out| == 2 && out[0].Start? && out[0].status == messages[0].status
    && out[1] == Body(codec.encode(codec.dumps(
         Obj(map["code" := Int(code), "success" := Bool(success), "data" := data, "message" := Str(message)]))), false)
  }

  /** The JSON value an enveloped response carries. */
  function Original(codec: Codec, messages: seq<Message>): Json
    requires WellFormed(messages) && codec.loads(Payload(messages)).Some?
  {
    codec.loads(Payload(messages)).value
  }

  lemma {:induction false} SendsItsEnvelope(codec: Codec, scope: Scope, messages: seq<Message>)
    requires WellFormed(messages) && IsEnveloped(codec, scope, messages)
    ensures var e := Wrap(codec, messages[0].status, Original(codec, messages));
            Sends(codec, scope, messages, e.code, e.success, e.data, e.message)
  {
    RestIsBuffered(codec, scope, messages);
    hide Wrap, IsJson, IsEventStream, IsWrapped;
  }

  /** A 2xx response that does not say itself whether it is a success arrives whole as the data of one. */
  lemma {:induction false} PlainDataArrives(codec: Codec, scope: Scope, messages: seq<Message>)
    requires WellFormed(messages) && IsEnveloped(codec, scope, messages) && 200 <= messages[0].status < 300
    requires var j := Original(codec, messages); !(j.Obj? && "success" in j.fields)
    ensures Sends(codec, scope, messages, 0, true, Original(codec, messages), "")
  {
    SendsItsEnvelope(codec, scope, messages);
    hide Sends, Handle;
  }

  /** If the text that is sent reads back, its data is exactly what the application sent. */
  lemma {:induction false} DataReadsBack(codec: Codec, scope: Scope, messages: seq<Message>)
    requires WellFormed(messages) && IsEnveloped(codec, scope, messages) && 200 <= messages[0].status < 300
    requires var j := Original(codec, messages);
             && !(j.Obj? && "success" in j.fields)
             && var sent := Obj(map["code" := Int(0), "success" := Bool(true), "data" := j, "message" := Str("")]);
                codec.loads(codec.encode(codec.dumps(sent))) == Some(sent)
    ensures var back := codec.loads(Payload(Handle(codec, scope, messages)));
            && back.Some? && back.value.Obj? && back.value.fields.Keys == {"code", "success", "data", "message"}
            && back.value.fields["data"] == codec.loads(Payload(messages)).value
            && back.value.fields["success"] == Bool(true) && back.value.fields["code"] == Int(0)
  {
    PlainDataArrives(codec, scope, messages);
    var out := Handle(codec, scope, messages);
    PayloadOfTwo(out[0], out[1].body);
    hide Handle, Payload;
    assert out == [out[0], Body(out[1].body, false)];
  }

  /** Python's falsy JSON values: these seven and no other. */
  lemma {:induction false} FalsyValues(j: Json)
    ensures Truthy(j) <==> j !in [Null, Bool(false), Int(0), Float(0.0), Str(""), Arr([]), Obj(map[])]
  {}

  /** A success that says so: its data is kept, or else its other fields are; code 0, no message. */
  lemma {:induction false} ExplicitSuccessArrives(codec: Codec, scope: Scope, messages: seq<Message>)
    requires WellFormed(messages) && IsEnveloped(codec, scope, messages) && 200 <= messages[0].status < 300
    requires var j := Original(codec, messages); j.Obj? && "success" in j.fields && Truthy(j.fields["success"])
    ensures var fields := Original(codec, messages).fields;
            && ("data" in fields && fields["data"] != Null ==> Sends(codec, scope, messages, 0, true, fields["data"], ""))
            && (("data" in fields ==> fields["data"] == Null) ==>
                  exists rest: map<string, Json> ::
                    && Sends(codec, scope, messages, 0, true, Obj(rest), "")
                    && (forall k :: k in rest <==> k in fields && k != "code" && k != "success" && k != "message")
                    && (forall k | k in rest :: rest[k] == fields[k]))
  {
    SendsItsEnvelope(codec, scope, messages);
    var fields := Original(codec, messages).fields;
    if "data" in fields ==> fields["data"] == Null {
      var rest := fields - {"code", "success", "message"};
      assert Sends(codec, scope, messages, 0, true, Obj(rest), "");
    }
    hide Sends, Handle;
  }

  /** What int() makes of a JSON number or truth value; any other code is left to the codec. */
  predicate IsCode(codec: Codec, j: Json, code: int) {
    j == Int(code) || (j == Bool(true) && code == 1) || (j == Bool(false) && code == 0)
    || (!j.Int? && !j.Bool? && codec.toInt(j) == Some(code))
  }

  predicate HasCode(codec: Codec, fields: map<string, Json>, code: int) {
    "code" in fields && fields["code"] != Null && IsCode(codec, fields["code"], code)
  }

  predicate HasText(fields: map<string, Json>, key: string, text: string) {
    key in fields && fields[key] == Str(text) && text != ""
  }

  /** A 2xx failure that says so: its code if that is a number but 0, else 1; its message, else "failed". */
  lemma {:induction false} ExplicitFailureArrives(codec: Codec, scope: Scope, messages: seq<Message>)
    requires WellFormed(messages) && IsEnveloped(codec, scope, messages) && 200 <= messages[0].status < 300
    requires var j := Original(codec, messages); j.Obj? && "success" in j.fields && !Truthy(j.fields["success"])
    ensures var fields := Original(codec, messages).fields;
            exists code, message ::
              && Sends(codec, scope, messages, code, false, Null, message)
              && (forall n | HasCode(codec, fields, n) :: code == if n != 0 then n else 1)
              && ((forall n :: !HasCode(codec, fields, n)) ==> code == 1)
              && (forall text | HasText(fields, "message", text) :: message == text)
              && ("message" !in fields || !Truthy(fields["message"]) ==> message == "failed")
  {
    SendsItsEnvelope(codec, scope, messages);
    var e := Wrap(codec, messages[0].status, Original(codec, messages));
    hide Sends, Handle;
    assert Sends(codec, scope, messages, e.code, e.success, e.data, e.message);
    assert forall n :: HasCode(codec, Original(codec, messages).fields, n) ==>
        PyInt(codec, Original(codec, messages).fields["code"]) == Some(n);
    CodeIsInt(codec, Original(codec, messages).fields);
  }

  lemma {:induction false} CodeIsInt(codec: Codec, fields: map<string, Json>)
    ensures var raw := Get(fields, "code");
            forall n :: HasCode(codec, fields, n) <==> !raw.Null? && PyInt(codec, raw) == Some(n)
  {}

  /** The detail of an error response: the value of its field of that name, or the whole body. */
  predicate IsDetail(original: Json, detail: Json) {
    if original.Obj? && "detail" in original.fields then detail == original.fields["detail"] else detail == original
  }

  /**
   Every response outside 2xx is a failure without data; its code is that of the detail, or the
   status, or 1, whichever is the first that is there and not 0; its message is the detail's text.
   */
  lemma {:induction false} ErrorsArrive(codec: Codec, scope: Scope, messages: seq<Message>, detail: Json)
    requires WellFormed(messages) && IsEnveloped(codec, scope, messages) && !(200 <= messages[0].status < 300)
    requires IsDetail(Original(codec, messages), detail)
    ensures var otherwise := if messages[0].status != 0 then messages[0].status else 1;
            exists code, message ::
              && Sends(codec, scope, messages, code, false, Null, message)
              && (detail.Obj? ==> forall n | HasCode(codec, detail.fields, n) :: code == if n != 0 then n else otherwise)
              && (!detail.Obj? || (forall n :: !HasCode(codec, detail.fields, n)) ==> code == otherwise)
              && IsMessageOf(codec, detail, message)
  {
    SendsItsEnvelope(codec, scope, messages);
    var e := Wrap(codec, messages[0].status, Original(codec, messages));
    hide Sends, Handle;
    assert Sends(codec, scope, messages, e.code, e.success, e.data, e.message);
    if detail.Obj? {
      CodeIsInt(codec, detail.fields);
    }
  }

  /** A text is its own message; an object has its message, else its own detail, else its JSON text. */
  predicate IsMessageOf(codec: Codec, detail: Json, message: string) {
    if detail.Str? then message == detail.s
    else if !detail.Obj? then message == codec.dumps(detail)
    else
      var fields := detail.fields;
      var said, detailed := "message" in fields && Truthy(fields["message"]), "detail" in fields && Truthy(fields["detail"]);
      && (said && fields["message"].Str? ==> HasText(fields, "message", message))
      && (said && !fields["message"].Str? ==> message == codec.toText(fields["message"]))
      && (!said && detailed && fields["detail"].Str? ==> HasText(fields, "detail", message))
      && (!said && detailed && !fields["detail"].Str? ==> message == codec.toText(fields["detail"]))
      && (!said && !detailed ==> message == codec.dumps(detail))
  }

  /** How an application cuts a response into chunks does not show, unless it is a stream. */
  lemma {:induction false} ChunksDoNotMatter(codec: Codec, scope: Scope, a: seq<Message>, b: seq<Message>)
    requires WellFormed(a) && WellFormed(b) && a[0] == b[0] && Payload(a) == Payload(b)
    requires IsWrapped(scope) && !IsEventStream(a[0].headers)
    ensures Handle(codec, scope, a) == Handle(codec, scope, b)
  {
    RestIsBuffered(codec, scope, a);
    RestIsBuffered(codec, scope, b);
  }

  // ---- Content length -----------------------------------------------------------------------------------------

  /** Section 8.6 of RFC 9110: a decimal number of octets. */
  predicate Announces(value: string, length: nat) {
    value != "" && AllDigits(value) && ValueOf(value, 10) == length
  }

  /** Every content-length header announces the length of the body that follows. */
  predicate IsHonest(messages: seq<Message>)
    requires WellFormed(messages)
  {
    forall h | h in messages[0].headers && IsContentLength(h) :: Announces(h.value, |Payload(messages)|)
  }

  /** Enveloping makes the content lengths right, and nothing makes or unmakes them otherwise. */
  lemma {:induction false} HonestIff(codec: Codec, scope: Scope, messages: seq<Message>)
    requires WellFormed(messages)
    ensures var out := Handle(codec, scope, messages);
            WellFormed(out) && (IsHonest(out) <==> IsEnveloped(codec, scope, messages) || IsHonest(messages))
  {
    if IsEnveloped(codec, scope, messages) {
      JsonIsEnveloped(codec, scope, messages);
      var out := Handle(codec, scope, messages);
      forall h | h in out[0].headers && IsContentLength(h) ensures Announces(h.value, |Payload(out)|) {
        DecimalDigits(|Payload(out)|);
      }
    } else {
      RawResponsesKeepEverything(codec, scope, messages);
    }
  }

  // ---- Two wrappers in a row ------------------------------------------------------------------------------------

  /** Reading the text of an envelope gives the envelope back. */
  predicate ReadsBack(codec: Codec, e: Envelope) {
    codec.loads(codec.encode(codec.dumps(ToJson(e)))) == Some(ToJson(e))
  }

  /** The envelope of an enveloped response. */
  function EnvelopeOf(codec: Codec, messages: seq<Message>): Envelope
    requires WellFormed(messages) && codec.loads(Payload(messages)).Some?
  {
    Wrap(codec, messages[0].status, codec.loads(Payload(messages)).value)
  }

  lemma {:induction false} RelabellingKeepsTypes(headers: seq<Header>, length: nat)
    ensures ContentType(Relabelled(headers, length)) == ContentType(headers)
    ensures IsEventStream(Relabelled(headers, length)) == IsEventStream(headers)
    decreases headers
  {
    var labelled := Relabelled(headers, length);
    if headers == [] {
    } else {
      RelabellingKeepsTypes(headers[1..], length);
      assert labelled[1..] == Relabelled(headers[1..], length);
      assert IsContentType(Relabel(headers[0], length)) == IsContentType(headers[0]);
    }
    assert forall i | 0 <= i < |headers| :: NamesEventStream(labelled[i]) == NamesEventStream(headers[i]);
    if IsEventStream(headers) {
      var i :| 0 <= i < |headers| && NamesEventStream(headers[i]);
      assert NamesEventStream(labelled[i]);
    }
  }

  /** The response of a second wrapper: the first one's, with the envelope wrapped again. */
  lemma {:induction false} SecondWrapper(codec: Codec, scope: Scope, messages: seq<Message>)
    requires WellFormed(messages) && IsEnveloped(codec, scope, messages)
    requires ReadsBack(codec, EnvelopeOf(codec, messages))
    ensures var status := messages[0].status;
            var once := Handle(codec, scope, messages);
            && WellFormed(once) && IsEnveloped(codec, scope, once)
            && once[0].status == status
            && codec.loads(Payload(once)) == Some(ToJson(EnvelopeOf(codec, messages)))
            && once == Reply(codec, status, messages[0].headers, Payload(messages))
  {
    JsonIsEnveloped(codec, scope, messages);
    RestIsBuffered(codec, scope, messages);
    var once := Handle(codec, scope, messages);
    RelabellingKeepsTypes(messages[0].headers, |once[1].body|);
  }

  lemma {:induction false} EnvelopesDiffer(e: Envelope, f: Envelope)
    requires ToJson(e) == ToJson(f)
    ensures e == f
  {
    var a, b := ToJson(e).fields, ToJson(f).fields;
    assert a["code"] == b["code"] && a["success"] == b["success"];
    assert a["data"] == b["data"] && a["message"] == b["message"];
  }

  lemma {:induction false} RelabelTwice(headers: seq<Header>, m: nat, n: nat)
    ensures Relabelled(Relabelled(headers, m), n) == Relabelled(headers, n)
  {}

  /**
   Wrapping a successful response twice sends what wrapping it once sends, unless the envelope
   is one of the two lossy kinds -- provided the two envelopes themselves can be read back.
   */
  lemma {:induction false} DoubleWrappingIff(codec: Codec, scope: Scope, messages: seq<Message>)
    requires WellFormed(messages) && IsEnveloped(codec, scope, messages)
    requires 200 <= messages[0].status < 300
    requires var e := EnvelopeOf(codec, messages);
             ReadsBack(codec, e) && ReadsBack(codec, Wrap(codec, messages[0].status, ToJson(e)))
    ensures var e := EnvelopeOf(codec, messages);
            var once := Handle(codec, scope, messages);
            Handle(codec, scope, once) == once
            <==> !(e.success && e.data == Null) && !(!e.success && e.message == "")
  {
    var status, headers := messages[0].status, messages[0].headers;
    var once := Handle(codec, scope, messages);
    var e := EnvelopeOf(codec, messages);
    SecondWrapper(codec, scope, messages);
    RestIsBuffered(codec, scope, once);
    EnvelopesAreRegular(codec, status, codec.loads(Payload(messages)).value);
    RewrapIsIdentityIff(codec, status, e);
    var f := Wrap(codec, status, ToJson(e));
    hide Wrap, IsRegular, Contains;
    var twice := Handle(codec, scope, once);
    RelabelTwice(headers, |once[1].body|, |twice[1].body|);
    if twice == once {
      assert codec.loads(twice[1].body) == Some(ToJson(f));
      EnvelopesDiffer(e, f);
    }
  }

  const NULL_ENVELOPE := Envelope(0, true, Null, "")
  const NULL_REWRAPPED := Envelope(0, true, Obj(map["data" := Null]), "")

  /** A codec for the body `null` and its two envelopes. */
  const NULL_CODEC := Codec(
    (s: string) => if s == "null" then Some(Null)
                   else if s == "once" then Some(ToJson(NULL_ENVELOPE))
                   else if s == "twice" then Some(ToJson(NULL_REWRAPPED)) else None,
    (j: Json) => if j == Null then "null" else if j == ToJson(NULL_ENVELOPE) then "once" else "twice",
    (s: string) => s, (j: Json) => None, (j: Json) => "")

  lemma {:induction false} NullCodecReads()
    ensures NULL_CODEC.loads("null") == Some(Null)
    ensures ReadsBack(NULL_CODEC, NULL_ENVELOPE) && ReadsBack(NULL_CODEC, NULL_REWRAPPED)
  {
    assert ToJson(NULL_ENVELOPE).fields["data"] != ToJson(NULL_REWRAPPED).fields["data"];
  }

  /** With any codec that reads it, the response `null` does not come out of two wrappers as from one. */
  lemma {:induction false} NullResponseDiffers(codec: Codec, scope: Scope, headers: seq<Header>)
    requires IsWrapped(scope) && IsJson(headers) && !IsEventStream(headers)
    requires codec.loads("null") == Some(Null)
    requires ReadsBack(codec, NULL_ENVELOPE) && ReadsBack(codec, NULL_REWRAPPED)
    ensures var once := Handle(codec, scope, [Start(200, headers), Body("null", false)]);
            Handle(codec, scope, once) != once
  {
    var messages := [Start(200, headers), Body("null", false)];
    PayloadOfTwo(messages[0], "null");
    LossyRewraps(codec);
    assert EnvelopeOf(codec, messages) == NULL_ENVELOPE;
    hide ReadsBack, Wrap, Handle, IsJson, IsEventStream, IsWrapped;
    DoubleWrappingIff(codec, scope, messages);
  }

  lemma {:induction false} NullResponseDiffersTwice()
    ensures var scope := Scope("http", "/api/stocks");
            var headers := [Header("content-type", "application/json")];
            var once := Handle(NULL_CODEC, scope, [Start(200, headers), Body("null", false)]);
            Handle(NULL_CODEC, scope, once) != once
  {
    var headers := [Header("content-type", "application/json")];
    assert Lower("content-type") == "content-type";
    assert OccursAt("application/json", ContentType(headers), 0);
    NullCodecReads();
    hide ReadsBack, Handle;
    NullResponseDiffers(NULL_CODEC, Scope("http", "/api/stocks"), headers);
  }

  // ---- The middleware's own variables ----------------------------------------------------------------------------

  /** One call of the middleware. */
  class ResponseWrapperCall {
    const codec: Codec
    var statusCode: int
    var responseHeaders: seq<Header>
    var bodyParts: seq<string>
    var passthrough: bool
    var sent: seq<Message>

    function Abs(): Capture
      reads this
    {
      Capture(statusCode, responseHeaders, bodyParts, passthrough, sent)
    }

    constructor (codec: Codec)
      ensures Abs() == FRESH && this.codec == codec
    {
      this.codec := codec;
      statusCode, responseHeaders, bodyParts, passthrough, sent := 200, [], [], false, [];
    }

    method CaptureSend(message: Message)
      modifies this
      ensures Abs() == Step(old(Abs()), message)
    {
      if message.Start? {
        statusCode := message.status;
        responseHeaders := message.headers;
        var i := 0;
        while i < |message.headers|
          invariant 0 <= i <= |message.headers|
          invariant forall k | 0 <= k < i :: !NamesEventStream(message.headers[k])
          invariant Abs() == old(Abs()).(status := message.status, headers := message.headers)
        {
          if NamesEventStream(message.headers[i]) {
            passthrough := true;
            break;
          }
          i := i + 1;
        }
        if passthrough {
          sent := sent + [message];
        }
      } else if message.Body? {
        if passthrough {
          sent := sent + [message];
        } else {
          bodyParts := bodyParts + [message.body];
        }
      }
    }

    method SendAll(status: int, headers: seq<Header>, body: string)
      modifies this`sent
      ensures sent == old(sent) + [Start(status, headers), Body(body, false)]
    {
      sent := sent + [Start(status, headers)];
      sent := sent + [Body(body, false)];
    }

    static method FindContentType(headers: seq<Header>) returns (contentType: string)
      ensures contentType == ContentType(headers)
    {
      contentType := "";
      for i := 0 to |headers|
        invariant contentType == "" && ContentType(headers) == ContentType(headers[i..])
      {
        assert headers[i..][1..] == headers[i + 1..];
        if IsContentType(headers[i]) {
          contentType := headers[i].value;
          break;
        }
      }
    }

    static method RewriteHeaders(headers: seq<Header>, length: nat) returns (newHeaders: seq<Header>)
      ensures newHeaders == Relabelled(headers, length)
    {
      newHeaders := [];
      for i := 0 to |headers|
        invariant newHeaders == Relabelled(headers, length)[..i]
      {
        if IsContentLength(headers[i]) {
          newHeaders := newHeaders + [Header(headers[i].name, IntToString(length))];
        } else {
          newHeaders := newHeaders + [headers[i]];
        }
      }
    }

    /** What follows once the application has returned. */
    method FinishCall()
      modifies this`sent
      ensures sent == Finish(codec, old(Abs()))
    {
      if passthrough {
        return;
      }
      hide Wrap, Contains, ContentType, Relabelled;
      var contentType := FindContentType(responseHeaders);
      var body := Join(bodyParts);
      var parsed := codec.loads(body);
      if !Contains(contentType, "application/json") || parsed.None? {
        SendAll(statusCode, responseHeaders, body);
        return;
      }
      var newBody := codec.encode(codec.dumps(ToJson(Wrap(codec, statusCode, parsed.value))));
      var newHeaders := RewriteHeaders(responseHeaders, |newBody|);
      SendAll(statusCode, newHeaders, newBody);
    }

    /** The whole call, for an application that sends `messages`. */
    method Call(scope: Scope, messages: seq<Message>)
      requires Abs() == FRESH
      modifies this
      ensures sent == Handle(codec, scope, messages)
    {
      if !IsWrapped(scope) {
        sent := messages;
        return;
      }
      assert messages[0..] == messages;
      for i := 0 to |messages|
        invariant Steps(Abs(), messages[i..]) == Steps(FRESH, messages)
      {
        assert messages[i..][1..] == messages[i + 1..];
        CaptureSend(messages[i]);
      }
      assert messages[|messages|..] == [];
      assert Abs() == Steps(FRESH, messages);
      FinishCall();
    }
  }
}
