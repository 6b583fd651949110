/**
 * The forwarder (`sendRequest`): it builds the outbound headers from the
 * payload, hands the request to the HTTP client once, and wraps whatever comes
 * back, a response or a rejection, in a "success" or "failed" envelope that
 * reports the status and the size of the body.
 *
 * The HTTP client is a `Transport` object whose answers come from an oracle;
 * the time measurement is not modelled.
 */
module Forwarder {
  import opened Base
  import opened JsStrings
  import opened Json
  import opened UrlValidation
  import opened HttpMethod
  import opened PayloadValidation

  // ---------------------------------------------------------------------------
  // getSizeInBytes

  /** `getSizeInBytes`: nothing for a falsy value, the UTF-8 length of a
      string, and the UTF-8 length of the JSON text of anything else. */
  function SizeInBytes(data: JsValue): (n: nat)
    ensures n == 0 <==> !Truthy(data)
    ensures data.Str? ==> n == Utf8Length(data.s)
    ensures Truthy(data) && !data.Str? ==> n == Utf8Length(Stringify(data).value)
  {
    if !Truthy(data) then 0
    else
      var jsonString := if data.Str? then data.s else Stringify(data).value;
      Utf8Length(jsonString)
  }

  /** `{"ok":true}` is eleven bytes. */
  lemma SizeOfSmallObject(v: JsValue)
    requires v == Obj([("ok", Bool(true))])
    ensures SizeInBytes(v) == 11
  {
    StringifyOneMember(v, "ok", Bool(true), "true");
    var key := "ok";
    assert Escape(key) == key;
    var text := "{" + ("\"" + key + "\"") + ":" + "true" + "}";
    assert Stringify(v).value == text;
    Utf8LengthOfAscii(text);
  }

  /** An object of one member is written as that member's text in braces. */
  lemma StringifyOneMember(v: JsValue, key: string, value: JsValue, text: string)
    requires v == Obj([(key, value)]) && Stringify(value) == Some(text)
    ensures Stringify(v) == Some("{" + (Quote(key) + ":" + text) + "}")
  {
    assert MemberTexts(v, 1) == [];
    var member := Quote(key) + ":" + text;
    assert MemberTexts(v, 0) == [member];
    assert Join([member], ",") == member;
  }

  /** A string is measured in UTF-8: "é" takes two bytes, not one. */
  lemma SizeOfAccentedString()
    ensures SizeInBytes(Str("é")) == 2
  {
  }

  // ---------------------------------------------------------------------------
  // Text conversion and Object.entries for the cookie map

  /** `String(v)`, as a template literal writes `v`. */
  function ToText(v: JsValue): (text: string)
    ensures v.Str? ==> text == v.s
    ensures v.Num? ==> ParseInt(text) == Some(v.n)
    decreases v, 1, 0
  {
    match v
    case Undefined => "undefined"
    case Null => "null"
    case Bool(b) => if b then "true" else "false"
    case Num(n) => ParseIntRoundTrip(n); IntToString(n)
    case Str(s) => s
    case Arr(_) => Join(ElementTexts(v, 0), ",")
    case Obj(_) => "[object Object]"
  }

  /** The texts `Array.prototype.join` writes for the elements from index `i`
      on; `null` and `undefined` are written as nothing. */
  function ElementTexts(v: JsValue, i: nat): seq<string>
    requires v.Arr? && i <= |v.items|
    decreases v, 0, |v.items| - i
  {
    if i == |v.items| then []
    else
      var text := if v.items[i].Undefined? || v.items[i].Null? then "" else ToText(v.items[i]);
      [text] + ElementTexts(v, i + 1)
  }

  /** `Object.entries(cookies)` with each value as text: an object's own
      members, an array's or a string's indices, and nothing for other values. */
  function CookieEntries(cookies: JsValue): (entries: seq<(string, string)>)
    ensures cookies.Obj? ==> |entries| == |cookies.members|
    ensures cookies.Obj? ==> forall i :: 0 <= i < |entries| ==> entries[i].0 == cookies.members[i].0
    ensures cookies.Obj? ==>
              forall i :: 0 <= i < |entries| && cookies.members[i].1.Str? ==> entries[i].1 == cookies.members[i].1.s
    ensures cookies.Arr? ==> |entries| == |cookies.items|
    ensures cookies.Str? ==> |entries| == |cookies.s|
    ensures !cookies.Obj? && !cookies.Arr? && !cookies.Str? ==> entries == []
  {
    match cookies
    case Obj(members) => seq(|members|, i requires 0 <= i < |members| => (members[i].0, ToText(members[i].1)))
    case Arr(items) => seq(|items|, i requires 0 <= i < |items| => (NatToString(i), ToText(items[i])))
    case Str(s) => seq(|s|, i requires 0 <= i < |s| => (NatToString(i), [s[i]]))
    case _ => []
  }

  // ---------------------------------------------------------------------------
  // The Cookie header

  /** The entries rendered `k=v` and joined by "; ", in entry order. */
  function CookieHeader(entries: seq<(string, string)>): (header: string)
    ensures entries == [] <==> header == ""
  {
    Join(seq(|entries|, i requires 0 <= i < |entries| => entries[i].0 + "=" + entries[i].1), "; ")
  }

  /** The position of the first `c` in `s`, or `|s|`. */
  function IndexOf(s: string, c: char): (k: nat)
    ensures k <= |s|
    ensures forall i :: 0 <= i < k ==> s[i] != c
    ensures k < |s| ==> s[k] == c
  {
    if s == [] then 0 else if s[0] == c then 0 else 1 + IndexOf(s[1..], c)
  }

  /** One `name=value` pair, split at its first "=". */
  function ParseCookiePair(piece: string): (string, string) {
    var j := IndexOf(piece, '=');
    (piece[..j], if j < |piece| then piece[j + 1..] else "")
  }

  /** A non-empty list of pairs separated by ";" and an optional space. */
  function ParseCookieList(h: string): seq<(string, string)>
    decreases |h|
  {
    var i := IndexOf(h, ';');
    var pair := ParseCookiePair(h[..i]);
    if i == |h| then [pair]
    else if i + 1 < |h| && h[i + 1] == ' ' then [pair] + ParseCookieList(h[i + 2..])
    else [pair] + ParseCookieList(h[i + 1..])
  }

  /** How a server reads a `Cookie` header (`cookie-pair *( ";" SP cookie-pair )`,
      section 4.2.1 of RFC 6265). */
  function ParseCookieHeader(h: string): seq<(string, string)> {
    if h == [] then [] else ParseCookieList(h)
  }

  /** A cookie name and value the header can carry unambiguously: no "=" or
      ";" in the name, no ";" in the value. */
  predicate PlainCookie(entry: (string, string)) {
    '=' !in entry.0 && ';' !in entry.0 && ';' !in entry.1
  }

  lemma PairParses(name: string, value: string)
    requires '=' !in name
    ensures ParseCookiePair(name + "=" + value) == (name, value)
  {
    var piece := name + "=" + value;
    assert piece[|name|] == '=';
    assert IndexOf(piece, '=') == |name|;
    assert piece[..|name|] == name;
    assert piece[|name| + 1..] == value;
  }

  /** The Cookie header reads back as the entries it was built from. */
  lemma {:induction false} CookieHeaderRoundTrip(entries: seq<(string, string)>)
    requires forall i :: 0 <= i < |entries| ==> PlainCookie(entries[i])
    ensures ParseCookieHeader(CookieHeader(entries)) == entries
  {
    if entries != [] {
      var first := entries[0].0 + "=" + entries[0].1;
      assert PlainCookie(entries[0]);
      PairParses(entries[0].0, entries[0].1);
      if |entries| == 1 {
        assert CookieHeader(entries) == first;
        LastPairParses(first);
      } else {
        var rest := entries[1..];
        ConsOfTail(entries);
        assert forall i :: 0 <= i < |rest| ==> PlainCookie(rest[i]) by {
          forall i | 0 <= i < |rest| ensures PlainCookie(rest[i]) {
            assert rest[i] == entries[i + 1];
          }
        }
        CookieHeaderCons(entries);
        CookieHeaderRoundTrip(rest);
        PairThenList(first, CookieHeader(rest));
      }
    }
  }

  lemma ConsOfTail(entries: seq<(string, string)>)
    requires entries != []
    ensures [entries[0]] + entries[1..] == entries
  {
  }

  /** A header of two or more entries is the first pair, "; " and the header
      of the rest. */
  lemma CookieHeaderCons(entries: seq<(string, string)>)
    requires |entries| >= 2
    ensures CookieHeader(entries) == entries[0].0 + "=" + entries[0].1 + "; " + CookieHeader(entries[1..])
  {
    var pairs := seq(|entries|, i requires 0 <= i < |entries| => entries[i].0 + "=" + entries[i].1);
    var rest := entries[1..];
    assert pairs[1..] == seq(|rest|, i requires 0 <= i < |rest| => rest[i].0 + "=" + rest[i].1);
  }

  /** A piece without ";" is read as the last pair. */
  lemma LastPairParses(piece: string)
    requires ';' !in piece
    ensures ParseCookieList(piece) == [ParseCookiePair(piece)]
  {
    assert IndexOf(piece, ';') == |piece|;
    assert piece[..|piece|] == piece;
  }

  /** A pair without ";" followed by "; " is read as that pair and then the
      list after the space. */
  lemma PairThenList(piece: string, tail: string)
    requires ';' !in piece && tail != []
    ensures ParseCookieHeader(piece + "; " + tail) == [ParseCookiePair(piece)] + ParseCookieHeader(tail)
  {
    var h := piece + "; " + tail;
    assert h[|piece|] == ';';
    assert IndexOf(h, ';') == |piece|;
    assert h[..|piece|] == piece;
    assert h[|piece| + 1] == ' ';
    assert h[|piece| + 2..] == tail;
  }

  /** A cookie object of plain string values reads back as its members. */
  lemma CookieObjectRoundTrip(members: seq<(string, JsValue)>)
    requires forall i :: 0 <= i < |members| ==> members[i].1.Str?
    requires forall i :: 0 <= i < |members| ==> PlainCookie((members[i].0, members[i].1.s))
    ensures ParseCookieHeader(CookieHeader(CookieEntries(Obj(members))))
            == seq(|members|, i requires 0 <= i < |members| => (members[i].0, members[i].1.s))
  {
    var entries := CookieEntries(Obj(members));
    assert forall i :: 0 <= i < |entries| ==> entries[i] == (members[i].0, members[i].1.s);
    CookieHeaderRoundTrip(entries);
  }

  // ---------------------------------------------------------------------------
  // The outbound headers

  /** The headers the forwarder sets: Authorization when `authorization` is
      truthy, copied as it is; Cookie when `cookies` is truthy; nothing else. */
  function OutboundHeaders(authorization: JsValue, cookies: JsValue): (headers: seq<(string, JsValue)>)
    ensures |headers| <= 2
    ensures forall i :: 0 <= i < |headers| ==> headers[i].0 == "Authorization" || headers[i].0 == "Cookie"
    ensures Lookup(headers, "Authorization") == if Truthy(authorization) then authorization else Undefined
    ensures Lookup(headers, "Cookie") == if Truthy(cookies) then Str(CookieHeader(CookieEntries(cookies))) else Undefined
  {
    (if Truthy(authorization) then [("Authorization", authorization)] else [])
    + (if Truthy(cookies) then [("Cookie", Str(CookieHeader(CookieEntries(cookies))))] else [])
  }

  /** The header record as the forwarder fills it in, one assignment at a time. */
  method BuildHeaders(authorization: JsValue, cookies: JsValue) returns (headers: seq<(string, JsValue)>)
    ensures headers == OutboundHeaders(authorization, cookies)
  {
    headers := [];
    if Truthy(authorization) {
      headers := headers + [("Authorization", authorization)];
    }
    if Truthy(cookies) {
      headers := headers + [("Cookie", Str(CookieHeader(CookieEntries(cookies))))];
    }
  }

  // ---------------------------------------------------------------------------
  // Transport and envelope

  /** What the HTTP client is asked to send. */
  datatype OutboundRequest = OutboundRequest(url: JsValue, verb: JsValue, data: JsValue, headers: seq<(string, JsValue)>)

  /** The response a rejection may carry. */
  datatype CarriedResponse = CarriedResponse(status: int, headers: JsValue, data: JsValue)

  /** How the HTTP client's promise settles: a response, or a rejection with
      an error message and possibly a response. */
  datatype Outcome =
    | Delivered(status: int, headers: JsValue, data: JsValue)
    | Rejected(response: Option<CarriedResponse>, message: string)

  datatype EnvelopeMeta = EnvelopeMeta(httpStatus: int, sizeBytes: nat)
  datatype EchoedRequest = EchoedRequest(url: JsValue, verb: JsValue, body: Option<JsValue>)
  datatype ResponsePart = ResponsePart(headers: JsValue, body: JsValue)

  /** The object `sendRequest` resolves to (less `timeMilliSeconds`). */
  datatype Envelope = Envelope(status: string, meta: EnvelopeMeta, request: EchoedRequest, response: ResponsePart)

  /** The request the payload turns into. */
  function RequestFor(payload: JsValue): (request: OutboundRequest)
    ensures request.url == Property(payload, "requestUrl") && request.verb == Property(payload, "httpMethod")
    ensures request.data == Property(payload, "body")
    ensures request.headers == OutboundHeaders(Property(payload, "authorization"), Property(payload, "cookies"))
  {
    OutboundRequest(Property(payload, "requestUrl"), Property(payload, "httpMethod"), Property(payload, "body"),
                    OutboundHeaders(Property(payload, "authorization"), Property(payload, "cookies")))
  }

  /** `error.response?.data || { message: error.message }`: the carried body
      when it is truthy, otherwise an object holding the error message; either
      way a truthy value. */
  function ErrorData(response: Option<CarriedResponse>, message: string): (data: JsValue)
    ensures Truthy(data)
    ensures response.Some? && Truthy(response.value.data) ==> data == response.value.data
    ensures !(response.Some? && Truthy(response.value.data)) ==>
              data.Obj? && |data.members| == 1 && Property(data, "message") == Str(message)
  {
    if response.Some? && Truthy(response.value.data) then response.value.data
    else Obj([("message", Str(message))])
  }

  /** The envelope for a settled call. */
  function EnvelopeFor(url: JsValue, verb: JsValue, body: JsValue, outcome: Outcome): (e: Envelope)
    ensures e.status == "success" <==> outcome.Delivered?
    ensures e.status == "failed" <==> outcome.Rejected?
    ensures e.request.url == url && e.request.verb == verb
    ensures e.meta.sizeBytes == SizeInBytes(e.response.body)
    ensures outcome.Delivered? ==>
              && e.meta.httpStatus == outcome.status
              && e.response == ResponsePart(outcome.headers, outcome.data)
              && e.request.body == Some(if Truthy(body) then body else EmptyObject)
    ensures outcome.Rejected? ==>
              && e.request.body.None?
              && e.meta.httpStatus != 0
              && Truthy(e.response.body) && e.meta.sizeBytes > 0
              && Truthy(e.response.headers)
    ensures outcome.Rejected? && outcome.response.None? ==>
              && e.meta.httpStatus == 500
              && e.response == ResponsePart(EmptyObject, Obj([("message", Str(outcome.message))]))
    ensures outcome.Rejected? ==> e.response.body == ErrorData(outcome.response, outcome.message)
    ensures outcome.Rejected? && outcome.response.Some? ==>
              var carried := outcome.response.value;
              && e.meta.httpStatus == (if carried.status != 0 then carried.status else 500)
              && e.response.headers == (if Truthy(carried.headers) then carried.headers else EmptyObject)
              && (Truthy(carried.data) ==> e.response.body == carried.data)
              && (!Truthy(carried.data) ==> e.response.body == Obj([("message", Str(outcome.message))]))
  {
    match outcome
    case Delivered(status, headers, data) =>
      Envelope("success", EnvelopeMeta(status, SizeInBytes(data)),
               EchoedRequest(url, verb, Some(if Truthy(body) then body else EmptyObject)),
               ResponsePart(headers, data))
    case Rejected(response, message) =>
      var errorData := ErrorData(response, message);
      var httpStatus := if response.Some? && response.value.status != 0 then response.value.status else 500;
      var headers := if response.Some? && Truthy(response.value.headers) then response.value.headers else EmptyObject;
      Envelope("failed", EnvelopeMeta(httpStatus, SizeInBytes(errorData)),
               EchoedRequest(url, verb, None),
               ResponsePart(headers, errorData))
  }

  /** The HTTP client. The answer to the `n`-th call is `respond(n, request)`;
      `sent` records every request handed over, in order. */
  class Transport {
    const respond: (nat, OutboundRequest) -> Outcome
    var sent: seq<OutboundRequest>

    constructor (respond: (nat, OutboundRequest) -> Outcome)
      ensures this.respond == respond && sent == []
    {
      this.respond := respond;
      sent := [];
    }

    /** Sends one request and waits for it to settle. */
    method Send(request: OutboundRequest) returns (outcome: Outcome)
      modifies this
      ensures sent == old(sent) + [request]
      ensures outcome == respond(|old(sent)|, request)
    {
      outcome := respond(|sent|, request);
      sent := sent + [request];
    }
  }

  /** `sendRequest`: the client is called exactly once, with the payload's
      URL, method and body and the built headers, and every way the call can
      settle becomes an envelope. */
  method SendRequest(payload: JsValue, transport: Transport) returns (e: Envelope)
    modifies transport
    ensures transport.sent == old(transport.sent) + [RequestFor(payload)]
    ensures e == EnvelopeFor(Property(payload, "requestUrl"), Property(payload, "httpMethod"),
                             Property(payload, "body"), transport.respond(|old(transport.sent)|, RequestFor(payload)))
  {
    var requestUrl := Property(payload, "requestUrl");
    var httpMethod := Property(payload, "httpMethod");
    var body := Property(payload, "body");
    var headers := BuildHeaders(Property(payload, "authorization"), Property(payload, "cookies"));
    var outcome := transport.Send(OutboundRequest(requestUrl, httpMethod, body, headers));
    e := EnvelopeFor(requestUrl, httpMethod, body, outcome);
  }

  /** A payload that passed validation is forwarded with a string URL, as
      written and not normalised, and a string method whose trimmed,
      upper-cased text is one of the five allowed methods. */
  lemma ValidatedPayloadIsForwardedAsWritten(payload: JsValue, allowLocalhost: bool, lib: UrlLib)
    requires PayloadVerdict(payload, allowLocalhost, lib).valid
    ensures RequestFor(payload).url.Str?
    ensures UrlAcceptable(RequestFor(payload).url, allowLocalhost, lib)
    ensures RequestFor(payload).verb.Str?
    ensures ToUpperCase(Trim(RequestFor(payload).verb.s)) in AllowedMethods
  {
  }
}
