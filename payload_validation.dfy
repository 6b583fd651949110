/**
 * `validateSendRequest`: the request body of the send-request endpoint must
 * be an object, its `requestUrl` must pass the URL validator and its
 * `httpMethod` the method validator, in that order. `body`, `cookies` and
 * `authorization` are taken as they are.
 */
module PayloadValidation {
  import opened Json
  import opened Verdicts
  import opened UrlValidation
  import opened HttpMethod

  const NotAnObject: string := "Request body must be an object"
  const PayloadOk: string := "Payload is valid"

  /** `!data || typeof data !== 'object'` fails: what is left is a non-null
      object or an array. */
  predicate IsObjectLike(data: JsValue) {
    Truthy(data) && TypeOf(data) == "object"
  }

  /** The result of `validateSendRequest`, with `allowLocalhost` the value the
      URL validator takes by default. */
  function PayloadVerdict(data: JsValue, allowLocalhost: bool, lib: UrlLib): (r: ValidationResult)
    ensures WellFormed(r)
    ensures !IsObjectLike(data) ==> r == Fail(NotAnObject)
    ensures r.valid <==> && IsObjectLike(data)
                         && UrlAcceptable(Property(data, "requestUrl"), allowLocalhost, lib)
                         && MethodAcceptable(Property(data, "httpMethod"))
    ensures r.valid ==> r == Pass(PayloadOk)
  {
    if !Truthy(data) || TypeOf(data) != "object" then Fail(NotAnObject)
    else
      var requestUrlValidation := UrlVerdict(Property(data, "requestUrl"), allowLocalhost, lib);
      if !requestUrlValidation.valid then requestUrlValidation
      else
        var httpMethodValidation := ValidateHttpMethod(Property(data, "httpMethod"));
        if !httpMethodValidation.valid then httpMethodValidation
        else Pass(PayloadOk)
  }

  /** `validateSendRequest`, calling the URL validator that loops over its
      patterns. */
  method ValidateSendRequest(data: JsValue, allowLocalhost: bool, lib: UrlLib) returns (r: ValidationResult)
    ensures r == PayloadVerdict(data, allowLocalhost, lib)
  {
    if !Truthy(data) || TypeOf(data) != "object" {
      return Fail(NotAnObject);
    }
    var requestUrlValidation := ValidateRequestUrl(Property(data, "requestUrl"), allowLocalhost, lib);
    if !requestUrlValidation.valid {
      return requestUrlValidation;
    }
    var httpMethodValidation := ValidateHttpMethod(Property(data, "httpMethod"));
    if !httpMethodValidation.valid {
      return httpMethodValidation;
    }
    return Pass(PayloadOk);
  }

  /** The URL is judged first: a rejected URL's result is returned unchanged,
      whatever the method. */
  lemma UrlCheckedFirst(data: JsValue, allowLocalhost: bool, lib: UrlLib)
    requires IsObjectLike(data) && !UrlAcceptable(Property(data, "requestUrl"), allowLocalhost, lib)
    ensures PayloadVerdict(data, allowLocalhost, lib) == UrlVerdict(Property(data, "requestUrl"), allowLocalhost, lib)
    ensures !PayloadVerdict(data, allowLocalhost, lib).valid
  {
  }

  /** The method's result is returned unchanged exactly when the URL passes
      and the method does not. */
  lemma MethodResultOnlyAfterUrl(data: JsValue, allowLocalhost: bool, lib: UrlLib)
    requires IsObjectLike(data) && UrlAcceptable(Property(data, "requestUrl"), allowLocalhost, lib)
    requires !MethodAcceptable(Property(data, "httpMethod"))
    ensures PayloadVerdict(data, allowLocalhost, lib) == ValidateHttpMethod(Property(data, "httpMethod"))
  {
  }

  /** Only `requestUrl` and `httpMethod` are read: two objects that agree on
      them get the same verdict, whatever else they carry. */
  lemma OtherFieldsIgnored(a: JsValue, b: JsValue, allowLocalhost: bool, lib: UrlLib)
    requires IsObjectLike(a) && IsObjectLike(b)
    requires Property(a, "requestUrl") == Property(b, "requestUrl")
    requires Property(a, "httpMethod") == Property(b, "httpMethod")
    ensures PayloadVerdict(a, allowLocalhost, lib) == PayloadVerdict(b, allowLocalhost, lib)
  {
  }

  /** Adding `body`, `cookies` or `authorization` members in front of the
      others changes nothing. */
  lemma ExtraMembersIgnored(extra: seq<(string, JsValue)>, members: seq<(string, JsValue)>,
                            allowLocalhost: bool, lib: UrlLib)
    requires forall i :: 0 <= i < |extra| ==> extra[i].0 in {"body", "cookies", "authorization"}
    ensures PayloadVerdict(Obj(extra + members), allowLocalhost, lib) == PayloadVerdict(Obj(members), allowLocalhost, lib)
  {
    LookupSkips(extra, members, "requestUrl");
    LookupSkips(extra, members, "httpMethod");
    OtherFieldsIgnored(Obj(extra + members), Obj(members), allowLocalhost, lib);
  }

  /** Members under other names do not hide a key. */
  lemma {:induction false} LookupSkips(extra: seq<(string, JsValue)>, members: seq<(string, JsValue)>, key: string)
    requires forall i :: 0 <= i < |extra| ==> extra[i].0 != key
    ensures Lookup(extra + members, key) == Lookup(members, key)
  {
    if extra == [] {
      assert extra + members == members;
    } else {
      assert (extra + members)[1..] == extra[1..] + members;
      LookupSkips(extra[1..], members, key);
    }
  }

  /** An array passes the object test but has no `requestUrl`. */
  lemma ArrayLacksRequestUrl(items: seq<JsValue>, allowLocalhost: bool, lib: UrlLib)
    ensures PayloadVerdict(Arr(items), allowLocalhost, lib) == Fail("requestUrl is required")
  {
  }

  /** `null`, strings, numbers and booleans are refused as bodies. */
  lemma ScalarsRefused(data: JsValue, allowLocalhost: bool, lib: UrlLib)
    requires data.Null? || data.Str? || data.Num? || data.Bool? || data.Undefined?
    ensures PayloadVerdict(data, allowLocalhost, lib) == Fail(NotAnObject)
  {
  }
}
