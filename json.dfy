/**
 * JavaScript values as they reach the service in a parsed JSON request body
 * (plus `undefined` for a missing property), with the three things the core
 * asks of them: truthiness, `typeof`, and the text `JSON.stringify` produces.
 *
 * Numbers are integers here; an object is the list of its own properties in
 * enumeration order, with distinct keys.
 */
module Json {
  import opened Base
  import opened JsStrings

  datatype JsValue =
    | Undefined
    | Null
    | Bool(b: bool)
    | Num(n: int)
    | Str(s: string)
    | Arr(items: seq<JsValue>)
    | Obj(members: seq<(string, JsValue)>)

  /** The empty object literal `{}`. */
  const EmptyObject: JsValue := Obj([])

  /** JavaScript truthiness: `undefined`, `null`, `false`, `0` and `""` are falsy. */
  predicate Truthy(v: JsValue) {
    match v
    case Undefined => false
    case Null => false
    case Bool(b) => b
    case Num(n) => n != 0
    case Str(s) => s != ""
    case Arr(_) => true
    case Obj(_) => true
  }

  /** The `typeof` operator (`null` and arrays are "object"). */
  function TypeOf(v: JsValue): (t: string)
    ensures t == "undefined" <==> v.Undefined?
    ensures t == "string" <==> v.Str?
    ensures t == "object" <==> v.Null? || v.Arr? || v.Obj?
  {
    match v
    case Undefined => "undefined"
    case Null => "object"
    case Bool(_) => "boolean"
    case Num(_) => "number"
    case Str(_) => "string"
    case Arr(_) => "object"
    case Obj(_) => "object"
  }

  /** The first member named `key`, or `undefined`. */
  function Lookup(members: seq<(string, JsValue)>, key: string): JsValue {
    if members == [] then Undefined
    else if members[0].0 == key then members[0].1
    else Lookup(members[1..], key)
  }

  /** Property access `v[key]` for a key that no built-in prototype defines
      (such as "requestUrl"): only an object's own members answer. */
  function Property(v: JsValue, key: string): JsValue {
    if v.Obj? then Lookup(v.members, key) else Undefined
  }

  // ---------------------------------------------------------------------------
  // JSON.stringify

  function HexDigitLower(d: nat): char
    requires d < 16
  {
    if d < 10 then ('0' as int + d) as char else ('a' as int + d - 10) as char
  }

  /** JSON escape of one code point inside a string literal. */
  function EscapeChar(c: char): string {
    if c == '"' then "\\\""
    else if c == '\\' then "\\\\"
    else if c == '\U{8}' then "\\b"
    else if c == '\U{C}' then "\\f"
    else if c == '\n' then "\\n"
    else if c == '\r' then "\\r"
    else if c == '\t' then "\\t"
    else if c as int < 0x20 then "\\u00" + [HexDigitLower(c as int / 16), HexDigitLower(c as int % 16)]
    else [c]
  }

  /** A code point that a JSON string literal holds as it is. */
  predicate Plain(c: char) { c != '"' && c != '\\' && c as int >= 0x20 }

  function Escape(s: string): (r: string)
    ensures |r| >= |s|
  {
    if s == [] then "" else EscapeChar(s[0]) + Escape(s[1..])
  }

  /** Text without quotes, backslashes or control characters is its own escape. */
  lemma {:induction false} EscapeOfPlain(s: string)
    requires forall i :: 0 <= i < |s| ==> Plain(s[i])
    ensures Escape(s) == s
  {
    if s != [] {
      EscapeOfPlain(s[1..]);
      assert s == [s[0]] + s[1..];
    }
  }

  /** A JSON string literal: the escaped text between two quotes. */
  function Quote(s: string): (r: string)
    ensures |r| >= |s| + 2 && r[0] == '"' && r[|r| - 1] == '"'
  {
    "\"" + Escape(s) + "\""
  }

  /** Text without quotes, backslashes or control characters is written
      between quotes as it is. */
  lemma QuoteOfPlain(s: string)
    requires forall i :: 0 <= i < |s| ==> Plain(s[i])
    ensures Quote(s) == "\"" + s + "\""
  {
    EscapeOfPlain(s);
  }

  /** `JSON.stringify(v)`: `undefined` gives no text, every other value a
      non-empty text. */
  function Stringify(v: JsValue): (r: Option<string>)
    ensures r.None? <==> v.Undefined?
    ensures r.Some? ==> r.value != ""
    decreases v, 1, 0
  {
    match v
    case Undefined => None
    case Null => Some("null")
    case Bool(b) => Some(if b then "true" else "false")
    case Num(n) => Some(IntToString(n))
    case Str(s) => Some(Quote(s))
    case Arr(items) => Some("[" + Join(ItemTexts(v, 0), ",") + "]")
    case Obj(members) => Some("{" + Join(MemberTexts(v, 0), ",") + "}")
  }

  /** The texts of the array elements from index `i` on; `undefined` is written `null`. */
  function ItemTexts(v: JsValue, i: nat): seq<string>
    requires v.Arr? && i <= |v.items|
    decreases v, 0, |v.items| - i
  {
    if i == |v.items| then []
    else
      var text := match Stringify(v.items[i]) case None => "null" case Some(t) => t;
      [text] + ItemTexts(v, i + 1)
  }

  /** The `"key":value` texts of the object members from index `i` on;
      members whose value is `undefined` are skipped. */
  function MemberTexts(v: JsValue, i: nat): seq<string>
    requires v.Obj? && i <= |v.members|
    decreases v, 0, |v.members| - i
  {
    if i == |v.members| then []
    else
      match Stringify(v.members[i].1)
      case None => MemberTexts(v, i + 1)
      case Some(t) => [Quote(v.members[i].0) + ":" + t] + MemberTexts(v, i + 1)
  }
}
