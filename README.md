# myPostman request validation and forwarding, in Dafny

myPostman is a small HTTP backend that forwards an HTTP request on behalf of a
client. The client posts a payload: `requestUrl`, `httpMethod`, and optionally
`body`, `cookies` and `authorization`. The server first validates the payload,
then sends the request with axios and wraps the outcome in a JSON envelope.

This project models the following parts of that backend:

- **`validateSendRequest`** (`payload_validation.dfy`): the payload must be an
  object. The URL is checked next, then the HTTP method. The other fields are
  not read.
- **`UrlValidationService`** (`url_validation.dfy`, with properties in
  `url_properties.dfy`): the validator runs an ordered chain of stages. They
  are: presence, type, emptiness and length; scheme normalisation; WHATWG
  parsing; protocol allow/block lists; hostname (restricted suffixes,
  localhost aliases, private IPv4 ranges, format); port; path (slash collapsing,
  traversal, dangerous patterns raw and decoded); query; and the final
  security checks. Each stage returns a `ValidationResult`, and the first
  failing stage decides. `quickValidate` is modelled as well.
- **`HttpMethodService.validateHttpMethod`** (`http_method.dfy`): the method
  must be present and a string. It must not be blank, and once trimmed and
  upper-cased it must be one of five allowed methods.
- **`sendRequest`** (`forwarder.dfy`): builds the outbound headers, including
  the `Cookie` header joined from the cookie object. It makes exactly one call
  to the HTTP client and builds the success or failure envelope, with its
  body size in UTF-8 bytes.

The JavaScript primitives the source relies on are modelled in their own
modules:

- `js_strings.dfy`: `trim`, `toUpperCase`/`toLowerCase`, `parseInt`, `split`/`join`,
  UTF-16 `.length` and UTF-8 byte length.
- `json.dfy`: truthiness, `typeof`, property lookup and `JSON.stringify`.
- `verdicts.dfy`: the `ValidationResult` record and its well-formedness.

The looping stages are methods with `while` loops: the hostname octet loop,
the path-pattern loop and the query-word loop. Each is proved equal to a
declarative verdict function, and the properties are proved about those
functions. The methods that call them (`ValidateHostname`,
`ValidateRequestUrl`, `ValidateSendRequest`) are methods too, each proved
equal to its verdict function. The HTTP client is a `Transport` object whose
log of sent requests the forwarder extends.

Where the prose description of the system and the code disagree, the model
follows the code:

- The payload validator checks `requestUrl` before `httpMethod`
  (`src/utils/validation.ts:17-22`).
- Port 0 is in the restricted list, but the range check rejects it first.
  "Port 0 is restricted" is therefore never reported
  (`UrlProperties.PortZeroNeverReportedRestricted`).
- With `allowLocalhost` on, the hostname `localhost` passes the alias check
  but then fails the format check. It has no dot, so it is neither a dotted
  quad nor a domain name (`UrlProperties.LocalhostRejectedWhenAllowed`).
- The WHATWG parser gives the IPv6 loopback hostname in brackets (`[::1]`).
  That never equals the `::1` alias, so the alias check does not catch it
  (`UrlProperties.BracketedLoopbackAcceptedInProduction`).
- The sanitised URL is computed only for logging and is not part of the
  reported details. Only its ability to throw is modelled.
- The forwarder sends `requestUrl` as written, not the normalised URL.

## Model

| member | source | states |
|---|---|---|
| UrlValidation.ValidateBasic | src/utils/urlValidation.service.ts:100-153 | valid exactly for a string that is non-blank and at most 2048 UTF-16 units once trimmed; each failure carries its own message (required / must be a string / cannot be empty / exceeds maximum length) |
| UrlValidation.RewriteSchemePrefix | src/utils/urlValidation.service.ts:179-180 | the two `http://`/`https://` rewrites give back the string unchanged |
| UrlValidation.WithDefaultScheme | src/utils/urlValidation.service.ts:166-176 | the result has a scheme, starts with `https://` and ends with the given URL, lengthened by 6 characters (`https:`) when the URL starts with `//` and by 8 (`https://`) otherwise |
| UrlValidation.NormalizeUrl | src/utils/urlValidation.service.ts:156-186 | the result always has a scheme; `protocolAdded` holds exactly when the trimmed input had none; otherwise the trimmed input is returned; if not, it gets the right https prefix |
| UrlValidation.ValidateProtocol | src/utils/urlValidation.service.ts:189-219 | valid exactly for `http:` and `https:`; a blocked scheme and an unsupported scheme each get their own message |
| UrlValidation.OctetsInRange | src/utils/urlValidation.service.ts:485-490 | the loop answers true exactly when all four digit groups are at most 255 |
| UrlValidation.IsValidHostnameFormat | src/utils/urlValidation.service.ts:478-503 | the method agrees with the declarative hostname format: a dotted quad with every octet ≤ 255, otherwise a bracketed IPv6 literal or a domain name |
| UrlValidation.HostnameVerdict | src/utils/urlValidation.service.ts:222-285 | valid exactly when the hostname is non-empty, has no restricted suffix, is not a localhost alias or private address (unless localhost is allowed), and has a valid format |
| UrlValidation.ValidateHostname | src/utils/urlValidation.service.ts:222-285 | the method computes `HostnameVerdict` |
| UrlValidation.ValidatePort | src/utils/urlValidation.service.ts:288-330 | valid exactly for an empty port or one that parses to 1..65535 and is not restricted; a non-number and an out-of-range number each get their own message |
| UrlValidation.CollapseSlashes | src/utils/urlValidation.service.ts:339 | collapsing runs of slashes never lengthens the path and keeps its first character |
| UrlValidation.PathVerdict | src/utils/urlValidation.service.ts:333-374 | returns valid exactly for a root path, or one with no traversal after collapsing whose raw and decoded forms match no dangerous pattern; throws exactly when decoding fails at the first pattern test |
| UrlValidation.ValidatePath | src/utils/urlValidation.service.ts:351-371 | the pattern loop computes `PathVerdict`, including the thrown decoding error |
| UrlValidation.QueryVerdict | src/utils/urlValidation.service.ts:377-411 | valid exactly for a query of length ≤ 1, or one of ≤ 1000 units without a dangerous word; an over-long query gets "Query string is too long" |
| UrlValidation.ValidateQuery | src/utils/urlValidation.service.ts:395-408 | the dangerous-word loop computes `QueryVerdict` |
| UrlValidation.SecurityChecks | src/utils/urlValidation.service.ts:437-475 | valid exactly when `href` has no `%25xx`, no NUL and no `%00`, and the hostname has at most five dots |
| UrlValidation.ParsedVerdict | src/utils/urlValidation.service.ts:40-96 | valid exactly when every stage after parsing accepts the parsed URL; on success the result carries the URL's details; otherwise the first failing stage's own result (protocol, hostname, port, path, query, security) is returned unchanged, and a decoding error thrown by the path stage or the sanitising step gives "Invalid URL format" |
| UrlValidation.UrlVerdict | src/utils/urlValidation.service.ts:25-97 | valid exactly when the URL is acceptable at every stage; on success the details hold the original URL, the normalised URL, whether a scheme was added, and the parsed hostname, port and path; a failed basic check is returned as it is; a URL the parser refuses gives "Invalid URL format"; otherwise the stages after parsing decide |
| UrlValidation.ValidateRequestUrl | src/utils/urlValidation.service.ts:25-97 | the stage-by-stage method computes `UrlVerdict`; a parse or decode error becomes "Invalid URL format" |
| UrlValidation.QuickValidate | src/utils/urlValidation.service.ts:528-535 | true exactly when the URL parses, its protocol passes the protocol stage, and it has a hostname |
| UrlProperties.QuickValidateSkipsLaterStages | src/utils/urlValidation.service.ts:528-535 | a URL on restricted port 25 passes `quickValidate` but not the stages after parsing, since the port, path, query and security checks are skipped |
| UrlProperties.AcceptedPassesQuickValidate | src/utils/urlValidation.service.ts:528-535 | every URL accepted by the full validator, once normalised, also passes `quickValidate` |
| UrlProperties.AllowLocalhostOnlyRelaxes | src/utils/urlValidation.service.ts:25 | allowing localhost never changes the verdict on a URL that production already accepts |
| UrlProperties.HostnameRejectedOnlyAsLocal | src/utils/urlValidation.service.ts:248-270 | a hostname accepted only when localhost is allowed is refused in production as a localhost alias or a private address |
| UrlProperties.ProductionRejectsOnlyLocalTargets | src/utils/urlValidation.service.ts:248-270 | a URL accepted only when localhost is allowed is refused in production for being local or private, and for no other reason |
| UrlProperties.NoPatternMeansClean | src/utils/urlValidation.service.ts:351-360 | a path that matches no dangerous pattern has no dot segment, no trailing "..", and no forbidden character |
| UrlProperties.RootPathsClean | src/utils/urlValidation.service.ts:334-336 | the empty and root paths are clean |
| UrlProperties.AcceptedPathIsClean | src/utils/urlValidation.service.ts:333-374 | an accepted path is clean as written, and, unless root, it decodes to a clean path |
| UrlProperties.ParsedUrlIsSafe | src/utils/urlValidation.service.ts:34-71 | a parsed URL that passes every stage has an http(s) protocol, a hostname, no localhost alias in production, a valid unrestricted port, a clean decodable path, no NUL byte, and at most five dots in the hostname |
| UrlProperties.AcceptedUrlIsSafe | src/utils/urlValidation.service.ts:25-97 | an accepted request URL is a string that parses to an http(s) URL with no restricted port, a clean path and no NUL byte |
| UrlProperties.SchemeShape | src/utils/urlValidation.service.ts:164 | a URL with a scheme starts with a letter and contains "://" |
| UrlProperties.HttpSchemesRecognised | src/utils/urlValidation.service.ts:164-168 | `http://…` and `https://…` have a scheme; a protocol-relative `//…` does not |
| UrlProperties.NoColonNoScheme | src/utils/urlValidation.service.ts:164 | a string without ':' has no scheme |
| UrlProperties.NormalizedIsTrimmed | src/utils/urlValidation.service.ts:161-176 | the normalised URL has no surrounding white space |
| UrlProperties.NormalizeIdempotent | src/utils/urlValidation.service.ts:156-186 | normalising a normalised URL changes nothing and adds no scheme |
| UrlProperties.NormalizeAddsHttps | src/utils/urlValidation.service.ts:166-176 | a URL without a scheme is given https |
| UrlProperties.CollapseLeavesNoDoubleSlash | src/utils/urlValidation.service.ts:339 | the collapsed path holds no "//" |
| UrlProperties.CollapseKeepsDotDotSegment | src/utils/urlValidation.service.ts:339-340 | the collapsed path has a "/../" exactly when the raw path has one |
| UrlProperties.CollapseKeepsTrailingDotDot | src/utils/urlValidation.service.ts:339-340 | the collapsed path ends in "/.." exactly when the raw path does |
| UrlProperties.TraversalReportedIff | src/utils/urlValidation.service.ts:339-348 | the traversal message is given exactly for a non-root path containing "/../" or ending in "/.." |
| UrlProperties.PortNumberVerdict | src/utils/urlValidation.service.ts:288-330 | a decimal port is accepted exactly when it is in range and not restricted; a restricted one is named in the message |
| UrlProperties.PortZeroNeverReportedRestricted | src/utils/urlValidation.service.ts:307-327 | no port string is ever reported as "Port 0 is restricted" |
| UrlProperties.RestrictedMessageNotZero | src/utils/urlValidation.service.ts:318-327 | the restriction message for a positive port never names port 0 |
| UrlProperties.SingleLabelHostnameRejected | src/utils/urlValidation.service.ts:274-282 | a dotless hostname that is not an IPv6 literal fails the format check whatever `allowLocalhost` says |
| UrlProperties.LocalhostFacts | src/utils/urlValidation.service.ts:7 | `localhost` is lower case, has no restricted suffix, no dot and is not an IPv6 literal |
| UrlProperties.DotlessHostnameHasNoRestrictedSuffix | src/utils/urlValidation.service.ts:235 | a hostname without a dot never ends in a restricted suffix |
| UrlProperties.LocalhostRejectedWhenAllowed | src/utils/urlValidation.service.ts:274-282 | `localhost` with localhost allowed is refused as "Invalid hostname format" |
| UrlProperties.LoopbackFacts | src/utils/urlValidation.service.ts:7 | `127.0.0.1` is lower case and has no restricted suffix |
| UrlProperties.LoopbackRejectedInProduction | src/utils/urlValidation.service.ts:248-258 | `127.0.0.1` is refused in production as a localhost URL |
| UrlProperties.RestrictedSuffixEndsInLetter | src/utils/urlValidation.service.ts:19 | a hostname with a restricted suffix ends in a letter, so no IPv4 address has one |
| UrlProperties.IPv6LiteralAcceptedInProduction | src/utils/urlValidation.service.ts:222-285 | every lower-case bracketed IPv6 literal passes the hostname checks in production: it has no dot, is no alias and no private IPv4 address |
| UrlProperties.BracketedLoopbackAcceptedInProduction | src/utils/urlValidation.service.ts:7 | the IPv6 loopback as the parser writes it, `[::1]`, is not caught by the `::1` alias and is accepted in production |
| UrlProperties.PrivateAddressPrefixes | src/utils/urlValidation.service.ts:10-16 | every private address is a dotted quad starting with 10., 172., 192.168., 169.254. or 127. |
| UrlProperties.PrivatePrefixesArePrivate | src/utils/urlValidation.service.ts:10-16 | a dotted quad starting with 10., 127., 192.168. or 169.254. is a private address |
| UrlProperties.PrivateAddressFacts | src/utils/urlValidation.service.ts:7 | `192.168.1.1` is lower case, has no restricted suffix and is not a localhost alias |
| UrlProperties.PrivateAddressGroups | src/utils/urlValidation.service.ts:13 | `192.168.1.1` splits into the four groups 192, 168, 1, 1 |
| UrlProperties.PrivateGroupsWellFormed | src/utils/urlValidation.service.ts:10-16 | a hostname with those four groups is a private address and has a valid format |
| UrlProperties.PrivateAddressRejectedInProduction | src/utils/urlValidation.service.ts:261-270 | `192.168.1.1` is refused in production as a private address |
| UrlProperties.PrivateAddressAcceptedWhenAllowed | src/utils/urlValidation.service.ts:261-284 | `192.168.1.1` is accepted when localhost is allowed |
| UrlProperties.RestrictedSuffixExample | src/utils/urlValidation.service.ts:235-245 | `printer.local` is refused for its restricted suffix |
| HttpMethod.ValidateHttpMethod | src/utils/httpMethod.service.ts:4-47 | valid exactly for a string whose trimmed, upper-cased text is an allowed method; a valid result says "httpMethod is valid" |
| HttpMethod.MissingMethodMessage | src/utils/httpMethod.service.ts:6-11 | undefined or null gives "httpMethod is required" |
| HttpMethod.NonStringMethodMessage | src/utils/httpMethod.service.ts:15-20 | any other non-string gives "httpMethod must be a string" |
| HttpMethod.BlankMethodMessage | src/utils/httpMethod.service.ts:24-30 | a blank string gives "httpMethod cannot be empty" |
| HttpMethod.UnlistedMethodMessage | src/utils/httpMethod.service.ts:34-40 | a non-blank unlisted method gets the message listing the allowed methods |
| HttpMethod.AllowedMethodListText | src/utils/httpMethod.service.ts:38 | the listed methods read "GET, POST, PUT, DELETE, PATCH" |
| HttpMethod.VerdictOfTrimmed | src/utils/httpMethod.service.ts:24 | two spellings with the same trimmed text get the same verdict |
| HttpMethod.PaddingIgnored | src/utils/httpMethod.service.ts:24 | white space around a word does not change the verdict |
| HttpMethod.LettersAreTrimmed | src/utils/httpMethod.service.ts:24 | a word of ASCII letters is its own trim |
| HttpMethod.CaseIgnored | src/utils/httpMethod.service.ts:35 | a word of ASCII letters is accepted exactly when its upper-case form is |
| HttpMethod.VerdictOfSpelling | src/utils/httpMethod.service.ts:24-40 | a non-blank string is accepted exactly when its trimmed text upper-cases to an allowed method, and otherwise gets the listing message |
| HttpMethod.UpperWordVerdict | src/utils/httpMethod.service.ts:34-40 | an upper-case word is accepted exactly when it is listed, and otherwise gets the listing message |
| HttpMethod.LowerWordVerdict | src/utils/httpMethod.service.ts:35 | a lower-case word is accepted exactly when its ASCII upper-case form is listed |
| HttpMethod.PaddedLowerWordVerdict | src/utils/httpMethod.service.ts:24-35 | a padded lower-case word is accepted exactly when its upper-case form is listed |
| HttpMethod.PaddedLowerCaseGetAccepted | src/utils/httpMethod.service.ts:24-46 | `" get "` is accepted |
| HttpMethod.UnlistedMethodsRejected | src/utils/httpMethod.service.ts:34-40 | the standard methods HEAD, OPTIONS, CONNECT and TRACE are refused with the listing message |
| HttpMethod.CharwiseVerdict | src/utils/httpMethod.service.ts:35 | a word whose characters upper-case one for one is accepted exactly when the upper-cased word is listed |
| HttpMethod.LongSAccepted | src/utils/httpMethod.service.ts:35 | `poſt` (long s) upper-cases to POST and is accepted |
| PayloadValidation.PayloadVerdict | src/utils/validation.ts:6-32 | a non-object is refused as "Request body must be an object"; otherwise valid exactly when the URL and then the method are acceptable, and then "Payload is valid" |
| PayloadValidation.ValidateSendRequest | src/utils/validation.ts:6-32 | the method computes `PayloadVerdict` |
| PayloadValidation.UrlCheckedFirst | src/utils/validation.ts:17-18 | for an object with an unacceptable URL, the answer is the URL validator's, whatever the method |
| PayloadValidation.MethodResultOnlyAfterUrl | src/utils/validation.ts:21-22 | with an acceptable URL and an unacceptable method, the answer is the method validator's |
| PayloadValidation.OtherFieldsIgnored | src/utils/validation.ts:14-26 | two objects with the same `requestUrl` and `httpMethod` get the same verdict |
| PayloadValidation.ExtraMembersIgnored | src/utils/validation.ts:24-26 | prepending `body`, `cookies` or `authorization` members does not change the verdict |
| PayloadValidation.LookupSkips | src/utils/validation.ts:14 | property lookup passes over members with other names |
| PayloadValidation.ArrayLacksRequestUrl | src/utils/validation.ts:7-18 | an array passes the object test but is refused as "requestUrl is required" |
| PayloadValidation.ScalarsRefused | src/utils/validation.ts:7-12 | null, strings, numbers, booleans and undefined are refused as not an object |
| Forwarder.SizeInBytes | src/services/sendRequest.ts:5-9 | zero exactly for falsy data; the UTF-8 length of a string; otherwise the UTF-8 length of its JSON text |
| Forwarder.SizeOfSmallObject | src/services/sendRequest.ts:5-9 | `{"ok":true}` measures 11 bytes |
| Forwarder.SizeOfAccentedString | src/services/sendRequest.ts:8 | the string "é" measures 2 bytes |
| Forwarder.ToText | src/services/sendRequest.ts:20 | a string is written as it is, and a number as text that `parseInt` reads back as the number |
| Forwarder.CookieEntries | src/services/sendRequest.ts:19-20 | one entry per own member of a cookie object, in order, with its name and (for a string) its value; one per index of an array or string; none for other values |
| Forwarder.CookieHeader | src/services/sendRequest.ts:19-21 | the header is empty exactly when there are no cookies |
| Forwarder.PairParses | src/services/sendRequest.ts:20 | `name=value` reads back as (name, value) for a name without '=' |
| Forwarder.CookieHeaderRoundTrip | src/services/sendRequest.ts:18-22 | a `Cookie` header built from plain entries reads back as exactly those entries, in order |
| Forwarder.CookieObjectRoundTrip | src/services/sendRequest.ts:18-22 | a cookie object with plain string values reads back as its members |
| Forwarder.OutboundHeaders | src/services/sendRequest.ts:15-22 | at most the two headers; `Authorization` exactly when authorization is truthy; `Cookie` exactly when cookies are truthy, holding the joined pairs |
| Forwarder.BuildHeaders | src/services/sendRequest.ts:15-22 | the method computes `OutboundHeaders` |
| Forwarder.RequestFor | src/services/sendRequest.ts:26-32 | the outbound request carries the payload's URL, method and body as written, with the outbound headers |
| Forwarder.ErrorData | src/services/sendRequest.ts:58 | always truthy: the carried response body when it is truthy, otherwise a one-member object holding the error message |
| Forwarder.EnvelopeFor | src/services/sendRequest.ts:37-76 | success exactly on delivery, echoing the body (or `{}`); on failure the request body is dropped, the response body is `ErrorData`, the status is the carried one or 500 when it is missing or 0, the headers are the carried ones or `{}` when missing or falsy; the size always measures the response body |
| Forwarder.Transport.constructor | src/services/sendRequest.ts:27 | a fresh client has sent nothing |
| Forwarder.Transport.Send | src/services/sendRequest.ts:27-32 | one call appends the request to the log and answers with the oracle's response to that call |
| Forwarder.SendRequest | src/services/sendRequest.ts:11-77 | the client is called exactly once with `RequestFor(payload)`, and the envelope is `EnvelopeFor` of its outcome |
| Forwarder.ValidatedPayloadIsForwardedAsWritten | src/utils/validation.ts:17-22 | a validated payload is forwarded with its string URL, which the URL validator accepts, and a string method that upper-cases to an allowed method |
| Json.TypeOf | src/utils/validation.ts:7 | "undefined", "string" and "object" are given exactly for undefined, strings and null/arrays/objects |
| Json.Escape | src/services/sendRequest.ts:7 | escaping never shortens the text |
| Json.Quote | src/services/sendRequest.ts:7 | the literal starts and ends with a quote and is at least two characters longer than the text |
| Json.QuoteOfPlain | src/services/sendRequest.ts:7 | text without quotes, backslashes or control characters is written between quotes unchanged |
| Json.Stringify | src/services/sendRequest.ts:7 | no text exactly for undefined; any other value gives non-empty text |
| JsStrings.Trim | src/utils/urlValidation.service.ts:124 | the result is the input with white space removed at both ends, and it neither starts nor ends in white space |
| JsStrings.TrimEmptyIffBlank | src/utils/urlValidation.service.ts:124-125 | the trim is empty exactly when every character is white space |
| JsStrings.TrimIdempotent | src/utils/httpMethod.service.ts:24 | trimming twice is trimming once |
| JsStrings.TrimOfPadded | src/utils/httpMethod.service.ts:24 | a word padded with white space trims to the word |
| JsStrings.UpperCaseOfLetters | src/utils/httpMethod.service.ts:35 | upper-casing ASCII letters keeps the length, gives A-Z, changes each letter only by case, and is idempotent |
| JsStrings.UpperCaseOfLowerLetters | src/utils/httpMethod.service.ts:35 | lower-case ASCII letters upper-case to the letters 32 code points lower |
| JsStrings.ToUpperCase | src/utils/httpMethod.service.ts:35 | upper-casing never shortens the text |
| JsStrings.ToUpperCaseAppend | src/utils/httpMethod.service.ts:35 | upper-casing works code point by code point: the upper case of a concatenation is the concatenation of the upper cases |
| JsStrings.ToLowerCase | src/utils/urlValidation.service.ts:249 | lower-casing never shortens the text |
| JsStrings.ToLowerCaseAppend | src/utils/urlValidation.service.ts:235 | lower-casing works code point by code point over a concatenation |
| JsStrings.ToLowerCaseOfLowerAscii | src/utils/urlValidation.service.ts:249 | lower-casing leaves ASCII text without capitals unchanged |
| JsStrings.Split | src/utils/urlValidation.service.ts:480-492 | at least one piece, none holding the separator, and joining them gives back the input |
| JsStrings.SplitJoin | src/utils/urlValidation.service.ts:480-492 | splitting the join of separator-free pieces gives back the pieces |
| JsStrings.SplitPieces | src/utils/urlValidation.service.ts:462 | the number of pieces is one more than the number of separators |
| JsStrings.NatToString | src/utils/urlValidation.service.ts:324 | the decimal text is non-empty digits, with no leading zero unless the number is zero |
| JsStrings.NatToStringValue | src/utils/urlValidation.service.ts:324 | the decimal text reads back as the number |
| JsStrings.LeadingDigits | src/utils/urlValidation.service.ts:293 | a number exactly when the text starts with a digit, and then it is non-negative |
| JsStrings.ParseInt | src/utils/urlValidation.service.ts:293 | text starting with a digit is read from its leading digits; text without any digit is NaN; a negative result needs a minus sign |
| JsStrings.ParseIntOfDigits | src/utils/urlValidation.service.ts:486 | `parseInt` of a digit string is its decimal value |
| JsStrings.ParseIntRoundTrip | src/utils/urlValidation.service.ts:293 | `parseInt` of an integer's decimal text gives back the integer |
| JsStrings.Utf16Length | src/utils/urlValidation.service.ts:136 | `.length` is at least the number of characters and at most twice it |
| JsStrings.Utf8Length | src/services/sendRequest.ts:8 | the byte length is between one and four bytes per character |
| JsStrings.Utf8LengthOfAscii | src/services/sendRequest.ts:8 | ASCII text takes one byte per character |
| JsStrings.Utf8LengthAppend | src/services/sendRequest.ts:8 | the byte length of a concatenation is the sum of the byte lengths |

## Left out

- The WHATWG `URL` parser and `decodeURIComponent` are library code. They are parameters of the model (`UrlLib`). A thrown error is `None`.
- `sanitizeUrl` (src/utils/urlValidation.service.ts:414-434) is modelled only through the error its `decodeURIComponent` call can throw. Its output is only logged. `encodeURI` cannot throw on strings of Unicode scalar values, and Dafny strings are exactly that.
- `parseUrl` (src/utils/urlValidation.service.ts:506-523) is not called by any modelled operation and is not modelled.
- The default of `allowLocalhost` reads `NODE_ENV`. It is an explicit parameter instead.
- `console.log` calls are left out, since they are output only.
- The `process.hrtime` timing, the `timeMilliSeconds` field and its `toFixed` rounding are left out (clock and floating point).
- The axios call is the `Transport` oracle. Redirects, timeouts, status-based rejection and response parsing are inside it and are not modelled.
- JSON numbers are integers. Floating-point numbers, `NaN` and their JSON text are not modelled.
- Json.Stringify: writes every integer in plain decimal, while JavaScript writes magnitudes of 10^21 and above in exponent form.
- Strings hold Unicode scalar values, so lone surrogates (legal in JavaScript) are not modelled.
- `toUpperCase`/`toLowerCase` are modelled only for characters whose case mapping produces ASCII. Other characters are kept as they are. This decides membership and substring tests against ASCII words the same way.
- The `/i` flag of the path and `href` expressions is ASCII case folding, as in a non-Unicode JavaScript regex.
- `Object.entries` ordering for integer-like keys, and duplicate keys in a JSON object, are not modelled. Members keep their written order, and lookup takes the first match.
- `securityChecks` takes an `allowLocalhost` argument that it never reads, so the model omits it.
- The type declarations in src/config/types.ts are not enforced at run time. Only `ValidationResult` and the payload's field names are modelled.
- Routes, controllers and the server setup (src/routes, src/controllers, src/server.ts) are not part of this model.
- Forwarder.CookieHeaderRoundTrip: holds only for names without '=' or ';' and values without ';'. For other cookies the joined header is ambiguous.
