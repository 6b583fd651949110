/**
 * The URL-safety validator (`UrlValidationService`): an ordered chain of
 * stages over the request URL, each returning a `ValidationResult`, where the
 * first failing stage decides the answer.
 *
 * The WHATWG `URL` parser and `decodeURIComponent` are library calls outside
 * the model; they are passed in as a `UrlLib`, and either may fail (`None`),
 * which is how the source's `try`/`catch` sees a thrown error.
 */
module UrlValidation {
  import opened Base
  import opened JsStrings
  import opened Json
  import opened Verdicts

  const MAX_URL_LENGTH: nat := 2048
  const MAX_QUERY_LENGTH: nat := 1000
  const MAX_HOSTNAME_DOTS: nat := 5

  const AllowedProtocols: seq<string> := ["http:", "https:"]
  const BlockedProtocols: seq<string> := ["file:", "ftp:", "mailto:", "javascript:", "data:", "ws:", "wss:"]
  const LocalhostAliases: seq<string> := ["localhost", "127.0.0.1", "::1", "0.0.0.0"]
  /** Already lower case, so the `toLowerCase()` applied to each entry changes nothing. */
  const RestrictedSuffixes: seq<string> :=
    [".local", ".internal", ".localhost", ".test", ".example", ".invalid", ".localhost.localdomain"]
  const RestrictedPorts: seq<int> := [0, 25, 137, 138, 139, 445]

  const InvalidUrlFormat: string := "Invalid URL format"

  /** The members of a WHATWG `URL` object that the validator reads. */
  datatype UrlParts = UrlParts(
    protocol: string,
    hostname: string,
    port: string,
    pathname: string,
    search: string,
    hash: string,
    href: string)

  /** The library calls the validator makes: `new URL(s)` and
      `decodeURIComponent(s)`; `None` stands for the thrown error. */
  datatype UrlLib = UrlLib(
    parse: string -> Option<UrlParts>,
    decodeComponent: string -> Option<string>)

  // ---------------------------------------------------------------------------
  // 1. Presence, type, emptiness and length

  /** What `validateBasic` lets through: a string that is not blank and at
      most 2048 UTF-16 units long once trimmed. */
  predicate BasicAcceptable(requestUrl: JsValue) {
    requestUrl.Str? && Trim(requestUrl.s) != [] && Utf16Length(Trim(requestUrl.s)) <= MAX_URL_LENGTH
  }

  function ValidateBasic(requestUrl: JsValue): (r: ValidationResult)
    ensures WellFormed(r) && r.data.None?
    ensures r.valid <==> BasicAcceptable(requestUrl)
    ensures requestUrl.Undefined? || requestUrl.Null? ==> r.meta.message == "requestUrl is required"
    ensures !requestUrl.Undefined? && !requestUrl.Null? && !requestUrl.Str?
            ==> r.meta.message == "requestUrl must be a string"
    ensures requestUrl.Str? && Trim(requestUrl.s) == [] ==> r.meta.message == "requestUrl cannot be empty"
    ensures requestUrl.Str? && Utf16Length(Trim(requestUrl.s)) > MAX_URL_LENGTH
            ==> r.meta.message == "requestUrl exceeds maximum length of 2048 characters"
  {
    if requestUrl.Undefined? || requestUrl.Null? then Fail("requestUrl is required")
    else if TypeOf(requestUrl) != "string" then Fail("requestUrl must be a string")
    else
      var trimmed := Trim(requestUrl.s);
      if Utf16Length(trimmed) == 0 then Fail("requestUrl cannot be empty")
      else if Utf16Length(trimmed) > MAX_URL_LENGTH then
        Fail("requestUrl exceeds maximum length of 2048 characters")
      else Pass("Basic validation passed")
  }

  // ---------------------------------------------------------------------------
  // 2. Normalisation

  predicate IsSchemeChar(c: char) { IsAsciiAlnum(c) || c == '+' || c == '-' || c == '.' }

  /** `s` begins with a letter, then scheme characters up to index `k`, then "://". */
  predicate SchemeEndsAt(s: string, k: int) {
    1 <= k <= |s| - 3 && IsAsciiLetter(s[0])
    && (forall j :: 1 <= j < k ==> IsSchemeChar(s[j]))
    && s[k..k + 3] == "://"
  }

  /** `/^[a-zA-Z][a-zA-Z0-9+\-.]*:\/\//.test(s)` */
  predicate HasScheme(s: string) {
    exists k | 1 <= k <= |s| - 3 :: SchemeEndsAt(s, k)
  }

  /** `s.replace(/^scheme:\/\/(?!\/)/, 'scheme://')`: puts back exactly what it
      matched, so it never changes anything. */
  function RewriteSchemePrefix(s: string, scheme: string): (r: string)
    ensures r == s
  {
    var prefix := scheme + "://";
    if StartsWith(s, prefix) && !(|s| > |prefix| && s[|prefix|] == '/') then
      assert s == prefix + s[|prefix|..];
      prefix + s[|prefix|..]
    else s
  }

  /** The scheme `normalizeUrl` puts in front of a URL that has none. */
  function WithDefaultScheme(trimmed: string): (r: string)
    ensures HasScheme(r) && StartsWith(r, "https://")
    ensures EndsWith(r, trimmed)
    ensures |r| == |trimmed| + (if StartsWith(trimmed, "//") then 6 else 8)
  {
    if StartsWith(trimmed, "//") then
      assert SchemeEndsAt("https:" + trimmed, 5) by { assert trimmed[..2] == "//"; }
      "https:" + trimmed
    else
      assert SchemeEndsAt("https://" + trimmed, 5);
      "https://" + trimmed
  }

  /** `normalizeUrl`: the trimmed URL, given "https:" in front when it starts
      with "//" and "https://" when it has no scheme at all. The second
      component says whether a scheme was added. */
  function NormalizeUrl(url: string): (r: (string, bool))
    ensures HasScheme(r.0)
    ensures r.1 <==> !HasScheme(Trim(url))
    ensures !r.1 ==> r.0 == Trim(url)
    ensures r.1 ==> r.0 == (if StartsWith(Trim(url), "//") then "https:" else "https://") + Trim(url)
  {
    var trimmed := Trim(url);
    var protocolAdded := !HasScheme(trimmed);
    var normalized := if protocolAdded then WithDefaultScheme(trimmed) else trimmed;
    (RewriteSchemePrefix(RewriteSchemePrefix(normalized, "http"), "https"), protocolAdded)
  }

  // ---------------------------------------------------------------------------
  // 3. Protocol

  function ValidateProtocol(protocol: string): (r: ValidationResult)
    ensures WellFormed(r) && r.data.None?
    ensures r.valid <==> protocol in AllowedProtocols
    ensures protocol in BlockedProtocols ==> r.meta.message == "Protocol \"" + protocol + "\" is not allowed"
    ensures protocol !in BlockedProtocols && protocol !in AllowedProtocols
            ==> r.meta.message == "Protocol \"" + protocol + "\" is not supported. Only HTTP and HTTPS are allowed."
  {
    if protocol in BlockedProtocols then Fail("Protocol \"" + protocol + "\" is not allowed")
    else if protocol !in AllowedProtocols then
      Fail("Protocol \"" + protocol + "\" is not supported. Only HTTP and HTTPS are allowed.")
    else Pass("Protocol validation passed")
  }

  // ---------------------------------------------------------------------------
  // 4. Hostname

  /** `\d{1,3}` */
  predicate IsOctetText(g: string) { 1 <= |g| <= 3 && AllDigits(g) }

  /** The lower-cased hostname ends with one of the restricted suffixes. */
  predicate HasRestrictedSuffix(hostname: string) {
    exists suffix | suffix in RestrictedSuffixes :: EndsWith(ToLowerCase(hostname), suffix)
  }

  /** One of the five private-range expressions matches, literally, on the
      dot-separated groups of the hostname. */
  predicate IsPrivateIPv4(hostname: string) {
    var g := Split(hostname, '.');
    && |g| == 4 && IsOctetText(g[2]) && IsOctetText(g[3])
    && ( (g[0] == "10" && IsOctetText(g[1]))                                  // 10.0.0.0/8
      || (g[0] == "172" && |g[1]| == 2 && AllDigits(g[1])
          && 16 <= DigitsValue(g[1]) <= 31)                                   // 172.16.0.0/12
      || (g[0] == "192" && g[1] == "168")                                     // 192.168.0.0/16
      || (g[0] == "169" && g[1] == "254")                                     // link-local
      || (g[0] == "127" && IsOctetText(g[1])))                                // loopback
  }

  /** `/^(\d{1,3})\.(\d{1,3})\.(\d{1,3})\.(\d{1,3})$/` */
  predicate IsIPv4Shape(hostname: string) {
    var g := Split(hostname, '.');
    |g| == 4 && forall i :: 0 <= i < 4 ==> IsOctetText(g[i])
  }

  /** `/^\[[a-fA-F0-9:]+\]$/` */
  predicate IsIPv6Literal(hostname: string) {
    && |hostname| >= 3 && hostname[0] == '[' && hostname[|hostname| - 1] == ']'
    && forall i :: 1 <= i < |hostname| - 1 ==> IsHexDigit(hostname[i]) || hostname[i] == ':'
  }

  /** `[a-zA-Z0-9]([a-zA-Z0-9-]{0,61}[a-zA-Z0-9])?` */
  predicate IsDomainLabel(name: string) {
    && 1 <= |name| <= 63
    && IsAsciiAlnum(name[0]) && IsAsciiAlnum(name[|name| - 1])
    && forall i :: 0 <= i < |name| ==> IsAsciiAlnum(name[i]) || name[i] == '-'
  }

  /** `[a-zA-Z]{2,}` */
  predicate IsTopLabel(name: string) {
    |name| >= 2 && forall i :: 0 <= i < |name| ==> IsAsciiLetter(name[i])
  }

  /** `/^([a-zA-Z0-9]([a-zA-Z0-9-]{0,61}[a-zA-Z0-9])?\.)+[a-zA-Z]{2,}$/` */
  predicate IsDomainName(hostname: string) {
    var labels := Split(hostname, '.');
    && |labels| >= 2
    && (forall i :: 0 <= i < |labels| - 1 ==> IsDomainLabel(labels[i]))
    && IsTopLabel(labels[|labels| - 1])
  }

  /** What `isValidHostnameFormat` accepts: a dotted quad of one to three
      digits per group exactly when every group is at most 255; otherwise a
      bracketed IPv6 literal or a domain name. */
  predicate HostnameFormatOk(hostname: string) {
    if IsIPv4Shape(hostname) then
      forall i :: 0 <= i < 4 ==> DigitsValue(Split(hostname, '.')[i]) <= 255
    else
      IsIPv6Literal(hostname) || IsDomainName(hostname)
  }

  /** The octet loop of `isValidHostnameFormat`: `parseInt` of each of the
      four groups, stopping at the first above 255. */
  method OctetsInRange(octets: seq<string>) returns (ok: bool)
    requires |octets| == 4 && forall i :: 0 <= i < 4 ==> AllDigits(octets[i]) && octets[i] != []
    ensures ok <==> forall i :: 0 <= i < 4 ==> DigitsValue(octets[i]) <= 255
  {
    var i := 0;
    while i < 4
      invariant 0 <= i <= 4
      invariant forall j :: 0 <= j < i ==> DigitsValue(octets[j]) <= 255
    {
      var group := octets[i];
      ParseIntOfDigits(group);
      var octet := ParseInt(group).value;
      if octet > 255 {
        assert DigitsValue(octets[i]) > 255;
        return false;
      }
      i := i + 1;
    }
    return true;
  }

  /** `isValidHostnameFormat`. */
  method IsValidHostnameFormat(hostname: string) returns (ok: bool)
    ensures ok == HostnameFormatOk(hostname)
  {
    if IsIPv4Shape(hostname) {
      ok := OctetsInRange(Split(hostname, '.'));
      return;
    }
    if IsIPv6Literal(hostname) {
      return true;
    }
    return IsDomainName(hostname);
  }

  /** What `validateHostname` lets through. The alias list and the private
      ranges apply only when `allowLocalhost` is false. */
  predicate HostnameAcceptable(hostname: string, allowLocalhost: bool) {
    && hostname != []
    && !HasRestrictedSuffix(hostname)
    && (!allowLocalhost ==> ToLowerCase(hostname) !in LocalhostAliases && !IsPrivateIPv4(hostname))
    && HostnameFormatOk(hostname)
  }

  /** The result of `validateHostname`. */
  function HostnameVerdict(hostname: string, allowLocalhost: bool): (r: ValidationResult)
    ensures WellFormed(r) && r.data.None?
    ensures r.valid <==> HostnameAcceptable(hostname, allowLocalhost)
  {
    if hostname == [] then Fail("Hostname is required in the URL")
    else if HasRestrictedSuffix(hostname) then Fail("URL contains restricted domain suffix")
    else if !allowLocalhost && ToLowerCase(hostname) in LocalhostAliases then
      Fail("Localhost URLs are not allowed in production")
    else if !allowLocalhost && IsPrivateIPv4(hostname) then
      Fail("Private/internal IP addresses are not allowed")
    else if !HostnameFormatOk(hostname) then Fail("Invalid hostname format")
    else Pass("")
  }

  /** `validateHostname`. */
  method ValidateHostname(hostname: string, allowLocalhost: bool) returns (r: ValidationResult)
    ensures r == HostnameVerdict(hostname, allowLocalhost)
  {
    if hostname == [] {
      return Fail("Hostname is required in the URL");
    }
    if HasRestrictedSuffix(hostname) {
      return Fail("URL contains restricted domain suffix");
    }
    if !allowLocalhost {
      if ToLowerCase(hostname) in LocalhostAliases {
        return Fail("Localhost URLs are not allowed in production");
      }
      if IsPrivateIPv4(hostname) {
        return Fail("Private/internal IP addresses are not allowed");
      }
    }
    var formatOk := IsValidHostnameFormat(hostname);
    if !formatOk {
      return Fail("Invalid hostname format");
    }
    return Pass("");
  }

  // ---------------------------------------------------------------------------
  // 5. Port

  /** A port number `validatePort` lets through. */
  predicate PortNumberAllowed(n: int) {
    1 <= n <= 65535 && n !in RestrictedPorts
  }

  /** What `validatePort` lets through: no port, or one whose `parseInt` value
      is allowed. */
  predicate PortAcceptable(port: string) {
    port == [] || (ParseInt(port).Some? && PortNumberAllowed(ParseInt(port).value))
  }

  function ValidatePort(port: string): (r: ValidationResult)
    ensures WellFormed(r) && r.data.None?
    ensures r.valid <==> PortAcceptable(port)
    ensures port != [] && ParseInt(port).None? ==> r.meta.message == "Port must be a valid number"
    ensures port != [] && ParseInt(port).Some? && !(1 <= ParseInt(port).value <= 65535)
            ==> r.meta.message == "Port must be between 1 and 65535"
  {
    if port == [] then Pass("Port is mandatory")
    else
      match ParseInt(port)
      case None => Fail("Port must be a valid number")
      case Some(n) =>
        if n < 1 || n > 65535 then Fail("Port must be between 1 and 65535")
        else if n in RestrictedPorts then Fail("Port " + IntToString(n) + " is restricted")
        else Pass("Port validation passed")
  }

  // ---------------------------------------------------------------------------
  // 6. Path

  /** `pathname.replace(/\/+/g, '/')`: every run of slashes becomes one. */
  function CollapseSlashes(s: string): (r: string)
    ensures |r| <= |s|
    ensures s != [] ==> r != [] && r[0] == s[0]
  {
    if |s| <= 1 then s
    else if s[0] == '/' && s[1] == '/' then CollapseSlashes(s[1..])
    else [s[0]] + CollapseSlashes(s[1..])
  }

  /** The traversal test on the collapsed path. */
  predicate HasTraversal(path: string) {
    Contains(path, "/../") || EndsWith(path, "/..")
  }

  /** The dangerous-pattern list of `validatePath`, in order. */
  datatype PathPattern =
    | TrailingDotDot   // /\.\.$/
    | DotDotSegment    // /\/\.\.\//
    | TrailingDot      // /\/\.$/
    | DotSegment       // /\/\.\//
    | ForbiddenChar    // /[<>:"|?*]/
    | EncodedDotDot    // /%2e%2e/i
    | EncodedDot       // /%2e\./i

  const DangerousPathPatterns: seq<PathPattern> :=
    [TrailingDotDot, DotDotSegment, TrailingDot, DotSegment, ForbiddenChar, EncodedDotDot, EncodedDot]

  const ForbiddenPathChars: string := "<>:\"|?*"

  /** `pattern.test(s)` */
  predicate PathPatternMatches(pattern: PathPattern, s: string) {
    match pattern
    case TrailingDotDot => EndsWith(s, "..")
    case DotDotSegment => Contains(s, "/../")
    case TrailingDot => EndsWith(s, "/.")
    case DotSegment => Contains(s, "/./")
    case ForbiddenChar => exists i | 0 <= i < |s| :: s[i] in ForbiddenPathChars
    case EncodedDotDot => ContainsIgnoringCase(s, "%2e%2e")
    case EncodedDot => ContainsIgnoringCase(s, "%2e.")
  }

  const PathOk: string := "Path validation passed"
  const TraversalMessage: string := "URL contains path traversal attempt"
  const DangerousPathMessage: string := "URL path contains invalid or dangerous patterns"

  /** What `validatePath` lets through: an empty or root path, or one that
      has no traversal once slashes are collapsed, decodes, and matches no
      dangerous pattern either raw or decoded. */
  predicate PathAcceptable(pathname: string, decode: string -> Option<string>) {
    || pathname == [] || pathname == "/"
    || ( && !HasTraversal(CollapseSlashes(pathname))
         && decode(pathname).Some?
         && forall p | p in DangerousPathPatterns ::
              !PathPatternMatches(p, pathname) && !PathPatternMatches(p, decode(pathname).value))
  }

  /** The outcome of `validatePath`. Decoding is first attempted while the
      first pattern is tested, and only when the raw path does not already
      match it; a failed decoding is a thrown error. */
  function PathVerdict(pathname: string, decode: string -> Option<string>): (r: Try<ValidationResult>)
    ensures r.Returned? ==> WellFormed(r.value) && r.value.data.None?
    ensures r.Returned? && r.value.valid <==> PathAcceptable(pathname, decode)
    ensures r.Returned? && r.value.valid ==> r.value.meta.message == PathOk
    ensures r.Threw? <==>
              && pathname != [] && pathname != "/"
              && !HasTraversal(CollapseSlashes(pathname))
              && !PathPatternMatches(TrailingDotDot, pathname)
              && decode(pathname).None?
  {
    if pathname == [] || pathname == "/" then Returned(Pass(PathOk))
    else if HasTraversal(CollapseSlashes(pathname)) then Returned(Fail(TraversalMessage))
    else if PathPatternMatches(TrailingDotDot, pathname) then Returned(Fail(DangerousPathMessage))
    else
      match decode(pathname)
      case None => Threw
      case Some(decoded) =>
        if exists p | p in DangerousPathPatterns ::
             PathPatternMatches(p, pathname) || PathPatternMatches(p, decoded)
        then Returned(Fail(DangerousPathMessage))
        else Returned(Pass(PathOk))
  }

  /** `validatePath`, with its loop over the dangerous patterns; `decode` is
      called afresh for each pattern the raw path does not match. */
  method ValidatePath(pathname: string, decode: string -> Option<string>) returns (r: Try<ValidationResult>)
    ensures r == PathVerdict(pathname, decode)
  {
    if pathname == [] || pathname == "/" {
      return Returned(Pass(PathOk));
    }
    var normalizedPath := CollapseSlashes(pathname);
    if Contains(normalizedPath, "/../") || EndsWith(normalizedPath, "/..") {
      return Returned(Fail(TraversalMessage));
    }
    var i := 0;
    while i < |DangerousPathPatterns|
      invariant 0 <= i <= |DangerousPathPatterns|
      invariant i > 0 ==> decode(pathname).Some? && !PathPatternMatches(TrailingDotDot, pathname)
      invariant forall j :: 0 <= j < i ==>
                  !PathPatternMatches(DangerousPathPatterns[j], pathname)
                  && !PathPatternMatches(DangerousPathPatterns[j], decode(pathname).value)
    {
      var pattern := DangerousPathPatterns[i];
      assert pattern in DangerousPathPatterns;
      if PathPatternMatches(pattern, pathname) {
        return Returned(Fail(DangerousPathMessage));
      }
      var decoded := decode(pathname);
      if decoded.None? {
        assert i == 0;
        return Threw;
      }
      if PathPatternMatches(pattern, decoded.value) {
        return Returned(Fail(DangerousPathMessage));
      }
      i := i + 1;
    }
    assert forall p | p in DangerousPathPatterns ::
      !PathPatternMatches(p, pathname) && !PathPatternMatches(p, decode(pathname).value);
    return Returned(Pass(PathOk));
  }

  // ---------------------------------------------------------------------------
  // 7. Query string

  /** `[/<script/i, /javascript:/i, /onload=/i, /onerror=/i, /onclick=/i]` */
  const DangerousQueryWords: seq<string> := ["<script", "javascript:", "onload=", "onerror=", "onclick="]

  const QueryDangerMessage: string := "Query string contains potentially dangerous content"

  /** What `validateQuery` lets through: "" or "?", or a search of at most
      1000 UTF-16 units whose lower-cased text holds no dangerous word. */
  predicate QueryAcceptable(search: string) {
    || Utf16Length(search) <= 1
    || ( && Utf16Length(search) <= MAX_QUERY_LENGTH
         && forall w | w in DangerousQueryWords :: !ContainsIgnoringCase(ToLowerCase(search), w))
  }

  /** The result of `validateQuery`. */
  function QueryVerdict(search: string): (r: ValidationResult)
    ensures WellFormed(r) && r.data.None?
    ensures r.valid <==> QueryAcceptable(search)
    ensures Utf16Length(search) > MAX_QUERY_LENGTH ==> r.meta.message == "Query string is too long"
  {
    if Utf16Length(search) <= 1 then Pass("No query string to validate")
    else if Utf16Length(search) > MAX_QUERY_LENGTH then Fail("Query string is too long")
    else if exists w | w in DangerousQueryWords :: ContainsIgnoringCase(ToLowerCase(search), w) then
      Fail(QueryDangerMessage)
    else Pass("Query string validation passed")
  }

  /** `validateQuery`, with its loop over the dangerous words. */
  method ValidateQuery(search: string) returns (r: ValidationResult)
    ensures r == QueryVerdict(search)
  {
    if Utf16Length(search) <= 1 {
      return Pass("No query string to validate");
    }
    if Utf16Length(search) > MAX_QUERY_LENGTH {
      return Fail("Query string is too long");
    }
    var queryString := ToLowerCase(search);
    var i := 0;
    while i < |DangerousQueryWords|
      invariant 0 <= i <= |DangerousQueryWords|
      invariant forall j :: 0 <= j < i ==> !ContainsIgnoringCase(queryString, DangerousQueryWords[j])
    {
      if ContainsIgnoringCase(queryString, DangerousQueryWords[i]) {
        return Fail(QueryDangerMessage);
      }
      i := i + 1;
    }
    return Pass("Query string validation passed");
  }

  // ---------------------------------------------------------------------------
  // 8. Additional security checks

  /** "%25" followed by two hex digits starts at index `i`. */
  predicate DoubleEncodedAt(href: string, i: int) {
    0 <= i <= |href| - 5 && href[i..i + 3] == "%25" && IsHexDigit(href[i + 3]) && IsHexDigit(href[i + 4])
  }

  /** `/%25[0-9a-f]{2}/i.test(href)` */
  predicate HasDoubleEncoding(href: string) {
    exists i | 0 <= i <= |href| - 5 :: DoubleEncodedAt(href, i)
  }

  /** `href.includes('\0') || href.includes('%00')` */
  predicate HasNullByte(href: string) {
    '\0' in href || Contains(href, "%00")
  }

  predicate SecurityAcceptable(url: UrlParts) {
    !HasDoubleEncoding(url.href) && !HasNullByte(url.href) && CountChar(url.hostname, '.') <= MAX_HOSTNAME_DOTS
  }

  /** `securityChecks` (its `allowLocalhost` argument is never read). */
  function SecurityChecks(url: UrlParts): (r: ValidationResult)
    ensures WellFormed(r) && r.data.None?
    ensures r.valid <==> SecurityAcceptable(url)
  {
    if HasDoubleEncoding(url.href) then Fail("URL contains double-encoded characters")
    else if HasNullByte(url.href) then Fail("URL contains NULL bytes")
    else if |Split(url.hostname, '.')| - 1 > MAX_HOSTNAME_DOTS then
      SplitPieces(url.hostname, '.');
      Fail("URL contains too many subdomains")
    else
      SplitPieces(url.hostname, '.');
      Pass("Security checks passed")
  }

  // ---------------------------------------------------------------------------
  // The whole chain

  /** The details reported for an accepted URL. */
  function Details(original: string, normalized: string, protocolAdded: bool, url: UrlParts): UrlDetails {
    UrlDetails(original, normalized, protocolAdded, url.hostname,
               if url.port == [] then "default" else url.port,
               if url.pathname == [] then "/" else url.pathname)
  }

  function Accepted(details: UrlDetails): ValidationResult {
    ValidationResult(true, Meta(SUCCESS, "requestUrl is valid"), Some(ResultData(SUCCESS, "URL is valid", details)))
  }

  /** Every demand the stages after parsing make of the parsed URL, in the
      order they run; the second decoding of the path is the sanitising step. */
  predicate ParsedAcceptable(url: UrlParts, allowLocalhost: bool, lib: UrlLib) {
    && url.protocol in AllowedProtocols
    && HostnameAcceptable(url.hostname, allowLocalhost)
    && PortAcceptable(url.port)
    && PathAcceptable(url.pathname, lib.decodeComponent)
    && QueryAcceptable(url.search)
    && lib.decodeComponent(url.pathname).Some?
    && SecurityAcceptable(url)
  }

  /** Every stage's demand on a request URL. */
  predicate UrlAcceptable(requestUrl: JsValue, allowLocalhost: bool, lib: UrlLib) {
    && BasicAcceptable(requestUrl)
    && lib.parse(NormalizeUrl(Trim(requestUrl.s)).0).Some?
    && ParsedAcceptable(lib.parse(NormalizeUrl(Trim(requestUrl.s)).0).value, allowLocalhost, lib)
  }

  /** The stages after a successful parse: protocol, hostname, port, path,
      query, the sanitising step (which can only fail by throwing from
      `decodeURIComponent`) and the security checks. */
  function ParsedVerdict(original: string, normalized: string, protocolAdded: bool, url: UrlParts,
                         allowLocalhost: bool, lib: UrlLib): (r: ValidationResult)
    ensures WellFormed(r)
    ensures r.valid <==> ParsedAcceptable(url, allowLocalhost, lib)
    ensures r.valid ==> r == Accepted(Details(original, normalized, protocolAdded, url))
    // the first stage that fails decides, with its own result
    ensures url.protocol !in AllowedProtocols ==> r == ValidateProtocol(url.protocol)
    ensures url.protocol in AllowedProtocols && !HostnameAcceptable(url.hostname, allowLocalhost)
            ==> r == HostnameVerdict(url.hostname, allowLocalhost)
    ensures url.protocol in AllowedProtocols && HostnameAcceptable(url.hostname, allowLocalhost)
            && !PortAcceptable(url.port)
            ==> r == ValidatePort(url.port)
    ensures url.protocol in AllowedProtocols && HostnameAcceptable(url.hostname, allowLocalhost)
            && PortAcceptable(url.port) && PathVerdict(url.pathname, lib.decodeComponent).Threw?
            ==> r == Fail(InvalidUrlFormat)
    ensures url.protocol in AllowedProtocols && HostnameAcceptable(url.hostname, allowLocalhost)
            && PortAcceptable(url.port) && PathVerdict(url.pathname, lib.decodeComponent).Returned?
            && !PathAcceptable(url.pathname, lib.decodeComponent)
            ==> r == PathVerdict(url.pathname, lib.decodeComponent).value
    ensures url.protocol in AllowedProtocols && HostnameAcceptable(url.hostname, allowLocalhost)
            && PortAcceptable(url.port) && PathAcceptable(url.pathname, lib.decodeComponent)
            && !QueryAcceptable(url.search)
            ==> r == QueryVerdict(url.search)
    ensures url.protocol in AllowedProtocols && HostnameAcceptable(url.hostname, allowLocalhost)
            && PortAcceptable(url.port) && PathAcceptable(url.pathname, lib.decodeComponent)
            && QueryAcceptable(url.search) && lib.decodeComponent(url.pathname).None?
            ==> r == Fail(InvalidUrlFormat)
    ensures url.protocol in AllowedProtocols && HostnameAcceptable(url.hostname, allowLocalhost)
            && PortAcceptable(url.port) && PathAcceptable(url.pathname, lib.decodeComponent)
            && QueryAcceptable(url.search) && lib.decodeComponent(url.pathname).Some?
            && !SecurityAcceptable(url)
            ==> r == SecurityChecks(url)
  {
    var protocol := ValidateProtocol(url.protocol);
    if !protocol.valid then protocol
    else
      var hostname := HostnameVerdict(url.hostname, allowLocalhost);
      if !hostname.valid then hostname
      else
        var port := ValidatePort(url.port);
        if !port.valid then port
        else
          match PathVerdict(url.pathname, lib.decodeComponent)
          case Threw => Fail(InvalidUrlFormat)
          case Returned(path) =>
            if !path.valid then path
            else
              var query := QueryVerdict(url.search);
              if !query.valid then query
              else if lib.decodeComponent(url.pathname).None? then Fail(InvalidUrlFormat)
              else
                var security := SecurityChecks(url);
                if !security.valid then security
                else Accepted(Details(original, normalized, protocolAdded, url))
  }

  /** The result of `validateRequestUrl`. */
  function UrlVerdict(requestUrl: JsValue, allowLocalhost: bool, lib: UrlLib): (r: ValidationResult)
    ensures WellFormed(r)
    ensures r.valid <==> UrlAcceptable(requestUrl, allowLocalhost, lib)
    ensures r.valid ==>
              var normalized := NormalizeUrl(Trim(requestUrl.s));
              r == Accepted(Details(requestUrl.s, normalized.0, normalized.1, lib.parse(normalized.0).value))
    // a failed presence, type, emptiness or length check is returned as it is
    ensures !BasicAcceptable(requestUrl) ==> r == ValidateBasic(requestUrl)
    // a URL the parser refuses is "Invalid URL format"
    ensures BasicAcceptable(requestUrl) && lib.parse(NormalizeUrl(Trim(requestUrl.s)).0).None?
            ==> r == Fail(InvalidUrlFormat)
    // otherwise the stages after parsing decide
    ensures BasicAcceptable(requestUrl) && lib.parse(NormalizeUrl(Trim(requestUrl.s)).0).Some?
            ==> var normalized := NormalizeUrl(Trim(requestUrl.s));
                r == ParsedVerdict(requestUrl.s, normalized.0, normalized.1, lib.parse(normalized.0).value,
                                   allowLocalhost, lib)
  {
    var basic := ValidateBasic(requestUrl);
    if !basic.valid then basic
    else
      var (normalized, protocolAdded) := NormalizeUrl(Trim(requestUrl.s));
      match lib.parse(normalized)
      case None => Fail(InvalidUrlFormat)
      case Some(url) => ParsedVerdict(requestUrl.s, normalized, protocolAdded, url, allowLocalhost, lib)
  }

  /** `validateRequestUrl`: runs the stages in order and returns the first
      failing stage's result, "Invalid URL format" for a parse failure or a
      thrown decoding error, and the URL details when every stage passes. */
  method ValidateRequestUrl(requestUrl: JsValue, allowLocalhost: bool, lib: UrlLib) returns (r: ValidationResult)
    ensures r == UrlVerdict(requestUrl, allowLocalhost, lib)
  {
    var basic := ValidateBasic(requestUrl);
    if !basic.valid {
      return basic;
    }
    var (normalized, protocolAdded) := NormalizeUrl(Trim(requestUrl.s));
    var parsed := lib.parse(normalized);
    if parsed.None? {
      return Fail(InvalidUrlFormat);
    }
    var url := parsed.value;
    var protocol := ValidateProtocol(url.protocol);
    if !protocol.valid {
      return protocol;
    }
    var hostname := ValidateHostname(url.hostname, allowLocalhost);
    if !hostname.valid {
      return hostname;
    }
    var port := ValidatePort(url.port);
    if !port.valid {
      return port;
    }
    var path := ValidatePath(url.pathname, lib.decodeComponent);
    if path.Threw? {
      return Fail(InvalidUrlFormat);
    }
    if !path.value.valid {
      return path.value;
    }
    var query := ValidateQuery(url.search);
    if !query.valid {
      return query;
    }
    if lib.decodeComponent(url.pathname).None? {
      return Fail(InvalidUrlFormat);
    }
    var security := SecurityChecks(url);
    if !security.valid {
      return security;
    }
    return Accepted(Details(requestUrl.s, normalized, protocolAdded, url));
  }

  /** `quickValidate`: parses the URL as given and checks only the protocol
      and that there is a hostname. */
  function QuickValidate(url: string, lib: UrlLib): (ok: bool)
    ensures ok <==> lib.parse(url).Some? && ValidateProtocol(lib.parse(url).value.protocol).valid
                    && lib.parse(url).value.hostname != []
  {
    match lib.parse(url)
    case None => false
    case Some(parsed) => parsed.protocol in AllowedProtocols && parsed.hostname != []
  }
}
