/**
 * What the URL validator guarantees as a whole: the conditions under which it
 * accepts, what it reports then, how the `allowLocalhost` switch and
 * normalisation behave, and how the path-traversal test sees through runs of
 * slashes.
 */
module UrlProperties {
  import opened Base
  import opened JsStrings
  import opened Json
  import opened Verdicts
  import opened UrlValidation

  // ---------------------------------------------------------------------------
  // Acceptance and the allowLocalhost switch

  /** An accepted URL, once normalised, also passes `quickValidate`. */
  lemma AcceptedPassesQuickValidate(requestUrl: JsValue, allowLocalhost: bool, lib: UrlLib)
    requires UrlVerdict(requestUrl, allowLocalhost, lib).valid
    ensures requestUrl.Str? && QuickValidate(NormalizeUrl(Trim(requestUrl.s)).0, lib)
  {
  }

  /** Allowing localhost never rejects a URL that production accepts, and
      gives the same result for it. */
  lemma AllowLocalhostOnlyRelaxes(requestUrl: JsValue, lib: UrlLib)
    requires UrlVerdict(requestUrl, false, lib).valid
    ensures UrlVerdict(requestUrl, true, lib) == UrlVerdict(requestUrl, false, lib)
  {
  }

  /** A hostname accepted only when localhost is allowed is refused in
      production as a localhost alias or a private address. */
  lemma HostnameRejectedOnlyAsLocal(hostname: string)
    requires HostnameAcceptable(hostname, true) && !HostnameAcceptable(hostname, false)
    ensures HostnameVerdict(hostname, false).meta.message
            in {"Localhost URLs are not allowed in production", "Private/internal IP addresses are not allowed"}
  {
  }

  /** A URL accepted only when localhost is allowed is rejected in production
      for naming a localhost alias or a private address, and for nothing else. */
  lemma ProductionRejectsOnlyLocalTargets(requestUrl: JsValue, lib: UrlLib)
    requires UrlVerdict(requestUrl, true, lib).valid && !UrlVerdict(requestUrl, false, lib).valid
    ensures UrlVerdict(requestUrl, false, lib).meta.message
            in {"Localhost URLs are not allowed in production", "Private/internal IP addresses are not allowed"}
  {
    var (normalized, protocolAdded) := NormalizeUrl(Trim(requestUrl.s));
    var url := lib.parse(normalized).value;
    assert !HostnameAcceptable(url.hostname, false);
    HostnameRejectedOnlyAsLocal(url.hostname);
    assert UrlVerdict(requestUrl, false, lib)
           == ParsedVerdict(requestUrl.s, normalized, protocolAdded, url, false, lib)
           == HostnameVerdict(url.hostname, false);
  }

  /** A path without dot segments, a trailing "..", or any character of
      `<>:"|?*`. */
  predicate CleanPath(p: string) {
    && !Contains(p, "/../") && !EndsWith(p, "..")
    && !Contains(p, "/./") && !EndsWith(p, "/.")
    && forall i :: 0 <= i < |p| ==> p[i] !in ForbiddenPathChars
  }

  /** A path that matches none of the dangerous patterns is clean. */
  lemma NoPatternMeansClean(p: string)
    requires forall q | q in DangerousPathPatterns :: !PathPatternMatches(q, p)
    ensures CleanPath(p)
  {
    assert !PathPatternMatches(ForbiddenChar, p);
    assert !PathPatternMatches(DotDotSegment, p) && !PathPatternMatches(TrailingDotDot, p);
    assert !PathPatternMatches(DotSegment, p) && !PathPatternMatches(TrailingDot, p);
  }

  /** The empty and the root path, which skip the pattern tests, are clean. */
  lemma RootPathsClean(p: string)
    requires p == [] || p == "/"
    ensures CleanPath(p)
  {
  }

  /** A path `validatePath` accepts is clean as written and, unless it is
      empty or the root, once decoded. */
  lemma AcceptedPathIsClean(p: string, decode: string -> Option<string>)
    requires PathAcceptable(p, decode)
    ensures CleanPath(p)
    ensures p != [] && p != "/" ==> decode(p).Some? && CleanPath(decode(p).value)
  {
    if p == [] || p == "/" {
      RootPathsClean(p);
    } else {
      var d := decode(p).value;
      NoPatternMeansClean(p);
      NoPatternMeansClean(d);
    }
  }

  /** What a parsed URL that passes every later stage is known to be. */
  lemma ParsedUrlIsSafe(url: UrlParts, allowLocalhost: bool, lib: UrlLib)
    requires ParsedAcceptable(url, allowLocalhost, lib)
    ensures url.protocol in AllowedProtocols
    ensures url.hostname != []
    ensures !allowLocalhost ==> ToLowerCase(url.hostname) !in LocalhostAliases
    ensures url.port != [] ==> ParseInt(url.port).Some? && 1 <= ParseInt(url.port).value <= 65535
                               && ParseInt(url.port).value !in RestrictedPorts
    ensures CleanPath(url.pathname) && lib.decodeComponent(url.pathname).Some?
    ensures url.pathname != [] && url.pathname != "/" ==> CleanPath(lib.decodeComponent(url.pathname).value)
    ensures !Contains(url.href, "%00") && '\0' !in url.href
    ensures CountChar(url.hostname, '.') <= MAX_HOSTNAME_DOTS
  {
    AcceptedPathIsClean(url.pathname, lib.decodeComponent);
  }

  /** What an accepted request URL is known to be: an http or https URL with
      a hostname, no restricted port, a clean path both as written and once
      decoded, no NUL byte, at most five dots in the hostname, and, in
      production, no localhost alias. */
  lemma AcceptedUrlIsSafe(requestUrl: JsValue, allowLocalhost: bool, lib: UrlLib)
    requires UrlVerdict(requestUrl, allowLocalhost, lib).valid
    ensures requestUrl.Str? && lib.parse(NormalizeUrl(Trim(requestUrl.s)).0).Some?
    ensures var url := lib.parse(NormalizeUrl(Trim(requestUrl.s)).0).value;
            && url.protocol in AllowedProtocols
            && (url.port != [] ==> ParseInt(url.port).value !in RestrictedPorts)
            && CleanPath(url.pathname)
            && !Contains(url.href, "%00") && '\0' !in url.href
            && (!allowLocalhost ==> ToLowerCase(url.hostname) !in LocalhostAliases)
  {
    var url := lib.parse(NormalizeUrl(Trim(requestUrl.s)).0).value;
    ParsedUrlIsSafe(url, allowLocalhost, lib);
  }

  // ---------------------------------------------------------------------------
  // Normalisation

  lemma NoColonNoScheme(s: string)
    requires ':' !in s
    ensures !HasScheme(s)
  {
    forall k | 1 <= k <= |s| - 3
      ensures !SchemeEndsAt(s, k)
    {
      assert s[k..k + 3][0] == s[k];
      assert s[k] in s;
    }
  }

  /** Putting "https:" in front of a trimmed text leaves it trimmed. */
  lemma ShortSchemeKeepsTrimmed(t: string)
    requires Trim(t) == t
    ensures Trim("https:" + t) == "https:" + t
  {
    TrimOfPrefixed("https:", t);
  }

  /** Putting "https://" in front of a trimmed text leaves it trimmed. */
  lemma FullSchemeKeepsTrimmed(t: string)
    requires Trim(t) == t
    ensures Trim("https://" + t) == "https://" + t
  {
    TrimOfPrefixed("https://", t);
  }

  /** The normalised URL has no surrounding white space. */
  lemma NormalizedIsTrimmed(url: string)
    ensures Trim(NormalizeUrl(url).0) == NormalizeUrl(url).0
  {
    var trimmed := Trim(url);
    TrimIdempotent(url);
    if !NormalizeUrl(url).1 {
    } else if StartsWith(trimmed, "//") {
      ShortSchemeKeepsTrimmed(trimmed);
    } else {
      FullSchemeKeepsTrimmed(trimmed);
    }
  }

  /** Normalising a normalised URL changes nothing and adds no scheme. */
  lemma NormalizeIdempotent(url: string)
    ensures NormalizeUrl(NormalizeUrl(url).0) == (NormalizeUrl(url).0, false)
  {
    NormalizedIsTrimmed(url);
  }

  lemma DefaultSchemeIsHttps(t: string)
    ensures StartsWith("https://" + t, "https://")
    ensures StartsWith(t, "//") ==> StartsWith("https:" + t, "https://")
  {
    if StartsWith(t, "//") {
      assert t[..2] == "//";
      assert ("https:" + t)[..8] == "https:" + t[..2];
    }
  }

  /** A URL with no colon in it gets "https://" in front, or "https:" when it
      starts with "//". */
  lemma NormalizeAddsHttps(url: string)
    requires ':' !in Trim(url)
    ensures NormalizeUrl(url).1
    ensures StartsWith(NormalizeUrl(url).0, "https://")
  {
    NoColonNoScheme(Trim(url));
    DefaultSchemeIsHttps(Trim(url));
  }

  // ---------------------------------------------------------------------------
  // Path traversal through runs of slashes

  lemma ContainsAfter(c: char, t: string, part: string)
    requires Contains(t, part)
    ensures Contains([c] + t, part)
  {
    var i :| 0 <= i <= |t| - |part| && OccursAt(t, part, i);
    assert ([c] + t)[i + 1..i + 1 + |part|] == t[i..i + |part|];
    assert OccursAt([c] + t, part, i + 1);
  }

  /** Outside a run of two slashes, collapsing keeps the first character. */
  lemma CollapseStep(s: string)
    requires s != [] && !(|s| >= 2 && s[0] == '/' && s[1] == '/')
    ensures CollapseSlashes(s) == [s[0]] + CollapseSlashes(s[1..])
  {
  }

  /** After collapsing, no two slashes are adjacent. */
  lemma {:induction false} CollapseLeavesNoDoubleSlash(s: string)
    ensures !Contains(CollapseSlashes(s), "//")
    decreases |s|
  {
    if |s| >= 2 {
      var t := s[1..];
      CollapseLeavesNoDoubleSlash(t);
      if s[0] == '/' && s[1] == '/' {
        CollapseDoubled(s);
      } else {
        CollapseStep(s);
        var r, rest := CollapseSlashes(s), CollapseSlashes(t);
        forall j | 0 <= j <= |r| - 2
          ensures !OccursAt(r, "//", j)
        {
          if j > 0 {
            assert r[j..j + 2] == rest[j - 1..j + 1];
            assert !OccursAt(rest, "//", j - 1);
          } else {
            assert r[..2] == [s[0], s[1]];
          }
        }
      }
    }
  }

  /** A path that starts with "/../" still does once collapsed. */
  lemma CollapseKeepsLeadingDotDot(s: string)
    requires OccursAt(s, "/../", 0)
    ensures OccursAt(CollapseSlashes(s), "/../", 0)
  {
    assert s[..4] == "/../";
    assert s[0] == '/' && s[1] == '.' && s[2] == '.' && s[3] == '/';
    CollapseStep(s);
    CollapseStep(s[1..]);
    CollapseStep(s[2..]);
    assert s[1..][1..] == s[2..] && s[2..][1..] == s[3..];
    var tail := CollapseSlashes(s[3..]);
    assert tail[0] == '/';
    var collapsed := CollapseSlashes(s);
    assert collapsed == "/.." + tail;
    assert collapsed[..4] == "/../";
  }

  /** A path whose collapsed text starts with "../" starts with "../". */
  lemma LeadingDotDotFromRaw(t: string)
    requires var r := CollapseSlashes(t); |r| >= 3 && r[0] == '.' && r[1] == '.' && r[2] == '/'
    ensures |t| >= 3 && t[0] == '.' && t[1] == '.' && t[2] == '/'
  {
    var r := CollapseSlashes(t);
    CollapseStep(t);
    var r2 := CollapseSlashes(t[1..]);
    assert r2 == r[1..];
    CollapseStep(t[1..]);
    assert t[1..][1..] == t[2..];
    var r3 := CollapseSlashes(t[2..]);
    assert r3 == r2[1..];
    assert r3[0] == '/';
  }

  /** A "/../" in the raw path survives collapsing. */
  lemma {:induction false} DotDotSurvivesCollapse(s: string)
    requires Contains(s, "/../")
    ensures Contains(CollapseSlashes(s), "/../")
    decreases |s|
  {
    var i :| 0 <= i <= |s| - 4 && OccursAt(s, "/../", i);
    if i == 0 {
      CollapseKeepsLeadingDotDot(s);
    } else {
      var t := s[1..];
      assert t[i - 1..i + 3] == s[i..i + 4];
      assert OccursAt(t, "/../", i - 1);
      DotDotSurvivesCollapse(t);
      if !(s[0] == '/' && s[1] == '/') {
        CollapseStep(s);
        ContainsAfter(s[0], CollapseSlashes(t), "/../");
      }
    }
  }

  /** A "/../" in the collapsed path was in the raw path. */
  lemma DotDotComesFromRaw(s: string)
    requires Contains(CollapseSlashes(s), "/../")
    ensures Contains(s, "/../")
  {
    var collapsed := CollapseSlashes(s);
    var j :| 0 <= j <= |collapsed| - 4 && OccursAt(collapsed, "/../", j);
    DotDotSegmentChars(collapsed, j);
    var k := DotDotAtFromRaw(s, j);
    DotDotSegmentFromChars(s, k);
  }

  /** The four characters '/', '.', '.', '/' from index `i` on. */
  predicate DotDotAt(s: string, i: int) {
    0 <= i && i + 4 <= |s| && s[i] == '/' && s[i + 1] == '.' && s[i + 2] == '.' && s[i + 3] == '/'
  }

  /** Where the collapsed path has "/../", the raw path has one too. */
  lemma {:induction false} DotDotAtFromRaw(s: string, j: int) returns (k: int)
    requires DotDotAt(CollapseSlashes(s), j)
    ensures DotDotAt(s, k)
    decreases |s|
  {
    var t := s[1..];
    if s[0] == '/' && s[1] == '/' {
      CollapseDoubled(s);
      var k' := DotDotAtFromRaw(t, j);
      k := k' + 1;
      assert s[k] == t[k'] && s[k + 1] == t[k' + 1] && s[k + 2] == t[k' + 2] && s[k + 3] == t[k' + 3];
    } else if j > 0 {
      CollapseStep(s);
      var collapsed, rest := CollapseSlashes(s), CollapseSlashes(t);
      assert rest[j - 1] == collapsed[j] && rest[j] == collapsed[j + 1];
      assert rest[j + 1] == collapsed[j + 2] && rest[j + 2] == collapsed[j + 3];
      var k' := DotDotAtFromRaw(t, j - 1);
      k := k' + 1;
      assert s[k] == t[k'] && s[k + 1] == t[k' + 1] && s[k + 2] == t[k' + 2] && s[k + 3] == t[k' + 3];
    } else {
      DotDotAtStart(s);
      k := 0;
    }
  }

  /** A collapsed path that starts with "/../" comes from a raw path that does. */
  lemma DotDotAtStart(s: string)
    requires |s| >= 2 && !(s[0] == '/' && s[1] == '/')
    requires DotDotAt(CollapseSlashes(s), 0)
    ensures DotDotAt(s, 0)
  {
    var t := s[1..];
    CollapseStep(s);
    var collapsed, rest := CollapseSlashes(s), CollapseSlashes(t);
    assert rest[0] == collapsed[1] && rest[1] == collapsed[2] && rest[2] == collapsed[3];
    LeadingDotDotFromRaw(t);
    assert s[1] == t[0] && s[2] == t[1] && s[3] == t[2];
  }

  /** "/../" at `i` is the four characters '/', '.', '.', '/' from `i` on. */
  lemma DotDotSegmentChars(s: string, i: int)
    requires OccursAt(s, "/../", i)
    ensures 0 <= i && i + 4 <= |s|
    ensures s[i] == '/' && s[i + 1] == '.' && s[i + 2] == '.' && s[i + 3] == '/'
  {
    var w := s[i..i + 4];
    assert w[0] == s[i] && w[1] == s[i + 1] && w[2] == s[i + 2] && w[3] == s[i + 3];
  }

  lemma DotDotSegmentFromChars(s: string, i: int)
    requires 0 <= i && i + 4 <= |s|
    requires s[i] == '/' && s[i + 1] == '.' && s[i + 2] == '.' && s[i + 3] == '/'
    ensures OccursAt(s, "/../", i)
  {
    var w := s[i..i + 4];
    assert w == "/../" by {
      assert |w| == 4 && w[0] == '/' && w[1] == '.' && w[2] == '.' && w[3] == '/';
    }
  }



  /** The collapsed path contains "/../" exactly when the raw path does. */
  lemma CollapseKeepsDotDotSegment(s: string)
    ensures Contains(CollapseSlashes(s), "/../") <==> Contains(s, "/../")
  {
    if Contains(s, "/../") {
      DotDotSurvivesCollapse(s);
    }
    if Contains(CollapseSlashes(s), "/../") {
      DotDotComesFromRaw(s);
    }
  }

  /** A trailing "/.." in the raw path survives collapsing. */
  lemma {:induction false} TrailingDotDotSurvivesCollapse(s: string)
    requires EndsWith(s, "/..")
    ensures EndsWith(CollapseSlashes(s), "/..")
    decreases |s|
  {
    var t := s[1..];
    if |s| == 3 {
      assert s == "/..";
      CollapseStep(s);
      CollapseStep(t);
      assert t[1..] == ".";
      assert CollapseSlashes(s) == "/..";
    } else {
      assert t[|t| - 3..] == s[|s| - 3..];
      TrailingDotDotSurvivesCollapse(t);
      var rest := CollapseSlashes(t);
      if !(s[0] == '/' && s[1] == '/') {
        CollapseStep(s);
        var collapsed := CollapseSlashes(s);
        assert collapsed[|collapsed| - 3..] == rest[|rest| - 3..];
      }
    }
  }

  /** A path that collapses to ".." is "..". */
  lemma CollapsedToDotDot(t: string)
    requires CollapseSlashes(t) == ".."
    ensures t == ".."
  {
    assert t[0] == '.';
    CollapseStep(t);
    var r2 := CollapseSlashes(t[1..]);
    assert r2 == CollapseSlashes(t)[1..];
    CollapseStep(t[1..]);
    assert t[1..][1..] == t[2..];
    assert CollapseSlashes(t[2..]) == [];
    assert t[2..] == [];
  }

  /** A trailing "/.." in the collapsed path was in the raw path. */
  lemma {:induction false} TrailingDotDotComesFromRaw(s: string)
    requires EndsWith(CollapseSlashes(s), "/..")
    ensures EndsWith(s, "/..")
    decreases |s|, 1
  {
    if s[0] == '/' && s[1] == '/' {
      TrailingDotDotPastDoubled(s);
    } else {
      TrailingDotDotPastFirst(s);
    }
  }

  lemma TrailingDotDotPastDoubled(s: string)
    requires |s| >= 2 && s[0] == '/' && s[1] == '/'
    requires EndsWith(CollapseSlashes(s), "/..")
    ensures EndsWith(s, "/..")
    decreases |s|, 0
  {
    CollapseDoubled(s);
    TrailingDotDotComesFromRaw(s[1..]);
    EndsWithOfTail(s, "/..");
  }

  lemma TrailingDotDotPastFirst(s: string)
    requires |s| >= 2 && !(s[0] == '/' && s[1] == '/')
    requires EndsWith(CollapseSlashes(s), "/..")
    ensures EndsWith(s, "/..")
    decreases |s|, 0
  {
    if |CollapseSlashes(s[1..])| >= 3 {
      CollapseStep(s);
      EndsWithDropFirst(s[0], CollapseSlashes(s[1..]), "/..");
      TrailingDotDotComesFromRaw(s[1..]);
      EndsWithOfTail(s, "/..");
    } else {
      ShortTrailingDotDot(s);
    }
  }

  /** A run of two slashes collapses into the rest of the path. */
  lemma CollapseDoubled(s: string)
    requires |s| >= 2 && s[0] == '/' && s[1] == '/'
    ensures CollapseSlashes(s) == CollapseSlashes(s[1..])
  {
  }

  lemma EndsWithOfTail(s: string, suffix: string)
    requires s != [] && EndsWith(s[1..], suffix)
    ensures EndsWith(s, suffix)
  {
    assert s[|s| - |suffix|..] == s[1..][|s| - 1 - |suffix|..];
  }

  lemma EndsWithDropFirst(c: char, t: string, suffix: string)
    requires EndsWith([c] + t, suffix) && |suffix| <= |t|
    ensures EndsWith(t, suffix)
  {
    assert ([c] + t)[|t| + 1 - |suffix|..] == t[|t| - |suffix|..];
  }

  /** When the collapsed path is "/.." plus nothing left of the rest, the
      raw path was "/..". */
  lemma ShortTrailingDotDot(s: string)
    requires |s| >= 2 && !(s[0] == '/' && s[1] == '/')
    requires EndsWith(CollapseSlashes(s), "/..") && |CollapseSlashes(s[1..])| < 3
    ensures s == "/.."
  {
    var t := s[1..];
    CollapseStep(s);
    var collapsed, rest := CollapseSlashes(s), CollapseSlashes(t);
    assert |collapsed| == 3 && collapsed == "/..";
    assert s[0] == '/' && rest == collapsed[1..];
    CollapsedToDotDot(t);
    assert s == [s[0]] + t;
  }

  /** The collapsed path ends with "/.." exactly when the raw path does. */
  lemma CollapseKeepsTrailingDotDot(s: string)
    ensures EndsWith(CollapseSlashes(s), "/..") <==> EndsWith(s, "/..")
  {
    if EndsWith(s, "/..") {
      TrailingDotDotSurvivesCollapse(s);
    }
    if EndsWith(CollapseSlashes(s), "/..") {
      TrailingDotDotComesFromRaw(s);
    }
  }

  /** The traversal message is given exactly for a path with a ".." segment
      in the middle or at the end, however many slashes surround it. */
  lemma TraversalReportedIff(pathname: string, decode: string -> Option<string>)
    ensures PathVerdict(pathname, decode) == Returned(Fail(TraversalMessage))
            <==> pathname != [] && pathname != "/" && (Contains(pathname, "/../") || EndsWith(pathname, "/.."))
  {
    CollapseKeepsDotDotSegment(pathname);
    CollapseKeepsTrailingDotDot(pathname);
  }

  // ---------------------------------------------------------------------------
  // Port

  /** A port written as a decimal number is accepted exactly when the
      number is in range and not restricted; a restricted one is named. */
  lemma PortNumberVerdict(n: nat)
    ensures ValidatePort(NatToString(n)).valid <==> PortNumberAllowed(n)
    ensures 1 <= n && n in RestrictedPorts
            ==> ValidatePort(NatToString(n)).meta.message == "Port " + NatToString(n) + " is restricted"
  {
    ParseIntRoundTrip(n);
  }

  /** Port 0 is listed as restricted, but the range check rejects it first,
      so no port is ever reported as "Port 0 is restricted". */
  lemma PortZeroNeverReportedRestricted(port: string)
    ensures ValidatePort(port).meta.message != "Port 0 is restricted"
  {
    if port != [] && ParseInt(port).Some? {
      var n := ParseInt(port).value;
      if 1 <= n <= 65535 && n in RestrictedPorts {
        RestrictedMessageNotZero(n);
      }
    }
  }

  /** The restriction message for a positive port never names port 0. */
  lemma RestrictedMessageNotZero(n: int)
    requires n >= 1
    ensures "Port " + IntToString(n) + " is restricted" != "Port 0 is restricted"
  {
    var text := IntToString(n);
    assert text == NatToString(n);
    assert text != "0";
    var message := "Port " + text + " is restricted";
    assert message[5..|message| - 14] == text;
    var zero := "Port 0 is restricted";
    assert zero[5..|zero| - 14] == "0";
  }

  // ---------------------------------------------------------------------------
  // Hostname

  /** A hostname with no dot that is not a bracketed IPv6 literal fails the
      format check, so it is refused whatever `allowLocalhost` says. */
  lemma SingleLabelHostnameRejected(hostname: string, allowLocalhost: bool)
    requires '.' !in hostname && !IsIPv6Literal(hostname)
    ensures !HostnameFormatOk(hostname)
    ensures !HostnameVerdict(hostname, allowLocalhost).valid
  {
    SplitWithoutSeparator(hostname, '.');
  }

  lemma LocalhostFacts(hostname: string)
    requires hostname == "localhost"
    ensures ToLowerCase(hostname) == hostname
    ensures !HasRestrictedSuffix(hostname)
    ensures !IsIPv6Literal(hostname) && '.' !in hostname
  {
    LocalhostSpelling(hostname);
    DotlessHostnameHasNoRestrictedSuffix(hostname);
  }

  lemma LocalhostSpelling(hostname: string)
    requires hostname == "localhost"
    ensures ToLowerCase(hostname) == hostname
    ensures !IsIPv6Literal(hostname) && '.' !in hostname
  {
    ToLowerCaseOfLowerAscii(hostname);
  }

  /** Every restricted suffix starts with a dot, so a hostname whose lower
      case has no dot has none of them. */
  lemma DotlessHostnameHasNoRestrictedSuffix(hostname: string)
    requires '.' !in ToLowerCase(hostname)
    ensures !HasRestrictedSuffix(hostname)
  {
    var lower := ToLowerCase(hostname);
    forall suffix | suffix in RestrictedSuffixes
      ensures !EndsWith(lower, suffix)
    {
      assert suffix[0] == '.';
      if |suffix| <= |lower| {
        assert lower[|lower| - |suffix|] != '.';
        assert lower[|lower| - |suffix|..][0] != suffix[0];
      }
    }
  }

  /** So "localhost" is refused even where localhost is allowed. */
  lemma LocalhostRejectedWhenAllowed(hostname: string)
    requires hostname == "localhost"
    ensures HostnameVerdict(hostname, true) == Fail("Invalid hostname format")
  {
    LocalhostFacts(hostname);
    SingleLabelHostnameRejected(hostname, true);
  }

  lemma LoopbackFacts(hostname: string)
    requires hostname == "127.0.0.1"
    ensures ToLowerCase(hostname) == hostname
    ensures !HasRestrictedSuffix(hostname)
  {
    ToLowerCaseOfLowerAscii(hostname);
    RestrictedSuffixEndsInLetter(hostname);
  }

  lemma LoopbackRejectedInProduction(hostname: string)
    requires hostname == "127.0.0.1"
    ensures HostnameVerdict(hostname, false) == Fail("Localhost URLs are not allowed in production")
  {
    LoopbackFacts(hostname);
    assert hostname == LocalhostAliases[1];
  }

  /** Every restricted suffix ends in a lower-case letter, so a hostname
      whose lower case ends otherwise (in a digit, say) has none of them. */
  lemma RestrictedSuffixEndsInLetter(hostname: string)
    ensures HasRestrictedSuffix(hostname) ==>
              var lower := ToLowerCase(hostname); lower != [] && 'a' <= lower[|lower| - 1] <= 'z'
  {
    if HasRestrictedSuffix(hostname) {
      var lower := ToLowerCase(hostname);
      var suffix :| suffix in RestrictedSuffixes && EndsWith(lower, suffix);
      SuffixesEndInLetter(suffix);
      assert lower[|lower| - |suffix|..][|suffix| - 1] == suffix[|suffix| - 1];
    }
  }

  lemma SuffixesEndInLetter(suffix: string)
    requires suffix in RestrictedSuffixes
    ensures suffix != [] && 'a' <= suffix[|suffix| - 1] <= 'z'
  {
  }

  lemma PrivateAddressFacts(hostname: string)
    requires hostname == "192.168.1.1"
    ensures ToLowerCase(hostname) == hostname
    ensures !HasRestrictedSuffix(hostname)
    ensures hostname !in LocalhostAliases
  {
    ToLowerCaseOfLowerAscii(hostname);
    RestrictedSuffixEndsInLetter(hostname);
  }

  lemma PrivateAddressGroups(hostname: string)
    requires hostname == "192.168.1.1"
    ensures Split(hostname, '.') == ["192", "168", "1", "1"]
  {
    var groups := ["192", "168", "1", "1"];
    assert Join(groups, ".") == hostname;
    SplitJoin(groups, '.');
  }

  /** A hostname made of the groups 192, 168, 1, 1 is a private address of
      valid format. */
  lemma PrivateGroupsWellFormed(hostname: string)
    requires Split(hostname, '.') == ["192", "168", "1", "1"]
    ensures IsPrivateIPv4(hostname) && HostnameFormatOk(hostname)
  {
    assert DigitsValue("192") == 192 && DigitsValue("168") == 168 && DigitsValue("1") == 1;
  }

  /** A private address is refused in production ... */
  lemma PrivateAddressRejectedInProduction(hostname: string)
    requires hostname == "192.168.1.1"
    ensures HostnameVerdict(hostname, false) == Fail("Private/internal IP addresses are not allowed")
  {
    PrivateAddressFacts(hostname);
    PrivateAddressGroups(hostname);
    PrivateGroupsWellFormed(hostname);
  }

  /** ... and accepted where localhost is allowed. */
  lemma PrivateAddressAcceptedWhenAllowed(hostname: string)
    requires hostname == "192.168.1.1"
    ensures HostnameVerdict(hostname, true) == Pass("")
  {
    PrivateAddressFacts(hostname);
    PrivateAddressGroups(hostname);
    PrivateGroupsWellFormed(hostname);
  }

  lemma RestrictedSuffixExample(hostname: string)
    requires hostname == "printer.local"
    ensures HostnameVerdict(hostname, false) == Fail("URL contains restricted domain suffix")
  {
    ToLowerCaseOfLowerAscii(hostname);
    var suffix := RestrictedSuffixes[0];
    assert EndsWith(hostname, suffix);
  }

  /** A bracketed IPv6 literal has no dot, is no localhost alias and no
      private IPv4 address, so production accepts it whatever address it
      names. */
  lemma IPv6LiteralAcceptedInProduction(hostname: string)
    requires IsIPv6Literal(hostname) && ToLowerCase(hostname) == hostname
    ensures HostnameVerdict(hostname, false).valid
  {
    assert '.' !in hostname by {
      forall i | 0 <= i < |hostname| ensures hostname[i] != '.' {
        if 1 <= i < |hostname| - 1 {
          assert IsHexDigit(hostname[i]) || hostname[i] == ':';
        }
      }
    }
    DotlessHostnameHasNoRestrictedSuffix(hostname);
    assert hostname !in LocalhostAliases by {
      assert hostname[0] == '[';
    }
    SplitWithoutSeparator(hostname, '.');
  }

  /** The WHATWG parser writes the IPv6 loopback host as "[::1]", which never
      equals the "::1" alias, so it passes the hostname checks in production. */
  lemma BracketedLoopbackAcceptedInProduction(hostname: string)
    requires hostname == "[::1]"
    ensures HostnameVerdict(hostname, false).valid
  {
    ToLowerCaseOfLowerAscii(hostname);
    IPv6LiteralAcceptedInProduction(hostname);
  }

  // ---------------------------------------------------------------------------
  // Private ranges

  /** A group `w` followed by a dot starts the hostname, so it is the first
      of the dot-separated groups. */
  lemma SplitAtPrefix(hostname: string, w: string)
    requires '.' !in w && StartsWith(hostname, w + ".")
    ensures Split(hostname, '.') == [w] + Split(hostname[|w| + 1..], '.')
  {
    assert hostname == w + ['.'] + hostname[|w| + 1..];
    SplitAfterWord(w, '.', hostname[|w| + 1..]);
  }

  /** Every private address is a dotted quad starting with one of the five
      range prefixes. */
  lemma PrivateAddressPrefixes(hostname: string)
    ensures IsPrivateIPv4(hostname) ==> IsIPv4Shape(hostname)
    ensures IsPrivateIPv4(hostname) ==>
              || StartsWith(hostname, "10.") || StartsWith(hostname, "172.") || StartsWith(hostname, "192.168.")
              || StartsWith(hostname, "169.254.") || StartsWith(hostname, "127.")
  {
    if IsPrivateIPv4(hostname) {
      var g := Split(hostname, '.');
      var rest := Join(g[2..], ".");
      assert Join(g[1..], ".") == g[1] + "." + rest;
      assert hostname == g[0] + "." + (g[1] + "." + rest);
      assert hostname[..|g[0]| + 1] == g[0] + ".";
      assert hostname[..|g[0]| + |g[1]| + 2] == g[0] + "." + g[1] + ".";
    }
  }

  /** A dotted quad starting with 10., 192.168., 169.254. or 127. is a
      private address. */
  lemma PrivatePrefixesArePrivate(hostname: string)
    requires IsIPv4Shape(hostname)
    ensures StartsWith(hostname, "10.") || StartsWith(hostname, "127.") ==> IsPrivateIPv4(hostname)
    ensures StartsWith(hostname, "192.168.") || StartsWith(hostname, "169.254.") ==> IsPrivateIPv4(hostname)
  {
    if StartsWith(hostname, "10.") {
      SplitAtPrefix(hostname, "10");
    } else if StartsWith(hostname, "127.") {
      SplitAtPrefix(hostname, "127");
    } else if StartsWith(hostname, "192.168.") {
      TwoGroupPrefix(hostname, "192", "168");
    } else if StartsWith(hostname, "169.254.") {
      TwoGroupPrefix(hostname, "169", "254");
    }
  }

  lemma TwoGroupPrefix(hostname: string, a: string, b: string)
    requires '.' !in a && '.' !in b && StartsWith(hostname, a + "." + b + ".")
    ensures var g := Split(hostname, '.'); |g| >= 2 && g[0] == a && g[1] == b
  {
    var prefix := a + "." + b + ".";
    assert hostname[..|a| + 1] == prefix[..|a| + 1] == a + ".";
    SplitAtPrefix(hostname, a);
    var tail := hostname[|a| + 1..];
    assert tail[..|b| + 1] == prefix[|a| + 1..] == b + ".";
    SplitAtPrefix(tail, b);
  }

  // ---------------------------------------------------------------------------
  // The scheme test

  /** A URL with a scheme starts with a letter and contains "://". */
  lemma SchemeShape(s: string)
    ensures HasScheme(s) ==> IsAsciiLetter(s[0]) && Contains(s, "://")
  {
    if HasScheme(s) {
      var k :| 1 <= k <= |s| - 3 && SchemeEndsAt(s, k);
      assert OccursAt(s, "://", k);
    }
  }

  /** "http://" and "https://" are schemes; a protocol-relative "//" is not. */
  lemma HttpSchemesRecognised(t: string)
    ensures HasScheme("http://" + t) && HasScheme("https://" + t)
    ensures !HasScheme("//" + t)
  {
    assert SchemeEndsAt("http://" + t, 4);
    assert SchemeEndsAt("https://" + t, 5);
  }

  // ---------------------------------------------------------------------------
  // quickValidate

  /** `quickValidate` skips the port, path, query and security stages: a URL
      on a restricted port passes it but not the full validator. */
  lemma QuickValidateSkipsLaterStages(url: string, lib: UrlLib)
    requires lib.parse(url) == Some(UrlParts("https:", "example.com", "25", "/", "", "", "https://example.com:25/"))
    ensures QuickValidate(url, lib)
    ensures !ParsedAcceptable(lib.parse(url).value, true, lib)
  {
    ParseIntOfDigits("25");
    assert DigitsValue("25") == 25;
    assert 25 in RestrictedPorts;
  }
}
