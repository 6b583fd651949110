/**
 * The JavaScript string primitives that the validators and the forwarder rely on:
 * `trim`, `toLowerCase`/`toUpperCase`, `startsWith`/`endsWith`/`includes`,
 * `split`/`join`, `parseInt(_, 10)`, template rendering of numbers, the UTF-16
 * `length` of a string and its UTF-8 byte length (`Buffer.byteLength`).
 *
 * Dafny strings are sequences of Unicode scalar values, so a JavaScript string
 * holding a lone surrogate has no counterpart here.
 */
module JsStrings {
  import opened Base

  // ---------------------------------------------------------------------------
  // Character classes

  /** ECMAScript WhiteSpace and LineTerminator: what `trim()` strips and what
      `parseInt` skips before the digits. */
  predicate IsWhiteSpace(c: char) {
    c == '\t' || c == '\n' || c == '\U{B}' || c == '\U{C}' || c == '\r' || c == ' '
    || c == '\U{A0}' || c == '\U{1680}' || ('\U{2000}' <= c <= '\U{200A}')
    || c == '\U{2028}' || c == '\U{2029}' || c == '\U{202F}' || c == '\U{205F}'
    || c == '\U{3000}' || c == '\U{FEFF}'
  }

  /** `\d` of a non-unicode regular expression. */
  predicate IsDigit(c: char) { '0' <= c <= '9' }

  predicate IsAsciiLetter(c: char) { 'a' <= c <= 'z' || 'A' <= c <= 'Z' }

  predicate IsAsciiAlnum(c: char) { IsAsciiLetter(c) || IsDigit(c) }

  /** `[0-9a-f]` under the `i` flag. */
  predicate IsHexDigit(c: char) { IsDigit(c) || 'a' <= c <= 'f' || 'A' <= c <= 'F' }

  predicate AllDigits(s: string) { forall i :: 0 <= i < |s| ==> IsDigit(s[i]) }

  // ---------------------------------------------------------------------------
  // Substring tests

  /** `s.startsWith(prefix)`, and a regular expression anchored with `^`. */
  predicate StartsWith(s: string, prefix: string) {
    |prefix| <= |s| && s[..|prefix|] == prefix
  }

  /** `s.endsWith(suffix)`, and a regular expression anchored with `$`. */
  predicate EndsWith(s: string, suffix: string) {
    |suffix| <= |s| && s[|s| - |suffix|..] == suffix
  }

  /** `part` occurs in `s` starting at index `i`. */
  predicate OccursAt(s: string, part: string, i: int) {
    0 <= i <= |s| - |part| && s[i..i + |part|] == part
  }

  /** `s.includes(part)`, and an unanchored regular expression for a fixed word. */
  predicate Contains(s: string, part: string) {
    exists i | 0 <= i <= |s| - |part| :: OccursAt(s, part, i)
  }

  // ---------------------------------------------------------------------------
  // trim()

  function TrimStart(s: string): (r: string)
    ensures |r| <= |s|
    ensures r != [] ==> !IsWhiteSpace(r[0])
  {
    if s != [] && IsWhiteSpace(s[0]) then TrimStart(s[1..]) else s
  }

  function TrimEnd(s: string): (r: string)
    ensures |r| <= |s|
    ensures r != [] ==> !IsWhiteSpace(r[|r| - 1])
  {
    if s != [] && IsWhiteSpace(s[|s| - 1]) then TrimEnd(s[..|s| - 1]) else s
  }

  /** `TrimStart` keeps a suffix of `s`. */
  lemma {:induction false} TrimStartIsSuffix(s: string)
    ensures TrimStart(s) == s[|s| - |TrimStart(s)|..]
  {
    if s != [] && IsWhiteSpace(s[0]) {
      TrimStartIsSuffix(s[1..]);
      assert s[1..][|s| - 1 - |TrimStart(s)|..] == s[|s| - |TrimStart(s)|..];
    }
  }

  /** `TrimEnd` keeps a prefix of `s`. */
  lemma {:induction false} TrimEndIsPrefix(s: string)
    ensures TrimEnd(s) == s[..|TrimEnd(s)|]
  {
    if s != [] && IsWhiteSpace(s[|s| - 1]) {
      TrimEndIsPrefix(s[..|s| - 1]);
      assert s[..|s| - 1][..|TrimEnd(s)|] == s[..|TrimEnd(s)|];
    }
  }

  /** What `TrimStart` drops is white space. */
  lemma {:induction false} TrimStartDropsWhiteSpace(s: string)
    ensures forall i :: 0 <= i < |s| - |TrimStart(s)| ==> IsWhiteSpace(s[i])
  {
    if s != [] && IsWhiteSpace(s[0]) {
      TrimStartDropsWhiteSpace(s[1..]);
      forall i | 1 <= i < |s| - |TrimStart(s)|
        ensures IsWhiteSpace(s[i])
      {
        assert s[i] == s[1..][i - 1];
      }
    }
  }

  /** What `TrimEnd` drops is white space. */
  lemma {:induction false} TrimEndDropsWhiteSpace(s: string)
    ensures forall i :: |TrimEnd(s)| <= i < |s| ==> IsWhiteSpace(s[i])
  {
    if s != [] && IsWhiteSpace(s[|s| - 1]) {
      var init := s[..|s| - 1];
      TrimEndDropsWhiteSpace(init);
      forall i | |TrimEnd(s)| <= i < |s| - 1
        ensures IsWhiteSpace(s[i])
      {
        assert s[i] == init[i];
      }
    }
  }

  /** `r` is the slice of `s` at `k`, with only white space around it. */
  predicate Surrounded(s: string, r: string, k: int) {
    0 <= k <= |s| - |r| && r == s[k..k + |r|]
    && (forall i :: 0 <= i < k ==> IsWhiteSpace(s[i]))
    && (forall i :: k + |r| <= i < |s| ==> IsWhiteSpace(s[i]))
  }

  /** `String.prototype.trim`: the middle of `s` between two runs of white space. */
  function Trim(s: string): (r: string)
    ensures exists k :: Surrounded(s, r, k)
    ensures r != [] ==> !IsWhiteSpace(r[0]) && !IsWhiteSpace(r[|r| - 1])
  {
    TrimEndOfTrimStart(s);
    var r := TrimEnd(TrimStart(s));
    assert Surrounded(s, r, |s| - |TrimStart(s)|);
    r
  }

  /** Trimming the end after the start leaves the middle of `s`. */
  lemma TrimEndOfTrimStart(s: string)
    ensures Surrounded(s, TrimEnd(TrimStart(s)), |s| - |TrimStart(s)|)
    ensures var r := TrimEnd(TrimStart(s)); r != [] ==> !IsWhiteSpace(r[0]) && !IsWhiteSpace(r[|r| - 1])
  {
    TrimmedMiddle(s);
    TrimmedEnds(TrimStart(s));
  }

  lemma TrimmedMiddle(s: string)
    ensures Surrounded(s, TrimEnd(TrimStart(s)), |s| - |TrimStart(s)|)
  {
    var t := TrimStart(s);
    TrimStartIsSuffix(s);
    TrimEndIsPrefix(t);
    TrimStartDropsWhiteSpace(s);
    TrimEndDropsWhiteSpace(t);
    SurroundedBySuffix(s, t, TrimEnd(t), |s| - |t|);
  }

  lemma TrimmedEnds(t: string)
    requires t != [] ==> !IsWhiteSpace(t[0])
    ensures var r := TrimEnd(t); r != [] ==> !IsWhiteSpace(r[0]) && !IsWhiteSpace(r[|r| - 1])
  {
    TrimEndIsPrefix(t);
    if TrimEnd(t) != [] {
      assert TrimEnd(t)[0] == t[0];
    }
  }

  /** A prefix `r` of the suffix `t` of `s` at `k`, with white space before
      `k` and after `r` in `t`, is surrounded by white space in `s`. */
  lemma SurroundedBySuffix(s: string, t: string, r: string, k: int)
    requires 0 <= k <= |s| && t == s[k..] && |r| <= |t| && r == t[..|r|]
    requires forall i :: 0 <= i < k ==> IsWhiteSpace(s[i])
    requires forall i :: |r| <= i < |t| ==> IsWhiteSpace(t[i])
    ensures Surrounded(s, r, k)
  {
    assert r == s[k..k + |r|];
    forall i | k + |r| <= i < |s|
      ensures IsWhiteSpace(s[i])
    {
      assert s[i] == t[i - k];
    }
  }

  lemma {:induction false} BlankTrimsStartToEmpty(s: string)
    requires forall i :: 0 <= i < |s| ==> IsWhiteSpace(s[i])
    ensures TrimStart(s) == []
  {
    if s != [] {
      BlankTrimsStartToEmpty(s[1..]);
    }
  }

  lemma EmptyTrimIsBlank(s: string)
    requires Trim(s) == []
    ensures forall i :: 0 <= i < |s| ==> IsWhiteSpace(s[i])
  {
    var t := TrimStart(s);
    assert TrimEnd(t) == [];
    TrimEndDropsWhiteSpace(t);
    assert t == [];
    TrimStartDropsWhiteSpace(s);
  }

  /** A string is blank after trimming exactly when it is all white space. */
  lemma TrimEmptyIffBlank(s: string)
    ensures Trim(s) == [] <==> forall i :: 0 <= i < |s| ==> IsWhiteSpace(s[i])
  {
    if Trim(s) == [] {
      EmptyTrimIsBlank(s);
    }
    if forall i :: 0 <= i < |s| ==> IsWhiteSpace(s[i]) {
      BlankTrimsStartToEmpty(s);
    }
  }

  /** Trimming a trimmed string changes nothing. */
  lemma TrimIdempotent(s: string)
    ensures Trim(Trim(s)) == Trim(s)
  {
    var r := Trim(s);
    assert TrimStart(r) == r;
    assert TrimEnd(r) == r;
  }

  /** Leading white space is all `TrimStart` removes. */
  lemma {:induction false} TrimStartOfPadded(w: string, t: string)
    requires forall i :: 0 <= i < |w| ==> IsWhiteSpace(w[i])
    requires t != [] ==> !IsWhiteSpace(t[0])
    ensures TrimStart(w + t) == t
  {
    if w != [] {
      assert (w + t)[1..] == w[1..] + t;
      TrimStartOfPadded(w[1..], t);
    } else {
      assert w + t == t;
    }
  }

  /** Trailing white space is all `TrimEnd` removes. */
  lemma {:induction false} TrimEndOfPadded(t: string, w: string)
    requires forall i :: 0 <= i < |w| ==> IsWhiteSpace(w[i])
    requires t != [] ==> !IsWhiteSpace(t[|t| - 1])
    ensures TrimEnd(t + w) == t
  {
    if w != [] {
      assert (t + w)[..|t + w| - 1] == t + w[..|w| - 1];
      TrimEndOfPadded(t, w[..|w| - 1]);
    } else {
      assert t + w == t;
    }
  }

  /** Trimming a word padded with white space on both sides gives the word. */
  lemma TrimOfPadded(before: string, word: string, after: string)
    requires forall i :: 0 <= i < |before| ==> IsWhiteSpace(before[i])
    requires forall i :: 0 <= i < |after| ==> IsWhiteSpace(after[i])
    requires word != [] && !IsWhiteSpace(word[0]) && !IsWhiteSpace(word[|word| - 1])
    ensures Trim(before + word + after) == word
  {
    assert before + word + after == before + (word + after);
    TrimStartOfPadded(before, word + after);
    TrimEndOfPadded(word, after);
  }

  /** A word with no white space at either end is already trimmed. */
  lemma TrimOfWord(word: string)
    requires word != [] && !IsWhiteSpace(word[0]) && !IsWhiteSpace(word[|word| - 1])
    ensures Trim(word) == word
  {
    TrimOfPadded([], word, []);
    assert [] + word + [] == word;
  }

  /** Prefixing a trimmed string with a word that starts with a non-blank
      character leaves it trimmed. */
  lemma {:induction false} TrimOfPrefixed(p: string, t: string)
    requires p != [] && !IsWhiteSpace(p[0])
    requires t == [] ==> !IsWhiteSpace(p[|p| - 1])
    requires Trim(t) == t
    ensures Trim(p + t) == p + t
  {
    var s := p + t;
    assert TrimStart(s) == s;
    if t != [] {
      assert s[|s| - 1] == t[|t| - 1];
    }
    assert TrimEnd(s) == s;
  }

  // ---------------------------------------------------------------------------
  // Case mapping

  /** `toLowerCase` of one code point, exact for every code point whose lower
      case contains an ASCII letter; every other code point is kept, which
      decides equality, prefix, suffix and substring tests against ASCII words
      the same way as the full Unicode mapping. */
  function LowerOf(c: char): string {
    if 'A' <= c <= 'Z' then [(c as int + 32) as char]
    else if c == '\U{212A}' then "k"            // KELVIN SIGN
    else if c == '\U{130}' then "i\U{307}"      // CAPITAL I WITH DOT ABOVE
    else [c]
  }

  /** `String.prototype.toLowerCase`, as far as `LowerOf` reaches. */
  function ToLowerCase(s: string): (r: string)
    ensures |r| >= |s|
  {
    if s == [] then [] else LowerOf(s[0]) + ToLowerCase(s[1..])
  }

  /** Lower-casing works code point by code point. */
  lemma {:induction false} ToLowerCaseAppend(a: string, b: string)
    ensures ToLowerCase(a + b) == ToLowerCase(a) + ToLowerCase(b)
  {
    if a != [] {
      assert (a + b)[1..] == a[1..] + b;
      ToLowerCaseAppend(a[1..], b);
      calc {
        ToLowerCase(a + b);
        LowerOf(a[0]) + ToLowerCase(a[1..] + b);
        LowerOf(a[0]) + (ToLowerCase(a[1..]) + ToLowerCase(b));
        (LowerOf(a[0]) + ToLowerCase(a[1..])) + ToLowerCase(b);
      }
    } else {
      assert a + b == b;
    }
  }

  /** ASCII text without capitals is its own lower case. */
  lemma ToLowerCaseOfLowerAscii(s: string)
    requires forall i :: 0 <= i < |s| ==> s[i] as int < 128 && !('A' <= s[i] <= 'Z')
    ensures ToLowerCase(s) == s
  {
    forall i | 0 <= i < |s| ensures LowerOf(s[i]) == [s[i]] {
      LowerOfLowerAscii(s[i]);
    }
    ToLowerCaseUnchanged(s);
  }

  lemma LowerOfLowerAscii(c: char)
    requires c as int < 128 && !('A' <= c <= 'Z')
    ensures LowerOf(c) == [c]
  {
  }

  /** A string with no character that `toLowerCase` changes is its own lower case. */
  lemma {:induction false} ToLowerCaseUnchanged(s: string)
    requires forall i :: 0 <= i < |s| ==> LowerOf(s[i]) == [s[i]]
    ensures ToLowerCase(s) == s
  {
    if s != [] {
      ToLowerCaseUnchanged(s[1..]);
      assert s == [s[0]] + s[1..];
    }
  }

  /** `toUpperCase` of one code point, exact for every code point whose upper
      case consists of ASCII letters only (the ASCII letters, dotless i, long s,
      sharp s and the Latin ligatures); every other code point is kept, which
      decides membership in a list of ASCII words the same way. */
  function UpperOf(c: char): string {
    if 'a' <= c <= 'z' then [(c as int - 32) as char]
    else if c == '\U{131}' then "I"             // DOTLESS I
    else if c == '\U{17F}' then "S"             // LONG S
    else if c == '\U{DF}' then "SS"             // SHARP S
    else if c == '\U{FB00}' then "FF"
    else if c == '\U{FB01}' then "FI"
    else if c == '\U{FB02}' then "FL"
    else if c == '\U{FB03}' then "FFI"
    else if c == '\U{FB04}' then "FFL"
    else if c == '\U{FB05}' || c == '\U{FB06}' then "ST"
    else [c]
  }

  /** `String.prototype.toUpperCase`, as far as `UpperOf` reaches. */
  function ToUpperCase(s: string): (r: string)
    ensures |r| >= |s|
  {
    if s == [] then [] else UpperOf(s[0]) + ToUpperCase(s[1..])
  }

  /** Upper-casing works code point by code point. */
  lemma {:induction false} ToUpperCaseAppend(a: string, b: string)
    ensures ToUpperCase(a + b) == ToUpperCase(a) + ToUpperCase(b)
  {
    if a != [] {
      assert (a + b)[1..] == a[1..] + b;
      ToUpperCaseAppend(a[1..], b);
      calc {
        ToUpperCase(a + b);
        UpperOf(a[0]) + ToUpperCase(a[1..] + b);
        UpperOf(a[0]) + (ToUpperCase(a[1..]) + ToUpperCase(b));
        (UpperOf(a[0]) + ToUpperCase(a[1..])) + ToUpperCase(b);
      }
    } else {
      assert a + b == b;
    }
  }

  predicate AllAsciiLetters(s: string) { forall i :: 0 <= i < |s| ==> IsAsciiLetter(s[i]) }

  /** Upper-casing ASCII letters gives upper-case ASCII letters, one for one,
      and upper-casing again changes nothing. */
  lemma {:induction false} UpperCaseOfLetters(s: string)
    requires AllAsciiLetters(s)
    ensures |ToUpperCase(s)| == |s|
    ensures forall i :: 0 <= i < |s| ==> 'A' <= ToUpperCase(s)[i] <= 'Z'
    ensures forall i :: 0 <= i < |s| ==> ToUpperCase(s)[i] == s[i] || ToUpperCase(s)[i] as int == s[i] as int - 32
    ensures ToUpperCase(ToUpperCase(s)) == ToUpperCase(s)
  {
    if s != [] {
      UpperCaseOfLetters(s[1..]);
      UpperOfLetter(s[0]);
      var u := ToUpperCase(s);
      var rest := ToUpperCase(s[1..]);
      assert u == UpperOf(s[0]) + rest;
      assert u[1..] == rest;
      forall i | 0 <= i < |s|
        ensures 'A' <= u[i] <= 'Z'
        ensures u[i] == s[i] || u[i] as int == s[i] as int - 32
      {
        if i > 0 {
          assert u[i] == rest[i - 1] && s[i] == s[1..][i - 1];
        }
      }
      assert ToUpperCase(u) == UpperOf(u[0]) + ToUpperCase(rest);
    }
  }

  /** An ASCII letter upper-cases to one upper-case letter, which upper-cases
      to itself. */
  lemma UpperOfLetter(c: char)
    requires IsAsciiLetter(c)
    ensures |UpperOf(c)| == 1 && 'A' <= UpperOf(c)[0] <= 'Z'
    ensures UpperOf(c)[0] == c || UpperOf(c)[0] as int == c as int - 32
    ensures UpperOf(UpperOf(c)[0]) == UpperOf(c)
  {
  }

  /** Upper-casing lower-case ASCII letters shifts each down by 32. */
  lemma UpperCaseOfLowerLetters(s: string, upper: string)
    requires |s| == |upper|
    requires forall i :: 0 <= i < |s| ==> 'a' <= s[i] <= 'z' && upper[i] as int == s[i] as int - 32
    ensures ToUpperCase(s) == upper
  {
    forall i | 0 <= i < |s| ensures UpperOf(s[i]) == [upper[i]] {
      assert (s[i] as int - 32) as char == upper[i];
    }
    ToUpperCaseCharwise(s, upper);
  }

  /** When every character upper-cases to one character, the upper case is
      read off character by character. */
  lemma {:induction false} ToUpperCaseCharwise(s: string, upper: string)
    requires |s| == |upper|
    requires forall i :: 0 <= i < |s| ==> UpperOf(s[i]) == [upper[i]]
    ensures ToUpperCase(s) == upper
  {
    if s != [] {
      ToUpperCaseCharwise(s[1..], upper[1..]);
      assert upper == [upper[0]] + upper[1..];
    }
  }

  function AsciiLowerChar(c: char): char {
    if 'A' <= c <= 'Z' then (c as int + 32) as char else c
  }

  /** The case folding of a non-unicode regular expression with the `i` flag,
      restricted to what matters when the pattern is ASCII: a non-ASCII
      character never folds onto an ASCII one. */
  function AsciiLower(s: string): string {
    seq(|s|, i requires 0 <= i < |s| => AsciiLowerChar(s[i]))
  }

  /** `/part/i.test(s)` for a pattern that is a fixed ASCII word. */
  predicate ContainsIgnoringCase(s: string, part: string) {
    Contains(AsciiLower(s), AsciiLower(part))
  }

  // ---------------------------------------------------------------------------
  // split and join

  /** `parts.join(sep)`. */
  function Join(parts: seq<string>, sep: string): string {
    if |parts| == 0 then ""
    else if |parts| == 1 then parts[0]
    else parts[0] + sep + Join(parts[1..], sep)
  }

  /** `s.split(c)` for a one-character separator: the maximal runs free of `c`;
      joining them back with `c` gives `s` again. */
  function Split(s: string, c: char): (r: seq<string>)
    ensures |r| >= 1
    ensures forall i :: 0 <= i < |r| ==> c !in r[i]
    ensures Join(r, [c]) == s
  {
    if s == [] then [""]
    else
      var rest := Split(s[1..], c);
      if s[0] == c then
        assert ([""] + rest)[1..] == rest;
        [""] + rest
      else
        var r := [[s[0]] + rest[0]] + rest[1..];
        assert r[1..] == rest[1..];
        assert s == [s[0]] + s[1..];
        r
  }

  lemma {:induction false} SplitWithoutSeparator(w: string, c: char)
    requires c !in w
    ensures Split(w, c) == [w]
  {
    if w != [] {
      SplitWithoutSeparator(w[1..], c);
      assert w == [w[0]] + w[1..];
    }
  }

  lemma {:induction false} SplitAfterWord(w: string, c: char, t: string)
    requires c !in w
    ensures Split(w + [c] + t, c) == [w] + Split(t, c)
  {
    if w == [] {
      assert w + [c] + t == [c] + t;
      assert ([c] + t)[1..] == t;
    } else {
      SplitAfterWord(w[1..], c, t);
      SplitAfterLongerWord(w, c, t);
    }
  }

  /** One more character in front of the word ends up in the first part. */
  lemma SplitAfterLongerWord(w: string, c: char, t: string)
    requires w != [] && c !in w
    requires Split(w[1..] + [c] + t, c) == [w[1..]] + Split(t, c)
    ensures Split(w + [c] + t, c) == [w] + Split(t, c)
  {
    var s := w + [c] + t;
    assert s[0] == w[0] && s[1..] == w[1..] + [c] + t;
    SplitOfNonSeparator(s, c);
    assert [w[0]] + w[1..] == w;
  }

  lemma SplitOfNonSeparator(s: string, c: char)
    requires s != [] && s[0] != c
    ensures Split(s, c) == [[s[0]] + Split(s[1..], c)[0]] + Split(s[1..], c)[1..]
  {
  }

  /** Splitting undoes joining when no part holds the separator. */
  lemma {:induction false} SplitJoin(parts: seq<string>, c: char)
    requires |parts| >= 1
    requires forall i :: 0 <= i < |parts| ==> c !in parts[i]
    ensures Split(Join(parts, [c]), c) == parts
  {
    if |parts| == 1 {
      SplitWithoutSeparator(parts[0], c);
    } else {
      SplitJoin(parts[1..], c);
      SplitAfterWord(parts[0], c, Join(parts[1..], [c]));
      assert [parts[0]] + parts[1..] == parts;
    }
  }

  /** Number of occurrences of `c` in `s` (`(s.match(/c/g) || []).length`). */
  function CountChar(s: string, c: char): nat {
    if s == [] then 0 else (if s[0] == c then 1 else 0) + CountChar(s[1..], c)
  }

  /** There is one more piece than there are separators. */
  lemma {:induction false} SplitPieces(s: string, c: char)
    ensures |Split(s, c)| == CountChar(s, c) + 1
  {
    if s != [] {
      SplitPieces(s[1..], c);
    }
  }

  // ---------------------------------------------------------------------------
  // Decimal numbers

  function DigitValue(c: char): nat
    requires IsDigit(c)
  {
    c as int - '0' as int
  }

  function DigitChar(d: nat): (c: char)
    requires d < 10
    ensures IsDigit(c) && DigitValue(c) == d
  {
    ('0' as int + d) as char
  }

  /** The value of a run of decimal digits, most significant first. */
  function DigitsValue(s: string): nat
    requires AllDigits(s)
  {
    if s == [] then 0 else DigitsValue(s[..|s| - 1]) * 10 + DigitValue(s[|s| - 1])
  }

  /** The decimal text of a natural number, as `String(n)` writes it: digits
      only, and no leading zero. */
  function NatToString(n: nat): (r: string)
    ensures r != [] && AllDigits(r)
    ensures r[0] == '0' ==> n == 0
  {
    if n < 10 then [DigitChar(n)] else NatToString(n / 10) + [DigitChar(n % 10)]
  }

  lemma {:induction false} NatToStringValue(n: nat)
    ensures DigitsValue(NatToString(n)) == n
  {
    if n >= 10 {
      NatToStringValue(n / 10);
      var s := NatToString(n);
      assert s[..|s| - 1] == NatToString(n / 10);
    }
  }

  /** `String(i)` for an integer. */
  function IntToString(i: int): string {
    if i < 0 then "-" + NatToString(-i) else NatToString(i)
  }

  /** Length of the longest run of digits at the start of `s`. */
  function DigitPrefixLength(s: string): (k: nat)
    ensures k <= |s| && AllDigits(s[..k])
    ensures k < |s| ==> !IsDigit(s[k])
  {
    if s != [] && IsDigit(s[0]) then
      var k := 1 + DigitPrefixLength(s[1..]);
      assert s[..k] == [s[0]] + s[1..][..k - 1];
      k
    else 0
  }

  /** The run of digits at the start of `u`, read in base 10; `None` when
      `u` does not start with a digit. */
  function LeadingDigits(u: string): (r: Option<int>)
    ensures r.None? <==> u == [] || !IsDigit(u[0])
    ensures r.Some? ==> r.value >= 0
  {
    var k := DigitPrefixLength(u);
    if k == 0 then None else Some(DigitsValue(u[..k]))
  }

  /** `parseInt(s, 10)`: skip leading white space, take an optional sign and
      the longest run of digits after it; `None` is NaN. */
  function ParseInt(s: string): (r: Option<int>)
    ensures s != [] && IsDigit(s[0]) ==> r == LeadingDigits(s)
    ensures (forall i :: 0 <= i < |s| ==> !IsDigit(s[i])) ==> r.None?
    ensures r.Some? && r.value < 0 ==> '-' in s
  {
    var t := TrimStart(s);
    TrimStartIsSuffix(s);
    var signed := t != [] && (t[0] == '+' || t[0] == '-');
    match LeadingDigits(if signed then t[1..] else t)
    case None => None
    case Some(v) => if t[0] == '-' then Some(-v) else Some(v)
  }

  lemma {:induction false} DigitPrefixOfDigits(s: string)
    requires AllDigits(s)
    ensures DigitPrefixLength(s) == |s|
  {
    if s != [] {
      DigitPrefixOfDigits(s[1..]);
    }
  }

  /** A non-empty run of digits is read whole. */
  lemma LeadingDigitsOfDigits(d: string)
    requires d != [] && AllDigits(d)
    ensures LeadingDigits(d) == Some(DigitsValue(d) as int)
  {
    DigitPrefixOfDigits(d);
    assert d[..|d|] == d;
  }

  /** A minus sign parses to the negated value of the digits after it. */
  lemma ParseIntOfMinus(rest: string)
    ensures ParseInt("-" + rest) == if LeadingDigits(rest).None? then None else Some(-LeadingDigits(rest).value)
  {
    var s := "-" + rest;
    assert s[0] == '-' && s[1..] == rest;
    assert TrimStart(s) == s;
  }

  /** A non-empty run of digits parses to its value. */
  lemma ParseIntOfDigits(s: string)
    requires s != [] && AllDigits(s)
    ensures ParseInt(s) == Some(DigitsValue(s) as int)
  {
    LeadingDigitsOfDigits(s);
  }

  /** A minus sign followed by digits parses to the negated value. */
  lemma ParseIntOfNegated(d: string)
    requires d != [] && AllDigits(d)
    ensures ParseInt("-" + d) == Some(-(DigitsValue(d) as int))
  {
    LeadingDigitsOfDigits(d);
    ParseIntOfMinus(d);
  }

  /** `parseInt(String(i), 10) === i` for every integer. */
  lemma ParseIntRoundTrip(i: int)
    ensures ParseInt(IntToString(i)) == Some(i)
  {
    if i < 0 {
      NegativeRoundTrip(-i);
    } else {
      NatRoundTrip(i);
    }
  }

  lemma NatRoundTrip(n: nat)
    ensures ParseInt(NatToString(n)) == Some(n)
  {
    NatToStringValue(n);
    ParseIntOfDigits(NatToString(n));
  }

  lemma NegativeRoundTrip(n: nat)
    ensures ParseInt("-" + NatToString(n)) == Some(-(n as int))
  {
    NatToStringValue(n);
    ParseIntOfNegated(NatToString(n));
  }

  // ---------------------------------------------------------------------------
  // Lengths

  /** `s.length`: UTF-16 code units, two for a code point above U+FFFF. */
  function Utf16Length(s: string): (n: nat)
    ensures |s| <= n <= 2 * |s|
  {
    if s == [] then 0 else (if s[0] as int >= 0x10000 then 2 else 1) + Utf16Length(s[1..])
  }

  /** Bytes UTF-8 spends on one code point. */
  function Utf8Width(c: char): nat {
    if c as int < 0x80 then 1
    else if c as int < 0x800 then 2
    else if c as int < 0x10000 then 3
    else 4
  }

  /** `Buffer.byteLength(s, "utf8")`: between one and four bytes per code point. */
  function Utf8Length(s: string): (n: nat)
    ensures |s| <= n <= 4 * |s|
  {
    if s == [] then 0 else Utf8Width(s[0]) + Utf8Length(s[1..])
  }

  /** An ASCII string takes one byte per character. */
  lemma {:induction false} Utf8LengthOfAscii(s: string)
    requires forall i :: 0 <= i < |s| ==> s[i] as int < 0x80
    ensures Utf8Length(s) == |s|
  {
    if s != [] {
      Utf8LengthOfAscii(s[1..]);
    }
  }

  /** Byte length adds up over concatenation. */
  lemma {:induction false} Utf8LengthAppend(a: string, b: string)
    ensures Utf8Length(a + b) == Utf8Length(a) + Utf8Length(b)
  {
    if a == [] {
      assert a + b == b;
    } else {
      Utf8LengthAppend(a[1..], b);
      assert a + b == [a[0]] + (a[1..] + b);
      assert Utf8Length(a + b) == Utf8Width(a[0]) + Utf8Length(a[1..] + b);
    }
  }
}
