/**
 * The HTTP-method validator (`HttpMethodService.validateHttpMethod`): a
 * sequence of guard clauses ending in a whitelist that ignores surrounding
 * white space and letter case.
 */
module HttpMethod {
  import opened Base
  import opened JsStrings
  import opened Json
  import opened Verdicts

  const AllowedMethods: seq<string> := ["GET", "POST", "PUT", "DELETE", "PATCH"]

  /** `allowedMethods.join(', ')` */
  function AllowedMethodList(): string {
    Join(AllowedMethods, ", ")
  }

  /** What the validator lets through: a string whose trimmed, upper-cased
      text is one of the five methods. */
  predicate MethodAcceptable(httpMethod: JsValue) {
    httpMethod.Str? && ToUpperCase(Trim(httpMethod.s)) in AllowedMethods
  }

  function ValidateHttpMethod(httpMethod: JsValue): (r: ValidationResult)
    ensures WellFormed(r) && r.data.None?
    ensures r.valid <==> MethodAcceptable(httpMethod)
    ensures r.valid ==> r.meta.message == "httpMethod is valid"
  {
    if httpMethod.Undefined? || httpMethod.Null? then Fail("httpMethod is required")
    else if !httpMethod.Str? then  // typeof httpMethod !== 'string'
      Fail("httpMethod must be a string")
    else
      var trimmed := Trim(httpMethod.s);
      if Utf16Length(trimmed) == 0 then
        Fail("httpMethod cannot be empty")
      else if ToUpperCase(trimmed) !in AllowedMethods then
        Fail("httpMethod must be one of: " + AllowedMethodList())
      else Pass("httpMethod is valid")
  }

  /** The guard clauses in order: a missing value, a value that is not a
      string, a blank string, and a string off the whitelist each get their
      own message. */
  lemma MissingMethodMessage(httpMethod: JsValue)
    requires httpMethod.Undefined? || httpMethod.Null?
    ensures ValidateHttpMethod(httpMethod) == Fail("httpMethod is required")
  {
  }

  lemma NonStringMethodMessage(httpMethod: JsValue)
    requires !httpMethod.Undefined? && !httpMethod.Null? && !httpMethod.Str?
    ensures ValidateHttpMethod(httpMethod) == Fail("httpMethod must be a string")
  {
  }

  lemma BlankMethodMessage(s: string)
    requires Trim(s) == []
    ensures ValidateHttpMethod(Str(s)) == Fail("httpMethod cannot be empty")
  {
  }

  lemma UnlistedMethodMessage(s: string)
    requires Trim(s) != [] && !MethodAcceptable(Str(s))
    ensures ValidateHttpMethod(Str(s)) == Fail("httpMethod must be one of: " + AllowedMethodList())
  {
  }

  /** The whitelist failure names the five methods in order. */
  lemma AllowedMethodListText()
    ensures AllowedMethodList() == "GET, POST, PUT, DELETE, PATCH"
  {
    var m := AllowedMethods;
    JoinOfFive(m, ", ");
  }

  lemma JoinOfFive(parts: seq<string>, sep: string)
    requires |parts| == 5
    ensures Join(parts, sep) == parts[0] + sep + parts[1] + sep + parts[2] + sep + parts[3] + sep + parts[4]
  {
    var tail := parts[1..];
    assert tail[1..][1..][1..] == parts[4..] == [parts[4]];
    assert Join(parts[3..], sep) == parts[3] + sep + parts[4];
    assert Join(parts[2..], sep) == parts[2] + sep + (parts[3] + sep + parts[4]);
    assert Join(parts[1..], sep) == parts[1] + sep + (parts[2] + sep + (parts[3] + sep + parts[4]));
  }

  /** The verdict on a string depends only on its trimmed text. */
  lemma VerdictOfTrimmed(x: string, y: string)
    requires Trim(x) == Trim(y)
    ensures ValidateHttpMethod(Str(x)) == ValidateHttpMethod(Str(y))
  {
  }

  /** White space around the method does not change the verdict. */
  lemma PaddingIgnored(before: string, word: string, after: string)
    requires forall i :: 0 <= i < |before| ==> IsWhiteSpace(before[i])
    requires forall i :: 0 <= i < |after| ==> IsWhiteSpace(after[i])
    requires word != [] && !IsWhiteSpace(word[0]) && !IsWhiteSpace(word[|word| - 1])
    ensures ValidateHttpMethod(Str(before + word + after)) == ValidateHttpMethod(Str(word))
  {
    TrimOfPadded(before, word, after);
    TrimOfWord(word);
    VerdictOfTrimmed(before + word + after, word);
  }

  /** Upper-case ASCII letters are not white space. */
  lemma LettersAreTrimmed(word: string)
    requires word != [] && AllAsciiLetters(word)
    ensures Trim(word) == word
  {
    TrimOfWord(word);
  }

  /** Letter case does not change the verdict: a method spelled in ASCII
      letters is accepted exactly when its upper-case spelling is. */
  lemma CaseIgnored(word: string)
    requires word != [] && AllAsciiLetters(word)
    ensures ValidateHttpMethod(Str(word)).valid <==> ValidateHttpMethod(Str(ToUpperCase(word))).valid
  {
    UpperCaseOfLetters(word);
    var upper := ToUpperCase(word);
    assert AllAsciiLetters(upper);
    LettersAreTrimmed(word);
    LettersAreTrimmed(upper);
  }

  /** A non-blank string whose trimmed text is `word` is judged by the
      upper case of `word` alone. */
  lemma VerdictOfSpelling(x: string, word: string)
    requires Trim(x) == word && word != []
    ensures ValidateHttpMethod(Str(x)).valid <==> ToUpperCase(word) in AllowedMethods
    ensures !ValidateHttpMethod(Str(x)).valid
            ==> ValidateHttpMethod(Str(x)) == Fail("httpMethod must be one of: " + AllowedMethodList())
  {
  }

  /** A word of upper-case ASCII letters is judged as it is spelled. */
  lemma UpperWordVerdict(word: string)
    requires word != [] && forall i :: 0 <= i < |word| ==> 'A' <= word[i] <= 'Z'
    ensures ValidateHttpMethod(Str(word)).valid <==> word in AllowedMethods
    ensures word !in AllowedMethods
            ==> ValidateHttpMethod(Str(word)) == Fail("httpMethod must be one of: " + AllowedMethodList())
  {
    LettersAreTrimmed(word);
    ToUpperCaseCharwise(word, word);
    VerdictOfSpelling(word, word);
  }

  /** A word of lower-case ASCII letters is judged by its upper-case spelling. */
  lemma LowerWordVerdict(word: string, upper: string)
    requires |word| == |upper| && word != []
    requires forall i :: 0 <= i < |word| ==> 'a' <= word[i] <= 'z' && upper[i] as int == word[i] as int - 32
    ensures ValidateHttpMethod(Str(word)).valid <==> upper in AllowedMethods
  {
    LettersAreTrimmed(word);
    UpperCaseOfLowerLetters(word, upper);
    VerdictOfSpelling(word, word);
  }

  /** A lower-case word with white space around it is judged by the upper
      case of the word. */
  lemma PaddedLowerWordVerdict(before: string, word: string, after: string, upper: string)
    requires forall i :: 0 <= i < |before| ==> IsWhiteSpace(before[i])
    requires forall i :: 0 <= i < |after| ==> IsWhiteSpace(after[i])
    requires |word| == |upper| && word != []
    requires forall i :: 0 <= i < |word| ==> 'a' <= word[i] <= 'z' && upper[i] as int == word[i] as int - 32
    ensures ValidateHttpMethod(Str(before + word + after)).valid <==> upper in AllowedMethods
  {
    TrimOfPadded(before, word, after);
    UpperCaseOfLowerLetters(word, upper);
    VerdictOfSpelling(before + word + after, word);
  }

  /** " get " passes. */
  lemma PaddedLowerCaseGetAccepted(spelling: string)
    requires spelling == " get "
    ensures ValidateHttpMethod(Str(spelling)).valid
  {
    var before, word, after := spelling[..1], spelling[1..4], spelling[4..];
    var upper := AllowedMethods[0];
    assert spelling == before + word + after;
    PaddedLowerWordVerdict(before, word, after, upper);
  }

  /** The standard methods missing from the list (HEAD, OPTIONS, CONNECT,
      TRACE) are refused with the list of allowed methods. */
  lemma UnlistedMethodsRejected(spelling: string)
    requires spelling in ["HEAD", "OPTIONS", "CONNECT", "TRACE"]
    ensures ValidateHttpMethod(Str(spelling)) == Fail("httpMethod must be one of: " + AllowedMethodList())
  {
    UpperWordVerdict(spelling);
  }

  /** A word that upper-cases one character at a time is judged by its
      upper case. */
  lemma CharwiseVerdict(word: string, upper: string)
    requires word != [] && !IsWhiteSpace(word[0]) && !IsWhiteSpace(word[|word| - 1])
    requires |word| == |upper| && forall i :: 0 <= i < |word| ==> UpperOf(word[i]) == [upper[i]]
    ensures ValidateHttpMethod(Str(word)).valid <==> upper in AllowedMethods
  {
    TrimOfWord(word);
    ToUpperCaseCharwise(word, upper);
    VerdictOfSpelling(word, word);
  }

  /** `toUpperCase` maps the long s to "S", so "po\u017Ft" is accepted as POST. */
  lemma LongSAccepted(spelling: string)
    requires spelling == "po\U{17F}t"
    ensures ValidateHttpMethod(Str(spelling)).valid
  {
    var upper := AllowedMethods[1];
    assert upper == "POST";
    assert forall i :: 0 <= i < |spelling| ==> UpperOf(spelling[i]) == [upper[i]];
    CharwiseVerdict(spelling, upper);
  }
}
