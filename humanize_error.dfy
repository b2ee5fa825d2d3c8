/** `Ai::Chat::HumanizeError`: turns a provider error message into a short
    sentence for the user. The raw text is cleaned (OpenAI docs links and the
    "read the docs" preamble removed, whitespace squeezed, trailing dots
    dropped) and then classified by ordered case-insensitive patterns. */
module HumanizeError {
  import opened Wrappers
  import opened Text

  datatype Category = Quota | Auth | RateLimit | ModelUnavailable | Timeout | Generic

  const DocsPrefixes: seq<string> := ["https://platform.openai.com/docs/", "http://platform.openai.com/docs/"]
  const Preamble: string := "for more information on this error, read the docs:"
  const UnknownReason: string := "Unknown provider error"
  const GenericLead: string := "I couldn't complete that request due to an AI provider error: "

  // ---------------------------------------------------------------- cleaning

  /** `gsub(pattern, "")` for a pattern whose match at the start of a text
      has length `matchLen(text)` (0 when it does not match there). */
  function RemoveAll(s: string, matchLen: string -> nat): (r: string)
    ensures |r| <= |s|
    decreases |s|
  {
    if s == [] then []
    else
      var n := matchLen(s);
      if 0 < n <= |s| then RemoveAll(s[n..], matchLen)
      else [s[0]] + RemoveAll(s[1..], matchLen)
  }

  /** The length of a match of DOCS_URL_PATTERN at the start of `s`:
      `https?://platform.openai.com/docs/` in any case, then one or more
      non-whitespace characters. */
  function DocsUrlLength(s: string): (n: nat)
    ensures n <= |s|
  {
    if StartsWith(Downcase(s), DocsPrefixes[0]) then PrefixedWordLength(s, DocsPrefixes[0])
    else PrefixedWordLength(s, DocsPrefixes[1])
  }

  /** The length of a match of `p` (in any case) followed by one or more
      non-whitespace characters at the start of `s`. */
  function PrefixedWordLength(s: string, p: string): (n: nat)
    ensures n <= |s|
  {
    if StartsWith(Downcase(s), p) then
      var tail := TakeWord(s[|p|..]);
      if tail == [] then 0 else |p| + |tail|
    else 0
  }

  /** The length of a match of the "read the docs" preamble and the
      whitespace after it at the start of `s`. */
  function PreambleLength(s: string): (n: nat)
    ensures n <= |s|
  {
    if StartsWith(Downcase(s), Preamble) then
      var rest := s[|Preamble|..];
      |Preamble| + (|rest| - |DropSpaces(rest)|)
    else 0
  }

  /** `cleaned_raw`. */
  function CleanedRaw(raw: string): (r: string)
    ensures r == [] || r[|r| - 1] != '.'
    ensures forall i :: 0 <= i < |r| ==> r[i] == ' ' || !IsRegexSpace(r[i])
    ensures r == [] || !IsStripSpace(r[0])
  {
    Squeezed(RemoveAll(RemoveAll(raw, DocsUrlLength), PreambleLength))
  }

  /** `gsub(/\s+/, " ").strip.sub(/[.]+\z/, "")`. */
  function Squeezed(text: string): (r: string)
    ensures r == [] || r[|r| - 1] != '.'
    ensures forall i :: 0 <= i < |r| ==> r[i] == ' ' || !IsRegexSpace(r[i])
    ensures r == [] || !IsStripSpace(r[0])
  {
    var compact := CompactWhitespace(text);
    var r := DropTrailing(compact, IsDot);
    assert forall i :: 0 <= i < |r| ==> r[i] == compact[i];
    r
  }

  predicate IsDot(c: char) { c == '.' }

  // ---------------------------------------------------------------- classification

  /** `text.match?(/p/i)` for a lower-case literal `p` (ASCII case folding). */
  predicate Has(text: string, p: string) {
    Contains(Downcase(text), p)
  }

  /** `/a.*b/`: an `a` with a `b` somewhere after it (the cleaned text holds
      no line break, so `.` matches every character between them). */
  predicate ContainsInOrder(s: string, a: string, b: string)
    decreases |s|
  {
    (StartsWith(s, a) && Contains(s[|a|..], b)) || (|s| > 0 && ContainsInOrder(s[1..], a, b))
  }

  predicate IsQuota(t: string) {
    Has(t, "exceeded your current quota") || Has(t, "insufficient_quota")
  }

  predicate IsAuth(t: string) {
    Has(t, "invalid api key") || Has(t, "incorrect api key") || Has(t, "unauthorized") || Has(t, "401")
  }

  predicate IsRateLimit(t: string) {
    Has(t, "rate limit") || Has(t, "too many requests") || Has(t, "429")
  }

  predicate IsModelUnavailable(t: string) {
    ContainsInOrder(Downcase(t), "model", "does not exist") || Has(t, "unknown model") || Has(t, "not found")
  }

  predicate IsTimeout(t: string) {
    Has(t, "timeout") || Has(t, "timed out") || Has(t, "temporar unavailable") || Has(t, "temporarily unavailable") ||
    Has(t, "connection reset") || Has(t, "502") || Has(t, "503") || Has(t, "504")
  }

  /** The ordered tests of `call`: the first pattern that matches decides. */
  function Classify(t: string): (r: Category)
    ensures r == Quota <==> IsQuota(t)
    ensures r == Auth <==> !IsQuota(t) && IsAuth(t)
    ensures r == RateLimit <==> !IsQuota(t) && !IsAuth(t) && IsRateLimit(t)
    ensures r == ModelUnavailable <==> !IsQuota(t) && !IsAuth(t) && !IsRateLimit(t) && IsModelUnavailable(t)
    ensures r == Timeout <==> !IsQuota(t) && !IsAuth(t) && !IsRateLimit(t) && !IsModelUnavailable(t) && IsTimeout(t)
    ensures r == Generic <==>
      !IsQuota(t) && !IsAuth(t) && !IsRateLimit(t) && !IsModelUnavailable(t) && !IsTimeout(t)
  {
    if IsQuota(t) then Quota
    else if IsAuth(t) then Auth
    else if IsRateLimit(t) then RateLimit
    else if IsModelUnavailable(t) then ModelUnavailable
    else if IsTimeout(t) then Timeout
    else Generic
  }

  function Message(c: Category, t: string): string {
    match c
    case Quota => "I couldn't complete that request because API quota is exhausted. Please check OpenAI API billing/limits, then retry."
    case Auth => "I couldn't authenticate with the AI provider. Please verify the API key and project access, then retry."
    case RateLimit => "I hit a temporary rate limit from the AI provider. Please wait a moment and retry."
    case ModelUnavailable => "The configured AI model is unavailable for this API key. Please check model access and retry."
    case Timeout => "The AI provider timed out while processing your request. Please retry."
    case Generic => GenericMessage(t)
  }

  /** `generic_message`: embeds the cleaned text, or a placeholder when it is blank. */
  function GenericMessage(t: string): (r: string)
    ensures r == GenericLead + (if Blank(t) then UnknownReason else t) + "."
  {
    GenericLead + (if Blank(t) then UnknownReason else t) + "."
  }

  /** The sentence the rescue clause returns. */
  const FailureMessage: string := "I couldn't complete that request due to an AI provider error. Please try again."

  /** `HumanizeError.call`. */
  function Call(raw: string): (r: string)
    ensures r == Message(Classify(CleanedRaw(raw)), CleanedRaw(raw))
  {
    var text := CleanedRaw(raw);
    Message(Classify(text), text)
  }

  // ---------------------------------------------------------------- properties

  lemma {:induction false} ContainsAppend(a: string, p: string, b: string)
    ensures Contains(a + p + b, p)
    decreases |a|
  {
    if a == [] {
      assert (a + p + b)[..|p|] == p;
    } else {
      ContainsAppend(a[1..], p, b);
      assert (a + p + b)[1..] == a[1..] + p + b;
    }
  }

  lemma DowncaseAppend(a: string, p: string, b: string)
    requires Downcase(p) == p
    ensures Downcase(a + p + b) == Downcase(a) + p + Downcase(b)
  {
    var l := Downcase(a + p + b);
    var r := Downcase(a) + p + Downcase(b);
    assert |l| == |r|;
    forall i | 0 <= i < |l| ensures l[i] == r[i] {
      if i < |a| {
      } else if i < |a| + |p| {
        assert p[i - |a|] == Downcase(p)[i - |a|];
      } else {
      }
    }
  }

  /** A lower-case pattern occurring anywhere matches, whatever the case around it. */
  lemma HasAnywhere(a: string, p: string, b: string)
    requires Downcase(p) == p
    ensures Has(a + p + b, p)
  {
    DowncaseAppend(a, p, b);
    ContainsAppend(Downcase(a), p, Downcase(b));
  }

  /** A message that matches no pattern is embedded in the generic sentence. */
  lemma GenericEmbedsText(raw: string)
    requires Classify(CleanedRaw(raw)) == Generic
    ensures Call(raw) == GenericLead + (if Blank(CleanedRaw(raw)) then UnknownReason else CleanedRaw(raw)) + "."
  {
  }

  /** A docs link running up to whitespace (or the end) is removed whole. */
  lemma RemovesDocsUrl(w: string, rest: string)
    requires w != [] && forall i :: 0 <= i < |w| ==> !IsRegexSpace(w[i])
    requires rest == [] || IsRegexSpace(rest[0])
    ensures RemoveAll(DocsPrefixes[0] + w + rest, DocsUrlLength) == RemoveAll(rest, DocsUrlLength)
  {
    var s := DocsPrefixes[0] + w + rest;
    var n := |DocsPrefixes[0]| + |w|;
    DocsUrlLengthOf(w, rest);
    assert 0 < DocsUrlLength(s) == n <= |s|;
    assert s[n..] == rest;
    assert RemoveAll(s, DocsUrlLength) == RemoveAll(s[n..], DocsUrlLength);
  }

  lemma DocsUrlLengthOf(w: string, rest: string)
    requires w != [] && forall i :: 0 <= i < |w| ==> !IsRegexSpace(w[i])
    requires rest == [] || IsRegexSpace(rest[0])
    ensures DocsUrlLength(DocsPrefixes[0] + w + rest) == |DocsPrefixes[0]| + |w|
  {
    DocsPrefixLower();
    PrefixedWordOf(DocsPrefixes[0], w, rest);
  }

  lemma PrefixedWordOf(p: string, w: string, rest: string)
    requires Downcase(p) == p
    requires w != [] && forall i :: 0 <= i < |w| ==> !IsRegexSpace(w[i])
    requires rest == [] || IsRegexSpace(rest[0])
    ensures StartsWith(Downcase(p + w + rest), p)
    ensures PrefixedWordLength(p + w + rest, p) == |p| + |w|
  {
    assert p + w + rest == p + (w + rest);
    LowerPrefixMatches(p, w + rest);
    assert (p + (w + rest))[|p|..] == w + rest;
    TakeWordOf(w, rest);
  }

  lemma DocsPrefixLower()
    ensures Downcase(DocsPrefixes[0]) == DocsPrefixes[0]
  {
    var p := DocsPrefixes[0];
    assert forall i :: 0 <= i < |p| ==> !IsUpper(p[i]);
    DowncaseOfLower(p);
  }

  lemma LowerPrefixMatches(p: string, x: string)
    requires Downcase(p) == p
    ensures StartsWith(Downcase(p + x), p)
  {
    assert Downcase(p + x)[..|p|] == Downcase(p);
  }

  lemma {:induction false} TakeWordOf(w: string, rest: string)
    requires forall i :: 0 <= i < |w| ==> !IsRegexSpace(w[i])
    requires rest == [] || IsRegexSpace(rest[0])
    ensures TakeWord(w + rest) == w
    decreases |w|
  {
    if w != [] {
      TakeWordOf(w[1..], rest);
      assert (w + rest)[1..] == w[1..] + rest;
    } else {
      assert w + rest == rest;
    }
  }
}
