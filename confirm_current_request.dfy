/** `Ai::Chat::ConfirmCurrentRequest`: reduces the visible assistant text to
    one confirmation sentence of the current request, or falls back to
    "Understood, I will work on <instruction>." */
module ConfirmCurrentRequest {
  import opened Wrappers
  import opened Text
  import opened Values
  import CleanReplyText

  const MaxInstructionChars: nat := 120
  const FallbackLead: string := "Understood, I will work on "
  const DefaultSubject: string := "your request"

  predicate IsTerminator(c: char) { c == '.' || c == '!' || c == '?' }
  predicate IsBangOrQuestion(c: char) { c == '!' || c == '?' }

  /** A sentence of `str` may end at `k`: a terminator after at least one
      character, followed by whitespace or the end of the text. */
  predicate EndsAt(str: string, k: nat)
    requires k < |str|
  {
    k >= 1 && IsTerminator(str[k]) && (k + 1 == |str| || IsRegexSpace(str[k + 1]))
  }

  /** The lazy `.+?[.!?]` of `/\A(.+?[.!?])(?:\s|$)/m`: the first end at or after `k`. */
  function SentenceEnd(str: string, k: nat): (r: Option<nat>)
    ensures r.Some? ==> k <= r.value < |str| && EndsAt(str, r.value)
    ensures r.Some? ==> forall j :: k <= j < r.value ==> !EndsAt(str, j)
    ensures r.None? ==> forall j :: k <= j < |str| ==> !EndsAt(str, j)
    decreases |str| - k
  {
    if k >= |str| then None
    else if EndsAt(str, k) then Some(k)
    else SentenceEnd(str, k + 1)
  }

  /** `first_sentence`: the stripped text up to its first sentence end, or all of it. */
  function FirstSentence(text: string): (r: string)
    ensures var str := Strip(text); |r| <= |str| && r == str[..|r|]
    ensures var str := Strip(text);
      r != [] ==> (r == str || (EndsAt(str, |r| - 1) && forall j :: 0 <= j < |r| - 1 ==> !EndsAt(str, j)))
  {
    var str := Strip(text);
    match SentenceEnd(str, 0)
    case None => str
    case Some(e) => str[..e + 1]
  }

  /** `normalize`. */
  function Normalize(text: string): string {
    CompactWhitespace(text)
  }

  /** `ensure_period`: a trailing run of `?`/`!` becomes one `.`, and a `.` is
      added when the text does not end in one. */
  function EnsurePeriod(text: string): (r: string)
    ensures r != [] && r[|r| - 1] == '.'
    ensures forall i :: 0 <= i < |r| - 1 ==> r[i] in Strip(text)
    ensures var t := Strip(text); var base := DropTrailing(t, IsBangOrQuestion);
      r == (if |base| < |t| then base + "." else if EndsWith(t, ".") then t else t + ".")
  {
    var t := Strip(text);
    var replaced := if |DropTrailing(t, IsBangOrQuestion) | < |t| then DropTrailing(t, IsBangOrQuestion) + "." else t;
    if EndsWith(replaced, ".") then replaced else replaced + "."
  }

  /** The subject of the fallback: the normalised instruction or "your
      request", at most 120 characters, without trailing `.`, `?` or `!`. */
  function FallbackSubject(instruction: string): (r: string)
    ensures |r| <= MaxInstructionChars
    ensures r == [] || !IsTerminator(r[|r| - 1])
    ensures var raw := if Normalize(instruction) == [] then DefaultSubject else Normalize(instruction);
      r == DropTrailing(if |raw| > MaxInstructionChars then RStrip(raw[..MaxInstructionChars]) else raw, IsTerminator)
  {
    var raw := if Normalize(instruction) == [] then DefaultSubject else Normalize(instruction);
    var capped := if |raw| > MaxInstructionChars then RStrip(raw[..MaxInstructionChars]) else raw;
    DropTrailing(capped, IsTerminator)
  }

  /** `fallback_confirmation`. */
  function Fallback(instruction: string): (r: string)
    ensures r == FallbackLead + FallbackSubject(instruction) + "."
    ensures r != [] && r[|r| - 1] == '.'
  {
    FallbackLead + FallbackSubject(instruction) + "."
  }

  /** The sentence `call` checks: the normalised first sentence of the cleaned reply. */
  function Candidate(text: string, parse: string -> Option<Value>): string {
    Normalize(FirstSentence(CleanReplyText.Clean(text, parse)))
  }

  /** `ConfirmCurrentRequest.call`. */
  function Call(text: string, instruction: string, parse: string -> Option<Value>): (r: string)
    ensures r != [] && r[|r| - 1] == '.'
  {
    var candidate := Candidate(text, parse);
    if Blank(candidate) || '?' in candidate then Fallback(instruction)
    else EnsurePeriod(candidate)
  }

  // ---------------------------------------------------------------- properties

  /** A blank candidate or one with a question mark gives the fallback;
      otherwise the output is the candidate with its period ensured, and has
      no question mark. */
  lemma CallCases(text: string, instruction: string, parse: string -> Option<Value>)
    ensures var c := Candidate(text, parse);
      (Blank(c) || '?' in c ==> Call(text, instruction, parse) == Fallback(instruction)) &&
      (!(Blank(c) || '?' in c) ==> (Call(text, instruction, parse) == EnsurePeriod(c) &&
        '?' !in Call(text, instruction, parse)))
  {
    var c := Candidate(text, parse);
    if '?' !in c {
      EnsurePeriodNoQuestion(c);
    }
  }

  /** `ensure_period` adds no question mark. */
  lemma EnsurePeriodNoQuestion(c: string)
    requires '?' !in c
    ensures '?' !in EnsurePeriod(c)
  {
    StripChars(c);
    var r := EnsurePeriod(c);
    var t := Strip(c);
    forall i | 0 <= i < |r|
      ensures r[i] != '?'
    {
      if i < |r| - 1 {
        assert r[i] in t;
        var j :| 0 <= j < |t| && t[j] == r[i];
        assert t[j] in c;
      }
    }
  }

  /** A trailing `?!` run becomes a single `.`. */
  lemma EnsurePeriodReplacesRun(body: string, run: string)
    requires run != [] && forall i :: 0 <= i < |run| ==> IsBangOrQuestion(run[i])
    requires body != [] && !IsStripSpace(body[0]) && !IsBangOrQuestion(body[|body| - 1])
    ensures EnsurePeriod(body + run) == body + "."
  {
    var t := body + run;
    StripOfTrimmed(t);
    DropRun(body, run);
  }

  lemma DropRun(body: string, run: string)
    requires forall i :: 0 <= i < |run| ==> IsBangOrQuestion(run[i])
    requires body == [] || !IsBangOrQuestion(body[|body| - 1])
    ensures DropTrailing(body + run, IsBangOrQuestion) == body
    decreases |run|
  {
    if run != [] {
      assert (body + run)[..|body + run| - 1] == body + run[..|run| - 1];
      DropRun(body, run[..|run| - 1]);
    } else {
      assert body + run == body;
    }
  }

  /** An instruction that normalises to nothing is confirmed as "your request". */
  lemma EmptyInstructionFallback(instruction: string)
    requires Normalize(instruction) == []
    ensures FallbackSubject(instruction) == DefaultSubject
  {
    assert DefaultSubject[|DefaultSubject| - 1] == 't';
  }

  /** A reply that already is one compact sentence ending in `.` with no `?`
      is kept as it is. */
  lemma KeepsValidSentence(s: string, instruction: string, parse: string -> Option<Value>)
    requires s != [] && s[|s| - 1] == '.' && !IsStripSpace(s[0]) && '?' !in s
    requires Normalize(s) == s && !Blank(s)
    requires forall j :: 0 <= j < |s| - 1 ==> !EndsAt(s, j)
    ensures Call(s, instruction, parse) == s
  {
    RStripOfEnd(s);
    CleanReplyText.PlainTextUnchanged(s, parse);
    StripOfTrimmed(s);
    FirstSentenceWhole(s);
    assert Candidate(s, parse) == s;
    EnsurePeriodOfSentence(s);
  }

  lemma EnsurePeriodOfSentence(s: string)
    requires s != [] && s[|s| - 1] == '.' && !IsStripSpace(s[0])
    ensures EnsurePeriod(s) == s
  {
    StripOfTrimmed(s);
    assert DropTrailing(s, IsBangOrQuestion) == s;
    assert s[|s| - 1..][0] == s[|s| - 1];
  }

  lemma RStripOfEnd(s: string)
    requires s != [] && s[|s| - 1] == '.'
    ensures RStrip(s) == s && !EndsWith(s, "}") && !EndsWith(s, "```")
  {
    if |s| >= 3 {
      assert s[|s| - 3..][2] == s[|s| - 1];
    }
    assert s[|s| - 1..][0] == s[|s| - 1];
  }

  lemma FirstSentenceWhole(s: string)
    requires s != [] && Strip(s) == s && forall j :: 0 <= j < |s| - 1 ==> !EndsAt(s, j)
    ensures FirstSentence(s) == s
  {
    var k := SentenceEnd(s, 0);
    if k.Some? {
      assert k.value == |s| - 1;
      assert s[..k.value + 1] == s;
    }
  }

  lemma EndsAtPrefix(first: string, rest: string, j: nat)
    requires j < |first| - 1
    ensures EndsAt(first + rest, j) == EndsAt(first, j)
  {
    assert (first + rest)[j] == first[j] && (first + rest)[j + 1] == first[j + 1];
  }

  /** Only the first sentence survives: text after a sentence end and a space
      is dropped. */
  lemma KeepsFirstSentence(first: string, rest: string)
    requires first != [] && !IsStripSpace(first[0]) && |first| >= 2 && IsTerminator(first[|first| - 1])
    requires forall j :: 0 <= j < |first| - 1 ==> !EndsAt(first, j)
    requires rest != [] && IsRegexSpace(rest[0]) && !IsStripSpace(rest[|rest| - 1])
    ensures FirstSentence(first + rest) == first
  {
    var s := first + rest;
    StripOfTrimmed(s);
    forall j | 0 <= j < |first| - 1
      ensures !EndsAt(s, j)
    {
      EndsAtPrefix(first, rest, j);
    }
    assert s[|first| - 1] == first[|first| - 1] && s[|first|] == rest[0];
    assert EndsAt(s, |first| - 1);
    assert SentenceEnd(s, 0) == Some(|first| - 1);
    assert s[..|first|] == first;
  }
}
