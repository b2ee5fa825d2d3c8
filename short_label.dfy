/** `Ai::Artifacts::Dataset::ShortLabel`: a short display name for a
    dataset. Whitespace runs become one space, one trailing parenthetical
    is removed, a blank result falls back, and a label longer than the
    limit is cut to one character less than the limit and given "...". */
module ShortLabel {
  import opened Wrappers
  import opened Text
  import opened Values
  import Patterns

  const DefaultMaxChars: int := 48

  /** Where the pattern's leading `\s*` stops when it starts at `p`: the
      first position from `p` on that is not whitespace, or the end. */
  function SpaceEnd(t: string, p: nat): (q: nat)
    requires p <= |t|
    ensures p <= q <= |t|
    ensures q == |t| || !IsRegexSpace(t[q])
    decreases |t| - p
  {
    if p < |t| && IsRegexSpace(t[p]) then SpaceEnd(t, p + 1) else p
  }

  /** The whitespace run from `p` stops at the latest at a character that is not whitespace. */
  lemma {:induction false} SpaceEndStops(t: string, p: nat, m: nat)
    requires p <= m < |t| && !IsRegexSpace(t[m])
    ensures SpaceEnd(t, p) <= m
    decreases m - p
  {
    if p < m && IsRegexSpace(t[p]) {
      SpaceEndStops(t, p + 1, m);
    }
  }

  /** `\s*\([^)]*\)\s*\z` matches at `p`: optional whitespace, an opening
      parenthesis, anything up to the next closing one, and nothing but
      whitespace after it. */
  predicate ParenTailAt(t: string, p: nat)
    requires p <= |t|
  {
    var q := SpaceEnd(t, p);
    q < |t| && t[q] == '(' &&
    match Patterns.FindChar(t, ')', q + 1)
    case Some(e) => forall k :: e < k < |t| ==> IsRegexSpace(t[k])
    case None => false
  }

  /** The leftmost position at or after `p` where the pattern matches. */
  function FirstParenTail(t: string, p: nat): (r: Option<nat>)
    requires p <= |t|
    ensures r.Some? ==> p <= r.value < |t| && ParenTailAt(t, r.value)
    ensures r.None? ==> forall k :: p <= k <= |t| ==> !ParenTailAt(t, k)
    ensures r.Some? ==> forall k :: p <= k < r.value ==> !ParenTailAt(t, k)
    decreases |t| - p
  {
    if p == |t| then None
    else if ParenTailAt(t, p) then Some(p)
    else FirstParenTail(t, p + 1)
  }

  /** `sub(/\s*\([^)]*\)\s*\z/, "")`. */
  function WithoutParenTail(t: string): (r: string)
    ensures |r| <= |t| && r == t[..|r|]
  {
    match FirstParenTail(t, 0)
    case Some(p) => t[..p]
    case None => t
  }

  /** The name with whitespace compacted and the trailing parenthetical
      removed, stripped. */
  function Cleaned(name: string): string {
    Strip(WithoutParenTail(CompactWhitespace(name)))
  }

  /** The label before the length limit: the cleaned name, or the
      fallback when that is blank. */
  function Chosen(name: Value, fallback: Value, inspect: Value -> string): string {
    var cleaned := Cleaned(ToS(name, inspect));
    if Blank(cleaned) then ToS(fallback, inspect) else cleaned
  }

  /** The length limit: text within it (or no limit) is kept, longer text
      is cut to one character less than the limit, right-stripped, and
      given "...". */
  function Limited(text: string, maxChars: int): (r: string)
    ensures maxChars <= 0 || |text| <= maxChars ==> r == text
    ensures maxChars > 0 && |text| > maxChars ==>
      EndsWith(r, "...") && StartsWith(text, r[..|r| - 3]) && |r| - 3 <= maxChars - 1
  {
    if maxChars <= 0 || |text| <= maxChars then text
    else
      var head := RStrip(Take(text, maxChars - 1));
      var r := head + "...";
      assert r[..|r| - 3] == head;
      assert r[|r| - 3..] == "...";
      r
  }

  /** `ShortLabel.call(name, fallback:, max_chars:)`. */
  function Call(name: Value, fallback: Value, maxChars: int, inspect: Value -> string): (r: string)
    ensures maxChars > 0 ==> |r| <= maxChars + 2
  {
    Limited(Chosen(name, fallback, inspect), maxChars)
  }

  // ---------------------------------------------------------------- properties

  lemma CompactSqueezed(s: string)
    ensures Squeezed(CompactWhitespace(s), IsRegexSpace)
  {
    var c := Collapse(s, IsRegexSpace);
    StrippedSqueezed(c, IsRegexSpace);
  }

  /** Compacting whitespace twice is compacting it once. */
  lemma CompactIdempotent(s: string)
    ensures CompactWhitespace(CompactWhitespace(s)) == CompactWhitespace(s)
  {
    var c := CompactWhitespace(s);
    CompactSqueezed(s);
    if c != [] {
      CollapseFixed(c, IsRegexSpace, false);
      StripOfTrimmed(c);
    } else {
      assert Collapse(c, IsRegexSpace) == [];
    }
  }

  /** The cleaned name has single spaces only and no whitespace at
      either end. */
  lemma CleanedSqueezed(name: string)
    ensures Squeezed(Cleaned(name), IsRegexSpace)
    ensures var r := Cleaned(name); r == [] || (!IsStripSpace(r[0]) && !IsStripSpace(r[|r| - 1]))
  {
    var compact := CompactWhitespace(name);
    CompactSqueezed(name);
    var cut := WithoutParenTail(compact);
    SqueezedSlice(compact, IsRegexSpace, 0, |cut|);
    StrippedSqueezed(cut, IsRegexSpace);
  }

  /** A name ending in one parenthetical loses it, with the space before
      it: "base (detail)" becomes "base". */
  lemma ParenTailRemoved(base: string, detail: string)
    requires base != [] && !IsRegexSpace(base[|base| - 1])
    requires forall k :: 0 <= k < |base| ==> base[k] != '('
    requires forall k :: 0 <= k < |detail| ==> detail[k] != ')'
    ensures WithoutParenTail(base + " (" + detail + ")") == base
  {
    var t := base + " (" + detail + ")";
    NoTailBefore(base, detail);
    TailAtBase(base, detail);
    FirstTailIs(t, |base|);
    assert t[..|base|] == base;
  }

  lemma NoTailBefore(base: string, detail: string)
    requires base != [] && !IsRegexSpace(base[|base| - 1])
    requires forall k :: 0 <= k < |base| ==> base[k] != '('
    ensures forall p :: 0 <= p < |base| ==> !ParenTailAt(base + " (" + detail + ")", p)
  {
    forall p | 0 <= p < |base|
      ensures !ParenTailAt(base + " (" + detail + ")", p)
    {
      NoTailInBase(base, detail, p);
    }
  }

  lemma FirstTailIs(t: string, n: nat)
    requires n <= |t| && ParenTailAt(t, n)
    requires forall p :: 0 <= p < n ==> !ParenTailAt(t, p)
    ensures FirstParenTail(t, 0) == Some(n)
  {
    var r := FirstParenTail(t, 0);
    assert r.Some?;
    assert r.value == n;
  }

  lemma NoTailInBase(base: string, detail: string, p: nat)
    requires base != [] && !IsRegexSpace(base[|base| - 1])
    requires forall k :: 0 <= k < |base| ==> base[k] != '('
    requires p < |base|
    ensures !ParenTailAt(base + " (" + detail + ")", p)
  {
    var t := base + " (" + detail + ")";
    var n := |base|;
    var q := SpaceEnd(t, p);
    assert t[n - 1] == base[n - 1];
    SpaceEndStops(t, p, n - 1);
    assert t[q] == base[q];
  }

  lemma TailAtBase(base: string, detail: string)
    requires forall k :: 0 <= k < |detail| ==> detail[k] != ')'
    ensures ParenTailAt(base + " (" + detail + ")", |base|)
  {
    var t := base + " (" + detail + ")";
    var n := |base|;
    assert t[n] == ' ' && t[n + 1] == '(' && t[|t| - 1] == ')';
    SpaceThenParen(t, n);
    forall k | n + 2 <= k < |t| - 1
      ensures t[k] != ')'
    {
      assert t[k] == detail[k - n - 2];
    }
    LastCloser(t, n + 2);
  }

  /** One space before the parenthesis: the pattern's `\s*` stops at it. */
  lemma SpaceThenParen(t: string, n: nat)
    requires n + 1 < |t| && t[n] == ' ' && t[n + 1] == '('
    ensures SpaceEnd(t, n) == n + 1
  {
    assert IsRegexSpace(t[n]) && !IsRegexSpace(t[n + 1]);
    assert SpaceEnd(t, n + 1) == n + 1;
  }

  /** The only closing parenthesis from `from` on is the last character. */
  lemma LastCloser(t: string, from: nat)
    requires from < |t| && t[|t| - 1] == ')'
    requires forall k :: from <= k < |t| - 1 ==> t[k] != ')'
    ensures Patterns.FindChar(t, ')', from) == Some(|t| - 1)
  {
  }

  /** The parenthetical step on "Vienna, Austria - 7-day forecast (daily
      highs/lows and summary)" leaves "Vienna, Austria - 7-day forecast". */
  lemma ForecastExample()
    ensures WithoutParenTail("Vienna, Austria - 7-day forecast (daily highs/lows and summary)")
      == "Vienna, Austria - 7-day forecast"
  {
    var base := "Vienna, Austria - 7-day forecast";
    var detail := "daily highs/lows and summary";
    assert base + " (" + detail + ")" == "Vienna, Austria - 7-day forecast (daily highs/lows and summary)";
    ParenTailRemoved(base, detail);
  }

  /** A blank name gives the fallback: "" with fallback "Sheet 2" is
      "Sheet 2". */
  lemma BlankNameExample(inspect: Value -> string)
    ensures Call(Str(""), Str("Sheet 2"), DefaultMaxChars, inspect) == "Sheet 2"
  {
    assert ToS(Str(""), inspect) == "";
    assert ToS(Str("Sheet 2"), inspect) == "Sheet 2";
    assert Collapse("", IsRegexSpace) == "";
    assert CompactWhitespace("") == "";
    assert FirstParenTail("", 0) == None;
    assert WithoutParenTail("") == "";
    assert Cleaned("") == "";
    assert Chosen(Str(""), Str("Sheet 2"), inspect) == "Sheet 2";
  }
}
