/** Ruby string primitives the services rely on, over `string` (a sequence of
    characters). Three different notions of "whitespace" appear in the code and
    are kept apart here:
      - a regular expression `\s` matches [ \t\n\v\f\r];
      - `String#strip` removes those and also NUL;
      - ActiveSupport's `blank?` and `squish` use Unicode White_Space.
    Case mapping is ASCII-only. */
module Text {

  // ---------------------------------------------------------------- classes

  predicate IsRegexSpace(c: char) {
    c == ' ' || c == '\t' || c == '\n' || c == '\U{000B}' || c == '\U{000C}' || c == '\r'
  }

  predicate IsStripSpace(c: char) {
    c == '\0' || IsRegexSpace(c)
  }

  predicate IsUnicodeSpace(c: char) {
    IsRegexSpace(c) || c == '\U{0085}' || c == '\U{00A0}' || c == '\U{1680}'
    || ('\U{2000}' <= c <= '\U{200A}') || c == '\U{2028}' || c == '\U{2029}'
    || c == '\U{202F}' || c == '\U{205F}' || c == '\U{3000}'
  }

  predicate IsDigit(c: char) { '0' <= c <= '9' }
  predicate IsUpper(c: char) { 'A' <= c <= 'Z' }
  predicate IsLower(c: char) { 'a' <= c <= 'z' }
  predicate IsLetter(c: char) { IsUpper(c) || IsLower(c) }
  predicate IsAlnum(c: char) { IsLetter(c) || IsDigit(c) }
  /** A word character for `\b`: [A-Za-z0-9_]. */
  predicate IsWordChar(c: char) { IsAlnum(c) || c == '_' }

  predicate AllDigits(s: string) { forall i :: 0 <= i < |s| ==> IsDigit(s[i]) }
  predicate AllLetters(s: string) { forall i :: 0 <= i < |s| ==> IsLetter(s[i]) }
  predicate AllUpper(s: string) { forall i :: 0 <= i < |s| ==> IsUpper(s[i]) }

  /** ActiveSupport `String#blank?`: empty or only Unicode whitespace. */
  predicate Blank(s: string) { forall i :: 0 <= i < |s| ==> IsUnicodeSpace(s[i]) }

  // ---------------------------------------------------------------- case

  function Lower(c: char): (r: char)
    ensures IsUpper(c) ==> IsLower(r)
    ensures !IsUpper(c) ==> r == c
  {
    if IsUpper(c) then (c as int + 32) as char else c
  }

  function Upper(c: char): (r: char)
    ensures IsLower(c) ==> IsUpper(r)
    ensures !IsLower(c) ==> r == c
  {
    if IsLower(c) then (c as int - 32) as char else c
  }

  function Downcase(s: string): (r: string)
    ensures |r| == |s|
    ensures forall i :: 0 <= i < |s| ==> r[i] == Lower(s[i])
  {
    if s == [] then [] else [Lower(s[0])] + Downcase(s[1..])
  }

  function Upcase(s: string): (r: string)
    ensures |r| == |s|
    ensures forall i :: 0 <= i < |s| ==> r[i] == Upper(s[i])
  {
    if s == [] then [] else [Upper(s[0])] + Upcase(s[1..])
  }

  // ---------------------------------------------------------------- strip

  function LStrip(s: string): (r: string)
    ensures |r| <= |s| && r == s[|s| - |r|..]
    ensures r == [] || !IsStripSpace(r[0])
    ensures forall i :: 0 <= i < |s| - |r| ==> IsStripSpace(s[i])
  {
    if |s| > 0 && IsStripSpace(s[0]) then LStrip(s[1..]) else s
  }

  function RStrip(s: string): (r: string)
    ensures |r| <= |s| && r == s[..|r|]
    ensures r == [] || !IsStripSpace(r[|r| - 1])
    ensures forall i :: |r| <= i < |s| ==> IsStripSpace(s[i])
  {
    if |s| > 0 && IsStripSpace(s[|s| - 1]) then RStrip(s[..|s| - 1]) else s
  }

  function Strip(s: string): (r: string)
    ensures |r| <= |s|
    ensures r == [] || (!IsStripSpace(r[0]) && !IsStripSpace(r[|r| - 1]))
  {
    LStrip(RStrip(s))
  }

  /** `strip` written without its general properties, for use where many
      other facts are in scope; `TrimIsStrip` equates the two. */
  function Trim(s: string): string {
    TrimFront(TrimBack(s))
  }

  function TrimFront(s: string): string {
    if |s| > 0 && IsStripSpace(s[0]) then TrimFront(s[1..]) else s
  }

  function TrimBack(s: string): string {
    if |s| > 0 && IsStripSpace(s[|s| - 1]) then TrimBack(s[..|s| - 1]) else s
  }

  lemma TrimIsStrip(s: string)
    ensures Trim(s) == Strip(s)
  {
    TrimBackIsRStrip(s);
    TrimFrontIsLStrip(TrimBack(s));
  }

  lemma TrimFrontIsLStrip(s: string)
    ensures TrimFront(s) == LStrip(s)
  {
  }

  lemma TrimBackIsRStrip(s: string)
    ensures TrimBack(s) == RStrip(s)
  {
  }

  /** Case mapping keeps whitespace where it is, so `strip` and `downcase`
      commute. */
  lemma {:induction false} LStripDowncase(s: string)
    ensures Downcase(LStrip(s)) == LStrip(Downcase(s))
    decreases |s|
  {
    if |s| > 0 {
      if IsStripSpace(s[0]) {
        LStripDowncase(s[1..]);
        LStripDowncaseSpace(s);
      } else {
        LStripDowncaseWord(s);
      }
    }
  }

  lemma LStripDowncaseSpace(s: string)
    requires |s| > 0 && IsStripSpace(s[0])
    requires Downcase(LStrip(s[1..])) == LStrip(Downcase(s[1..]))
    ensures Downcase(LStrip(s)) == LStrip(Downcase(s))
  {
    var d := Downcase(s);
    assert d[1..] == Downcase(s[1..]);
    SpaceLower(s[0]);
    assert d[0] == s[0];
    assert LStrip(s) == LStrip(s[1..]);
    assert LStrip(d) == LStrip(d[1..]);
  }

  lemma SpaceLower(c: char)
    requires IsStripSpace(c)
    ensures Lower(c) == c
  {
  }

  lemma LStripDowncaseWord(s: string)
    requires |s| > 0 && !IsStripSpace(s[0])
    ensures Downcase(LStrip(s)) == LStrip(Downcase(s))
  {
    var d := Downcase(s);
    assert !IsStripSpace(d[0]);
    assert LStrip(s) == s;
    assert LStrip(d) == d;
  }

  lemma {:induction false} RStripDowncase(s: string)
    ensures Downcase(RStrip(s)) == RStrip(Downcase(s))
    decreases |s|
  {
    if |s| > 0 {
      if IsStripSpace(s[|s| - 1]) {
        RStripDowncase(s[..|s| - 1]);
        RStripDowncaseSpace(s);
      } else {
        RStripDowncaseWord(s);
      }
    }
  }

  lemma RStripDowncaseSpace(s: string)
    requires |s| > 0 && IsStripSpace(s[|s| - 1])
    requires Downcase(RStrip(s[..|s| - 1])) == RStrip(Downcase(s[..|s| - 1]))
    ensures Downcase(RStrip(s)) == RStrip(Downcase(s))
  {
    var init := s[..|s| - 1];
    var d := Downcase(s);
    assert d[..|s| - 1] == Downcase(init);
    SpaceLower(s[|s| - 1]);
    assert d[|s| - 1] == s[|s| - 1];
    assert RStrip(s) == RStrip(init);
    assert RStrip(d) == RStrip(d[..|s| - 1]);
  }

  lemma RStripDowncaseWord(s: string)
    requires |s| > 0 && !IsStripSpace(s[|s| - 1])
    ensures Downcase(RStrip(s)) == RStrip(Downcase(s))
  {
    var d := Downcase(s);
    assert !IsStripSpace(d[|s| - 1]);
    assert RStrip(s) == s;
    assert RStrip(d) == d;
  }

  /** Lower-casing text without capitals changes nothing. */
  lemma DowncaseOfLower(s: string)
    requires forall i :: 0 <= i < |s| ==> !IsUpper(s[i])
    ensures Downcase(s) == s
  {
    var d := Downcase(s);
    assert forall i :: 0 <= i < |s| ==> d[i] == s[i];
  }

  /** Upper-casing and then lower-casing text without capitals gives it back. */
  lemma DowncaseUpcase(s: string)
    requires forall i :: 0 <= i < |s| ==> !IsUpper(s[i])
    ensures Downcase(Upcase(s)) == s
  {
    var u := Upcase(s);
    var d := Downcase(u);
    forall i | 0 <= i < |s| ensures d[i] == s[i] {
      LowerUpper(s[i]);
    }
  }

  /** Lower-casing forgets an earlier upper-casing. */
  lemma DowncaseOfUpcase(s: string)
    ensures Downcase(Upcase(s)) == Downcase(s)
  {
    var l, d := Downcase(Upcase(s)), Downcase(s);
    forall i | 0 <= i < |s|
      ensures l[i] == d[i]
    {
      LowerOfUpper(s[i]);
    }
  }

  lemma LowerOfUpper(c: char)
    ensures Lower(Upper(c)) == Lower(c)
  {
  }

  lemma LowerUpper(c: char)
    requires !IsUpper(c)
    ensures Lower(Upper(c)) == c
  {
  }

  lemma StripDowncase(s: string)
    ensures Downcase(Strip(s)) == Strip(Downcase(s))
  {
    RStripDowncase(s);
    LStripDowncase(RStrip(s));
  }

  /** `sub(/[<class>]+\z/, "")`: the text without its trailing run of `p` characters. */
  function DropTrailing(s: string, p: char -> bool): (r: string)
    ensures |r| <= |s| && r == s[..|r|]
    ensures r == [] || !p(r[|r| - 1])
    ensures forall i :: |r| <= i < |s| ==> p(s[i])
  {
    if |s| > 0 && p(s[|s| - 1]) then DropTrailing(s[..|s| - 1], p) else s
  }

  /** `sub(/\A[<class>]+/, "")`: the text without its leading run of `p` characters. */
  function DropLeading(s: string, p: char -> bool): (r: string)
    ensures |r| <= |s| && r == s[|s| - |r|..]
    ensures r == [] || !p(r[0])
    ensures forall i :: 0 <= i < |s| - |r| ==> p(s[i])
  {
    if |s| > 0 && p(s[0]) then
      var r := DropLeading(s[1..], p);
      assert forall i :: 1 <= i < |s| - |r| ==> s[i] == s[1..][i - 1];
      r
    else s
  }

  /** Text with no strip-whitespace at either end is its own strip. */
  lemma StripOfTrimmed(s: string)
    requires s != [] && !IsStripSpace(s[0]) && !IsStripSpace(s[|s| - 1])
    ensures Strip(s) == s
  {
  }

  // ---------------------------------------------------------------- runs

  /** Replace every maximal run of characters satisfying `sp` by one space,
      as `gsub(/<class>+/, " ")` does; `prev` says whether a run is open. */
  function CollapseFrom(s: string, sp: char -> bool, prev: bool): (r: string)
    requires sp(' ')
    ensures forall i :: 0 <= i < |r| ==> (r[i] == ' ' || !sp(r[i]))
    ensures forall i :: 0 <= i < |r| - 1 ==> !(r[i] == ' ' && r[i + 1] == ' ')
    ensures prev ==> (r == [] || r[0] != ' ')
    ensures |r| <= |s|
  {
    if s == [] then []
    else if sp(s[0]) then
      (if prev then CollapseFrom(s[1..], sp, true) else [' '] + CollapseFrom(s[1..], sp, true))
    else [s[0]] + CollapseFrom(s[1..], sp, false)
  }

  function Collapse(s: string, sp: char -> bool): (r: string)
    requires sp(' ')
    ensures forall i :: 0 <= i < |r| ==> (r[i] == ' ' || !sp(r[i]))
    ensures forall i :: 0 <= i < |r| - 1 ==> !(r[i] == ' ' && r[i + 1] == ' ')
  {
    CollapseFrom(s, sp, false)
  }

  /** `gsub(/[^a-z0-9\s]/, " ")`: anything but a lower-case letter, a
      digit or whitespace becomes a space. */
  function Mask(s: string): (r: string)
    ensures |r| == |s|
    ensures forall i :: 0 <= i < |s| ==> r[i] == (if IsLower(s[i]) || IsDigit(s[i]) || IsRegexSpace(s[i]) then s[i] else ' ')
  {
    if s == [] then [] else [if IsLower(s[0]) || IsDigit(s[0]) || IsRegexSpace(s[0]) then s[0] else ' '] + Mask(s[1..])
  }

  /** `gsub(/\s+/, " ").strip`, written as `compact`/`normalize` in several services. */
  function CompactWhitespace(s: string): (r: string)
    ensures forall i :: 0 <= i < |r| ==> (r[i] == ' ' || !IsRegexSpace(r[i]))
    ensures r == [] || (!IsStripSpace(r[0]) && !IsStripSpace(r[|r| - 1]))
  {
    var c := Collapse(s, IsRegexSpace);
    StripKeepsClass(c, IsRegexSpace);
    Strip(c)
  }

  /** ActiveSupport `squish`. */
  function Squish(s: string): (r: string)
    ensures forall i :: 0 <= i < |r| ==> (r[i] == ' ' || !IsUnicodeSpace(r[i]))
    ensures r == [] || (!IsStripSpace(r[0]) && !IsStripSpace(r[|r| - 1]))
  {
    var c := Collapse(s, IsUnicodeSpace);
    StripKeepsClass(c, IsUnicodeSpace);
    Strip(c)
  }

  /** `squeeze(" ")`: runs of spaces become one space. */
  function SqueezeSpaces(s: string): (r: string)
    ensures forall i :: 0 <= i < |r| - 1 ==> !(r[i] == ' ' && r[i + 1] == ' ')
  {
    Collapse(s, c => c == ' ')
  }

  lemma StripKeepsClass(s: string, sp: char -> bool)
    requires forall i :: 0 <= i < |s| ==> (s[i] == ' ' || !sp(s[i]))
    ensures var r := Strip(s); forall i :: 0 <= i < |r| ==> (r[i] == ' ' || !sp(r[i]))
  {
    var a := RStrip(s);
    assert forall i :: 0 <= i < |a| ==> a[i] == s[i];
    var b := LStrip(a);
    assert forall i :: 0 <= i < |b| ==> b[i] == a[|a| - |b| + i];
  }

  /** Every `sp` character is a plain space, and no two spaces are
      adjacent: what `Collapse` produces. */
  predicate Squeezed(s: string, sp: char -> bool) {
    (forall i :: 0 <= i < |s| ==> (s[i] == ' ' || !sp(s[i]))) &&
    forall i :: 0 <= i < |s| - 1 ==> !(s[i] == ' ' && s[i + 1] == ' ')
  }

  lemma SqueezedSlice(s: string, sp: char -> bool, i: nat, j: nat)
    requires Squeezed(s, sp) && i <= j <= |s|
    ensures Squeezed(s[i..j], sp)
  {
    assert forall k :: 0 <= k < j - i ==> s[i..j][k] == s[i + k];
  }

  /** `strip` removes a prefix and a suffix. */
  lemma StripIsSlice(s: string) returns (i: nat, j: nat)
    ensures i <= j <= |s| && Strip(s) == s[i..j]
  {
    var a := RStrip(s);
    var b := LStrip(a);
    assert a == s[..|a|];
    assert b == a[|a| - |b|..];
    assert b == s[|a| - |b|..|a|];
    i, j := |a| - |b|, |a|;
  }

  /** Stripping keeps single spacing. */
  lemma StrippedSqueezed(s: string, sp: char -> bool)
    requires Squeezed(s, sp)
    ensures Squeezed(Strip(s), sp)
  {
    var i, j := StripIsSlice(s);
    SqueezedSlice(s, sp, i, j);
  }

  /** Collapsing text that is already squeezed changes nothing. */
  lemma {:induction false} CollapseFixed(s: string, sp: char -> bool, prev: bool)
    requires sp(' ') && Squeezed(s, sp)
    requires prev ==> s == [] || s[0] != ' '
    ensures CollapseFrom(s, sp, prev) == s
    decreases |s|
  {
    if s != [] {
      SqueezedSlice(s, sp, 1, |s|);
      CollapseFixed(s[1..], sp, s[0] == ' ');
      assert s == [s[0]] + s[1..];
    }
  }

  lemma {:induction false} CollapseChars(s: string, sp: char -> bool, prev: bool)
    requires sp(' ')
    ensures forall i :: 0 <= i < |CollapseFrom(s, sp, prev)| ==> CollapseFrom(s, sp, prev)[i] == ' ' || CollapseFrom(s, sp, prev)[i] in s
    decreases |s|
  {
    if s != [] {
      CollapseChars(s[1..], sp, sp(s[0]));
      var r := CollapseFrom(s, sp, prev);
      var t := CollapseFrom(s[1..], sp, sp(s[0]));
      forall i | 0 <= i < |r| ensures r[i] == ' ' || r[i] in s {
        if sp(s[0]) && prev {
          assert r == t;
          assert t[i] == ' ' || t[i] in s[1..];
        } else if i > 0 {
          assert r[i] == t[i - 1];
          assert t[i - 1] == ' ' || t[i - 1] in s[1..];
        }
      }
    }
  }

  lemma StripChars(s: string)
    ensures forall i :: 0 <= i < |Strip(s)| ==> Strip(s)[i] in s
  {
    var a := RStrip(s);
    var b := LStrip(a);
    assert forall i :: 0 <= i < |a| ==> a[i] == s[i];
    assert forall i :: 0 <= i < |b| ==> b[i] == a[|a| - |b| + i];
  }

  /** `s[0, n]` or `first(n)`: the first `n` elements, or all of a shorter
      sequence. */
  function Take<T>(s: seq<T>, n: nat): (r: seq<T>)
    ensures |r| == (if |s| <= n then |s| else n) && r == s[..|r|]
  {
    if |s| <= n then s else s[..n]
  }

  /** The number of bytes of a character in UTF-8. */
  function Utf8Length(c: char): nat {
    if c as int < 0x80 then 1 else if c as int < 0x800 then 2 else if c as int < 0x10000 then 3 else 4
  }

  /** `String#bytesize`. */
  function ByteSize(s: string): (n: nat)
    ensures |s| <= n <= 4 * |s|
  {
    if s == [] then 0 else Utf8Length(s[0]) + ByteSize(s[1..])
  }

  // ---------------------------------------------------------------- search

  predicate StartsWith(s: string, p: string) { |p| <= |s| && s[..|p|] == p }

  predicate EndsWith(s: string, p: string) { |p| <= |s| && s[|s| - |p|..] == p }

  /** `s.include?(p)`. */
  predicate Contains(s: string, p: string)
    decreases |s|
  {
    StartsWith(s, p) || (|s| > 0 && Contains(s[1..], p))
  }

  predicate HasChar(s: string, c: char) { exists i :: 0 <= i < |s| && s[i] == c }

  /** `parts.join(sep)`. */
  function Join(parts: seq<string>, sep: string): (r: string)
    ensures parts == [] ==> r == []
    ensures |parts| == 1 ==> r == parts[0]
  {
    if parts == [] then []
    else if |parts| == 1 then parts[0]
    else parts[0] + sep + Join(parts[1..], sep)
  }

  lemma JoinLength(parts: seq<string>, sep: string)
    requires |parts| > 0
    ensures |Join(parts, sep)| == |parts[0]| + |sep| * (|parts| - 1) + SumLengths(parts[1..])
  {
    if |parts| > 1 {
      JoinLength(parts[1..], sep);
      assert parts[1..][1..] == parts[2..];
    }
  }

  /** A join starts with its first part and ends with its last. */
  lemma {:induction false} JoinEnds(parts: seq<string>, sep: string)
    requires |parts| > 0
    ensures StartsWith(Join(parts, sep), parts[0])
    ensures EndsWith(Join(parts, sep), parts[|parts| - 1])
  {
    if |parts| > 1 {
      JoinEnds(parts[1..], sep);
      var rest := Join(parts[1..], sep);
      assert Join(parts, sep) == parts[0] + sep + rest;
      assert (parts[0] + sep + rest)[..|parts[0]|] == parts[0];
      var last := parts[|parts| - 1];
      assert last == parts[1..][|parts[1..]| - 1];
      assert rest[|rest| - |last|..] == last;
      assert (parts[0] + sep + rest)[|parts[0] + sep + rest| - |last|..] == rest[|rest| - |last|..];
    }
  }

  function SumLengths(parts: seq<string>): nat {
    if parts == [] then 0 else |parts[0]| + SumLengths(parts[1..])
  }

  /** Ruby's awk-style `split` with no argument: the maximal runs of
      non-whitespace characters. */
  function Words(s: string): (r: seq<string>)
    ensures forall i :: 0 <= i < |r| ==> r[i] != []
    ensures forall i, k :: 0 <= i < |r| && 0 <= k < |r[i]| ==> !IsRegexSpace(r[i][k])
    decreases |s|
  {
    var t := DropSpaces(s);
    if t == [] then [] else
      var w := TakeWord(t);
      [w] + Words(t[|w|..])
  }

  function DropSpaces(s: string): (r: string)
    ensures |r| <= |s| && (r == [] || !IsRegexSpace(r[0]))
  {
    if |s| > 0 && IsRegexSpace(s[0]) then DropSpaces(s[1..]) else s
  }

  function TakeWord(s: string): (r: string)
    ensures |r| <= |s| && r == s[..|r|]
    ensures forall k :: 0 <= k < |r| ==> !IsRegexSpace(r[k])
    ensures |s| > 0 && !IsRegexSpace(s[0]) ==> |r| > 0
  {
    if |s| > 0 && !IsRegexSpace(s[0]) then [s[0]] + TakeWord(s[1..]) else []
  }

  // ---------------------------------------------------------------- numbers

  function DigitValue(c: char): nat requires IsDigit(c) { c as int - '0' as int }

  function DigitChar(d: nat): (c: char)
    requires d < 10
    ensures IsDigit(c) && DigitValue(c) == d
  {
    ('0' as int + d) as char
  }

  /** Value of a run of decimal digits. */
  function DigitsValue(s: string): nat
    requires AllDigits(s)
  {
    if s == [] then 0 else DigitsValue(s[..|s| - 1]) * 10 + DigitValue(s[|s| - 1])
  }

  function NatToString(n: nat): (r: string)
    ensures r != [] && AllDigits(r)
    ensures DigitsValue(r) == n
  {
    if n < 10 then [DigitChar(n)]
    else
      var p := NatToString(n / 10);
      var r := p + [DigitChar(n % 10)];
      assert r[..|r| - 1] == p;
      r
  }

  /** `Integer#to_s`. */
  function IntToString(n: int): string {
    if n < 0 then "-" + NatToString(-n) else NatToString(n)
  }

  function Pow10(k: nat): (r: nat) ensures r >= 1 {
    if k == 0 then 1 else 10 * Pow10(k - 1)
  }
}
