/** `Ai::Chat::AssumedDefaults`: the defaults the assistant states it
    assumed. The only one is a 60-minute travel radius, assumed when the
    request speaks of a place around it ("around", "near", "nearby",
    "within") but names no distance or duration. Both patterns are
    case-insensitive and are read here on the ASCII-lower-cased text. */
module AssumedDefaults {
  import opened Text
  import opened Values
  import opened Patterns

  const TravelRadius: string := "a 60-minute travel radius"

  const ScopeWords: seq<string> := ["around", "near", "nearby", "within"]

  /** The units `EXPLICIT_RADIUS_PATTERN` accepts after the number. */
  predicate IsUnit(w: string) {
    w == "min" || w == "mins" || w == "minute" || w == "minutes" ||
    w == "hour" || w == "hours" || w == "hr" || w == "hrs" ||
    w == "km" || w == "kilometer" || w == "kilometers" || w == "kilometre" || w == "kilometres" ||
    w == "mi" || w == "mile" || w == "miles"
  }

  /** `TRAVEL_SCOPE_PATTERN` matches somewhere. */
  predicate HasScope(s: string) {
    HasWord(Downcase(s), ScopeWords)
  }

  /** `(<unit>)\b` matches at `q`, for the unit alternatives `unit`. The
      shape of the pattern is stated for any alternatives, so that what is
      proved about the shape needs nothing about the words themselves. */
  predicate UnitAt(t: string, q: nat, unit: string -> bool) {
    exists j :: q < j <= |t| && unit(t[q..j]) && Boundary(t, j)
  }

  /** The end of the run of `p` characters starting at `k`. */
  function RunEnd(t: string, k: nat, p: char -> bool): (r: nat)
    requires k <= |t|
    ensures k <= r <= |t| && (r == |t| || !p(t[r]))
    ensures forall i :: k <= i < r ==> p(t[i])
    decreases |t| - k
  {
    if k < |t| && p(t[k]) then RunEnd(t, k + 1, p) else k
  }

  /** Where a unit has to start after the digits at `p`: past the whole run
      of digits and the whole run of whitespace after it. A match must take
      both runs whole, since no unit starts with a digit or a space. */
  function UnitStart(t: string, p: nat): (q: nat)
    requires p <= |t|
    ensures p <= q <= |t|
  {
    RunEnd(t, RunEnd(t, p, IsDigit), IsRegexSpace)
  }

  /** `\b\d+\s*(<unit>)\b` matches at `p` of the lower-cased text `t`. */
  predicate RadiusAt(t: string, p: nat, unit: string -> bool) {
    p < |t| && IsDigit(t[p]) && Boundary(t, p) && UnitAt(t, UnitStart(t, p), unit)
  }

  /** `\b\d+\s*(<unit>)\b` matches somewhere, case-insensitively. */
  predicate RadiusWith(s: string, unit: string -> bool) {
    exists p :: 0 <= p < |s| && RadiusAt(Downcase(s), p, unit)
  }

  /** `EXPLICIT_RADIUS_PATTERN` matches somewhere. */
  predicate HasRadius(s: string) {
    RadiusWith(s, IsUnit)
  }

  /** `corpus`: the history and the instruction that are not blank, one
      per line. */
  function Corpus(history: string, instruction: string): (r: string)
    ensures Blank(history) ==> r == (if Blank(instruction) then "" else instruction)
    ensures !Blank(history) && Blank(instruction) ==> r == history
    ensures !Blank(history) && !Blank(instruction) ==> r == history + "\n" + instruction
  {
    var parts := (if Blank(history) then [] else [history]) + (if Blank(instruction) then [] else [instruction]);
    if parts == [] then ""
    else if |parts| == 1 then parts[0]
    else
      assert parts == [history, instruction];
      history + "\n" + Join(parts[1..], "\n")
  }

  /** `travel_scope_without_radius?`. */
  predicate TravelScopeWithoutRadius(corpus: string) {
    HasScope(corpus) && !HasRadius(corpus)
  }

  /** `AssumedDefaults.call(instruction:, chat_history_text:)`. */
  function Call(instruction: Value, history: Value, inspect: Value -> string): (r: seq<string>)
    ensures r == [] || r == [TravelRadius]
    ensures r == [TravelRadius] <==>
      TravelScopeWithoutRadius(Corpus(ToS(history, inspect), ToS(instruction, inspect)))
  {
    if TravelScopeWithoutRadius(Corpus(ToS(history, inspect), ToS(instruction, inspect))) then [TravelRadius] else []
  }

  // ---------------------------------------------------------------- properties

  lemma DowncaseJoin(a: string, b: string)
    ensures Downcase(a + "\n" + b) == Downcase(a) + "\n" + Downcase(b)
  {
    var l := Downcase(a + "\n" + b);
    var r := Downcase(a) + "\n" + Downcase(b);
    assert |l| == |r|;
    forall k | 0 <= k < |l| ensures l[k] == r[k] {
      if k < |a| {
        assert (a + "\n" + b)[k] == a[k];
      } else if k == |a| {
        assert (a + "\n" + b)[k] == '\n';
      } else {
        assert (a + "\n" + b)[k] == b[k - |a| - 1];
      }
    }
  }

  /** A unit found in `s` is found in `a + s + b` too. */
  lemma UnitAtShift(a: string, s: string, b: string, q: nat, unit: string -> bool)
    requires UnitAt(s, q, unit)
    requires a == [] || !IsWordChar(a[|a| - 1])
    requires b == [] || !IsWordChar(b[0])
    ensures q < |s| && UnitAt(a + s + b, |a| + q, unit)
  {
    var t := a + s + b;
    var j :| q < j <= |s| && unit(s[q..j]) && Boundary(s, j);
    var w := s[q..j];
    assert |t[|a| + q..|a| + j]| == |w|;
    assert forall i :: 0 <= i < |w| ==> t[|a| + q..|a| + j][i] == t[|a| + q + i] == s[q + i] == w[i];
    assert t[|a| + q..|a| + j] == w;
    BoundaryShift(a, s, b, j);
    assert unit(t[|a| + q..|a| + j]) && Boundary(t, |a| + j);
  }

  /** A run is determined by where it stops. */
  lemma RunEndIs(t: string, k: nat, p: char -> bool, r: nat)
    requires k <= r <= |t| && (r == |t| || !p(t[r]))
    requires forall i :: k <= i < r ==> p(t[i])
    ensures RunEnd(t, k, p) == r
  {
    var x := RunEnd(t, k, p);
    assert x >= r;
  }

  lemma RunEndShift(a: string, s: string, b: string, k: nat, p: char -> bool)
    requires k <= |s| && RunEnd(s, k, p) < |s|
    ensures RunEnd(a + s + b, |a| + k, p) == |a| + RunEnd(s, k, p)
  {
    var t := a + s + b;
    var r := RunEnd(s, k, p);
    assert t[|a| + r] == s[r];
    assert forall i :: |a| + k <= i < |a| + r ==> t[i] == s[i - |a|];
    RunEndIs(t, |a| + k, p, |a| + r);
  }

  lemma UnitStartShift(a: string, s: string, b: string, p: nat)
    requires p <= |s| && UnitStart(s, p) < |s|
    ensures UnitStart(a + s + b, |a| + p) == |a| + UnitStart(s, p)
  {
    var d := RunEnd(s, p, IsDigit);
    RunEndShift(a, s, b, p, IsDigit);
    RunEndShift(a, s, b, d, IsRegexSpace);
  }

  /** A radius found in one part of the corpus is a radius of the corpus:
      the line break between the parts is not a word character. */
  lemma RadiusShift(a: string, s: string, b: string, p: nat, unit: string -> bool)
    requires RadiusAt(s, p, unit)
    requires a == [] || !IsWordChar(a[|a| - 1])
    requires b == [] || !IsWordChar(b[0])
    ensures RadiusAt(a + s + b, |a| + p, unit)
  {
    var t := a + s + b;
    assert t[|a| + p] == s[p];
    BoundaryShift(a, s, b, p);
    UnitAtShift(a, s, b, UnitStart(s, p), unit);
    UnitStartShift(a, s, b, p);
  }

  lemma RadiusBefore(s: string, b: string, p: nat, unit: string -> bool)
    requires RadiusAt(s, p, unit)
    requires b == [] || !IsWordChar(b[0])
    ensures RadiusAt(s + b, p, unit)
  {
    RadiusShift([], s, b, p, unit);
    assert [] + s + b == s + b;
  }

  lemma RadiusAfter(a: string, s: string, p: nat, k: nat, unit: string -> bool)
    requires RadiusAt(s, p, unit) && k == |a| + p
    requires a == [] || !IsWordChar(a[|a| - 1])
    ensures RadiusAt(a + s, k, unit)
  {
    RadiusShift(a, s, [], p, unit);
    assert a + s + [] == a + s;
  }

  lemma RadiusBeforeLine(h: string, n: string, p: nat, unit: string -> bool)
    requires RadiusAt(h, p, unit)
    ensures RadiusAt(h + "\n" + n, p, unit)
  {
    var b := "\n" + n;
    assert b[0] == '\n';
    RadiusBefore(h, b, p, unit);
    assert h + b == h + "\n" + n;
  }

  lemma RadiusAfterLine(h: string, n: string, p: nat, unit: string -> bool)
    requires RadiusAt(n, p, unit)
    ensures RadiusAt(h + "\n" + n, |h| + 1 + p, unit)
  {
    var a := h + "\n";
    assert a[|a| - 1] == '\n';
    RadiusAfter(a, n, p, |h| + 1 + p, unit);
  }

  lemma RadiusNotBlank(s: string, unit: string -> bool)
    requires RadiusWith(s, unit)
    ensures !Blank(s)
  {
    var p :| 0 <= p < |s| && RadiusAt(Downcase(s), p, unit);
    DigitNotSpace(s[p]);
  }

  lemma DigitNotSpace(c: char)
    requires IsDigit(Lower(c))
    ensures IsDigit(c) && !IsUnicodeSpace(c)
  {
  }

  /** A radius in either part is a radius of the corpus. */
  lemma CorpusRadius(history: string, instruction: string, unit: string -> bool)
    requires RadiusWith(history, unit) || RadiusWith(instruction, unit)
    ensures RadiusWith(Corpus(history, instruction), unit)
  {
    var c := Corpus(history, instruction);
    if !Blank(history) && !Blank(instruction) {
      DowncaseJoin(history, instruction);
      var h := Downcase(history);
      var n := Downcase(instruction);
      if RadiusWith(history, unit) {
        var p :| 0 <= p < |history| && RadiusAt(h, p, unit);
        RadiusBeforeLine(h, n, p, unit);
        assert RadiusAt(Downcase(c), p, unit);
      } else {
        var p :| 0 <= p < |instruction| && RadiusAt(n, p, unit);
        RadiusAfterLine(h, n, p, unit);
        assert RadiusAt(Downcase(c), |h| + 1 + p, unit);
      }
    } else if RadiusWith(history, unit) {
      RadiusNotBlank(history, unit);
    } else {
      RadiusNotBlank(instruction, unit);
    }
  }

  /** An explicit radius in the history or in the instruction means no
      default is assumed. */
  lemma RadiusAnywhereSuppresses(instruction: string, history: string, inspect: Value -> string)
    requires HasRadius(history) || HasRadius(instruction)
    ensures Call(Str(instruction), Str(history), inspect) == []
  {
    assert ToS(Str(instruction), inspect) == instruction;
    assert ToS(Str(history), inspect) == history;
    CorpusRadius(history, instruction, IsUnit);
  }

  /** A scope word in the instruction is a scope word of the corpus. */
  lemma ScopeInInstruction(instruction: string, history: string)
    requires HasScope(instruction)
    ensures HasScope(Corpus(history, instruction))
  {
    var c := Corpus(history, instruction);
    var l := Downcase(instruction);
    var p, i :| 0 <= p <= |l| && 0 <= i < |ScopeWords| && WordAt(l, p, ScopeWords[i]);
    if Blank(instruction) {
      BlankNoBoundary(instruction, p);
    }
    if !Blank(history) {
      DowncaseJoin(history, instruction);
      var a := Downcase(history) + "\n";
      assert Downcase(c) == a + l + [];
      HasWordShift(a, l, [], ScopeWords);
    }
  }

  /** Blank text has no word character, so no word boundary. */
  lemma BlankNoBoundary(s: string, k: nat)
    requires Blank(s)
    ensures !Boundary(Downcase(s), k)
  {
    var t := Downcase(s);
    if 0 < k <= |s| {
      assert t[k - 1] == Lower(s[k - 1]);
      SpaceNotWord(s[k - 1]);
    }
    if k < |s| {
      assert t[k] == Lower(s[k]);
      SpaceNotWord(s[k]);
    }
  }

  /** A whitespace character stays one when lower-cased and is no word character. */
  lemma SpaceNotWord(c: char)
    requires IsUnicodeSpace(c)
    ensures !IsWordChar(Lower(c))
  {
  }

  /** Text whose every digit follows a word character names no radius:
      no number there starts at a word boundary. */
  lemma GluedDigitsNoRadius(s: string, unit: string -> bool)
    requires forall k :: 0 <= k < |s| && IsDigit(s[k]) ==> 0 < k && IsWordChar(s[k - 1])
    ensures !RadiusWith(s, unit)
  {
    var t := Downcase(s);
    forall p | 0 <= p < |s|
      ensures !RadiusAt(t, p, unit)
    {
      if IsDigit(t[p]) {
        assert IsDigit(s[p]);
        assert IsWordChar(t[p - 1]);
      }
    }
  }

  /** "golf locations around vienna", with that request in the history,
      assumes the travel radius. */
  lemma AroundViennaExample(inspect: Value -> string)
    ensures Call(Str("golf locations around vienna"), Str("U1: golf locations around vienna"), inspect) == [TravelRadius]
  {
    var instruction := "golf locations around vienna";
    var history := "U1: golf locations around vienna";
    assert ToS(Str(instruction), inspect) == instruction;
    assert ToS(Str(history), inspect) == history;
    AroundViennaScope(instruction, history);
    AroundViennaNoRadius(instruction, history);
  }

  lemma AroundViennaScope(instruction: string, history: string)
    requires instruction == "golf locations around vienna"
    ensures HasScope(Corpus(history, instruction))
  {
    NoCapitals(instruction);
    DowncaseOfLower(instruction);
    AroundAt(instruction);
    assert ScopeWords[0] == "around";
    assert WordAt(Downcase(instruction), 15, ScopeWords[0]);
    ScopeInInstruction(instruction, history);
  }

  lemma NoCapitals(s: string)
    requires s == "golf locations around vienna" || s == "golf locations 90 mins around vienna"
    ensures forall k :: 0 <= k < |s| ==> !IsUpper(s[k])
  {
  }

  lemma AroundAt(l: string)
    requires l == "golf locations around vienna"
    ensures WordAt(l, 15, "around")
  {
    assert l[14] == ' ' && l[15] == 'a' && l[20] == 'd' && l[21] == ' ';
    assert l[15..21] == "around";
  }

  lemma AroundViennaNoRadius(instruction: string, history: string)
    requires instruction == "golf locations around vienna"
    requires history == "U1: golf locations around vienna"
    ensures !HasRadius(Corpus(history, instruction))
  {
    assert !IsUnicodeSpace(history[0]);
    assert !IsUnicodeSpace(instruction[0]);
    var c := history + "\n" + instruction;
    GluedDigits(c);
    GluedDigitsNoRadius(c, IsUnit);
  }

  lemma GluedDigits(c: string)
    requires c == "U1: golf locations around vienna" + "\n" + "golf locations around vienna"
    ensures forall k :: 0 <= k < |c| && IsDigit(c[k]) ==> 0 < k && IsWordChar(c[k - 1])
  {
    assert forall k :: 0 <= k < |c| && k != 1 ==> !IsDigit(c[k]);
    assert IsWordChar(c[0]);
  }

  /** "90 mins" in the instruction suppresses the default. */
  lemma NinetyMinutesExample(inspect: Value -> string)
    ensures Call(Str("golf locations 90 mins around vienna"),
                 Str("U1: golf locations around vienna\nU2: austria\nU3: 90mins around vienna"), inspect) == []
  {
    var instruction := "golf locations 90 mins around vienna";
    NinetyMinutesRadius(instruction);
    RadiusAnywhereSuppresses(instruction, "U1: golf locations around vienna\nU2: austria\nU3: 90mins around vienna", inspect);
  }

  lemma NinetyMinutesRadius(s: string)
    requires s == "golf locations 90 mins around vienna"
    ensures HasRadius(s)
  {
    NoCapitals(s);
    DowncaseOfLower(s);
    NinetyMinutesAt(s);
    assert RadiusAt(Downcase(s), 15, IsUnit);
  }

  lemma NinetyMinutesAt(l: string)
    requires l == "golf locations 90 mins around vienna"
    ensures RadiusAt(l, 15, IsUnit)
  {
    NinetyChars(l);
    NinetyUnit(l);
    RadiusAtOf(l, 15, 17, 18, 22, IsUnit);
  }

  lemma NinetyChars(l: string)
    requires l == "golf locations 90 mins around vienna"
    ensures 22 < |l| && IsDigit(l[15]) && IsDigit(l[16]) && !IsDigit(l[17]) && IsRegexSpace(l[17])
    ensures !IsRegexSpace(l[18]) && Boundary(l, 15) && Boundary(l, 22)
  {
    assert l[14] == ' ' && l[15] == '9' && l[16] == '0' && l[17] == ' ' && l[18] == 'm';
    assert l[21] == 's' && l[22] == ' ';
  }

  lemma NinetyUnit(l: string)
    requires l == "golf locations 90 mins around vienna"
    ensures 22 < |l| && IsUnit(l[18..22])
  {
    assert l[18..22] == "mins";
  }

  /** A radius at `p`: digits up to `e`, whitespace up to `q`, and a unit
      from `q` to a boundary at `j`. */
  lemma RadiusAtOf(t: string, p: nat, e: nat, q: nat, j: nat, unit: string -> bool)
    requires p < e <= q < j <= |t|
    requires (forall i :: p <= i < e ==> IsDigit(t[i])) && !IsDigit(t[e])
    requires (forall i :: e <= i < q ==> IsRegexSpace(t[i])) && !IsRegexSpace(t[q])
    requires Boundary(t, p) && unit(t[q..j]) && Boundary(t, j)
    ensures RadiusAt(t, p, unit)
  {
    RunEndIs(t, p, IsDigit, e);
    RunEndIs(t, e, IsRegexSpace, q);
    assert UnitStart(t, p) == q;
  }
}
