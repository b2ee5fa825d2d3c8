/** `Ai::Usage::Pricing`: per-million-token rates looked up by a normalised
    model name. The environment is a map from variable names to their text and
    decimal parsing (`to_d`) and printing (`to_s`) are parameters. */
module Pricing {
  import opened Text

  const Unknown: string := "UNKNOWN"
  const DefaultInputKey: string := "AI_DEFAULT_INPUT_RATE_PER_1M_USD"
  const DefaultOutputKey: string := "AI_DEFAULT_OUTPUT_RATE_PER_1M_USD"

  // ---------------------------------------------------------------- model names

  /** A character `[A-Z0-9]` keeps. */
  predicate IsNameChar(c: char) { IsUpper(c) || IsDigit(c) }

  predicate IsUnderscore(c: char) { c == '_' }

  /** The shape every normalised name has: non-empty, only `[A-Z0-9_]`, no
      underscore at either end and never two in a row. */
  predicate IsNormalizedName(s: string) {
    s != [] &&
    (forall i :: 0 <= i < |s| ==> IsNameChar(s[i]) || s[i] == '_') &&
    s[0] != '_' && s[|s| - 1] != '_' &&
    (forall i :: 0 <= i < |s| - 1 ==> !(s[i] == '_' && s[i + 1] == '_'))
  }

  /** `gsub(/[^A-Z0-9]+/, "_")`; `open` says whether a run is already replaced. */
  function Underscored(s: string, open: bool): (r: string)
    ensures forall i :: 0 <= i < |r| ==> IsNameChar(r[i]) || r[i] == '_'
    ensures forall i :: 0 <= i < |r| - 1 ==> !(r[i] == '_' && r[i + 1] == '_')
    ensures open ==> (r == [] || r[0] != '_')
  {
    if s == [] then []
    else if IsNameChar(s[0]) then [s[0]] + Underscored(s[1..], false)
    else if open then Underscored(s[1..], true)
    else ['_'] + Underscored(s[1..], true)
  }

  /** Text made of `[A-Z0-9_]` with no two underscores in a row, as
      `Underscored` produces. */
  predicate IsUnderscoredText(s: string) {
    (forall i :: 0 <= i < |s| ==> IsNameChar(s[i]) || s[i] == '_') &&
    (forall i :: 0 <= i < |s| - 1 ==> !(s[i] == '_' && s[i + 1] == '_'))
  }

  lemma SliceOfUnderscoredText(s: string, lo: nat, hi: nat)
    requires IsUnderscoredText(s) && lo <= hi <= |s|
    ensures IsUnderscoredText(s[lo..hi])
  {
    assert forall i :: 0 <= i < hi - lo ==> s[lo..hi][i] == s[lo + i];
  }

  /** `gsub(/\A_+|_+\z/, "")`. */
  function TrimUnderscores(s: string): (r: string)
    requires IsUnderscoredText(s)
    ensures r == [] || IsNormalizedName(r)
  {
    TrimTrailing(TrimLeading(s))
  }

  function TrimLeading(s: string): (r: string)
    requires IsUnderscoredText(s)
    ensures IsUnderscoredText(r) && (r == [] || r[0] != '_')
    ensures |r| <= |s| && r == s[|s| - |r|..] && forall i :: 0 <= i < |s| - |r| ==> s[i] == '_'
  {
    var a := DropLeading(s, IsUnderscore);
    SliceOfUnderscoredText(s, |s| - |a|, |s|);
    a
  }

  function TrimTrailing(s: string): (r: string)
    requires IsUnderscoredText(s)
    ensures IsUnderscoredText(r) && (r == [] || r[|r| - 1] != '_')
    ensures s == [] || s[0] != '_' ==> r == [] || r[0] != '_'
    ensures |r| <= |s| && r == s[..|r|] && forall i :: |r| <= i < |s| ==> s[i] == '_'
  {
    var a := DropTrailing(s, IsUnderscore);
    SliceOfUnderscoredText(s, 0, |a|);
    a
  }

  /** `normalize_model`: upper-cased, runs outside `[A-Z0-9]` become one
      underscore, underscores trimmed at both ends, "UNKNOWN" when nothing is left. */
  function NormalizeModel(model: string): (r: string)
    ensures IsNormalizedName(r)
  {
    var t := TrimUnderscores(Underscored(Upcase(model), false));
    UnknownIsNormalized();
    if Blank(t) then Unknown else t
  }

  lemma UnknownIsNormalized()
    ensures IsNormalizedName(Unknown)
  {
  }

  /** `[A-Z0-9]` characters of a text, in order. */
  function NameChars(s: string): string {
    if s == [] then [] else (if IsNameChar(s[0]) then [s[0]] else []) + NameChars(s[1..])
  }

  /** The ASCII letters and digits of the raw name, upper-cased, in order: an
      independent description of what normalising keeps. */
  function UpperAlnums(s: string): string {
    if s == [] then [] else (if IsAlnum(s[0]) then [Upper(s[0])] else []) + UpperAlnums(s[1..])
  }

  // ---------------------------------------------------------------- rates

  datatype Rates = Rates(inputRatePer1mUsd: real, outputRatePer1mUsd: real)

  function InputKey(name: string): string { "AI_PRICE_" + name + "_INPUT_PER_1M_USD" }
  function OutputKey(name: string): string { "AI_PRICE_" + name + "_OUTPUT_PER_1M_USD" }

  /** `ENV.fetch(key, default)`. */
  function Fetch(env: map<string, string>, key: string, default: string): string {
    if key in env then env[key] else default
  }

  /** DEFAULT_INPUT_RATE and DEFAULT_OUTPUT_RATE. */
  function DefaultRates(env: map<string, string>, toD: string -> real): Rates {
    Rates(toD(Fetch(env, DefaultInputKey, "0")), toD(Fetch(env, DefaultOutputKey, "0")))
  }

  /** `for_model`. */
  function ForModel(model: string, env: map<string, string>, toD: string -> real, toS: real -> string): (r: Rates)
    ensures InputKey(NormalizeModel(model)) in env ==> r.inputRatePer1mUsd == toD(env[InputKey(NormalizeModel(model))])
    ensures OutputKey(NormalizeModel(model)) in env ==> r.outputRatePer1mUsd == toD(env[OutputKey(NormalizeModel(model))])
  {
    var name := NormalizeModel(model);
    var d := DefaultRates(env, toD);
    Rates(toD(Fetch(env, InputKey(name), toS(d.inputRatePer1mUsd))),
          toD(Fetch(env, OutputKey(name), toS(d.outputRatePer1mUsd))))
  }

  // ---------------------------------------------------------------- properties

  lemma NameCharsAppend(a: string, b: string)
    ensures NameChars(a + b) == NameChars(a) + NameChars(b)
  {
    if a != [] {
      NameCharsAppend(a[1..], b);
      assert (a + b)[1..] == a[1..] + b;
    } else {
      assert a + b == b;
    }
  }

  lemma {:induction false} NameCharsOfUnderscores(s: string)
    requires forall i :: 0 <= i < |s| ==> s[i] == '_'
    ensures NameChars(s) == []
  {
    if s != [] {
      NameCharsOfUnderscores(s[1..]);
    }
  }

  lemma {:induction false} NameCharsOfUpcase(s: string)
    ensures NameChars(Upcase(s)) == UpperAlnums(s)
  {
    if s != [] {
      NameCharsOfUpcase(s[1..]);
      assert Upcase(s) == [Upper(s[0])] + Upcase(s[1..]);
      NameCharsAppend([Upper(s[0])], Upcase(s[1..]));
    }
  }

  lemma {:induction false} NameCharsOfUnderscored(s: string, open: bool)
    ensures NameChars(Underscored(s, open)) == NameChars(s)
  {
    if s != [] {
      NameCharsOfUnderscored(s[1..], !IsNameChar(s[0]));
      if IsNameChar(s[0]) {
        NameCharsAppend([s[0]], Underscored(s[1..], false));
      } else if !open {
        NameCharsAppend(['_'], Underscored(s[1..], true));
      }
    }
  }

  lemma NameCharsOfTrim(s: string)
    requires IsUnderscoredText(s)
    ensures NameChars(TrimUnderscores(s)) == NameChars(s)
  {
    NameCharsOfTrimLeading(s);
    NameCharsOfTrimTrailing(TrimLeading(s));
  }

  lemma NameCharsOfTrimLeading(s: string)
    requires IsUnderscoredText(s)
    ensures NameChars(TrimLeading(s)) == NameChars(s)
  {
    var a := TrimLeading(s);
    var k := |s| - |a|;
    assert s == s[..k] + a;
    NameCharsAppend(s[..k], a);
    NameCharsOfUnderscores(s[..k]);
  }

  lemma NameCharsOfTrimTrailing(s: string)
    requires IsUnderscoredText(s)
    ensures NameChars(TrimTrailing(s)) == NameChars(s)
  {
    var r := TrimTrailing(s);
    assert s == r + s[|r|..];
    NameCharsAppend(r, s[|r|..]);
    NameCharsOfUnderscores(s[|r|..]);
  }

  /** A normalised name is never blank. */
  lemma NormalizedNotBlank(s: string)
    requires IsNormalizedName(s)
    ensures !Blank(s) && NameChars(s) != []
  {
    assert s == [s[0]] + s[1..];
    NameCharsAppend([s[0]], s[1..]);
  }

  /** Normalising keeps exactly the ASCII letters and digits of the model
      name, upper-cased and in order, and yields "UNKNOWN" when there are none. */
  lemma NormalizeModelKeepsAlnums(model: string)
    ensures UpperAlnums(model) == [] ==> NormalizeModel(model) == Unknown
    ensures UpperAlnums(model) != [] ==> NameChars(NormalizeModel(model)) == UpperAlnums(model)
  {
    var u := Underscored(Upcase(model), false);
    var t := TrimUnderscores(u);
    NameCharsOfUpcase(model);
    NameCharsOfUnderscored(Upcase(model), false);
    NameCharsOfTrim(u);
    if t != [] {
      NormalizedNotBlank(t);
    }
  }

  lemma {:induction false} UnderscoredOfNormalized(s: string, open: bool)
    requires IsUnderscoredText(s)
    requires open ==> (s == [] || s[0] != '_')
    ensures Underscored(s, open) == s
  {
    if s != [] {
      SliceOfUnderscoredText(s, 1, |s|);
      UnderscoredOfNormalized(s[1..], !IsNameChar(s[0]));
    }
  }

  lemma UpcaseOfNormalized(s: string)
    requires forall i :: 0 <= i < |s| ==> IsNameChar(s[i]) || s[i] == '_'
    ensures Upcase(s) == s
  {
  }

  /** A normalised name normalises to itself. */
  lemma NormalizedIsFixed(s: string)
    requires IsNormalizedName(s)
    ensures NormalizeModel(s) == s
  {
    UpcaseOfNormalized(s);
    UnderscoredOfNormalized(s, false);
    NormalizedNotBlank(s);
  }

  /** Normalising twice is normalising once. */
  lemma NormalizeModelIdempotent(model: string)
    ensures NormalizeModel(NormalizeModel(model)) == NormalizeModel(model)
  {
    NormalizedIsFixed(NormalizeModel(model));
  }

  /** Without a per-model variable the rate is the default one, when printing
      and re-parsing the default decimal gives it back. */
  lemma RatesFallBack(model: string, env: map<string, string>, toD: string -> real, toS: real -> string)
    requires InputKey(NormalizeModel(model)) !in env && OutputKey(NormalizeModel(model)) !in env
    requires forall x :: toD(toS(x)) == x
    ensures ForModel(model, env, toD, toS) == DefaultRates(env, toD)
  {
  }

  /** Models whose names normalise alike are priced alike. */
  lemma SameNameSameRates(a: string, b: string, env: map<string, string>, toD: string -> real, toS: real -> string)
    requires NormalizeModel(a) == NormalizeModel(b)
    ensures ForModel(a, env, toD, toS) == ForModel(b, env, toD, toS)
  {
  }
}
