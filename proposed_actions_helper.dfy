/** `ProposedActionsHelper#extract_concrete_context_suggestions`: the
    follow-up questions worth showing next to the assistant's proposed
    actions. Every action contributes its `suggestions` and `questions`
    (or, when both are empty, its prompt template, title or subject); each
    is normalized, and what is blank, repeats the current instruction, reads
    as a placeholder, an example or a generic field label, or is not a
    concrete question or sentence is dropped. What is left is de-duplicated
    and cut to the limit. Lower-casing is ASCII only. */
module ProposedActionsHelper {
  import opened Wrappers
  import opened Text
  import opened Values
  import opened Patterns

  const DefaultLimit: nat := 2

  /** An action as the helper sees it: an object with a `payload`, or one
      without. */
  datatype Action = WithPayload(payload: Value) | WithoutPayload

  // ---------------------------------------------------------------- gathering

  /** The payload when it is a Hash, else `{}`. */
  function PayloadOf(a: Action): seq<(Key, Value)> {
    if a.WithPayload? && a.payload.Hash? then a.payload.entries else []
  }

  function Field(entries: seq<(Key, Value)>, name: string): Value {
    Get(entries, StrKey(name)).GetOr(Nil)
  }

  /** `value.to_s.presence`. */
  function PresentText(v: Value, inspect: Value -> string): (r: Option<string>)
    ensures r.Some? ==> !Blank(r.value) && r.value == ToS(v, inspect)
    ensures r.None? ==> Blank(ToS(v, inspect))
  {
    var s := ToS(v, inspect);
    if Blank(s) then None else Some(s)
  }

  /** The first present one of `prompt_template`, `title` and `subject`. */
  function Fallback(entries: seq<(Key, Value)>, inspect: Value -> string): (r: Option<string>)
    ensures r.Some? ==> !Blank(r.value)
  {
    match PresentText(Field(entries, "prompt_template"), inspect)
    case Some(s) => Some(s)
    case None =>
      match PresentText(Field(entries, "title"), inspect)
      case Some(s) => Some(s)
      case None => PresentText(Field(entries, "subject"), inspect)
  }

  /** `Array(payload["suggestions"]) + Array(payload["questions"])`. */
  function Listed(entries: seq<(Key, Value)>): seq<Value> {
    ToArray(Field(entries, "suggestions")) + ToArray(Field(entries, "questions"))
  }

  /** What one action contributes. */
  function Raw(a: Action, inspect: Value -> string): (r: seq<Value>)
    ensures Listed(PayloadOf(a)) != [] ==> r == Listed(PayloadOf(a))
    ensures Listed(PayloadOf(a)) == [] ==>
      (r == [] <==> Fallback(PayloadOf(a), inspect).None?) &&
      (r != [] ==> r == [Str(Fallback(PayloadOf(a), inspect).value)] && !Blank(r[0].s))
  {
    var entries := PayloadOf(a);
    var raw := Listed(entries);
    if raw != [] then raw
    else
      match Fallback(entries, inspect)
      case Some(f) => [Str(f)]
      case None => []
  }

  /** The `flat_map` over the actions. */
  function Suggestions(actions: seq<Action>, inspect: Value -> string): (r: seq<Value>)
    ensures forall v :: v in r <==> exists i :: 0 <= i < |actions| && v in Raw(actions[i], inspect)
  {
    var parts := seq(|actions|, i requires 0 <= i < |actions| => Raw(actions[i], inspect));
    assert forall i :: 0 <= i < |actions| ==> parts[i] == Raw(actions[i], inspect);
    Flatten(parts)
  }

  /** The parts one after another. */
  function Flatten(parts: seq<seq<Value>>): (r: seq<Value>)
    ensures forall v :: v in r <==> exists i :: 0 <= i < |parts| && v in parts[i]
  {
    if parts == [] then []
    else
      var rest := Flatten(parts[1..]);
      FlattenStep(parts, rest);
      parts[0] + rest
  }

  /** The first part in front of the others. */
  lemma FlattenStep(parts: seq<seq<Value>>, rest: seq<Value>)
    requires parts != []
    requires forall v :: v in rest <==> exists i :: 0 <= i < |parts[1..]| && v in parts[1..][i]
    ensures forall v :: v in parts[0] + rest <==> exists i :: 0 <= i < |parts| && v in parts[i]
  {
    assert forall i :: 1 <= i < |parts| ==> parts[i] == parts[1..][i - 1];
  }

  // ---------------------------------------------------------------- normalize

  predicate IsQuote(c: char) { c == '"' || c == '\'' }

  /** `tr("“”", "\"").tr("‘’", "'")` on one character. */
  function Straight(c: char): char {
    if c == '\U{201C}' || c == '\U{201D}' then '"'
    else if c == '\U{2018}' || c == '\U{2019}' then '\''
    else c
  }

  function StraightQuotes(s: string): (r: string)
    ensures |r| == |s|
    ensures forall i :: 0 <= i < |s| ==> r[i] == Straight(s[i])
  {
    if s == [] then [] else [Straight(s[0])] + StraightQuotes(s[1..])
  }

  /** `sub(/\s+["']\z/, "")`: a final quote with whitespace before it goes,
      with that whitespace. */
  function DropSpacedQuote(s: string): string {
    if |s| >= 2 && IsQuote(s[|s| - 1]) && IsRegexSpace(s[|s| - 2]) then DropTrailing(s[..|s| - 1], IsRegexSpace)
    else s
  }

  /** The text after the quote substitutions, before the final strip. */
  function Unquoted(s: string): string {
    DropSpacedQuote(DropTrailing(DropLeading(Squish(StraightQuotes(s)), IsQuote), IsQuote))
  }

  /** `normalize_context_suggestion`. */
  function Normalize(v: Value, inspect: Value -> string): string {
    Strip(Unquoted(ToS(v, inspect)))
  }

  // ---------------------------------------------------------------- low signal

  const ConfirmWords: seq<string> := ["confirm", "confirmation"]
  const ContextWords: seq<string> := ["already", "current", "existing", "same", "above", "this"]
  const ExamplePhrases: seq<string> := ["e.g.", "for example", "such as"]
  const GenericPhrases: seq<string> :=
    ["reason for", "preferred appointment window", "specific symptoms", "prescription renewal",
     "urgency", "target audience", "preferred depth", "time horizon"]

  /** `/\bok\?\s*\z/`. */
  predicate OkAtEnd(s: string) {
    exists p :: 0 <= p && p + 3 <= |s| && Boundary(s, p) && s[p..p + 3] == "ok?" &&
      forall k :: p + 3 <= k < |s| ==> IsRegexSpace(s[k])
  }

  /** `open [^close]+ close`: an opening character, at least one other
      character, and the closing one. */
  predicate Enclosed(s: string, open: char, close: char) {
    exists i, j :: 0 <= i && i + 1 < j < |s| && s[i] == open && s[j] == close &&
      forall k :: i < k < j ==> s[k] != close
  }

  /** `/\[[^\]]+\]|\{[^}]+\}|<[^>]+>/`: placeholders like "[DATE]". */
  predicate Placeholder(s: string) {
    Enclosed(s, '[', ']') || Enclosed(s, '{', '}') || Enclosed(s, '<', '>')
  }

  /** `/|,|\bor\b` at `m`, inside a parenthesis that closes at `j`. */
  predicate SeparatorAt(s: string, m: nat, j: nat)
    requires m < |s|
  {
    s[m] == '/' || s[m] == ',' || (m + 2 <= j && WordAt(s, m, "or"))
  }

  /** `/\([^)]*(\/|,|\bor\b)[^)]*\)/`: a parenthetical listing
      alternatives. */
  predicate AlternativesInParens(s: string) {
    exists i, j :: 0 <= i < j < |s| && s[i] == '(' && s[j] == ')' &&
      (forall k :: i < k < j ==> s[k] != ')') &&
      exists m :: i < m < j && SeparatorAt(s, m, j)
  }

  /** `/\b(e\.g\.|for example|such as)\b/` as written: after the final
      period of "e.g." a boundary needs a word character next. */
  predicate ExamplePhraseAsWritten(s: string) {
    HasWord(s, ExamplePhrases)
  }

  /** The example phrases with the closing boundary kept only after the
      words: `/\b(e\.g\.|for example\b|such as\b)/`. */
  predicate ExamplePhrase(s: string) {
    (exists p :: 0 <= p <= |s| && TextAt(s, p, "e.g.") && Boundary(s, p)) ||
    HasWord(s, ["for example", "such as"])
  }

  /** The tests of `low_signal_context_suggestion?` other than the example
      phrases, on the lower-cased text. */
  predicate OtherLowSignal(s: string) {
    Blank(s) ||
    Contains(s, "single-sentence confirmation") ||
    OkAtEnd(s) ||
    (HasWord(s, ConfirmWords) && HasWord(s, ContextWords)) ||
    Placeholder(s) ||
    AlternativesInParens(s) ||
    HasWord(s, GenericPhrases)
  }

  /** `low_signal_context_suggestion?` as written. */
  predicate LowSignalAsWritten(value: string) {
    var s := Downcase(value);
    OtherLowSignal(s) || ExamplePhraseAsWritten(s)
  }

  /** `low_signal_context_suggestion?` with the example phrases matched as
      intended. */
  predicate LowSignal(value: string) {
    var s := Downcase(value);
    OtherLowSignal(s) || ExamplePhrase(s)
  }

  // ---------------------------------------------------------------- concrete

  /** `concrete_context_suggestion?`: at least 16 characters once stripped,
      ending in "?" or ".", and at least four words. */
  predicate Concrete(value: string) {
    var s := Strip(value);
    |s| >= 16 && (EndsWith(s, "?") || EndsWith(s, ".")) && |Words(s)| >= 4
  }

  // ---------------------------------------------------------------- pipeline

  /** A normalized suggestion survives the `reject`s and the `select`. */
  predicate Keep(value: string, instruction: string) {
    !Blank(value) && Downcase(value) != instruction && !LowSignalAsWritten(value) && Concrete(value)
  }

  /** `map` over the suggestions. */
  function MapText(vs: seq<Value>, f: Value -> string): (r: seq<string>)
    ensures |r| == |vs|
    ensures forall i :: 0 <= i < |vs| ==> r[i] == f(vs[i])
  {
    if vs == [] then [] else [f(vs[0])] + MapText(vs[1..], f)
  }

  /** The normalized suggestions of the actions, in order. */
  function NormalizeAll(vs: seq<Value>, inspect: Value -> string): (r: seq<string>)
    ensures |r| == |vs|
    ensures forall i :: 0 <= i < |vs| ==> r[i] == Normalize(vs[i], inspect)
  {
    MapText(vs, v => Normalize(v, inspect))
  }

  function Kept(values: seq<string>, instruction: string): (r: seq<string>)
    ensures forall x :: x in r <==> x in values && Keep(x, instruction)
    ensures |r| <= |values|
    ensures (forall x :: x in values ==> !Keep(x, instruction)) ==> r == []
  {
    if values == [] then []
    else
      var rest := Kept(values[1..], instruction);
      KeptStep(values, rest, instruction);
      if Keep(values[0], instruction) then [values[0]] + rest else rest
  }

  /** The first value kept or not in front of what is kept of the rest. */
  lemma KeptStep(values: seq<string>, rest: seq<string>, instruction: string)
    requires values != []
    requires forall x :: x in rest <==> x in values[1..] && Keep(x, instruction)
    requires |rest| <= |values| - 1
    requires (forall x :: x in values[1..] ==> !Keep(x, instruction)) ==> rest == []
    ensures var r := if Keep(values[0], instruction) then [values[0]] + rest else rest;
      (forall x :: x in r <==> x in values && Keep(x, instruction)) && |r| <= |values| &&
      ((forall x :: x in values ==> !Keep(x, instruction)) ==> r == [])
  {
    assert forall x :: x in values <==> x == values[0] || x in values[1..];
  }

  predicate Distinct(xs: seq<string>) {
    forall i, j :: 0 <= i < j < |xs| ==> xs[i] != xs[j]
  }

  /** The position of the first occurrence of `x`. */
  function FirstIndex(xs: seq<string>, x: string): (i: nat)
    requires x in xs
    ensures i < |xs| && xs[i] == x
    ensures forall k :: 0 <= k < i ==> xs[k] != x
  {
    if xs[0] == x then 0 else 1 + FirstIndex(xs[1..], x)
  }

  /** The first occurrence is the only position with no earlier one. */
  lemma FirstIndexUnique(xs: seq<string>, x: string, i: nat)
    requires i < |xs| && xs[i] == x && forall k :: 0 <= k < i ==> xs[k] != x
    ensures FirstIndex(xs, x) == i
  {
  }

  /** Appending an element moves no first occurrence of the others. */
  lemma FirstIndexAppend(init: seq<string>, last: string)
    ensures forall x :: x in init ==> FirstIndex(init + [last], x) == FirstIndex(init, x)
    ensures last !in init ==> FirstIndex(init + [last], last) == |init|
  {
    var xs := init + [last];
    forall x | x in init ensures FirstIndex(xs, x) == FirstIndex(init, x) {
      FirstIndexUnique(xs, x, FirstIndex(init, x));
    }
    if last !in init {
      FirstIndexUnique(xs, last, |init|);
    }
  }

  /** `uniq`: the first occurrence of each element, in the order of those
      first occurrences. */
  function Uniq(xs: seq<string>): (r: seq<string>)
    ensures Distinct(r)
    ensures forall x :: x in r <==> x in xs
    ensures |r| <= |xs|
    ensures forall i, j :: 0 <= i < j < |r| ==> FirstIndex(xs, r[i]) < FirstIndex(xs, r[j])
    decreases |xs|
  {
    if xs == [] then []
    else
      var init := xs[..|xs| - 1];
      var last := xs[|xs| - 1];
      assert xs == init + [last];
      var r := Uniq(init);
      FirstIndexAppend(init, last);
      if last in r then r else r + [last]
  }

  /** `squish.downcase` of the current instruction. */
  function InstructionKey(currentInstruction: Value, inspect: Value -> string): string {
    Downcase(Squish(ToS(currentInstruction, inspect)))
  }

  /** `extract_concrete_context_suggestions(actions:, current_instruction:, limit:)`. */
  function Extract(actions: seq<Action>, currentInstruction: Value, limit: nat, inspect: Value -> string): (r: seq<string>)
    ensures r == Take(Uniq(Kept(NormalizeAll(Suggestions(actions, inspect), inspect),
                               InstructionKey(currentInstruction, inspect))), limit)
    ensures |r| <= limit && Distinct(r)
    ensures forall x :: x in r ==>
      x in NormalizeAll(Suggestions(actions, inspect), inspect) && Keep(x, InstructionKey(currentInstruction, inspect))
    ensures |r| < limit ==> forall x ::
      x in NormalizeAll(Suggestions(actions, inspect), inspect) && Keep(x, InstructionKey(currentInstruction, inspect)) ==> x in r
    ensures (forall x :: x in NormalizeAll(Suggestions(actions, inspect), inspect) ==>
      !Keep(x, InstructionKey(currentInstruction, inspect))) ==> r == []
  {
    var values := NormalizeAll(Suggestions(actions, inspect), inspect);
    var key := InstructionKey(currentInstruction, inspect);
    var all := Uniq(Kept(values, key));
    TakeOfKept(values, key, all, limit);
    Take(all, limit)
  }

  /** The first `limit` of the distinct kept values. */
  lemma TakeOfKept(values: seq<string>, key: string, all: seq<string>, limit: nat)
    requires Distinct(all) && forall x :: x in all <==> x in values && Keep(x, key)
    ensures var r := Take(all, limit);
      |r| <= limit && Distinct(r) && (forall x :: x in r ==> x in values && Keep(x, key)) &&
      (|r| < limit ==> forall x :: x in values && Keep(x, key) ==> x in r) &&
      ((forall x :: x in values ==> !Keep(x, key)) ==> r == [])
  {
    var r := Take(all, limit);
    assert forall x :: x in r ==> x in all;
    TakeDistinct(all, limit);
    if all != [] {
      assert all[0] in values && Keep(all[0], key);
    }
  }

  lemma TakeDistinct(xs: seq<string>, n: nat)
    requires Distinct(xs)
    ensures Distinct(Take(xs, n))
  {
    var r := Take(xs, n);
    assert forall i :: 0 <= i < |r| ==> r[i] == xs[i];
  }

  // ---------------------------------------------------------------- properties

  /** `uniq` keeps a list without repetitions as it is. */
  lemma {:induction false} UniqOfDistinct(xs: seq<string>)
    requires Distinct(xs)
    ensures Uniq(xs) == xs
    decreases |xs|
  {
    if xs != [] {
      var init := xs[..|xs| - 1];
      var last := xs[|xs| - 1];
      assert Distinct(init);
      UniqOfDistinct(init);
      assert last !in init;
    }
  }

  /** Low-signal text never survives the filter, whatever the instruction. */
  lemma LowSignalDropped(actions: seq<Action>, currentInstruction: Value, limit: nat, inspect: Value -> string, x: string)
    requires LowSignalAsWritten(x)
    ensures x !in Extract(actions, currentInstruction, limit, inspect)
  {
  }

  /** A suggestion that repeats the instruction, ignoring case and extra
      whitespace, is dropped. */
  lemma InstructionEchoDropped(actions: seq<Action>, currentInstruction: Value, limit: nat, inspect: Value -> string, x: string)
    requires Downcase(x) == InstructionKey(currentInstruction, inspect)
    ensures x !in Extract(actions, currentInstruction, limit, inspect)
  {
  }

  /** No action, or only low-signal ones, gives nothing. */
  lemma AllLowSignalNothing(actions: seq<Action>, currentInstruction: Value, limit: nat, inspect: Value -> string)
    requires forall v :: v in Suggestions(actions, inspect) ==> LowSignalAsWritten(Normalize(v, inspect))
    ensures Extract(actions, currentInstruction, limit, inspect) == []
  {
    NormalizedLowSignal(Suggestions(actions, inspect), inspect);
  }

  lemma NormalizedLowSignal(s: seq<Value>, inspect: Value -> string)
    requires forall v :: v in s ==> LowSignalAsWritten(Normalize(v, inspect))
    ensures forall x :: x in NormalizeAll(s, inspect) ==> LowSignalAsWritten(x)
  {
    var all := NormalizeAll(s, inspect);
    forall x | x in all
      ensures LowSignalAsWritten(x)
    {
      var i :| 0 <= i < |all| && all[i] == x;
      assert s[i] in s;
    }
  }

  /** The third substitution of `normalize_context_suggestion` never
      changes anything: after the trailing quotes are removed the text does
      not end in a quote. */
  lemma SpacedQuoteInert(s: string)
    ensures DropSpacedQuote(DropTrailing(s, IsQuote)) == DropTrailing(s, IsQuote)
  {
  }

  /** Normalized text has no whitespace at either end, and every Unicode
      whitespace character in it is a single plain space. */
  lemma NormalizeClean(v: Value, inspect: Value -> string)
    ensures var r := Normalize(v, inspect);
      Squeezed(r, IsUnicodeSpace) && (r == [] || (!IsStripSpace(r[0]) && !IsStripSpace(r[|r| - 1])))
  {
    var s := ToS(v, inspect);
    var u := Unquoted(s);
    UnquotedSqueezed(s);
    StripSqueezed(u);
    assert Normalize(v, inspect) == Strip(u);
  }

  lemma UnquotedSqueezed(s: string)
    ensures Squeezed(Unquoted(s), IsUnicodeSpace)
  {
    var sq := Squish(StraightQuotes(s));
    SquishSqueezed(StraightQuotes(s));
    var a := DropLeading(sq, IsQuote);
    DropLeadingSqueezed(sq, IsQuote);
    var b := DropTrailing(a, IsQuote);
    DropTrailingSqueezed(a, IsQuote);
    SpacedQuoteInert(a);
    assert Unquoted(s) == b;
  }

  lemma DropLeadingSqueezed(s: string, p: char -> bool)
    requires Squeezed(s, IsUnicodeSpace)
    ensures Squeezed(DropLeading(s, p), IsUnicodeSpace)
  {
    var a := DropLeading(s, p);
    SqueezedSlice(s, IsUnicodeSpace, |s| - |a|, |s|);
  }

  lemma DropTrailingSqueezed(s: string, p: char -> bool)
    requires Squeezed(s, IsUnicodeSpace)
    ensures Squeezed(DropTrailing(s, p), IsUnicodeSpace)
  {
    SqueezedSlice(s, IsUnicodeSpace, 0, |DropTrailing(s, p)|);
  }

  lemma StripSqueezed(b: string)
    requires Squeezed(b, IsUnicodeSpace)
    ensures var c := Strip(b); Squeezed(c, IsUnicodeSpace) && (c == [] || (!IsStripSpace(c[0]) && !IsStripSpace(c[|c| - 1])))
  {
    StrippedSqueezed(b, IsUnicodeSpace);
  }

  lemma SquishSqueezed(s: string)
    ensures Squeezed(Squish(s), IsUnicodeSpace)
  {
    var c := Collapse(s, IsUnicodeSpace);
    StrippedSqueezed(c, IsUnicodeSpace);
  }

  /** Text that is already clean (single plain spaces, no quotes at the
      ends, no curly quotes, nothing to strip) is its own normalization. */
  lemma NormalizeCleanText(t: string, inspect: Value -> string)
    requires t != [] && Squeezed(t, IsUnicodeSpace)
    requires !IsStripSpace(t[0]) && !IsStripSpace(t[|t| - 1])
    requires !IsQuote(t[0]) && !IsQuote(t[|t| - 1])
    requires forall k :: 0 <= k < |t| ==> Straight(t[k]) == t[k]
    ensures Normalize(Str(t), inspect) == t
  {
    assert ToS(Str(t), inspect) == t;
    assert StraightQuotes(t) == t;
    SquishFixed(t);
    StripOfTrimmed(t);
  }

  lemma SquishFixed(t: string)
    requires t != [] && Squeezed(t, IsUnicodeSpace)
    requires !IsStripSpace(t[0]) && !IsStripSpace(t[|t| - 1])
    ensures Squish(t) == t
  {
    CollapseFixed(t, IsUnicodeSpace, false);
    StripOfTrimmed(t);
  }

  /** Quotes around clean text are removed: `"Which day?"` becomes
      `Which day?`. */
  lemma NormalizeQuoted(open: string, t: string, close: string, inspect: Value -> string)
    requires t != [] && Squeezed(t, IsUnicodeSpace)
    requires !IsStripSpace(t[0]) && !IsStripSpace(t[|t| - 1])
    requires !IsQuote(t[0]) && !IsQuote(t[|t| - 1])
    requires forall k :: 0 <= k < |t| ==> Straight(t[k]) == t[k]
    requires forall k :: 0 <= k < |open| ==> IsQuote(open[k])
    requires forall k :: 0 <= k < |close| ==> IsQuote(close[k])
    ensures Normalize(Str(open + t + close), inspect) == t
  {
    var s := open + t + close;
    assert ToS(Str(s), inspect) == s;
    QuotedStraight(open, t, close);
    QuotedUnquoted(open, t, close);
    StripOfTrimmed(t);
  }

  lemma QuotedStraight(open: string, t: string, close: string)
    requires forall k :: 0 <= k < |t| ==> Straight(t[k]) == t[k]
    requires forall k :: 0 <= k < |open| ==> IsQuote(open[k])
    requires forall k :: 0 <= k < |close| ==> IsQuote(close[k])
    ensures StraightQuotes(open + t + close) == open + t + close
  {
    var s := open + t + close;
    forall k | 0 <= k < |s| ensures Straight(s[k]) == s[k] {
      if k < |open| {
        assert s[k] == open[k];
      } else if k < |open| + |t| {
        assert s[k] == t[k - |open|];
      } else {
        assert s[k] == close[k - |open| - |t|];
      }
    }
  }

  lemma QuotedUnquoted(open: string, t: string, close: string)
    requires t != [] && Squeezed(t, IsUnicodeSpace)
    requires !IsStripSpace(t[0]) && !IsStripSpace(t[|t| - 1])
    requires !IsQuote(t[0]) && !IsQuote(t[|t| - 1])
    requires forall k :: 0 <= k < |open| ==> IsQuote(open[k])
    requires forall k :: 0 <= k < |close| ==> IsQuote(close[k])
    requires StraightQuotes(open + t + close) == open + t + close
    ensures Unquoted(open + t + close) == t
  {
    var s := open + t + close;
    QuotedSquish(open, t, close);
    QuotesAround(open, t, close);
    SpacedQuoteInert(DropLeading(s, IsQuote));
    assert Unquoted(s) == DropSpacedQuote(DropTrailing(DropLeading(s, IsQuote), IsQuote));
  }

  lemma QuotesAround(open: string, t: string, close: string)
    requires t != [] && !IsQuote(t[0]) && !IsQuote(t[|t| - 1])
    requires forall k :: 0 <= k < |open| ==> IsQuote(open[k])
    requires forall k :: 0 <= k < |close| ==> IsQuote(close[k])
    ensures DropTrailing(DropLeading(open + t + close, IsQuote), IsQuote) == t
  {
    var tc := t + close;
    assert open + t + close == open + tc;
    LeadingQuotes(open, tc);
    TrailingQuotes(t, close);
  }

  lemma QuotedSquish(open: string, t: string, close: string)
    requires t != [] && Squeezed(t, IsUnicodeSpace)
    requires !IsStripSpace(t[0]) && !IsStripSpace(t[|t| - 1])
    requires forall k :: 0 <= k < |open| ==> IsQuote(open[k])
    requires forall k :: 0 <= k < |close| ==> IsQuote(close[k])
    ensures Squish(open + t + close) == open + t + close
  {
    var s := open + t + close;
    assert forall k :: 0 <= k < |s| ==> s[k] == (if k < |open| then open[k] else if k < |open| + |t| then t[k - |open|] else close[k - |open| - |t|]);
    assert Squeezed(s, IsUnicodeSpace);
    assert s[0] == (if open == [] then t[0] else open[0]);
    assert s[|s| - 1] == (if close == [] then t[|t| - 1] else close[|close| - 1]);
    SquishFixed(s);
  }

  lemma {:induction false} LeadingQuotes(q: string, rest: string)
    requires forall k :: 0 <= k < |q| ==> IsQuote(q[k])
    requires rest != [] && !IsQuote(rest[0])
    ensures DropLeading(q + rest, IsQuote) == rest
  {
    if q == [] {
      assert q + rest == rest;
    } else {
      assert (q + rest)[1..] == q[1..] + rest;
      LeadingQuotes(q[1..], rest);
    }
  }

  lemma {:induction false} TrailingQuotes(t: string, q: string)
    requires forall k :: 0 <= k < |q| ==> IsQuote(q[k])
    requires t != [] && !IsQuote(t[|t| - 1])
    ensures DropTrailing(t + q, IsQuote) == t
    decreases |q|
  {
    if q == [] {
      assert t + q == t;
    } else {
      var q' := q[..|q| - 1];
      assert (t + q)[..|t + q| - 1] == t + q';
      TrailingQuotes(t, q');
    }
  }

  // ---------------------------------------------------------------- the example phrases

  /** As written, "e.g." followed by a space is not an example phrase. */
  lemma ExampleMissedAsWritten()
    ensures !ExamplePhraseAsWritten("e.g. x")
  {
    var s := "e.g. x";
    assert ExamplePhrases[0] == "e.g." && |ExamplePhrases[1]| > |s| && |ExamplePhrases[2]| > |s|;
    assert s[3] == '.' && s[4] == ' ';
    assert !Boundary(s, 4);
    forall p, i | 0 <= p <= |s| && 0 <= i < |ExamplePhrases|
      ensures !WordAt(s, p, ExamplePhrases[i])
    {
      if i == 0 && p != 0 {
        assert p + 4 > |s| || s[p] != 'e';
      }
    }
  }

  /** With the boundary kept before "e.g." only, the same text is an
      example phrase and so low-signal. */
  lemma ExampleCaught()
    ensures ExamplePhrase("e.g. x") && LowSignal("e.g. x")
  {
    var s := "e.g. x";
    assert TextAt(s, 0, "e.g.") && Boundary(s, 0);
    assert Downcase(s) == s;
  }

  // ---------------------------------------------------------------- examples

  /** Text with no curly quotes and no whitespace other than single
      spaces, with none at the ends: it is its own normalization. */
  predicate Plain(t: string) {
    t != [] && t[0] != ' ' && t[|t| - 1] != ' ' &&
    (forall k :: 0 <= k < |t| ==> !IsUnicodeSpace(t[k]) || t[k] == ' ') &&
    (forall k :: 0 <= k < |t| - 1 ==> !(t[k] == ' ' && t[k + 1] == ' ')) &&
    (forall k :: 0 <= k < |t| ==> Straight(t[k]) == t[k])
  }

  lemma PlainNormalized(t: string, inspect: Value -> string)
    requires Plain(t) && !IsQuote(t[0]) && !IsQuote(t[|t| - 1]) && t[0] != '\0' && t[|t| - 1] != '\0'
    ensures Normalize(Str(t), inspect) == t
  {
    assert !IsStripSpace(t[0]) && !IsStripSpace(t[|t| - 1]);
    NormalizeCleanText(t, inspect);
  }

  /** An action whose payload has only the given `suggestions`. */
  function SuggestionAction(items: seq<Value>): Action {
    WithPayload(Hash([(StrKey("suggestions"), Arr(items))]))
  }

  lemma SuggestionActionRaw(items: seq<Value>, inspect: Value -> string)
    requires items != []
    ensures Suggestions([SuggestionAction(items)], inspect) == items
  {
    var a := SuggestionAction(items);
    var entries := PayloadOf(a);
    assert Field(entries, "suggestions") == Arr(items);
    assert Field(entries, "questions") == Nil;
    assert Listed(entries) == items + [];
    assert Raw(a, inspect) == items;
    var parts := seq(1, i requires 0 <= i < 1 => Raw([a][i], inspect));
    assert parts[0] == Raw(a, inspect);
    assert parts == [items];
    assert Flatten(parts) == items + Flatten([]);
  }

  /** An action suggesting only low-signal text gives nothing. */
  lemma LowSignalAloneNothing(items: seq<Value>, currentInstruction: Value, limit: nat, inspect: Value -> string)
    requires items != [] && forall v :: v in items ==> LowSignalAsWritten(Normalize(v, inspect))
    ensures Extract([SuggestionAction(items)], currentInstruction, limit, inspect) == []
  {
    SuggestionActionRaw(items, inspect);
    AllLowSignalNothing([SuggestionAction(items)], currentInstruction, limit, inspect);
  }

  /** "Do you have time [TIMESLOT] on [DATE]?" is a placeholder template,
      and an action suggesting only it gives nothing. */
  lemma PlaceholderTemplateExample(inspect: Value -> string)
    ensures Extract([SuggestionAction([Str("Do you have time [TIMESLOT] on [DATE]?")])], Str(""), DefaultLimit, inspect) == []
  {
    var t := "Do you have time [TIMESLOT] on [DATE]?";
    TemplateLowSignal(t, inspect);
    LowSignalAloneNothing([Str(t)], Str(""), DefaultLimit, inspect);
  }

  lemma TemplateLowSignal(t: string, inspect: Value -> string)
    requires t == "Do you have time [TIMESLOT] on [DATE]?"
    ensures forall v :: v in [Str(t)] ==> LowSignalAsWritten(Normalize(v, inspect))
  {
    TemplatePlain(t);
    PlainNormalized(t, inspect);
    TemplatePlaceholder(t);
  }

  lemma TemplatePlain(t: string)
    requires t == "Do you have time [TIMESLOT] on [DATE]?"
    ensures Plain(t) && !IsQuote(t[0]) && !IsQuote(t[|t| - 1]) && t[0] != '\0' && t[|t| - 1] != '\0'
  {
    TemplateChars(t);
    TemplateSpaces(t);
    PlainOf(t);
  }

  lemma TemplateChars(t: string)
    requires t == "Do you have time [TIMESLOT] on [DATE]?"
    ensures forall k :: 0 <= k < |t| ==> PlainChar(t[k])
  {
  }

  lemma TemplateSpaces(t: string)
    requires t == "Do you have time [TIMESLOT] on [DATE]?"
    ensures t[0] != ' ' && t[|t| - 1] != ' ' && !IsQuote(t[0]) && !IsQuote(t[|t| - 1])
    ensures forall k :: 0 <= k < |t| - 1 ==> !(t[k] == ' ' && t[k + 1] == ' ')
  {
  }

  /** An ASCII letter, digit, space or one of the symbols "[]?.,". */
  predicate PlainChar(c: char) {
    IsUpper(c) || IsLower(c) || IsDigit(c) || c == ' ' || c == '[' || c == ']' || c == '?' || c == '.' || c == ','
  }

  lemma PlainOf(t: string)
    requires t != [] && t[0] != ' ' && t[|t| - 1] != ' ' && !IsQuote(t[0]) && !IsQuote(t[|t| - 1])
    requires forall k :: 0 <= k < |t| ==> PlainChar(t[k])
    requires forall k :: 0 <= k < |t| - 1 ==> !(t[k] == ' ' && t[k + 1] == ' ')
    ensures Plain(t) && t[0] != '\0' && t[|t| - 1] != '\0'
  {
    forall k | 0 <= k < |t|
      ensures (!IsUnicodeSpace(t[k]) || t[k] == ' ') && Straight(t[k]) == t[k]
    {
      assert PlainChar(t[k]);
    }
    assert PlainChar(t[0]) && PlainChar(t[|t| - 1]);
  }

  lemma TemplatePlaceholder(t: string)
    requires t == "Do you have time [TIMESLOT] on [DATE]?"
    ensures LowSignalAsWritten(t)
  {
    var s := Downcase(t);
    assert s[17] == '[' && s[26] == ']';
    assert forall k :: 17 < k < 26 ==> s[k] == Lower(t[k]) && t[k] != ']';
    assert Enclosed(s, '[', ']');
  }
}
