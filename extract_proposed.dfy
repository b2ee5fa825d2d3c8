/** `Ai::Actions::ExtractProposed`: the second pass that turns the model's
    JSON reply into proposed actions. An instruction that is only an
    acknowledgement persists no action and sends no request; otherwise the
    reply must be a JSON array of action objects, which are normalised,
    validated against the catalog and stored, replacing the message's
    previous proposals inside one transaction. */
module ExtractProposed {
  import opened Wrappers
  import opened Text
  import opened Values
  import Catalog

  // ---------------------------------------------------------------- acknowledgement

  const AckPhrases: seq<string> := ["thanks", "thank you", "thx", "ok", "okay", "great", "awesome", "nice",
    "perfect", "cool", "sounds good", "got it", "all good", "that works", "done"]

  /** `text.downcase.gsub(/[^a-z0-9\s]/, " ").squeeze(" ").strip`. */
  function AckNormalize(text: string): string {
    Strip(SqueezeSpaces(Mask(Downcase(text))))
  }

  /** `acknowledgement_only?`. */
  predicate AcknowledgementOnly(instruction: string) {
    var text := Strip(instruction);
    if Blank(text) then false
    else
      var normalized := AckNormalize(text);
      !Blank(normalized) && normalized in AckPhrases
  }

  /** Every character of the normalised text is a space or a character of the
      masked input. */
  lemma AckNormalizeChars(text: string)
    ensures forall i :: 0 <= i < |AckNormalize(text)| ==>
      AckNormalize(text)[i] == ' ' || AckNormalize(text)[i] in Mask(Downcase(text))
  {
    var m := Mask(Downcase(text));
    CollapseChars(m, c => c == ' ', false);
    StripChars(SqueezeSpaces(m));
  }

  /** Nothing but whitespace survives the normalisation of blank text. */
  lemma BlankNormalizesToSpaces(text: string)
    requires Blank(text)
    ensures forall i :: 0 <= i < |AckNormalize(text)| ==> IsRegexSpace(AckNormalize(text)[i])
  {
    var d := Downcase(text);
    var m := Mask(d);
    assert forall i :: 0 <= i < |m| ==> IsRegexSpace(m[i]) by {
      forall i | 0 <= i < |m| ensures IsRegexSpace(m[i]) {
        assert IsUnicodeSpace(text[i]);
        assert d[i] == text[i];
      }
    }
    AckNormalizeChars(text);
  }

  /** A character of the normalised text other than whitespace comes from
      a letter or digit of the text. */
  lemma NonSpaceComesFromText(text: string, i: int)
    requires 0 <= i < |AckNormalize(text)| && !IsRegexSpace(AckNormalize(text)[i])
    ensures exists j :: 0 <= j < |text| && !IsUnicodeSpace(text[j])
  {
    var m := Mask(Downcase(text));
    AckNormalizeChars(text);
    var c := AckNormalize(text)[i];
    assert c in m;
    var j :| 0 <= j < |m| && m[j] == c;
    MaskedFromText(text, j);
  }

  /** A masked character that is not whitespace is a letter or digit of the
      text, so not a space there either. */
  lemma MaskedFromText(text: string, j: int)
    requires 0 <= j < |Mask(Downcase(text))| && !IsRegexSpace(Mask(Downcase(text))[j])
    ensures !IsUnicodeSpace(text[j])
  {
    var d := Downcase(text);
    assert Mask(d)[j] == d[j] && (IsLower(d[j]) || IsDigit(d[j]));
    LowerFromAlnum(text[j]);
  }

  lemma LowerFromAlnum(c: char)
    requires IsLower(Lower(c)) || IsDigit(Lower(c))
    ensures !IsUnicodeSpace(c)
  {
    if IsUpper(c) {
    } else {
      assert Lower(c) == c;
    }
  }

  lemma PhrasesStartLower()
    ensures forall p :: p in AckPhrases ==> p != [] && IsLower(p[0])
  {
  }

  lemma PhraseStartsLower(n: string)
    requires n in AckPhrases
    ensures n != [] && IsLower(n[0])
  {
    PhrasesStartLower();
  }

  lemma LowerStartNotBlank(n: string)
    requires n != [] && IsLower(n[0])
    ensures !Blank(n) && !IsRegexSpace(n[0])
  {
    assert !IsUnicodeSpace(n[0]);
  }

  /** An instruction is an acknowledgement exactly when its normalised text is
      one of the phrases; the two blank checks of the source never decide. */
  lemma AcknowledgementOnlyIff(instruction: string)
    ensures AcknowledgementOnly(instruction) <==> AckNormalize(Strip(instruction)) in AckPhrases
  {
    var text := Strip(instruction);
    var n := AckNormalize(text);
    if n in AckPhrases {
      PhraseStartsLower(n);
      LowerStartNotBlank(n);
      NonSpaceComesFromText(text, 0);
    }
  }

  /** Text already in normal form: lower-case letters, digits and single inner
      spaces. */
  predicate Canonical(p: string) {
    p != [] && p[0] != ' ' && p[|p| - 1] != ' ' &&
    (forall i :: 0 <= i < |p| ==> IsLower(p[i]) || IsDigit(p[i]) || p[i] == ' ') &&
    (forall i :: 0 <= i < |p| - 1 ==> !(p[i] == ' ' && p[i + 1] == ' '))
  }

  lemma {:induction false} SqueezeOfSingleSpaced(s: string, prev: bool)
    requires forall i :: 0 <= i < |s| - 1 ==> !(s[i] == ' ' && s[i + 1] == ' ')
    requires prev ==> (s == [] || s[0] != ' ')
    ensures CollapseFrom(s, c => c == ' ', prev) == s
    decreases |s|
  {
    if s != [] {
      SqueezeOfSingleSpaced(s[1..], s[0] == ' ');
    }
  }

  lemma CanonicalNormalizes(p: string)
    requires Canonical(p)
    ensures Strip(p) == p && AckNormalize(p) == p
  {
    StripOfTrimmed(p);
    DowncaseOfLower(p);
    assert Mask(p) == p;
    SqueezeOfSingleSpaced(p, false);
  }

  lemma UpcaseNormalizes(p: string)
    requires Canonical(p)
    ensures Strip(Upcase(p)) == Upcase(p) && AckNormalize(Upcase(p)) == p
  {
    var u := Upcase(p);
    StripOfTrimmed(u);
    DowncaseUpcase(p);
    DowncaseOfLower(p);
    CanonicalNormalizes(p);
  }

  lemma PunctuatedNormalizes(p: string, c: char)
    requires Canonical(p)
    requires !IsAlnum(c) && !IsStripSpace(c)
    ensures Strip(p + [c]) == p + [c] && AckNormalize(p + [c]) == p
  {
    var t := p + [c];
    StripOfTrimmed(t);
    MaskPunctuated(p, c);
    SpacedNormalizes(p);
  }

  /** The punctuation mark is masked to a space. */
  lemma MaskPunctuated(p: string, c: char)
    requires Canonical(p)
    requires !IsAlnum(c) && !IsStripSpace(c)
    ensures Mask(Downcase(p + [c])) == p + [' ']
  {
    var t := p + [c];
    assert Downcase(t) == Downcase(p) + [c];
    assert Downcase(p) == p;
    assert Mask(p) == p;
    assert Mask(Downcase(t)) == p + [' '];
  }

  /** A canonical phrase with one trailing space squeezes and strips back
      to the phrase. */
  lemma SpacedNormalizes(p: string)
    requires Canonical(p)
    ensures Strip(SqueezeSpaces(p + [' '])) == p
  {
    var s := p + [' '];
    CanonicalSpaced(p);
    SqueezeOfSingleSpaced(s, false);
    assert SqueezeSpaces(s) == s;
    assert s[..|s| - 1] == p;
    assert RStrip(s) == RStrip(p);
    CanonicalEnds(p);
    StripOfTrimmed(p);
  }

  lemma CanonicalEnds(p: string)
    requires Canonical(p)
    ensures !IsStripSpace(p[0]) && !IsStripSpace(p[|p| - 1])
  {
    assert IsLower(p[0]) || IsDigit(p[0]);
    assert IsLower(p[|p| - 1]) || IsDigit(p[|p| - 1]);
  }

  /** A canonical phrase with one space added is still single-spaced. */
  lemma CanonicalSpaced(p: string)
    requires Canonical(p)
    ensures forall i :: 0 <= i < |p + [' ']| - 1 ==> !((p + [' '])[i] == ' ' && (p + [' '])[i + 1] == ' ')
  {
    var s := p + [' '];
    forall i | 0 <= i < |s| - 1
      ensures !(s[i] == ' ' && s[i + 1] == ' ')
    {
      if i < |p| - 1 {
        assert s[i] == p[i] && s[i + 1] == p[i + 1];
      } else {
        assert s[i] == p[|p| - 1];
      }
    }
  }

  /** Each phrase is recognised, and so is its upper-case form. */
  lemma PhraseIsAcknowledged(p: string)
    requires p in AckPhrases
    ensures AcknowledgementOnly(p) && AcknowledgementOnly(Upcase(p))
  {
    PhrasesAreCanonical();
    CanonicalNormalizes(p);
    UpcaseNormalizes(p);
    AcknowledgementOnlyIff(p);
    AcknowledgementOnlyIff(Upcase(p));
  }

  /** A phrase followed by punctuation is recognised too, as in "thanks!". */
  lemma PunctuatedIsAcknowledged(p: string, c: char)
    requires p in AckPhrases
    requires !IsAlnum(c) && !IsStripSpace(c)
    ensures AcknowledgementOnly(p + [c])
  {
    PhrasesAreCanonical();
    PunctuatedNormalizes(p, c);
    AcknowledgementOnlyIff(p + [c]);
  }

  lemma PhrasesAreCanonical()
    ensures forall p :: p in AckPhrases ==> Canonical(p)
  {
    OneWordPhrasesCanonical();
    OtherOneWordPhrasesCanonical();
    SomeTwoWordPhrasesCanonical();
    OtherTwoWordPhrasesCanonical();
  }

  lemma OneWordPhrasesCanonical()
    ensures Canonical("thanks") && Canonical("thx") && Canonical("ok") && Canonical("okay") && Canonical("great")
  {
  }

  lemma OtherOneWordPhrasesCanonical()
    ensures Canonical("awesome") && Canonical("nice") && Canonical("perfect") && Canonical("cool") && Canonical("done")
  {
  }

  lemma SomeTwoWordPhrasesCanonical()
    ensures Canonical("thank you") && Canonical("sounds good") && Canonical("got it")
  {
  }

  lemma OtherTwoWordPhrasesCanonical()
    ensures Canonical("all good") && Canonical("that works")
  {
  }

  // ---------------------------------------------------------------- actions

  /** One entry of `normalize_actions`' result. */
  datatype Proposed = Proposed(kind: string, payload: Value, metadata: Value)

  /** A created `ProposedAction` row. */
  datatype Row = Row(kind: string, payload: Value, metadata: Value)

  /** `a["k"] || a[:k] || {}`. */
  function ReadOrEmpty(entries: seq<(Key, Value)>, name: string): (r: Value)
    ensures Truthy(r)
  {
    var v := ReadKey(entries, name);
    if Truthy(v) then v else Hash([])
  }

  /** One item of `normalize_actions`. */
  function NormalizeAction(a: Value, inspect: Value -> string): (r: Result<Proposed>)
    ensures r.Ok? ==> r.value.payload.Hash? && r.value.metadata.Hash? && Strip(r.value.kind) != []
  {
    if !a.Hash? then Err("Each proposed action must be an object")
    else
      var kind := ReadKey(a.entries, "type");
      var payload := ReadOrEmpty(a.entries, "payload");
      var metadata := ReadOrEmpty(a.entries, "metadata");
      if Strip(ToS(kind, inspect)) == [] then Err("Proposed action missing type")
      else if !payload.Hash? then Err("payload must be a JSON object")
      else if !metadata.Hash? then Err("metadata must be a JSON object")
      else Ok(Proposed(ToS(kind, inspect), payload, metadata))
  }

  /** `normalize_actions`: every item normalised, or the first failing item's error. */
  function NormalizeActions(items: seq<Value>, inspect: Value -> string): (r: Result<seq<Proposed>>)
    ensures r.Ok? ==> |r.value| == |items|
  {
    MapAll(items, a => NormalizeAction(a, inspect))
  }

  /** All items succeed, and then each result is the item's normal form... */
  lemma NormalizeActionsOk(items: seq<Value>, inspect: Value -> string)
    ensures NormalizeActions(items, inspect).Ok? <==> forall i :: 0 <= i < |items| ==> NormalizeAction(items[i], inspect).Ok?
    ensures NormalizeActions(items, inspect).Ok? ==>
      forall i :: 0 <= i < |items| ==> NormalizeActions(items, inspect).value[i] == NormalizeAction(items[i], inspect).value
  {
    var f := a => NormalizeAction(a, inspect);
    MapAllSpec(items, f);
    assert forall i :: 0 <= i < |items| ==> f(items[i]) == NormalizeAction(items[i], inspect);
  }

  /** ... or the result is the error of the first item that fails. */
  lemma NormalizeActionsErr(items: seq<Value>, inspect: Value -> string)
    requires NormalizeActions(items, inspect).Err?
    ensures var n := FirstFailure(items, a => NormalizeAction(a, inspect));
      n < |items| && NormalizeAction(items[n], inspect).Err? &&
      (forall j :: 0 <= j < n ==> NormalizeAction(items[j], inspect).Ok?) &&
      NormalizeActions(items, inspect).error == NormalizeAction(items[n], inspect).error
  {
    var f := a => NormalizeAction(a, inspect);
    MapAllSpec(items, f);
  }

  lemma NormalizeActionErrors(a: Value, inspect: Value -> string)
    ensures !a.Hash? ==> NormalizeAction(a, inspect) == Err("Each proposed action must be an object")
    ensures a.Hash? && Strip(ToS(ReadKey(a.entries, "type"), inspect)) == [] ==>
      NormalizeAction(a, inspect) == Err("Proposed action missing type")
    ensures a.Hash? && Strip(ToS(ReadKey(a.entries, "type"), inspect)) != [] && !ReadOrEmpty(a.entries, "payload").Hash? ==>
      NormalizeAction(a, inspect) == Err("payload must be a JSON object")
    ensures (a.Hash? && Strip(ToS(ReadKey(a.entries, "type"), inspect)) != [] && ReadOrEmpty(a.entries, "payload").Hash? &&
      !ReadOrEmpty(a.entries, "metadata").Hash?) ==> NormalizeAction(a, inspect) == Err("metadata must be a JSON object")
    ensures NormalizeAction(a, inspect).Ok? ==> (a.Hash? &&
      NormalizeAction(a, inspect).value == Proposed(ToS(ReadKey(a.entries, "type"), inspect),
        ReadOrEmpty(a.entries, "payload"), ReadOrEmpty(a.entries, "metadata")))
  {
  }

  /** A type given under a Symbol key is read; an absent payload or metadata
      becomes an empty hash. */
  lemma NormalizeActionDefaults(kind: string, inspect: Value -> string)
    requires Strip(kind) != []
    ensures NormalizeAction(Hash([(SymKey("type"), Str(kind))]), inspect) == Ok(Proposed(kind, Hash([]), Hash([])))
  {
    TypeOnlyReads(kind);
    NormalizeActionOf(Hash([(SymKey("type"), Str(kind))]), kind, Hash([]), Hash([]), inspect);
  }

  /** An object whose three fields read as given. */
  lemma NormalizeActionOf(a: Value, kind: string, payload: Value, metadata: Value, inspect: Value -> string)
    requires a.Hash? && ReadKey(a.entries, "type") == Str(kind) && Strip(kind) != []
    requires ReadOrEmpty(a.entries, "payload") == payload && payload.Hash?
    requires ReadOrEmpty(a.entries, "metadata") == metadata && metadata.Hash?
    ensures NormalizeAction(a, inspect) == Ok(Proposed(kind, payload, metadata))
  {
    var t := ToS(ReadKey(a.entries, "type"), inspect);
    assert t == kind;
    assert Strip(t) != [];
  }

  lemma TypeOnlyReads(kind: string)
    ensures var es := [(SymKey("type"), Str(kind))];
      ReadKey(es, "type") == Str(kind) && ReadOrEmpty(es, "payload") == Hash([]) && ReadOrEmpty(es, "metadata") == Hash([])
  {
    var es := [(SymKey("type"), Str(kind))];
    assert Get(es, StrKey("type")) == None;
    assert Get(es, StrKey("payload")) == None && Get(es, SymKey("payload")) == None;
    assert Get(es, StrKey("metadata")) == None && Get(es, SymKey("metadata")) == None;
  }

  /** The loop body of `persist_actions!` decides to skip a suggestion action
      when suggestions are disabled. */
  predicate Skipped(a: Proposed, includeSuggestions: bool) {
    a.kind == "suggest_additional_context" && !includeSuggestions
  }

  /** The row one kept action becomes: its payload normalised by the
      catalog, then validated. `DEFAULT_TIMEZONE` is read from an
      environment that does not set it. */
  function Prepared(a: Proposed): (r: Result<Row>)
    ensures r.Ok? ==> r.value.kind == a.kind && Catalog.Validate(r.value.kind, r.value.payload).Ok?
    ensures r.Ok? ==> r.value == Row(a.kind, Catalog.NormalizedPayload(a.kind, a.payload, Catalog.DefaultTimezone(map[])), a.metadata)
    ensures r.Ok? <==> Catalog.Validate(a.kind, Catalog.NormalizedPayload(a.kind, a.payload, Catalog.DefaultTimezone(map[]))).Ok?
  {
    var payload := Catalog.NormalizedPayload(a.kind, a.payload, Catalog.DefaultTimezone(map[]));
    match Catalog.Validate(a.kind, payload)
    case Err(e) => Err(e)
    case Ok(_) => Ok(Row(a.kind, payload, a.metadata))
  }

  /** What `persist_actions!` creates, after the rows in `acc`: each kept
      action's row, or the first validation error. */
  function PersistFrom(acc: seq<Row>, actions: seq<Proposed>, includeSuggestions: bool): Result<seq<Row>>
    decreases |actions|
  {
    if actions == [] then Ok(acc)
    else
      var a := actions[0];
      if Skipped(a, includeSuggestions) then PersistFrom(acc, actions[1..], includeSuggestions)
      else
        match Prepared(a)
        case Err(e) => Err(e)
        case Ok(row) => PersistFrom(acc + [row], actions[1..], includeSuggestions)
  }

  function Persisted(actions: seq<Proposed>, includeSuggestions: bool): Result<seq<Row>> {
    PersistFrom([], actions, includeSuggestions)
  }

  /** The kinds of the actions the loop keeps, in order. */
  function KeptKinds(actions: seq<Proposed>, includeSuggestions: bool): seq<string> {
    if actions == [] then []
    else if Skipped(actions[0], includeSuggestions) then KeptKinds(actions[1..], includeSuggestions)
    else [actions[0].kind] + KeptKinds(actions[1..], includeSuggestions)
  }

  function RowKinds(rows: seq<Row>): (r: seq<string>)
    ensures |r| == |rows| && forall i :: 0 <= i < |rows| ==> r[i] == rows[i].kind
  {
    seq(|rows|, i requires 0 <= i < |rows| => rows[i].kind)
  }

  /** Every stored row passes `validate!` with its stored payload, the rows
      are the kept actions in order, and no suggestion row is stored while
      suggestions are disabled. */
  lemma PersistFromSpec(acc: seq<Row>, actions: seq<Proposed>, includeSuggestions: bool)
    requires AllValid(acc)
    ensures var r := PersistFrom(acc, actions, includeSuggestions);
      r.Ok? ==> AllValid(r.value) && RowKinds(r.value) == RowKinds(acc) + KeptKinds(actions, includeSuggestions)
  {
    PersistFromValid(acc, actions, includeSuggestions);
    PersistFromKinds(acc, actions, includeSuggestions);
  }

  /** Every row passes `validate!` with its stored payload. */
  predicate AllValid(rows: seq<Row>) {
    forall i :: 0 <= i < |rows| ==> Catalog.Validate(rows[i].kind, rows[i].payload).Ok?
  }

  lemma AppendValid(rows: seq<Row>, row: Row)
    requires AllValid(rows) && Catalog.Validate(row.kind, row.payload).Ok?
    ensures AllValid(rows + [row])
  {
    var r := rows + [row];
    forall i | 0 <= i < |r| ensures Catalog.Validate(r[i].kind, r[i].payload).Ok? {
      if i < |rows| {
        assert r[i] == rows[i];
      }
    }
  }

  lemma {:induction false} PersistFromValid(acc: seq<Row>, actions: seq<Proposed>, includeSuggestions: bool)
    requires AllValid(acc)
    ensures var r := PersistFrom(acc, actions, includeSuggestions); r.Ok? ==> AllValid(r.value)
    decreases |actions|
  {
    if actions != [] {
      var a := actions[0];
      if Skipped(a, includeSuggestions) {
        PersistFromValid(acc, actions[1..], includeSuggestions);
      } else {
        var p := Prepared(a);
        if p.Ok? {
          AppendValid(acc, p.value);
          PersistFromValid(acc + [p.value], actions[1..], includeSuggestions);
        }
      }
    }
  }

  lemma {:induction false} PersistFromKinds(acc: seq<Row>, actions: seq<Proposed>, includeSuggestions: bool)
    ensures var r := PersistFrom(acc, actions, includeSuggestions);
      r.Ok? ==> RowKinds(r.value) == RowKinds(acc) + KeptKinds(actions, includeSuggestions)
    decreases |actions|
  {
    if actions != [] {
      var a := actions[0];
      if Skipped(a, includeSuggestions) {
        PersistFromKinds(acc, actions[1..], includeSuggestions);
      } else {
        var p := Prepared(a);
        if p.Ok? {
          var acc' := acc + [p.value];
          PersistFromKinds(acc', actions[1..], includeSuggestions);
          PersistFromStep(acc, actions, includeSuggestions);
          KindsStep(acc, p.value, PersistFrom(acc', actions[1..], includeSuggestions), KeptKinds(actions[1..], includeSuggestions));
        }
      }
    }
  }

  /** One kept action whose row is valid. */
  lemma PersistFromStep(acc: seq<Row>, actions: seq<Proposed>, includeSuggestions: bool)
    requires actions != [] && !Skipped(actions[0], includeSuggestions) && Prepared(actions[0]).Ok?
    ensures PersistFrom(acc, actions, includeSuggestions) ==
      PersistFrom(acc + [Prepared(actions[0]).value], actions[1..], includeSuggestions)
    ensures KeptKinds(actions, includeSuggestions) == [actions[0].kind] + KeptKinds(actions[1..], includeSuggestions)
  {
  }

  lemma KindsStep(acc: seq<Row>, row: Row, rest: Result<seq<Row>>, kinds: seq<string>)
    requires rest.Ok? ==> RowKinds(rest.value) == RowKinds(acc + [row]) + kinds
    ensures rest.Ok? ==> RowKinds(rest.value) == RowKinds(acc) + ([row.kind] + kinds)
  {
    assert RowKinds(acc + [row]) == RowKinds(acc) + [row.kind];
  }

  lemma PersistedSpec(actions: seq<Proposed>, includeSuggestions: bool)
    ensures var r := Persisted(actions, includeSuggestions);
      r.Ok? ==> AllValid(r.value) && RowKinds(r.value) == KeptKinds(actions, includeSuggestions)
  {
    PersistFromSpec([], actions, includeSuggestions);
    assert RowKinds([]) + KeptKinds(actions, includeSuggestions) == KeptKinds(actions, includeSuggestions);
  }

  lemma {:induction false} KeptKindsWithoutSuggestions(actions: seq<Proposed>)
    ensures "suggest_additional_context" !in KeptKinds(actions, false)
    decreases |actions|
  {
    if actions != [] {
      KeptKindsWithoutSuggestions(actions[1..]);
    }
  }

  /** With suggestions disabled no `suggest_additional_context` row is created. */
  lemma NoSuggestionRowsWhenDisabled(actions: seq<Proposed>)
    ensures var r := Persisted(actions, false);
      r.Ok? ==> forall i :: 0 <= i < |r.value| ==> r.value[i].kind != "suggest_additional_context"
  {
    PersistedSpec(actions, false);
    KeptKindsWithoutSuggestions(actions);
    var r := Persisted(actions, false);
    if r.Ok? {
      forall i | 0 <= i < |r.value| ensures r.value[i].kind != "suggest_additional_context" {
        assert RowKinds(r.value)[i] == r.value[i].kind;
      }
    }
  }

  /** `ai_message.proposed_actions`. */
  class ActionStore {
    var rows: seq<Row>

    constructor (rows0: seq<Row>)
      ensures rows == rows0
    {
      rows := rows0;
    }
  }

  /** `persist_actions!`: the normalisation raises before the transaction; a
      validation error inside it rolls the delete back. */
  method PersistActions(store: ActionStore, extracted: seq<Value>, includeSuggestions: bool, inspect: Value -> string)
    returns (r: Result<seq<Row>>)
    modifies store
    ensures NormalizeActions(extracted, inspect).Err? ==>
      r == Err(NormalizeActions(extracted, inspect).error) && store.rows == old(store.rows)
    ensures NormalizeActions(extracted, inspect).Ok? ==> r == Persisted(NormalizeActions(extracted, inspect).value, includeSuggestions)
    ensures r.Ok? ==> store.rows == r.value
    ensures r.Err? ==> store.rows == old(store.rows)
  {
    var normalized := NormalizeActions(extracted, inspect);
    if normalized.Err? {
      return Err(normalized.error);
    }
    var actions := normalized.value;
    var saved := store.rows;
    store.rows := [];
    var i := 0;
    while i < |actions|
      invariant 0 <= i <= |actions|
      invariant PersistFrom(store.rows, actions[i..], includeSuggestions) == Persisted(actions, includeSuggestions)
    {
      var a := actions[i];
      assert actions[i..][1..] == actions[i + 1..];
      if !Skipped(a, includeSuggestions) {
        var row := Prepared(a);
        if row.Err? {
          store.rows := saved;
          return Err(row.error);
        }
        store.rows := store.rows + [row.value];
      }
      i := i + 1;
    }
    return Ok(store.rows);
  }

  /** `parse_json_array`, over a JSON parser given as a function. */
  function ParseJsonArray(raw: string, parse: string -> Option<Value>): (r: Result<seq<Value>>)
    ensures r.Ok? <==> parse(raw).Some? && parse(raw).value.Arr?
    ensures r.Ok? ==> r.value == parse(raw).value.items
  {
    match parse(raw)
    case None => Err("Extractor returned invalid JSON")
    case Some(v) => if v.Arr? then Ok(v.items) else Err("Extractor returned non-array JSON")
  }

  /** `include_context_suggestions?`: the constructor flag, the chat setting
      and the account setting must all allow suggestions. */
  predicate IncludeSuggestions(flag: bool, chatEnabled: bool, accountEnabled: bool) {
    flag && chatEnabled && accountEnabled
  }

  /** `allowed_types_for_request`. */
  function AllowedTypesForRequest(includeSuggestions: bool): (r: seq<string>)
    ensures forall t :: t in r <==> Catalog.AllowedType(t) && (includeSuggestions || t != "suggest_additional_context")
  {
    if includeSuggestions then Catalog.Types() else Reject(Catalog.Types(), "suggest_additional_context")
  }

  /** `list.reject { |t| t == x }`. */
  function Reject(list: seq<string>, x: string): (r: seq<string>)
    ensures forall t :: t in r <==> t in list && t != x
  {
    if list == [] then []
    else if list[0] == x then Reject(list[1..], x)
    else [list[0]] + Reject(list[1..], x)
  }

  /** `store_raw!`: the message content, or {} when it is not a Hash, with
      the raw reply and the parsed list under "proposed_actions_raw". */
  function RawStored(content: Value, raw: string, extracted: seq<Value>): (r: Value)
    ensures r.Hash?
    ensures Get(r.entries, StrKey("proposed_actions_raw")) ==
      Some(Hash([(StrKey("raw"), Str(raw)), (StrKey("parsed"), Arr(extracted))]))
    ensures forall k :: k != StrKey("proposed_actions_raw") ==>
      Get(r.entries, k) == Get(if content.Hash? then content.entries else [], k)
  {
    var entries := if content.Hash? then content.entries else [];
    Hash(HashSet(entries, StrKey("proposed_actions_raw"), Hash([(StrKey("raw"), Str(raw)), (StrKey("parsed"), Arr(extracted))])))
  }

  /** `call!`, with the model's reply as a parameter: `requested` says whether
      a request to the model was made, `content` is the AI message's content
      and `stored` the content afterwards, and `storeRaw` is the
      `AI_STORE_ACTIONS_RAW == "1"` setting. */
  method Call(store: ActionStore?, content: Value, instruction: string, reply: string, parse: string -> Option<Value>,
              includeSuggestions: bool, storeRaw: bool, inspect: Value -> string)
    returns (r: Result<seq<Value>>, requested: bool, stored: Value)
    modifies store
    ensures store == null ==> r == Err("UserMessage has no ai_message yet") && !requested && stored == content
    ensures store != null && AcknowledgementOnly(instruction) ==>
      r == Ok([]) && !requested && store.rows == [] && stored == RawStored(content, "[]", [])
    ensures store != null && !AcknowledgementOnly(instruction) ==> requested
    ensures store != null && r.Ok? && !AcknowledgementOnly(instruction) ==>
      ParseJsonArray(reply, parse) == r &&
      NormalizeActions(r.value, inspect).Ok? &&
      Persisted(NormalizeActions(r.value, inspect).value, includeSuggestions) == Ok(store.rows) &&
      stored == (if storeRaw then RawStored(content, reply, r.value) else content)
    ensures store != null && r.Err? ==> store.rows == old(store.rows) && stored == content
  {
    stored := content;
    if store == null {
      return Err("UserMessage has no ai_message yet"), false, stored;
    }
    if AcknowledgementOnly(instruction) {
      var none := PersistActions(store, [], includeSuggestions, inspect);
      return Ok([]), false, RawStored(content, "[]", []);
    }
    requested := true;
    var extracted := ParseJsonArray(reply, parse);
    if extracted.Err? {
      return Err(extracted.error), true, stored;
    }
    var persisted := PersistActions(store, extracted.value, includeSuggestions, inspect);
    if persisted.Err? {
      return Err(persisted.error), true, stored;
    }
    if storeRaw {
      stored := RawStored(content, reply, extracted.value);
    }
    return extracted, true, stored;
  }

  /** The proposed actions the extraction as written leaves behind: an
      acknowledgement clears them, any other instruction raises before they
      are touched. */
  function RowsAfterAsWritten(instruction: string, rows: seq<Row>): seq<Row> {
    if AcknowledgementOnly(instruction) then [] else rows
  }

  /** The message content the extraction as written leaves behind: an
      acknowledgement stores the empty raw reply, any other instruction
      raises before `store_raw!` is reached. */
  function ContentAfterAsWritten(instruction: string, content: Value): Value {
    if AcknowledgementOnly(instruction) then RawStored(content, "[]", []) else content
  }

  /** `call!` as written: `request_actions_json` passes `allowed_types:` to a
      catalog prompt method that takes no argument, so every request fails
      with an `ArgumentError` before the model is reached and before any row
      or the content is touched. */
  method CallAsWritten(store: ActionStore?, content: Value, instruction: string, includeSuggestions: bool,
                       inspect: Value -> string)
    returns (r: Result<seq<Value>>, requested: bool, stored: Value)
    modifies store
    ensures store == null ==> r == Err("UserMessage has no ai_message yet") && stored == content
    ensures store != null && AcknowledgementOnly(instruction) ==>
      r == Ok([]) && store.rows == [] && stored == RawStored(content, "[]", [])
    ensures store != null && !AcknowledgementOnly(instruction) ==>
      r == Err("wrong number of arguments (given 1, expected 0)") && store.rows == old(store.rows) && stored == content
    ensures !requested
  {
    requested := false;
    stored := content;
    if store == null {
      return Err("UserMessage has no ai_message yet"), false, stored;
    }
    if AcknowledgementOnly(instruction) {
      var none := PersistActions(store, [], includeSuggestions, inspect);
      return Ok([]), false, RawStored(content, "[]", []);
    }
    return Err("wrong number of arguments (given 1, expected 0)"), false, stored;
  }
}
