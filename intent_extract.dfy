/** `Ai::Intent::Extract`: the intent pass. The model's reply is parsed as a
    JSON object and normalised into five fields that gate the later steps;
    any failure gives the fallback, which still asks for the artifact. The
    outcome is stored in the AI message's meta record. */
module IntentExtract {
  import opened Wrappers
  import opened Text
  import opened Values
  import opened Messages

  datatype Intent = Intent(
    shouldGenerateArtifact: bool, suggestedTitle: Option<string>, needsSources: bool, suggestWebSearch: bool,
    flags: seq<(Key, Value)>)

  /** The intent used when anything fails. */
  const Fallback: Intent := Intent(true, None, false, false, [])

  /** The names of the five keys of the normalised hash, in order. */
  const KeyNames: seq<string> := ["should_generate_artifact", "suggested_title", "needs_sources", "suggest_web_search", "flags"]

  /** The normalised hash `call` returns, with Symbol keys. */
  function ToHash(i: Intent): seq<(Key, Value)> {
    [(SymKey("should_generate_artifact"), Bool(i.shouldGenerateArtifact)),
     (SymKey("suggested_title"), match i.suggestedTitle case Some(t) => Str(t) case None => Nil),
     (SymKey("needs_sources"), Bool(i.needsSources)),
     (SymKey("suggest_web_search"), Bool(i.suggestWebSearch)),
     (SymKey("flags"), Hash(i.flags))]
  }

  /** `!!h[key]`. */
  predicate Flag(h: seq<(Key, Value)>, key: string) {
    Truthy(Get(h, StrKey(key)).GetOr(Nil))
  }

  /** `h["suggested_title"].to_s.strip.presence`. */
  function Title(h: seq<(Key, Value)>, inspect: Value -> string): Option<string> {
    var t := Trim(ToS(Get(h, StrKey("suggested_title")).GetOr(Nil), inspect));
    if Blank(t) then None else Some(t)
  }

  /** The title is the stripped text of "suggested_title", or none when
      that is blank. */
  lemma TitleSpec(h: seq<(Key, Value)>, inspect: Value -> string)
    ensures Title(h, inspect).Some? ==>
      !Blank(Title(h, inspect).value) && Title(h, inspect).value == Strip(ToS(Get(h, StrKey("suggested_title")).GetOr(Nil), inspect))
    ensures Title(h, inspect).None? ==> Blank(Strip(ToS(Get(h, StrKey("suggested_title")).GetOr(Nil), inspect)))
  {
    TrimIsStrip(ToS(Get(h, StrKey("suggested_title")).GetOr(Nil), inspect));
  }

  /** `normalize`: a value that is not a hash counts as {}. */
  function Normalize(parsed: Value, inspect: Value -> string): (r: Intent)
    ensures var h := if parsed.Hash? then parsed.entries else [];
      r.shouldGenerateArtifact == Flag(h, "should_generate_artifact") && r.needsSources == Flag(h, "needs_sources") &&
      r.suggestWebSearch == Flag(h, "suggest_web_search") && r.suggestedTitle == Title(h, inspect)
    ensures var h := if parsed.Hash? then parsed.entries else [];
      (Get(h, StrKey("flags")).Some? && Get(h, StrKey("flags")).value.Hash? ==> r.flags == Get(h, StrKey("flags")).value.entries) &&
      (!(Get(h, StrKey("flags")).Some? && Get(h, StrKey("flags")).value.Hash?) ==> r.flags == [])
  {
    var h := if parsed.Hash? then parsed.entries else [];
    var flags := match Get(h, StrKey("flags")) case Some(Hash(es)) => es case _ => [];
    Intent(Flag(h, "should_generate_artifact"), Title(h, inspect), Flag(h, "needs_sources"), Flag(h, "suggest_web_search"), flags)
  }

  /** The first position of `c` in `s`. */
  function IndexOf(s: string, c: char): (r: Option<nat>)
    ensures r.Some? ==> r.value < |s| && s[r.value] == c && forall j :: 0 <= j < r.value ==> s[j] != c
    ensures r.None? ==> forall j :: 0 <= j < |s| ==> s[j] != c
  {
    if s == [] then None
    else if s[0] == c then Some(0)
    else match IndexOf(s[1..], c)
      case None => None
      case Some(k) => Some(k + 1)
  }

  /** The last position of `c` in `s`. */
  function LastIndexOf(s: string, c: char): (r: Option<nat>)
    ensures r.Some? ==> r.value < |s| && s[r.value] == c && forall j :: r.value < j < |s| ==> s[j] != c
    ensures r.None? ==> forall j :: 0 <= j < |s| ==> s[j] != c
  {
    if s == [] then None
    else if s[|s| - 1] == c then Some(|s| - 1)
    else LastIndexOf(s[..|s| - 1], c)
  }

  /** The match of `/\{.*\}/m`: from the first `{` to the last `}` after it. */
  function BraceSpan(s: string): (r: Option<string>)
    ensures r.Some? ==> |r.value| >= 2 && r.value[0] == '{' && r.value[|r.value| - 1] == '}'
    ensures r.Some? <==> (IndexOf(s, '{').Some? && LastIndexOf(s, '}').Some? &&
      IndexOf(s, '{').value <= LastIndexOf(s, '}').value)
    ensures r.Some? ==> r.value == s[IndexOf(s, '{').value..LastIndexOf(s, '}').value + 1]
  {
    match IndexOf(s, '{')
    case None => None
    case Some(i) =>
      match LastIndexOf(s, '}')
      case None => None
      case Some(j) => if j < i then None else Some(s[i..j + 1])
  }

  /** The text `parse_json_object` hands to `JSON.parse`. */
  function JsonCandidate(text: string): (r: Option<string>)
    ensures r.Some? ==> r.value != [] && r.value[0] == '{' && r.value[|r.value| - 1] == '}'
  {
    var str := Trim(text);
    if StartsWith(str, "{") && EndsWith(str, "}") then Some(str)
    else BraceSpan(str)
  }

  /** The candidate is the stripped reply when that is braced at both ends,
      and otherwise the span from its first `{` to its last `}`. */
  lemma JsonCandidateSpec(text: string)
    ensures var str := Strip(text);
      (StartsWith(str, "{") && EndsWith(str, "}") ==> JsonCandidate(text) == Some(str)) &&
      (!(StartsWith(str, "{") && EndsWith(str, "}")) ==> JsonCandidate(text) == BraceSpan(str))
  {
    TrimIsStrip(text);
  }

  /** Stands for the message of the `JSON::ParserError` that `JSON.parse`
      raises: the parser is a parameter, and its messages are not modelled. */
  const ParserErrorMessage: string := "unexpected token"

  /** `parse_json_object`, over a JSON parser given as a function. */
  function ParseJsonObject(text: string, parse: string -> Option<Value>): (r: Result<Value>)
    ensures r.Ok? <==> JsonCandidate(text).Some? && parse(JsonCandidate(text).value).Some?
    ensures r.Ok? ==> r.value == parse(JsonCandidate(text).value).value
  {
    match JsonCandidate(text)
    case None => Err("No JSON object found")
    case Some(candidate) =>
      match parse(candidate)
      case None => Err(ParserErrorMessage)
      case Some(v) => Ok(v)
  }

  /** The intent `call` returns for the model's reply (an error when the
      request raised). */
  function IntentFor(raw: Result<string>, parse: string -> Option<Value>, inspect: Value -> string): (r: Intent)
    ensures raw.Err? ==> r == Fallback
    ensures raw.Ok? && ParseJsonObject(raw.value, parse).Err? ==> r == Fallback
    ensures raw.Ok? && ParseJsonObject(raw.value, parse).Ok? ==> r == Normalize(ParseJsonObject(raw.value, parse).value, inspect)
  {
    if raw.Err? then Fallback
    else match ParseJsonObject(raw.value, parse)
      case Err(_) => Fallback
      case Ok(v) => Normalize(v, inspect)
  }

  /** The `payload_json` stored with the intent. */
  function Payload(raw: Result<string>, parse: string -> Option<Value>): seq<(Key, Value)> {
    match raw
    case Err(e) => [(StrKey("error"), Str(e)), (StrKey("raw_text"), Str(""))]
    case Ok(t) =>
      match ParseJsonObject(t, parse)
      case Err(e) => [(StrKey("error"), Str(e)), (StrKey("raw_text"), Str(t))]
      case Ok(v) => if v.Hash? then v.entries else []
  }

  /** `persist!`: the meta record for an intent. */
  function MetaOf(i: Intent, payload: seq<(Key, Value)>): (r: Meta)
    ensures r.suggestedTitle == i.suggestedTitle && r.shouldGenerateArtifact == i.shouldGenerateArtifact
    ensures r.needsSources == i.needsSources && r.suggestWebSearch == i.suggestWebSearch
    ensures r.flags == i.flags && r.payload == payload
  {
    Meta(i.suggestedTitle, i.shouldGenerateArtifact, i.needsSources, i.suggestWebSearch, i.flags, payload)
  }

  /** `call`, with the model's reply as a parameter. Without an AI message
      the request cannot be composed, so the fallback is returned and
      nothing is stored. */
  method Call(ai: AiMessage?, raw: Result<string>, parse: string -> Option<Value>, inspect: Value -> string)
    returns (r: Intent)
    modifies ai
    ensures ai == null ==> r == Fallback
    ensures ai != null ==> r == IntentFor(raw, parse, inspect) && ai.meta == Some(MetaOf(r, Payload(raw, parse)))
    ensures ai != null ==> ai.columns == old(ai.columns)
  {
    if ai == null {
      return Fallback;
    }
    r := IntentFor(raw, parse, inspect);
    ai.meta := Some(MetaOf(r, Payload(raw, parse)));
  }

  // ---------------------------------------------------------------- properties

  /** The hash always has the five keys, in order. */
  lemma ToHashKeys(i: Intent)
    ensures var r := ToHash(i); |r| == |KeyNames| && forall j :: 0 <= j < |r| ==> r[j].0 == SymKey(KeyNames[j])
  {
  }

  /** The normalised hash holds the intent's fields under their keys. */
  lemma ToHashFields(i: Intent)
    ensures Get(ToHash(i), SymKey("should_generate_artifact")) == Some(Bool(i.shouldGenerateArtifact))
    ensures Get(ToHash(i), SymKey("flags")) == Some(Hash(i.flags))
    ensures i.suggestedTitle.Some? ==> Get(ToHash(i), SymKey("suggested_title")) == Some(Str(i.suggestedTitle.value))
  {
    var h := ToHash(i);
    assert h[1..][0].0 == SymKey("suggested_title");
    var k := SymKey("flags");
    assert h[1..][1..][1..][1..][0] == (k, Hash(i.flags));
    assert Get(h[1..][1..][1..][1..], k) == Some(Hash(i.flags));
    assert Get(h[1..][1..][1..], k) == Some(Hash(i.flags));
    assert Get(h[1..][1..], k) == Some(Hash(i.flags));
    assert Get(h[1..], k) == Some(Hash(i.flags));
  }

  /** A reply that is a whole braced object is parsed as it is. */
  lemma WholeObjectParsed(text: string, parse: string -> Option<Value>)
    requires StartsWith(Strip(text), "{") && EndsWith(Strip(text), "}")
    ensures ParseJsonObject(text, parse).Ok? <==> parse(Strip(text)).Some?
  {
    JsonCandidateSpec(text);
  }

  /** A reply without any `{` never parses, and gives the fallback. */
  lemma NoBraceFallback(text: string, parse: string -> Option<Value>, inspect: Value -> string)
    requires forall j :: 0 <= j < |text| ==> text[j] != '{'
    ensures IntentFor(Ok(text), parse, inspect) == Fallback
  {
    JsonCandidateSpec(text);
    StrippedNoBrace(text);
  }

  lemma StrippedNoBrace(text: string)
    requires forall j :: 0 <= j < |text| ==> text[j] != '{'
    ensures !StartsWith(Strip(text), "{") && IndexOf(Strip(text), '{').None?
  {
    var str := Strip(text);
    StripChars(text);
    assert !StartsWith(str, "{") by {
      if str != [] {
        assert str[0] in text;
      }
    }
    assert IndexOf(str, '{').None? by {
      forall j | 0 <= j < |str| ensures str[j] != '{' {
        assert str[j] in text;
      }
    }
  }
}
