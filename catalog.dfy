/** `Ai::Actions::Catalog`: the five action types the assistant may propose,
    the validation of a proposed payload, and its normalisation (allowed keys
    only, as String keys, with defaults for a scheduled prompt). */
module Catalog {
  import opened Wrappers
  import opened Text
  import opened Values
  import opened ActionPayloads

  /** `DEFAULT_TIMEZONE`: the environment's value, else "Europe/Vienna". */
  function DefaultTimezone(env: map<string, string>): string {
    if "DEFAULT_TIMEZONE" in env then env["DEFAULT_TIMEZONE"] else "Europe/Vienna"
  }

  const Actions: seq<Action> := [
    Action("schedule_prompt", ["title", "schedule", "prompt_template"], ["timezone", "sources", "conversation_id", "enabled"]),
    Action("draft_email", ["subject", "body"], ["to", "cc", "bcc"]),
    Action("create_task", ["title"], ["notes", "due_at"]),
    Action("suggest_additional_context", ["suggestions"], ["title", "why"]),
    Action("request_missing_info", ["questions"], [])
  ]

  function Types(): (r: seq<string>)
    ensures |r| == 5
  {
    Kinds(Actions)
  }

  predicate AllowedType(kind: string) {
    kind in Types()
  }

  function Fetch(kind: string): (r: Option<Action>)
    ensures r.Some? <==> AllowedType(kind)
    ensures r.Some? ==> r.value.kind == kind && r.value in Actions
  {
    Find(Actions, kind)
  }

  /** `v.to_s.strip` is not empty: nil and blank-after-strip text are empty,
      every other value prints as something. */
  predicate NonEmptyEntry(v: Value) {
    match v
    case Nil => false
    case Str(s) => Strip(s) != []
    case _ => true
  }

  function NonEmptyCount(items: seq<Value>): (n: nat)
    ensures n <= |items|
  {
    if items == [] then 0 else (if NonEmptyEntry(items[0]) then 1 else 0) + NonEmptyCount(items[1..])
  }

  /** `validate_string_array!`. */
  function ValidateStringArray(v: Value, field: string, min: nat, max: nat): (r: Result<bool>)
    ensures r.Ok? <==> (v.Arr? && min <= NonEmptyCount(v.items) <= max)
    ensures r.Ok? ==> r.value
  {
    if !v.Arr? then Err(ArrayError(field))
    else
      var n := NonEmptyCount(v.items);
      if n < min || n > max then Err(CountError(field, min, max))
      else Ok(true)
  }

  function ArrayError(field: string): string {
    "Invalid payload: " + field + " must be an array"
  }

  function CountError(field: string, min: nat, max: nat): string {
    "Invalid payload: " + field + " must have " + NatToString(min) + "-" + NatToString(max) + " non-empty entries"
  }

  /** `validate!`: the key checks, then 1 to 3 questions or 1 to 4
      suggestions, read under the String key only. */
  function Validate(kind: string, payload: Value): (r: Result<bool>)
    ensures r.Ok? ==> r.value && AllowedType(kind) && payload.Hash?
    ensures !AllowedType(kind) ==> r == Err("Unknown action type: " + kind)
  {
    match Fetch(kind)
    case None => Err("Unknown action type: " + kind)
    case Some(a) =>
      match CheckKeys(kind, a, payload)
      case Err(e) => Err(e)
      case Ok(_) =>
        if kind == "request_missing_info" then
          ValidateStringArray(Get(payload.entries, StrKey("questions")).GetOr(Nil), "questions", 1, 3)
        else if kind == "suggest_additional_context" then
          ValidateStringArray(Get(payload.entries, StrKey("suggestions")).GetOr(Nil), "suggestions", 1, 4)
        else Ok(true)
  }

  /** The array under a field holds between `min` and `max` non-empty entries. */
  predicate FieldWithin(payload: Value, field: string, min: nat, max: nat)
    requires payload.Hash?
  {
    var v := Get(payload.entries, StrKey(field)).GetOr(Nil);
    v.Arr? && min <= NonEmptyCount(v.items) <= max
  }

  /** What a valid payload is, stated directly. */
  predicate ValidPayload(kind: string, payload: Value) {
    AllowedType(kind) && KeysValid(Fetch(kind).value, payload) &&
    (kind == "request_missing_info" ==> FieldWithin(payload, "questions", 1, 3)) &&
    (kind == "suggest_additional_context" ==> FieldWithin(payload, "suggestions", 1, 4))
  }

  lemma ValidateIsValidPayload(kind: string, payload: Value)
    ensures Validate(kind, payload).Ok? <==> ValidPayload(kind, payload)
  {
    if AllowedType(kind) {
      CheckKeysIsKeysValid(kind, Fetch(kind).value, payload);
    }
  }

  /** `blankish?`: nil, an empty String, Array or Hash, or text that strips to nothing. */
  predicate Blankish(v: Value) {
    match v
    case Nil => true
    case Str(s) => Strip(s) == []
    case Arr(items) => items == []
    case Hash(es) => es == []
    case _ => false
  }

  /** `apply_defaults!` on the normalised entries, with `DEFAULT_TIMEZONE`
      as `defaultTimezone`. */
  function Defaulted(kind: string, entries: seq<(Key, Value)>, defaultTimezone: string): (r: seq<(Key, Value)>)
    ensures kind != "schedule_prompt" ==> r == entries
    ensures kind == "schedule_prompt" ==>
      Get(r, StrKey("timezone")) ==
        (if Blankish(Get(entries, StrKey("timezone")).GetOr(Nil)) then Some(Str(defaultTimezone))
         else Get(entries, StrKey("timezone")))
    ensures kind == "schedule_prompt" ==>
      Get(r, StrKey("enabled")) == (if HasKey(entries, StrKey("enabled")) then Get(entries, StrKey("enabled")) else Some(Bool(true)))
    ensures forall k: Key :: k != StrKey("timezone") && k != StrKey("enabled") ==> Get(r, k) == Get(entries, k)
  {
    if kind != "schedule_prompt" then entries
    else
      var withZone := if Blankish(Get(entries, StrKey("timezone")).GetOr(Nil)) then
        HashSet(entries, StrKey("timezone"), Str(defaultTimezone)) else entries;
      if HasKey(withZone, StrKey("enabled")) then withZone else HashSet(withZone, StrKey("enabled"), Bool(true))
  }

  /** `normalize_payload`. */
  function NormalizedPayload(kind: string, payload: Value, defaultTimezone: string): (r: Value)
    ensures r.Hash?
    ensures !AllowedType(kind) || !payload.Hash? ==> r == Hash([])
  {
    match Fetch(kind)
    case None => Hash([])
    case Some(a) =>
      if !payload.Hash? then Hash([])
      else Hash(Defaulted(kind, Filtered([], payload.entries, Allowed(a)), defaultTimezone))
  }

  /** The hash that `normalize_payload` builds and `apply_defaults!` updates in place. */
  class PayloadHash {
    var entries: seq<(Key, Value)>

    constructor ()
      ensures entries == []
    {
      entries := [];
    }

    /** `hash[k] = v`. */
    method Put(k: Key, v: Value)
      modifies this
      ensures entries == HashSet(old(entries), k, v)
    {
      entries := HashSet(entries, k, v);
    }

    /** `payload.key?(k)`. */
    function Has(k: Key): (b: bool)
      reads this
      ensures b <==> HasKey(entries, k)
    {
      Get(entries, k).Some?
    }
  }

  method ApplyDefaults(kind: string, payload: PayloadHash, defaultTimezone: string)
    modifies payload
    ensures payload.entries == Defaulted(kind, old(payload.entries), defaultTimezone)
  {
    if kind == "schedule_prompt" {
      if Blankish(Get(payload.entries, StrKey("timezone")).GetOr(Nil)) {
        payload.Put(StrKey("timezone"), Str(defaultTimezone));
      }
      if !payload.Has(StrKey("enabled")) {
        payload.Put(StrKey("enabled"), Bool(true));
      }
    }
  }

  method NormalizePayload(kind: string, payload: Value, defaultTimezone: string) returns (r: Value)
    ensures r == NormalizedPayload(kind, payload, defaultTimezone)
  {
    var action := Fetch(kind);
    if action.None? || !payload.Hash? {
      return Hash([]);
    }
    var allowed := Allowed(action.value);
    var normalized := new PayloadHash();
    var entries := payload.entries;
    for i := 0 to |entries|
      invariant Filtered(normalized.entries, entries[i..], allowed) == Filtered([], entries, allowed)
    {
      assert entries[i..][1..] == entries[i + 1..];
      var name := entries[i].0.name;
      if name in allowed {
        normalized.Put(StrKey(name), entries[i].1);
      }
    }
    ApplyDefaults(kind, normalized, defaultTimezone);
    return Hash(normalized.entries);
  }

  // ---------------------------------------------------------------- properties

  lemma TypesInOrder()
    ensures Types() == ["schedule_prompt", "draft_email", "create_task", "suggest_additional_context", "request_missing_info"]
  {
  }

  /** The defaults only add the two keys a scheduled prompt allows. */
  lemma DefaultedKeys(kind: string, entries: seq<(Key, Value)>, allowed: seq<string>, defaultTimezone: string)
    requires StringKeysIn(entries, allowed)
    requires kind == "schedule_prompt" ==> "timezone" in allowed && "enabled" in allowed
    ensures StringKeysIn(Defaulted(kind, entries, defaultTimezone), allowed)
  {
    if kind == "schedule_prompt" {
      var z := if Blankish(Get(entries, StrKey("timezone")).GetOr(Nil)) then
        HashSet(entries, StrKey("timezone"), Str(defaultTimezone)) else entries;
      HashSetKeepsStringKeys(entries, "timezone", Str(defaultTimezone), allowed);
      HashSetKeepsStringKeys(z, "enabled", Bool(true), allowed);
    }
  }

  /** A normalised payload holds only String keys of allowed names. */
  lemma NormalizedKeysAllowed(kind: string, payload: Value, defaultTimezone: string)
    requires AllowedType(kind)
    ensures StringKeysIn(NormalizedPayload(kind, payload, defaultTimezone).entries, Allowed(Fetch(kind).value))
  {
    if payload.Hash? {
      var a := Fetch(kind).value;
      FilteredSpec([], payload.entries, Allowed(a));
      if kind == "schedule_prompt" {
        assert "timezone" in Allowed(a) && "enabled" in Allowed(a);
      }
      DefaultedKeys(kind, Filtered([], payload.entries, Allowed(a)), Allowed(a), defaultTimezone);
    }
  }

  /** Each allowed name holds the value of the last entry of that name, under
      a String or a Symbol key, except the two defaults of a scheduled
      prompt; a name outside the action's keys is dropped. */
  lemma NormalizedValues(kind: string, payload: Value, name: string, defaultTimezone: string)
    requires AllowedType(kind) && payload.Hash?
    ensures var r := NormalizedPayload(kind, payload, defaultTimezone).entries;
      name !in Allowed(Fetch(kind).value) ==> Get(r, StrKey(name)).None?
    ensures var r := NormalizedPayload(kind, payload, defaultTimezone).entries;
      name in Allowed(Fetch(kind).value) && (kind != "schedule_prompt" || (name != "timezone" && name != "enabled")) ==>
        Get(r, StrKey(name)) == LastNamed(payload.entries, name)
  {
    FilteredSpec([], payload.entries, Allowed(Fetch(kind).value));
  }

  /** After normalisation a scheduled prompt always has a timezone, usable
      unless both the payload's and the default are blank, and an `enabled`
      flag, and an `enabled` given by the payload is kept. */
  lemma ScheduleDefaults(payload: Value, defaultTimezone: string)
    requires payload.Hash?
    ensures var r := NormalizedPayload("schedule_prompt", payload, defaultTimezone).entries;
      HasKey(r, StrKey("timezone")) &&
      (!Blankish(Str(defaultTimezone)) ==> !Blankish(Get(r, StrKey("timezone")).value)) &&
      HasKey(r, StrKey("enabled")) &&
      (LastNamed(payload.entries, "enabled").Some? ==> Get(r, StrKey("enabled")) == LastNamed(payload.entries, "enabled"))
  {
    ScheduleFetched();
    var f := Filtered([], payload.entries, Allowed(Actions[0]));
    assert NormalizedPayload("schedule_prompt", payload, defaultTimezone).entries == Defaulted("schedule_prompt", f, defaultTimezone);
    FilteredSpec([], payload.entries, Allowed(Actions[0]));
    ScheduleDefaulted(f, defaultTimezone);
  }

  lemma ScheduleFetched()
    ensures Fetch("schedule_prompt") == Some(Actions[0]) && "enabled" in Allowed(Actions[0])
  {
  }

  /** `apply_defaults!` leaves a timezone, usable whenever the default is,
      and an `enabled` key, and keeps an `enabled` already there. */
  lemma ScheduleDefaulted(entries: seq<(Key, Value)>, defaultTimezone: string)
    ensures var r := Defaulted("schedule_prompt", entries, defaultTimezone);
      HasKey(r, StrKey("timezone")) &&
      (!Blankish(Str(defaultTimezone)) ==> !Blankish(Get(r, StrKey("timezone")).value)) &&
      HasKey(r, StrKey("enabled")) &&
      (HasKey(entries, StrKey("enabled")) ==> Get(r, StrKey("enabled")) == Get(entries, StrKey("enabled")))
  {
  }

  /** With `DEFAULT_TIMEZONE` unset, a normalised scheduled prompt always has
      a usable timezone. */
  lemma ScheduleTimezoneUnsetEnv(payload: Value, env: map<string, string>)
    requires payload.Hash? && "DEFAULT_TIMEZONE" !in env
    ensures var r := NormalizedPayload("schedule_prompt", payload, DefaultTimezone(env)).entries;
      HasKey(r, StrKey("timezone")) && !Blankish(Get(r, StrKey("timezone")).value)
  {
    StripOfTrimmed("Europe/Vienna");
    ScheduleDefaults(payload, DefaultTimezone(env));
  }

  /** `validate!` for a question list, one step at a time. */
  lemma ValidateQuestions(payload: Value)
    ensures Validate("request_missing_info", payload) ==
      if CheckKeys("request_missing_info", Actions[4], payload).Err? then CheckKeys("request_missing_info", Actions[4], payload)
      else ValidateStringArray(Get(payload.entries, StrKey("questions")).GetOr(Nil), "questions", 1, 3)
  {
    QuestionsFetched();
  }

  lemma QuestionsFetched()
    ensures Fetch("request_missing_info") == Some(Actions[4])
  {
  }

  /** A payload whose only key is `questions`, as a String or a Symbol, passes the key checks. */
  lemma QuestionKeysPass(k: Key, v: Value)
    requires k.name == "questions"
    ensures CheckKeys("request_missing_info", Actions[4], Hash([(k, v)])) == Ok(true)
  {
    assert HasKey([(k, v)], k);
    assert KeyNames([(k, v)]) == ["questions"];
  }

  /** One non-blank question under the String key is a valid request. */
  lemma OneQuestionAccepted(q: string)
    requires Strip(q) != []
    ensures Validate("request_missing_info", Hash([(StrKey("questions"), Arr([Str(q)]))])) == Ok(true)
  {
    ValidateQuestions(Hash([(StrKey("questions"), Arr([Str(q)]))]));
    QuestionKeysPass(StrKey("questions"), Arr([Str(q)]));
    assert NonEmptyCount([Str(q)]) == 1;
  }

  /** A question that strips to nothing does not count. */
  lemma BlankQuestionRejected(q: string)
    requires Strip(q) == []
    ensures Validate("request_missing_info", Hash([(StrKey("questions"), Arr([Str(q)]))])) ==
      Err(CountError("questions", 1, 3))
  {
    var v := Arr([Str(q)]);
    var p := Hash([(StrKey("questions"), v)]);
    ValidateQuestions(p);
    QuestionKeysPass(StrKey("questions"), v);
    assert Get(p.entries, StrKey("questions")) == Some(v);
    BlankEntryNotCounted(q);
    TooFewRejected(v, "questions", 1, 3);
  }

  lemma BlankEntryNotCounted(q: string)
    requires Strip(q) == []
    ensures NonEmptyCount([Str(q)]) == 0
  {
    assert [Str(q)][1..] == [];
  }

  /** An array with fewer non-empty entries than the minimum is refused
      with the count message. */
  lemma TooFewRejected(v: Value, field: string, min: nat, max: nat)
    requires v.Arr? && NonEmptyCount(v.items) < min
    ensures ValidateStringArray(v, field, min, max) == Err(CountError(field, min, max))
  {
  }

  /** The key check accepts `questions` as a Symbol key, but the array rule
      reads the String key only, so such a payload is always rejected. */
  lemma SymbolQuestionsRejected(v: Value)
    ensures Validate("request_missing_info", Hash([(SymKey("questions"), v)])) == Err(ArrayError("questions"))
  {
    ValidateQuestions(Hash([(SymKey("questions"), v)]));
    QuestionKeysPass(SymKey("questions"), v);
    assert Get([(SymKey("questions"), v)], StrKey("questions")) == None;
  }

  lemma DraftFetched()
    ensures Fetch("draft_email") == Some(Actions[1])
  {
  }

  lemma MissingBodyRejected(subject: Value)
    ensures Validate("draft_email", Hash([(StrKey("subject"), subject)])) == Err(KeyError("draft_email", "missing body"))
  {
    var es := [(StrKey("subject"), subject)];
    DraftFetched();
    assert HasKey(es, StrKey("subject"));
    assert !Present(es, "body");
    assert Missing(["subject", "body"], es) == ["body"];
    OneMissing("draft_email", Actions[1], es, "body");
  }

  /** A key outside the action's keys is reported by name, whatever its kind. */
  lemma UnexpectedKeyRejected(title: Value, k: Key, v: Value)
    requires k.name !in ["title", "notes", "due_at"]
    ensures Validate("create_task", Hash([(StrKey("title"), title), (k, v)])) ==
      Err(KeyError("create_task", "unexpected " + k.name))
  {
    var es := [(StrKey("title"), title), (k, v)];
    ValidateTask(Hash(es));
    assert HasKey(es, StrKey("title"));
    assert KeyNames(es) == ["title", k.name];
    assert Allowed(Actions[2]) == ["title", "notes", "due_at"];
    assert Unexpected(["title", k.name], ["title", "notes", "due_at"]) == [k.name];
    OneUnexpected("create_task", Actions[2], es, k.name);
  }

  /** `create_task` has no rule beyond the key checks. */
  lemma ValidateTask(payload: Value)
    ensures Validate("create_task", payload) ==
      if CheckKeys("create_task", Actions[2], payload).Err? then CheckKeys("create_task", Actions[2], payload) else Ok(true)
  {
    TaskFetched();
  }

  lemma TaskFetched()
    ensures Fetch("create_task") == Some(Actions[2])
  {
  }

  /** A single missing required key is reported by its name. */
  lemma OneMissing(kind: string, a: Action, es: seq<(Key, Value)>, name: string)
    requires Missing(a.required, es) == [name]
    ensures CheckKeys(kind, a, Hash(es)) == Err(KeyError(kind, "missing " + name))
  {
    assert Join([name], ", ") == name;
  }

  /** A single key outside the allowed ones is reported by its name. */
  lemma OneUnexpected(kind: string, a: Action, es: seq<(Key, Value)>, name: string)
    requires Missing(a.required, es) == [] && Unexpected(KeyNames(es), Allowed(a)) == [name]
    ensures CheckKeys(kind, a, Hash(es)) == Err(KeyError(kind, "unexpected " + name))
  {
    assert Join([name], ", ") == name;
  }

  lemma UnknownTypeRejected(payload: Value)
    ensures Validate("send_email", payload) == Err("Unknown action type: send_email")
  {
    SendEmailUnknown();
  }

  lemma SendEmailUnknown()
    ensures !AllowedType("send_email")
  {
  }
}
