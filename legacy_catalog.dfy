/** `Ai::ActionCatalog`, the earlier catalog of four action types: the same
    key checks as the current catalog, no per-type rules, and a normalisation
    that only filters keys. */
module LegacyCatalog {
  import opened Wrappers
  import opened Values
  import opened ActionPayloads

  const Actions: seq<Action> := [
    Action("schedule_prompt", ["title", "schedule", "timezone", "sources", "prompt_template"], ["conversation_id", "enabled"]),
    Action("draft_email", ["subject", "body"], ["to", "cc", "bcc"]),
    Action("create_task", ["title"], ["notes", "due_at"]),
    Action("request_missing_info", ["questions"], [])
  ]

  function Types(): (r: seq<string>)
    ensures |r| == 4
  {
    Kinds(Actions)
  }

  predicate AllowedType(kind: string) {
    kind in Types()
  }

  function Fetch(kind: string): (r: Option<Action>)
    ensures r.Some? <==> AllowedType(kind)
    ensures r.Some? ==> r.value.kind == kind && r.value in Actions
  {
    Find(Actions, kind)
  }

  /** `validate!`: true, or the message of the `ArgumentError` it raises. */
  function Validate(kind: string, payload: Value): (r: Result<bool>)
    ensures r.Ok? ==> r.value && AllowedType(kind)
    ensures !AllowedType(kind) ==> r == Err("Unknown action type: " + kind)
    ensures AllowedType(kind) ==> r == CheckKeys(kind, Fetch(kind).value, payload)
  {
    match Fetch(kind)
    case None => Err("Unknown action type: " + kind)
    case Some(a) => CheckKeys(kind, a, payload)
  }

  /** `normalize_payload`: the allowed keys as String keys, and nothing added. */
  function NormalizedPayload(kind: string, payload: Value): (r: Value)
    ensures r.Hash?
    ensures !AllowedType(kind) || !payload.Hash? ==> r == Hash([])
  {
    match Fetch(kind)
    case None => Hash([])
    case Some(a) => if payload.Hash? then Hash(Filtered([], payload.entries, Allowed(a))) else Hash([])
  }

  // ---------------------------------------------------------------- properties

  /** Exactly the four listed types are allowed, in catalog order. */
  lemma TypesInOrder()
    ensures Types() == ["schedule_prompt", "draft_email", "create_task", "request_missing_info"]
    ensures !AllowedType("suggest_additional_context")
  {
  }

  lemma ValidateIsKeysValid(kind: string, payload: Value)
    ensures Validate(kind, payload).Ok? <==> AllowedType(kind) && KeysValid(Fetch(kind).value, payload)
  {
    if AllowedType(kind) {
      CheckKeysIsKeysValid(kind, Fetch(kind).value, payload);
    }
  }

  /** A scheduled prompt must name its timezone and sources here. */
  lemma ScheduleRequiresTimezoneAndSources(payload: Value)
    requires Validate("schedule_prompt", payload).Ok?
    ensures Present(payload.entries, "timezone") && Present(payload.entries, "sources")
    ensures Present(payload.entries, "title") && Present(payload.entries, "schedule") && Present(payload.entries, "prompt_template")
  {
    var a := Actions[0];
    assert Fetch("schedule_prompt") == Some(a);
    ValidateIsKeysValid("schedule_prompt", payload);
    assert a.required == ["title", "schedule", "timezone", "sources", "prompt_template"];
    assert a.required[2] == "timezone" && a.required[3] == "sources";
    assert a.required[0] == "title" && a.required[1] == "schedule" && a.required[4] == "prompt_template";
  }

  /** Normalisation only filters: every allowed name holds the last value
      given for it, other names are dropped, and no default appears. */
  lemma NormalizedIsFiltered(kind: string, payload: Value, name: string)
    requires AllowedType(kind) && payload.Hash?
    ensures StringKeysIn(NormalizedPayload(kind, payload).entries, Allowed(Fetch(kind).value))
    ensures name in Allowed(Fetch(kind).value) ==>
      Get(NormalizedPayload(kind, payload).entries, StrKey(name)) == LastNamed(payload.entries, name)
    ensures name !in Allowed(Fetch(kind).value) ==> Get(NormalizedPayload(kind, payload).entries, StrKey(name)).None?
  {
    FilteredSpec([], payload.entries, Allowed(Fetch(kind).value));
  }

  /** In particular a scheduled prompt without `enabled` stays without it. */
  lemma NoEnabledDefault(payload: Value)
    requires payload.Hash? && LastNamed(payload.entries, "enabled").None?
    ensures !HasKey(NormalizedPayload("schedule_prompt", payload).entries, StrKey("enabled"))
  {
    assert Fetch("schedule_prompt") == Some(Actions[0]);
    NormalizedIsFiltered("schedule_prompt", payload, "enabled");
  }
}
