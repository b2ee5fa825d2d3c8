/** `Ai::Usage::TrackRequest`: one `AiRequestUsage` row per provider request.
    `start` creates the row as running, `finish!` records the token counts,
    the rates and the costs and marks it completed, and `fail!` marks it
    failed with an error message. Token counts come from a usage hash whose
    values may be integers, floats or strings; costs are exact decimals,
    modelled as reals. Clocks, the environment and the text conversions Ruby
    performs (`String#to_i`, `inspect`, BigDecimal parsing and printing) are
    parameters. */
module TrackRequest {
  import opened Wrappers
  import opened Text
  import opened Values
  import Pricing

  /** AiRequestUsage::STATUSES. */
  datatype Status = Running | Completed | Failed

  const DefaultError: string := "request_failed"

  // ---------------------------------------------------------------- token counts

  /** `obj[key] || obj[key.to_s]` for a Hash; anything else yields nil. */
  function KeyValue(obj: Value, key: string): (r: Value)
    ensures !obj.Hash? ==> r == Nil
  {
    if obj.Hash? then
      var v := Get(obj.entries, SymKey(key)).GetOr(Nil);
      if Truthy(v) then v else Get(obj.entries, StrKey(key)).GetOr(Nil)
    else Nil
  }

  /** `token_value(obj, *keys)`: the first present value among the keys, as
      an integer, else 0. */
  function TokenValue(obj: Value, keys: seq<string>, strToI: string -> int): (r: Result<int>)
    ensures (forall i :: 0 <= i < |keys| ==> BlankValue(KeyValue(obj, keys[i]))) ==> r == Ok(0)
  {
    if keys == [] then Ok(0)
    else
      var v := KeyValue(obj, keys[0]);
      if !BlankValue(v) then ToI(v, strToI) else TokenValue(obj, keys[1..], strToI)
  }

  datatype Usage = Usage(inputTokens: int, outputTokens: int, totalTokens: int)

  const InputKeys: seq<string> := ["input_tokens", "prompt_tokens"]
  const OutputKeys: seq<string> := ["output_tokens", "completion_tokens"]
  const TotalKeys: seq<string> := ["total_tokens"]

  /** `normalize_usage`: a zero total is replaced by input + output when
      either of them is positive. */
  function NormalizeUsage(usage: Value, strToI: string -> int): (r: Result<Usage>)
    ensures r.Ok? <==> (TokenValue(usage, InputKeys, strToI).Ok? && TokenValue(usage, OutputKeys, strToI).Ok? &&
      TokenValue(usage, TotalKeys, strToI).Ok?)
    ensures r.Ok? ==> (r.value.inputTokens == TokenValue(usage, InputKeys, strToI).value &&
      r.value.outputTokens == TokenValue(usage, OutputKeys, strToI).value)
    ensures r.Ok? && TokenValue(usage, TotalKeys, strToI).value != 0 ==>
      r.value.totalTokens == TokenValue(usage, TotalKeys, strToI).value
    ensures r.Ok? && TokenValue(usage, TotalKeys, strToI).value == 0 ==>
      r.value.totalTokens == (if r.value.inputTokens > 0 || r.value.outputTokens > 0
                              then r.value.inputTokens + r.value.outputTokens else 0)
  {
    var input := TokenValue(usage, InputKeys, strToI);
    var output := TokenValue(usage, OutputKeys, strToI);
    var total := TokenValue(usage, TotalKeys, strToI);
    if input.Err? then Err(input.error)
    else if output.Err? then Err(output.error)
    else if total.Err? then Err(total.error)
    else
      var t := if total.value == 0 && (input.value > 0 || output.value > 0) then input.value + output.value else total.value;
      Ok(Usage(input.value, output.value, t))
  }

  /** `extract_usage(raw)`: the usage hash of a raw response (a Hash here),
      re-keyed by the three token names; {} when there is none or a value
      cannot be converted. */
  function ExtractUsage(raw: Value, strToI: string -> int): (r: Value)
    ensures r.Hash?
    ensures r.entries == [] || |r.entries| == 3
  {
    if !raw.Hash? then Hash([])
    else
      var usage := KeyValue(raw, "usage");
      if BlankValue(usage) then Hash([])
      else
        var i := TokenValue(usage, InputKeys, strToI);
        var o := TokenValue(usage, OutputKeys, strToI);
        var t := TokenValue(usage, TotalKeys, strToI);
        if i.Err? || o.Err? || t.Err? then Hash([])
        else Hash([(SymKey("input_tokens"), Int(i.value)), (SymKey("output_tokens"), Int(o.value)),
                   (SymKey("total_tokens"), Int(t.value))])
  }

  // ---------------------------------------------------------------- costs

  /** `cost_for`: nothing for no tokens or no rate, else tokens per million
      times the rate. */
  function CostFor(tokens: int, ratePer1m: real): (r: real)
    ensures r >= 0.0
    ensures r == 0.0 <==> tokens <= 0 || ratePer1m <= 0.0
  {
    if tokens <= 0 then 0.0
    else if ratePer1m <= 0.0 then 0.0
    else PerMillion(tokens) * ratePer1m
  }

  function PerMillion(tokens: int): (r: real)
    ensures tokens > 0 ==> r > 0.0
  {
    tokens as real / 1000000.0
  }

  // ---------------------------------------------------------------- columns

  /** The millionths a scale-6 decimal column keeps of `x`: ActiveRecord
      casts with `round(6)`, and BigDecimal rounds half up, ties away from
      zero. */
  function Millionths(x: real): (n: int)
    ensures -0.5 <= x * 1000000.0 - n as real <= 0.5
  {
    if x >= 0.0 then (x * 1000000.0 + 0.5).Floor else -((-x * 1000000.0 + 0.5).Floor)
  }

  /** A whole number of millionths. */
  predicate OnScale(x: real) {
    (x * 1000000.0).Floor as real == x * 1000000.0
  }

  /** The value a `decimal(12, 6)` column stores for `x`: the nearest
      millionth, so never more than half a millionth away. */
  function Scaled(x: real): (r: real)
    ensures OnScale(r)
    ensures -0.0000005 <= r - x <= 0.0000005
    ensures x >= 0.0 ==> r >= 0.0
    ensures x == 0.0 ==> r == 0.0
  {
    var n := Millionths(x);
    assert (n as real / 1000000.0) * 1000000.0 == n as real;
    n as real / 1000000.0
  }

  /** What a `decimal(12, 6)` column holds: twelve digits, six of them after
      the point; PostgreSQL refuses a larger value with "numeric field
      overflow". */
  predicate FitsDecimal(x: real) {
    -1000000.0 < x < 1000000.0
  }

  /** What an `integer` column holds: a signed 32-bit number; ActiveModel
      raises RangeError when saving anything beyond. */
  predicate FitsInteger(n: int) {
    -0x8000_0000 <= n < 0x8000_0000
  }

  // ---------------------------------------------------------------- metadata

  /** What a usage row knows of its chat and of the user message. */
  datatype ChatInfo = ChatInfo(id: int, createdById: Option<int>, title: Option<string>)
  datatype MessageInfo = MessageInfo(id: int, createdById: Option<int>, chat: ChatInfo)
  datatype AiMessageInfo = AiMessageInfo(userMessage: Option<MessageInfo>)

  /** `resolve_chat`: the chat given, else the user message's, else the one of
      the AI message's user message. */
  function ResolveChat(chat: Option<ChatInfo>, userMessage: Option<MessageInfo>, aiMessage: Option<AiMessageInfo>)
    : (r: Option<ChatInfo>)
    ensures r.None? <==> chat.None? && userMessage.None? && (aiMessage.None? || aiMessage.value.userMessage.None?)
    ensures chat.Some? ==> r == chat
  {
    if chat.Some? then chat
    else if userMessage.Some? then Some(userMessage.value.chat)
    else if aiMessage.Some? && aiMessage.value.userMessage.Some? then Some(aiMessage.value.userMessage.value.chat)
    else None
  }

  /** `.to_s.presence`. */
  function Presence(s: string): (r: Option<string>)
    ensures r.Some? <==> !Blank(s)
    ensures r.Some? ==> r.value == s
  {
    if Blank(s) then None else Some(s)
  }

  function OptionText(o: Option<string>): string { o.GetOr("") }

  function IntOrNil(o: Option<int>): Value {
    if o.Some? then Int(o.value) else Nil
  }

  /** `h[k] ||= v`. */
  function OrAssign(h: seq<(Key, Value)>, k: string, v: Value): (r: seq<(Key, Value)>)
    ensures Truthy(Get(h, StrKey(k)).GetOr(Nil)) ==> r == h
    ensures !Truthy(Get(h, StrKey(k)).GetOr(Nil)) ==> Get(r, StrKey(k)) == Some(v)
    ensures forall k' :: k' != StrKey(k) ==> Get(r, k') == Get(h, k')
  {
    if Truthy(Get(h, StrKey(k)).GetOr(Nil)) then h else HashSet(h, StrKey(k), v)
  }

  /** `stringify_keys`: later entries overwrite earlier ones of the same name. */
  function Stringified(es: seq<(Key, Value)>): seq<(Key, Value)> {
    BuildHash([], seq(|es|, i requires 0 <= i < |es| => (StrKey(es[i].0.name), es[i].1)))
  }

  /** `compact`: the entries holding nil are dropped. */
  function Compact(h: seq<(Key, Value)>): (r: seq<(Key, Value)>)
    ensures forall i :: 0 <= i < |r| ==> r[i].1 != Nil
    ensures forall i :: 0 <= i < |r| ==> r[i] in h
  {
    if h == [] then [] else (if h[0].1 == Nil then [] else [h[0]]) + Compact(h[1..])
  }

  /** The snapshot values: actor, chat id, chat title and user message id. */
  function Actor(userMessage: Option<MessageInfo>, chat: Option<ChatInfo>): Value {
    if userMessage.Some? && userMessage.value.createdById.Some? then Int(userMessage.value.createdById.value)
    else if chat.Some? then IntOrNil(chat.value.createdById)
    else Nil
  }

  /** The caller's metadata with String keys (`{}` unless it is a Hash). */
  function CallerMetadata(metadata: Value): seq<(Key, Value)> {
    if metadata.Hash? then Stringified(metadata.entries) else []
  }

  /** The chat title the snapshot records: `chat&.title.to_s.presence`. */
  function TitleValue(chat: Option<ChatInfo>): Value {
    var title := if chat.Some? then Presence(OptionText(chat.value.title)) else None;
    if title.Some? then Str(title.value) else Nil
  }

  /** What `h[name] ||= v` leaves under `name`. */
  function Filled(h: seq<(Key, Value)>, name: string, v: Value): Value {
    var c := Get(h, StrKey(name)).GetOr(Nil);
    if Truthy(c) then c else v
  }

  /** A read after `compact`: nil reads as absent. */
  function NonNil(v: Value): Option<Value> {
    if v == Nil then None else Some(v)
  }

  /** The four `||=` assignments of `snapshot_metadata`, in order. */
  function Fills(m0: seq<(Key, Value)>, actor: Value, chatId: Value, title: Value, messageId: Value): seq<(Key, Value)> {
    var m1 := OrAssign(m0, "actor_user_id", actor);
    var m2 := OrAssign(m1, "chat_id_snapshot", chatId);
    var m3 := OrAssign(m2, "chat_title_snapshot", title);
    OrAssign(m3, "user_message_id_snapshot", messageId)
  }

  /** After the assignments each snapshot key holds the caller's truthy
      value or else the fill, and every other key is the caller's. */
  lemma FillsReads(m0: seq<(Key, Value)>, actor: Value, chatId: Value, title: Value, messageId: Value)
    ensures var m := Fills(m0, actor, chatId, title, messageId);
      Get(m, StrKey("actor_user_id")) == Some(Filled(m0, "actor_user_id", actor)) &&
      Get(m, StrKey("chat_id_snapshot")) == Some(Filled(m0, "chat_id_snapshot", chatId)) &&
      Get(m, StrKey("chat_title_snapshot")) == Some(Filled(m0, "chat_title_snapshot", title)) &&
      Get(m, StrKey("user_message_id_snapshot")) == Some(Filled(m0, "user_message_id_snapshot", messageId)) &&
      forall k :: k !in SnapshotKeyNames ==> Get(m, k) == Get(m0, k)
  {
    FillsSnapshotKeys(m0, actor, chatId, title, messageId);
    forall k | k !in SnapshotKeyNames
      ensures Get(Fills(m0, actor, chatId, title, messageId), k) == Get(m0, k)
    {
      FillsKeepsKey(m0, actor, chatId, title, messageId, k);
    }
  }

  lemma FillsKeepsKey(m0: seq<(Key, Value)>, actor: Value, chatId: Value, title: Value, messageId: Value, k: Key)
    requires k !in SnapshotKeyNames
    ensures Get(Fills(m0, actor, chatId, title, messageId), k) == Get(m0, k)
  {
  }

  lemma FillsSnapshotKeys(m0: seq<(Key, Value)>, actor: Value, chatId: Value, title: Value, messageId: Value)
    ensures var m := Fills(m0, actor, chatId, title, messageId);
      Get(m, StrKey("actor_user_id")) == Some(Filled(m0, "actor_user_id", actor)) &&
      Get(m, StrKey("chat_id_snapshot")) == Some(Filled(m0, "chat_id_snapshot", chatId)) &&
      Get(m, StrKey("chat_title_snapshot")) == Some(Filled(m0, "chat_title_snapshot", title)) &&
      Get(m, StrKey("user_message_id_snapshot")) == Some(Filled(m0, "user_message_id_snapshot", messageId))
  {
    var a, c, t, u := "actor_user_id", "chat_id_snapshot", "chat_title_snapshot", "user_message_id_snapshot";
    var m1 := OrAssign(m0, a, actor);
    var m2 := OrAssign(m1, c, chatId);
    var m3 := OrAssign(m2, t, title);
    // Each key reads, before its own assignment, as the caller left it ...
    ReadKept(m0, a, actor, c);
    ReadKept(m0, a, actor, t);
    ReadKept(m1, c, chatId, t);
    ReadKept(m0, a, actor, u);
    ReadKept(m1, c, chatId, u);
    ReadKept(m2, t, title, u);
    // ... its own assignment fills it ...
    FilledRead(m0, a, actor);
    FilledRead(m1, c, chatId);
    FilledRead(m2, t, title);
    FilledRead(m3, u, messageId);
    // ... and the later ones keep it.
    ReadKept(m1, c, chatId, a);
    ReadKept(m2, t, title, a);
    ReadKept(m3, u, messageId, a);
    ReadKept(m2, t, title, c);
    ReadKept(m3, u, messageId, c);
    ReadKept(m3, u, messageId, t);
  }

  /** After `h[name] ||= v`, `name` reads as what the assignment leaves there. */
  lemma FilledRead(h: seq<(Key, Value)>, name: string, v: Value)
    ensures Get(OrAssign(h, name, v), StrKey(name)) == Some(Filled(h, name, v))
  {
  }

  /** `h[name] ||= v` leaves every other key alone. */
  lemma ReadKept(h: seq<(Key, Value)>, name: string, v: Value, other: string)
    requires other != name
    ensures Get(OrAssign(h, name, v), StrKey(other)) == Get(h, StrKey(other))
  {
  }

  const SnapshotKeyNames: set<Key> :=
    {StrKey("actor_user_id"), StrKey("chat_id_snapshot"), StrKey("chat_title_snapshot"), StrKey("user_message_id_snapshot")}

  /** `snapshot_metadata`: the caller's metadata with String keys, the
      snapshot keys filled in where they are unset, nil values dropped. */
  function Snapshot(metadata: Value, userMessage: Option<MessageInfo>, chat: Option<ChatInfo>): (r: seq<(Key, Value)>)
    ensures forall i :: 0 <= i < |r| ==> r[i].1 != Nil
    ensures forall i :: 0 <= i < |r| ==> r[i].0.StrKey?
    ensures Get(r, StrKey("actor_user_id")) == NonNil(Filled(CallerMetadata(metadata), "actor_user_id", Actor(userMessage, chat)))
    ensures Get(r, StrKey("chat_id_snapshot")) ==
      NonNil(Filled(CallerMetadata(metadata), "chat_id_snapshot", if chat.Some? then Int(chat.value.id) else Nil))
    ensures Get(r, StrKey("chat_title_snapshot")) == NonNil(Filled(CallerMetadata(metadata), "chat_title_snapshot", TitleValue(chat)))
    ensures Get(r, StrKey("user_message_id_snapshot")) ==
      NonNil(Filled(CallerMetadata(metadata), "user_message_id_snapshot", if userMessage.Some? then Int(userMessage.value.id) else Nil))
    ensures forall k :: k !in SnapshotKeyNames ==>
      Get(r, k) == (if Get(CallerMetadata(metadata), k).Some? then NonNil(Get(CallerMetadata(metadata), k).value) else None)
  {
    var m0 := CallerMetadata(metadata);
    var m := Fills(m0, Actor(userMessage, chat), if chat.Some? then Int(chat.value.id) else Nil, TitleValue(chat),
                   if userMessage.Some? then Int(userMessage.value.id) else Nil);
    FillsReads(m0, Actor(userMessage, chat), if chat.Some? then Int(chat.value.id) else Nil, TitleValue(chat),
               if userMessage.Some? then Int(userMessage.value.id) else Nil);
    SnapshotKeys(metadata, Actor(userMessage, chat), if chat.Some? then Int(chat.value.id) else Nil, TitleValue(chat),
                 if userMessage.Some? then Int(userMessage.value.id) else Nil);
    Compact(m)
  }

  /** The assignments keep the keys distinct and String keys only, so
      `compact` hides exactly the nil values. */
  lemma SnapshotKeys(metadata: Value, actor: Value, chatId: Value, title: Value, messageId: Value)
    ensures var m := Fills(CallerMetadata(metadata), actor, chatId, title, messageId);
      (forall k :: Get(Compact(m), k) == (if Get(m, k).Some? then NonNil(Get(m, k).value) else None)) &&
      (forall i :: 0 <= i < |Compact(m)| ==> Compact(m)[i].0.StrKey?)
  {
    var m0 := CallerMetadata(metadata);
    if metadata.Hash? {
      var es := metadata.entries;
      var copied := seq(|es|, i requires 0 <= i < |es| => (StrKey(es[i].0.name), es[i].1));
      BuildHashDistinct([], copied);
      BuildHashEntries([], copied);
      forall i | 0 <= i < |m0| ensures m0[i].0.StrKey? {
        assert m0[i] in m0;
        var j :| 0 <= j < |copied| && copied[j] == m0[i];
      }
    }
    var m1 := OrAssign(m0, "actor_user_id", actor);
    var m2 := OrAssign(m1, "chat_id_snapshot", chatId);
    var m3 := OrAssign(m2, "chat_title_snapshot", title);
    var m4 := OrAssign(m3, "user_message_id_snapshot", messageId);
    OrAssignKeys(m0, "actor_user_id", actor);
    OrAssignKeys(m1, "chat_id_snapshot", chatId);
    OrAssignKeys(m2, "chat_title_snapshot", title);
    OrAssignKeys(m3, "user_message_id_snapshot", messageId);
    forall k ensures Get(Compact(m4), k) == (if Get(m4, k).Some? then NonNil(Get(m4, k).value) else None) {
      GetCompact(m4, k);
    }
    forall i | 0 <= i < |Compact(m4)| ensures Compact(m4)[i].0.StrKey? {
      GetCompact(m4, StrKey(""));
      assert Compact(m4)[i] in m4;
    }
  }

  /** `h[k] ||= v` keeps the keys distinct and String keys only. */
  lemma OrAssignKeys(h: seq<(Key, Value)>, k: string, v: Value)
    requires DistinctKeys(h) && forall i :: 0 <= i < |h| ==> h[i].0.StrKey?
    ensures var r := OrAssign(h, k, v); DistinctKeys(r) && forall i :: 0 <= i < |r| ==> r[i].0.StrKey?
  {
    var r := OrAssign(h, k, v);
    if !Truthy(Get(h, StrKey(k)).GetOr(Nil)) {
      HashSetDistinct(h, StrKey(k), v);
      HashSetEntries(h, StrKey(k), v);
      forall i | 0 <= i < |r| ensures r[i].0.StrKey? {
        assert r[i] in r;
      }
    }
  }

  /** On distinct keys, `compact` hides exactly the nil values. */
  lemma {:induction false} GetCompact(h: seq<(Key, Value)>, k: Key)
    requires DistinctKeys(h)
    ensures Get(Compact(h), k) == (if Get(h, k).Some? then NonNil(Get(h, k).value) else None)
    ensures forall i :: 0 <= i < |Compact(h)| ==> Compact(h)[i] in h
  {
    if h != [] {
      var t := h[1..];
      assert DistinctKeys(t) by {
        forall i, j | 0 <= i < j < |t| ensures t[i].0 != t[j].0 {
          assert t[i] == h[i + 1] && t[j] == h[j + 1];
        }
      }
      GetCompact(t, k);
      if h[0].0 == k {
        assert !HasKey(t, k) by {
          forall i | 0 <= i < |t| ensures t[i].0 != k {
            assert t[i] == h[i + 1];
          }
        }
        if h[0].1 == Nil {
          assert Compact(h) == Compact(t);
        } else {
          assert Compact(h) == [h[0]] + Compact(t);
          assert Compact(h)[0] == h[0];
        }
      } else if h[0].1 != Nil {
        assert Compact(h) == [h[0]] + Compact(t);
        assert Compact(h)[1..] == Compact(t);
      } else {
        assert Compact(h) == Compact(t);
      }
    }
  }

  /** `metadata.to_h.merge(extra.is_a?(Hash) ? extra : {})`. */
  function Merged(stored: seq<(Key, Value)>, extra: Value): seq<(Key, Value)> {
    if extra.Hash? then BuildHash(stored, extra.entries) else stored
  }

  // ---------------------------------------------------------------- rows

  /** The columns of an `AiRequestUsage` row the services write. */
  datatype RowState = RowState(
    status: Status, chat: ChatInfo, userMessage: Option<MessageInfo>, requestKind: string, provider: string,
    model: Option<string>, providerRequestId: Option<string>,
    inputTokens: int, outputTokens: int, totalTokens: int,
    inputRatePer1mUsd: real, outputRatePer1mUsd: real,
    inputCostUsd: real, outputCostUsd: real, totalCostUsd: real,
    requestedAt: int, completedAt: Option<int>, metadata: seq<(Key, Value)>)

  /** The row `start` creates: running, no counts, no costs, no completion. */
  function StartedRow(chat: ChatInfo, userMessage: Option<MessageInfo>, requestKind: string, provider: string,
                   model: Option<string>, requestedAt: int, metadata: seq<(Key, Value)>): (r: RowState)
    ensures r.status == Running && r.completedAt == None && r.providerRequestId == None
    ensures r.totalTokens == 0 && r.totalCostUsd == 0.0
  {
    RowState(Running, chat, userMessage, requestKind, provider, model, None, 0, 0, 0, 0.0, 0.0, 0.0, 0.0, 0.0,
             requestedAt, None, metadata)
  }

  /** A row whose columns obey the model's validations and arithmetic:
      request kind and provider present, rates and costs whole millionths,
      costs never negative, the total cost within one millionth of the sum
      of the two (each is rounded on its own), a completion time once the
      row is settled. */
  predicate ValidRow(s: RowState) {
    !Blank(s.requestKind) && !Blank(s.provider) &&
    OnScale(s.inputRatePer1mUsd) && OnScale(s.outputRatePer1mUsd) &&
    OnScale(s.inputCostUsd) && OnScale(s.outputCostUsd) && OnScale(s.totalCostUsd) &&
    s.inputCostUsd >= 0.0 && s.outputCostUsd >= 0.0 && s.totalCostUsd >= 0.0 &&
    -0.000001 <= s.totalCostUsd - (s.inputCostUsd + s.outputCostUsd) <= 0.000001 &&
    (s.status != Running ==> s.completedAt.Some?)
  }

  /** A row the database accepts: every count fits an `integer` column and
      every rate and cost a `decimal(12, 6)` one. */
  predicate Storable(s: RowState) {
    FitsInteger(s.inputTokens) && FitsInteger(s.outputTokens) && FitsInteger(s.totalTokens) &&
    FitsDecimal(s.inputRatePer1mUsd) && FitsDecimal(s.outputRatePer1mUsd) &&
    FitsDecimal(s.inputCostUsd) && FitsDecimal(s.outputCostUsd) && FitsDecimal(s.totalCostUsd)
  }

  /** The model `finish!` records: the one given, else the row's, else the
      one the raw response names. */
  function FinalModel(model: Option<string>, rowModel: Option<string>, raw: Value, inspect: Value -> string)
    : (r: Option<string>)
    ensures r.Some? ==> !Blank(r.value)
    ensures !Blank(OptionText(model)) ==> r == model
  {
    var given := Presence(OptionText(model));
    if given.Some? then given
    else
      var stored := Presence(OptionText(rowModel));
      if stored.Some? then stored else RawText(raw, "model", inspect)
  }

  /** `extract_model` / `extract_request_id`: `(raw[:k] || raw["k"]).to_s.presence`. */
  function RawText(raw: Value, key: string, inspect: Value -> string): (r: Option<string>)
    ensures r.Some? ==> !Blank(r.value)
    ensures !raw.Hash? ==> r == None
  {
    if raw.Hash? then Presence(ToS(KeyValue(raw, key), inspect)) else None
  }

  /** The request id `finish!` records: the one given, else the raw
      response's, else the one already stored. */
  function FinalRequestId(given: Option<string>, raw: Value, stored: Option<string>, inspect: Value -> string)
    : (r: Option<string>)
    ensures !Blank(OptionText(given)) ==> r == given
    ensures r == None ==> stored == None
  {
    var g := Presence(OptionText(given));
    if g.Some? then g
    else
      var fromRaw := RawText(raw, "id", inspect);
      if fromRaw.Some? then fromRaw else stored
  }

  /** The usage `finish!` normalises: the one given when truthy, else the raw response's. */
  function UsageSource(usage: Value, raw: Value, strToI: string -> int): Value {
    if Truthy(usage) then usage else ExtractUsage(raw, strToI)
  }

  /** The row after `finish!`: the normalised counts, the model's rates, the
      costs they give, completed at `completedAt`. The rates and costs are as
      the columns store them, each rounded to six places; the total is the
      exact sum rounded, so it may differ from the sum of the two stored
      costs by a millionth. */
  function FinishedRow(s: RowState, model: Option<string>, providerRequestId: Option<string>, u: Usage, raw: Value,
                    metadata: Value, completedAt: int, env: map<string, string>,
                    toD: string -> real, toS: real -> string, inspect: Value -> string): (r: RowState)
    ensures r.status == Completed && r.completedAt == Some(completedAt)
    ensures r.inputTokens == u.inputTokens && r.outputTokens == u.outputTokens && r.totalTokens == u.totalTokens
    ensures r.inputCostUsd >= 0.0 && r.outputCostUsd >= 0.0 && r.totalCostUsd >= 0.0
    ensures -0.000001 <= r.totalCostUsd - (r.inputCostUsd + r.outputCostUsd) <= 0.000001
    ensures var rates := Pricing.ForModel(OptionText(r.model), env, toD, toS);
      -0.0000005 <= r.inputCostUsd - CostFor(u.inputTokens, rates.inputRatePer1mUsd) <= 0.0000005 &&
      -0.0000005 <= r.outputCostUsd - CostFor(u.outputTokens, rates.outputRatePer1mUsd) <= 0.0000005
    ensures u.inputTokens <= 0 ==> r.inputCostUsd == 0.0
    ensures u.outputTokens <= 0 ==> r.outputCostUsd == 0.0
    ensures r.chat == s.chat && r.userMessage == s.userMessage && r.requestedAt == s.requestedAt
    ensures r.requestKind == s.requestKind && r.provider == s.provider
    ensures ValidRow(s) ==> ValidRow(r)
  {
    var finalModel := FinalModel(model, s.model, raw, inspect);
    var pricing := Pricing.ForModel(OptionText(finalModel), env, toD, toS);
    var inputCost := CostFor(u.inputTokens, pricing.inputRatePer1mUsd);
    var outputCost := CostFor(u.outputTokens, pricing.outputRatePer1mUsd);
    RoundedSumWithinMillionth(inputCost, outputCost);
    s.(status := Completed, model := finalModel,
       providerRequestId := FinalRequestId(providerRequestId, raw, s.providerRequestId, inspect),
       inputTokens := u.inputTokens, outputTokens := u.outputTokens, totalTokens := u.totalTokens,
       inputRatePer1mUsd := Scaled(pricing.inputRatePer1mUsd), outputRatePer1mUsd := Scaled(pricing.outputRatePer1mUsd),
       inputCostUsd := Scaled(inputCost), outputCostUsd := Scaled(outputCost), totalCostUsd := Scaled(inputCost + outputCost),
       completedAt := Some(completedAt),
       metadata := Snapshot(Hash(Merged(s.metadata, metadata)), s.userMessage, Some(s.chat)))
  }

  /** The metadata `fail!` stores: the merged metadata with its "error". */
  function FailureMetadata(stored: seq<(Key, Value)>, metadata: Value, error: string): (r: seq<(Key, Value)>)
    ensures Get(r, StrKey("error")) == Some(Str(if Blank(error) then DefaultError else error))
  {
    var errorText := Presence(error);
    HashSet(Merged(stored, metadata), StrKey("error"), Str(if errorText.Some? then errorText.value else DefaultError))
  }

  /** The row after `fail!`: failed at `completedAt`, the error in its
      metadata, counts and costs as they were. */
  function FailedRow(s: RowState, error: string, metadata: Value, completedAt: int): (r: RowState)
    ensures r.status == Failed && r.completedAt == Some(completedAt)
    ensures r.totalTokens == s.totalTokens && r.totalCostUsd == s.totalCostUsd && r.model == s.model
    ensures r.chat == s.chat && r.providerRequestId == s.providerRequestId
    ensures ValidRow(s) ==> ValidRow(r)
  {
    s.(status := Failed, completedAt := Some(completedAt),
       metadata := Snapshot(Hash(FailureMetadata(s.metadata, metadata, error)), s.userMessage, Some(s.chat)))
  }

  /** An `AiRequestUsage` record: its columns, which `update!` rewrites in
      place, as ActiveRecord keeps them in one attribute set. */
  class UsageRow {
    var columns: RowState

    /** `AiRequestUsage.create!` with the given columns. */
    constructor(s: RowState)
      ensures columns == s
    {
      columns := s;
    }

    /** `update!` / `update`. */
    method Update(s: RowState)
      modifies this
      ensures columns == s
    {
      columns := s;
    }
  }

  /** `start`: no row without a chat, or when the record would be invalid
      (request kind and provider must be present), else a new running row. */
  method Start(requestKind: string, provider: string, model: Option<string>, userMessage: Option<MessageInfo>,
               aiMessage: Option<AiMessageInfo>, chat: Option<ChatInfo>, metadata: Value,
               requestedAt: Option<int>, now: int) returns (row: UsageRow?)
    ensures row == null <==> ResolveChat(chat, userMessage, aiMessage).None? || Blank(requestKind) || Blank(provider)
    ensures row != null ==> fresh(row) && ValidRow(row.columns)
    ensures row != null ==> var resolved := ResolveChat(chat, userMessage, aiMessage);
      row.columns == StartedRow(resolved.value, userMessage, requestKind, provider, Presence(OptionText(model)),
                             requestedAt.GetOr(now), Snapshot(metadata, userMessage, resolved))
  {
    var resolved := ResolveChat(chat, userMessage, aiMessage);
    if resolved.None? {
      return null;
    }
    if Blank(requestKind) || Blank(provider) {
      return null;
    }
    row := new UsageRow(StartedRow(resolved.value, userMessage, requestKind, provider, Presence(OptionText(model)),
                                requestedAt.GetOr(now), Snapshot(metadata, userMessage, resolved)));
  }

  /** `finish!`: with a row, records the normalised usage, the model's rates,
      the costs and the completion; it changes nothing and returns nil when a
      token value cannot be converted, or when `update!` raises because a
      count or an amount does not fit its column. */
  method Finish(row: UsageRow?, model: Option<string>, providerRequestId: Option<string>, usage: Value, raw: Value,
                metadata: Value, completedAt: Option<int>, now: int, env: map<string, string>,
                toD: string -> real, toS: real -> string, strToI: string -> int, inspect: Value -> string)
    returns (r: UsageRow?)
    modifies row
    ensures row == null ==> r == null
    ensures row != null && NormalizeUsage(UsageSource(usage, raw, strToI), strToI).Err? ==>
      r == null && row.columns == old(row.columns)
    ensures row != null && NormalizeUsage(UsageSource(usage, raw, strToI), strToI).Ok? ==>
      var finished := FinishedRow(old(row.columns), model, providerRequestId,
        NormalizeUsage(UsageSource(usage, raw, strToI), strToI).value, raw, metadata, completedAt.GetOr(now),
        env, toD, toS, inspect);
      if Storable(finished) then r == row && row.columns == finished
      else r == null && row.columns == old(row.columns)
  {
    if row == null {
      return null;
    }
    var normalized := NormalizeUsage(UsageSource(usage, raw, strToI), strToI);
    if normalized.Err? {
      return null;
    }
    var finished := FinishedRow(row.columns, model, providerRequestId, normalized.value, raw, metadata,
                             completedAt.GetOr(now), env, toD, toS, inspect);
    if !Storable(finished) {
      // `update!` raises; `rescue => e` in `finish!`
      return null;
    }
    row.Update(finished);
    r := row;
  }

  /** `fail!`: with a row, marks it failed with the error message (or
      "request_failed" when blank) and the completion time. */
  method Fail(row: UsageRow?, error: string, metadata: Value, completedAt: Option<int>, now: int) returns (r: UsageRow?)
    modifies row
    ensures r == row
    ensures row != null ==> row.columns == FailedRow(old(row.columns), error, metadata, completedAt.GetOr(now))
  {
    if row == null {
      return null;
    }
    row.Update(FailedRow(row.columns, error, metadata, completedAt.GetOr(now)));
    r := row;
  }

  /** `TrackRequest.call`: start a row, then finish it; a row that is
      returned is a new, valid, completed one the database accepts. */
  method Call(requestKind: string, provider: string, model: Option<string>, userMessage: Option<MessageInfo>,
              aiMessage: Option<AiMessageInfo>, chat: Option<ChatInfo>, usage: Value, raw: Value,
              providerRequestId: Option<string>, metadata: Value, requestedAt: Option<int>, now: int,
              env: map<string, string>, toD: string -> real, toS: real -> string, strToI: string -> int,
              inspect: Value -> string) returns (r: UsageRow?)
    ensures ResolveChat(chat, userMessage, aiMessage).None? ==> r == null
    ensures r != null ==> fresh(r) && r.columns.status == Completed && ValidRow(r.columns) && Storable(r.columns)
    ensures (r != null) <==> (ResolveChat(chat, userMessage, aiMessage).Some? && !Blank(requestKind) &&
      !Blank(provider) && NormalizeUsage(UsageSource(usage, raw, strToI), strToI).Ok? &&
      var resolved := ResolveChat(chat, userMessage, aiMessage);
      var started := StartedRow(resolved.value, userMessage, requestKind, provider, Presence(OptionText(model)),
                                requestedAt.GetOr(now), Snapshot(metadata, userMessage, resolved));
      Storable(FinishedRow(started, model, providerRequestId, NormalizeUsage(UsageSource(usage, raw, strToI), strToI).value,
                           raw, metadata, now, env, toD, toS, inspect)))
  {
    var row := Start(requestKind, provider, model, userMessage, aiMessage, chat, metadata, requestedAt, now);
    if row == null {
      return null;
    }
    r := Finish(row, model, providerRequestId, usage, raw, metadata, None, now, env, toD, toS, strToI, inspect);
  }

  // ---------------------------------------------------------------- properties

  /** Rounding two amounts and their sum separately leaves the rounded sum
      within one millionth of the sum of the rounded amounts. */
  lemma RoundedSumWithinMillionth(a: real, b: real)
    ensures -0.000001 <= Scaled(a + b) - (Scaled(a) + Scaled(b)) <= 0.000001
  {
    var d := Millionths(a + b) - Millionths(a) - Millionths(b);
    assert -1.5 <= d as real <= 1.5;
    assert Scaled(a + b) - (Scaled(a) + Scaled(b)) == d as real / 1000000.0;
  }

  /** Six places at 0.1 USD per million tokens: five tokens cost 0.0000005,
      stored as 0.000001, and two such costs total 0.000001, not their sum;
      one token's 0.0000001 is stored as nothing. */
  lemma StoredCostExamples()
    ensures Scaled(CostFor(5, 0.1)) == 0.000001
    ensures Scaled(CostFor(5, 0.1) + CostFor(5, 0.1)) == 0.000001
    ensures Scaled(CostFor(1, 0.1)) == 0.0
  {
    assert CostFor(5, 0.1) == 0.0000005;
    assert Millionths(0.0000005) == 1;
    assert Millionths(0.000001) == 1;
    assert CostFor(1, 0.1) == 0.0000001;
    assert Millionths(0.0000001) == 0;
  }

  /** `token_value` returns the first present key's value, whatever follows. */
  lemma {:induction false} TokenValueFirstPresent(obj: Value, keys: seq<string>, strToI: string -> int, j: nat)
    requires j < |keys| && !BlankValue(KeyValue(obj, keys[j]))
    requires forall i :: 0 <= i < j ==> BlankValue(KeyValue(obj, keys[i]))
    ensures TokenValue(obj, keys, strToI) == ToI(KeyValue(obj, keys[j]), strToI)
  {
    if j > 0 {
      TokenValueFirstPresent(obj, keys[1..], strToI, j - 1);
    }
  }

  /** Costs add up over tokens: charging a + b tokens costs what charging a
      and b separately does. */
  lemma CostAdditive(a: int, b: int, rate: real)
    requires a > 0 && b > 0
    ensures CostFor(a + b, rate) == CostFor(a, rate) + CostFor(b, rate)
  {
    if rate > 0.0 {
      assert PerMillion(a + b) == PerMillion(a) + PerMillion(b);
    }
  }

  /** More tokens never cost less. */
  lemma CostMonotone(a: int, b: int, rate: real)
    requires a <= b
    ensures CostFor(a, rate) <= CostFor(b, rate)
  {
    if a <= 0 || rate <= 0.0 {
      assert CostFor(a, rate) == 0.0;
    } else {
      assert CostFor(a, rate) == PerMillion(a) * rate && CostFor(b, rate) == PerMillion(b) * rate;
      assert PerMillion(a) <= PerMillion(b);
      MultiplyMonotone(PerMillion(a), PerMillion(b), rate);
    }
  }

  lemma MultiplyMonotone(x: real, y: real, k: real)
    requires x <= y && k >= 0.0
    ensures x * k <= y * k
  {
  }

  /** The snapshot's chat id: the caller's when set, else the chat's; it is
      kept by `compact` since neither is nil. */
  lemma SnapshotChatId(metadata: Value, userMessage: Option<MessageInfo>, chat: ChatInfo)
    requires metadata.Hash?
    ensures var caller := Get(Stringified(metadata.entries), StrKey("chat_id_snapshot")).GetOr(Nil);
      (if Truthy(caller) then caller else Int(chat.id)) in ValuesOf(Snapshot(metadata, userMessage, Some(chat)), "chat_id_snapshot")
  {
    var m0 := Stringified(metadata.entries);
    var m1 := OrAssign(m0, "actor_user_id", Actor(userMessage, Some(chat)));
    var m2 := OrAssign(m1, "chat_id_snapshot", Int(chat.id));
    var title := Presence(OptionText(chat.title));
    var m3 := OrAssign(m2, "chat_title_snapshot", if title.Some? then Str(title.value) else Nil);
    var m4 := OrAssign(m3, "user_message_id_snapshot", if userMessage.Some? then Int(userMessage.value.id) else Nil);
    GetInCompact(m4, StrKey("chat_id_snapshot"));
  }

  /** The counts `extract_usage` lifts from a raw response are read back
      unchanged by `normalize_usage` (the total only filled in when zero). */
  lemma ExtractThenNormalize(raw: Value, strToI: string -> int)
    requires ExtractUsage(raw, strToI).entries != []
    ensures var usage := KeyValue(raw, "usage");
      var u := NormalizeUsage(ExtractUsage(raw, strToI), strToI);
      u.Ok? && u.value.inputTokens == TokenValue(usage, InputKeys, strToI).value &&
      u.value.outputTokens == TokenValue(usage, OutputKeys, strToI).value
  {
    var usage := KeyValue(raw, "usage");
    var e := ExtractUsage(raw, strToI);
    var i := TokenValue(usage, InputKeys, strToI).value;
    var o := TokenValue(usage, OutputKeys, strToI).value;
    assert KeyValue(e, "input_tokens") == Int(i);
    assert e.entries[1..][0] == (SymKey("output_tokens"), Int(o));
    assert Get(e.entries[1..], SymKey("output_tokens")) == Some(Int(o));
    assert KeyValue(e, "output_tokens") == Int(o);
    TokenValueFirstPresent(e, InputKeys, strToI, 0);
    TokenValueFirstPresent(e, OutputKeys, strToI, 0);
    assert e.entries[1..][1..][0] == (SymKey("total_tokens"), Int(TokenValue(usage, TotalKeys, strToI).value));
    assert Get(e.entries[1..][1..], SymKey("total_tokens")) == Some(e.entries[1..][1..][0].1);
    assert Get(e.entries[1..], SymKey("total_tokens")) == Some(e.entries[1..][1..][0].1);
    assert KeyValue(e, "total_tokens") == Int(TokenValue(usage, TotalKeys, strToI).value);
    TokenValueFirstPresent(e, TotalKeys, strToI, 0);
  }

  /** The values stored under `name` (as a String key). */
  function ValuesOf(h: seq<(Key, Value)>, name: string): (r: set<Value>)
    ensures forall v :: v in r <==> (StrKey(name), v) in h
  {
    set i | 0 <= i < |h| && h[i].0 == StrKey(name) :: h[i].1
  }

  lemma {:induction false} GetInCompact(h: seq<(Key, Value)>, k: Key)
    requires Get(h, k).Some? && Get(h, k).value != Nil
    ensures (k, Get(h, k).value) in Compact(h)
  {
    if h[0].0 != k {
      GetInCompact(h[1..], k);
    }
  }

}
