/** `Ai::RunUserMessage`: the older orchestrator of one user message. It
    streams the chat reply, then regenerates the artifact, then extracts the
    proposed actions. Unlike the step pipeline, its stream loop accumulates
    every delta, blank or not, and broadcasts the raw accumulated text. The
    artifact is persisted under a lock that never overwrites a dataset the
    user locked, and the stored text carries the authoritative dataset. */
module RunUserMessage {
  import opened Wrappers
  import opened Text
  import opened Values
  import opened Messages
  import PersistReply
  import ChatReplyStep
  import ProcessUserMessage

  // ---------------------------------------------------------------- chat reply

  /** The concatenation of every delta, blank ones included. */
  function Concat(deltas: seq<string>): string {
    if deltas == [] then "" else Concat(deltas[..|deltas| - 1]) + deltas[|deltas| - 1]
  }

  /** The broadcast text is the accumulated text itself. */
  function Verbatim(): string -> string {
    s => s
  }

  /** One delta of the block given to the streamer: no delta is skipped. */
  function RawStep(t: ChatReplyStep.Throttle, delta: string): ChatReplyStep.Throttle {
    var acc := t.accumulated + delta;
    if |acc| - ChatReplyStep.LastMark(t) >= ChatReplyStep.BroadcastEveryNChars then
      ChatReplyStep.Throttle(acc, t.marks + [|acc|], t.sent + [Stream(acc)])
    else t.(accumulated := acc)
  }

  function RawRun(deltas: seq<string>): ChatReplyStep.Throttle {
    if deltas == [] then ChatReplyStep.Throttle("", [], [])
    else RawStep(RawRun(deltas[..|deltas| - 1]), deltas[|deltas| - 1])
  }

  /** The streaming loop of `update_chat!`. */
  method StreamDeltas(ai: AiMessage, deltas: seq<string>, b: Broadcaster, inspect: Value -> string)
    returns (accumulated: string)
    modifies ai, b
    ensures accumulated == RawRun(deltas).accumulated
    ensures b.sent == old(b.sent) + RawRun(deltas).sent
    ensures ai.columns == ChatReplyStep.AppendAll(old(ai.columns), deltas, inspect) && ai.meta == old(ai.meta)
  {
    accumulated := "";
    var lastBroadcastLen := 0;
    var i := 0;
    while i < |deltas|
      invariant 0 <= i <= |deltas|
      invariant accumulated == RawRun(deltas[..i]).accumulated
      invariant lastBroadcastLen == ChatReplyStep.LastMark(RawRun(deltas[..i]))
      invariant b.sent == old(b.sent) + RawRun(deltas[..i]).sent
      invariant ai.columns == ChatReplyStep.AppendAll(old(ai.columns), deltas[..i], inspect) && ai.meta == old(ai.meta)
    {
      RawPrefixStep(old(ai.columns), deltas, i, inspect);
      accumulated, lastBroadcastLen :=
        StreamOne(ai, deltas[i], b, inspect, accumulated, lastBroadcastLen, RawRun(deltas[..i]), old(b.sent));
      i := i + 1;
    }
    assert deltas[..i] == deltas;
  }

  /** One pass of the loop body: the delta is appended and stored, and the
      text is broadcast when it has grown enough since the last broadcast. */
  method StreamOne(ai: AiMessage, delta: string, b: Broadcaster, inspect: Value -> string,
                   accumulated: string, lastBroadcastLen: nat, ghost t: ChatReplyStep.Throttle, ghost base: seq<Broadcast>)
    returns (acc: string, last: nat)
    requires accumulated == t.accumulated && lastBroadcastLen == ChatReplyStep.LastMark(t)
    requires b.sent == base + t.sent
    modifies ai, b
    ensures acc == RawStep(t, delta).accumulated && last == ChatReplyStep.LastMark(RawStep(t, delta))
    ensures b.sent == base + RawStep(t, delta).sent
    ensures ai.columns == (if Blank(delta) then old(ai.columns) else PersistReply.Appended(old(ai.columns), delta, inspect))
    ensures ai.meta == old(ai.meta)
  {
    acc, last := accumulated + delta, lastBroadcastLen;
    var _ := PersistReply.AppendDelta(ai, delta, inspect);
    if |acc| - last >= ChatReplyStep.BroadcastEveryNChars {
      b.Send(Stream(acc));
      last := |acc|;
      assert base + t.sent + [Stream(acc)] == base + (t.sent + [Stream(acc)]);
    }
  }

  /** The run and the stored text after one more delta. */
  lemma RawPrefixStep(c: AiColumns, deltas: seq<string>, i: nat, inspect: Value -> string)
    requires i < |deltas|
    ensures RawRun(deltas[..i + 1]) == RawStep(RawRun(deltas[..i]), deltas[i])
    ensures ChatReplyStep.AppendAll(c, deltas[..i + 1], inspect) ==
      if Blank(deltas[i]) then ChatReplyStep.AppendAll(c, deltas[..i], inspect)
      else PersistReply.Appended(ChatReplyStep.AppendAll(c, deltas[..i], inspect), deltas[i], inspect)
  {
    assert deltas[..i + 1][..i] == deltas[..i];
  }

  /** `update_chat!` up to the end of the stream. */
  method OpenChat(um: UserMessage, deltas: seq<string>, b: Broadcaster, inspect: Value -> string)
    returns (ai: AiMessage)
    modifies um, b, if um.aiMessage != null then {um.aiMessage} else {}
    ensures um.aiMessage == ai
    ensures old(um.aiMessage) != null ==> ai == old(um.aiMessage)
    ensures old(um.aiMessage) == null ==> fresh(ai) && fresh(ai.actions)
    ensures um.columns == PersistReply.Running(old(um.columns))
    ensures ai.columns == ChatReplyStep.AppendAll(
      ChatReplyStep.StartColumns(if old(um.aiMessage) != null then Some(old(um.aiMessage.columns)) else None), deltas, inspect)
    ensures b.sent == old(b.sent) + [Start("")] + RawRun(deltas).sent
  {
    PersistReply.MarkRunning(um);
    ai := PersistReply.EnsureAiMessage(um);
    b.Send(Start(""));
    var _ := StreamDeltas(ai, deltas, b, inspect);
  }

  /** `update_chat!` after the stream: finalise, or mark the message failed,
      broadcast the warning and raise again. */
  method CloseChat(um: UserMessage, ai: AiMessage, result: Result<string>, b: Broadcaster, model: string, now: int,
                   parse: string -> Option<Value>) returns (r: Result<AiMessage>)
    requires um.aiMessage == ai
    modifies um, ai, b
    ensures um.aiMessage == ai
    ensures b.sent == old(b.sent) + (if result.Ok? then [Final] else [Stream(ChatReplyStep.Warning(result.error))])
    ensures result.Err? ==>
      (r == Err(result.error) && ai.columns == old(ai.columns) &&
       um.columns == PersistReply.FailedWith(old(um.columns), result.error))
    ensures result.Ok? ==>
      (r == Ok(ai) && um.columns == PersistReply.Done(old(um.columns), Some(model), now) &&
       ai.columns == PersistReply.Finalized(old(ai.columns),
         PersistReply.CleanText(result.value, old(um.columns).instruction, parse)))
  {
    if result.Err? {
      FailChat(um, result.error, b);
      return Err(result.error);
    }
    ChatReplyStep.Finish(um, ai, result.value, b, model, now, parse);
    return Ok(ai);
  }

  /** The failure half of `update_chat!`: the message is marked failed and
      the warning is broadcast. */
  method FailChat(um: UserMessage, message: string, b: Broadcaster)
    modifies um, b
    ensures um.columns == PersistReply.FailedWith(old(um.columns), message) && um.aiMessage == old(um.aiMessage)
    ensures b.sent == old(b.sent) + [Stream(ChatReplyStep.Warning(message))]
  {
    PersistReply.MarkFailed(um, message);
    b.Send(Stream(ChatReplyStep.Warning(message)));
  }

  /** `update_chat!`, with the streamer's deltas and outcome as `reply`. */
  method UpdateChat(um: UserMessage, reply: ChatReplyStep.Reply, b: Broadcaster, model: string, now: int,
                    parse: string -> Option<Value>, inspect: Value -> string) returns (r: Result<AiMessage>)
    modifies um, b, if um.aiMessage != null then {um.aiMessage} else {}
    ensures r.Ok? <==> reply.result.Ok?
    ensures r.Err? ==> r.error == reply.result.error
    ensures um.aiMessage != null && (r.Ok? ==> r.value == um.aiMessage)
    ensures old(um.aiMessage) != null ==> um.aiMessage == old(um.aiMessage)
    ensures old(um.aiMessage) == null ==> fresh(um.aiMessage) && fresh(um.aiMessage.actions)
    ensures b.sent == old(b.sent) + [Start("")] + RawRun(reply.deltas).sent +
      (if reply.result.Ok? then [Final] else [Stream(ChatReplyStep.Warning(reply.result.error))])
    ensures um.columns ==
      (if reply.result.Ok? then PersistReply.Done(PersistReply.Running(old(um.columns)), Some(model), now)
       else PersistReply.FailedWith(PersistReply.Running(old(um.columns)), reply.result.error))
  {
    var ai := OpenChat(um, reply.deltas, b, inspect);
    r := CloseChat(um, ai, reply.result, b, model, now, parse);
  }

  /** `context_text`: the given context, stripped, when present, otherwise
      the context `BuildContext` builds, passed as `built`. */
  function ContextText(context: string, built: string): string {
    if Blank(Strip(context)) then built else Strip(context)
  }

  // ---------------------------------------------------------------- artifact

  /** An artifact row: its attributes by column name. */
  type Row = map<string, Value>

  /** The `artifacts` table as the model needs it: its column names, and
      those whose type is `json` or `jsonb`. */
  datatype Schema = Schema(columns: set<string>, json: set<string>)

  /** The content columns, in the order `artifact_content_attributes` tries
      them. */
  const ContentColumns: seq<string> := ["content", "data", "body", "text"]

  const NoContentField: string :=
    "Artifact has no supported content field (expected one of: content/data/body/text)."

  /** The attribute a row holds for `col`, nil when unset. */
  function Attr(row: Row, col: string): Value {
    if col in row then row[col] else Nil
  }

  /** The first content column from position `i` on that the table has. */
  function ContentIndex(columns: set<string>, i: nat): (r: Option<nat>)
    requires i <= |ContentColumns|
    ensures r.Some? ==> (i <= r.value < |ContentColumns| && ContentColumns[r.value] in columns &&
      forall j :: i <= j < r.value ==> ContentColumns[j] !in columns)
    ensures r.None? ==> forall j :: i <= j < |ContentColumns| ==> ContentColumns[j] !in columns
    decreases |ContentColumns| - i
  {
    if i == |ContentColumns| then None
    else if ContentColumns[i] in columns then Some(i)
    else ContentIndex(columns, i + 1)
  }

  /** `artifact_content_attributes`: the text, wrapped as {"text" => text}
      in a json column, goes to the first content column the table has; a
      table with none of them raises. */
  function ContentAttributes(schema: Schema, text: string): (r: Result<(string, Value)>)
    ensures r.Ok? <==> exists j :: 0 <= j < |ContentColumns| && ContentColumns[j] in schema.columns
    ensures r.Err? ==> r.error == NoContentField
    ensures r.Ok? ==> (r.value.0 in schema.columns && r.value.0 in ContentColumns &&
      forall j :: 0 <= j < |ContentColumns| && ContentColumns[j] == r.value.0 ==>
        forall k :: 0 <= k < j ==> ContentColumns[k] !in schema.columns)
    ensures r.Ok? && r.value.0 in schema.json ==> r.value.1 == Hash([(StrKey("text"), Str(text))])
    ensures r.Ok? && r.value.0 !in schema.json ==> r.value.1 == Str(text)
  {
    match ContentIndex(schema.columns, 0)
    case None => Err(NoContentField)
    case Some(k) =>
      var col := ContentColumns[k];
      Ok((col, if col in schema.json then Hash([(StrKey("text"), Str(text))]) else Str(text)))
  }

  /** `dataset_locked_by_user?`. */
  predicate Locked(row: Row) {
    Attr(row, "dataset_locked_by_user") == Bool(true)
  }

  /** `artifact.x = value if artifact.x.blank?` for a column the table has. */
  function FillIfBlank(schema: Schema, row: Row, col: string, value: Value): Row {
    if col in schema.columns && BlankValue(Attr(row, col)) then row[col := value] else row
  }

  /** The row before the lock: found or initialised for the chat, with the
      NOT NULL owner columns filled. */
  function Prepared(schema: Schema, existing: Option<Row>, chatId: int, companyId: Value, createdById: Value): Row {
    var row := existing.GetOr(map["chat_id" := Int(chatId)]);
    FillIfBlank(schema, FillIfBlank(schema, row, "company_id", companyId), "created_by_id", createdById)
  }

  /** The dataset and sources assignment under the lock. */
  function WithDataset(schema: Schema, row: Row, datasetJson: Value, sourcesJson: Value): (r: Row)
    ensures "dataset_locked_by_user" in schema.columns && Locked(row) ==> r == row
    ensures "dataset_json" !in schema.columns ==> r == row
    ensures "dataset_json" in schema.columns && !("dataset_locked_by_user" in schema.columns && Locked(row)) ==>
      Attr(r, "dataset_json") == datasetJson &&
      ("sources_json" in schema.columns ==> Attr(r, "sources_json") == sourcesJson) &&
      ("sources_json" !in schema.columns ==> r == row["dataset_json" := datasetJson])
    ensures forall c :: c != "dataset_json" && c != "sources_json" ==> Attr(r, c) == Attr(row, c)
  {
    var writable := "dataset_json" in schema.columns &&
      !("dataset_locked_by_user" in schema.columns && Locked(row));
    if !writable then row
    else
      var r := row["dataset_json" := datasetJson];
      if "sources_json" in schema.columns then r["sources_json" := sourcesJson] else r
  }

  /** The outcome of `persist_artifact_and_prepare_text!`: the text to show
      and the stored row. */
  datatype Persisted = Persisted(text: string, stored: Option<Row>)

  /** The text stored and shown once the dataset is settled. */
  function FinalText(schema: Schema, row: Row, generated: string, inject: (string, Value) -> string): string {
    if "dataset_json" in schema.columns && !BlankValue(Attr(row, "dataset_json")) then inject(generated, Attr(row, "dataset_json"))
    else generated
  }

  /** `inject` is `ArtifactDatasetInjector`, `saved` whether `save!` goes
      through. */
  function PersistOutcome(schema: Schema, existing: Option<Row>, chatId: int, companyId: Value, createdById: Value,
                          generated: string, datasetJson: Value, sourcesJson: Value,
                          inject: (string, Value) -> string, saved: bool): (r: Persisted)
    ensures ContentAttributes(schema, generated).Err? || !saved ==> r == Persisted(generated, existing)
    ensures ContentAttributes(schema, generated).Ok? && saved ==>
      var row := WithDataset(schema, Prepared(schema, existing, chatId, companyId, createdById), datasetJson, sourcesJson);
      var attrs := ContentAttributes(schema, r.text);
      r.text == FinalText(schema, row, generated, inject) && attrs.Ok? &&
      r.stored == Some(row[attrs.value.0 := attrs.value.1])
  {
    match ContentAttributes(schema, generated)
    case Err(_) => Persisted(generated, existing)
    case Ok(_) =>
      if !saved then Persisted(generated, existing)
      else
        var row := WithDataset(schema, Prepared(schema, existing, chatId, companyId, createdById), datasetJson, sourcesJson);
        var text := FinalText(schema, row, generated, inject);
        var attrs := ContentAttributes(schema, text).value;
        Persisted(text, Some(row[attrs.0 := attrs.1]))
  }

  /** The chat's artifact row in the database, if one was saved. */
  class ArtifactStore {
    var row: Option<Row>

    constructor(row0: Option<Row>)
      ensures row == row0
    {
      row := row0;
    }
  }

  /** `persist_artifact_and_prepare_text!`: the row is prepared, then under
      the lock it gets the content, the dataset and sources unless the user
      locked them, and the content again with the authoritative dataset
      injected; any failure leaves the stored row alone and yields the
      generated text. */
  method PersistArtifact(store: ArtifactStore, schema: Schema, chatId: int, companyId: Value, createdById: Value,
                         generated: string, datasetJson: Value, sourcesJson: Value,
                         inject: (string, Value) -> string, saved: bool) returns (finalText: string)
    modifies store
    ensures Persisted(finalText, store.row) ==
      PersistOutcome(schema, old(store.row), chatId, companyId, createdById, generated, datasetJson, sourcesJson, inject, saved)
  {
    var artifact := Prepared(schema, store.row, chatId, companyId, createdById);
    ghost var base := artifact;
    finalText := generated;
    var attrs := ContentAttributes(schema, finalText);
    if attrs.Err? {
      return generated;
    }
    var col := attrs.value.0;
    artifact := artifact[col := attrs.value.1];
    artifact := AssignDataset(schema, artifact, datasetJson, sourcesJson);
    ghost var row := WithDataset(schema, base, datasetJson, sourcesJson);
    DatasetAfterContent(schema, base, col, attrs.value.1, datasetJson, sourcesJson);
    assert artifact == row[col := attrs.value.1];
    if "dataset_json" in schema.columns && !BlankValue(Attr(artifact, "dataset_json")) {
      finalText := inject(finalText, Attr(artifact, "dataset_json"));
      var again := ContentAttributes(schema, finalText);
      artifact := artifact[again.value.0 := again.value.1];
    }
    assert artifact == row[col := ContentAttributes(schema, finalText).value.1];
    if !saved {
      return generated;
    }
    store.row := Some(artifact);
  }

  /** The dataset and sources assignment under the lock, on the row in
      hand. */
  method AssignDataset(schema: Schema, row: Row, datasetJson: Value, sourcesJson: Value) returns (r: Row)
    ensures r == WithDataset(schema, row, datasetJson, sourcesJson)
  {
    r := row;
    var hasDatasetCols := "dataset_json" in schema.columns && "dataset_locked_by_user" in schema.columns;
    if hasDatasetCols {
      if !Locked(r) {
        r := r["dataset_json" := datasetJson];
        if "sources_json" in schema.columns {
          r := r["sources_json" := sourcesJson];
        }
      }
    } else if "dataset_json" in schema.columns {
      r := r["dataset_json" := datasetJson];
      if "sources_json" in schema.columns {
        r := r["sources_json" := sourcesJson];
      }
    }
  }

  /** Writing a content column first does not change what the dataset
      assignment does. */
  lemma DatasetAfterContent(schema: Schema, row: Row, col: string, v: Value, datasetJson: Value, sourcesJson: Value)
    requires col in ContentColumns
    ensures WithDataset(schema, row[col := v], datasetJson, sourcesJson) == WithDataset(schema, row, datasetJson, sourcesJson)[col := v]
  {
    ContentColumnsAreNotDataset(col);
    assert Locked(row[col := v]) == Locked(row);
    var d, src := "dataset_json", "sources_json";
    if d in schema.columns && !("dataset_locked_by_user" in schema.columns && Locked(row)) {
      UpdatesCommute(row, col, v, d, datasetJson);
      if src in schema.columns {
        UpdatesCommute(row[d := datasetJson], col, v, src, sourcesJson);
      }
    }
  }

  /** Updates of two different columns commute. */
  lemma UpdatesCommute(row: Row, a: string, va: Value, b: string, vb: Value)
    requires a != b
    ensures row[a := va][b := vb] == row[b := vb][a := va]
  {
  }

  // ---------------------------------------------------------------- orchestration

  /** The failure text the artifact view shows. */
  function GenerationFailed(message: string): string {
    "\U{26A0}\U{FE0F} Failed to generate output: " + message
  }

  /** `(content || {}).merge("preview" => text) rescue nil`: a Hash content,
      and a falsy one (nil or false, which `|| {}` turns into {}), gets the
      preview; any other content has no `merge`, the error is swallowed, and
      the content stays as it was. */
  function PreviewStored(content: Value, text: string): (r: Value)
    ensures content.Hash? || !Truthy(content) ==>
      r.Hash? && Get(r.entries, StrKey("preview")) == Some(Str(text)) &&
      forall k :: k != StrKey("preview") ==> Get(r.entries, k) == Get(PersistReply.ContentEntries(content), k)
    ensures !(content.Hash? || !Truthy(content)) ==> r == content
  {
    if content.Hash? || !Truthy(content) then ProcessUserMessage.WithPreview(content, text) else content
  }

  /** An AI message whose content is false gets the preview alone. */
  lemma PreviewOfFalse(text: string)
    ensures PreviewStored(Bool(false), text) == Hash([(StrKey("preview"), Str(text))])
  {
  }

  /** `update_artifact!`, with the artifact model's text or error as
      `generated` and `Ai::ArtifactDatasetExtractor` as `extract`; the
      result is the text the artifact view ends up showing. */
  method UpdateArtifact(ai: AiMessage, store: ArtifactStore, schema: Schema, chatId: int, companyId: Value,
                        createdById: Value, generated: Result<string>, extract: string -> (Value, Value),
                        inject: (string, Value) -> string, saved: bool) returns (shown: string)
    modifies ai, store
    ensures ai.meta == old(ai.meta)
    ensures generated.Err? ==>
      (shown == GenerationFailed(generated.error) && ai.columns == old(ai.columns) && store.row == old(store.row))
    ensures generated.Ok? ==>
      (ai.columns == old(ai.columns).(content := PreviewStored(old(ai.columns).content, generated.value)) &&
       Persisted(shown, store.row) ==
         PersistOutcome(schema, old(store.row), chatId, companyId, createdById, generated.value,
           extract(generated.value).0, extract(generated.value).1, inject, saved))
  {
    if generated.Err? {
      return GenerationFailed(generated.error);
    }
    var text := generated.value;
    var extracted := extract(text);
    ai.columns := ai.columns.(content := PreviewStored(ai.columns.content, text));
    shown := PersistArtifact(store, schema, chatId, companyId, createdById, text, extracted.0, extracted.1, inject, saved);
  }

  /** `call`: the chat reply, then the artifact. A failing chat reply raises
      before the artifact is touched. The result is the artifact text shown;
      `companyId` and `createdById` are the user message's. */
  method Call(um: UserMessage, store: ArtifactStore, schema: Schema, chatId: int, companyId: Value, createdById: Value,
              reply: ChatReplyStep.Reply,
              generated: Result<string>, extract: string -> (Value, Value), inject: (string, Value) -> string,
              saved: bool, b: Broadcaster, model: string, now: int, parse: string -> Option<Value>,
              inspect: Value -> string) returns (r: Result<string>)
    modifies um, b, store, if um.aiMessage != null then {um.aiMessage} else {}
    ensures r.Ok? <==> reply.result.Ok?
    ensures r.Err? ==> r.error == reply.result.error && store.row == old(store.row)
    ensures um.aiMessage != null
    ensures r.Ok? && generated.Ok? ==>
      Persisted(r.value, store.row) ==
        PersistOutcome(schema, old(store.row), chatId, companyId, createdById, generated.value,
          extract(generated.value).0, extract(generated.value).1, inject, saved)
    ensures r.Ok? && generated.Err? ==> r.value == GenerationFailed(generated.error) && store.row == old(store.row)
  {
    var chatReply := UpdateChat(um, reply, b, model, now, parse, inspect);
    if chatReply.Err? {
      return Err(chatReply.error);
    }
    var shown := UpdateArtifact(chatReply.value, store, schema, chatId, companyId, createdById, generated, extract, inject, saved);
    return Ok(shown);
  }

  // ---------------------------------------------------------------- properties

  /** The accumulated text is every delta, in order. */
  lemma {:induction false} RawRunAccumulates(deltas: seq<string>)
    ensures RawRun(deltas).accumulated == Concat(deltas)
  {
    if deltas != [] {
      RawRunAccumulates(deltas[..|deltas| - 1]);
    }
  }

  /** The raw loop keeps the same throttle as the step pipeline: broadcasts
      ten or more characters apart, each of the text so far. */
  lemma {:induction false} RawRunThrottled(deltas: seq<string>)
    ensures ChatReplyStep.Throttled(RawRun(deltas), Verbatim())
  {
    if deltas != [] {
      var init := deltas[..|deltas| - 1];
      RawRunThrottled(init);
      RawStepThrottled(RawRun(init), deltas[|deltas| - 1]);
    }
  }

  lemma RawStepThrottled(t: ChatReplyStep.Throttle, delta: string)
    requires ChatReplyStep.Throttled(t, Verbatim())
    ensures ChatReplyStep.Throttled(RawStep(t, delta), Verbatim())
  {
    var acc := t.accumulated + delta;
    forall i | 0 <= i < |t.marks|
      ensures acc[..t.marks[i]] == t.accumulated[..t.marks[i]]
    {
    }
    if |acc| - ChatReplyStep.LastMark(t) >= ChatReplyStep.BroadcastEveryNChars {
      assert acc[..|acc|] == acc;
    }
  }

  /** A dataset the user locked keeps its dataset and sources, whatever the
      new output extracted. */
  lemma LockedDatasetKept(schema: Schema, existing: Row, chatId: int, companyId: Value, createdById: Value,
                          generated: string, datasetJson: Value, sourcesJson: Value,
                          inject: (string, Value) -> string, saved: bool)
    requires "dataset_locked_by_user" in schema.columns && Locked(existing)
    ensures var r := PersistOutcome(schema, Some(existing), chatId, companyId, createdById, generated,
        datasetJson, sourcesJson, inject, saved);
      r.stored.Some? &&
      Attr(r.stored.value, "dataset_json") == Attr(existing, "dataset_json") &&
      Attr(r.stored.value, "sources_json") == Attr(existing, "sources_json")
  {
    var row := Prepared(schema, Some(existing), chatId, companyId, createdById);
    PreparedKeepsDataset(schema, existing, chatId, companyId, createdById);
    assert WithDataset(schema, row, datasetJson, sourcesJson) == row;
    var attrs := ContentAttributes(schema, generated);
    if attrs.Ok? && saved {
      var text := FinalText(schema, row, generated, inject);
      ContentColumnsAreNotDataset(ContentAttributes(schema, text).value.0);
    }
  }

  lemma PreparedKeepsDataset(schema: Schema, existing: Row, chatId: int, companyId: Value, createdById: Value)
    ensures var row := Prepared(schema, Some(existing), chatId, companyId, createdById);
      Locked(row) == Locked(existing) &&
      Attr(row, "dataset_json") == Attr(existing, "dataset_json") && Attr(row, "sources_json") == Attr(existing, "sources_json")
  {
  }

  lemma ContentColumnsAreNotDataset(col: string)
    requires col in ContentColumns
    ensures col != "dataset_json" && col != "sources_json" && col != "dataset_locked_by_user"
  {
    assert "dataset_json"[0] == 'd' && "dataset_json"[1] == 'a';
    assert "sources_json"[0] == 's' && "dataset_locked_by_user"[0] == 'd';
  }

  /** A saved artifact with a dataset stores and shows the output with that
      dataset injected, in its content column. */
  lemma InjectedWhenDataset(schema: Schema, existing: Option<Row>, chatId: int, companyId: Value, createdById: Value,
                            generated: string, datasetJson: Value, sourcesJson: Value,
                            inject: (string, Value) -> string)
    requires ContentAttributes(schema, generated).Ok? && "dataset_json" in schema.columns
    ensures var r := PersistOutcome(schema, existing, chatId, companyId, createdById, generated,
        datasetJson, sourcesJson, inject, true);
      var dataset := Attr(r.stored.value, "dataset_json");
      !BlankValue(dataset) ==>
        r.text == inject(generated, dataset) &&
        r.stored.value[ContentAttributes(schema, generated).value.0] == ContentAttributes(schema, r.text).value.1
  {
    var r := PersistOutcome(schema, existing, chatId, companyId, createdById, generated,
      datasetJson, sourcesJson, inject, true);
    assert ContentAttributes(schema, generated).value.0 == ContentAttributes(schema, r.text).value.0;
  }

  /** A failed save keeps the stored row and shows the generated text. */
  lemma SaveFailureKeepsRow(schema: Schema, existing: Option<Row>, chatId: int, companyId: Value, createdById: Value,
                            generated: string, datasetJson: Value, sourcesJson: Value,
                            inject: (string, Value) -> string)
    ensures PersistOutcome(schema, existing, chatId, companyId, createdById, generated,
      datasetJson, sourcesJson, inject, false) == Persisted(generated, existing)
  {
  }

  /** A table with a `content` column always stores the text there. */
  lemma ContentColumnFirst(schema: Schema, text: string)
    requires "content" in schema.columns
    ensures ContentAttributes(schema, text).Ok? && ContentAttributes(schema, text).value.0 == "content"
  {
    assert ContentColumns[0] == "content";
  }

  /** The given context wins when it has any non-space text, stripped. */
  lemma ContextTextGiven(context: string, built: string)
    requires !Blank(Strip(context))
    ensures ContextText(context, built) == Strip(context) && ContextText(context, built) == LStrip(RStrip(context))
  {
  }
}
