/** `Ai::ProcessUserMessage`: runs the steps of one user message on a fresh
    context: the chat reply, then the intent pass, then the proposed
    actions, then the artifact, the last only when the intent asks for it.
    A failing chat reply stops the run and its error propagates; the other
    steps swallow their errors. */
module ProcessUserMessage {
  import opened Wrappers
  import opened Text
  import opened Values
  import opened Messages
  import opened ProcessContext
  import Chats
  import ChatReplyStep
  import IntentExtract
  import ExtractProposed
  import PersistReply

  // ---------------------------------------------------------------- intent step

  /** `apply_title_from_intent!`: a present suggested title becomes the
      chat's title when the chat may still get an automatic one. */
  function TitleApplied(c: Chats.Chat, suggested: Option<string>): Chats.Chat {
    var t := Strip(suggested.GetOr(""));
    if Blank(t) then c
    else if Chats.CanAutoGenerateTitle(c) then c.(title := Some(t))
    else c
  }

  /** The intent the step stores: none can be computed without an AI message. */
  function StepIntent(hasAiMessage: bool, raw: Result<string>, parse: string -> Option<Value>,
                      inspect: Value -> string): (r: IntentExtract.Intent)
    ensures !hasAiMessage ==> r == IntentExtract.Fallback
    ensures hasAiMessage ==> r == IntentExtract.IntentFor(raw, parse, inspect)
  {
    if hasAiMessage then IntentExtract.IntentFor(raw, parse, inspect) else IntentExtract.Fallback
  }

  /** `IntentStep#call`, with the intent model's reply as `raw`. */
  method IntentStep(ctx: Context, raw: Result<string>, parse: string -> Option<Value>, inspect: Value -> string)
    returns (intent: IntentExtract.Intent)
    modifies ctx, ctx.chat, if ctx.state.aiMessage != null then {ctx.state.aiMessage} else {}
    ensures intent == StepIntent(old(ctx.state).aiMessage != null, raw, parse, inspect)
    ensures ctx.state == old(ctx.state).(trace := old(ctx.state).trace + [Intent], meta := Some(IntentExtract.ToHash(intent)))
    ensures ctx.chat.columns == TitleApplied(old(ctx.chat.columns), intent.suggestedTitle)
    ensures unchanged(ctx.userMessage)
  {
    var ai: AiMessage? := ctx.state.aiMessage;
    ghost var aiObject: object? := ai;
    ghost var umObject: object := ctx.userMessage;
    assert aiObject != umObject;
    ghost var s0, c0 := ctx.state, ctx.chat.columns;
    intent := StoredIntent(ai, raw, parse, inspect);
    assert ctx.state == s0 && ctx.chat.columns == c0;
    RecordIntent(ctx, intent);
  }

  /** `Intent::Extract` on the run's AI message, which records the intent
      there when there is one. */
  method StoredIntent(ai: AiMessage?, raw: Result<string>, parse: string -> Option<Value>, inspect: Value -> string)
    returns (intent: IntentExtract.Intent)
    modifies ai
    ensures intent == StepIntent(ai != null, raw, parse, inspect)
  {
    intent := IntentExtract.Call(ai, raw, parse, inspect);
  }

  /** The intent step's own record: its name in the trace and the meta,
      then the suggested title on the chat. */
  method RecordIntent(ctx: Context, intent: IntentExtract.Intent)
    modifies ctx, ctx.chat
    ensures ctx.state == old(ctx.state).(trace := old(ctx.state).trace + [Intent], meta := Some(IntentExtract.ToHash(intent)))
    ensures ctx.chat.columns == TitleApplied(old(ctx.chat.columns), intent.suggestedTitle)
  {
    ctx.state := ctx.state.(trace := ctx.state.trace + [Intent], meta := Some(IntentExtract.ToHash(intent)));
    ApplyTitle(ctx.chat, intent.suggestedTitle);
  }

  /** `apply_title_from_intent!` on the chat record. */
  method ApplyTitle(chat: ChatRecord, suggested: Option<string>)
    modifies chat
    ensures chat.columns == TitleApplied(old(chat.columns), suggested)
  {
    chat.columns := TitleApplied(chat.columns, suggested);
  }

  // ---------------------------------------------------------------- actions step

  /** `ActionsStep#call`: `call!` on the extraction, whose errors are logged
      and swallowed. The extraction runs as written
      (`ExtractProposed.CallAsWritten`): an acknowledgement clears the
      actions and stores the empty raw reply in the content, and any other
      instruction raises before the model is asked, so the actions and the
      content stay as they were. */
  method ActionsStep(ctx: Context, includeSuggestions: bool, inspect: Value -> string)
    modifies ctx, if ctx.userMessage.aiMessage != null then {ctx.userMessage.aiMessage, ctx.userMessage.aiMessage.actions} else {}
    ensures ctx.state == old(ctx.state).(trace := old(ctx.state).trace + [Actions])
    ensures ctx.userMessage.aiMessage != null ==>
      ctx.userMessage.aiMessage.actions.rows ==
        ExtractProposed.RowsAfterAsWritten(ctx.userMessage.columns.instruction.GetOr(""), old(ctx.userMessage.aiMessage.actions.rows))
    ensures ctx.userMessage.aiMessage != null ==>
      ctx.userMessage.aiMessage.columns == old(ctx.userMessage.aiMessage.columns).(content :=
        ExtractProposed.ContentAfterAsWritten(ctx.userMessage.columns.instruction.GetOr(""), old(ctx.userMessage.aiMessage.columns.content)))
  {
    var ai: AiMessage? := ctx.userMessage.aiMessage;
    var instruction := ctx.userMessage.columns.instruction.GetOr("");
    if ai != null {
      var _, _, stored := ExtractProposed.CallAsWritten(ai.actions, ai.columns.content, instruction, includeSuggestions, inspect);
      ai.columns := ai.columns.(content := stored);
    }
    ctx.state := ctx.state.(trace := ctx.state.trace + [Actions]);
  }

  // ---------------------------------------------------------------- artifact step

  /** `update_preview!`: the generated text under "preview" in the content. */
  function WithPreview(content: Value, generated: string): (r: Value)
    ensures r.Hash? && Get(r.entries, StrKey("preview")) == Some(Str(generated))
    ensures forall k :: k != StrKey("preview") ==> Get(r.entries, k) == Get(PersistReply.ContentEntries(content), k)
  {
    Hash(HashSet(PersistReply.ContentEntries(content), StrKey("preview"), Str(generated)))
  }

  /** `ArtifactStep#call`: `generated` is the artifact model's text or its
      error, `persisted` whether storing and broadcasting it went through. */
  method ArtifactStep(ctx: Context, generated: Result<string>, persisted: bool)
    modifies ctx, if ctx.state.aiMessage != null then {ctx.state.aiMessage} else {}
    ensures ctx.state == old(ctx.state).(trace := old(ctx.state).trace + [Artifact], artifactUpdated := generated.Ok? && persisted)
    ensures ctx.state.aiMessage != null && generated.Ok? ==>
      ctx.state.aiMessage.columns ==
        old(ctx.state.aiMessage.columns).(content := WithPreview(old(ctx.state.aiMessage.columns).content, generated.value))
  {
    var ai := ctx.state.aiMessage;
    ctx.state := ctx.state.(trace := ctx.state.trace + [Artifact], artifactUpdated := generated.Ok? && persisted);
    if generated.Ok? && ai != null {
      ai.columns := ai.columns.(content := WithPreview(ai.columns.content, generated.value));
    }
  }

  // ---------------------------------------------------------------- pipeline

  /** What the model services answer during one run. The actions model is
      never reached (see `ActionsStep`), so it has no reply here. */
  datatype Replies = Replies(
    chat: ChatReplyStep.Reply, intent: Result<string>, artifact: Result<string>, artifactPersisted: bool)

  /** The steps a run performs. */
  function Steps(chatReplyOk: bool, generate: bool): (r: seq<StepName>)
    ensures !chatReplyOk ==> r == [ChatReply]
    ensures chatReplyOk ==> |r| >= 3 && r[..3] == [ChatReply, Intent, Actions] && (generate <==> Artifact in r)
  {
    if !chatReplyOk then [ChatReply]
    else [ChatReply, Intent, Actions] + (if generate then [Artifact] else [])
  }

  lemma StepsTail(g: bool)
    ensures Steps(true, g)[1..] == [Intent] + ([Actions] + (if g then [Artifact] else []))
  {
  }

  /** The intent step's entry followed by the actions and artifact entries
      is the tail of the step order. */
  lemma FollowUpsTrace(t: seq<StepName>, g: bool)
    ensures t + [Intent] + ([Actions] + (if g then [Artifact] else [])) == t + Steps(true, g)[1..]
  {
    StepsTail(g);
  }

  /** The chat reply step as the run sees it: its effect on the context's
      state alone. */
  method ReplyStep(ctx: Context, reply: ChatReplyStep.Reply, b: Broadcaster, now: int, parse: string -> Option<Value>,
                   inspect: Value -> string) returns (r: Result<AiMessage>)
    modifies ctx, ctx.userMessage, b, if ctx.userMessage.aiMessage != null then {ctx.userMessage.aiMessage} else {}
    ensures r.Ok? <==> reply.result.Ok?
    ensures r.Err? ==> r.error == reply.result.error && ctx.state == old(ctx.state).(trace := old(ctx.state).trace + [ChatReply])
    ensures r.Ok? ==> ctx.state == old(ctx.state).(trace := old(ctx.state).trace + [ChatReply], aiMessage := ctx.userMessage.aiMessage)
    ensures ctx.userMessage.aiMessage != null
    ensures old(ctx.userMessage.aiMessage) != null ==> ctx.userMessage.aiMessage == old(ctx.userMessage.aiMessage)
    ensures old(ctx.userMessage.aiMessage) == null ==> fresh(ctx.userMessage.aiMessage) && fresh(ctx.userMessage.aiMessage.actions)
  {
    r := ChatReplyStep.Call(ctx, reply, b, now, parse, inspect);
  }

  /** The steps after a successful chat reply: intent, actions, then the
      artifact when the intent just stored asks for it. */
  method FollowUps(ctx: Context, replies: Replies, parse: string -> Option<Value>, includeSuggestions: bool,
                   inspect: Value -> string)
    requires ctx.state.aiMessage != null && ctx.state.aiMessage == ctx.userMessage.aiMessage
    modifies ctx, ctx.chat, ctx.state.aiMessage, ctx.state.aiMessage.actions
    ensures var intent := IntentExtract.IntentFor(replies.intent, parse, inspect);
      ctx.state == old(ctx.state).(
        trace := old(ctx.state).trace + Steps(true, intent.shouldGenerateArtifact)[1..],
        meta := Some(IntentExtract.ToHash(intent)),
        artifactUpdated := if intent.shouldGenerateArtifact then replies.artifact.Ok? && replies.artifactPersisted
                           else old(ctx.state).artifactUpdated)
  {
    ghost var s0 := ctx.state;
    var intent := IntentStep(ctx, replies.intent, parse, inspect);
    ghost var s1 := ctx.state;
    ActionsAndArtifact(ctx, replies, parse, includeSuggestions, inspect);
    FollowUpsState(s0, s1, ctx.state, intent, replies);
  }

  /** The state after the intent step and then the actions and artifact
      steps is the state `FollowUps` promises. */
  lemma FollowUpsState(s0: RunState, s1: RunState, s2: RunState, intent: IntentExtract.Intent, replies: Replies)
    requires s1 == s0.(trace := s0.trace + [Intent], meta := Some(IntentExtract.ToHash(intent)))
    requires var g := ShouldGenerateArtifact(s1.meta);
      s2 == s1.(trace := s1.trace + ([Actions] + (if g then [Artifact] else [])),
                artifactUpdated := if g then replies.artifact.Ok? && replies.artifactPersisted else s1.artifactUpdated)
    ensures s2 == s0.(
      trace := s0.trace + Steps(true, intent.shouldGenerateArtifact)[1..],
      meta := Some(IntentExtract.ToHash(intent)),
      artifactUpdated := if intent.shouldGenerateArtifact then replies.artifact.Ok? && replies.artifactPersisted
                         else s0.artifactUpdated)
  {
    GateOf(intent);
    FollowUpsTrace(s0.trace, intent.shouldGenerateArtifact);
  }

  /** The gate reads back the flag of the intent stored in the meta. */
  lemma GateOf(i: IntentExtract.Intent)
    ensures ShouldGenerateArtifact(Some(IntentExtract.ToHash(i))) == i.shouldGenerateArtifact
  {
    IntentExtract.ToHashFields(i);
  }

  /** The steps after the intent: actions, then the artifact when the
      stored meta asks for it. */
  method ActionsAndArtifact(ctx: Context, replies: Replies, parse: string -> Option<Value>, includeSuggestions: bool,
                            inspect: Value -> string)
    requires ctx.state.aiMessage != null && ctx.state.aiMessage == ctx.userMessage.aiMessage
    modifies ctx, ctx.state.aiMessage, ctx.state.aiMessage.actions
    ensures var g := ShouldGenerateArtifact(old(ctx.state).meta);
      ctx.state == old(ctx.state).(
        trace := old(ctx.state).trace + ([Actions] + (if g then [Artifact] else [])),
        artifactUpdated := if g then replies.artifact.Ok? && replies.artifactPersisted else old(ctx.state).artifactUpdated)
  {
    ActionsStep(ctx, includeSuggestions, inspect);
    ArtifactIfAsked(ctx, replies.artifact, replies.artifactPersisted);
  }

  /** The artifact step, run only when the stored meta asks for it. */
  method ArtifactIfAsked(ctx: Context, generated: Result<string>, persisted: bool)
    modifies ctx, if ctx.state.aiMessage != null then {ctx.state.aiMessage} else {}
    ensures var g := ShouldGenerateArtifact(old(ctx.state).meta);
      ctx.state == old(ctx.state).(trace := old(ctx.state).trace + (if g then [Artifact] else []),
                                   artifactUpdated := if g then generated.Ok? && persisted else old(ctx.state).artifactUpdated)
  {
    if ShouldGenerateArtifact(ctx.state.meta) {
      ArtifactStep(ctx, generated, persisted);
    } else {
      assert ctx.state.trace + [] == ctx.state.trace;
    }
  }

  /** `ProcessUserMessage.new(...).call`: the context is built from the
      message, its chat, the given context text, the model and the provider. */
  method Call(um: UserMessage, chat: ChatRecord, contextText: string, model: string, provider: string,
              replies: Replies, b: Broadcaster, now: int, parse: string -> Option<Value>, includeSuggestions: bool,
              inspect: Value -> string) returns (ctx: Context, r: Result<bool>)
    modifies um, chat, b
    modifies if um.aiMessage != null then {um.aiMessage, um.aiMessage.actions} else {}
    ensures fresh(ctx) && ctx.userMessage == um && ctx.chat == chat && ctx.model == model && ctx.provider == provider
    ensures r.Ok? <==> replies.chat.result.Ok?
    ensures r.Err? ==> r.error == replies.chat.result.error && ctx.state.meta == None && !ctx.state.artifactUpdated
    ensures ctx.state.trace ==
      Steps(replies.chat.result.Ok?, IntentExtract.IntentFor(replies.intent, parse, inspect).shouldGenerateArtifact)
    ensures r.Ok? ==>
      (ctx.state.meta == Some(IntentExtract.ToHash(IntentExtract.IntentFor(replies.intent, parse, inspect))) &&
       ctx.state.aiMessage == um.aiMessage && ctx.state.aiMessage != null)
    ensures r.Ok? ==>
      ctx.state.artifactUpdated == (IntentExtract.IntentFor(replies.intent, parse, inspect).shouldGenerateArtifact &&
        replies.artifact.Ok? && replies.artifactPersisted)
  {
    ctx := new Context(um, chat, contextText, model, provider);
    var reply := ReplyStep(ctx, replies.chat, b, now, parse, inspect);
    if reply.Err? {
      return ctx, Err(reply.error);
    }
    ghost var s1 := ctx.state;
    assert s1.trace == [ChatReply] && s1.aiMessage == um.aiMessage && !s1.artifactUpdated;
    ghost var aiObject: object := um.aiMessage;
    ghost var actionsObject: object := um.aiMessage.actions;
    ghost var umObject: object := um;
    assert aiObject != umObject && actionsObject != umObject;
    AfterReply(ctx, replies, parse, includeSuggestions, inspect);
    return ctx, Ok(true);
  }

  /** What `call` sees of the follow-up steps after a successful chat reply:
      the whole step order, the intent's meta, and the artifact flag. */
  method AfterReply(ctx: Context, replies: Replies, parse: string -> Option<Value>, includeSuggestions: bool,
                    inspect: Value -> string)
    requires ctx.state.aiMessage != null && ctx.state.aiMessage == ctx.userMessage.aiMessage
    requires ctx.state.trace == [ChatReply] && !ctx.state.artifactUpdated
    modifies ctx, ctx.chat, ctx.state.aiMessage, ctx.state.aiMessage.actions
    ensures var intent := IntentExtract.IntentFor(replies.intent, parse, inspect);
      ctx.state.trace == Steps(true, intent.shouldGenerateArtifact) &&
      ctx.state.meta == Some(IntentExtract.ToHash(intent)) &&
      ctx.state.aiMessage == old(ctx.state.aiMessage) &&
      ctx.state.artifactUpdated == (intent.shouldGenerateArtifact && replies.artifact.Ok? && replies.artifactPersisted)
  {
    FollowUps(ctx, replies, parse, includeSuggestions, inspect);
    ghost var g := IntentExtract.IntentFor(replies.intent, parse, inspect).shouldGenerateArtifact;
    assert ctx.state.trace == [ChatReply] + Steps(true, g)[1..];
  }

  // ---------------------------------------------------------------- properties

  /** The number of times `s` occurs in `trace`. */
  function Count(trace: seq<StepName>, s: StepName): nat {
    if trace == [] then 0 else (if trace[0] == s then 1 else 0) + Count(trace[1..], s)
  }

  /** Each step runs at most once per call. */
  lemma StepsAtMostOnce(chatReplyOk: bool, generate: bool, s: StepName)
    ensures Count(Steps(chatReplyOk, generate), s) <= 1
  {
    var t := Steps(chatReplyOk, generate);
    if chatReplyOk {
      var tail := if generate then [Artifact] else [];
      assert t[1..][1..][1..] == tail;
      assert Count(tail, s) == (if generate && s == Artifact then 1 else 0) by {
        if generate {
          assert tail[1..] == [];
        }
      }
      assert Count(t[1..][1..], s) == (if s == Actions then 1 else 0) + Count(tail, s);
      assert Count(t[1..], s) == (if s == Intent then 1 else 0) + Count(t[1..][1..], s);
    }
  }

  /** The chat reply runs first, and the artifact, when it runs, runs last. */
  lemma StepsOrdered(chatReplyOk: bool, generate: bool)
    ensures Steps(chatReplyOk, generate)[0] == ChatReply
    ensures Artifact in Steps(chatReplyOk, generate) ==> Steps(chatReplyOk, generate)[|Steps(chatReplyOk, generate)| - 1] == Artifact
    ensures chatReplyOk ==> Steps(chatReplyOk, generate)[1] == Intent && Steps(chatReplyOk, generate)[2] == Actions
  {
  }

  /** An intent reply that fails to parse leaves the artifact step on. */
  lemma UnparsedIntentGenerates(raw: string, parse: string -> Option<Value>, inspect: Value -> string)
    requires IntentExtract.ParseJsonObject(raw, parse).Err?
    ensures Artifact in Steps(true, IntentExtract.IntentFor(Ok(raw), parse, inspect).shouldGenerateArtifact)
  {
  }

  /** The title changes exactly when a non-blank suggestion meets a chat
      that may still be titled automatically, and then it is the stripped
      suggestion; nothing else about the chat changes. */
  lemma TitleAppliedSpec(c: Chats.Chat, suggested: Option<string>)
    ensures TitleApplied(c, suggested).title != c.title ==>
      !Blank(Strip(suggested.GetOr(""))) && Chats.CanAutoGenerateTitle(c)
    ensures !Blank(Strip(suggested.GetOr(""))) && Chats.CanAutoGenerateTitle(c) ==>
      TitleApplied(c, suggested).title == Some(Strip(suggested.GetOr("")))
    ensures TitleApplied(c, suggested).(title := c.title) == c
  {
  }

  /** A title the user set is never replaced by a suggested one. */
  lemma UserTitleKept(c: Chats.Chat, suggested: Option<string>)
    requires c.titleSetByUser
    ensures TitleApplied(c, suggested) == c
  {
  }
}
