/** `Ai::ProcessUserMessage::Context`: the state the pipeline's steps share.
    The user message, its chat, the model and the provider are fixed for the
    run; the steps set the AI message, the intent meta and whether the
    artifact was updated. The model also records, in `trace`, which steps
    ran, in order. */
module ProcessContext {
  import opened Wrappers
  import opened Text
  import opened Values
  import opened Messages

  datatype StepName = ChatReply | Intent | Actions | Artifact

  /** `should_generate_artifact?`: true before any intent is known,
      otherwise the truthiness of the intent's flag. */
  function ShouldGenerateArtifact(meta: Option<seq<(Key, Value)>>): (r: bool)
    ensures meta.None? ==> r
    ensures meta.Some? ==> (r <==> Truthy(Get(meta.value, SymKey("should_generate_artifact")).GetOr(Nil)))
  {
    match meta
    case None => true
    case Some(h) => Truthy(Get(h, SymKey("should_generate_artifact")).GetOr(Nil))
  }

  /** The stored context text after `context_text`: kept when present,
      otherwise the text just built. */
  function ContextTextAfter(stored: string, built: string): (r: string)
    ensures !Blank(stored) ==> r == stored
    ensures Blank(stored) ==> r == built
  {
    if !Blank(stored) then stored else built
  }

  /** The accessors the steps set: the AI message, the normalised intent
      hash (or nil), whether the artifact was updated, the memoised context
      text, and the steps run so far. */
  datatype RunState = RunState(
    aiMessage: AiMessage?, meta: Option<seq<(Key, Value)>>, artifactUpdated: bool, contextText: string,
    trace: seq<StepName>)

  /** The state of a new context: only the given text, stripped, is set
      (`Trim` is `Strip`, by `TrimIsStrip`). */
  function Initial(contextText: string): (r: RunState)
    ensures r.aiMessage == null && r.meta == None && !r.artifactUpdated && r.trace == []
    ensures r.contextText == Trim(contextText)
  {
    RunState(null, None, false, Trim(contextText), [])
  }

  class Context {
    const userMessage: UserMessage
    const chat: ChatRecord
    const model: string
    const provider: string
    var state: RunState

    constructor(um: UserMessage, chat0: ChatRecord, contextText0: string, model0: string, provider0: string)
      ensures userMessage == um && chat == chat0 && model == model0 && provider == provider0
      ensures state == Initial(contextText0)
    {
      userMessage := um;
      chat := chat0;
      model := model0;
      provider := provider0;
      state := Initial(contextText0);
    }

    /** `context_text`, with the text `BuildContext` would produce given as
        `built`: the stored text when present, otherwise `built`, which is
        then stored. */
    method ContextText(built: string) returns (r: string)
      modifies this
      ensures r == ContextTextAfter(old(state).contextText, built)
      ensures state == old(state).(contextText := r)
    {
      r := ContextTextAfter(state.contextText, built);
      state := state.(contextText := r);
    }
  }

  // ---------------------------------------------------------------- properties

  /** Once a present text is stored, later builds do not replace it. */
  lemma ContextTextMemoised(stored: string, built: string, later: string)
    requires !Blank(built)
    ensures ContextTextAfter(ContextTextAfter(stored, built), later) == ContextTextAfter(stored, built)
  {
  }
}
