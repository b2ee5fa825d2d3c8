/** The `UserMessage` and `AiMessage` records the chat pipeline updates: a
    user message holds the instruction and the run status, and owns at most
    one AI message, which holds the reply content, its proposed actions and
    its intent meta. As in ActiveRecord, each record's columns form one
    attribute set that `update!` rewrites in place. */
module Messages {
  import opened Wrappers
  import opened Values
  import ExtractProposed
  import Chats

  datatype UserColumns = UserColumns(
    id: int, instruction: Option<string>, status: string, errorMessage: Option<string>,
    llmModel: Option<string>, frozenAt: Option<int>, artifactUpdatedAt: Option<int>)

  /** The `ai_message_meta` record the intent pass writes. */
  datatype Meta = Meta(
    suggestedTitle: Option<string>, shouldGenerateArtifact: bool, needsSources: bool, suggestWebSearch: bool,
    flags: seq<(Key, Value)>, payload: seq<(Key, Value)>)

  datatype AiColumns = AiColumns(content: Value, status: string)

  class AiMessage {
    var columns: AiColumns
    var meta: Option<Meta>
    /** `proposed_actions`. */
    const actions: ExtractProposed.ActionStore

    constructor(c: AiColumns, actions0: ExtractProposed.ActionStore)
      ensures columns == c && meta == None && actions == actions0
    {
      columns := c;
      meta := None;
      actions := actions0;
    }
  }

  class UserMessage {
    var columns: UserColumns
    var aiMessage: AiMessage?
    /** Whether the table has an `artifact_updated_at` column. */
    const hasArtifactUpdatedAt: bool

    constructor(c: UserColumns, hasArtifactUpdatedAt0: bool)
      ensures columns == c && aiMessage == null && hasArtifactUpdatedAt == hasArtifactUpdatedAt0
    {
      columns := c;
      aiMessage := null;
      hasArtifactUpdatedAt := hasArtifactUpdatedAt0;
    }
  }

  /** A `Chat` record, whose title the intent pass may set. */
  class ChatRecord {
    var columns: Chats.Chat

    constructor(c: Chats.Chat)
      ensures columns == c
    {
      columns := c;
    }
  }

  /** Records each turbo-stream broadcast a run sends, in order; the
      broadcast itself is I/O. */
  datatype Broadcast = Start(text: string) | Stream(text: string) | Final

  class Broadcaster {
    var sent: seq<Broadcast>

    constructor()
      ensures sent == []
    {
      sent := [];
    }

    method Send(b: Broadcast)
      modifies this
      ensures sent == old(sent) + [b]
    {
      sent := sent + [b];
    }
  }
}
