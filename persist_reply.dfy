/** `Ai::Chat::PersistReply`: the persistence of an assistant reply. It
    marks the user message running, makes sure it has exactly one AI
    message, appends streamed deltas to the AI message's text, stores the
    confirmed final text and marks both records done, or marks the user
    message failed. */
module PersistReply {
  import opened Wrappers
  import opened Text
  import opened Values
  import opened Messages
  import ExtractProposed
  import ConfirmCurrentRequest

  /** `content`, or {} when it is not a hash. */
  function ContentEntries(content: Value): seq<(Key, Value)> {
    if content.Hash? then content.entries else []
  }

  /** `content["text"].to_s`. */
  function CurrentText(content: Value, inspect: Value -> string): string {
    ToS(Get(ContentEntries(content), StrKey("text")).GetOr(Nil), inspect)
  }

  /** `content.merge("text" => text)`. */
  function WithText(content: Value, text: string): (r: Value)
    ensures r.Hash? && Get(r.entries, StrKey("text")) == Some(Str(text))
    ensures forall k :: k != StrKey("text") ==> Get(r.entries, k) == Get(ContentEntries(content), k)
  {
    Hash(HashSet(ContentEntries(content), StrKey("text"), Str(text)))
  }

  /** The user message after `mark_running!`. */
  function Running(c: UserColumns): (r: UserColumns)
    ensures r.status == "running" && r.errorMessage == None
    ensures r.(status := c.status, errorMessage := c.errorMessage) == c
  {
    c.(status := "running", errorMessage := None)
  }

  /** The user message after `mark_failed!`. */
  function FailedWith(c: UserColumns, message: string): (r: UserColumns)
    ensures r.status == "failed" && r.errorMessage == Some(message)
    ensures r.(status := c.status, errorMessage := c.errorMessage) == c
  {
    c.(status := "failed", errorMessage := Some(message))
  }

  /** The AI message after a non-blank `append_delta!`. */
  function Appended(c: AiColumns, delta: string, inspect: Value -> string): (r: AiColumns)
    ensures r.status == "streaming"
    ensures CurrentText(r.content, inspect) == CurrentText(c.content, inspect) + delta
  {
    AiColumns(WithText(c.content, CurrentText(c.content, inspect) + delta), "streaming")
  }

  /** The user message after `finalize!`: done, with the model, frozen at
      the first finalisation. */
  function Done(c: UserColumns, model: Option<string>, now: int): (r: UserColumns)
    ensures r.status == "done" && r.llmModel == model
    ensures c.frozenAt.Some? ==> r.frozenAt == c.frozenAt
    ensures c.frozenAt.None? ==> r.frozenAt == Some(now)
    ensures r.id == c.id && r.instruction == c.instruction && r.errorMessage == c.errorMessage
  {
    c.(status := "done", llmModel := model, frozenAt := Some(c.frozenAt.GetOr(now)))
  }

  /** The text `finalize!` stores: the reply reduced to one confirmation sentence. */
  function CleanText(text: string, instruction: Option<string>, parse: string -> Option<Value>): (r: string)
    ensures r != [] && r[|r| - 1] == '.'
  {
    // A message without an instruction falls back on the empty one.
    match instruction
    case Some(i) => ConfirmCurrentRequest.Call(text, i, parse)
    case None => ConfirmCurrentRequest.Call(text, "", parse)
  }

  /** `mark_running!`. */
  method MarkRunning(um: UserMessage)
    modifies um
    ensures um.columns == Running(old(um.columns)) && um.aiMessage == old(um.aiMessage)
  {
    um.columns := Running(um.columns);
  }

  /** `ensure_ai_message!`: the existing AI message, or exactly one new one,
      empty and streaming. */
  method EnsureAiMessage(um: UserMessage) returns (ai: AiMessage)
    modifies um
    ensures old(um.aiMessage) != null ==> ai == old(um.aiMessage) && um.aiMessage == ai
    ensures old(um.aiMessage) == null ==>
      fresh(ai) && um.aiMessage == ai && ai.columns == AiColumns(Hash([]), "streaming") && ai.meta == None &&
      fresh(ai.actions) && ai.actions.rows == []
    ensures um.columns == old(um.columns)
  {
    if um.aiMessage != null {
      return um.aiMessage;
    }
    var actions := new ExtractProposed.ActionStore([]);
    ai := new AiMessage(AiColumns(Hash([]), "streaming"), actions);
    um.aiMessage := ai;
  }

  /** `append_delta!`: nothing for a blank delta; otherwise the text grows by
      the delta, and the new text is returned. */
  method AppendDelta(ai: AiMessage, delta: string, inspect: Value -> string) returns (r: Option<string>)
    modifies ai
    ensures Blank(delta) ==> r == None && ai.columns == old(ai.columns)
    ensures !Blank(delta) ==>
      (ai.columns == Appended(old(ai.columns), delta, inspect) &&
       r == Some(CurrentText(old(ai.columns).content, inspect) + delta))
    ensures ai.meta == old(ai.meta)
  {
    if Blank(delta) {
      return None;
    }
    var newText := CurrentText(ai.columns.content, inspect) + delta;
    ai.columns := Appended(ai.columns, delta, inspect);
    r := Some(newText);
  }

  /** The AI message after `finalize!`: done, holding the given text. */
  function Finalized(c: AiColumns, clean: string): (r: AiColumns)
    ensures r.status == "done" && r.content.Hash? && Get(r.content.entries, StrKey("text")) == Some(Str(clean))
  {
    AiColumns(WithText(c.content, clean), "done")
  }

  /** `finalize!`: the AI message holds the confirmed text and is done; the
      user message is done with the model. */
  method Finalize(um: UserMessage, ai: AiMessage, text: string, model: Option<string>, now: int,
                  parse: string -> Option<Value>)
    modifies um, ai
    ensures ai.columns == Finalized(old(ai.columns), CleanText(text, old(um.columns).instruction, parse))
    ensures um.columns == Done(old(um.columns), model, now)
    ensures um.aiMessage == old(um.aiMessage) && ai.meta == old(ai.meta)
  {
    // Both rows as they stand before each half.
    ghost var u0, a0 := um.columns, ai.columns;
    var clean := CleanText(text, um.columns.instruction, parse);
    FinalizeAi(ai, clean);
    ghost var a1 := ai.columns;
    assert um.columns == u0;
    MarkDone(um, model, now);
    assert ai.columns == a1;
  }

  /** The user message's half of `finalize!`. */
  method MarkDone(um: UserMessage, model: Option<string>, now: int)
    modifies um
    ensures um.columns == Done(old(um.columns), model, now) && um.aiMessage == old(um.aiMessage)
  {
    um.columns := Done(um.columns, model, now);
  }

  /** The AI message's half of `finalize!`. */
  method FinalizeAi(ai: AiMessage, clean: string)
    modifies ai
    ensures ai.columns == Finalized(old(ai.columns), clean) && ai.meta == old(ai.meta)
  {
    ai.columns := Finalized(ai.columns, clean);
  }

  /** `mark_failed!`. */
  method MarkFailed(um: UserMessage, message: string)
    modifies um
    ensures um.columns == FailedWith(old(um.columns), message) && um.aiMessage == old(um.aiMessage)
  {
    um.columns := FailedWith(um.columns, message);
  }

  // ---------------------------------------------------------------- properties

  /** Two appends grow the text by both deltas, as one append of their
      concatenation would. */
  lemma AppendTwice(c: AiColumns, a: string, b: string, inspect: Value -> string)
    ensures CurrentText(Appended(Appended(c, a, inspect), b, inspect).content, inspect) ==
      CurrentText(Appended(c, a + b, inspect).content, inspect)
  {
    TextAssoc(CurrentText(c.content, inspect), a, b);
  }

  lemma TextAssoc(t: string, a: string, b: string)
    ensures t + a + b == t + (a + b)
  {
  }

  /** Appending leaves every other content key alone. */
  lemma AppendKeepsOtherKeys(c: AiColumns, delta: string, inspect: Value -> string, k: Key)
    requires k != StrKey("text")
    ensures Get(ContentEntries(Appended(c, delta, inspect).content), k) == Get(ContentEntries(c.content), k)
  {
  }

  /** Finalising twice keeps the first freezing time. */
  lemma DoneKeepsFrozenAt(c: UserColumns, model: Option<string>, now: int, later: int)
    ensures Done(Done(c, model, now), model, later).frozenAt == Done(c, model, now).frozenAt
  {
  }
}
