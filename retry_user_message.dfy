/** `Ai::Chat::RetryUserMessage`: requeues an existing user message through
    the whole pipeline. A message without an instruction, or one whose run
    is in progress, is refused and left as it is; otherwise the message is
    reset to queued, its AI message is emptied (actions and meta removed,
    content cleared, streaming again), and exactly one submit job is
    enqueued for it. */
module RetryUserMessage {
  import opened Wrappers
  import opened Text
  import opened Values
  import opened Messages
  import Jobs

  /** `instruction.to_s.strip.blank?`. */
  predicate MissingInstruction(c: UserColumns) {
    Blank(Strip(c.instruction.GetOr("")))
  }

  /** The user message after `reset_user_message!`. */
  function Reset(c: UserColumns, hasArtifactUpdatedAt: bool): (r: UserColumns)
    ensures r.status == "queued" && r.errorMessage == None
    ensures hasArtifactUpdatedAt ==> r.artifactUpdatedAt == None
    ensures !hasArtifactUpdatedAt ==> r.artifactUpdatedAt == c.artifactUpdatedAt
    ensures r.id == c.id && r.instruction == c.instruction && r.llmModel == c.llmModel && r.frozenAt == c.frozenAt
  {
    var r := c.(status := "queued", errorMessage := None);
    if hasArtifactUpdatedAt then r.(artifactUpdatedAt := None) else r
  }

  /** The outcome of `call` on a message in state `c`. */
  function Outcome(c: UserColumns): (r: Result<bool>)
    ensures r.Ok? <==> !MissingInstruction(c) && c.status != "running"
    ensures r.Ok? ==> r.value
    ensures MissingInstruction(c) ==> r == Err("Missing instruction")
    ensures !MissingInstruction(c) && c.status == "running" ==> r == Err("Run already in progress")
  {
    if MissingInstruction(c) then Err("Missing instruction")
    else if c.status == "running" then Err("Run already in progress")
    else Ok(true)
  }

  /** `reset_ai_message!`. */
  method ResetAiMessage(ai: AiMessage)
    modifies ai, ai.actions
    ensures ai.actions.rows == [] && ai.meta == None && ai.columns == AiColumns(Hash([]), "streaming")
  {
    ai.actions.rows := [];
    ai.meta := None;
    ai.columns := AiColumns(Hash([]), "streaming");
  }

  /** `call`, with the row lock left out: the checks and resets run on the
      message as it is. */
  method Call(um: UserMessage, jobs: Jobs.JobQueue) returns (r: Result<bool>)
    modifies um, jobs, if um.aiMessage != null then {um.aiMessage, um.aiMessage.actions} else {}
    ensures r == Outcome(old(um.columns))
    ensures um.aiMessage == old(um.aiMessage)
    ensures r.Err? ==> um.columns == old(um.columns) && jobs.enqueued == old(jobs.enqueued)
    ensures r.Err? && um.aiMessage != null ==>
      (um.aiMessage.columns == old(um.aiMessage.columns) && um.aiMessage.meta == old(um.aiMessage.meta) &&
       um.aiMessage.actions.rows == old(um.aiMessage.actions.rows))
    ensures r.Ok? ==>
      (um.columns == Reset(old(um.columns), um.hasArtifactUpdatedAt) &&
       jobs.enqueued == old(jobs.enqueued) + [um.columns.id])
    ensures r.Ok? && um.aiMessage != null ==>
      (um.aiMessage.actions.rows == [] && um.aiMessage.meta == None &&
       um.aiMessage.columns == AiColumns(Hash([]), "streaming"))
  {
    if MissingInstruction(um.columns) {
      return Err("Missing instruction");
    }
    if um.columns.status == "running" {
      return Err("Run already in progress");
    }
    um.columns := Reset(um.columns, um.hasArtifactUpdatedAt);
    // The message and the queue as they stand before each later step.
    ghost var u1, q0 := um.columns, jobs.enqueued;
    if um.aiMessage != null {
      ResetAiMessage(um.aiMessage);
    }
    assert um.columns == u1 && jobs.enqueued == q0;
    jobs.PerformLater(um.columns.id);
    return Ok(true);
  }

  // ---------------------------------------------------------------- properties

  /** After a successful retry a second one is not refused as in progress:
      the message is queued, and the instruction is still present. */
  lemma RetryAgainAllowed(c: UserColumns, hasArtifactUpdatedAt: bool)
    requires Outcome(c).Ok?
    ensures Outcome(Reset(c, hasArtifactUpdatedAt)).Ok?
  {
  }

  /** Resetting twice is resetting once. */
  lemma ResetIdempotent(c: UserColumns, hasArtifactUpdatedAt: bool)
    ensures Reset(Reset(c, hasArtifactUpdatedAt), hasArtifactUpdatedAt) == Reset(c, hasArtifactUpdatedAt)
  {
  }

  /** A running message is always refused, whatever its instruction. */
  lemma RunningRefused(c: UserColumns)
    requires c.status == "running"
    ensures Outcome(c).Err?
  {
  }
}
