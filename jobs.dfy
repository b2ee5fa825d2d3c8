/** The background job queue (`SubmitUserMessageJob.perform_later`): the ids
    of the user messages whose runs have been enqueued, in order. */
module Jobs {
  class JobQueue {
    var enqueued: seq<int>

    constructor()
      ensures enqueued == []
    {
      enqueued := [];
    }

    /** `perform_later(id)`: one more job, for `id`. */
    method PerformLater(id: int)
      modifies this
      ensures enqueued == old(enqueued) + [id]
    {
      enqueued := enqueued + [id];
    }
  }
}
