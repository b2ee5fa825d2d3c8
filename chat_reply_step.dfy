/** `Ai::ProcessUserMessage::ChatReplyStep`: the first step of the pipeline.
    It marks the message running, makes sure it has an AI message, and
    consumes the streamed reply delta by delta: blank deltas are skipped,
    the others are accumulated and appended to the AI message, and once at
    least ten characters have arrived since the last broadcast the
    confirmation sentence of the text so far is broadcast. At the end the
    reply is finalised and the context gets the AI message; an error marks
    the message failed, broadcasts a warning and is raised again. */
module ChatReplyStep {
  import opened Wrappers
  import opened Text
  import opened Values
  import opened Messages
  import opened ProcessContext
  import PersistReply
  import ConfirmCurrentRequest

  const BroadcastEveryNChars: nat := 10

  /** What the streaming client delivers: the deltas it yields, then the
      final text it returns or the error it raises. */
  datatype Reply = Reply(deltas: seq<string>, result: Result<string>)

  /** The broadcast text of the reply so far. */
  function Render(instruction: string, parse: string -> Option<Value>): string -> string {
    s => ConfirmCurrentRequest.Call(s, instruction, parse)
  }

  /** The concatenation of the non-blank deltas. */
  function Accumulated(deltas: seq<string>): string {
    if deltas == [] then ""
    else
      var last := deltas[|deltas| - 1];
      Accumulated(deltas[..|deltas| - 1]) + (if Blank(last) then "" else last)
  }

  /** The throttle's state: the accumulated text, the lengths at which it
      broadcast, and the broadcasts it sent. */
  datatype Throttle = Throttle(accumulated: string, marks: seq<nat>, sent: seq<Broadcast>)

  /** `last_broadcast_len`. */
  function LastMark(t: Throttle): nat {
    if t.marks == [] then 0 else t.marks[|t.marks| - 1]
  }

  /** One delta of the streaming block. */
  function Step(t: Throttle, delta: string, render: string -> string): Throttle {
    if Blank(delta) then t
    else
      var acc := t.accumulated + delta;
      if |acc| - LastMark(t) >= BroadcastEveryNChars then Throttle(acc, t.marks + [|acc|], t.sent + [Stream(render(acc))])
      else t.(accumulated := acc)
  }

  /** The throttle after the given deltas, from an empty start. */
  function Run(deltas: seq<string>, render: string -> string): Throttle {
    if deltas == [] then Throttle("", [], [])
    else Step(Run(deltas[..|deltas| - 1], render), deltas[|deltas| - 1], render)
  }

  /** The AI message after `append_delta!` of each delta in turn. */
  function AppendAll(c: AiColumns, deltas: seq<string>, inspect: Value -> string): AiColumns {
    if deltas == [] then c
    else
      var last := deltas[|deltas| - 1];
      var prev := AppendAll(c, deltas[..|deltas| - 1], inspect);
      if Blank(last) then prev else PersistReply.Appended(prev, last, inspect)
  }

  /** Broadcasts spaced by at least ten characters, each of a prefix of the
      text, with fewer than ten characters left unbroadcast. */
  predicate Throttled(t: Throttle, render: string -> string) {
    |t.marks| == |t.sent| &&
    (forall i :: 0 <= i < |t.marks| ==> t.marks[i] <= |t.accumulated|) &&
    (forall i :: 0 <= i < |t.marks| ==> t.sent[i] == Stream(render(t.accumulated[..t.marks[i]]))) &&
    (t.marks != [] ==> t.marks[0] >= BroadcastEveryNChars) &&
    (forall i :: 0 < i < |t.marks| ==> t.marks[i] - t.marks[i - 1] >= BroadcastEveryNChars) &&
    |t.accumulated| - LastMark(t) < BroadcastEveryNChars
  }

  /** The streaming loop: the throttle state and the AI message follow `Run`
      and `AppendAll`. */
  method StreamDeltas(ai: AiMessage, deltas: seq<string>, render: string -> string, b: Broadcaster,
                      inspect: Value -> string) returns (accumulated: string)
    modifies ai, b
    ensures accumulated == Run(deltas, render).accumulated
    ensures b.sent == old(b.sent) + Run(deltas, render).sent
    ensures ai.columns == AppendAll(old(ai.columns), deltas, inspect) && ai.meta == old(ai.meta)
  {
    accumulated := "";
    var lastBroadcastLen := 0;
    var i := 0;
    while i < |deltas|
      invariant 0 <= i <= |deltas|
      invariant accumulated == Run(deltas[..i], render).accumulated
      invariant lastBroadcastLen == LastMark(Run(deltas[..i], render))
      invariant b.sent == old(b.sent) + Run(deltas[..i], render).sent
      invariant ai.columns == AppendAll(old(ai.columns), deltas[..i], inspect) && ai.meta == old(ai.meta)
    {
      ghost var t := Run(deltas[..i], render);
      PrefixStep(old(ai.columns), deltas, i, render, inspect);
      StepParts(t, deltas[i], render);
      accumulated, lastBroadcastLen := StreamOne(ai, deltas[i], render, b, inspect, accumulated, lastBroadcastLen, t);
      i := i + 1;
    }
    assert deltas[..i] == deltas;
  }

  /** One pass of the loop body. */
  method StreamOne(ai: AiMessage, delta: string, render: string -> string, b: Broadcaster, inspect: Value -> string,
                   accumulated: string, lastBroadcastLen: nat, ghost t: Throttle) returns (acc: string, last: nat)
    requires accumulated == t.accumulated && lastBroadcastLen == LastMark(t)
    modifies ai, b
    ensures acc == Step(t, delta, render).accumulated && last == LastMark(Step(t, delta, render))
    ensures b.sent == old(b.sent) + NewSends(t, delta, render)
    ensures ai.columns == (if Blank(delta) then old(ai.columns) else PersistReply.Appended(old(ai.columns), delta, inspect))
    ensures ai.meta == old(ai.meta)
  {
    StepParts(t, delta, render);
    acc, last := accumulated, lastBroadcastLen;
    if !Blank(delta) {
      acc := accumulated + delta;
      var _ := PersistReply.AppendDelta(ai, delta, inspect);
      if |acc| - lastBroadcastLen >= BroadcastEveryNChars {
        b.Send(Stream(render(acc)));
        last := |acc|;
      }
    }
  }

  /** The broadcast one step sends, if any. */
  function NewSends(t: Throttle, delta: string, render: string -> string): seq<Broadcast> {
    var acc := t.accumulated + delta;
    if !Blank(delta) && |acc| - LastMark(t) >= BroadcastEveryNChars then [Stream(render(acc))] else []
  }

  /** One more delta of a prefix, for the throttle and for the AI message. */
  lemma PrefixStep(c: AiColumns, deltas: seq<string>, i: nat, render: string -> string, inspect: Value -> string)
    requires i < |deltas|
    ensures Run(deltas[..i + 1], render) == Step(Run(deltas[..i], render), deltas[i], render)
    ensures AppendAll(c, deltas[..i + 1], inspect) ==
      if Blank(deltas[i]) then AppendAll(c, deltas[..i], inspect)
      else PersistReply.Appended(AppendAll(c, deltas[..i], inspect), deltas[i], inspect)
  {
    assert deltas[..i + 1][..i] == deltas[..i];
  }

  /** What one step does to the text, the last mark and the broadcasts. */
  lemma StepParts(t: Throttle, delta: string, render: string -> string)
    ensures var acc := t.accumulated + delta;
      var sends := !Blank(delta) && |acc| - LastMark(t) >= BroadcastEveryNChars;
      Step(t, delta, render).accumulated == (if Blank(delta) then t.accumulated else acc) &&
      LastMark(Step(t, delta, render)) == (if sends then |acc| else LastMark(t)) &&
      Step(t, delta, render).sent == t.sent + NewSends(t, delta, render)
  {
  }

  /** The warning broadcast when the step fails. */
  function Warning(message: string): string {
    "\U{26A0}\U{FE0F} " + message
  }

  /** The AI message the step streams into. */
  function StartColumns(existing: Option<AiColumns>): AiColumns {
    existing.GetOr(AiColumns(Hash([]), "streaming"))
  }

  /** The part of `call` before the final text: the message is running and
      has an AI message that holds the streamed deltas. */
  method Open(um: UserMessage, deltas: seq<string>, b: Broadcaster, parse: string -> Option<Value>,
              inspect: Value -> string) returns (ai: AiMessage)
    modifies um, b, if um.aiMessage != null then {um.aiMessage} else {}
    ensures um.aiMessage == ai
    ensures old(um.aiMessage) != null ==> ai == old(um.aiMessage)
    ensures old(um.aiMessage) == null ==> fresh(ai) && fresh(ai.actions)
    ensures um.columns == PersistReply.Running(old(um.columns))
    ensures ai.columns == AppendAll(StartColumns(if old(um.aiMessage) != null then Some(old(um.aiMessage.columns)) else None), deltas, inspect)
    ensures b.sent == old(b.sent) + [Start("")] + Run(deltas, Render(old(um.columns).instruction.GetOr(""), parse)).sent
  {
    PersistReply.MarkRunning(um);
    ai := PersistReply.EnsureAiMessage(um);
    b.Send(Start(""));
    var render := Render(um.columns.instruction.GetOr(""), parse);
    var _ := StreamDeltas(ai, deltas, render, b, inspect);
  }

  /** The part of `call` after the stream: finalise and hand the AI message
      to the context, or mark the message failed and broadcast a warning. */
  method Close(ctx: Context, ai: AiMessage, result: Result<string>, b: Broadcaster, now: int,
               parse: string -> Option<Value>) returns (r: Result<AiMessage>)
    requires ctx.userMessage.aiMessage == ai
    modifies ctx, ctx.userMessage, ai, b
    ensures ctx.userMessage.aiMessage == ai
    ensures b.sent == old(b.sent) + (if result.Ok? then [Final] else [Stream(Warning(result.error))])
    ensures result.Err? ==>
      (r == Err(result.error) && ctx.state == old(ctx.state) && ai.columns == old(ai.columns) &&
       ctx.userMessage.columns == PersistReply.FailedWith(old(ctx.userMessage.columns), result.error))
    ensures result.Ok? ==>
      (r == Ok(ai) && ctx.state == old(ctx.state).(aiMessage := ai) &&
       ctx.userMessage.columns == PersistReply.Done(old(ctx.userMessage.columns), Some(ctx.model), now) &&
       ai.columns == PersistReply.Finalized(old(ai.columns),
         PersistReply.CleanText(result.value, old(ctx.userMessage.columns).instruction, parse)))
  {
    var um := ctx.userMessage;
    if result.Err? {
      PersistReply.MarkFailed(um, result.error);
      b.Send(Stream(Warning(result.error)));
      return Err(result.error);
    }
    ghost var s0 := ctx.state;
    Finish(um, ai, result.value, b, ctx.model, now, parse);
    assert ctx.state == s0;
    ctx.state := ctx.state.(aiMessage := ai);
    return Ok(ai);
  }

  /** The success half of closing a reply: both messages are finalized and
      the final broadcast is sent. */
  method Finish(um: UserMessage, ai: AiMessage, text: string, b: Broadcaster, model: string, now: int,
               parse: string -> Option<Value>)
    requires um.aiMessage == ai
    modifies um, ai, b
    ensures um.aiMessage == ai
    ensures b.sent == old(b.sent) + [Final]
    ensures um.columns == PersistReply.Done(old(um.columns), Some(model), now)
    ensures ai.columns == PersistReply.Finalized(old(ai.columns), PersistReply.CleanText(text, old(um.columns).instruction, parse))
  {
    // Both rows and the broadcasts as they stand before each step.
    ghost var u0, a0 := um.columns, ai.columns;
    PersistReply.Finalize(um, ai, text, Some(model), now, parse);
    ghost var sent0 := b.sent;
    assert sent0 == old(b.sent);
    b.Send(Final);
  }

  /** `call`. */
  method Call(ctx: Context, reply: Reply, b: Broadcaster, now: int, parse: string -> Option<Value>,
              inspect: Value -> string) returns (r: Result<AiMessage>)
    modifies ctx, ctx.userMessage, b, if ctx.userMessage.aiMessage != null then {ctx.userMessage.aiMessage} else {}
    ensures r.Ok? <==> reply.result.Ok?
    ensures old(ctx.userMessage.aiMessage) != null ==> ctx.userMessage.aiMessage == old(ctx.userMessage.aiMessage)
    ensures old(ctx.userMessage.aiMessage) == null ==> fresh(ctx.userMessage.aiMessage) && fresh(ctx.userMessage.aiMessage.actions)
    ensures ctx.userMessage.aiMessage != null
    ensures b.sent == old(b.sent) + [Start("")] + Run(reply.deltas, Render(old(ctx.userMessage.columns).instruction.GetOr(""), parse)).sent +
      (if reply.result.Ok? then [Final] else [Stream(Warning(reply.result.error))])
    ensures reply.result.Err? ==>
      (r == Err(reply.result.error) && ctx.state == old(ctx.state).(trace := old(ctx.state).trace + [ChatReply]) &&
       ctx.userMessage.columns == PersistReply.FailedWith(PersistReply.Running(old(ctx.userMessage.columns)), reply.result.error))
    ensures reply.result.Ok? ==>
      (r == Ok(ctx.userMessage.aiMessage) &&
       ctx.state == old(ctx.state).(trace := old(ctx.state).trace + [ChatReply], aiMessage := ctx.userMessage.aiMessage) &&
       ctx.userMessage.columns == PersistReply.Done(PersistReply.Running(old(ctx.userMessage.columns)), Some(ctx.model), now))
    ensures var streamed := AppendAll(StartColumns(if old(ctx.userMessage.aiMessage) != null then Some(old(ctx.userMessage.aiMessage.columns)) else None), reply.deltas, inspect);
      ctx.userMessage.aiMessage.columns ==
        (if reply.result.Err? then streamed
         else PersistReply.Finalized(streamed, PersistReply.CleanText(reply.result.value, old(ctx.userMessage.columns).instruction, parse)))
  {
    ctx.state := ctx.state.(trace := ctx.state.trace + [ChatReply]);
    var ai := Open(ctx.userMessage, reply.deltas, b, parse, inspect);
    r := Close(ctx, ai, reply.result, b, now, parse);
  }

  // ---------------------------------------------------------------- properties

  /** The text the throttle accumulates is the concatenation of the
      non-blank deltas. */
  lemma {:induction false} RunAccumulates(deltas: seq<string>, render: string -> string)
    ensures Run(deltas, render).accumulated == Accumulated(deltas)
  {
    if deltas != [] {
      RunAccumulates(deltas[..|deltas| - 1], render);
    }
  }

  /** The text the AI message holds grows by exactly the non-blank deltas. */
  lemma {:induction false} AppendAllText(c: AiColumns, deltas: seq<string>, inspect: Value -> string)
    ensures PersistReply.CurrentText(AppendAll(c, deltas, inspect).content, inspect) ==
      PersistReply.CurrentText(c.content, inspect) + Accumulated(deltas)
  {
    if deltas != [] {
      var init := deltas[..|deltas| - 1];
      AppendAllText(c, init, inspect);
      AppendLastText(c, deltas, inspect);
    }
  }

  /** One more delta, given the text after the ones before it. */
  lemma AppendLastText(c: AiColumns, deltas: seq<string>, inspect: Value -> string)
    requires deltas != []
    requires PersistReply.CurrentText(AppendAll(c, deltas[..|deltas| - 1], inspect).content, inspect) ==
      PersistReply.CurrentText(c.content, inspect) + Accumulated(deltas[..|deltas| - 1])
    ensures PersistReply.CurrentText(AppendAll(c, deltas, inspect).content, inspect) ==
      PersistReply.CurrentText(c.content, inspect) + Accumulated(deltas)
  {
    var last := deltas[|deltas| - 1];
    var t := PersistReply.CurrentText(c.content, inspect);
    var a := Accumulated(deltas[..|deltas| - 1]);
    var add := if Blank(last) then "" else last;
    assert Accumulated(deltas) == a + add;
    assert t + a + add == t + (a + add);
  }

  /** Every run of the throttle keeps its broadcasts spaced and current. */
  lemma {:induction false} RunThrottled(deltas: seq<string>, render: string -> string)
    ensures Throttled(Run(deltas, render), render)
  {
    if deltas != [] {
      var init := deltas[..|deltas| - 1];
      RunThrottled(init, render);
      StepThrottled(Run(init, render), deltas[|deltas| - 1], render);
    }
  }

  lemma StepThrottled(t: Throttle, delta: string, render: string -> string)
    requires Throttled(t, render)
    ensures Throttled(Step(t, delta, render), render)
  {
    if !Blank(delta) {
      var acc := t.accumulated + delta;
      forall i | 0 <= i < |t.marks|
        ensures acc[..t.marks[i]] == t.accumulated[..t.marks[i]]
      {
      }
      if |acc| - LastMark(t) >= BroadcastEveryNChars {
        assert acc[..|acc|] == acc;
      }
    }
  }

  /** A step over a blank delta changes nothing. */
  lemma BlankDeltaIgnored(t: Throttle, delta: string, render: string -> string)
    requires Blank(delta)
    ensures Step(t, delta, render) == t
  {
  }
}
