/** `ArtifactTrigger`: a saved way of re-running an artifact's chat. Its
    context settings are clamped into fixed ranges, the instruction of a run
    is built from the template, the source and the new context, and firing
    it creates a queued user message, enqueues its job and bumps the
    counters. The latest user instruction of the chat, the new message's id
    and the clock are parameters. */
module ArtifactTriggers {
  import opened Wrappers
  import opened Text
  import opened Values
  import opened Jobs

  const TriggerTypes: seq<string> := ["manual", "api", "email", "file"]
  const Statuses: seq<string> := ["active", "paused"]

  const MinContextTurns: int := 1
  const MaxContextTurns: int := 30
  const MinContextMaxChars: int := 500
  const MaxContextMaxChars: int := 20000

  const RegenerateLine: string := "Regenerate" + " the artifact using the latest chat context window."
  const PausedError: string := "Trigger is paused"

  // ---------------------------------------------------------------- clamping

  /** `Integer#clamp(lo, hi)`. */
  function Clamp(n: int, lo: int, hi: int): (r: int)
    requires lo <= hi
    ensures lo <= r <= hi
    ensures lo <= n <= hi ==> r == n
    ensures n < lo ==> r == lo
    ensures n > hi ==> r == hi
  {
    if n < lo then lo else if n > hi then hi else n
  }

  /** `clamp_turns(value)`: `value.to_i` clamped to 1..30. */
  function ClampTurns(v: Value, strToI: string -> int): (r: Result<int>)
    ensures r.Ok? ==> MinContextTurns <= r.value <= MaxContextTurns
    ensures r.Ok? <==> ToI(v, strToI).Ok?
    ensures r.Ok? ==> r.value == Clamp(ToI(v, strToI).value, MinContextTurns, MaxContextTurns)
  {
    var n := ToI(v, strToI);
    if n.Err? then Err(n.error) else Ok(Clamp(n.value, MinContextTurns, MaxContextTurns))
  }

  /** `clamp_max_chars(value)`: `value.to_i` clamped to 500..20000. */
  function ClampMaxChars(v: Value, strToI: string -> int): (r: Result<int>)
    ensures r.Ok? ==> MinContextMaxChars <= r.value <= MaxContextMaxChars
    ensures r.Ok? <==> ToI(v, strToI).Ok?
    ensures r.Ok? ==> r.value == Clamp(ToI(v, strToI).value, MinContextMaxChars, MaxContextMaxChars)
  {
    var n := ToI(v, strToI);
    if n.Err? then Err(n.error) else Ok(Clamp(n.value, MinContextMaxChars, MaxContextMaxChars))
  }

  // ---------------------------------------------------------------- instruction

  /** `instruction_template.to_s.strip.presence || latest_user_instruction`. */
  function BaseRequest(template: Option<string>, latestInstruction: Option<string>): (r: string)
    ensures !Blank(Strip(template.GetOr(""))) ==> r == Strip(template.GetOr(""))
    ensures Blank(Strip(template.GetOr(""))) ==> r == Strip(latestInstruction.GetOr(""))
  {
    var t := Strip(template.GetOr(""));
    if !Blank(t) then t else Strip(latestInstruction.GetOr(""))
  }

  /** `source.to_s.strip.presence || trigger_type`. */
  function SourceLabel(source: Option<string>, triggerType: string): (r: string)
    ensures !Blank(Strip(source.GetOr(""))) ==> r == Strip(source.GetOr(""))
    ensures Blank(Strip(source.GetOr(""))) ==> r == triggerType
  {
    var s := Strip(source.GetOr(""));
    if !Blank(s) then s else triggerType
  }

  function SourceLine(sourceLabel: string): string {
    "Trigger source: " + sourceLabel + "."
  }

  function ContextLine(extra: string): string {
    "New context:\n" + extra
  }

  /** The lines of the instruction: the base request when present, the
      regenerate line, the source line, and the new context when present,
      in that order. */
  function Lines(base: string, sourceLabel: string, extra: string): (r: seq<string>)
    ensures var k := if Blank(base) then 0 else 1;
      |r| == k + 2 + (if Blank(extra) then 0 else 1) &&
      (k == 1 ==> r[0] == base) && r[k] == RegenerateLine && r[k + 1] == SourceLine(sourceLabel) &&
      (!Blank(extra) ==> r[k + 2] == ContextLine(extra))
  {
    (if Blank(base) then [] else [base]) + [RegenerateLine, SourceLine(sourceLabel)] +
    (if Blank(extra) then [] else [ContextLine(extra)])
  }

  /** `build_instruction`: the lines joined by blank lines, stripped. */
  function BuildInstruction(template: Option<string>, latestInstruction: Option<string>, source: Option<string>,
                            triggerType: string, inputText: Option<string>): string
  {
    var lines := Lines(BaseRequest(template, latestInstruction), SourceLabel(source, triggerType),
                       Strip(inputText.GetOr("")));
    Strip(Join(lines, "\n\n"))
  }

  /** Text that `strip` leaves alone: non-empty, no strip-whitespace at
      either end. */
  predicate Clean(s: string) {
    s != [] && !IsStripSpace(s[0]) && !IsStripSpace(s[|s| - 1])
  }

  /** A non-blank stripped text is clean. */
  lemma StrippedIsClean(s: string)
    requires !Blank(Strip(s))
    ensures Clean(Strip(s))
  {
  }

  /** The first line starts, and the last line ends, with no strip-whitespace. */
  predicate CleanEnds(lines: seq<string>) {
    |lines| > 0 && lines[0] != [] && !IsStripSpace(lines[0][0]) &&
    lines[|lines| - 1] != [] && !IsStripSpace(lines[|lines| - 1][|lines[|lines| - 1]| - 1])
  }

  /** Joining lines whose outer ends are clean gives text `strip` leaves alone. */
  lemma StripOfJoined(lines: seq<string>, sep: string)
    requires CleanEnds(lines)
    ensures Strip(Join(lines, sep)) == Join(lines, sep)
  {
    JoinEnds(lines, sep);
    var j := Join(lines, sep);
    var first := lines[0];
    var last := lines[|lines| - 1];
    assert j[0] == j[..|first|][0];
    assert j[|j| - 1] == j[|j| - |last|..][|last| - 1];
    StripOfTrimmed(j);
  }

  /** The outer ends of the instruction's lines are clean when the base
      request and the new context are. */
  lemma LinesEndsClean(base: string, sourceLabel: string, extra: string)
    requires Blank(base) || Clean(base)
    requires Blank(extra) || Clean(extra)
    ensures CleanEnds(Lines(base, sourceLabel, extra))
  {
    var lines := Lines(base, sourceLabel, extra);
    if !Blank(extra) {
      var last := ContextLine(extra);
      assert lines[|lines| - 1] == last;
      assert last[|last| - 1] == extra[|extra| - 1];
    } else {
      var last := SourceLine(sourceLabel);
      assert lines[|lines| - 1] == last;
      assert last[|last| - 1] == '.';
    }
    if Blank(base) {
      assert lines[0] == RegenerateLine;
      assert RegenerateLine[0] == "Regenerate"[0] == 'R';
    }
  }

  /** The final `strip` never removes anything: the instruction is exactly
      the joined lines. */
  lemma InstructionIsJoinedLines(template: Option<string>, latestInstruction: Option<string>,
                                 source: Option<string>, triggerType: string, inputText: Option<string>)
    ensures var lines := Lines(BaseRequest(template, latestInstruction), SourceLabel(source, triggerType),
                               Strip(inputText.GetOr("")));
      BuildInstruction(template, latestInstruction, source, triggerType, inputText) == Join(lines, "\n\n")
  {
    var base := BaseRequest(template, latestInstruction);
    var extra := Strip(inputText.GetOr(""));
    if !Blank(base) {
      if !Blank(Strip(template.GetOr(""))) {
        StrippedIsClean(template.GetOr(""));
      } else {
        StrippedIsClean(latestInstruction.GetOr(""));
      }
    }
    if !Blank(extra) {
      StrippedIsClean(inputText.GetOr(""));
    }
    LinesEndsClean(base, SourceLabel(source, triggerType), extra);
    StripOfJoined(Lines(base, SourceLabel(source, triggerType), extra), "\n\n");
  }

  // ---------------------------------------------------------------- the record

  /** The user message `enqueue_run!` creates, with the settings it stores. */
  datatype QueuedMessage = QueuedMessage(
    id: int, createdById: int, instruction: string, status: string,
    contextTurns: int, contextMaxChars: int, triggerId: int, triggerName: string, triggerType: string)

  /** The message's `settings` hash. */
  function Settings(m: QueuedMessage): seq<(Key, Value)> {
    [(StrKey("context_turns"), Int(m.contextTurns)), (StrKey("context_max_chars"), Int(m.contextMaxChars)),
     (StrKey("trigger"), Hash([(StrKey("id"), Int(m.triggerId)), (StrKey("name"), Str(m.triggerName)),
                               (StrKey("trigger_type"), Str(m.triggerType))]))]
  }

  /** `value || column`: a truthy argument wins over the stored column. */
  function OrColumn(v: Value, column: Option<int>): (r: Value)
    ensures Truthy(v) ==> r == v
  {
    if Truthy(v) then v else if column.Some? then Int(column.value) else Nil
  }

  /** The columns of an `artifact_triggers` row the model reads and writes. */
  datatype Columns = Columns(
    id: int, name: string, triggerType: string, status: string,
    contextTurns: Option<int>, contextMaxChars: Option<int>, instructionTemplate: Option<string>,
    createdById: int, firedCount: Option<int>, lastFiredAt: Option<int>, metadata: Value)

  /** The record's validations. */
  predicate ValidColumns(c: Columns) {
    !Blank(c.name) && c.triggerType in TriggerTypes && c.status in Statuses &&
    c.contextTurns.Some? && MinContextTurns <= c.contextTurns.value <= MaxContextTurns &&
    c.contextMaxChars.Some? && MinContextMaxChars <= c.contextMaxChars.value <= MaxContextMaxChars
  }

  /** `trigger_type.to_s.downcase.strip`, and the same for the status. */
  function NormalizedWord(s: string): string {
    Strip(Downcase(s))
  }

  /** The columns after `normalize_values!`: type and status normalised, the
      context settings clamped (a missing one counts as 0), the metadata a
      hash. */
  function NormalizedColumns(c: Columns): (r: Columns)
    ensures r.contextTurns.Some? && MinContextTurns <= r.contextTurns.value <= MaxContextTurns
    ensures r.contextMaxChars.Some? && MinContextMaxChars <= r.contextMaxChars.value <= MaxContextMaxChars
    ensures c.contextTurns.Some? && MinContextTurns <= c.contextTurns.value <= MaxContextTurns ==>
      r.contextTurns == c.contextTurns
    ensures c.contextMaxChars.Some? && MinContextMaxChars <= c.contextMaxChars.value <= MaxContextMaxChars ==>
      r.contextMaxChars == c.contextMaxChars
    ensures r.metadata.Hash? && (c.metadata.Hash? ==> r.metadata == c.metadata)
    ensures r.id == c.id && r.name == c.name && r.firedCount == c.firedCount && r.createdById == c.createdById
  {
    c.(triggerType := NormalizedWord(c.triggerType), status := NormalizedWord(c.status),
       contextTurns := Some(Clamp(c.contextTurns.GetOr(0), MinContextTurns, MaxContextTurns)),
       contextMaxChars := Some(Clamp(c.contextMaxChars.GetOr(0), MinContextMaxChars, MaxContextMaxChars)),
       metadata := if c.metadata.Hash? then c.metadata else Hash([]))
  }

  /** The message a run of an active trigger creates, when both settings
      convert. */
  function QueuedFor(c: Columns, inputText: Option<string>, firedBy: Option<int>, turnsArg: Value, maxCharsArg: Value,
                     source: Option<string>, latestInstruction: Option<string>, newId: int,
                     strToI: string -> int): (r: Result<QueuedMessage>)
    ensures r.Ok? <==> (c.status == "active" && ClampTurns(OrColumn(turnsArg, c.contextTurns), strToI).Ok? &&
      ClampMaxChars(OrColumn(maxCharsArg, c.contextMaxChars), strToI).Ok?)
    ensures c.status != "active" ==> r == Err(PausedError)
    ensures r.Ok? ==> r.value.id == newId && r.value.status == "queued" && r.value.createdById == firedBy.GetOr(c.createdById)
    ensures r.Ok? ==> MinContextTurns <= r.value.contextTurns <= MaxContextTurns
    ensures r.Ok? ==> MinContextMaxChars <= r.value.contextMaxChars <= MaxContextMaxChars
    ensures r.Ok? ==> r.value.triggerId == c.id && r.value.triggerName == c.name && r.value.triggerType == c.triggerType
    ensures r.Ok? ==> r.value.instruction == BuildInstruction(c.instructionTemplate, latestInstruction, source, c.triggerType, inputText)
  {
    if c.status != "active" then Err(PausedError)
    else
      var turns := ClampTurns(OrColumn(turnsArg, c.contextTurns), strToI);
      var maxChars := ClampMaxChars(OrColumn(maxCharsArg, c.contextMaxChars), strToI);
      if turns.Err? then Err(turns.error)
      else if maxChars.Err? then Err(maxChars.error)
      else Ok(QueuedMessage(newId, firedBy.GetOr(c.createdById),
                            BuildInstruction(c.instructionTemplate, latestInstruction, source, c.triggerType, inputText),
                            "queued", turns.value, maxChars.value, c.id, c.name, c.triggerType))
  }

  /** The columns after `touch_fired_counters!`. */
  function Fired(c: Columns, now: int): (r: Columns)
    ensures r.firedCount == Some(c.firedCount.GetOr(0) + 1) && r.lastFiredAt == Some(now)
    ensures r.(firedCount := c.firedCount, lastFiredAt := c.lastFiredAt) == c
  {
    c.(firedCount := Some(c.firedCount.GetOr(0) + 1), lastFiredAt := Some(now))
  }

  /** An `ArtifactTrigger` record: its columns, which the callbacks and
      `update_columns` rewrite in place. */
  class ArtifactTrigger {
    var columns: Columns

    constructor(c: Columns)
      ensures columns == c
    {
      columns := c;
    }

    predicate Active()
      reads this
    {
      columns.status == "active"
    }

    /** `normalize_values!`, run before every validation. */
    method NormalizeValues()
      modifies this
      ensures columns == NormalizedColumns(old(columns))
    {
      columns := NormalizedColumns(columns);
    }

    /** `enqueue_run!`: a trigger that is not active raises and changes
        nothing; otherwise the clamped settings and the built instruction go
        into a new queued message, its job is enqueued, and the trigger's
        fired count goes up by one. A setting that cannot be converted
        raises before anything is created. */
    method EnqueueRun(inputText: Option<string>, firedBy: Option<int>, turnsArg: Value, maxCharsArg: Value,
                      source: Option<string>, latestInstruction: Option<string>, newId: int, now: int,
                      strToI: string -> int, jobs: JobQueue) returns (r: Result<QueuedMessage>)
      modifies this, jobs
      ensures r == QueuedFor(old(columns), inputText, firedBy, turnsArg, maxCharsArg, source, latestInstruction,
                             newId, strToI)
      ensures r.Err? ==> columns == old(columns) && jobs.enqueued == old(jobs.enqueued)
      ensures r.Ok? ==> columns == Fired(old(columns), now) && jobs.enqueued == old(jobs.enqueued) + [newId]
    {
      r := QueuedFor(columns, inputText, firedBy, turnsArg, maxCharsArg, source, latestInstruction, newId, strToI);
      if r.Ok? {
        QueueAndTouch(r.value.id, now, jobs);
      }
    }

    /** The success half of a run: the job is queued, then the counters are touched. */
    method QueueAndTouch(id: int, now: int, jobs: JobQueue)
      modifies this, jobs
      ensures columns == Fired(old(columns), now) && jobs.enqueued == old(jobs.enqueued) + [id]
    {
      jobs.PerformLater(id);
      TouchFiredCounters(now);
    }

    /** `touch_fired_counters!`. */
    method TouchFiredCounters(now: int)
      modifies this
      ensures columns == Fired(old(columns), now)
    {
      columns := Fired(columns, now);
    }
  }

  // ---------------------------------------------------------------- properties

  /** A run never leaves its message's settings out of range, and a trigger
      whose stored settings are clamped passes them through unchanged. */
  lemma RunKeepsStoredSettings(c: Columns, inputText: Option<string>, firedBy: Option<int>, source: Option<string>,
                               latestInstruction: Option<string>, newId: int, strToI: string -> int)
    requires ValidColumns(c) && c.status == "active"
    ensures var r := QueuedFor(c, inputText, firedBy, Nil, Nil, source, latestInstruction, newId, strToI);
      r.Ok? && r.value.contextTurns == c.contextTurns.value && r.value.contextMaxChars == c.contextMaxChars.value
  {
    StoredSettingsRead(c, strToI);
    QueuedSettings(c, inputText, firedBy, Nil, Nil, source, latestInstruction, newId, strToI);
  }

  /** A queued message carries the two clamped settings. */
  lemma QueuedSettings(c: Columns, inputText: Option<string>, firedBy: Option<int>, turnsArg: Value, maxCharsArg: Value,
                       source: Option<string>, latestInstruction: Option<string>, newId: int, strToI: string -> int)
    requires c.status == "active"
    requires ClampTurns(OrColumn(turnsArg, c.contextTurns), strToI).Ok?
    requires ClampMaxChars(OrColumn(maxCharsArg, c.contextMaxChars), strToI).Ok?
    ensures var r := QueuedFor(c, inputText, firedBy, turnsArg, maxCharsArg, source, latestInstruction, newId, strToI);
      r.Ok? && r.value.contextTurns == ClampTurns(OrColumn(turnsArg, c.contextTurns), strToI).value &&
      r.value.contextMaxChars == ClampMaxChars(OrColumn(maxCharsArg, c.contextMaxChars), strToI).value
  {
    var turns := ClampTurns(OrColumn(turnsArg, c.contextTurns), strToI);
    var maxChars := ClampMaxChars(OrColumn(maxCharsArg, c.contextMaxChars), strToI);
    var instruction := BuildInstruction(c.instructionTemplate, latestInstruction, source, c.triggerType, inputText);
    assert QueuedFor(c, inputText, firedBy, turnsArg, maxCharsArg, source, latestInstruction, newId, strToI) ==
      Ok(QueuedMessage(newId, firedBy.GetOr(c.createdById), instruction, "queued", turns.value, maxChars.value,
                       c.id, c.name, c.triggerType));
  }

  /** With no arguments, the clamps read the stored settings back. */
  lemma StoredSettingsRead(c: Columns, strToI: string -> int)
    requires ValidColumns(c)
    ensures ClampTurns(OrColumn(Nil, c.contextTurns), strToI) == Ok(c.contextTurns.value)
    ensures ClampMaxChars(OrColumn(Nil, c.contextMaxChars), strToI) == Ok(c.contextMaxChars.value)
  {
    assert OrColumn(Nil, c.contextTurns) == Int(c.contextTurns.value);
    assert OrColumn(Nil, c.contextMaxChars) == Int(c.contextMaxChars.value);
  }

  lemma LowerIsNotUpper(c: char)
    ensures !IsUpper(Lower(c))
  {
  }

  lemma {:induction false} NormalizedWordIdempotent(s: string)
    ensures NormalizedWord(NormalizedWord(s)) == NormalizedWord(s)
  {
    var d := Downcase(s);
    var t := Strip(d);
    StripChars(d);
    forall i | 0 <= i < |t|
      ensures !IsUpper(t[i])
    {
      var j :| 0 <= j < |d| && d[j] == t[i];
      LowerIsNotUpper(s[j]);
    }
    assert Downcase(t) == t;
    if t != [] {
      StripOfTrimmed(t);
    }
  }

  /** Normalising twice is normalising once. */
  lemma NormalizeIdempotent(c: Columns)
    ensures NormalizedColumns(NormalizedColumns(c)) == NormalizedColumns(c)
  {
    NormalizedWordIdempotent(c.triggerType);
    NormalizedWordIdempotent(c.status);
  }

  /** Clamping is idempotent: a stored, already clamped setting passes
      through `normalize_values!` and `enqueue_run!` unchanged. */
  lemma ClampTurnsIdempotent(v: Value, strToI: string -> int)
    requires ClampTurns(v, strToI).Ok?
    ensures ClampTurns(Int(ClampTurns(v, strToI).value), strToI) == ClampTurns(v, strToI)
  {
  }

  lemma ClampMaxCharsIdempotent(v: Value, strToI: string -> int)
    requires ClampMaxChars(v, strToI).Ok?
    ensures ClampMaxChars(Int(ClampMaxChars(v, strToI).value), strToI) == ClampMaxChars(v, strToI)
  {
  }
}
