/** `Ai::Context::BuildContext`: the compact text of the last few turns of a
    chat that goes into a model call. Each turn becomes a block "U: …" (and
    "\nA: …" when the assistant replied), blocks run oldest to newest, and the
    oldest blocks are dropped until the joined text fits the character budget. */
module BuildContext {
  import opened Wrappers
  import opened Text
  import opened Values
  import CleanReplyText

  const DefaultTurns: int := 3
  const DefaultMaxChars: int := 3000
  const DefaultUserChars: int := 220
  const DefaultAssistantChars: int := 280
  const Separator: string := "\n\n"

  /** The marker `truncate` appends, as the source file spells it: the three
      characters U+00E2 U+20AC U+00A6, which is the UTF-8 encoding of "…"
      read back as Windows-1252. */
  const EllipsisAsWritten: string := "\U{00E2}\U{20AC}\U{00A6}"
  /** The one-character ellipsis U+2026 the marker stands for. */
  const Ellipsis: string := "\U{2026}"

  datatype AiMessage = AiMessage(content: Value)
  datatype UserMessage = UserMessage(id: int, instruction: Option<string>, content: string, aiMessage: Option<AiMessage>)

  // ---------------------------------------------------------------- text of a turn

  /** `compact`: runs of whitespace become one space, then strip. */
  function Compact(text: string): (r: string)
    ensures |r| <= |text|
  {
    CompactLength(text);
    CompactWhitespace(text)
  }

  lemma CompactLength(text: string)
    ensures |CompactWhitespace(text)| <= |text|
  {
  }

  /** `truncate` as written: over the limit it keeps `max - 1` characters and
      appends the three-character marker, so the result is `max + 2` long. */
  function TruncateAsWritten(text: string, max: int): (r: string)
    ensures max <= 0 ==> r == []
    ensures 0 < max && |text| <= max ==> r == text
    ensures 0 < max ==> |r| <= max + 2
    ensures r == [] <==> (max <= 0 || text == [])
  {
    if max <= 0 then []
    else if |text| <= max then text
    else text[..max - 1] + EllipsisAsWritten
  }

  /** The marker breaks the limit `truncate` is meant to keep. */
  lemma TruncateAsWrittenOverflows(text: string, max: int)
    requires 0 < max < |text|
    ensures |TruncateAsWritten(text, max)| == max + 2
    ensures TruncateAsWritten(text, max) == text[..max - 1] + "\U{00E2}\U{20AC}\U{00A6}"
  {
  }

  /** `truncate` with the one-character ellipsis: never longer than `max`. */
  function Truncate(text: string, max: int): (r: string)
    ensures max <= 0 ==> r == []
    ensures 0 < max ==> |r| <= max
    ensures 0 < max && |text| <= max ==> r == text
    ensures 0 < max < |text| ==> |r| == max && r[..max - 1] == text[..max - 1] && r[max - 1] == '\U{2026}'
    ensures r == [] <==> (max <= 0 || text == [])
  {
    if max <= 0 then []
    else if |text| <= max then text
    else text[..max - 1] + Ellipsis
  }

  /** `extract_user_text`: the instruction when present, else the content. */
  function UserText(um: UserMessage): string {
    if um.instruction.Some? && !Blank(um.instruction.value) then um.instruction.value else um.content
  }

  /** `extract_assistant_text`: the cleaned `content["text"]` of the reply. */
  function AssistantText(um: UserMessage, parse: string -> Option<Value>, inspect: Value -> string): string {
    match um.aiMessage
    case None => ""
    case Some(ai) =>
      var content := if ai.content.Hash? then ai.content.entries else [];
      CleanReplyText.Clean(ToS(Get(content, StrKey("text")).GetOr(Str("")), inspect), parse)
  }

  /** `block_for`. */
  function BlockFor(um: UserMessage, parse: string -> Option<Value>, inspect: Value -> string): (r: Option<string>)
    ensures r.None? <==> Compact(UserText(um)) == []
    ensures r.Some? ==> StartsWith(r.value, "U: " + TruncateAsWritten(Compact(UserText(um)), DefaultUserChars))
    ensures r.Some? ==> |r.value| <= 3 + (DefaultUserChars + 2) + 4 + (DefaultAssistantChars + 2)
  {
    var userText := Compact(UserText(um));
    if userText == [] then None
    else Some(Block(userText, Compact(AssistantText(um, parse, inspect))))
  }

  /** The block of a turn with user text: the user line, and the assistant
      line only when the reply has text. Each side is cut by `truncate` as
      written, so it may run two characters past its limit. */
  function Block(userText: string, assistantText: string): (r: string)
    ensures StartsWith(r, "U: " + TruncateAsWritten(userText, DefaultUserChars))
    ensures |r| <= 3 + (DefaultUserChars + 2) + 4 + (DefaultAssistantChars + 2)
    ensures assistantText == [] ==> r == "U: " + TruncateAsWritten(userText, DefaultUserChars)
    ensures assistantText != [] && |userText| <= DefaultUserChars && |assistantText| <= DefaultAssistantChars ==>
      r == "U: " + userText + "\nA: " + assistantText
  {
    var u := TruncateAsWritten(userText, DefaultUserChars);
    var a := TruncateAsWritten(assistantText, DefaultAssistantChars);
    var block := if a == [] then "U: " + u else "U: " + u + "\nA: " + a;
    assert block[..3 + |u|] == "U: " + u;
    block
  }

  /** `user_messages.map { |um| block_for(um) }.compact`. */
  function Blocks(messages: seq<UserMessage>, parse: string -> Option<Value>, inspect: Value -> string): (r: seq<string>)
    ensures r == FilterMap(messages, m => BlockFor(m, parse, inspect))
  {
    if messages == [] then []
    else
      var rest := Blocks(messages[1..], parse, inspect);
      match BlockFor(messages[0], parse, inspect)
      case None => rest
      case Some(b) => [b] + rest
  }

  /** `map { … }.compact` for any per-item function. */
  function FilterMap<T, U>(items: seq<T>, f: T -> Option<U>): (r: seq<U>)
    ensures |r| <= |items|
  {
    if items == [] then []
    else match f(items[0])
      case None => FilterMap(items[1..], f)
      case Some(b) => [b] + FilterMap(items[1..], f)
  }

  /** `compact` keeps exactly the present values: each kept value is that of
      some item, and every item with a value has it kept. */
  lemma {:induction false} FilterMapSpec<T, U>(items: seq<T>, f: T -> Option<U>)
    ensures var r := FilterMap(items, f);
      (forall i :: 0 <= i < |r| ==> exists j :: 0 <= j < |items| && f(items[j]) == Some(r[i])) &&
      (forall j :: 0 <= j < |items| && f(items[j]).Some? ==> f(items[j]).value in r)
  {
    if items != [] {
      FilterMapSpec(items[1..], f);
      var rest := FilterMap(items[1..], f);
      var r := FilterMap(items, f);
      forall i | 0 <= i < |r| ensures exists j :: 0 <= j < |items| && f(items[j]) == Some(r[i]) {
        if f(items[0]).Some? && i == 0 {
          assert f(items[0]) == Some(r[0]);
        } else {
          var k := if f(items[0]).Some? then i - 1 else i;
          assert r[i] == rest[k];
          var j :| 0 <= j < |items[1..]| && f(items[1..][j]) == Some(rest[k]);
          assert items[1..][j] == items[j + 1];
        }
      }
      forall j | 0 <= j < |items| && f(items[j]).Some? ensures f(items[j]).value in r {
        if j > 0 {
          assert items[j] == items[1..][j - 1];
        }
      }
    }
  }

  /** The turns the query selects: the chat's messages (given in id order)
      without the excluded one, the last `turns` of them, oldest first. */
  function Recent(history: seq<UserMessage>, exclude: Option<int>, turns: nat): (r: seq<UserMessage>)
    ensures |r| <= turns
    ensures forall i :: 0 <= i < |r| ==> r[i] in history && (exclude.Some? ==> r[i].id != exclude.value)
    ensures var kept := Kept(history, exclude);
      (|r| == turns || |r| == |kept|) && |r| <= |kept| && r == kept[|kept| - |r|..]
  {
    var kept := Kept(history, exclude);
    var n := if turns < |kept| then turns else |kept|;
    kept[|kept| - n..]
  }

  function Kept(history: seq<UserMessage>, exclude: Option<int>): (r: seq<UserMessage>)
    ensures forall i :: 0 <= i < |r| ==> r[i] in history && (exclude.Some? ==> r[i].id != exclude.value)
    ensures exclude.None? ==> r == history
  {
    if history == [] then []
    else
      var rest := Kept(history[1..], exclude);
      if exclude.Some? && history[0].id == exclude.value then rest else [history[0]] + rest
  }

  // ---------------------------------------------------------------- the budget

  /** The blocks the shift loop of `drop_oldest_until_fits` leaves. */
  function Dropped(blocks: seq<string>, maxChars: int): (r: seq<string>)
    ensures |r| <= |blocks| && r == blocks[|blocks| - |r|..]
    ensures blocks != [] ==> r != []
    ensures |r| <= 1 || |Join(r, Separator)| <= maxChars
  {
    if |blocks| > 1 && |Join(blocks, Separator)| > maxChars then Dropped(blocks[1..], maxChars) else blocks
  }

  /** `drop_oldest_until_fits`: the dropped blocks when they fit, else the last
      `maxChars` characters of what is left. */
  function Fit(blocks: seq<string>, maxChars: int): (r: seq<string>)
    requires maxChars > 0
    ensures |Join(r, Separator)| <= maxChars
  {
    var kept := Dropped(blocks, maxChars);
    var joined := Join(kept, Separator);
    if |joined| <= maxChars then kept
    else [joined[|joined| - maxChars..]]
  }

  /** `drop_oldest_until_fits`, shifting the oldest block off in place. */
  method DropOldestUntilFits(blocks: seq<string>, maxChars: int) returns (r: seq<string>)
    requires maxChars > 0
    ensures r == Fit(blocks, maxChars)
  {
    var bs := blocks;
    while |bs| > 1 && |Join(bs, Separator)| > maxChars
      invariant Dropped(bs, maxChars) == Dropped(blocks, maxChars)
      decreases |bs|
    {
      bs := bs[1..];
    }
    var joined := Join(bs, Separator);
    if |joined| <= maxChars {
      return bs;
    }
    return [joined[|joined| - maxChars..]];
  }

  /** `BuildContext#call`. */
  function Call(history: seq<UserMessage>, exclude: Option<int>, turns: int, maxChars: int,
                parse: string -> Option<Value>, inspect: Value -> string): (r: string)
    ensures turns <= 0 || maxChars <= 0 ==> r == []
    ensures maxChars > 0 ==> |r| <= maxChars
    ensures turns > 0 && maxChars > 0 ==>
      var blocks := Blocks(Recent(history, exclude, turns), parse, inspect);
      |Join(blocks, Separator)| <= maxChars ==> r == Strip(Join(blocks, Separator))
  {
    if turns <= 0 || maxChars <= 0 then []
    else Strip(Join(Fit(Blocks(Recent(history, exclude, turns), parse, inspect), maxChars), Separator))
  }

  // ---------------------------------------------------------------- properties

  /** Blocks keep the order of their turns: the block of a turn with text
      comes before the blocks of every later turn. */
  lemma BlocksCons(m: UserMessage, rest: seq<UserMessage>, parse: string -> Option<Value>, inspect: Value -> string)
    ensures Blocks([m] + rest, parse, inspect) ==
      (if Compact(UserText(m)) == [] then Blocks(rest, parse, inspect)
       else [BlockFor(m, parse, inspect).value] + Blocks(rest, parse, inspect))
  {
    assert ([m] + rest)[1..] == rest;
  }

  /** The loop drops the oldest blocks and no more: each block list it shifted
      away had more than one block and did not fit. */
  lemma {:induction false} DroppedIsMinimal(blocks: seq<string>, maxChars: int, k: nat)
    requires k < |blocks| - |Dropped(blocks, maxChars)|
    ensures |blocks[k..]| > 1 && |Join(blocks[k..], Separator)| > maxChars
    decreases k
  {
    if k > 0 {
      assert |blocks| > 1 && |Join(blocks, Separator)| > maxChars;
      DroppedIsMinimal(blocks[1..], maxChars, k - 1);
      assert blocks[1..][k - 1..] == blocks[k..];
    }
  }

  /** Blocks that already fit are kept as they are. */
  lemma FitKeepsFittingBlocks(blocks: seq<string>, maxChars: int)
    requires maxChars > 0 && |Join(blocks, Separator)| <= maxChars
    ensures Fit(blocks, maxChars) == blocks
  {
  }

  /** A last block alone over the budget keeps its last `maxChars` characters. */
  lemma FitCutsSingleBlock(block: string, maxChars: int)
    requires 0 < maxChars < |block|
    ensures Fit([block], maxChars) == [block[|block| - maxChars..]]
  {
    assert Dropped([block], maxChars) == [block];
    assert Join([block], Separator) == block;
  }

  /** The newest block is never dropped: the fitted text ends with it, or
      with its last `maxChars` characters. */
  lemma FitKeepsNewest(blocks: seq<string>, maxChars: int)
    requires maxChars > 0 && blocks != []
    ensures var r := Fit(blocks, maxChars);
      |r| == 1 || r[|r| - 1] == blocks[|blocks| - 1]
  {
    var kept := Dropped(blocks, maxChars);
    FitIsDroppedOrCut(blocks, maxChars);
    var n := |blocks| - |kept|;
    assert kept == blocks[n..];
    assert kept[|kept| - 1] == blocks[|blocks| - 1];
  }

  /** The fitted blocks are the dropped ones, or a single cut block. */
  lemma FitIsDroppedOrCut(blocks: seq<string>, maxChars: int)
    requires maxChars > 0
    ensures Fit(blocks, maxChars) == Dropped(blocks, maxChars) || |Fit(blocks, maxChars)| == 1
  {
  }

  /** An empty chat, or one whose turns all lack user text, gives "". */
  lemma NoTurnsNoContext(history: seq<UserMessage>, exclude: Option<int>, turns: int, maxChars: int,
                         parse: string -> Option<Value>, inspect: Value -> string)
    requires forall i :: 0 <= i < |history| ==> Compact(UserText(history[i])) == []
    ensures Call(history, exclude, turns, maxChars, parse, inspect) == []
  {
    if turns > 0 && maxChars > 0 {
      var recent := Recent(history, exclude, turns);
      NoBlocks(recent, parse, inspect);
    }
  }

  lemma {:induction false} NoBlocks(messages: seq<UserMessage>, parse: string -> Option<Value>, inspect: Value -> string)
    requires forall i :: 0 <= i < |messages| ==> Compact(UserText(messages[i])) == []
    ensures Blocks(messages, parse, inspect) == []
  {
    if messages != [] {
      NoBlocks(messages[1..], parse, inspect);
    }
  }
}
