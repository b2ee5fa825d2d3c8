# evidentai core, modelled in Dafny

This project models the deterministic core of the evidentai Rails
application. evidentai is a chat assistant that answers a user message with a
streamed reply, a regenerated HTML "artifact" (with an optional inert dataset
and charts), an intent record and a few proposed actions. The language
models, the database, Turbo broadcasts, the HTML parser, JSON parsing and
hashing stay outside. What is left is modelled module by module, and its
properties are proved:

- **Formula engine** (`ComputedCells`, `ComputedCellsProperties`). It covers
  the tokenizer and the recursive-descent parser for `+ - * /`, parentheses,
  unary minus, decimals and spreadsheet letters. Evaluation is per row, over
  a copy of the dataset, and a failing formula nulls only its own cell. The
  service is a class whose token cursor and row writes are imperative, as in
  the Ruby, and each method is proved to compute the grammar's functions.
- **Action catalogs** (`ActionPayloads`, `Catalog`, `LegacyCatalog`). These
  hold the action types, the key checks, the per-type rules, normalisation
  and defaults.
- **Proposed actions** (`ExtractProposed`). Acknowledgements are detected,
  the reply is normalised, and the message's actions are replaced inside
  one transaction, modelled as a store object.
- **Web data resolution** (`SourceCacheKey`, `ResolveAvailableData`). This is
  the `not_needed` / `use_cache` / `search` / `search_failed` decision over a
  per-chat cache.
- **Context window** (`BuildContext`). Blocks are built per turn, and the
  oldest are dropped until the text fits.
- **Text transforms**:
  - `ConfirmCurrentRequest`, `CleanReplyText` and `HumanizeError`;
  - `Harden`, for link attributes, updated in place;
  - `ShortLabel` and `Pricing`;
  - `ProposedActionsHelper`, for suggestion filtering;
  - `AssumedDefaults`.
- **Records and state machines**:
  - `Messages`, `PersistReply`, `RetryUserMessage` and `Jobs`;
  - `TrackRequest`, the usage-row lifecycle;
  - `ArtifactTriggers` and `ArtifactTriggersApi`, the trigger settings,
    instruction building, firing and the bearer-token check;
  - `Chats`, the title predicates.
- **Pipeline** (`ProcessContext`, `ChatReplyStep`, `IntentExtract`,
  `ProcessUserMessage`, `RunUserMessage`). This covers step order, the
  artifact gate, delta accumulation with the ten-character broadcast
  throttle, failure and re-raise, and the rule that a dataset the user
  locked is never overwritten.
- **Datasets** (`DatasetExtract`, `InjectVisuals`). This covers dataset
  validation, size and scheme guards, and the bar-chart computation.

`Values` is the Ruby value model: nil, booleans, Integer, Float as a real,
String, Array, and Hash with ordered String or Symbol keys. `Text` gives
Ruby's string primitives, with its three notions of whitespace kept apart.
`Patterns` has the regular-expression shapes. `Wrappers` has `Option` and
`Result`.

`Ai::ProcessUserMessage` runs the actions step before the artifact step
(app/services/ai/process_user_message.rb:14-19), while its own test,
test/services/ai/process_user_message_test.rb:20, expects the artifact step
first. `ProcessUserMessage.StepsOrdered` states the order the code runs.
Where the code has a defect, the services are modelled as written, and the
corrected reading is defined only beside its entry under "## Findings".

## Model

| member | source | states |
|---|---|---|
| Values.Get | app/services/ai/artifacts/dataset/computed_cells.rb:302-306 | Some exactly when the key is present |
| Values.HashSet | app/services/ai/artifacts/dataset/computed_cells.rb:69 | the key reads back the new value, every other key is unchanged, an existing key keeps its place |
| Values.DeepCopy | app/services/ai/artifacts/dataset/computed_cells.rb:39 | kind and array length are preserved; scalars are returned as they are |
| Values.GetFirst | app/services/ai/artifacts/dataset/computed_cells.rb:305 | the value `hash[k]` finds is that of the first entry with the key |
| Values.DeepCopyShaped | app/services/ai/artifacts/dataset/computed_cells.rb:39 | the JSON round trip leaves every Hash, at any depth, with distinct String keys |
| Values.DeepCopyOfShaped | app/services/ai/artifacts/dataset/computed_cells.rb:39 | a value already so shaped is copied unchanged |
| Values.DeepCopyIdempotent | app/services/ai/artifacts/dataset/computed_cells.rb:39 | copying twice is copying once |
| ComputedCells.Tokenize | app/services/ai/artifacts/dataset/computed_cells.rb:91-132 | the while loop produces exactly `Lex(formula)` |
| ComputedCells.Lex | app/services/ai/artifacts/dataset/computed_cells.rb:91-132 | every token of a successful lex is well formed |
| ComputedCells.LettersToIndex | app/services/ai/artifacts/dataset/computed_cells.rb:233-241 | the loop computes `LetterIndex` |
| ComputedCells.LetterIndex | app/services/ai/artifacts/dataset/computed_cells.rb:233-241 | Ok exactly for all-capital text, and then non-negative for a non-empty name |
| ComputedCells.SetCell | app/services/ai/artifacts/dataset/computed_cells.rb:69 | the row grows to the index, the cell holds the value, other cells are kept and gaps are nil |
| ComputedCells.CoerceNumeric | app/services/ai/artifacts/dataset/computed_cells.rb:202-210 | numbers as they are, text only when it is a signed decimal, nil/booleans/arrays/hashes never |
| ComputedCells.Expression | app/services/ai/artifacts/dataset/computed_cells.rb:134-143 | a success consumes at least one token and stays within the list |
| ComputedCells.Term | app/services/ai/artifacts/dataset/computed_cells.rb:145-161 | a success consumes at least one token and stays within the list |
| ComputedCells.Factor | app/services/ai/artifacts/dataset/computed_cells.rb:163-191 | a success consumes at least one token and stays within the list |
| ComputedCells.Trunc | app/services/ai/artifacts/dataset/computed_cells.rb:215 | truncation toward zero: within 1 of the value, with its sign |
| ComputedCells.Round6 | app/services/ai/artifacts/dataset/computed_cells.rb:218 | within 5e-7 of the value |
| ComputedCells.NormalizeAsWritten | app/services/ai/artifacts/dataset/computed_cells.rb:212-219 | as written (integer part by `to_i`): an Integer only within 1e-9, else a Float within 5e-7 |
| ComputedCells.Normalize | app/services/ai/artifacts/dataset/computed_cells.rb:212-219 | the corrected reading (rounding, not `to_i`): an Integer only within 1e-9, else a Float within 5e-7 |
| ComputedCells.IndexFromText | app/services/ai/artifacts/dataset/computed_cells.rb:273-282 | an index read from text is never negative |
| ComputedCells.ParseIndex | app/services/ai/artifacts/dataset/computed_cells.rb:269-283 | an Integer as it is; nil, floats, arrays and hashes give none |
| ComputedCells.ColumnSpec | app/services/ai/artifacts/dataset/computed_cells.rb:253-265 | a spec is kept only with a non-blank formula and an index inside the schema |
| ComputedCells.CollectColumns | app/services/ai/artifacts/dataset/computed_cells.rb:250-266 | distinct indexes, none already seen, all inside the schema, formulas non-blank |
| ComputedCells.NormalizedComputedColumns | app/services/ai/artifacts/dataset/computed_cells.rb:246-267 | distinct in-range indexes with non-blank formulas |
| ComputedCells.RowsApplied | app/services/ai/artifacts/dataset/computed_cells.rb:65-73 | one result row per input row (the pass when no formula raises the RangeError) |
| ComputedCells.DatasetApplied | app/services/ai/artifacts/dataset/computed_cells.rb:57-74 | only the rows key may change (the dataset when none of its rows raises the RangeError) |
| ComputedCells.Applied | app/services/ai/artifacts/dataset/computed_cells.rb:36-53 | anything but a Hash is returned as it is, a Hash gives a Hash; when a formula raises the unrescued RangeError the input itself comes back (`LongReferenceKeepsInput`) |
| ComputedCells.Apply | app/services/ai/artifacts/dataset/computed_cells.rb:23-25 | computes `Applied` of the input, including the input itself after the RangeError |
| ComputedCells.ComputedCells.Call | app/services/ai/artifacts/dataset/computed_cells.rb:36-53 | computes `Applied` of the object's input: the datasets applied, or the input itself when a dataset raises the RangeError |
| ComputedCells.ComputedCells.ApplyDataset | app/services/ai/artifacts/dataset/computed_cells.rb:57-74 | reports a raise exactly when one of the dataset's rows raises the RangeError, and otherwise computes `DatasetApplied` |
| ComputedCells.ComputedCells.ApplyRows | app/services/ai/artifacts/dataset/computed_cells.rb:65-73 | reports a raise exactly when some Array row raises the RangeError; otherwise the loop over rows computes `RowsApplied` |
| ComputedCells.ComputedCells.ApplyColumns | app/services/ai/artifacts/dataset/computed_cells.rb:68-72 | a ParseError or NonNumericReference nulls its cell; the RangeError stops the loop and is reported (exactly `ColumnsRaise`); otherwise the loop computes `ColumnsApplied` |
| ComputedCells.ComputedCells.EvaluateFormulaForRow | app/services/ai/artifacts/dataset/computed_cells.rb:76-89 | the result is `FormulaResult` (a value normalised as written, a rescued error, or the RangeError), and the cursor state is reset afterwards |
| ComputedCells.ComputedCells.ParseExpression | app/services/ai/artifacts/dataset/computed_cells.rb:134-143 | the cursor method agrees with `Expression`: same value or error, cursor after the expression |
| ComputedCells.ComputedCells.ParseTerm | app/services/ai/artifacts/dataset/computed_cells.rb:145-161 | agrees with `Term` |
| ComputedCells.ComputedCells.ParseFactor | app/services/ai/artifacts/dataset/computed_cells.rb:163-191 | agrees with `Factor` |
| ComputedCells.ComputedCells.ReferenceValue | app/services/ai/artifacts/dataset/computed_cells.rb:193-200 | agrees with `Reference`: an index of 2^63 or more is the RangeError of `@row[index]` |
| ComputedCellsProperties.LetterIndexOfColumnName | app/services/ai/artifacts/dataset/computed_cells.rb:233-241 | every column name reads back as its index |
| ComputedCellsProperties.ColumnNameOfLetterIndex | app/services/ai/artifacts/dataset/computed_cells.rb:233-241 | every capital run is the name of the index it reads as (bijective base 26) |
| ComputedCellsProperties.LetterIndexExamples | app/services/ai/artifacts/dataset/computed_cells.rb:233-241 | A is 0, Z 25, AA 26, AZ 51, BA 52; a lower-case or digit character is "Invalid ref" |
| ComputedCellsProperties.LexRender | app/services/ai/artifacts/dataset/computed_cells.rb:91-132 | lexing a token list printed with spaces gives the list back |
| ComputedCellsProperties.LexRejectsForeign | app/services/ai/artifacts/dataset/computed_cells.rb:128 | any character outside the grammar makes the formula fail |
| ComputedCellsProperties.LexRejectsMalformedNumber | app/services/ai/artifacts/dataset/computed_cells.rb:103-107 | a digits-and-dots run that is not a decimal is "Invalid number" |
| ComputedCellsProperties.MalformedNumberExamples | app/services/ai/artifacts/dataset/computed_cells.rb:107 | "1.2.3", "7." and ".5" are invalid numbers |
| ComputedCellsProperties.FactorOfPrint | app/services/ai/artifacts/dataset/computed_cells.rb:134-191 | the parser evaluates any expression tree, printed with parentheses, to the tree's value, at any position |
| ComputedCellsProperties.EvaluationOfRendered | app/services/ai/artifacts/dataset/computed_cells.rb:76-84 | the formula text of a tree evaluates to the tree's value |
| ComputedCellsProperties.LeftoverToken | app/services/ai/artifacts/dataset/computed_cells.rb:82 | a token left after a complete expression is "Unexpected token" |
| ComputedCellsProperties.ProductBindsTighter | app/services/ai/artifacts/dataset/computed_cells.rb:134-161 | `x + y * z` is `x + (y * z)` |
| ComputedCellsProperties.DifferenceAssociatesLeft | app/services/ai/artifacts/dataset/computed_cells.rb:134-143 | `x - y - z` is `(x - y) - z` |
| ComputedCellsProperties.MissingParenthesis | app/services/ai/artifacts/dataset/computed_cells.rb:169-172 | `( x` is "Missing ')'" |
| ComputedCellsProperties.DanglingOperator | app/services/ai/artifacts/dataset/computed_cells.rb:190 | `x +` is "Expected value" |
| ComputedCellsProperties.NormalizeNearInteger | app/services/ai/artifacts/dataset/computed_cells.rb:212-219 | with the corrected reading, a value within 1e-9 of an integer becomes that Integer |
| ComputedCellsProperties.NormalizeDiffersOnlyNearIntegers | app/services/ai/artifacts/dataset/computed_cells.rb:215-216 | the written and the corrected normalisation differ only where the written one keeps a Float |
| ComputedCellsProperties.NormalizeAsWrittenMissesValueBelowInteger | app/services/ai/artifacts/dataset/computed_cells.rb:215-216 | 435 - 1e-12 stays the Float 435.0 as written, and is the Integer 435 corrected |
| ComputedCellsProperties.NormalizeAsWrittenOfInteger | app/services/ai/artifacts/dataset/computed_cells.rb:215-216 | an integral result is that Integer under the reading as written too |
| ComputedCellsProperties.DifferenceOfIntegers | app/services/ai/artifacts/dataset/computed_cells.rb:134-160 | "A - B" on two Integer cells is their difference, an Integer under the normalisation as written |
| ComputedCellsProperties.DifferenceExamples | app/services/ai/artifacts/dataset/computed_cells.rb:8 | "A - B" gives 90 on [120, 30] and -15 on [80, 95], as Integers |
| ComputedCellsProperties.DivideByZeroExample | app/services/ai/artifacts/dataset/computed_cells.rb:155 | "A / B" on [1, 0] is "Divide by zero" |
| ComputedCellsProperties.NonNumericFirstCell | app/services/ai/artifacts/dataset/computed_cells.rb:193-210 | "A" on a row whose first cell does not coerce to a number is "Non-numeric reference" |
| ComputedCellsProperties.BlankCellExample | app/services/ai/artifacts/dataset/computed_cells.rb:193-210 | a blank text cell is a non-numeric reference |
| ComputedCellsProperties.BooleanCellExample | app/services/ai/artifacts/dataset/computed_cells.rb:193-210 | a boolean cell is a non-numeric reference |
| ComputedCellsProperties.MissingCellExample | app/services/ai/artifacts/dataset/computed_cells.rb:195-197 | a reference beyond the row reads nil and fails |
| ComputedCellsProperties.FailureNullsOnlyItsCell | app/services/ai/artifacts/dataset/computed_cells.rb:68-72 | a formula failing with a rescued error (anything but the RangeError) does not abort the pass, writes nil into its own cell and leaves every other cell as it was |
| ComputedCellsProperties.LettersValueBounds | app/services/ai/artifacts/dataset/computed_cells.rb:233-241 | a run of n capitals has a value between 26^(n-1) and 2*26^n - 2 |
| ComputedCellsProperties.LongReferenceRaises | app/services/ai/artifacts/dataset/computed_cells.rb:193-197 | a reference of 15 or more letters has an index beyond a C long, so `@row[index]` raises the RangeError |
| ComputedCellsProperties.ShortReferenceReads | app/services/ai/artifacts/dataset/computed_cells.rb:193-200 | a reference of at most 13 letters fits a C long, and reads its cell: it succeeds exactly when the cell coerces to a number |
| ComputedCellsProperties.LongReferenceAbortsRow | app/services/ai/artifacts/dataset/computed_cells.rb:68-72 | such a reference is not rescued by the cell: the pass over the row raises |
| ComputedCellsProperties.LongReferenceKeepsInput | app/services/ai/artifacts/dataset/computed_cells.rb:36-53 | when a row of a dataset has such a first formula, `call` returns the input it was given, no column applied |
| ComputedCellsProperties.CellValueOutside | app/services/ai/artifacts/dataset/computed_cells.rb:193-200 | a formula's value depends only on the cells it references |
| ComputedCellsProperties.ColumnsAppliedIdempotent | app/services/ai/artifacts/dataset/computed_cells.rb:65-73 | with distinct indexes and no formula reading a computed column, two passes equal one |
| ComputedCellsProperties.RowsAppliedIdempotent | app/services/ai/artifacts/dataset/computed_cells.rb:65-73 | the same for every row of a dataset |
| ComputedCellsProperties.RowsAppliedSpec | app/services/ai/artifacts/dataset/computed_cells.rb:65-73 | a non-Array row is kept; an Array row never shrinks and keeps every cell outside the computed indexes; with distinct indexes and no formula reading a computed column each computed cell holds its formula's value on the original row |
| ComputedCellsProperties.DatasetAppliedIdempotent | app/services/ai/artifacts/dataset/computed_cells.rb:57-74 | `apply_dataset!` twice equals once under the same condition |
| ComputedCellsProperties.ForwardReferenceNotIdempotent | app/services/ai/artifacts/dataset/computed_cells.rb:65-73 | a formula reading a column computed after it changes on the second pass |
| ComputedCellsProperties.IndexFromColumnName | app/services/ai/artifacts/dataset/computed_cells.rb:278 | `parse_index` reads a column name as its index |
| ComputedCellsProperties.IndexFromLowerColumnName | app/services/ai/artifacts/dataset/computed_cells.rb:278 | the same for the lower-case name |
| ComputedCellsProperties.IndexFromNumeral | app/services/ai/artifacts/dataset/computed_cells.rb:276 | `parse_index` reads a decimal numeral as its value |
| ComputedCellsProperties.CollectColumnsComplete | app/services/ai/artifacts/dataset/computed_cells.rb:252-266 | every valid spec's index ends up among the columns |
| ComputedCellsProperties.CollectColumnsFirstWins | app/services/ai/artifacts/dataset/computed_cells.rb:262-265 | each kept column is the spec of the first entry naming its index |
| Values.TruncateReal | app/services/ai/usage/track_request.rb:205 | a float's `to_i` lies within one of it, truncated toward zero on either side |
| Values.ToI | app/services/ai/usage/track_request.rb:205 | conversion succeeds exactly for integers, floats, strings and nil (nil gives 0, an integer itself); booleans, arrays and hashes raise |
| TrackRequest.KeyValue | app/services/ai/usage/track_request.rb:198-203 | a non-Hash object yields nil |
| TrackRequest.TokenValue | app/services/ai/usage/track_request.rb:196-209 | when every key is blank the count is 0 |
| TrackRequest.TokenValueFirstPresent | app/services/ai/usage/track_request.rb:197-206 | the count is the first present key's value, whatever later keys hold |
| TrackRequest.NormalizeUsage | app/services/ai/usage/track_request.rb:166-173 | input from input/prompt tokens, output from output/completion tokens, a non-zero total kept, a zero total replaced by input + output when either is positive; fails exactly when a count cannot be converted |
| TrackRequest.ExtractUsage | app/services/ai/usage/track_request.rb:175-194 | always a hash, either empty or holding the three counts |
| TrackRequest.ExtractThenNormalize | app/services/ai/usage/track_request.rb:94 | counts lifted from a raw response are read back unchanged by normalisation |
| TrackRequest.CostFor | app/services/ai/usage/track_request.rb:235-240 | never negative, and zero exactly when there are no tokens or no positive rate |
| TrackRequest.CostAdditive | app/services/ai/usage/track_request.rb:239 | the cost of a + b tokens is the sum of the costs of a and of b |
| TrackRequest.CostMonotone | app/services/ai/usage/track_request.rb:235-240 | more tokens never cost less |
| TrackRequest.ResolveChat | app/services/ai/usage/track_request.rb:151-153 | the given chat wins; none only when no chat, user message or AI message's user message is given |
| TrackRequest.Presence | app/services/ai/usage/track_request.rb:64 | `presence` keeps exactly the non-blank text |
| TrackRequest.OrAssign | app/services/ai/usage/track_request.rb:157-160 | `||=` keeps a truthy value, sets the key otherwise, and touches no other key |
| TrackRequest.Compact | app/services/ai/usage/track_request.rb:161 | no entry holds nil and every entry comes from the input |
| TrackRequest.Snapshot | app/services/ai/usage/track_request.rb:155-161 | String keys and no nil value; each of the four snapshot keys holds the caller's truthy value, else the record's value, and is absent when that is nil; every other key is the caller's, nil ones dropped |
| TrackRequest.FillsReads | app/services/ai/usage/track_request.rb:157-160 | after the four `||=` each snapshot key holds the caller's truthy value or the fill, and every other key is unchanged |
| TrackRequest.OrAssignKeys | app/services/ai/usage/track_request.rb:157-160 | `||=` keeps the keys distinct and String keys only |
| TrackRequest.GetCompact | app/services/ai/usage/track_request.rb:161 | `compact` hides exactly the nil values and keeps only entries of the input |
| TrackRequest.SnapshotKeys | app/services/ai/usage/track_request.rb:156-161 | the compacted snapshot reads each key as the filled hash with nils hidden, and has String keys only |
| TrackRequest.SnapshotChatId | app/services/ai/usage/track_request.rb:158 | the chat id snapshot is the caller's when set, else the chat's |
| TrackRequest.StartedRow | app/services/ai/usage/track_request.rb:57-72 | a new row is running, with no request id, no counts, no cost and no completion time |
| TrackRequest.Start | app/services/ai/usage/track_request.rb:44-76 | no row exactly when there is no chat or request kind or provider is blank (the model's validations); otherwise a fresh valid running row with the snapshot metadata |
| TrackRequest.FinalModel | app/services/ai/usage/track_request.rb:89-92 | a non-blank given model wins; the model recorded is never blank |
| TrackRequest.RawText | app/services/ai/usage/track_request.rb:211-233 | a present, non-blank text, and none for a response that is not a hash |
| TrackRequest.FinalRequestId | app/services/ai/usage/track_request.rb:105 | a non-blank given id wins; the stored id is only lost if there was none |
| TrackRequest.FinishedRow | app/services/ai/usage/track_request.rb:99-121 | completed at the given time with the normalised counts; each stored cost within half a millionth of its tokens at the model's rate, nothing for no tokens, never negative; the total within a millionth of the two stored costs; chat, user message, kind and request time kept, validity preserved |
| TrackRequest.Finish | app/services/ai/usage/track_request.rb:78-126 | no row, nothing; a count that cannot be converted, or a finished row the columns cannot hold (`update!` raises), leaves the row unchanged and returns nil; otherwise the row becomes the finished row |
| TrackRequest.FailureMetadata | app/services/ai/usage/track_request.rb:131-132 | the error stored is the message, or "request_failed" when it is blank |
| TrackRequest.FailedRow | app/services/ai/usage/track_request.rb:134-142 | failed at the given time, counts, costs, model, chat and request id kept, validity preserved |
| TrackRequest.Fail | app/services/ai/usage/track_request.rb:128-147 | with a row, the row becomes the failed row; the row is returned |
| TrackRequest.Call | app/services/ai/usage/track_request.rb:5-42 | a row is returned exactly when there is a chat, kind and provider are present, the counts convert and the finished row fits its columns; it is then new, valid, storable and completed |
| TrackRequest.Millionths | db/migrate/20260209173500_create_ai_request_usages.rb:18-22 | the millionths kept of an amount, within one half of it |
| TrackRequest.Scaled | db/migrate/20260209173500_create_ai_request_usages.rb:18-22 | the stored amount is a whole number of millionths within half a millionth of the amount, never negative for a non-negative amount and zero for zero |
| TrackRequest.RoundedSumWithinMillionth | app/services/ai/usage/track_request.rb:111-113 | the total stored from the exact sum is within a millionth of the two stored costs |
| TrackRequest.StoredCostExamples | app/services/ai/usage/track_request.rb:235-240 | at 0.1 USD per million, 5 tokens are stored as 0.000001 and so is a 5 + 5 total; 1 token is stored as 0 |
| Chats.CanAutoGenerateTitle | app/models/chat.rb:25-27 | true exactly when the title is not locked by the user and is untitled |
| Chats.UntouchedForNewChat | app/models/chat.rb:29-36 | true exactly when the title is not user-set, is untitled, and the chat has no user messages and no artifacts |
| Chats.ContextSuggestionsEnabled | app/models/chat.rb:38-42 | off only when the column exists and holds false (a missing column or nil means on) |
| Chats.InboundEmailId | app/models/chat.rb:44-48 | the token exactly when the column exists and the token is not blank |
| Chats.InboundEmailAddress | app/models/chat.rb:50-58 | none without a token; the bare token without a configured domain; otherwise token@domain with the domain stripped |
| Chats.UntouchedCanAutoGenerate | app/models/chat.rb:25-36 | an untouched chat may always have its title generated |
| Chats.UntitledIgnoresCase | app/models/chat.rb:21-22 | upper-casing the title does not change the untitled test |
| Chats.UntitledIgnoresPadding | app/models/chat.rb:21 | surrounding spaces do not change the untitled test |
| ArtifactTriggers.Clamp | app/models/artifact_trigger.rb:100 | `Integer#clamp`: the result lies in the range, equals the input inside it and the nearer bound outside it |
| ArtifactTriggers.ClampTurns | app/models/artifact_trigger.rb:99-101 | the context turns are always within 1..30, and the conversion fails exactly when `to_i` does |
| ArtifactTriggers.ClampMaxChars | app/models/artifact_trigger.rb:103-105 | the context size is always within 500..20000, and the conversion fails exactly when `to_i` does |
| ArtifactTriggers.BaseRequest | app/models/artifact_trigger.rb:58 | the stripped template when it is not blank, else the stripped latest user instruction |
| ArtifactTriggers.SourceLabel | app/models/artifact_trigger.rb:59 | the stripped source when it is not blank, else the trigger type |
| ArtifactTriggers.Lines | app/models/artifact_trigger.rb:62-66 | the base request if present, the regenerate line, the source line, and the new context if present, in that order |
| ArtifactTriggers.InstructionIsJoinedLines | app/models/artifact_trigger.rb:57-69 | the final strip removes nothing: the instruction is exactly those lines joined by blank lines |
| ArtifactTriggers.NormalizedColumns | app/models/artifact_trigger.rb:73-79 | both context settings end up present and in range, in-range settings and a hash metadata are kept, identity and counters untouched |
| ArtifactTriggers.NormalizeIdempotent | app/models/artifact_trigger.rb:22-79 | normalising twice is normalising once |
| ArtifactTriggers.ArtifactTrigger.NormalizeValues | app/models/artifact_trigger.rb:73-79 | the record's columns become the normalised columns |
| ArtifactTriggers.QueuedFor | app/models/artifact_trigger.rb:29-50 | a message exactly when the trigger is active and both settings convert; "Trigger is paused" otherwise; the message is queued, from the firing user or the trigger's creator, with clamped settings, the trigger's identity and the built instruction |
| ArtifactTriggers.Fired | app/models/artifact_trigger.rb:91-97 | the fired count goes up by exactly one (from 0 when unset), the last fired time is now, nothing else changes |
| ArtifactTriggers.ArtifactTrigger.EnqueueRun | app/models/artifact_trigger.rb:29-55 | returns the queued message or the error; on error neither the trigger nor the job queue changes; on success exactly one job is enqueued, for the new message, and the counters are bumped |
| ArtifactTriggers.ArtifactTrigger.TouchFiredCounters | app/models/artifact_trigger.rb:91-97 | the columns become the fired columns |
| ArtifactTriggers.QueuedSettings | app/models/artifact_trigger.rb:32-33 | an active trigger whose two settings convert queues a message carrying exactly the clamped values |
| ArtifactTriggers.RunKeepsStoredSettings | app/models/artifact_trigger.rb:32-33 | with no override, a valid active trigger's stored settings go into the message unchanged |
| ArtifactTriggers.ClampTurnsIdempotent | app/models/artifact_trigger.rb:76-100 | clamping a clamped number of turns changes nothing |
| ArtifactTriggers.ClampMaxCharsIdempotent | app/models/artifact_trigger.rb:77-104 | clamping a clamped size changes nothing |
| Jobs.JobQueue.PerformLater | app/models/artifact_trigger.rb:52 | one job more, for the given message id |
| InjectVisuals.Coerce | app/services/ai/artifacts/dataset/inject_visuals.rb:183-191 | a number for Integer and Float, and for text exactly when its stripped form is a signed decimal (then its value) |
| InjectVisuals.NumericFrom | app/services/ai/artifacts/dataset/inject_visuals.rb:171-176 | exactly the columns below the size with a numeric cell in some row, ascending |
| InjectVisuals.LabelIndex | app/services/ai/artifacts/dataset/inject_visuals.rb:178-181 | the first column that is not charted, or 0 when every column is |
| InjectVisuals.Points | app/services/ai/artifacts/dataset/inject_visuals.rb:113-117 | at most one point per row, none exactly when no row has a numeric cell in the column; every value is a row's coerced cell |
| InjectVisuals.MaxAbs | app/services/ai/artifacts/dataset/inject_visuals.rb:128-129 | positive and at least every point's magnitude |
| InjectVisuals.Bars | app/services/ai/artifacts/dataset/inject_visuals.rb:131-155 | one bar per point with its caption, value, sign and width |
| InjectVisuals.ChartOf | app/services/ai/artifacts/dataset/inject_visuals.rb:103-118 | the chart of the given column, with at most one bar per row |
| InjectVisuals.ArrayRows | app/services/ai/artifacts/dataset/inject_visuals.rb:87 | only the array rows, never more than the input |
| InjectVisuals.RenderDataset | app/services/ai/artifacts/dataset/inject_visuals.rb:85-161 | a rendered block keeps its dataset position and has one to four charts of at most forty bars |
| InjectVisuals.HashItems | app/services/ai/artifacts/dataset/inject_visuals.rb:163-169 | only the Hash datasets, never more than the input |
| InjectVisuals.VisualsFrom | app/services/ai/artifacts/dataset/inject_visuals.rb:66-72 | blocks in dataset order, each well sized, positions inside the list |
| InjectVisuals.Visuals | app/services/ai/artifacts/dataset/inject_visuals.rb:11-28 | at most six blocks, each with one to four charts of at most forty bars |
| InjectVisuals.Call | app/services/ai/artifacts/dataset/inject_visuals.rb:24-81 | blank HTML, a blank dataset or nothing to chart leaves the HTML unchanged; otherwise the section is placed |
| InjectVisuals.WidthInRange | app/services/ai/artifacts/dataset/inject_visuals.rb:144 | every bar's width lies between 0 and 100 percent |
| InjectVisuals.LargestBarFull | app/services/ai/artifacts/dataset/inject_visuals.rb:128-144 | the bar of the largest magnitude is 100 percent wide |
| InjectVisuals.BarsInRange | app/services/ai/artifacts/dataset/inject_visuals.rb:131-145 | every bar of a chart is between 0 and 100 percent |
| InjectVisuals.ChartsNeverEmpty | app/services/ai/artifacts/dataset/inject_visuals.rb:90-126 | every rendered chart has bars, so the "No numeric values" branch is unreachable |
| ShortLabel.FirstParenTail | app/services/ai/artifacts/dataset/short_label.rb:10 | the leftmost position where the trailing-parenthetical pattern matches, and no match before it |
| ShortLabel.WithoutParenTail | app/services/ai/artifacts/dataset/short_label.rb:10 | the text up to the match, a prefix of the input |
| ShortLabel.Limited | app/services/ai/artifacts/dataset/short_label.rb:13-16 | text within the limit (or no limit) is kept; longer text is a prefix of at most max-1 characters plus "..." |
| ShortLabel.Call | app/services/ai/artifacts/dataset/short_label.rb:7-16 | with a positive limit the label has at most max+2 characters |
| ShortLabel.CompactSqueezed | app/services/ai/artifacts/dataset/short_label.rb:9 | after the whitespace step every whitespace is a single space |
| ShortLabel.CompactIdempotent | app/services/ai/artifacts/dataset/short_label.rb:9 | the whitespace step is idempotent |
| ShortLabel.CleanedSqueezed | app/services/ai/artifacts/dataset/short_label.rb:9-10 | the cleaned name has single spaces and no whitespace at either end |
| ShortLabel.ParenTailRemoved | app/services/ai/artifacts/dataset/short_label.rb:10 | "base (detail)" becomes "base" when base has no parenthesis |
| ShortLabel.NoTailInBase | app/services/ai/artifacts/dataset/short_label.rb:10 | the pattern cannot match inside such a base |
| ShortLabel.TailAtBase | app/services/ai/artifacts/dataset/short_label.rb:10 | the pattern matches at the space before the parenthesis |
| ShortLabel.FirstTailIs | app/services/ai/artifacts/dataset/short_label.rb:10 | a match with none before it is the leftmost |
| ShortLabel.ForecastExample | app/services/ai/artifacts/dataset/short_label.rb:10 | the forecast name loses its parenthetical |
| ShortLabel.BlankNameExample | app/services/ai/artifacts/dataset/short_label.rb:11 | an empty name gives the fallback "Sheet 2" |
| ArtifactTriggersApi.SplitScheme | app/controllers/api/artifact_triggers_controller.rb:39 | at most two fields, at least one for a non-empty header |
| ArtifactTriggersApi.ValidToken | app/controllers/api/artifact_triggers_controller.rb:46-50 | valid exactly when the provided token is not blank and equals the expected one |
| ArtifactTriggersApi.Or | app/controllers/api/artifact_triggers_controller.rb:7 | Ruby's `\|\|`: the left value when truthy, else the right |
| ArtifactTriggersApi.Provided | app/controllers/api/artifact_triggers_controller.rb:7 | the corrected reading: the bearer token when it is not blank, else the `token` parameter |
| ArtifactTriggersApi.Fire | app/controllers/api/artifact_triggers_controller.rb:5-31 | no trigger is 404; a bearer token that does not match is 401 with the trigger and the queue unchanged, the `token` parameter never being consulted; otherwise the run's outcome |
| ArtifactTriggersApi.BearerTokenOf | app/controllers/api/artifact_triggers_controller.rb:35-44 | a "bearer" scheme in any case, with whitespace around it, yields exactly the token |
| ArtifactTriggersApi.SplitOfWord | app/controllers/api/artifact_triggers_controller.rb:39 | a header of leading whitespace, a word, whitespace and a rest splits into exactly the word and the rest |
| ArtifactTriggersApi.BearerSchemeIsWord | app/controllers/api/artifact_triggers_controller.rb:41 | a scheme equal to "bearer" in any case is all letters, so it holds no whitespace |
| ArtifactTriggersApi.OtherSchemeNoToken | app/controllers/api/artifact_triggers_controller.rb:41 | any other scheme yields "" |
| ArtifactTriggersApi.SingleWordNoToken | app/controllers/api/artifact_triggers_controller.rb:40 | a header of one word yields "" |
| ArtifactTriggersApi.DropSpacesOver | app/controllers/api/artifact_triggers_controller.rb:39 | leading whitespace is skipped |
| ArtifactTriggersApi.TakeWordOf | app/controllers/api/artifact_triggers_controller.rb:39 | the first field ends at the first whitespace |
| ArtifactTriggersApi.QueryTokenIgnored | app/controllers/api/artifact_triggers_controller.rb:7 | as written, the provided token is always the bearer token |
| ArtifactTriggersApi.QueryTokenRefusedAsWritten | app/controllers/api/artifact_triggers_controller.rb:7-11 | as written, no header and the right `token` parameter is refused |
| ArtifactTriggersApi.QueryTokenAccepted | app/controllers/api/artifact_triggers_controller.rb:7-11 | with the fallback, that request is accepted |
| AssumedDefaults.Corpus | app/services/ai/chat/assumed_defaults.rb:26-28 | the corpus is the non-blank parts among history and instruction, in that order, joined by one line break (empty when both are blank) |
| AssumedDefaults.Call | app/services/ai/chat/assumed_defaults.rb:16-22 | the result is either empty or exactly the 60-minute travel radius, and it is the radius if and only if the corpus of the stringified arguments has a scope word and no explicit radius |
| AssumedDefaults.RunEnd | app/services/ai/chat/assumed_defaults.rb:5 | the end of a `\d+` or `\s*` run: every character before it from the start is in the class and the one at it (if any) is not |
| AssumedDefaults.UnitStart | app/services/ai/chat/assumed_defaults.rb:5 | the unit of a radius starts after the whole digit run and the whole whitespace run, within the text |
| AssumedDefaults.RunEndIs | app/services/ai/chat/assumed_defaults.rb:5 | a run is determined by where it stops: any stop position with the run property is the run end |
| AssumedDefaults.UnitAtShift | app/services/ai/chat/assumed_defaults.rb:5 | a `(unit)\b` match inside a text stays a match once non-word characters (or nothing) surround the text |
| AssumedDefaults.RunEndShift | app/services/ai/chat/assumed_defaults.rb:5 | a run ending inside a text ends at the same place when text is added around it |
| AssumedDefaults.UnitStartShift | app/services/ai/chat/assumed_defaults.rb:5 | the unit start of a radius inside a text moves with the text when text is added around it |
| AssumedDefaults.RadiusShift | app/services/ai/chat/assumed_defaults.rb:5 | an explicit-radius match inside a text is a match of the text with non-word characters (or nothing) around it |
| AssumedDefaults.RadiusBefore | app/services/ai/chat/assumed_defaults.rb:5 | a radius match survives appending text that starts with a non-word character |
| AssumedDefaults.RadiusAfter | app/services/ai/chat/assumed_defaults.rb:5 | a radius match survives prepending text that ends with a non-word character, shifted by its length |
| AssumedDefaults.RadiusBeforeLine | app/services/ai/chat/assumed_defaults.rb:27 | a radius in the history is a radius of history, line break and instruction |
| AssumedDefaults.RadiusAfterLine | app/services/ai/chat/assumed_defaults.rb:27 | a radius in the instruction is a radius of history, line break and instruction |
| AssumedDefaults.RadiusNotBlank | app/services/ai/chat/assumed_defaults.rb:27 | text with a radius is not blank, so it is kept in the corpus |
| AssumedDefaults.DigitNotSpace | app/services/ai/chat/assumed_defaults.rb:5 | a character whose lower-case form is a digit is a digit and not whitespace |
| AssumedDefaults.CorpusRadius | app/services/ai/chat/assumed_defaults.rb:26-31 | a radius in the history or in the instruction is a radius of the corpus |
| AssumedDefaults.RadiusAnywhereSuppresses | app/services/ai/chat/assumed_defaults.rb:16-32 | an explicit radius in either the history or the instruction means no default is returned |
| AssumedDefaults.ScopeInInstruction | app/services/ai/chat/assumed_defaults.rb:26-31 | a scope word in the instruction is a scope word of the corpus, whatever the history |
| AssumedDefaults.BlankNoBoundary | app/services/ai/chat/assumed_defaults.rb:4 | blank text has no word boundary anywhere |
| AssumedDefaults.GluedDigitsNoRadius | app/services/ai/chat/assumed_defaults.rb:5 | text whose every digit follows a word character has no explicit radius (the number must start at a word boundary) |
| AssumedDefaults.AroundViennaExample | test/services/ai/chat/assumed_defaults_test.rb:4-11 | "golf locations around vienna" with history "U1: golf locations around vienna" gives exactly the travel-radius default |
| AssumedDefaults.AroundViennaScope | test/services/ai/chat/assumed_defaults_test.rb:6 | that instruction has the scope word "around", so its corpus does too |
| AssumedDefaults.NoCapitals | test/services/ai/chat/assumed_defaults_test.rb:6 | the two test instructions have no capital letters |
| AssumedDefaults.AroundAt | test/services/ai/chat/assumed_defaults_test.rb:6 | "around" stands as a word at position 15 of that instruction |
| AssumedDefaults.AroundViennaNoRadius | test/services/ai/chat/assumed_defaults_test.rb:4-11 | that corpus has no explicit radius (its only digit is glued to "U") |
| AssumedDefaults.GluedDigits | test/services/ai/chat/assumed_defaults_test.rb:7 | the only digit of that corpus follows a word character |
| AssumedDefaults.NinetyMinutesExample | test/services/ai/chat/assumed_defaults_test.rb:13-20 | "golf locations 90 mins around vienna" gives no default |
| AssumedDefaults.NinetyMinutesRadius | test/services/ai/chat/assumed_defaults_test.rb:15 | that instruction has an explicit radius |
| AssumedDefaults.NinetyMinutesAt | test/services/ai/chat/assumed_defaults_test.rb:15 | "90 mins" at position 15 matches the radius pattern |
| AssumedDefaults.DowncaseJoin | app/services/ai/chat/assumed_defaults.rb:27 | lower-casing a corpus is lower-casing its parts |
| ActionPayloads.Kinds | app/services/ai/actions/catalog.rb:139-141 | one type per catalog entry, in catalog order |
| ActionPayloads.Find | app/services/ai/actions/catalog.rb:152-154 | an entry exactly when the type is one of the catalog's types, and then the entry with that type |
| ActionPayloads.Missing | app/services/ai/actions/catalog.rb:172 | exactly the required keys present neither as a String nor as a Symbol key |
| ActionPayloads.KeyNames | app/services/ai/actions/catalog.rb:176 | the name of every payload key, in order |
| ActionPayloads.Unexpected | app/services/ai/actions/catalog.rb:177 | exactly the key names outside the allowed list |
| ActionPayloads.CheckKeys | app/services/ai/actions/catalog.rb:164-178 | succeeds exactly for a Hash with no missing and no unexpected key |
| ActionPayloads.CheckKeysIsKeysValid | app/services/ai/actions/catalog.rb:164-178 | the key check succeeds if and only if the payload is a Hash holding every required key and only allowed ones |
| ActionPayloads.HashSetKeys | app/services/ai/actions/catalog.rb:202 | assigning a key adds no key other than that one |
| ActionPayloads.HashSetKeepsStringKeys | app/services/ai/actions/catalog.rb:199-203 | assigning an allowed String key keeps every key an allowed String key |
| ActionPayloads.FilteredSpec | app/services/ai/actions/catalog.rb:199-203 | the filter keeps only allowed String keys; each allowed name reads the value of its last occurrence under either key kind, other names are untouched |
| ActionPayloads.LastNamedCons | app/services/ai/actions/catalog.rb:199-203 | the last occurrence of a name is in the tail when there is one there, else the head |
| Catalog.Types | app/services/ai/actions/catalog.rb:139-141 | five types |
| Catalog.TypesInOrder | app/services/ai/actions/catalog.rb:40-131 | the types are schedule_prompt, draft_email, create_task, suggest_additional_context and request_missing_info, in that order |
| Catalog.Fetch | app/services/ai/actions/catalog.rb:148-154 | an entry exactly for an allowed type, and then the entry of that type |
| Catalog.NonEmptyCount | app/services/ai/actions/catalog.rb:234 | no more entries than the array has |
| Catalog.ValidateStringArray | app/services/ai/actions/catalog.rb:229-238 | succeeds exactly for an Array whose count of entries non-empty after strip lies within min..max |
| Catalog.Validate | app/services/ai/actions/catalog.rb:160-188 | success means a known type and a Hash payload; an unknown type gives the "Unknown action type" error |
| Catalog.ValidateIsValidPayload | app/services/ai/actions/catalog.rb:160-188 | validation succeeds if and only if the type is known, the keys are valid and the questions or suggestions count is within its bounds |
| Catalog.Defaulted | app/services/ai/actions/catalog.rb:209-221 | other types are untouched; schedule_prompt gets the given `DEFAULT_TIMEZONE` when its timezone is blank and enabled=true when absent, and no other key changes |
| Catalog.NormalizedPayload | app/services/ai/actions/catalog.rb:192-207 | always a Hash, and {} for an unknown type or a non-Hash payload |
| Catalog.PayloadHash.Put | app/services/ai/actions/catalog.rb:202 | the hash afterwards is the old one with the key assigned |
| Catalog.PayloadHash.Has | app/services/ai/actions/catalog.rb:216 | true exactly when the key is present |
| Catalog.ApplyDefaults | app/services/ai/actions/catalog.rb:209-221 | the payload afterwards is the defaulted payload of the old one |
| Catalog.NormalizePayload | app/services/ai/actions/catalog.rb:192-207 | the loop builds exactly the normalized payload |
| Catalog.DefaultedKeys | app/services/ai/actions/catalog.rb:209-221 | applying defaults adds no key outside the allowed ones |
| Catalog.NormalizedKeysAllowed | app/services/ai/actions/catalog.rb:197-203 | every key of a normalized payload is an allowed String key |
| Catalog.NormalizedValues | app/services/ai/actions/catalog.rb:199-203 | a name outside the allowed keys is absent; an allowed name without a default reads its last value in the payload |
| Catalog.ScheduleDefaults | app/services/ai/actions/catalog.rb:213-216 | a normalized schedule_prompt always has a timezone, non-blank whenever `DEFAULT_TIMEZONE` is, and an enabled key, and an enabled value given is kept |
| Catalog.ScheduleDefaulted | app/services/ai/actions/catalog.rb:211-216 | apply_defaults! on schedule_prompt leaves a timezone, non-blank whenever `DEFAULT_TIMEZONE` is, and an enabled key, keeping an enabled already there |
| Catalog.ScheduleTimezoneUnsetEnv | app/services/ai/actions/catalog.rb:29 | with `DEFAULT_TIMEZONE` unset ("Europe/Vienna"), a normalized schedule_prompt always has a non-blank timezone |
| Catalog.ValidateQuestions | app/services/ai/actions/catalog.rb:180-182 | request_missing_info is checked by its keys and then by the questions array with bounds 1..3 |
| Catalog.QuestionKeysPass | app/services/ai/actions/catalog.rb:172-178 | a payload with only a questions key, either kind, passes the key check |
| Catalog.OneQuestionAccepted | app/services/ai/actions/catalog.rb:182-235 | one question non-empty after strip is accepted |
| Catalog.BlankQuestionRejected | app/services/ai/actions/catalog.rb:234-236 | one question blank after strip is rejected with the count error |
| Catalog.TooFewRejected | app/services/ai/actions/catalog.rb:234-237 | an array with fewer non-empty entries than the minimum is refused with the count message |
| Catalog.BlankEntryNotCounted | app/services/ai/actions/catalog.rb:234 | an entry blank after strip is not counted |
| Catalog.SymbolQuestionsRejected | app/services/ai/actions/catalog.rb:182-231 | questions under a Symbol key pass the key check but read nil and are rejected as not an array |
| Catalog.MissingBodyRejected | app/services/ai/actions/catalog.rb:172-173 | draft_email without body is rejected as missing body |
| Catalog.UnexpectedKeyRejected | app/services/ai/actions/catalog.rb:176-178 | create_task with a key outside title, notes and due_at is rejected as unexpected |
| Catalog.OneUnexpected | app/services/ai/actions/catalog.rb:175-177 | with nothing missing, a single key outside the allowed ones is reported by its name |
| Catalog.ValidateTask | app/services/ai/actions/catalog.rb:160-187 | create_task is validated by the key checks alone |
| Catalog.UnknownTypeRejected | app/services/ai/actions/catalog.rb:161-162 | an unknown type is rejected with its name in the message |
| LegacyCatalog.Types | app/services/ai/action_catalog.rb:99-101 | four types |
| LegacyCatalog.TypesInOrder | app/services/ai/action_catalog.rb:32-105 | the types are schedule_prompt, draft_email, create_task and request_missing_info, and suggest_additional_context is not allowed |
| LegacyCatalog.Fetch | app/services/ai/action_catalog.rb:103-109 | an entry exactly for an allowed type, and then the entry of that type |
| LegacyCatalog.Validate | app/services/ai/action_catalog.rb:115-136 | an unknown type gives the "Unknown action type" error; a known one is decided by the key check alone, and success returns true |
| LegacyCatalog.ValidateIsKeysValid | app/services/ai/action_catalog.rb:115-136 | validation succeeds if and only if the type is known and the payload is a Hash with every required key and only allowed ones |
| LegacyCatalog.ScheduleRequiresTimezoneAndSources | app/services/ai/action_catalog.rb:37-128 | a valid schedule_prompt has title, schedule, timezone, sources and prompt_template |
| LegacyCatalog.NormalizedPayload | app/services/ai/action_catalog.rb:139-151 | always a Hash, and {} for an unknown type or a non-Hash payload |
| LegacyCatalog.NormalizedIsFiltered | app/services/ai/action_catalog.rb:144-150 | only allowed String keys remain, each with its last value in the payload, and nothing else |
| LegacyCatalog.NoEnabledDefault | app/services/ai/action_catalog.rb:139-151 | no enabled default is added to schedule_prompt |
| ExtractProposed.AckNormalizeChars | app/services/ai/actions/extract_proposed.rb:192 | every character of the normalized text is a space or a lower-cased letter or digit of the input |
| ExtractProposed.BlankNormalizesToSpaces | app/services/ai/actions/extract_proposed.rb:189-193 | a blank instruction normalizes to whitespace only |
| ExtractProposed.NonSpaceComesFromText | app/services/ai/actions/extract_proposed.rb:189-193 | a non-space character after normalizing implies a non-whitespace character in the input |
| ExtractProposed.MaskedFromText | app/services/ai/actions/extract_proposed.rb:192 | a masked character that is not whitespace comes from a character of the text that is not a space |
| ExtractProposed.LowerFromAlnum | app/services/ai/actions/extract_proposed.rb:192 | a character whose downcase is a lower-case letter or digit is not a Unicode space |
| ExtractProposed.PhrasesStartLower | app/services/ai/actions/extract_proposed.rb:196 | every acknowledgement phrase is non-empty and starts with a lower-case letter |
| ExtractProposed.PhraseStartsLower | app/services/ai/actions/extract_proposed.rb:196 | a listed phrase is non-empty and starts with a lower-case letter |
| ExtractProposed.LowerStartNotBlank | app/services/ai/actions/extract_proposed.rb:190-193 | text starting with a lower-case letter is not blank |
| ExtractProposed.AcknowledgementOnlyIff | app/services/ai/actions/extract_proposed.rb:188-198 | an instruction is acknowledgement-only if and only if its stripped, lower-cased, punctuation-to-space, squeezed and stripped form is one of the fifteen phrases |
| ExtractProposed.SqueezeOfSingleSpaced | app/services/ai/actions/extract_proposed.rb:192 | squeeze(" ") leaves text without double spaces unchanged |
| ExtractProposed.CanonicalNormalizes | app/services/ai/actions/extract_proposed.rb:192 | a canonical phrase normalizes to itself |
| ExtractProposed.UpcaseNormalizes | app/services/ai/actions/extract_proposed.rb:192 | the upper-cased phrase normalizes to the phrase |
| ExtractProposed.PunctuatedNormalizes | app/services/ai/actions/extract_proposed.rb:192 | a phrase followed by one punctuation character normalizes to the phrase |
| ExtractProposed.MaskPunctuated | app/services/ai/actions/extract_proposed.rb:192 | downcasing and masking a phrase followed by a punctuation mark give the phrase followed by a space |
| ExtractProposed.SpacedNormalizes | app/services/ai/actions/extract_proposed.rb:192 | squeezing and stripping a phrase followed by one space give the phrase |
| ExtractProposed.PhraseIsAcknowledged | app/services/ai/actions/extract_proposed.rb:195-197 | each phrase, and its upper-cased form, is acknowledgement-only |
| ExtractProposed.PunctuatedIsAcknowledged | app/services/ai/actions/extract_proposed.rb:192-197 | a phrase with trailing punctuation ("thanks!") is acknowledgement-only |
| ExtractProposed.PhrasesAreCanonical | app/services/ai/actions/extract_proposed.rb:196 | every phrase is lower-case, single-spaced and unpadded |
| ExtractProposed.ReadOrEmpty | app/services/ai/actions/extract_proposed.rb:157-158 | the value read is truthy (falls back to {}) |
| ExtractProposed.NormalizeAction | app/services/ai/actions/extract_proposed.rb:153-164 | a normalized action has a Hash payload, a Hash metadata and a type non-blank after strip |
| ExtractProposed.NormalizeActions | app/services/ai/actions/extract_proposed.rb:152-166 | one normalized action per item |
| ExtractProposed.NormalizeActionsOk | app/services/ai/actions/extract_proposed.rb:152-166 | the list normalizes if and only if every item does, and then item by item |
| ExtractProposed.NormalizeActionsErr | app/services/ai/actions/extract_proposed.rb:152-166 | a failure is the error of the first failing item, all items before it being valid |
| ExtractProposed.NormalizeActionErrors | app/services/ai/actions/extract_proposed.rb:154-164 | the four error messages in order (not an object, missing type, payload, metadata), and the normalized triple otherwise |
| ExtractProposed.NormalizeActionDefaults | app/services/ai/actions/extract_proposed.rb:156-164 | a Symbol-keyed type alone gives empty payload and metadata |
| ExtractProposed.TypeOnlyReads | app/services/ai/actions/extract_proposed.rb:156-158 | a hash holding only a Symbol type reads that type and empty payload and metadata |
| ExtractProposed.Prepared | app/services/ai/actions/extract_proposed.rb:137-147 | a row is created exactly when the normalized payload validates, and holds the type, the normalized payload and the metadata |
| ExtractProposed.RowKinds | app/services/ai/actions/extract_proposed.rb:144 | the type of every row, in order |
| ExtractProposed.PersistFromSpec | app/services/ai/actions/extract_proposed.rb:133-148 | every created row validates, and the rows' types are the kept actions' types in order |
| ExtractProposed.AppendValid | app/services/ai/actions/extract_proposed.rb:141-146 | appending a row that validates to rows that validate keeps every row valid |
| ExtractProposed.PersistFromValid | app/services/ai/actions/extract_proposed.rb:133-148 | every row the loop creates passes validate! with its stored payload |
| ExtractProposed.PersistFromKinds | app/services/ai/actions/extract_proposed.rb:133-148 | the rows' types are the kept actions' types, in order |
| ExtractProposed.PersistedSpec | app/services/ai/actions/extract_proposed.rb:127-150 | on success every row validates and the rows are the kept actions, in order |
| ExtractProposed.KeptKindsWithoutSuggestions | app/services/ai/actions/extract_proposed.rb:135 | with suggestions disabled no kept action is suggest_additional_context |
| ExtractProposed.NoSuggestionRowsWhenDisabled | app/services/ai/actions/extract_proposed.rb:135-229 | with suggestions disabled no row of type suggest_additional_context is created |
| ExtractProposed.ActionStore.constructor | app/services/ai/actions/extract_proposed.rb:131 | the store holds the given rows |
| ExtractProposed.PersistActions | app/services/ai/actions/extract_proposed.rb:127-150 | a normalization error leaves the rows alone; otherwise the old rows are deleted and the persisted rows created, all or nothing |
| ExtractProposed.ParseJsonArray | app/services/ai/actions/extract_proposed.rb:119-125 | succeeds exactly when the reply parses to an Array, giving its items |
| ExtractProposed.AllowedTypesForRequest | app/services/ai/actions/extract_proposed.rb:231-244 | the catalog types, without suggest_additional_context when suggestions are disabled |
| ExtractProposed.Reject | app/services/ai/actions/extract_proposed.rb:242 | exactly the elements different from the one rejected |
| ExtractProposed.RawStored | app/services/ai/actions/extract_proposed.rb:168-178 | the content, or {} when not a Hash, with {"raw" => raw, "parsed" => list} under "proposed_actions_raw" and every other key kept |
| ExtractProposed.Call | app/services/ai/actions/extract_proposed.rb:28-53 | the corrected reading: no ai_message raises; an acknowledgement persists no actions, makes no request and stores the empty raw reply in the content; otherwise the reply is parsed and persisted, the raw reply stored only when the setting asks for it, and a failure leaves the rows and the content |
| ExtractProposed.CallAsWritten | app/services/ai/actions/extract_proposed.rb:28-67 | as written an acknowledgement clears the rows and stores the empty raw reply in the content; every other call fails with an ArgumentError before the request, leaving the rows and the content |
| SourceCacheKey.Key | app/services/ai/data/source_cache_key.rb:14-22 | the stripped query text, the normalized query or "empty-query" when that is blank, and the digest of the normalized query |
| SourceCacheKey.NormalizeChars | app/services/ai/data/source_cache_key.rb:27-32 | the normalized text holds only lower-case letters, digits and single inner spaces |
| SourceCacheKey.KeyNeverBlank | app/services/ai/data/source_cache_key.rb:16 | the normalized query of a key is never blank |
| SourceCacheKey.SymbolsOnlyIsEmptyQuery | app/services/ai/data/source_cache_key.rb:16-32 | a query without letters or digits uses "empty-query" and its digest |
| SourceCacheKey.SignatureDependsOnNormalized | app/services/ai/data/source_cache_key.rb:15-21 | two queries with the same normalized text have the same normalized query and signature |
| Text.DowncaseOfUpcase | app/services/ai/data/source_cache_key.rb:29 | lower-casing forgets an upper-casing |
| SourceCacheKey.DowncaseTwice | app/services/ai/data/source_cache_key.rb:29 | lower-casing is idempotent |
| SourceCacheKey.CaseInsensitive | app/services/ai/data/source_cache_key.rb:15-29 | upper- or lower-casing the query does not change its signature |
| SourceCacheKey.PunctuationIsSpace | app/services/ai/data/source_cache_key.rb:30 | replacing a space by a punctuation character does not change the signature ("GDP, Austria!" is "gdp austria") |
| ResolveAvailableData.AvailableFrom | app/services/ai/data/resolve_available_data.rb:96-98 | the cached data with sources filled from the cache when blank and a query defaulted to the cache's query text; every other key as cached |
| ResolveAvailableData.CacheResult | app/services/ai/data/resolve_available_data.rb:95-108 | needed, with the given decision, forced flag and error, the key's signature and the cached data |
| ResolveAvailableData.UpsertedCache | app/services/ai/data/resolve_available_data.rb:84-93 | data is a Hash and sources an Array, each the fetched one when it has that kind |
| ResolveAvailableData.CacheStore.constructor | app/services/ai/data/resolve_available_data.rb:80-82 | the store holds the given caches |
| ResolveAvailableData.CacheStore.Upsert | app/services/ai/data/resolve_available_data.rb:85-91 | the cache for the signature is replaced or added, the others are kept |
| ResolveAvailableData.Call | app/services/ai/data/resolve_available_data.rb:36-72 | the result, the caches afterwards and the number of fetcher calls are those of the decision tree |
| ResolveAvailableData.NotNeededSpec | app/services/ai/data/resolve_available_data.rb:39-119 | without a need for sources: not_needed, needed false, no data or error, no fetch, caches unchanged |
| ResolveAvailableData.CacheHitSpec | app/services/ai/data/resolve_available_data.rb:44-46 | a cache hit without forced refresh: use_cache with the cached data, no fetch, caches unchanged |
| ResolveAvailableData.SearchSpec | app/services/ai/data/resolve_available_data.rb:57-93 | a successful fetch upserts the cache for the signature only and gives search with the new cache's data |
| ResolveAvailableData.FailedFetchSpec | app/services/ai/data/resolve_available_data.rb:62-71 | a failed fetch with a cache gives use_cache with the error; without one search_failed with no data and the error as text; caches unchanged |
| ResolveAvailableData.FetcherCalledIff | app/services/ai/data/resolve_available_data.rb:39-55 | the fetcher is called if and only if sources are needed and the cache is missing or a refresh is forced |
| ResolveAvailableData.FlagNeedsTrue | app/services/ai/data/resolve_available_data.rb:125-142 | a flag counts only when it is exactly true ("yes" does not) |
| ResolveAvailableData.CacheResultDefaults | app/services/ai/data/resolve_available_data.rb:97-98 | an empty cached Hash gets the cache's sources and query text |
| BuildContext.Compact | app/services/ai/context/build_context.rb:80-82 | never longer than the input |
| BuildContext.CompactLength | app/services/ai/context/build_context.rb:81 | replacing whitespace runs by one space and stripping does not lengthen the text |
| BuildContext.TruncateAsWritten | app/services/ai/context/build_context.rb:84-88 | as written: "" for a non-positive max, the text itself when it fits |
| BuildContext.TruncateAsWrittenOverflows | app/services/ai/context/build_context.rb:87 | as written, text over the limit becomes max-1 characters plus the three-character literal, max+2 in all |
| BuildContext.Truncate | app/services/ai/context/build_context.rb:84-88 | the corrected reading: "" for a non-positive max; text within max is unchanged; longer text keeps its first max-1 characters and ends in one ellipsis character, so never exceeds max |
| BuildContext.BlockFor | app/services/ai/context/build_context.rb:52-62 | no block exactly when the compacted user text is empty; a block starts with "U: " and the user text truncated as written, and is at most 3 + 222 + 4 + 282 characters |
| BuildContext.Block | app/services/ai/context/build_context.rb:58-61 | starts with "U: " and the user text truncated as written; at most 3 + 222 + 4 + 282 characters; no assistant text gives the user line alone; short texts are joined unchanged with "\nA: " |
| BuildContext.Blocks | app/services/ai/context/build_context.rb:37 | the `filter_map` of the per-message block over the messages, in order |
| BuildContext.FilterMap | app/services/ai/context/build_context.rb:37 | never longer than the input |
| BuildContext.FilterMapSpec | app/services/ai/context/build_context.rb:37 | every value kept is the block of some message, and every message's block is kept |
| BuildContext.Recent | app/services/ai/context/build_context.rb:30-35 | the newest `turns` kept messages (all of them when fewer), oldest first, none the excluded one |
| BuildContext.Kept | app/services/ai/context/build_context.rb:45-50 | the messages other than the excluded one, or all of them when none is excluded |
| BuildContext.Dropped | app/services/ai/context/build_context.rb:91-93 | a suffix of the blocks, non-empty when they are, and either one block or a join within the budget |
| BuildContext.Fit | app/services/ai/context/build_context.rb:90-99 | the join of the result fits the budget |
| BuildContext.DropOldestUntilFits | app/services/ai/context/build_context.rb:90-99 | the loop keeps exactly the fitted blocks |
| BuildContext.Call | app/services/ai/context/build_context.rb:27-41 | "" when turns or max_chars is not positive; the context never exceeds max_chars; when the joined blocks of the recent turns fit, the context is exactly that join, stripped |
| BuildContext.BlocksCons | app/services/ai/context/build_context.rb:37-54 | a message with empty user text adds no block, any other adds its block before the later ones (oldest first) |
| BuildContext.DroppedIsMinimal | app/services/ai/context/build_context.rb:91-93 | every block dropped was dropped while more than one block remained and the join exceeded the budget |
| BuildContext.FitKeepsFittingBlocks | app/services/ai/context/build_context.rb:91-96 | blocks that already fit are kept as they are |
| BuildContext.FitCutsSingleBlock | app/services/ai/context/build_context.rb:98 | a single overflowing block keeps its last max_chars characters |
| BuildContext.FitKeepsNewest | app/services/ai/context/build_context.rb:91-98 | the newest block is always kept, unless all is cut to one block |
| BuildContext.NoTurnsNoContext | app/services/ai/context/build_context.rb:37-54 | when no message has user text the context is "" |
| BuildContext.NoBlocks | app/services/ai/context/build_context.rb:54 | messages without user text give no blocks |
| ConfirmCurrentRequest.SentenceEnd | app/services/ai/chat/confirm_current_request.rb:38 | the first position at or after k where a sentence may end, or none |
| ConfirmCurrentRequest.FirstSentence | app/services/ai/chat/confirm_current_request.rb:34-40 | a prefix of the stripped text: all of it, or up to the first terminator that follows a character and precedes whitespace or the end |
| ConfirmCurrentRequest.EnsurePeriod | app/services/ai/chat/confirm_current_request.rb:58-63 | ends in "."; a trailing run of "?"/"!" becomes one "."; a text already ending in "." is kept; otherwise "." is appended |
| ConfirmCurrentRequest.FallbackSubject | app/services/ai/chat/confirm_current_request.rb:47-54 | at most 120 characters, not ending in a terminator; "your request" when the instruction normalizes to empty |
| ConfirmCurrentRequest.Fallback | app/services/ai/chat/confirm_current_request.rb:55 | "Understood, I will work on " + subject + "." |
| ConfirmCurrentRequest.Call | app/services/ai/chat/confirm_current_request.rb:20-30 | the confirmation always ends in "." |
| ConfirmCurrentRequest.CallCases | app/services/ai/chat/confirm_current_request.rb:20-27 | a blank candidate or one with "?" gives the fallback; any other gives the candidate with its period, and contains no "?" |
| ConfirmCurrentRequest.EnsurePeriodNoQuestion | app/services/ai/chat/confirm_current_request.rb:58-63 | ending a text without "?" adds no "?" |
| ConfirmCurrentRequest.EnsurePeriodReplacesRun | app/services/ai/chat/confirm_current_request.rb:60 | "body?!" becomes "body." |
| ConfirmCurrentRequest.DropRun | app/services/ai/chat/confirm_current_request.rb:60 | removing the trailing "?"/"!" run gives the body back |
| ConfirmCurrentRequest.EmptyInstructionFallback | app/services/ai/chat/confirm_current_request.rb:47-48 | an instruction empty after normalizing is confirmed as "your request" |
| ConfirmCurrentRequest.KeepsValidSentence | app/services/ai/chat/confirm_current_request.rb:20-27 | a single normalized sentence ending in "." without "?" is returned unchanged |
| ConfirmCurrentRequest.EnsurePeriodOfSentence | app/services/ai/chat/confirm_current_request.rb:58-63 | a text ending in "." is kept |
| ConfirmCurrentRequest.RStripOfEnd | app/services/ai/chat/clean_reply_text.rb:23-34 | a text ending in "." ends in neither "}" nor a fence, so cleaning does not change it |
| ConfirmCurrentRequest.FirstSentenceWhole | app/services/ai/chat/confirm_current_request.rb:38-39 | a stripped text with no earlier sentence end is its own first sentence |
| ConfirmCurrentRequest.EndsAtPrefix | app/services/ai/chat/confirm_current_request.rb:38 | sentence ends before the last character of a prefix do not depend on what follows |
| ConfirmCurrentRequest.KeepsFirstSentence | app/services/ai/chat/confirm_current_request.rb:38-39 | "First. Rest" gives "First." |
| CleanReplyText.NormalizeQuotesSpec | app/services/ai/chat/clean_reply_text.rb:79-81 | same length; curly double quotes become straight double quotes and curly single quotes straight single ones, and every other character is kept |
| CleanReplyText.ActionPayloadsKeyNames | app/services/ai/chat/clean_reply_text.rb:91 | the name of every key, in order |
| CleanReplyText.CloseEnd | app/services/ai/chat/clean_reply_text.rb:12 | the last "}" of the fenced body, followed by whitespace only |
| CleanReplyText.SpaceRunEnd | app/services/ai/chat/clean_reply_text.rb:12 | the end of the whitespace run starting at q |
| CleanReplyText.OpenAt | app/services/ai/chat/clean_reply_text.rb:12 | a "{" right after a line break |
| CleanReplyText.FenceJsonAt | app/services/ai/chat/clean_reply_text.rb:12 | a fence match at p starts with three backticks, the text ends with three backticks, and the captured json runs from "{" to "}" |
| CleanReplyText.FenceMatchFrom | app/services/ai/chat/clean_reply_text.rb:12-42 | the leftmost fence match at or after p |
| CleanReplyText.StripFence | app/services/ai/chat/clean_reply_text.rb:41-49 | a shorter, right-stripped prefix of the text |
| CleanReplyText.RStripOfPrefix | app/services/ai/chat/clean_reply_text.rb:48 | right-stripping a prefix is right-stripping the prefix up to its stripped length |
| CleanReplyText.RStripOfTrimmedEnd | app/services/ai/chat/clean_reply_text.rb:23 | a text not ending in whitespace is its own rstrip |
| CleanReplyText.RIndex | app/services/ai/chat/clean_reply_text.rb:65 | the last position at or before from holding the character, or none |
| CleanReplyText.TrailingOpening | app/services/ai/chat/clean_reply_text.rb:61-76 | a "{" at or before from whose tail parses to a Hash |
| CleanReplyText.TrailingOpeningSpec | app/services/ai/chat/clean_reply_text.rb:61-76 | the opening found is the last one whose tail parses to a Hash; none means no opening's tail does |
| CleanReplyText.TrailingJsonObject | app/services/ai/chat/clean_reply_text.rb:61-76 | the loop returns the tail at the last opening whose tail parses to a Hash, with its parse, or nothing |
| CleanReplyText.StripObject | app/services/ai/chat/clean_reply_text.rb:51-59 | a shorter, right-stripped prefix of the text |
| CleanReplyText.PrefixOfRStrip | app/services/ai/chat/clean_reply_text.rb:23-48 | a prefix of the right-stripped text is a prefix of the text |
| CleanReplyText.Clean | app/services/ai/chat/clean_reply_text.rb:22-37 | the text itself, or a shorter right-stripped prefix of it |
| CleanReplyText.PlainTextUnchanged | app/services/ai/chat/clean_reply_text.rb:23-52 | a text not ending in "}" or a fence is returned unchanged |
| CleanReplyText.TrailingFinds | app/services/ai/chat/clean_reply_text.rb:64-73 | the scan stops at the last opening whose tail parses to a Hash |
| CleanReplyText.TrailingFindsObject | app/services/ai/chat/clean_reply_text.rb:61-76 | an object appended to a prefix is found at the prefix's end |
| CleanReplyText.StripsTrailingMetadata | app/services/ai/chat/clean_reply_text.rb:51-100 | a metadata object at the end is removed and the rest right-stripped |
| CleanReplyText.CleanAfterBrace | app/services/ai/chat/clean_reply_text.rb:26-34 | a text ending in "}" is cleaned by the object rule alone |
| CleanReplyText.ObjectCut | app/services/ai/chat/clean_reply_text.rb:54-58 | the object found is the appended one and the cut leaves the prefix |
| CleanReplyText.StripsAppendedObject | app/services/ai/chat/clean_reply_text.rb:102-113 | a non-metadata object is removed only after a non-blank prefix ending in a line break, and only up to 1500 characters |
| CleanReplyText.NoFenceAfterBrace | app/services/ai/chat/clean_reply_text.rb:12 | a text ending in "}" has no fence match |
| CleanReplyText.NoFenceAt | app/services/ai/chat/clean_reply_text.rb:12 | no fence starts at a character other than a backtick |
| CleanReplyText.FenceAfterPlainText | app/services/ai/chat/clean_reply_text.rb:12 | text without backticks followed by a json fence matches at the fence, capturing the object |
| CleanReplyText.CleanFence | app/services/ai/chat/clean_reply_text.rb:41-49 | a fenced metadata tail is removed and the rest right-stripped |
| CleanReplyText.FenceAtPrefix | app/services/ai/chat/clean_reply_text.rb:12 | the fence right after the prefix captures the object |
| CleanReplyText.FenceMatchSkips | app/services/ai/chat/clean_reply_text.rb:12 | positions with no fence match are skipped |
| CleanReplyText.MetadataPayloadIff | app/services/ai/chat/clean_reply_text.rb:88-100 | a Hash is metadata if and only if it has keys and a signal key, or the whole control triplet, or should_generate_artifact with flags |
| HumanizeError.RemoveAll | app/services/ai/chat/humanize_error.rb:36-37 | removing every match never lengthens the text |
| HumanizeError.DocsUrlLength | app/services/ai/chat/humanize_error.rb:8 | a docs URL match is no longer than the text |
| HumanizeError.PrefixedWordLength | app/services/ai/chat/humanize_error.rb:8 | a prefix-and-word match is no longer than the text |
| HumanizeError.PreambleLength | app/services/ai/chat/humanize_error.rb:37 | a preamble match is no longer than the text |
| HumanizeError.CleanedRaw | app/services/ai/chat/humanize_error.rb:34-41 | the cleaned text has single spaces as its only whitespace, no leading whitespace and no trailing dot |
| HumanizeError.Squeezed | app/services/ai/chat/humanize_error.rb:38-39 | single spaces only, no leading whitespace, no trailing dot |
| HumanizeError.Classify | app/services/ai/chat/humanize_error.rb:21-27 | each category holds if and only if its pattern matches and no earlier one does: quota, auth, rate limit, model, timeout, then generic |
| HumanizeError.GenericMessage | app/services/ai/chat/humanize_error.rb:63-66 | the generic sentence embeds the text, or "Unknown provider error" when it is blank |
| HumanizeError.Call | app/services/ai/chat/humanize_error.rb:18-27 | the message of the first category matching the cleaned text |
| HumanizeError.ContainsAppend | app/services/ai/chat/humanize_error.rb:21-25 | a text contains any piece of itself |
| HumanizeError.DowncaseAppend | app/services/ai/chat/humanize_error.rb:21-25 | lower-casing distributes over concatenation and keeps a lower-case piece |
| HumanizeError.HasAnywhere | app/services/ai/chat/humanize_error.rb:21-25 | a lower-case pattern matches wherever it occurs, in any case around it |
| HumanizeError.GenericEmbedsText | app/services/ai/chat/humanize_error.rb:27-66 | an unclassified error yields the generic sentence with the cleaned text |
| HumanizeError.RemovesDocsUrl | app/services/ai/chat/humanize_error.rb:8-36 | a docs URL up to the next whitespace is removed |
| HumanizeError.DocsUrlLengthOf | app/services/ai/chat/humanize_error.rb:8 | the match runs over the prefix and the following non-space word |
| HumanizeError.PrefixedWordOf | app/services/ai/chat/humanize_error.rb:8 | the prefix matches in any case and the match covers prefix and word |
| HumanizeError.DocsPrefixLower | app/services/ai/chat/humanize_error.rb:8 | the docs prefix is lower-case |
| HumanizeError.LowerPrefixMatches | app/services/ai/chat/humanize_error.rb:8 | a lower-case prefix matches case-insensitively |
| Text.DowncaseOfLower | app/services/ai/chat/humanize_error.rb:21-25 | text without upper-case letters is its own lower case |
| HumanizeError.TakeWordOf | app/services/ai/chat/humanize_error.rb:8 | `\S+` takes the whole word up to the whitespace |
| Harden.SchemeRun | app/services/ai/links/harden.rb:68 | the longest run of scheme characters at the start |
| Harden.Scheme | app/services/ai/links/harden.rb:68 | a scheme name at the start of the href followed by ":" |
| Harden.AllSpaceIsBlank | app/services/ai/links/harden.rb:58 | a token is blank exactly when it is all whitespace |
| Harden.LoweredSpec | app/services/ai/links/harden.rb:58 | each token lower-cased, in order |
| Harden.DowncaseKeepsBlank | app/services/ai/links/harden.rb:58 | lower-casing keeps blankness |
| Harden.NonBlankSpec | app/services/ai/links/harden.rb:58 | exactly the non-blank tokens |
| Harden.RelTokensSpec | app/services/ai/links/harden.rb:58 | the rel tokens are the lower-cased non-blank words of rel, none blank |
| Harden.Absent | app/services/ai/links/harden.rb:59-61 | exactly the required tokens not yet present |
| Harden.AppendRequired | app/services/ai/links/harden.rb:59-61 | the loop appends exactly the missing required tokens |
| Harden.Anchor.constructor | app/services/ai/links/harden.rb:51 | the node holds the given attributes |
| Harden.HardenedHref | app/services/ai/links/harden.rb:52-53 | the href is removed exactly when it is unsafe after stripping, and is otherwise kept as it is |
| Harden.StrippedHrefIsStrip | app/services/ai/links/harden.rb:52 | the href tested is the stripped attribute text |
| Harden.HardenAnchor | app/services/ai/links/harden.rb:51-63 | the node's attributes afterwards are the hardened attributes of the old ones |
| Harden.HardenAnchors | app/services/ai/links/harden.rb:47-49 | every node ends up hardened from its own old attributes |
| Harden.SchemeIsUnique | app/services/ai/links/harden.rb:68 | a scheme name followed by ":" at any position is the match |
| Harden.UnsafeHrefIff | app/services/ai/links/harden.rb:65-73 | with a scheme, unsafe if and only if there is no safe prefix and the lower-cased scheme is not http, https, mailto or tel |
| Harden.NoSchemeIsSafe | app/services/ai/links/harden.rb:68-69 | an href without a scheme is safe |
| Harden.UnsafeIsPresent | app/services/ai/links/harden.rb:53 | an unsafe href is never blank |
| Harden.SafePrefixIsSafe | app/services/ai/links/harden.rb:66 | an href starting with "#", "/", "./", "../" or "?" is safe |
| Harden.AbsentSkips | app/services/ai/links/harden.rb:59-61 | a token not required changes nothing that is missing |
| Harden.AddMissingSpec | app/services/ai/links/harden.rb:59-61 | the existing tokens, in order, followed by the missing required ones |
| Harden.WithRequiredIsAddMissing | app/services/ai/links/harden.rb:59-61 | adding noopener then noreferrer is adding the missing required tokens |
| Harden.HardenedRelTokens | app/services/ai/links/harden.rb:58-62 | existing rel tokens keep their order, and both required tokens end up present |
| Harden.AddMissingIdempotent | app/services/ai/links/harden.rb:59-61 | hardening rel twice adds nothing the second time |
| Harden.AbsentWhenAllPresent | app/services/ai/links/harden.rb:60 | nothing is added when all required tokens are present |
| Pricing.Underscored | app/services/ai/usage/pricing.rb:16 | replacing each run of other characters by one "_" leaves only [A-Z0-9_], never two "_" in a row |
| Pricing.SliceOfUnderscoredText | app/services/ai/usage/pricing.rb:16 | a slice of such text keeps its shape |
| Pricing.TrimUnderscores | app/services/ai/usage/pricing.rb:16 | after trimming "_" at both ends the text is empty or a normalized name |
| Pricing.TrimLeading | app/services/ai/usage/pricing.rb:16 | removes exactly the leading "_" |
| Pricing.TrimTrailing | app/services/ai/usage/pricing.rb:16 | removes exactly the trailing "_" |
| Pricing.NormalizeModel | app/services/ai/usage/pricing.rb:15-17 | always a non-empty name of [A-Z0-9_] with no "_" at either end |
| Pricing.UnknownIsNormalized | app/services/ai/usage/pricing.rb:16 | "UNKNOWN" has the shape of a normalized name |
| Pricing.ForModel | app/services/ai/usage/pricing.rb:7-13 | a per-model rate set in the environment is used |
| Pricing.NameCharsAppend | app/services/ai/usage/pricing.rb:16 | the letters and digits of a concatenation are those of the parts |
| Pricing.NameCharsOfUnderscores | app/services/ai/usage/pricing.rb:16 | underscores carry no letters or digits |
| Pricing.NameCharsOfUpcase | app/services/ai/usage/pricing.rb:16 | upper-casing keeps the letters and digits, upper-cased |
| Pricing.NameCharsOfUnderscored | app/services/ai/usage/pricing.rb:16 | replacing runs keeps the letters and digits |
| Pricing.NameCharsOfTrim | app/services/ai/usage/pricing.rb:16 | trimming keeps the letters and digits |
| Pricing.NameCharsOfTrimLeading | app/services/ai/usage/pricing.rb:16 | trimming the front keeps the letters and digits |
| Pricing.NameCharsOfTrimTrailing | app/services/ai/usage/pricing.rb:16 | trimming the end keeps the letters and digits |
| Pricing.NormalizedNotBlank | app/services/ai/usage/pricing.rb:16 | a normalized name is present and has a letter or digit |
| Pricing.NormalizeModelKeepsAlnums | app/services/ai/usage/pricing.rb:16 | a model without letters or digits is "UNKNOWN"; otherwise the name keeps exactly the model's upper-cased letters and digits, in order |
| Pricing.UnderscoredOfNormalized | app/services/ai/usage/pricing.rb:16 | normalized text has no runs to replace |
| Pricing.UpcaseOfNormalized | app/services/ai/usage/pricing.rb:16 | normalized text is its own upper case |
| Pricing.NormalizedIsFixed | app/services/ai/usage/pricing.rb:16 | a normalized name normalizes to itself |
| Pricing.NormalizeModelIdempotent | app/services/ai/usage/pricing.rb:15-17 | normalizing twice is normalizing once |
| Pricing.RatesFallBack | app/services/ai/usage/pricing.rb:4-13 | without per-model keys the rates are the defaults |
| Pricing.SameNameSameRates | app/services/ai/usage/pricing.rb:7-13 | models with the same normalized name have the same rates |
| Messages.AiMessage.constructor | app/models/ai_message.rb:2-7 | a new AI message has the given columns and actions and no meta |
| Messages.UserMessage.constructor | app/models/user_message.rb:2-9 | a new user message has the given columns and no AI message yet |
| Messages.ChatRecord.constructor | app/models/chat.rb:2 | the record holds the given chat columns |
| Messages.Broadcaster.constructor | app/services/ai/process_user_message/chat_reply_step.rb:53-55 | nothing has been broadcast yet |
| Messages.Broadcaster.Send | app/services/ai/process_user_message/chat_reply_step.rb:18-38 | the broadcast is recorded after the earlier ones |
| PersistReply.WithText | app/services/ai/chat/persist_reply.rb:36-60 | content merged with the text: "text" reads the new text, every other key is kept, a non-Hash content counts as {} |
| PersistReply.Running | app/services/ai/chat/persist_reply.rb:23-25 | status running and no error, nothing else changed |
| PersistReply.FailedWith | app/services/ai/chat/persist_reply.rb:71-73 | status failed with the error's message, nothing else changed |
| PersistReply.Appended | app/services/ai/chat/persist_reply.rb:33-48 | status streaming and the text extended by the delta |
| PersistReply.Done | app/services/ai/chat/persist_reply.rb:64-68 | status done with the model; frozen_at kept when set, else now; id, instruction and error unchanged |
| PersistReply.CleanText | app/services/ai/chat/persist_reply.rb:54-57 | the final text is a confirmation sentence ending in "." |
| PersistReply.MarkRunning | app/services/ai/chat/persist_reply.rb:23-25 | the user message's columns become the running ones; its AI message is kept |
| PersistReply.EnsureAiMessage | app/services/ai/chat/persist_reply.rb:27-30 | an existing AI message is returned; otherwise a new streaming one with {} content and no actions is created and attached |
| PersistReply.AppendDelta | app/services/ai/chat/persist_reply.rb:33-48 | a blank delta changes nothing and returns nil; otherwise the text is extended and the new text returned |
| PersistReply.Finalized | app/services/ai/chat/persist_reply.rb:59-62 | status done and the text is the clean text |
| PersistReply.Finalize | app/services/ai/chat/persist_reply.rb:51-69 | the AI message holds the confirmation of the text and is done; the user message is done with the model and frozen_at |
| PersistReply.FinalizeAi | app/services/ai/chat/persist_reply.rb:59-62 | the AI message's columns become the finalized ones; its meta is kept |
| PersistReply.MarkDone | app/services/ai/chat/persist_reply.rb:64-68 | the user message's columns become the done ones; its AI message is kept |
| PersistReply.MarkFailed | app/services/ai/chat/persist_reply.rb:71-73 | the user message's columns become the failed ones; its AI message is kept |
| PersistReply.AppendTwice | app/services/ai/chat/persist_reply.rb:39-40 | appending a then b gives the same text as appending a + b |
| PersistReply.AppendKeepsOtherKeys | app/services/ai/chat/persist_reply.rb:43 | appending leaves every other content key alone |
| PersistReply.DoneKeepsFrozenAt | app/services/ai/chat/persist_reply.rb:67 | finalizing again keeps the first frozen_at |
| ChatReplyStep.StreamDeltas | app/services/ai/process_user_message/chat_reply_step.rb:20-35 | the loop accumulates the non-blank deltas, sends the throttled broadcasts and appends each non-blank delta to the AI message |
| ChatReplyStep.Open | app/services/ai/process_user_message/chat_reply_step.rb:12-35 | the message is marked running, the AI message reused or created, "start" broadcast, then the deltas streamed |
| ChatReplyStep.Close | app/services/ai/process_user_message/chat_reply_step.rb:37-45 | success finalizes both messages, broadcasts final and sets the context's AI message; an error marks the message failed, broadcasts a warning and is passed on |
| ChatReplyStep.Finish | app/services/ai/process_user_message/chat_reply_step.rb:37-38 | the AI message holds the cleaned confirmation text and is done, the user message is done with the model, and exactly the final broadcast is sent |
| ChatReplyStep.Call | app/services/ai/process_user_message/chat_reply_step.rb:11-45 | the whole step: broadcasts in order (start, throttled streams, then final or a warning), the message's status path, and the error re-raised with nothing else changed |
| ChatReplyStep.RunAccumulates | app/services/ai/process_user_message/chat_reply_step.rb:21-23 | the accumulated text is the concatenation of the non-blank deltas |
| ChatReplyStep.AppendAllText | app/services/ai/process_user_message/chat_reply_step.rb:24 | the stored text grows by exactly the accumulated text |
| ChatReplyStep.RunThrottled | app/services/ai/process_user_message/chat_reply_step.rb:4-34 | broadcasts are spaced by at least ten characters, each of the text so far, and fewer than ten characters stay unbroadcast |
| ChatReplyStep.StepThrottled | app/services/ai/process_user_message/chat_reply_step.rb:26-34 | one delta keeps the throttling invariant |
| ChatReplyStep.BlankDeltaIgnored | app/services/ai/process_user_message/chat_reply_step.rb:21 | a blank delta changes nothing |
| ProcessContext.ShouldGenerateArtifact | app/services/ai/process_user_message/context.rb:25-29 | true without meta, else exactly when the should_generate_artifact entry is truthy |
| ProcessContext.ContextTextAfter | app/services/ai/process_user_message/context.rb:16-23 | the stored text when present, else the built one |
| ProcessContext.Initial | app/services/ai/process_user_message/context.rb:7-14 | no AI message, no meta, artifact_updated false, no steps run, and the context text stripped |
| ProcessContext.Context.constructor | app/services/ai/process_user_message/context.rb:7-14 | the user message, chat, model and provider are the given ones and the run state is the initial one |
| ProcessContext.Context.ContextText | app/services/ai/process_user_message/context.rb:16-23 | returns the stored text when present, otherwise builds and stores it; nothing else changes |
| ProcessContext.ContextTextMemoised | app/services/ai/process_user_message/context.rb:16-23 | once a non-blank text is stored, later calls return it without building |
| ProcessUserMessage.StepIntent | app/services/ai/process_user_message/intent_step.rb:8-21 | without an AI message the intent is the fallback, otherwise the one extracted from the reply |
| ProcessUserMessage.IntentStep | app/services/ai/process_user_message/intent_step.rb:8-45 | returns the intent the reply yields; meta is set to that intent, the suggested title is applied to the chat, the step is recorded, and the user message is left unchanged |
| ProcessUserMessage.StoredIntent | app/services/ai/process_user_message/intent_step.rb:8-21 | the intent extracted and stored on the AI message is the fallback when there is no AI message, and otherwise the one the reply yields |
| ProcessUserMessage.ActionsStep | app/services/ai/process_user_message/actions_step.rb:8-18 | the step is recorded and any error swallowed; an acknowledgement clears the proposed actions and stores the empty raw reply under "proposed_actions_raw"; any other instruction leaves actions and content as they were (the extraction raises as written) |
| ProcessUserMessage.WithPreview | app/services/ai/process_user_message/artifact_step.rb:59-68 | content merged with the preview text, every other key kept |
| ProcessUserMessage.ArtifactStep | app/services/ai/process_user_message/artifact_step.rb:12-43 | artifact_updated is true exactly when generation and persistence succeed; a generated text becomes the AI message's preview |
| ProcessUserMessage.Steps | app/services/ai/process_user_message.rb:14-19 | a failed chat reply runs nothing after it; otherwise ChatReply, Intent and Actions run first, and Artifact runs if and only if the gate holds |
| ProcessUserMessage.StepsTail | app/services/ai/process_user_message.rb:16-18 | after the chat reply come Intent, Actions and, when gated, Artifact |
| ProcessUserMessage.ReplyStep | app/services/ai/process_user_message.rb:15 | the chat reply step records itself, sets the AI message on success, and passes an error on |
| ProcessUserMessage.FollowUps | app/services/ai/process_user_message.rb:16-18 | the later steps run in order, with the gate read from the meta the intent step set |
| ProcessUserMessage.FollowUpsTrace | app/services/ai/process_user_message.rb:16-18 | Intent, then Actions, then Artifact when gated, are exactly the steps that follow the chat reply |
| ProcessUserMessage.FollowUpsState | app/services/ai/process_user_message.rb:16-18 | after the intent step and the actions-and-artifact steps, meta is the intent and the trace gains exactly the steps after the chat reply |
| ProcessUserMessage.ArtifactIfAsked | app/services/ai/process_user_message.rb:18 | the artifact step runs, and artifact_updated changes, only when the stored meta's flag is truthy |
| ProcessUserMessage.ActionsAndArtifact | app/services/ai/process_user_message.rb:17-18 | the actions step always runs and is followed by the artifact step exactly when the gate holds |
| ProcessUserMessage.GateOf | app/services/ai/process_user_message/context.rb:25-29 | the gate read from the stored intent hash is the intent's own should_generate_artifact flag |
| ProcessUserMessage.AfterReply | app/services/ai/process_user_message.rb:16-18 | after a successful chat reply the trace is the whole step order, meta is the intent, the AI message is kept and artifact_updated follows the gate and the artifact's outcome |
| ProcessUserMessage.Call | app/services/ai/process_user_message.rb:5-19 | the trace is exactly the step order; a chat reply error propagates with no meta and no artifact; otherwise meta is the intent and artifact_updated follows the gate and the artifact's outcome |
| ProcessUserMessage.StepsAtMostOnce | app/services/ai/process_user_message.rb:14-19 | each step runs at most once per call |
| ProcessUserMessage.StepsOrdered | app/services/ai/process_user_message.rb:14-19 | ChatReply is first, Artifact last when it runs, and Intent and Actions second and third |
| ProcessUserMessage.UnparsedIntentGenerates | app/services/ai/intent/extract.rb:38-45 | an intent reply that does not parse falls back to generating the artifact |
| ProcessUserMessage.TitleAppliedSpec | app/services/ai/process_user_message/intent_step.rb:25-38 | the title changes only to the stripped non-blank suggestion and only when the chat may auto-title; nothing else changes |
| ProcessUserMessage.UserTitleKept | app/services/ai/process_user_message/intent_step.rb:34 | a user-set title is never replaced |
| IntentExtract.ToHashKeys | app/services/ai/intent/extract.rb:112-118 | the hash always has the five Symbol keys, in order |
| IntentExtract.ToHashFields | app/services/ai/intent/extract.rb:112-118 | the hash reads back the flag, the flags Hash and the title |
| IntentExtract.TitleSpec | app/services/ai/intent/extract.rb:107 | the title is the stripped suggested_title when that is not blank, and nil otherwise |
| IntentExtract.Normalize | app/services/ai/intent/extract.rb:100-119 | each flag is the truthiness of its String key, the title as above, and flags the given Hash or {}; a non-Hash counts as {} |
| IntentExtract.IndexOf | app/services/ai/intent/extract.rb:93 | the first position of the character, or none |
| IntentExtract.LastIndexOf | app/services/ai/intent/extract.rb:93 | the last position of the character, or none |
| IntentExtract.BraceSpan | app/services/ai/intent/extract.rb:93 | the greedy match from the first "{" to the last "}", present exactly when such a span exists |
| IntentExtract.JsonCandidate | app/services/ai/intent/extract.rb:88-98 | a candidate starts with "{" and ends with "}" |
| IntentExtract.JsonCandidateSpec | app/services/ai/intent/extract.rb:89-95 | the stripped text itself when it is enclosed in braces, else the greedy brace span |
| IntentExtract.ParseJsonObject | app/services/ai/intent/extract.rb:88-98 | succeeds exactly when a candidate exists and parses, giving its value |
| IntentExtract.IntentFor | app/services/ai/intent/extract.rb:30-56 | a failed call or an unparsable reply gives the fallback (generate, no title, no sources); otherwise the normalized intent |
| IntentExtract.MetaOf | app/services/ai/intent/extract.rb:121-132 | the meta holds the intent's fields and the raw payload |
| IntentExtract.Call | app/services/ai/intent/extract.rb:30-132 | the intent is returned and persisted as the AI message's meta; the message's columns are unchanged |
| IntentExtract.WholeObjectParsed | app/services/ai/intent/extract.rb:91 | a reply enclosed in braces is parsed whole |
| IntentExtract.NoBraceFallback | app/services/ai/intent/extract.rb:97 | a reply without "{" gives the fallback |
| RetryUserMessage.Reset | app/services/ai/chat/retry_user_message.rb:34-38 | status queued, no error, artifact_updated_at cleared when the column exists; nothing else changes |
| RetryUserMessage.Outcome | app/services/ai/chat/retry_user_message.rb:17-29 | succeeds (true) exactly when the instruction is present and no run is in progress; a blank instruction is "Missing instruction", checked first, and a running message "Run already in progress" |
| RetryUserMessage.ResetAiMessage | app/services/ai/chat/retry_user_message.rb:40-47 | the AI message loses its proposed actions and meta, and gets {} content and status streaming |
| RetryUserMessage.Call | app/services/ai/chat/retry_user_message.rb:17-30 | an error changes nothing and enqueues nothing; success resets both messages and enqueues the message's id once |
| RetryUserMessage.RetryAgainAllowed | app/services/ai/chat/retry_user_message.rb:22-35 | a reset message may be retried again |
| RetryUserMessage.ResetIdempotent | app/services/ai/chat/retry_user_message.rb:34-38 | resetting twice is resetting once |
| RetryUserMessage.RunningRefused | app/services/ai/chat/retry_user_message.rb:22 | a running message is refused |
| RunUserMessage.StreamDeltas | app/services/ai/run_user_message.rb:60-75 | the loop accumulates every delta, blank ones included, sends a broadcast of the raw accumulated text each time ten more characters have arrived, and appends each delta to the AI message |
| RunUserMessage.OpenChat | app/services/ai/run_user_message.rb:49-75 | the message is marked running, the AI message reused or created, "start" broadcast with empty text, then the deltas streamed |
| RunUserMessage.CloseChat | app/services/ai/run_user_message.rb:77-85 | success finalizes both messages with the model and broadcasts final; an error marks the message failed, broadcasts a warning and is passed on with the AI message's text unchanged |
| RunUserMessage.FailChat | app/services/ai/run_user_message.rb:81-84 | the message is marked failed and exactly the warning is broadcast |
| RunUserMessage.UpdateChat | app/services/ai/run_user_message.rb:48-86 | the whole chat half: broadcasts in order, the user message's status path (running, then done or failed) and the error re-raised |
| RunUserMessage.ContentIndex | app/services/ai/run_user_message.rb:248-249 | finds the first of content, data, body and text that the table has |
| RunUserMessage.ContentAttributes | app/services/ai/run_user_message.rb:247-257 | the first content column the table has gets the text, wrapped as {"text" => text} for a json or jsonb column; no such column raises the "no supported content field" error |
| RunUserMessage.WithDataset | app/services/ai/run_user_message.rb:206-217 | a dataset locked by the user is never overwritten; otherwise dataset_json (and sources_json when the column exists) take the extracted values; no other column changes |
| RunUserMessage.PersistOutcome | app/services/ai/run_user_message.rb:189-245 | a failure (no content column, or the save failing) leaves the row alone and returns the generated text; otherwise the stored row and returned text carry the dataset-injected text |
| RunUserMessage.PersistArtifact | app/services/ai/run_user_message.rb:189-245 | the artifact row and the returned text are those PersistOutcome gives |
| RunUserMessage.AssignDataset | app/services/ai/run_user_message.rb:206-217 | the row after the locked assignment is the one WithDataset describes: dataset and sources written unless the user locked them |
| RunUserMessage.DatasetAfterContent | app/services/ai/run_user_message.rb:203-217 | writing the content column before the dataset gives the same row as writing it after |
| RunUserMessage.UpdateArtifact | app/services/ai/run_user_message.rb:101-148 | a generation error shows the failure text and changes nothing; otherwise the preview is stored on the AI message and the artifact persisted as PersistOutcome says |
| RunUserMessage.PreviewStored | app/services/ai/run_user_message.rb:119-121 | Hash, nil or false content gets the preview and keeps every Hash key; any other content raises inside the rescue and is left as it was |
| RunUserMessage.PreviewOfFalse | app/services/ai/run_user_message.rb:120 | a false content becomes a Hash holding the preview alone |
| RunUserMessage.Call | app/services/ai/run_user_message.rb:36-40 | the chat error propagates and leaves the artifact alone; on success the result is the text the artifact view shows |
| RunUserMessage.RawRunAccumulates | app/services/ai/run_user_message.rb:68 | the accumulated text is the concatenation of all deltas |
| RunUserMessage.RawRunThrottled | app/services/ai/run_user_message.rb:25-74 | broadcasts are spaced by at least ten characters, each of the raw text so far, and fewer than ten characters stay unbroadcast |
| RunUserMessage.RawStepThrottled | app/services/ai/run_user_message.rb:71-74 | one delta keeps the throttling invariant |
| RunUserMessage.LockedDatasetKept | app/services/ai/run_user_message.rb:181-213 | a persisted artifact whose dataset the user locked keeps its dataset_json and sources_json |
| RunUserMessage.PreparedKeepsDataset | app/services/ai/run_user_message.rb:190-199 | filling company_id and created_by_id leaves the dataset columns and the lock alone |
| RunUserMessage.ContentColumnsAreNotDataset | app/services/ai/run_user_message.rb:248 | no content column is a dataset column |
| RunUserMessage.InjectedWhenDataset | app/services/ai/run_user_message.rb:183-228 | when the stored dataset is present the returned text is the injected one and the content column holds it |
| RunUserMessage.SaveFailureKeepsRow | app/services/ai/run_user_message.rb:234-244 | a failed save returns the generated text and leaves the row unchanged |
| RunUserMessage.ContentColumnFirst | app/services/ai/run_user_message.rb:248 | a table with a content column stores the text there |
| RunUserMessage.ContextTextGiven | app/services/ai/run_user_message.rb:33-89 | a non-blank given context is used, stripped at both ends |
| DatasetExtract.DatasetJson | app/services/ai/artifacts/dataset/extract.rb:41-121 | nil for blank HTML, a missing node, a blank or over-150000-byte script, unparsable JSON or an invalid object; otherwise exactly the parsed object, which then has an Integer version and a non-empty datasets array of entries with a String schema and Array rows |
| DatasetExtract.BeforeColon | app/services/ai/artifacts/dataset/extract.rb:86 | the longest colon-free prefix of the href |
| DatasetExtract.CleanHref | app/services/ai/artifacts/dataset/extract.rb:80-88 | a kept href is the stripped href capped at 2000 characters, and its lower-cased scheme is not javascript, data or vbscript; a blank href is dropped |
| DatasetExtract.SourceEntry | app/services/ai/artifacts/dataset/extract.rb:73-91 | an item gives no entry exactly when its stripped text is blank; an entry has text of 1 to 500 characters and a safe href only when one was kept |
| DatasetExtract.Entries | app/services/ai/artifacts/dataset/extract.rb:73-93 | at most one entry per item, every one well formed |
| DatasetExtract.SourcesJson | app/services/ai/artifacts/dataset/extract.rb:62-96 | nil for blank HTML or no list; otherwise nil or a non-empty array of at most 50 well-formed entries |
| DatasetExtract.Call | app/services/ai/artifacts/dataset/extract.rb:29-37 | both fields; blank HTML gives two nils, and each field is nil or valid |
| DatasetExtract.BeforeColonOf | app/services/ai/artifacts/dataset/extract.rb:86 | the scheme of "p:rest" is p when p has no colon |
| DatasetExtract.JavascriptDropped | app/services/ai/artifacts/dataset/extract.rb:84-88 | a javascript: link is never stored |
| DatasetExtract.JavascriptScheme | app/services/ai/artifacts/dataset/extract.rb:86-87 | a capped href starting "javascript:" has an unsafe scheme |
| ProposedActionsHelper.PresentText | app/helpers/proposed_actions_helper.rb:57-59 | `to_s.presence`: the text when it is not blank, nothing otherwise |
| ProposedActionsHelper.Fallback | app/helpers/proposed_actions_helper.rb:56-59 | the fallback, when there is one, is not blank |
| ProposedActionsHelper.Raw | app/helpers/proposed_actions_helper.rb:52-63 | the listed suggestions and questions when there are any; otherwise the single non-blank fallback of prompt_template, title or subject, or nothing |
| ProposedActionsHelper.Suggestions | app/helpers/proposed_actions_helper.rb:50-64 | a value is suggested exactly when some action's raw list holds it |
| ProposedActionsHelper.StraightQuotes | app/helpers/proposed_actions_helper.rb:81 | curly quotes become straight ones, character by character, and the length is kept |
| ProposedActionsHelper.MapText | app/helpers/proposed_actions_helper.rb:69 | one result per value, in order |
| ProposedActionsHelper.NormalizeAll | app/helpers/proposed_actions_helper.rb:69 | each value normalized, in order |
| ProposedActionsHelper.Kept | app/helpers/proposed_actions_helper.rb:70-73 | exactly the values that are not blank, not the instruction, not low-signal by the example test as written, and concrete |
| ProposedActionsHelper.Uniq | app/helpers/proposed_actions_helper.rb:74 | no repeats, the same set of values, in the order of their first occurrence |
| ProposedActionsHelper.FirstIndex | app/helpers/proposed_actions_helper.rb:74 | the position of the first occurrence of a value |
| ProposedActionsHelper.FirstIndexUnique | app/helpers/proposed_actions_helper.rb:74 | a position with the value and none before it is the first occurrence |
| ProposedActionsHelper.FirstIndexAppend | app/helpers/proposed_actions_helper.rb:74 | appending a value moves no first occurrence, and a new value's first occurrence is the end |
| ProposedActionsHelper.Extract | app/helpers/proposed_actions_helper.rb:49-76 | the first `limit` of the distinct kept normalized suggestions: at most `limit`, each a kept normalized suggestion; fewer than the limit means every kept one is there; nothing kept gives [] |
| ProposedActionsHelper.TakeDistinct | app/helpers/proposed_actions_helper.rb:75 | taking the first n keeps the values distinct |
| ProposedActionsHelper.UniqOfDistinct | app/helpers/proposed_actions_helper.rb:74 | `uniq` of distinct values changes nothing |
| ProposedActionsHelper.LowSignalDropped | app/helpers/proposed_actions_helper.rb:72 | a suggestion low-signal by the test as written is never returned |
| ProposedActionsHelper.InstructionEchoDropped | app/helpers/proposed_actions_helper.rb:66-71 | a suggestion equal, lower-cased, to the squished lower-cased instruction is never returned |
| ProposedActionsHelper.AllLowSignalNothing | app/helpers/proposed_actions_helper.rb:72 | when every suggestion is low-signal by the test as written the result is [] |
| ProposedActionsHelper.NormalizedLowSignal | app/helpers/proposed_actions_helper.rb:69-72 | low-signal values stay low-signal in the normalized list |
| ProposedActionsHelper.SpacedQuoteInert | app/helpers/proposed_actions_helper.rb:84-85 | after the trailing quotes are gone the `\s+["']\z` step removes nothing |
| ProposedActionsHelper.NormalizeClean | app/helpers/proposed_actions_helper.rb:80-87 | a normalized suggestion has single spaces only and no whitespace at either end |
| ProposedActionsHelper.UnquotedSqueezed | app/helpers/proposed_actions_helper.rb:82-85 | squished text with its quotes removed still has single spaces only |
| ProposedActionsHelper.DropLeadingSqueezed | app/helpers/proposed_actions_helper.rb:83 | dropping a prefix keeps single spaces only |
| ProposedActionsHelper.DropTrailingSqueezed | app/helpers/proposed_actions_helper.rb:84 | dropping a suffix keeps single spaces only |
| ProposedActionsHelper.StripSqueezed | app/helpers/proposed_actions_helper.rb:86 | stripping keeps single spaces only and leaves no whitespace at the ends |
| ProposedActionsHelper.SquishSqueezed | app/helpers/proposed_actions_helper.rb:82 | `squish` leaves single spaces only |
| ProposedActionsHelper.NormalizeCleanText | app/helpers/proposed_actions_helper.rb:80-87 | clean unquoted text is its own normalization |
| ProposedActionsHelper.SquishFixed | app/helpers/proposed_actions_helper.rb:82 | squishing clean text changes nothing |
| ProposedActionsHelper.NormalizeQuoted | app/helpers/proposed_actions_helper.rb:80-87 | clean text in any straight quotes normalizes to the text |
| ProposedActionsHelper.QuotedStraight | app/helpers/proposed_actions_helper.rb:81 | straight quotes around straight text are unchanged by the quote translation |
| ProposedActionsHelper.QuotedUnquoted | app/helpers/proposed_actions_helper.rb:82-85 | the quote steps strip exactly the surrounding quotes |
| ProposedActionsHelper.QuotesAround | app/helpers/proposed_actions_helper.rb:83-84 | the leading and trailing quote runs are removed and nothing else |
| ProposedActionsHelper.QuotedSquish | app/helpers/proposed_actions_helper.rb:82 | squishing clean text in quotes changes nothing |
| ProposedActionsHelper.LeadingQuotes | app/helpers/proposed_actions_helper.rb:83 | `sub(/\A["']+/, "")` removes exactly the leading quotes |
| ProposedActionsHelper.TrailingQuotes | app/helpers/proposed_actions_helper.rb:84 | `sub(/["']+\z/, "")` removes exactly the trailing quotes |
| ProposedActionsHelper.ExampleMissedAsWritten | app/helpers/proposed_actions_helper.rb:96 | as written, "e.g. x" is not caught by the example-phrase test |
| ProposedActionsHelper.ExampleCaught | app/helpers/proposed_actions_helper.rb:96 | with the boundary only before "e.g.", the same text is caught and low-signal |
| ProposedActionsHelper.PlainNormalized | app/helpers/proposed_actions_helper.rb:80-87 | plain text is its own normalization |
| ProposedActionsHelper.SuggestionActionRaw | app/helpers/proposed_actions_helper.rb:52-53 | an action with only suggestions suggests exactly them |
| ProposedActionsHelper.LowSignalAloneNothing | app/helpers/proposed_actions_helper.rb:72 | an action suggesting only text low-signal as written gives [] |
| ProposedActionsHelper.PlaceholderTemplateExample | test/helpers/proposed_actions_helper_test.rb:25-33 | "Do you have time [TIMESLOT] on [DATE]?" gives [] |
| ProposedActionsHelper.TemplateLowSignal | app/helpers/proposed_actions_helper.rb:95 | the placeholder template normalizes to low-signal text |
| ProposedActionsHelper.TemplatePlain | app/helpers/proposed_actions_helper.rb:80-87 | the placeholder template is plain text |
| ProposedActionsHelper.TemplatePlaceholder | app/helpers/proposed_actions_helper.rb:95 | "[TIMESLOT]" is a placeholder |
| ComputedCells.DecimalValue | app/services/ai/artifacts/dataset/computed_cells.rb:103-108 | a decimal literal's value is never negative |
| ComputedCells.LettersValue | app/services/ai/artifacts/dataset/computed_cells.rb:233-241 | bijective base 26: a non-empty run of capitals is at least 1, the empty run 0 |
| ComputedCells.RoundHalfAway | app/services/ai/artifacts/dataset/computed_cells.rb:218 | the nearest integer, within one half |
| ComputedCellsProperties.LettersValueOfNumeral | app/services/ai/artifacts/dataset/computed_cells.rb:233-241 | every positive number is the value of its bijective base 26 numeral |
| ComputedCellsProperties.NumeralOfLettersValue | app/services/ai/artifacts/dataset/computed_cells.rb:233-241 | every capital run is the numeral of its value |
| ComputedCellsProperties.PrintWellFormed | app/services/ai/artifacts/dataset/computed_cells.rb:91-132 | a printed expression tree consists of well-formed tokens |
| ComputedCellsProperties.EvaluatePrinted | app/services/ai/artifacts/dataset/computed_cells.rb:76-191 | evaluating the printed tokens of a tree gives the tree's value |
| ComputedCellsProperties.SetCellOutside | app/services/ai/artifacts/dataset/computed_cells.rb:69 | writing one cell changes no cell outside the written indexes and never shrinks the row |
| ComputedCellsProperties.AppliedOutside | app/services/ai/artifacts/dataset/computed_cells.rb:68-72 | applying the columns changes only the computed cells |
| ComputedCellsProperties.FirstPass | app/services/ai/artifacts/dataset/computed_cells.rb:68-72 | when no formula reads a computed cell, one pass leaves every computed cell holding its formula's value |
| ComputedCellsProperties.FixedPoint | app/services/ai/artifacts/dataset/computed_cells.rb:68-72 | a row whose computed cells already hold their values is unchanged by a pass |
| ComputedCellsProperties.CollectColumnsIsKeep | app/services/ai/artifacts/dataset/computed_cells.rb:250-266 | collecting columns is the duplicate filter over the specs |
| ComputedCellsProperties.KeepFirstWins | app/services/ai/artifacts/dataset/computed_cells.rb:262-265 | the filter keeps the first spec for each index |
| ComputedCellsProperties.HashSetTwice | app/services/ai/artifacts/dataset/computed_cells.rb:72 | setting one key twice is setting it once to the last value |
| ComputedCellsProperties.RowsUpdateReadBack | app/services/ai/artifacts/dataset/computed_cells.rb:72 | the rows written back read back, under the same key, and the schema and computed columns are untouched |
| ComputedCellsProperties.ReadKeyAfterSet | app/services/ai/artifacts/dataset/computed_cells.rb:302-306 | a truthy value written under the key `read_key` used reads back, and the key used stays the same |
| ComputedCellsProperties.ReadKeyOther | app/services/ai/artifacts/dataset/computed_cells.rb:302-306 | writing a key of another name leaves `read_key` of a name unchanged |
| ComputedCellsProperties.LiteralFiveCell | app/services/ai/artifacts/dataset/computed_cells.rb:103-217 | the formula "5" gives the Integer 5 |
| ComputedCellsProperties.ReferenceToBCell | app/services/ai/artifacts/dataset/computed_cells.rb:193-210 | the formula "B" copies column B when it holds 5, and gives nil when it is nil |
| TrackRequest.PerMillion | app/services/ai/usage/track_request.rb:239 | a positive token count is a positive number of millions |
| TrackRequest.UsageRow.Update | app/services/ai/usage/track_request.rb:99-121 | the row's columns become the given ones |

## Left out

- LLM clients, streaming transport, web fetching, Turbo broadcasters, the job runner and the database are outside the model. Model replies, fetched data, broadcasts, found records and clocks are parameters or small recording objects.
- `RunUserMessage.Call`: `extract_actions!`, the third call, is not part of it. It calls `Ai::ExtractProposedActions`, and `update_artifact!` calls `Ai::ArtifactDatasetExtractor`. Neither class is defined in the repository, which defines `Ai::Actions::ExtractProposed` and `Ai::Artifacts::Dataset::Extract`. The model assumes the two names stand for those classes. `ExtractProposed.Call` models the former on its own. In `RunUserMessage` the dataset extractor is the `extract` parameter.
- `RunUserMessage.UpdateArtifact`: the "working" and "ready" broadcasts, the monotonic clock and the `sleep` for the 350 ms minimum are not modelled. `current_artifact_text` only feeds the prompt, which is a parameter.
- `ProcessUserMessage.ArtifactStep`: the same waiting and status broadcasts are left out.
- Nokogiri parsing is not modelled. `DatasetExtract` takes the text of the dataset script node and the list items after the "Sources" heading. `Harden` works on anchor objects. `InjectVisuals` and the dataset injector take document surgery as a parameter.
- JSON parsing, SHA-256, `Float#to_s`, `inspect`, `String#to_i`, BigDecimal parsing and printing, and `ENV` are parameters. `Catalog` takes `DEFAULT_TIMEZONE` as a parameter, read from an environment map by `Catalog.DefaultTimezone`.
- `ExtractProposed.Prepared`: it normalises payloads with `DEFAULT_TIMEZONE` read from an environment that does not set it, so a defaulted timezone is "Europe/Vienna". The environment is not threaded through the extraction and run services.
- `Catalog`: `as_system_prompt_json` and `DEFAULT_MORNING_HOUR`, which only feed prompt text, are not modelled.
- `ResolveAvailableData.NeedsSources` and `ResolveAvailableData.ForceRefresh`: the `SOURCE_NEEDS_HEURISTIC` and `REFRESH_SEARCH_PATTERN` regexes (app/services/ai/data/resolve_available_data.rb:4-18) are the parameters `heuristic` and `refreshPattern`. Their words are not modelled, so the model does not say which instructions need sources or force a refresh. It says only how the matches combine with the meta flags and the `force_web_search` setting.
- Case mapping is ASCII only. Unicode `downcase`/`upcase` and Unicode word characters in `\b` are not modelled.
- Floats are real numbers. IEEE rounding error and non-finite values are not modelled. `round(6)` and `round(2)` are exact half-away-from-zero rounding on reals.
- `ArtifactTriggersApi.SecureCompare`: equality only. The constant-time comparison is not modelled.
- `HumanizeError`: the `rescue` that returns the generic sentence cannot be reached in the model, because its functions cannot raise.
- `AssumedDefaults`: the `rescue` that returns `[]` cannot be reached in the model, for the same reason.
- `ShortLabel.Call`: the `rescue` that returns the fallback cannot be reached in the model, for the same reason. Its contract bounds the result at `max_chars + 2` characters.
- `DatasetExtract.Call`: the `rescue` that returns two nils cannot be reached in the model, for the same reason.
- `Values.Get`: its own contract states only when a value is found. That the value is the first entry's with the key is `GetFirst`.
- `Values.DeepCopy`: its own contract states kinds and array lengths. That every Hash key becomes a String key and the copy is a fixed point is stated by `DeepCopyShaped`, `DeepCopyOfShaped` and `DeepCopyIdempotent`.
- `ComputedCells.RowsApplied`: its own contract states the row count. What each row becomes is `ComputedCellsProperties.RowsAppliedSpec`.
- `IntentExtract.ParseJsonObject`: the message of the parser's `JSON::ParserError`, which `call` stores under "error", is not modelled. The constant `ParserErrorMessage` stands for it, because the parser is a parameter that reports only failure.
- `ProposedActionsHelper.Extract`: `limit` is a natural number. A negative limit, which makes Ruby's `first` raise, is not modelled.
- `ProposedActionsHelper`: `proposed_action_summary` is not modelled. It only formats heredoc display text.
- `ProposedActionsHelper`: the "generic field-label" test is not proved as an example. The "concrete suggestions and echo removal" test is not proved either. Their rules are covered by `LowSignalDropped`, `InstructionEchoDropped` and `Extract`'s contract.
- `TrackRequest`: raw provider responses are read as hashes only. Objects answering `usage` or `id` are not modelled.
- `Chats`: `ensure_inbound_email_token`'s retry loop over `SecureRandom` tokens is not modelled.
- `ComputedCellsProperties.ColumnsAppliedIdempotent`: idempotence holds only when no formula reads a computed column. `ForwardReferenceNotIdempotent` shows it fails otherwise.
- `Pricing`: model names are normalised with ASCII letters and digits only.
- The DB lock around the artifact save and the transaction around action persistence are single atomic updates of the store objects. Concurrent runs are not modelled.
- `ChatReplyStep` and `RunUserMessage` streaming: the deltas are a given sequence. A stream that raises part-way is modelled as the complete delta list followed by an error result.

## Findings

| source | as written | input that shows it | evidently intended | confidence | as-written member | corrected member |
|---|---|---|---|---|---|---|
| app/services/ai/artifacts/dataset/computed_cells.rb:215-216 | `value.to_i` truncates, so a value just below an integer is never within 1e-9 of `int` | 435 - 1e-12 stays the Float 435.0 | a result within 1e-9 of an integer is that Integer | not executed | ComputedCellsProperties.NormalizeAsWrittenMissesValueBelowInteger | ComputedCells.Normalize |
| app/services/ai/actions/extract_proposed.rb:62-67 | `extraction_system_prompt(allowed_types:)` is called, but the catalog method takes no argument (app/services/ai/actions/catalog.rb:273) | any instruction that is not an acknowledgement | the prompt is built and the model's actions are parsed and stored | not executed | ExtractProposed.CallAsWritten | ExtractProposed.Call |
| app/services/ai/context/build_context.rb:87 | the ellipsis literal is the three characters "â€¦", so a truncated text is `max + 2` characters long | any text longer than `max > 0` | truncated text is at most `max` characters, ending in "…" | not executed | BuildContext.TruncateAsWrittenOverflows | BuildContext.Truncate |
| app/controllers/api/artifact_triggers_controller.rb:7 | `bearer_token \|\| params[:token]` never reaches the parameter, because `""` is truthy in Ruby | no Authorization header, `token` = the trigger's token | the `token` parameter is used when no bearer token is given | not executed | ArtifactTriggersApi.QueryTokenRefusedAsWritten | ArtifactTriggersApi.QueryTokenAccepted |
| app/helpers/proposed_actions_helper.rb:96 | `\b` after "e.g." needs a word character next, so "e.g." followed by a space or comma is not caught | "e.g. x" | "e.g." starts an example phrase wherever it appears | not executed | ProposedActionsHelper.ExampleMissedAsWritten | ProposedActionsHelper.ExampleCaught |
