# what-u-want: a verified model of the translation pipeline core

This project models the deterministic core of the spreadsheet translator `what-u-want` in Dafny:

- **Batch driver** (`TranslationService`). It cuts a sheet's rows into batches of five and sends one
  model call per batch. It concatenates the returned rows in batch order and reads the row array out
  of the model's JSON reply ("input_data" first, then the first list-valued key other than "rules").
  It rebuilds the CSV header: the first row's keys, then the missing keys in sorted order. It also
  cleans free-text replies of markdown fences and sheet-name lines. The language model is a function
  parameter.
- **Prompt record** sent with every call, and the table of offered languages.
- **Progress tracker.** Five weighted stages, integer percentages, and a per-session registry.
- **Log queues.** A registry of per-session first-in first-out queues, fed by a handler bound to one
  session.
- **Styling arithmetic** of `apply_excel_styling`. Freeze panes, header and body styling with minimum
  row heights, column widths clamped to 10..60 from the longest line of each column, and
  de-duplication of the table name. The sheet is a grid of optional strings with arrays beside it.
- **File-name rules.** The extension whitelist under `pathlib`'s suffix rule, the 50 MB limit, the
  stored upload's unique name, and the output name `stem + "_translated.xlsx"`.

The model follows the code. The code has **no retry and no fallback**: the first batch whose call
fails raises, no later batch is sent, and the sheet (and with it the whole job) fails. The model
does what the code does and proves the abort (`Translator.FailureStopsSheet`). Likewise, the
Korean sheet-name tag the cleaner drops is the literal of app/services/translator.py:335 code point
by code point. That literal is the UTF-8 of "(시트 이름:" read as Windows-1252, so a line with the
proper Korean is kept, as the code keeps it (`CsvCleanup.ProperKoreanKept`).

The source's integers are Python integers, so the model uses unbounded `int`/`nat` throughout. Two
float computations are replaced by exact integer arithmetic (see "Left out"). Randomness (the uuid),
the clock (log timestamps) and the model call are parameters.

Files: `wrappers.dfy` (Option, Result), `text.dfy` (Python string methods), `decimal.dfy` (`str()` of
integers), `order.dfy` (Python string order and `sorted`), `json.dfy` (JSON values and dict
semantics), `prompts.dfy`, `chunking.dfy`, `extraction.dfy`, `csvheader.dfy`, `cleanup.dfy`,
`translator.dfy`, `progress.dfy`, `logqueues.dfy`, `styling.dfy`, `pathnames.dfy`, `validators.dfy`,
`filehandler.dfy`.

## Model

| member | source | states |
|---|---|---|
| Chunking.ChunkCountIsCeiling | app/services/translator.py:242 | `(n + size - 1) // size` batches hold all n rows, and one fewer would not |
| Chunking.Chunks | app/services/translator.py:250-251 | the loop makes exactly as many batches as the ceiling count above |
| Chunking.ChunkStart | app/services/translator.py:250-251 | every batch starts inside the rows, and every batch but the last ends before their end |
| Chunking.ChunkSizes | app/services/translator.py:250-251 | every batch is non-empty and at most `size` long, and every batch but the last is exactly `size` long |
| Chunking.ChunksFlatten | app/services/translator.py:250-251 | concatenating the batches in loop order gives back exactly the rows |
| Chunking.ChunksOfShort | app/services/translator.py:109-115 | rows no more than one batch long form a single batch |
| Chunking.ChunksOfLong | app/services/translator.py:250-251 | a longer list is its first full batch followed by the batches of the rest |
| Chunking.ChunksTail | app/services/translator.py:250-251 | after the first batch come the batches of the remaining rows |
| Chunking.FlattenAppend | app/services/translator.py:259 | extending the result with one more batch appends that batch's rows |
| Json.Names | app/services/translator.py:54 | the names of a row's bindings, position by position |
| Json.Dedup | app/services/translator.py:54 | dict keys: each name once, nothing added or lost, the first name first |
| Json.DedupOrder | app/services/translator.py:54 | the keys come in order of first occurrence: wherever a later key occurs, every earlier key has occurred before |
| Json.DedupDistinct | app/services/translator.py:54 | a name list without repetitions is its own key list |
| Json.Keys | app/services/translator.py:54 | `list(d.keys())` is repetition-free and holds exactly the row's names |
| Json.KeySet | app/services/translator.py:57-59 | `set(d.keys())` holds exactly the row's names |
| Json.Get | app/services/translator.py:186 | `d.get(k)` is present exactly when some binding is named k |
| Json.GetDistinct | app/services/translator.py:186 | in a row without repeated names, `get` finds the one binding of that name |
| Prompts.UserPrompt | app/core/prompts.py:61-79 | the prompt is an object of six bindings |
| Prompts.UserPromptFields | app/core/prompts.py:61-79 | the keys are task, source_language, target_language, rules, input_data and output_format, once each and in that order; task is "translate"; the two codes are as given; rules is the fixed seven-item list; input_data is the rows unchanged; output_format has type "array" |
| Prompts.TableMap | app/core/prompts.py:30-46 | the dict written out by the table has exactly the table's codes as keys |
| Prompts.TableMapOfDistinct | app/core/prompts.py:30-46 | with no repeated code, the dict has one entry per row, each row's name under its code |
| Prompts.LanguageCodesDistinct | app/core/prompts.py:30-46 | no code appears twice, and every code is two lower-case letters |
| Prompts.AvailableLanguages | app/core/prompts.py:82-84 | the languages map has 15 two-letter codes, each with the name the table gives it |
| ResponseExtraction.FirstRowList | app/services/translator.py:191-195 | the position of the first key naming a list other than "rules", and no earlier key does |
| ResponseExtraction.ExtractRows | app/services/translator.py:184-199 | a top-level array is returned as is; an object's "input_data" list wins; otherwise the first list-valued key other than "rules"; it fails exactly when there is no array to take |
| Translator.Interpret | app/services/translator.py:159-220 | a failed call stays a failure; an answer succeeds exactly when extraction does, with the rows found, however many there are |
| Translator.FirstFailure | app/services/translator.py:256-269 | the first failed outcome, with only successes before it, or none at all |
| Translator.Concatenated | app/services/translator.py:250-269 | either the concatenation in batch order of all batches' rows, or the error of the first failing batch, numbered from 1 |
| Translator.Attempted | app/services/translator.py:256-269 | the batches sent are those up to and including the first failure, all of them when none fails |
| Translator.Completed | app/services/translator.py:263-265 | the batches that complete are exactly those before the first failure |
| Translator.ChunkedCalls | app/services/translator.py:250-258 | the batches sent are a prefix of the batches, in order |
| Translator.Notifications | app/services/translator.py:247-248 | with a callback, `chunks_total` comes once first, then `chunk_complete` for 1, 2, ... in ascending order; without one, nothing |
| Translator.NotificationsStep | app/services/translator.py:263-265 | one more completed batch appends exactly its own notification |
| Translator.TranslateInChunks | app/services/translator.py:222-277 | the method's result, batches sent and notifications are those of the specification functions |
| Translator.TranslateBatches | app/services/translator.py:241-269 | the loop yields the concatenation or the first batch's failure, sends exactly the attempted batches and notifies once per completed batch |
| Translator.ChunkStartAfter | app/services/translator.py:250 | the loop index stays inside the rows exactly while batches remain |
| Translator.FirstFailureAt | app/services/translator.py:267-269 | a failure after only successes is the first failure |
| Translator.TranslateCsv | app/services/translator.py:107-115 | more than five rows go through the batch loop; any other number, none included, through one direct call |
| Translator.TranslateMultipleSheets | app/services/translator.py:349-377 | succeeds exactly when no sheet fails, with every sheet under its name in order; otherwise it is the first failing sheet's error, and what was sent and notified is that of the sheets up to that one |
| Translator.FlattenStep | app/services/translator.py:368-375 | processing one more sheet appends its batches |
| Translator.NamedStep | app/services/translator.py:375 | one more translated sheet appends its named table |
| Translator.EchoExtracts | app/core/prompts.py:61-79 | a model that echoes the prompt gets back exactly the rows sent, never the rules list |
| Translator.ShortReplyKept | app/services/translator.py:203-212 | a reply with fewer rows than were sent is returned as it is |
| Translator.MapRowsFlatten | app/services/translator.py:259 | translating row by row commutes with concatenating the batches |
| Translator.RowWiseBatches | app/services/translator.py:241-277 | with a row-wise call every batch is sent and reported complete, and the rows returned are those of one call over the whole sheet, for any batch size |
| Translator.RowWiseSheet | app/services/translator.py:107-115 | both paths of `translate_csv` give the same table for a row-wise call |
| Translator.EchoKeepsSheet | app/services/translator.py:107-115 | end to end, an echoing model leaves the sheet's rows unchanged and the sheet succeeds |
| Translator.FailureStopsSheet | app/services/translator.py:256-269 | the first failing batch ends the sheet with its number, it is the last batch sent, and only the batches before it are reported complete |
| Translator.SheetSentOnce | app/services/translator.py:107-115 | a translated sheet was sent whole, in order, each row once, in batches of at most five, none empty unless the sheet is |
| StringOrder.LessIrreflexive | app/services/translator.py:64 | no string sorts before itself |
| StringOrder.LessTransitive | app/services/translator.py:64 | the string order is transitive |
| StringOrder.LessTotal | app/services/translator.py:64 | of two different strings one sorts first |
| StringOrder.LessAsymmetric | app/services/translator.py:64 | two strings never sort before each other |
| StringOrder.LeastExists | app/services/translator.py:64 | every non-empty finite set of strings has a least element |
| StringOrder.SortedUnique | app/services/translator.py:64 | two ascending sequences with the same elements are equal |
| StringOrder.TailElements | app/services/translator.py:64 | the tail of an ascending sequence holds every element but the head |
| StringOrder.LeastUnique | app/services/translator.py:64 | a set has at most one least element |
| StringOrder.SortedStrings | app/services/translator.py:64 | `sorted(s)` is ascending and holds exactly the elements of s |
| CsvHeader.FirstNonObject | app/services/translator.py:46-50 | the index of the first item that is not a dict, all earlier items being dicts |
| CsvHeader.AllKeys | app/services/translator.py:57-59 | a key is collected exactly when some row uses it |
| CsvHeader.Header | app/services/translator.py:54-64 | the header starts with the first row's keys in order, continues in ascending order, repeats nothing and holds exactly the keys some row uses |
| CsvHeader.HeaderUnique | app/services/translator.py:54-64 | no other sequence has those four properties |
| CsvHeader.SplitHeader | app/services/translator.py:62-64 | a sequence with those properties is the first keys followed by the sorted rest |
| CsvHeader.SortedDistinct | app/services/translator.py:64 | an ascending sequence repeats nothing |
| CsvHeader.DistinctConcat | app/services/translator.py:64 | the first keys and the disjoint sorted extras together repeat nothing |
| CsvHeader.ToCsv | app/services/translator.py:35-71 | no rows give ""; a non-dict item fails at the first such index; otherwise one record per row under the header above |
| CsvHeader.DistinctCard | app/services/translator.py:62 | a set built from a repetition-free list is as large as the list |
| CsvHeader.HeaderFromKeySets | app/services/translator.py:54-64 | the size comparison followed by appending the sorted extras always gives the header |
| CsvHeader.NothingMissing | app/services/translator.py:62 | a key set no larger than the first row's key list adds no key |
| CsvHeader.ToCsvRejects | app/services/translator.py:46-50 | the first non-dict item decides the error |
| CsvHeader.ToCsvAccepts | app/services/translator.py:52-71 | a non-empty list of dicts always gives a table |
| CsvHeader.CollectKeys | app/services/translator.py:57-59 | the loop collects exactly the keys some row uses |
| CsvHeader.JsonToCsv | app/services/translator.py:35-71 | the step-by-step method computes `ToCsv` |
| Text.TrimStart | app/services/translator.py:347 | `lstrip` never lengthens |
| Text.TrimStartSuffix | app/services/translator.py:347 | `lstrip` removes a whitespace prefix and leaves text that does not start with whitespace |
| Text.TrimEnd | app/services/translator.py:347 | `rstrip` never lengthens |
| Text.TrimEndPrefix | app/services/translator.py:347 | `rstrip` removes a whitespace suffix and leaves text that does not end with whitespace |
| Text.Strip | app/services/translator.py:347 | `strip` never lengthens |
| Text.StripIsSlice | app/services/translator.py:347 | `strip` is a contiguous slice with only whitespace cut on both sides, and keeps no whitespace at either end |
| Text.Split | app/services/translator.py:330 | `split` gives at least one piece and no piece holds the separator |
| Text.Join | app/services/translator.py:345 | joining one piece gives that piece |
| Text.JoinSplit | app/services/translator.py:330-345 | joining the pieces of a split gives back the text |
| Text.RemoveAll | app/services/translator.py:324-326 | removing a pattern never lengthens |
| Text.RemoveFencesLeavesNone | app/services/translator.py:326 | after removing "```" no fence is left, even where removal brings backticks together |
| Text.NoDoubleBacktickStart | app/services/translator.py:326 | removal does not create two leading backticks |
| Text.RemoveAllFenceFree | app/services/translator.py:324-326 | fence-free text is left unchanged by the three removals |
| Text.NoFenceSlice | app/services/translator.py:347 | a piece of fence-free text is fence-free |
| Text.NoFenceSplit | app/services/translator.py:330 | the lines of fence-free text are fence-free |
| Text.PrefixOfSplit | app/services/translator.py:330 | the first piece of a split is a prefix of the text |
| Text.NoFenceJoin | app/services/translator.py:345 | joining fence-free lines with a newline is fence-free |
| Text.Lower | app/utils/validators.py:19 | `lower()` keeps the length and lower-cases each character |
| Text.LowerIdempotent | app/utils/validators.py:19 | lower-cased text has no ASCII capitals, and lower-casing it again changes nothing |
| Text.LowerSlice | app/utils/validators.py:19 | lower-casing commutes with slicing |
| CsvCleanup.DropFlags | app/services/translator.py:333-341 | a line is skipped exactly when it is an annotation, or when it is blank and first |
| CsvCleanup.Filter | app/services/translator.py:333-343 | the kept items are among the input and no more numerous |
| CsvCleanup.FilterPrefix | app/services/translator.py:333-343 | looking at more lines only appends to what is kept |
| CsvCleanup.FilterKeeps | app/services/translator.py:333-343 | an unflagged item is kept, right after what the items before it keep and ahead of every later kept item |
| CsvCleanup.FilterNone | app/services/translator.py:333-343 | with nothing skipped every line is kept |
| CsvCleanup.FilterFirst | app/services/translator.py:333-343 | with only the first line skipped every other line is kept |
| CsvCleanup.Kept | app/services/translator.py:333-343 | every kept line is an input line and not an annotation |
| CsvCleanup.KeptNotAnnotation | app/services/translator.py:335-337 | no annotation line survives |
| CsvCleanup.KeptKeeps | app/services/translator.py:330-343 | every line that is neither an annotation nor a blank first line survives, in its original order |
| CsvCleanup.ProperKoreanKept | app/services/translator.py:335 | the Korean tag is compared as the code spells it, so a line starting with the proper Korean "(시트 이름:" is not treated as an annotation |
| CsvCleanup.Unfence | app/services/translator.py:324-326 | after the three removals no markdown fence is left |
| CsvCleanup.ExtractCsv | app/services/translator.py:313-347 | the method computes `CleanedCsv`: removals, line cleaning, join, strip |
| CsvCleanup.CleanLines | app/services/translator.py:330-343 | the line loop with its two `continue` branches keeps exactly `Kept` |
| CsvCleanup.CleanedHasNoFence | app/services/translator.py:313-347 | the cleaned text contains no fence at all |
| CsvCleanup.TrimStartSpaces | app/services/translator.py:347 | leading whitespace does not survive `strip` |
| CsvCleanup.BlankIsSpaces | app/services/translator.py:340 | a blank line is whitespace only |
| CsvCleanup.CleanInputOnlyStripped | app/services/translator.py:313-347 | fence-free text without annotations is only stripped; dropping a blank first line changes nothing |
| CsvCleanup.BlankOnlyDropped | app/services/translator.py:340-341 | a blank first line is the only line dropped from annotation-free lines |
| CsvCleanup.BlankFirstLine | app/services/translator.py:340-347 | stripping after dropping a blank first line equals stripping everything |
| Decimal.DigitChar | app/utils/progress_tracker.py:86 | the digit character of a value below ten |
| Decimal.DigitValue | app/utils/progress_tracker.py:86 | a digit character stands for a value below ten |
| Decimal.NatToString | app/utils/progress_tracker.py:86 | `str(n)` is non-empty, all digits, with no leading zero |
| Decimal.NatToStringRoundTrip | app/utils/progress_tracker.py:86 | reading back the digits of `str(n)` gives n |
| Decimal.NatToStringInjective | app/services/converter.py:110 | different numbers have different spellings |
| Decimal.IntToStringInjective | app/utils/progress_tracker.py:86 | different integers have different `str()` spellings, the sign included |
| ProgressTracking.Position | app/utils/progress_tracker.py:11-17 | the enum order lists each stage at its position |
| ProgressTracking.Next | app/utils/progress_tracker.py:11-17 | the next stage sits one position later |
| ProgressTracking.WeightSumStep | app/utils/progress_tracker.py:41-44 | one more stage adds its weight |
| ProgressTracking.EndOf | app/utils/progress_tracker.py:100-104 | a stage ends where the next starts, and the last at 100 |
| ProgressTracking.StageStarts | app/utils/progress_tracker.py:24-45 | the starts are 0, 10, 20, 80 and 95 and the weights sum to 100 |
| ProgressTracking.TruncQuot | app/utils/progress_tracker.py:54 | `int()` of a fraction truncates toward zero |
| ProgressTracking.DivisionBounds | app/utils/progress_tracker.py:54 | the quotient of a natural number brackets it |
| ProgressTracking.ProgressOf | app/utils/progress_tracker.py:47-57 | with `0 <= completed <= total`, progress lies between the stage's start and end |
| ProgressTracking.TranslationBand | app/utils/progress_tracker.py:51-54 | in translation with chunks announced, progress lies in [20, 80] and is 80 once all chunks are done |
| ProgressTracking.QuotientBounds | app/utils/progress_tracker.py:54 | a number between `lo * d` and `hi * d` gives a quotient between lo and hi |
| ProgressTracking.TranslationFinishes | app/utils/progress_tracker.py:51-54 | translation at completion reports where excel generation starts |
| ProgressTracking.ProgressAtStageStart | app/utils/progress_tracker.py:55-57 | in any other stage, or with no chunks announced, progress is the stage's start |
| ProgressTracking.ProgressMonotone | app/utils/progress_tracker.py:53-54 | for a fixed total, more completed chunks never mean less progress |
| ProgressTracking.QuotientMonotone | app/utils/progress_tracker.py:54 | truncating division by a positive number is monotone |
| ProgressTracking.NaturalQuotientMonotone | app/utils/progress_tracker.py:54 | on non-negative numbers, truncating division is monotone |
| ProgressTracking.MessageOr | app/utils/progress_tracker.py:71 | `message or default`: a present non-empty message is kept, an absent or empty one gives the default |
| ProgressTracking.ProgressTracker.constructor | app/utils/progress_tracker.py:32-36 | a new tracker is at upload with 0 of 0 chunks |
| ProgressTracking.ProgressTracker.GetStageStartPercentage | app/utils/progress_tracker.py:38-45 | the accumulating loop with its break returns the stage's start |
| ProgressTracking.ProgressTracker.CalculateProgress | app/utils/progress_tracker.py:47-57 | the tracker's progress is `ProgressOf` of its stage and counters |
| ProgressTracking.ProgressTracker.SetStage | app/utils/progress_tracker.py:59-72 | the stage is entered, the counters stay, and the milestone reports the new progress and the message or "Stage: ..." |
| ProgressTracking.ProgressTracker.SetTranslationChunks | app/utils/progress_tracker.py:74-77 | the total is set, completed reset to 0, the stage kept |
| ProgressTracking.ProgressTracker.IncrementChunk | app/utils/progress_tracker.py:80-98 | both counters are overwritten (not added to), the stage is kept, and the event's percentage is the progress after the update |
| ProgressTracking.ProgressTracker.CompleteStage | app/utils/progress_tracker.py:100-115 | the completed milestone reports the stage's end; the tracker is not modified |
| ProgressTracking.ProgressRegistry.constructor | app/utils/progress_tracker.py:119 | the registry starts empty |
| ProgressTracking.ProgressRegistry.Get | app/utils/progress_tracker.py:122-126 | a known id gives its tracker and changes nothing; a new id gets a fresh tracker at upload with 0 of 0, only that entry added |
| ProgressTracking.ProgressRegistry.Cleanup | app/utils/progress_tracker.py:129-133 | only that id is removed, and nothing happens when it is absent |
| SessionLogs.LogQueue.constructor | app/utils/log_handler.py:19 | a new queue is empty |
| SessionLogs.LogQueue.Put | app/utils/log_handler.py:28-32 | `put` appends at the back |
| SessionLogs.LogQueue.Get | app/api/routes.py:194 | `get` takes the front entry, or reports the queue empty and changes nothing |
| SessionLogs.LogQueue.Drain | app/api/routes.py:194 | draining yields the entries in the order they were put and empties the queue |
| SessionLogs.LogRegistry.constructor | app/utils/log_handler.py:7 | the registry starts empty |
| SessionLogs.LogRegistry.CreateSession | app/utils/log_handler.py:37-41 | the id is registered with a fresh empty queue, and no other session changes |
| SessionLogs.LogRegistry.GetLogQueue | app/utils/log_handler.py:44-46 | the session's queue, or None for an unknown id |
| SessionLogs.LogRegistry.CleanupSession | app/utils/log_handler.py:49-52 | only that id is removed, and nothing happens when it is absent |
| SessionLogs.SessionHandler.constructor | app/utils/log_handler.py:13-19 | a queue is created only if the id has none; an existing queue and its entries are kept |
| SessionLogs.SessionHandler.Emit | app/utils/log_handler.py:21-32 | a registered session's queue gets exactly one entry (level, message, timestamp) at the end; otherwise nothing changes |
| Styling.LineEnd | app/services/converter.py:93 | the first line boundary, with none before it |
| Styling.SplitLines | app/services/converter.py:93 | `splitlines` gives lines without boundaries, and none for the empty text |
| Styling.LineEndAfter | app/services/converter.py:93 | the first boundary is found at the end of boundary-free text |
| Styling.SplitLinesAt | app/services/converter.py:93 | a boundary (other than the `\r` of `\r\n`) ends exactly the line before it, and the rest is split on |
| Styling.SplitLinesCrLf | app/services/converter.py:93 | `\r\n` is one boundary: it ends the line before it and starts no empty line |
| Styling.SingleLine | app/services/converter.py:93 | text without boundaries is one line |
| Styling.LongestLineIsLongest | app/services/converter.py:93 | a cell's length is the length of its longest line: no line is longer, and some line has it (0 for empty text) |
| Styling.LongestOf | app/services/converter.py:93 | the maximum of the line lengths, 0 for none |
| Styling.SingleLineLength | app/services/converter.py:93 | a one-line cell measures its own length |
| Styling.MaxLengthIsMax | app/services/converter.py:86-94 | the column length is reached by some non-empty cell and exceeded by none; absent cells are skipped |
| Styling.MaxLengthStep | app/services/converter.py:94 | one more cell raises the running maximum to its longest line when that is longer |
| Styling.ColumnWidth | app/services/converter.py:82-97 | the width is between 10 and 60; below the cap it leaves at least two characters of padding; a length up to 7 gives 10 |
| Styling.ColumnWidthMonotone | app/services/converter.py:97 | a longer column is never narrower |
| Styling.EmptyColumnWidth | app/services/converter.py:86-97 | a column whose cells are all absent or empty gets width 10 |
| Styling.Worksheet.constructor | app/services/converter.py:43-44 | a worksheet over the given grid and arrays, with no freeze cell or filter yet |
| Styling.RaisedHeight | app/services/converter.py:74-75 | `max(current or 0, minimum)` is at least the minimum and the old height, and one of them |
| Styling.StyleHeader | app/services/converter.py:63-70 | the header row gets its height and every one of its cells the header style, nothing else changes |
| Styling.StyleBody | app/services/converter.py:72-79 | every row below the header is raised to the minimum height and gets the body style, the rows above are untouched |
| Styling.StyleBodyRow | app/services/converter.py:76-79 | every cell of one row gets the body style |
| Styling.MaxCellLength | app/services/converter.py:86-94 | the running maximum loop computes the column length |
| Styling.FitColumns | app/services/converter.py:85-98 | every column gets the width its length asks for |
| Styling.FreeNameUnique | app/services/converter.py:105-111 | the loop can settle on only one name |
| Styling.NumberedNamesDistinct | app/services/converter.py:110 | numbered names differ from the bare name and from each other |
| Styling.ChooseTableName | app/services/converter.py:105-111 | the chosen name is not taken: it is the name itself when free, otherwise the name with the least number from 2 on that is free |
| Styling.SubsetCard | app/services/converter.py:109 | the names tried can never outnumber the existing names, so the loop ends |
| Styling.NotTriedYet | app/services/converter.py:109-111 | each name tried is new |
| Styling.ApplyExcelStyling | app/services/converter.py:39-124 | freeze panes are always set; with no header row or no column nothing else changes; otherwise header and body styled, every height at least the minimum below the header, the columns fitted, and one table under a free name over the used range, which also becomes the auto-filter |
| PathNames.Components | app/utils/validators.py:19 | path components are non-empty, not ".", and free of "/" |
| PathNames.Proper | app/utils/validators.py:19 | empty and "." pieces are dropped |
| PathNames.Name | app/utils/validators.py:19 | the final component has no "/" and is not "." |
| PathNames.SplitWithoutSeparator | app/utils/validators.py:19 | text without "/" is one component |
| PathNames.NameOfPlainName | app/utils/validators.py:19 | a plain file name is its own final component |
| PathNames.LastDot | app/utils/validators.py:19 | the last dot, with no dot after it, or -1 |
| PathNames.NameSuffix | app/utils/validators.py:19 | the suffix is empty or a dot-led ending of at least two characters shorter than the name, with no further dot |
| PathNames.NameStem | app/services/file_handler.py:68 | the stem is no longer than the name |
| PathNames.StemSuffix | app/services/file_handler.py:34 | stem followed by suffix is the name again |
| PathNames.Suffix | app/services/file_handler.py:34 | the suffix of a path holds no "/" |
| PathNames.Stem | app/services/file_handler.py:68 | the stem of a path holds no "/" |
| PathNames.SuffixOfEnding | app/utils/validators.py:19 | a name ending in a dot-led, dot-free extension after other text has that extension as suffix |
| PathNames.LastDotIs | app/utils/validators.py:19 | the last dot is the one after which no dot follows |
| PathNames.NoDotNoSuffix | app/utils/validators.py:19 | a name without a dot has no suffix |
| PathNames.PlainNameParts | app/services/file_handler.py:34-68 | stem plus one dot-led extension is its own name, with that suffix and that stem |
| Validators.ValidateFileExtension | app/utils/validators.py:6-24 | `True`, or the error naming the lower-cased suffix |
| Validators.ValidateFileSize | app/utils/validators.py:27-44 | accepted exactly up to and including 52428800 bytes, and the error above |
| Validators.ExtensionAccepted | app/utils/validators.py:19-20 | a name is accepted exactly when its final component ends in ".csv" or ".xlsx", in any case, after at least one other character |
| Validators.EndingGivesSuffix | app/utils/validators.py:19-20 | an allowed ending makes an allowed suffix |
| Validators.SuffixGivesEnding | app/utils/validators.py:19-20 | an allowed suffix is an allowed ending |
| Validators.LowerKeepsDots | app/utils/validators.py:19 | lower-casing neither makes nor removes dots |
| Validators.SuffixDecides | app/utils/validators.py:19-23 | only the lower-cased last extension decides ("DATA.CSV" and "a.exe.csv" are accepted, "a.csv.exe" is refused), and a refusal reports it |
| Validators.RejectsWithoutSuffix | app/utils/validators.py:19-23 | a name with no dot, or only a leading one (".csv"), is refused with an empty extension |
| FileHandling.GenerateOutputFilename | app/services/file_handler.py:58-69 | the output name ends in "_translated.xlsx" and what precedes it has no "/" |
| FileHandling.OutputReplacesSuffix | app/services/file_handler.py:68-69 | cutting "_translated.xlsx" off the output and putting the upload's suffix back gives the upload's final component: only the suffix was replaced |
| FileHandling.OutputOfPlainName | app/services/file_handler.py:68-69 | only the final extension is replaced, so "a.b.csv" gives "a.b_translated.xlsx" |
| FileHandling.FallbackOutput | app/api/routes.py:110-111 | the fallback name gives "translated_file_translated.xlsx" |
| FileHandling.SplitAtFirst | app/services/file_handler.py:68 | splitting at a first separator puts the text before it first |
| FileHandling.NameAfterDirectory | app/services/file_handler.py:68 | a directory in front of a name does not change the final component |
| FileHandling.OutputIgnoresDirectory | app/services/file_handler.py:68 | directory components do not reach the output name |
| FileHandling.OutputFilenameFor | app/api/routes.py:110-111 | a missing or empty upload name gives "translated_file_translated.xlsx", any other the generated name |
| FileHandling.UniqueKeepsExtension | app/services/file_handler.py:34-35 | the stored name is a plain name keeping the upload's extension |
| FileHandling.SaveUploadFile | app/services/file_handler.py:17-46 | succeeds exactly when the extension and the size pass, under the unique name; the extension error comes first, then the size error |

## Left out

- The model call itself (the OpenAI client, `response_format`, token counting and `_calculate_cost`) is a parameter of type `Json -> Reply`. A request that raises, a `None` content and JSON that does not parse all become `Failed`. The reason text and the logging are not modelled.
- CSV and JSON text: `_csv_to_json` (`csv.DictReader`), `csv.DictWriter`'s quoting and line ends, and `json.dumps`/`json.loads` are library code. Rows are ordered key/value sequences, and `_json_to_csv`'s result is the header with one record per row. The CSV-parsing failure of `translate_csv` is not modelled.
- `_json_to_csv`'s `isinstance(json_data, list)` check cannot fail in the model, because the extractor only ever returns lists.
- The progress callback of `_translate_in_chunks` cannot fail in the model. In the code, a raising `chunk_complete` callback is reported as that batch's failure, and a raising `chunks_total` callback escapes unwrapped. The routes install no callback.
- Numbers, booleans and null are one `JOther` value, because nothing in the core looks into them.
- ProgressTracking.ProgressOf: computed exactly, as `int((start * total + completed * 60) / total)` truncated toward zero. The code goes through the float `completed / total * 60`, which could round differently at exact boundaries.
- Styling.ColumnWidth: `int(max_len * 1.1)` is taken as `(max_len * 11) / 10` in integers, without float rounding.
- Styling: `str(v)` of non-string cell values is not modelled; cells are optional strings. `splitlines` is modelled on the line boundaries Python lists.
- Styling: the style objects (fills, fonts, borders, alignment) are reduced to a `CellStyle` tag per cell. `get_column_letter` and the "A1:X9" reference text are reduced to the range's numbers (`TableRange`). `TableStyleInfo`'s flags are not modelled.
- Styling: the sheet's `max_row`/`max_column` are the grid's dimensions, so rows and columns beyond the data are not represented.
- SessionLogs: the log formatter and `record.levelname`/`record.created` are parameters of `Emit`. `self.format` failing (`handleError`) is not modelled. The thread safety of `queue.Queue` and the `get(timeout=1)` wait are not modelled; `Get` reports an empty queue at once.
- `add_session_handler` and `remove_session_handler` register the handler with the logging framework and are not modelled.
- The uuid of `create_session` and of stored uploads is a parameter.
- FileHandling.SaveUploadFile: the file copy and the size read back from disk are replaced by a `size` parameter. The temporary directory is not part of the name. A too-large upload stays on disk in the code, which the model does not represent.
- PathNames: paths are POSIX paths (`/` only); Windows separators and drive letters are not modelled.
- The HTTP routes, the server-sent-event stream, encoding detection, and the spreadsheet reading and writing (pandas, openpyxl) are not part of this model, apart from the file-name fallback and the queue consumer cited above.
- `InvalidFileFormatError` being a `TranslationError` mapped to status 400 is not modelled; the model returns `ValidationError` values.
- Text.Lower: only ASCII letters are lower-cased, which is all that the allowed extensions need. Python's full Unicode case mapping is not modelled.
