# Image generation worker and realtime search answer, modelled in Dafny

This project models two backends of a voice assistant.

**Image generation** (`image_generation.dfy`, module `ImageGeneration`) is a
worker that polls a trigger file. The file holds one `prompt,status` record.
When the trimmed status is exactly `True`, the worker:

- builds four text-to-image payloads, each with the prompt, a fixed quality
  suffix and a random seed, and sends them concurrently;
- gathers the answers in request order, keeping a body only for a 200
  response;
- saves each non-empty image as `Data/<prompt with spaces as underscores><n>.jpg`
  (a prompt that starts with `/` gives an absolute path outside `Data`);
- lists the same four paths for display;
- rewrites the trigger file to `False,False` and leaves its loop.

The filesystem is a `Disk` object with two fields that the worker updates in
place: the trigger file's text and the image files. The save loop and the
main loop are while loops, each proved against a specification function of
the old state.

**Realtime search** (`realtime_search_engine.dfy`, module
`RealtimeSearchEngine`) answers a prompt from web search results.

- `GoogleSearch` formats the results into one text with a `+=` loop.
- `AnswerModifier` drops blank lines.
- `RealtimeSearchEngine` pushes the search text onto the global list of
  system messages for one streamed completion call, then pops it. It
  appends the prompt and the cleaned answer to the conversation and saves
  the conversation to the chat log.

The two globals and the log file are the fields of a `Session` object. The
method is proved equal to the specification function `SearchTurn`, and
`SearchTurn` carries the properties.

Two more modules support these:

- `text.dfy` (module `Text`) states the Python `str` operations both
  backends use, on `seq<char>`: `isspace`, `strip`, `split`, `join`,
  `replace`, `"".join` and `str(n)`.
- `optional.dfy` (module `Optional`) holds the `Option` type.

Everything the code gets from outside is an input of the model:

- HTTP answers and exceptions;
- the seeds `randint` draws;
- the order in which concurrent requests finish;
- search results;
- streamed chunks;
- the outcome of each file open or write;
- the text of changes other programs make to the trigger file.

## Model

| member | source | states |
|---|---|---|
| Text.Strip | God/Backend/ImageGeneration.py:96 | `strip()` is the slice of the input left after removing a whitespace prefix and a whitespace suffix; the result is empty or starts and ends with a non-whitespace character |
| Text.StripEmptyIffBlank | God/Backend/RealtimeSearchEngine.py:95 | `line.strip()` is empty exactly when every character of the line is whitespace |
| Text.StripIdempotent | God/Backend/ImageGeneration.py:96 | stripping twice gives the same as stripping once |
| Text.StripKeepsTrimmed | God/Backend/RealtimeSearchEngine.py:171 | a string that neither starts nor ends with whitespace is its own strip |
| Text.StripLeftAppend | God/Backend/ImageGeneration.py:96 | `lstrip` of `a + b`, where `b` starts with a non-space, is `lstrip(a) + b` |
| Text.StripRightPrepend | God/Backend/ImageGeneration.py:96 | `rstrip` of `a + b`, where `a` ends with a non-space, is `a + rstrip(b)` |
| Text.StripAfterStripLeft | God/Backend/ImageGeneration.py:104-106 | stripping an `lstrip`-ped string is the same as stripping the original |
| Text.StripAfterStripRight | God/Backend/ImageGeneration.py:104-106 | stripping an `rstrip`-ped string is the same as stripping the original |
| Text.Split | God/Backend/RealtimeSearchEngine.py:94 | `split(sep)` returns at least one piece, and no piece contains the separator |
| Text.SplitCount | God/Backend/ImageGeneration.py:102 | a split has exactly one more piece than the string has separators |
| Text.SplitAtSeparator | God/Backend/ImageGeneration.py:102 | splitting `a + sep + b`, where `a` holds no separator, gives `a` followed by the pieces of `b` |
| Text.SplitWithoutSeparator | God/Backend/ImageGeneration.py:102 | a string without the separator splits into itself alone |
| Text.JoinSplit | God/Backend/RealtimeSearchEngine.py:94-96 | joining the pieces of a split with the same separator gives back the original string |
| Text.SplitJoin | God/Backend/RealtimeSearchEngine.py:94-96 | splitting a join of separator-free pieces gives back the pieces |
| Text.ConcatAppend | God/Backend/RealtimeSearchEngine.py:73-74 | the concatenation of two lists of parts is the concatenation of their concatenations |
| Text.ConcatInOrder | God/Backend/RealtimeSearchEngine.py:166-168 | part `i` appears in the concatenation between the parts before it and the parts after it |
| Text.JoinEnds | God/Backend/RealtimeSearchEngine.py:96 | `sep.join(parts)` starts with the first part, has the separator right after it when there is a second part, and ends with the last part |
| Text.Replace | God/Backend/ImageGeneration.py:72 | `replace` never lengthens the string when the replacement is no longer than the pattern, and replacing a pattern by itself changes nothing |
| Text.ReplaceChar | God/Backend/ImageGeneration.py:72 | replacing one character by another keeps the length and maps each position: the old character becomes the new one, and every other character is kept |
| Text.ReplaceAbsent | God/Backend/RealtimeSearchEngine.py:171 | replacing a pattern that does not occur leaves the string unchanged |
| Text.Decimal | God/Backend/ImageGeneration.py:64 | `str(n)` is a non-empty string of digits with no leading zero |
| Text.DecimalRoundTrip | God/Backend/ImageGeneration.py:64 | reading the numeral of `n` back gives `n` |
| Text.DecimalInjective | God/Backend/ImageGeneration.py:75 | different numbers have different numerals |
| ImageGeneration.PayloadFor | God/Backend/ImageGeneration.py:63-66 | a payload's inputs are the prompt, then the fixed quality suffix, then a decimal numeral that reads back as the seed; `wait_for_model` is true |
| ImageGeneration.BuildPayloads | God/Backend/ImageGeneration.py:61-67 | exactly four payloads are built, payload `k` for seed `k`, and each seed in the text lies between 0 and 1000000 inclusive |
| ImageGeneration.Query | God/Backend/ImageGeneration.py:46-55 | the result is present exactly when the post answered with status 200, and then it is the response body; any other status or any exception gives `None` |
| ImageGeneration.Gather | God/Backend/ImageGeneration.py:67-69 | whatever order the four tasks finish in, result `k` is the outcome of request `k` |
| ImageGeneration.Stem | God/Backend/ImageGeneration.py:72 | the file stem has the prompt's length, no space, and every space of the prompt turned into `_` |
| ImageGeneration.SlotPathPlace | God/Backend/ImageGeneration.py:75 | every slot path ends in `.jpg`; it lies under `Data/` unless the prompt starts with `/`, and then `os.path.join` drops the folder and the file name alone is the path |
| ImageGeneration.SlotPathInjective | God/Backend/ImageGeneration.py:75 | the path of a slot contains no space, and different slots of one prompt give different paths |
| ImageGeneration.DisplayPaths | God/Backend/ImageGeneration.py:22-28 | `open_images` lists four space-free, pairwise distinct paths, and path `i` is the file the save loop writes for slot `i` |
| ImageGeneration.AfterWrite | God/Backend/ImageGeneration.py:76-81 | a write that succeeds leaves the new content; a failed `open` leaves the file as it was; a write that fails after truncation leaves a prefix of the new content |
| ImageGeneration.SaveSlot | God/Backend/ImageGeneration.py:74-81 | one pass of the save loop changes at most the slot's own path and adds no other file; a falsy result changes nothing; a truthy one leaves the attempted write of the result at that path |
| ImageGeneration.Persisted | God/Backend/ImageGeneration.py:73-81 | the save loop never removes a file |
| ImageGeneration.PersistedSlot | God/Backend/ImageGeneration.py:73-81 | after the save loop, the file of slot `k` holds the attempted write of a truthy result whatever happened to the other slots, and a falsy result leaves the file untouched |
| ImageGeneration.PersistedElsewhere | God/Backend/ImageGeneration.py:73-81 | the save loop changes no path other than the slots' own |
| ImageGeneration.PersistTwice | God/Backend/ImageGeneration.py:73-81 | when every write succeeds, saving the same results a second time overwrites each file with what it already holds, so the files and their number stay the same |
| ImageGeneration.SavedFileCount | God/Backend/ImageGeneration.py:73-81 | the number of files written completely equals the number of truthy slots minus the number of their writes that raised |
| ImageGeneration.SaveImages | God/Backend/ImageGeneration.py:73-81 | the loop leaves the image files equal to the save-loop specification applied to the old files; an exception in one slot does not stop the later slots |
| ImageGeneration.GeneratedFiles | God/Backend/ImageGeneration.py:60-81 | a job changes none of the files outside its prompt's four paths; each of those four holds the attempted write of a non-empty 200 body, or its old content |
| ImageGeneration.GenerateAndSave | God/Backend/ImageGeneration.py:60-81 | `generate_images` sends, for each slot, that slot's payload, and leaves the image files as the job specification says |
| ImageGeneration.GenerateImages | God/Backend/ImageGeneration.py:86-88 | the wrapper has the effect of `generate_images` and then offers `open_images` the four slot paths, path `k` being the file slot `k` was saved to |
| ImageGeneration.InterpretCases | God/Backend/ImageGeneration.py:96-106 | a poll is idle exactly on blank text; a failed unpacking reports one more field than the stripped text has commas, never two; triggering and non-triggering records have exactly one comma; a prompt is comma-free and already stripped; a non-triggering status is comma-free and does not strip to `True` |
| ImageGeneration.StripRecord | God/Backend/ImageGeneration.py:96 | stripping a record `a,b` leaves `lstrip(a)`, then the comma, then `rstrip(b)` |
| ImageGeneration.SplitRecord | God/Backend/ImageGeneration.py:102 | if neither field holds a comma, the stripped record splits into exactly its two fields |
| ImageGeneration.InterpretRecord | God/Backend/ImageGeneration.py:96-106 | a record `a,b` with no other comma triggers exactly when `b` strips to `True`; the prompt is then `a` stripped; any other record is a non-triggering one |
| ImageGeneration.InterpretNeedsOneComma | God/Backend/ImageGeneration.py:98-118 | text without exactly one comma never triggers: it is empty (idle) or its unpacking fails, which is caught |
| ImageGeneration.ResetDoesNotTrigger | God/Backend/ImageGeneration.py:104-110 | the reset value `False,False` is a well-formed record that does not trigger |
| ImageGeneration.TickEffect | God/Backend/ImageGeneration.py:93-118 | one pass reads the file and, on a trigger, runs the job with the stripped prompt, then attempts the reset; the loop stops exactly when the reset write succeeds. Every other pass changes nothing, and a pass that stops leaves the file holding `False,False` |
| ImageGeneration.WatchEffect | God/Backend/ImageGeneration.py:93-118 | the loop makes at most one pass per tick; it runs out the ticks only when it never stops, and when it stops the trigger file holds `False,False` |
| ImageGeneration.ResetIsIdle | God/Backend/ImageGeneration.py:104-111 | a pass over the untouched reset file changes nothing and does not stop |
| ImageGeneration.IdleRunKeepsImages | God/Backend/ImageGeneration.py:93-118 | a run in which no pass reads a triggering record keeps every image and never stops |
| ImageGeneration.Poll | God/Backend/ImageGeneration.py:94-118 | one pass on the disk has exactly the effect that the one-pass specification gives |
| ImageGeneration.MainLoop | God/Backend/ImageGeneration.py:93-118 | the `while True` loop on the disk has exactly the effect that the run specification gives, including the number of passes made |
| RealtimeSearchEngine.BlocksInOrder | God/Backend/RealtimeSearchEngine.py:73-74 | record `i`'s `Title:/Description:` block sits between the blocks of the records before it and those after it |
| RealtimeSearchEngine.BlocksSnoc | God/Backend/RealtimeSearchEngine.py:73-74 | one more record adds its block at the end |
| RealtimeSearchEngine.SearchReportFrame | God/Backend/RealtimeSearchEngine.py:66-79 | a non-empty result list is framed by the header naming the query and the `[end]` footer; a raised search ends with the exception's text |
| RealtimeSearchEngine.SearchReportLayout | God/Backend/RealtimeSearchEngine.py:68-77 | a non-empty result list gives the header, then record `i`'s block in list order among the others, then `[end]` |
| RealtimeSearchEngine.GoogleSearch | God/Backend/RealtimeSearchEngine.py:66-79 | the `+=` loop gives `No search results found for '<q>'.` for an empty list and the error text for a raised search; otherwise it gives the header, the blocks and the footer |
| RealtimeSearchEngine.NonBlankLines | God/Backend/RealtimeSearchEngine.py:95 | every kept line is non-blank and is one of the input lines |
| RealtimeSearchEngine.NonBlankLinesKeepsAll | God/Backend/RealtimeSearchEngine.py:95 | a list of non-blank lines is kept whole |
| RealtimeSearchEngine.AnswerModifier | God/Backend/RealtimeSearchEngine.py:82-97 | an empty answer is returned as is. The result is empty exactly when the answer has no non-blank line. Otherwise its lines are exactly the answer's non-blank lines, in order, and none of them is blank |
| RealtimeSearchEngine.JoinKeptLines | God/Backend/RealtimeSearchEngine.py:94-96 | if any line was kept, joining the kept lines gives a non-empty text whose lines are exactly those lines |
| RealtimeSearchEngine.AnswerModifierKeepsCleanText | God/Backend/RealtimeSearchEngine.py:82-97 | an answer that has no blank line is returned unchanged |
| RealtimeSearchEngine.AnswerModifierIdempotent | God/Backend/RealtimeSearchEngine.py:82-97 | applying `AnswerModifier` twice gives the same as applying it once |
| RealtimeSearchEngine.StreamedTextSnoc | God/Backend/RealtimeSearchEngine.py:166-168 | one more chunk adds its content at the end, or nothing when that content is empty or missing |
| RealtimeSearchEngine.CollectAnswer | God/Backend/RealtimeSearchEngine.py:163-168 | the chunk loop builds the concatenation of the truthy chunk contents, in stream order |
| RealtimeSearchEngine.StreamedTextInOrder | God/Backend/RealtimeSearchEngine.py:166-168 | each chunk's content appears between the contents of the chunks before it and those after it |
| RealtimeSearchEngine.CleanAnswer | God/Backend/RealtimeSearchEngine.py:171 | cleaning never lengthens the answer, and a blank answer cleans to the empty string |
| RealtimeSearchEngine.CleanAnswerKeepsCleanText | God/Backend/RealtimeSearchEngine.py:171 | `strip().replace("</s>", "")` leaves unchanged an answer that has no surrounding whitespace and no `</s>` |
| RealtimeSearchEngine.PopIfMoreKeepsPrefix | God/Backend/RealtimeSearchEngine.py:183-184 | the guarded pop keeps a prefix of the list: one entry shorter when there were at least two, the whole list otherwise, so the first entry always survives |
| RealtimeSearchEngine.SearchTurn | God/Backend/RealtimeSearchEngine.py:138-185 | see the list below the table |
| RealtimeSearchEngine.SuccessfulTurnsChain | God/Backend/RealtimeSearchEngine.py:142-176 | after a successful call the log holds the conversation, so two successful calls append their four messages in order |
| RealtimeSearchEngine.Session.constructor | God/Backend/RealtimeSearchEngine.py:100-102 | at import the system list holds only the system prompt and `messages` is empty |
| RealtimeSearchEngine.Session.RealtimeSearchEngine | God/Backend/RealtimeSearchEngine.py:138-185 | the step-by-step updates of the globals and the log have exactly the effect, reply and request of `SearchTurn` |

`RealtimeSearchEngine.SearchTurn`:

- A system list of one entry has that entry alone again afterwards.
- Once the log has loaded, a non-empty system list comes back unchanged.
- A log that fails to load changes no message and sends no request.
- Otherwise the request is the system list with the search report pushed
  on top, then the logged conversation, then the prompt.
- A streamed answer grows the logged conversation by exactly two entries:
  the user prompt, then the cleaned answer.
- A successful save writes that conversation to the log. The reply is then
  the cleaned answer with its blank lines dropped.
- A raised completion keeps the log and adds only the prompt.

## Left out

- HTTP, the Groq client and the search library are not modelled as code.
  Their results and exceptions are inputs: `HttpOutcome`, `Completion` and
  `SearchOutcome`.
- The API URL, headers, timeout, model name and sampling parameters are
  not modelled, because they do not affect the control flow.
- The `num_results=5` bound on the search belongs to the library, so
  `SearchOutcome` may list any number of records.
- `asyncio` concurrency is not modelled: no interleaving, and no thread
  pool. The completion order of the four tasks is a parameter checked to be
  a permutation.
- `randint` is not called. The drawn seeds are inputs.
  `randint(0, 1000000)` includes 1000000, and the four draws are
  independent, so equal seeds are allowed.
- The image display in `open_images` (Pillow, `show`, `sleep`, the
  `IOError` message) is not modelled. Only its file list is modelled, as
  `DisplayPaths`.
- All `print` output and every `sleep(1)` are not modelled, because they
  have no effect on state.
- Loading `.env` and the `exit(1)` for a missing API key
  (ImageGeneration.py:12-17) are not modelled, because they are start-up
  configuration.
- `Information()` and the date and time text are not modelled, because
  they read the clock. The system prompt is a parameter of
  `Session.constructor`.
- The interactive `__main__` loop (RealtimeSearchEngine.py:188-191) is not
  modelled, because it is terminal I/O.
- JSON parsing and serialisation are not modelled. The chat log is
  `Missing`, `Unreadable` or a list of messages.
  - Every load failure other than a missing file goes to the outer
    handler and is `Unreadable`.
  - A log that parses to something other than a list is also treated as
    `Unreadable`. The code first rebinds `messages` to that value before
    `append` fails.
- The main loop runs over a finite sequence of passes. A run that never
  triggers is covered for every finite prefix.
- Other programs may change the trigger file at any time. The model lets
  them write it only between passes.
- Paths follow POSIX `os.path.join`: the folder and the name are joined
  with `/`, and a name that starts with `/` replaces the folder. Windows
  path rules (drive letters, `\` separators) are not modelled.
- Text.Replace: requires a non-empty pattern, because the code only
  replaces `" "` and `"</s>"`; Python's behaviour for an empty pattern
  is not modelled.
- Exception messages (`str(e)`) are opaque reason strings.
