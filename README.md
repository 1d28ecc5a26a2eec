# docs-maintainer core, modelled in Dafny

This project models three small pieces of logic from the docs-maintainer
repository and proves properties about them:

- **The query queue store** of the Next.js front end
  (`nextjs_frontend/contexts/QueryQueueContext.tsx`). It is an
  insertion-ordered list of query records with these operations:
  - `addQuery` appends;
  - `updateQuery` merges a partial record into every record with a given id;
  - `removeQuery` filters by id;
  - `clearQueries` empties the list;
  - `getQueryById` returns the first match.

  After every change the whole list is written as JSON under the key
  `queryQueue`. On mount it is read back, with the two date fields rebuilt
  from their string form.
- **The approved-documents store** (`nextjs_frontend/contexts/ApprovedDocumentsContext.tsx`).
  It is an ordered list of document updates keyed by
  `document_metadata.chunk_id`, with:
  - a deduplicating add;
  - remove by key;
  - clear;
  - replace by key.
- **The document cleaner's text rules** (`fastapi_backend/helpers/document_cleaner.py`):
  - the noise-line classifier and the line filter;
  - the `re.sub` rewrites of `clean_code_artifacts` and `remove_noise_patterns`;
  - the four-step `clean_document` and its `cleaning_info`;
  - `batch_clean_documents`.

Modules and files:

| file | module | what it holds |
|---|---|---|
| `wrappers.dfy` | `Wrappers` | `Option` |
| `documents.dfy` | `Documents` | the `DocumentUpdate` payload (`nextjs_frontend/types/index.ts`) |
| `sequences.dfy` | `Sequences` | `IsSubsequence`, used to state that filters keep order |
| `query_records.dfy` | `QueryRecords` | `QueryItem`, `Partial<QueryItem>` as `QueryPatch`, the object spread as `Merge` |
| `query_persistence.dfy` | `QueryPersistence` | the save and load effects over a key-value storage and abstract JSON and `Date` codecs |
| `query_queue.dfy` | `QueryQueue` | the list transforms and the class `QueryQueueStore` |
| `approved_documents.dfy` | `ApprovedDocuments` | the list transforms and the class `ApprovedDocumentsStore` |
| `text.dfy` | `Text` | Python's `isspace`/`\s`, `strip()`, `split('\n')` and `'\n'.join` |
| `cleaner_patterns.dfy` | `CleanerPatterns` | the three regular-expression rewrites, each written as the scan `re.sub` performs |
| `document_cleaner.dfy` | `DocumentCleaner` | `is_noise_line`, `remove_noise_lines`, `clean_document`, `batch_clean_documents` |

How the source was turned into Dafny:

- The two React providers become classes with one `seq` field, replaced by
  each method. Each method is specified by a pure function of the old list.
  The properties are proved about those functions.
- The queue class also holds the storage map. Each mutating method leaves it
  equal to the serialization of the new queue (`Persisted`). A reload then
  gives back the queue, whenever the JSON and `Date` codecs round-trip
  (`ReloadGivesQueue`).
- The Python loops (`remove_noise_lines` and `batch_clean_documents`) are
  methods with loops. `clean_document` rebinds the text step by step and
  records the step list as it goes. The text it returns is the recorded
  steps applied in order (`RunSteps`).
- Each regular expression is written out as the left-to-right scan that
  Python's `re.sub` performs for that pattern.
  - `[!]{4,}` → `!!!` and `[?]{4,}` → `???` become `CollapseRuns`.
  - `\n\s*\n\s*\n+` → `\n\n` and `\n\s*\n\s*\n\s*\n+` → `\n\n\n` become
    `SqueezeNewlines`. A match can start only at a newline and cannot leave
    the whitespace run that newline opens. When the run holds enough
    newlines, the greedy match ends at the run's last newline.
  - The `re.MULTILINE` pattern `^\s*\d+\.\s*$` becomes
    `BlankNumberedLines`. The leading `\s*` takes the whole whitespace run
    and `\d+` the whole digit run. The trailing `\s*` ends the match at the
    end of the text, or backs off to the last newline of its run.

The model follows the code in these points:

- `updateQuery` merges the update into *every* record with the id, not only
  one (`UpdatedWhere`).
- `removeQuery` deletes every record with the id (`RemovedWhere`).
- A stored value that is the empty string is treated like a missing key,
  because `if (savedQueries)` is false for `""`.

## Model

| member | source | states |
|---|---|---|
| QueryQueue.UpdatedWhere | nextjs_frontend/contexts/QueryQueueContext.tsx:64-68 | the length is kept; every record with the id becomes the record merged with the update; every other record is unchanged; an absent id leaves the list unchanged |
| QueryQueue.RemovedWhere | nextjs_frontend/contexts/QueryQueueContext.tsx:70-72 | a record is in the result exactly when it is in the list and has another id; the id is gone afterwards; the result is a subsequence of the list (order kept); an absent id changes nothing |
| QueryQueue.FindById | nextjs_frontend/contexts/QueryQueueContext.tsx:78-80 | nothing is found exactly when no record has the id; a found record has the id, sits at some index, and no earlier record has the id (the first match) |
| QueryQueue.RemovedWhereCounts | nextjs_frontend/contexts/QueryQueueContext.tsx:70-72 | as multisets: every record with the id is dropped, every copy of it; every other record is kept exactly as often as it occurred |
| QueryQueue.RemoveIsIdempotent | nextjs_frontend/contexts/QueryQueueContext.tsx:70-72 | removing an id twice is removing it once |
| QueryQueue.FindAfterRemove | nextjs_frontend/contexts/QueryQueueContext.tsx:70-80 | after removing an id, looking it up finds nothing |
| QueryQueue.FindAfterAppend | nextjs_frontend/contexts/QueryQueueContext.tsx:60-62 | appending makes no duplicate check: an earlier record with the id is still the one found, and the new record is found only when no earlier record has its id |
| QueryQueue.FindAfterUpdate | nextjs_frontend/contexts/QueryQueueContext.tsx:64-68 | after an update that does not change ids, the record found is the previous first match with the update merged in |
| QueryQueue.UpdateAfterRemove | nextjs_frontend/contexts/QueryQueueContext.tsx:64-72 | an update for an id that was removed leaves the list as it is, so the removed record does not come back |
| QueryQueue.UpdateTwice | nextjs_frontend/contexts/QueryQueueContext.tsx:64-68 | two updates of the same id act as one combined update in which the later one wins on every field both name (last write wins), as long as the first keeps the id |
| QueryQueue.QueryQueueStore.constructor | nextjs_frontend/contexts/QueryQueueContext.tsx:30-58 | on mount the queue is what the load effect reads from storage, and the save effect then writes it back |
| QueryQueue.QueryQueueStore.ReloadGivesQueue | nextjs_frontend/contexts/QueryQueueContext.tsx:33-58 | whenever the storage holds the saved queue and the codecs round-trip, loading from storage gives back the current queue |
| QueryQueue.QueryQueueStore.Commit | nextjs_frontend/contexts/QueryQueueContext.tsx:51-58 | the queue becomes the new list, and the storage holds its serialization under `queryQueue` |
| QueryQueue.QueryQueueStore.AddQuery | nextjs_frontend/contexts/QueryQueueContext.tsx:60-62 | the new queue is the old one with the record appended at the end; storage is then saved |
| QueryQueue.QueryQueueStore.UpdateQuery | nextjs_frontend/contexts/QueryQueueContext.tsx:64-68 | the new queue is `UpdatedWhere` of the old one; storage is then saved |
| QueryQueue.QueryQueueStore.RemoveQuery | nextjs_frontend/contexts/QueryQueueContext.tsx:70-72 | the new queue is `RemovedWhere` of the old one; storage is then saved |
| QueryQueue.QueryQueueStore.ClearQueries | nextjs_frontend/contexts/QueryQueueContext.tsx:74-76 | the queue becomes empty; storage is then saved |
| QueryQueue.QueryQueueStore.GetQueryById | nextjs_frontend/contexts/QueryQueueContext.tsx:78-80 | the result is the first match in the current queue; nothing is returned exactly when no record has the id; a returned record is in the queue and has the id; nothing changes |
| QueryRecords.Merge | nextjs_frontend/contexts/QueryQueueContext.tsx:66 | the object spread `{ ...q, ...updates }`: each field the update names takes the update's value, and each field it leaves out keeps the record's value |
| QueryRecords.MergeNoChange | nextjs_frontend/contexts/QueryQueueContext.tsx:66 | spreading an empty update over a record gives the record back |
| QueryRecords.MergeIdempotent | nextjs_frontend/contexts/QueryQueueContext.tsx:66 | applying the same update twice is applying it once |
| QueryRecords.MergeLastWriteWins | nextjs_frontend/contexts/QueryQueueContext.tsx:66 | two successive updates act as a single update in which the later wins |
| QueryPersistence.Encode | nextjs_frontend/contexts/QueryQueueContext.tsx:54 | what `JSON.stringify` writes for one record: both dates in their string form, a completion time written exactly when there is one, every other field as it is |
| QueryPersistence.Decode | nextjs_frontend/contexts/QueryQueueContext.tsx:39-43 | `createdAt` is always parsed; `completedAt` is present exactly when the stored one is present and not the empty string, and is then parsed; every other field passes through unchanged |
| QueryPersistence.EncodeAll | nextjs_frontend/contexts/QueryQueueContext.tsx:54 | one stored record per record, in order |
| QueryPersistence.DecodeAll | nextjs_frontend/contexts/QueryQueueContext.tsx:39-43 | one decoded record per stored record, in order |
| QueryPersistence.Save | nextjs_frontend/contexts/QueryQueueContext.tsx:52-58 | the key `queryQueue` holds the JSON text of the encoded list; no other key changes |
| QueryPersistence.Load | nextjs_frontend/contexts/QueryQueueContext.tsx:33-49 | a missing key, an empty value or a failed parse gives the empty queue, and the failure is not propagated; otherwise the result is the decoded list |
| QueryPersistence.DecodeEncode | nextjs_frontend/contexts/QueryQueueContext.tsx:39-43 | with a `Date` codec that round-trips, decoding an encoded record gives it back |
| QueryPersistence.SaveThenLoad | nextjs_frontend/contexts/QueryQueueContext.tsx:33-58 | with codecs that round-trip, saving and then loading gives back every record, field for field, in order |
| ApprovedDocuments.WithDocument | nextjs_frontend/contexts/ApprovedDocumentsContext.tsx:19-28 | afterwards the key is present; a list that already has the key is unchanged; otherwise the document is appended after the unchanged list; distinct keys stay distinct |
| ApprovedDocuments.WithoutChunk | nextjs_frontend/contexts/ApprovedDocumentsContext.tsx:30-34 | a document is kept exactly when its key differs; the key is gone; the result is a subsequence (order kept); an absent key changes nothing; distinct keys stay distinct |
| ApprovedDocuments.ReplacingChunk | nextjs_frontend/contexts/ApprovedDocumentsContext.tsx:40-46 | the length is kept; every entry with the key becomes the updated document; the others are untouched; an absent key changes nothing |
| ApprovedDocuments.WithoutChunkCounts | nextjs_frontend/contexts/ApprovedDocumentsContext.tsx:30-34 | as multisets: every document with the key is dropped, every copy of it; every other document is kept exactly as often as it occurred |
| ApprovedDocuments.AddTwiceIsAddOnce | nextjs_frontend/contexts/ApprovedDocumentsContext.tsx:19-28 | adding the same document twice is adding it once |
| ApprovedDocuments.RemoveIsIdempotent | nextjs_frontend/contexts/ApprovedDocumentsContext.tsx:30-34 | removing a key twice is removing it once |
| ApprovedDocuments.ReplaceKeepsKeysUnique | nextjs_frontend/contexts/ApprovedDocumentsContext.tsx:40-46 | if the keys are distinct and the updated document carries the key it replaces, the keys stay distinct |
| ApprovedDocuments.ReplaceWithOtherKeyCanDuplicate | nextjs_frontend/contexts/ApprovedDocumentsContext.tsx:42-44 | without that condition uniqueness fails: replacing key `a` by a document keyed `b` in the list `[a, b]` duplicates `b` |
| ApprovedDocuments.ApprovedDocumentsStore.constructor | nextjs_frontend/contexts/ApprovedDocumentsContext.tsx:17 | the store starts empty, so its keys are distinct |
| ApprovedDocuments.ApprovedDocumentsStore.AddApprovedDocument | nextjs_frontend/contexts/ApprovedDocumentsContext.tsx:19-28 | the new list is `WithDocument` of the old one; distinct keys stay distinct |
| ApprovedDocuments.ApprovedDocumentsStore.RemoveApprovedDocument | nextjs_frontend/contexts/ApprovedDocumentsContext.tsx:30-34 | the new list is `WithoutChunk` of the old one; distinct keys stay distinct |
| ApprovedDocuments.ApprovedDocumentsStore.ClearApprovedDocuments | nextjs_frontend/contexts/ApprovedDocumentsContext.tsx:36-38 | the list becomes empty, so its keys are distinct |
| ApprovedDocuments.ApprovedDocumentsStore.UpdateApprovedDocument | nextjs_frontend/contexts/ApprovedDocumentsContext.tsx:40-46 | the new list is `ReplacingChunk` of the old one; distinct keys stay distinct when the updated document keeps the key |
| Text.Strip | fastapi_backend/helpers/document_cleaner.py:58 | the result has whitespace at neither end |
| Text.StripStripped | fastapi_backend/helpers/document_cleaner.py:58 | stripping a stripped string changes nothing |
| Text.Split | fastapi_backend/helpers/document_cleaner.py:54 | there is always at least one piece, and no piece holds a newline |
| Text.JoinSplit | fastapi_backend/helpers/document_cleaner.py:54 | joining the pieces of a split with newlines gives back the text |
| Text.SplitJoin | fastapi_backend/helpers/document_cleaner.py:74 | splitting lines that hold no newline, once joined, gives back the lines |
| CleanerPatterns.SqueezeNewlines | fastapi_backend/helpers/document_cleaner.py:33 | the newline-run scan used at lines 33 and 46: a text without a newline is left unchanged |
| CleanerPatterns.SqueezeLongRun | fastapi_backend/helpers/document_cleaner.py:33 | a whole whitespace run that opens with a newline and holds at least 3 newlines (4 at line 46) is replaced, from that newline to its last one, by `"\n\n"` (`"\n\n\n"` at line 46); the whitespace after its last newline is kept and the scan goes on after the run |
| CleanerPatterns.SqueezeKeepsShortRun | fastapi_backend/helpers/document_cleaner.py:33 | a whole whitespace run with fewer newlines than that is kept as it is |
| CleanerPatterns.CollapseRuns | fastapi_backend/helpers/document_cleaner.py:42-43 | no run of four copies of the character is left, and a leading other character stays first |
| CleanerPatterns.RunCollapse | fastapi_backend/helpers/document_cleaner.py:42-43 | a whole run of four or more copies becomes exactly three, a shorter run is kept, and what follows is scanned on |
| CleanerPatterns.CollapseKeepsOtherChars | fastapi_backend/helpers/document_cleaner.py:42-43 | with the character erased, the result and the input are equal, so only that character is touched |
| CleanerPatterns.CollapseFixpoint | fastapi_backend/helpers/document_cleaner.py:42-43 | a text with no run of four is left unchanged |
| CleanerPatterns.CollapseIdempotent | fastapi_backend/helpers/document_cleaner.py:42-43 | collapsing twice is collapsing once |
| CleanerPatterns.CollapseKeepsOtherCaps | fastapi_backend/helpers/document_cleaner.py:42-43 | collapsing `?` creates no run of four `!` (and the other way round) |
| CleanerPatterns.SqueezeKeepsCaps | fastapi_backend/helpers/document_cleaner.py:46 | squeezing whitespace creates no run of four of a non-space character |
| CleanerPatterns.StripKeepsCaps | fastapi_backend/helpers/document_cleaner.py:48 | stripping creates no run of four of a non-space character |
| CleanerPatterns.NumberedLineLength | fastapi_backend/helpers/document_cleaner.py:35 | a match of `^\s*\d+\.\s*$` at the start of the text is non-empty and lies within the text |
| CleanerPatterns.NumberedLineMatched | fastapi_backend/helpers/document_cleaner.py:35 | a line of whitespace, digits, a dot and whitespace, followed by the end of the text or a newline, is matched; the match covers the whole line, and ends right at its end when the text ends there or a newline and a non-space character follow |
| CleanerPatterns.NumberedLineShape | fastapi_backend/helpers/document_cleaner.py:35 | a match consumes only whitespace, digits and dots, and ends at the end of the text or just before a newline |
| CleanerPatterns.MatchEnd | fastapi_backend/helpers/document_cleaner.py:35 | a match that starts at a line start ends further on, within the text |
| CleanerPatterns.MatchEndShape | fastapi_backend/helpers/document_cleaner.py:35 | a match consumes only whitespace, digits and dots |
| CleanerPatterns.MatchAtNumberedLine | fastapi_backend/helpers/document_cleaner.py:35 | at a line start where a numbered line begins, a match is found and covers at least the whole line |
| CleanerPatterns.MatchBeforeNextLine | fastapi_backend/helpers/document_cleaner.py:35 | a numbered line at a line start, followed by a newline and a non-space character, is matched exactly up to that newline |
| CleanerPatterns.BlankNumberedLines | fastapi_backend/helpers/document_cleaner.py:35 | the substitution only deletes characters, keeping the others in order, and every character it deletes is whitespace, a digit or a dot |
| CleanerPatterns.MatchEndParts | fastapi_backend/helpers/document_cleaner.py:35 | every deleted span is whitespace, a non-empty run of digits, a dot and whitespace, and ends at the end of the text or before a newline; so lines such as "1", "..." or "1.2." are never deleted |
| CleanerPatterns.BlankKeepsDotlessText | fastapi_backend/helpers/document_cleaner.py:35 | a text with no dot is left unchanged |
| CleanerPatterns.BlankDeletesNumberedLine | fastapi_backend/helpers/document_cleaner.py:35 | such a line is deleted and the newline after it is kept; the scan goes on at the start of the next line |
| CleanerPatterns.BlankWholeNumberedLine | fastapi_backend/helpers/document_cleaner.py:35 | a text that is one numbered line is blanked to the empty text |
| CleanerPatterns.BlankIsSubsequence | fastapi_backend/helpers/document_cleaner.py:35 | blanking numbered lines only deletes characters; the rest keep their order |
| CleanerPatterns.BlankKeepsSignificant | fastapi_backend/helpers/document_cleaner.py:35 | every character it deletes is whitespace, a digit or a dot |
| CleanerPatterns.SqueezeKeepsSignificant | fastapi_backend/helpers/document_cleaner.py:33 | squeezing newline runs keeps every character other than whitespace, digits and dots, in order |
| CleanerPatterns.StripKeepsSignificant | fastapi_backend/helpers/document_cleaner.py:36 | stripping keeps every character other than whitespace, digits and dots, in order |
| CleanerPatterns.CleanCodeArtifacts | fastapi_backend/helpers/document_cleaner.py:30-36 | `clean_code_artifacts` returns a text with whitespace at neither end |
| CleanerPatterns.CleanCodeArtifactsKeepsText | fastapi_backend/helpers/document_cleaner.py:30-36 | `clean_code_artifacts` returns a stripped text and loses no character other than whitespace, digits and dots |
| CleanerPatterns.RemoveNoisePatterns | fastapi_backend/helpers/document_cleaner.py:38-48 | `remove_noise_patterns` returns a text with whitespace at neither end |
| CleanerPatterns.NoisePatternsRemoved | fastapi_backend/helpers/document_cleaner.py:38-48 | after `remove_noise_patterns` no run of four `!` or four `?` remains, and the text has no whitespace at either end |
| DocumentCleaner.IsNoiseLine | fastapi_backend/helpers/document_cleaner.py:76-96 | a line that is not noise has at least three characters and holds a word character |
| DocumentCleaner.NoWordCharIsPattern | fastapi_backend/helpers/document_cleaner.py:85-86 | the "no word character" test holds exactly when `re.match(r'^[^\w]*$', line)` succeeds |
| DocumentCleaner.NumberLineIsPattern | fastapi_backend/helpers/document_cleaner.py:89-90 | the "number line" test holds exactly when `re.match(r'^\d+$', line)` succeeds, including before a final newline |
| DocumentCleaner.NoiseLineCases | fastapi_backend/helpers/document_cleaner.py:76-96 | a line is noise exactly when it is shorter than 3, or has no word character, or is only digits, or is longer than 5 with at most 2 distinct characters |
| DocumentCleaner.KeptLines | fastapi_backend/helpers/document_cleaner.py:57-66 | the filter never yields more lines than it is given |
| DocumentCleaner.KeepImportantLines | fastapi_backend/helpers/document_cleaner.py:55-66 | the loop collects exactly `KeptLines` of the lines |
| DocumentCleaner.RemoveNoiseLines | fastapi_backend/helpers/document_cleaner.py:50-74 | the result is the kept lines of the split text, joined with newlines |
| DocumentCleaner.KeptLinesImportant | fastapi_backend/helpers/document_cleaner.py:57-66 | every kept line is non-empty, stripped and not noise |
| DocumentCleaner.KeptLinesInOrder | fastapi_backend/helpers/document_cleaner.py:57-66 | the kept lines are a subsequence of the stripped input lines (input order) |
| DocumentCleaner.KeptLinesMembership | fastapi_backend/helpers/document_cleaner.py:57-66 | a line is kept exactly when it is a stripped input line that is neither empty nor noise |
| DocumentCleaner.KeptLinesOfImportant | fastapi_backend/helpers/document_cleaner.py:57-66 | lines that are all non-empty, stripped and not noise pass the filter unchanged |
| DocumentCleaner.NoiseLinesRemoved | fastapi_backend/helpers/document_cleaner.py:50-74 | the output has whitespace at neither end, and when it is not empty its lines are exactly the kept lines, none empty or noise |
| DocumentCleaner.NoiseLinesRemovedIdempotent | fastapi_backend/helpers/document_cleaner.py:50-74 | filtering the filtered text changes nothing |
| DocumentCleaner.NoiseLinesKeepCaps | fastapi_backend/helpers/document_cleaner.py:50-74 | the line filter creates no run of four of a non-space character |
| DocumentCleaner.CleanedTextStages | fastapi_backend/helpers/document_cleaner.py:116-131 | running the recorded steps is HTML removal, then code cleaning, then noise-pattern removal, then the line filter |
| DocumentCleaner.CleanResult | fastapi_backend/helpers/document_cleaner.py:98-142 | the returned text is the cleaned text, with whitespace at neither end and no run of four `!` or `?`; the info records the input and output lengths, the four steps, and that no LLM was used |
| DocumentCleaner.CleanDocument | fastapi_backend/helpers/document_cleaner.py:98-142 | the text is the recorded steps applied in order; `original_length` is the input length; `steps_applied` is the four steps in order; `llm_used` is false; `final_length` is the length of the returned text |
| DocumentCleaner.CleanedTextProperties | fastapi_backend/helpers/document_cleaner.py:98-142 | a cleaned document has whitespace at neither end, no run of four `!` or `?`, and no empty or noise line; filtering it again changes nothing |
| DocumentCleaner.CleanAll | fastapi_backend/helpers/document_cleaner.py:144-152 | one result per document, and the `i`-th is what `clean_document` returns for the `i`-th document |
| DocumentCleaner.BatchCleanDocuments | fastapi_backend/helpers/document_cleaner.py:144-152 | one result per document, in input order, each equal to what `clean_document` returns for that document |

## Left out

- `remove_html_tags` (`html.unescape` and BeautifulSoup) is not modelled. `clean_document` takes it as a function parameter with no contract.
- `reduction_percentage` is not modelled, because it is float division followed by `round`. The division by `original_length` fails on an empty input, so `CleanDocument` and `BatchCleanDocuments` require non-empty documents.
- The `use_llm` flag and the `llm_manager` field are not modelled. The source never reads them, so `llm_used` is always false.
- IsNoiseLine, BlankNumberedLines: `\w` and `\d` are taken as ASCII (letters, digits and `_`; `0`-`9`). Python's Unicode classes also accept other letters and digits, so a line such as "١٢." (Arabic-Indic digits) is blanked by the source but kept by the model. `\s` and `str.isspace`, on the other hand, are modelled as Python's full whitespace set.
- JSON text and `Date` strings are abstract codecs, not modelled:
  - `JSON.stringify`/`JSON.parse` are a codec. A parse that yields something other than a list of records counts as a failed parse.
  - `toJSON`/`new Date` are a codec over integer time values.
  - An unparsable date string (an `Invalid Date`) is whatever the codec returns.
  - Keys the stored JSON holds beyond the record's fields are not modelled.
- A `localStorage.setItem` that throws (quota exceeded) is caught and logged by the source. The model's save always succeeds.
- React effect scheduling is not modelled. The mount-time save of the initial empty list, before the loaded list replaces it, is folded into the constructor. `getQueryById` reads the current list rather than the list of the last render.
- `Partial<QueryItem>` may set a required field to `undefined`. `QueryPatch` can only leave a required field out or give it a value. Optional fields are modelled with both cases.
- The `QueryItem` type is not defined in the source files modelled. Its fields follow their uses in `nextjs_frontend/components/QueryCard.tsx` and `QueryResults.tsx`.
- There is no dispatcher (waiting → processing → completed/error) in the source, so none is modelled; only the store it would write into is.
- The RAG pipelines, the FastAPI routes, the LLM wrappers, configuration, prompts and every page and component are not part of this model.
