# IDX data scripts: news-detail enrichment, financial-ratio import, `fetchData`

This project models the computing core of three scripts that collect data from
the Indonesia Stock Exchange site, and proves properties of the model.

- **News-detail enrichment** (`examples/news-detailed.js`). `fetchAllNewsDetails`
  makes one pass over the news items of an input file. It calls the detail
  endpoint for each item that has an `ItemId`. It merges a truthy answer into
  the item as `detail`. It counts successes and failures and writes a result
  document. `retryFailedDetails` reads that document back and re-fetches the
  items that still lack `detail`. It patches each success into the array at the
  index `findIndex` gives, then recomputes the counters. Both loops are
  imperative methods (module `NewsDetailed`). Each is proved equal to a
  specification function in `NewsSpec`, and the lemmas in `NewsLemmas` are
  about those functions. The remote call is an oracle
  `fetch: Json -> Option<Json>`. Each 1-second pause is a `Delay` event in a
  returned trace. The files are `Stored` values, and writing the result is the
  `Written` outcome.
- **Financial-ratio import** (`python/financial_ratios_json2pg.py`).
  `process_json_files` selects `financial_*.json` from a directory listing and
  visits the paths in `sorted` order. It extends `all_data` with each
  document's truthy `data`. A `JSONDecodeError` is skipped, and any other
  exception ends the run. `to_snake_case` is two regular-expression
  substitutions and `lower()`. These are modelled in `FinancialRatios`,
  `PathOrder` (Python string order and `sorted`) and `SnakeCase`.
- **`fetchData`** (`fetchUtil.js`). This is the request-option merge: default
  headers, `...options.headers`, three settings, then `...options`. A non-ok
  response raises an error that carries the status. On success the body is
  returned as `JSON.stringify(body, null, 2)`. It is modelled in `FetchUtil`
  over an abstract transport.
- **JSON** as these scripts see it (`JsonValue`, `JsonText`, `JsonRead`):
  - Objects are ordered member lists. The last of a repeated key wins, as in
    `JSON.parse`, `json.load` and object literals.
  - Object spread and `{...o, k: v}` are modelled.
  - JavaScript and Python truthiness are modelled.
  - `JSON.stringify(v, null, 2)` is modelled with its string escapes.
  - A reader for that text is modelled, and the lemmas prove that reading the
    text gives the value back.

Behaviour of the code worth knowing:

- An input item without `ItemId` is counted as failed and dropped from the
  output. It is not kept (`examples/news-detailed.js:73-77`).
- `fetchNewsDetail` never looks at `response.ok`
  (`examples/news-detailed.js:21-36`). The pass then counts the call as a
  success exactly when the parsed body is truthy (`if (detail)`,
  `examples/news-detailed.js:82`). So a 500 answer whose body is a JSON object
  counts as a success. A body of `null`, `0`, `""` or `false` counts as a
  failure, as does a thrown request or an unparsable body, which is the
  oracle's `None`.
- A retry pass can increase `failed_details`. See "Findings".

## Model

| member | source | states |
|---|---|---|
| NewsDetailed.FetchAllNewsDetails | examples/news-detailed.js:45-124 | The loop's output document and its call/pause trace equal `FullRunOutcome` / `FullRunTrace`. A missing input file is fatal with no calls. An empty or falsy `data` returns without writing and makes no calls. |
| NewsDetailed.RetryFailedDetails | examples/news-detailed.js:127-222 | The result equals `RetryOutcome` / `RetryTrace`. A missing previous file runs the full pass, and an unreadable one is fatal. With nothing left to retry it returns without writing or calling. |
| NewsDetailed.RetryLoop | examples/news-detailed.js:151-188 | The array patched in place and the two counters equal `RetryData`, `RetrySuccessCount` and `StillFailedCount` of the failed items. The trace is that of the failed items: one call per item with an `ItemId`, followed by a pause unless the item is at the last index. An item without `ItemId` gets no call and no pause. |
| NewsSpec.PassTrace | examples/news-detailed.js:69-99 | At most a call and a pause per item. Calls and pauses are placed by `PassTraceCalls`, `PassTraceDelays` and `PauseAfterCall`. |
| NewsSpec.FullRunOutcome | examples/news-detailed.js:45-124 | Fatal exactly when the input file is missing or unreadable. Skipped exactly when `data` is missing, falsy or empty. A written document has no `retry_stats` and no more items than the input. |
| NewsSpec.RetryOutcome | examples/news-detailed.js:127-222 | With no previous file it is the full pass. An unreadable previous file is fatal, and a readable one never is. It is skipped exactly when no item lacks `detail`. A written document keeps `total` as the item count and carries `retry_stats` with at least one attempt. |
| NewsSpec.FindIndex | examples/news-detailed.js:172 | Gives -1 or an index whose `ItemId` is the id, and no earlier item has that id. |
| NewsLemmas.FullRunCountsEveryItem | examples/news-detailed.js:64-100 | `successCount + errorCount` is the number of input items. `errorCount` is at least the number of items without `ItemId`. |
| NewsLemmas.IdentifiedIsFilter | examples/news-detailed.js:69-77 | The items the full pass keeps are exactly the input items with a truthy `ItemId`. Kept and dropped items add up to the input. |
| NewsLemmas.FullRunDataIsEnrichedIdentified | examples/news-detailed.js:69-94 | The output `data` is the identified items in input order. Each is the input item with `detail` set to the body when its call returned a truthy body, and the input item unchanged otherwise. An item that already had `detail` and whose call fails keeps its old `detail`. |
| NewsLemmas.EnrichedChangesOnlyDetail | examples/news-detailed.js:82-94 | `{...newsItem, detail}` changes only `detail`. It sets `detail` to the fetched body, and an item whose call failed is kept as it was. |
| NewsLemmas.FullRunCounters | examples/news-detailed.js:102-110 | The written document has no `retry_stats`. `successful + failed` is the input size and `total` is the number of identified items. The two agree exactly when no item lacks `ItemId`. |
| NewsLemmas.PassTraceCalls | examples/news-detailed.js:69-80 | The ids sent to the endpoint are the `ItemId`s of the identified items, in input order, each once. |
| NewsLemmas.PassTraceDelays | examples/news-detailed.js:96-99 | One pause per identified item, except when the last input item is identified. |
| NewsLemmas.DelayFollowsFetch | examples/news-detailed.js:96-99 | Every pause comes right after a remote call. |
| NewsLemmas.PassTracePrefix | examples/news-detailed.js:69-100 | The events of the first `n` iterations are the start of the events of any later iteration count. |
| NewsLemmas.PauseAfterCall | examples/news-detailed.js:80-99 | For each identified item `k`, its call comes right after the events of the items before it. The next event is a pause if and only if `k` is not the last index. |
| NewsLemmas.FailedItemsIsFilter | examples/news-detailed.js:142 | The retry candidates are exactly the items whose `detail` is falsy, and never more than the items. |
| NewsLemmas.FindIndexFinds | examples/news-detailed.js:172-173 | For an identified item of the array, `findIndex` of its own id is a valid index. |
| NewsLemmas.RetryCountsAddUp | examples/news-detailed.js:155-188 | For candidates taken from the array, every retry is counted exactly once, as a success or as still failed. |
| NewsLemmas.RetryDataKeepsIds | examples/news-detailed.js:170-179 | The patched array keeps its length and every item's `ItemId`. |
| NewsLemmas.RetryDataFindIndex | examples/news-detailed.js:172 | `findIndex` on the array patched so far finds the same index as on the array read back. |
| NewsLemmas.RetryDataAt | examples/news-detailed.js:170-179 | Item k of the result is item k with the retried body as `detail` exactly when k is the first index with its id and some candidate with that id was fetched; otherwise it is unchanged. |
| NewsLemmas.RetryChangesOnlyDetail | examples/news-detailed.js:174-177 | The retry changes no field but `detail`, in any item. |
| NewsLemmas.RetryWithUniqueIds | examples/news-detailed.js:142-179 | With distinct `ItemId`s, every identified item is the one `findIndex` returns for its id. A successful retry for that id happened exactly when the item lacked `detail` and its call now succeeds. |
| NewsLemmas.RetryDetailIff | examples/news-detailed.js:142-179 | With distinct `ItemId`s, an item has `detail` after the retry if and only if it had one before or its retry call returned a truthy body. |
| NewsLemmas.RetryWritten | examples/news-detailed.js:190-206 | The document a retry writes: `total`, `data`, both counters and `retry_stats`, field by field, from the previous document and the loop's counts. |
| NewsLemmas.RetryCounters | examples/news-detailed.js:190-206 | `attempted = succeeded + stillFailed`. `successful_details` grows by the successes and never decreases. `failed_details` follows the script's formula, which is twice `stillFailed` when the previous count equalled the attempts. |
| NewsLemmas.FullRunLeavesFailed | examples/news-detailed.js:64-100 | On a fresh input, the failed items a retry finds in the full pass's output, plus the dropped items, are the full pass's `errorCount`. |
| NewsLemmas.FullThenRetryDoubleCounts | examples/news-detailed.js:191-192 | Run on a full pass's output, the retry's `failed_details` counts the dropped items once and each still-failing item twice. `successful + failed` then exceeds the item count by `stillFailed`. |
| NewsLemmas.CorrectedRetryCountsEveryItem | examples/news-detailed.js:191-192 | With the corrected counter, `successful + failed` equals the item count after a full pass and a retry. `failed` is the dropped items plus the items still failing. |
| NewsScenarios.FullRunScenario | examples/news-detailed.js:45-124 | Items A and B, where B's call fails: the document is total 2, successful 1, failed 1, with A enriched and B kept. The trace is call A, pause, call B. |
| NewsScenarios.RetryScenario | examples/news-detailed.js:127-222 | Retrying that document when B now answers: successful 2, failed 0, B enriched in place, `retry_stats` 1/1/0. |
| NewsScenarios.RetryDoubleCountScenario | examples/news-detailed.js:191-192 | Retrying when B fails again: `failed_details` grows from 1 to 2, for a total of 2 items. |
| FinancialRatios.ProcessJsonFiles | python/financial_ratios_json2pg.py:46-70 | The result is the fold over the selected paths in sorted order: the data collected, or the first exception raised. |
| FinancialRatios.ProcessSorted | python/financial_ratios_json2pg.py:56-65 | The loop extends `all_data` file by file and equals the fold `Processed` over the paths. |
| FinancialRatios.Glob | python/financial_ratios_json2pg.py:50 | Selects at most one path per directory entry. Which paths, and in what order, is stated by `GlobSelects`, `GlobAppend` and `GlobPermutes`. |
| FinancialRatios.Processed | python/financial_ratios_json2pg.py:56-70 | A failed run fails with the error of one of its paths, whose file raised. A successful run had no file that raised. |
| FinancialRatios.GlobSelects | python/financial_ratios_json2pg.py:50 | A path is selected exactly when it names a directory entry that matches `financial_*.json`. |
| FinancialRatios.GlobAppend | python/financial_ratios_json2pg.py:50 | Selection distributes over concatenated listings. |
| FinancialRatios.GlobPermutes | python/financial_ratios_json2pg.py:50 | A listing in another order selects the same paths, as a multiset. |
| FinancialRatios.Iterate | python/financial_ratios_json2pg.py:62 | `list.extend` raises `TypeError` exactly on null, booleans and numbers. An array adds its elements, and a string adds one item per character. |
| FinancialRatios.DataOf | python/financial_ratios_json2pg.py:61-62 | A `TypeError` arises exactly for a document that `in` cannot search, one whose `'data' in` test finds `data`, or a truthy non-iterable `data`. Only an object with `data` adds items. A truthy `data` adds exactly what `extend` iterates: the elements of a list, in order. A `data` list adds its elements, so an empty list adds none. |
| FinancialRatios.Contribution | python/financial_ratios_json2pg.py:58-65 | A file's error names that file. A `JSONDecodeError` contributes nothing and does not stop the run. |
| FinancialRatios.ProcessedSnoc | python/financial_ratios_json2pg.py:56-62 | One more file appends its contribution, or its error ends the run. |
| FinancialRatios.ProcessedAppend | python/financial_ratios_json2pg.py:56-65 | Visiting `a` then `b` is the fold over `a + b`. |
| FinancialRatios.ProcessedStopsAtFailure | python/financial_ratios_json2pg.py:56-70 | After an exception nothing else runs, and the run fails with that error. |
| FinancialRatios.SkippedFileIsInvisible | python/financial_ratios_json2pg.py:61-65 | A file that adds nothing (undecodable, no `data`, or a falsy one) leaves the result as if it were absent. |
| FinancialRatios.ProcessedFailsAtFirstError | python/financial_ratios_json2pg.py:56-70 | The run succeeds if and only if every file's contribution does. Otherwise it fails with the error of the first file that raises. |
| FinancialRatios.ProcessedJoinsData | python/financial_ratios_json2pg.py:56-62 | When every file contributes, the result is the data before file k, then file k's data, then the data after it. |
| FinancialRatios.ListingOrderIrrelevant | python/financial_ratios_json2pg.py:50-56 | The result does not depend on the order the directory lists its entries in. |
| PathOrder.StrLeReflexive | python/financial_ratios_json2pg.py:56 | Python's string order is reflexive. |
| PathOrder.StrLeTotal | python/financial_ratios_json2pg.py:56 | Python's string order is total. |
| PathOrder.StrLeAntisymmetric | python/financial_ratios_json2pg.py:56 | Python's string order is antisymmetric. |
| PathOrder.StrLeTransitive | python/financial_ratios_json2pg.py:56 | Python's string order is transitive. |
| PathOrder.Insert | python/financial_ratios_json2pg.py:56 | Inserting into a sorted list keeps it sorted and adds exactly that element. |
| PathOrder.SortStrings | python/financial_ratios_json2pg.py:56 | `sorted` returns a sorted permutation of its input. |
| PathOrder.SortedUnique | python/financial_ratios_json2pg.py:56 | Two sorted lists with the same elements are equal. |
| PathOrder.SortIgnoresListingOrder | python/financial_ratios_json2pg.py:56 | `sorted` of two orderings of the same paths gives the same list. |
| SnakeCase.LowerChar | python/financial_ratios_json2pg.py:75 | `lower()` on one ASCII character maps an uppercase letter to its lowercase letter and keeps everything else. |
| SnakeCase.Lower | python/financial_ratios_json2pg.py:75 | `lower()` keeps the length, lowercases character by character, and leaves no uppercase letter. |
| SnakeCase.SplitWords | python/financial_ratios_json2pg.py:74 | `re.sub(r'(.)([A-Z][a-z]+)', r'\1_\2', name)`, as a scan. Its behaviour is stated by `SplitWordsMatch`, `SplitWordsCons`, `SplitWordsCopy`, `SplitWordsNoUpper` and `SplitWordsWeave`. |
| SnakeCase.SplitCamel | python/financial_ratios_json2pg.py:75 | `re.sub(r'([a-z0-9])([A-Z])', r'\1_\2', s1)`, as a scan. Its behaviour is stated by `SplitCamelPair`, `SplitCamelCons`, `SplitCamelNoBoundary`, `SplitCamelNoUpper` and `SplitCamelWeave`. |
| SnakeCase.ToSnakeCase | python/financial_ratios_json2pg.py:72-75 | The result contains no uppercase letter. |
| SnakeCase.SplitWordsNoUpper | python/financial_ratios_json2pg.py:74 | The first substitution changes nothing in text without capitals. |
| SnakeCase.SplitCamelNoUpper | python/financial_ratios_json2pg.py:75 | The second substitution changes nothing in text without capitals. |
| SnakeCase.LowerNoUpper | python/financial_ratios_json2pg.py:75 | `lower()` changes nothing in text without capitals. |
| SnakeCase.ToSnakeCaseNoUpper | python/financial_ratios_json2pg.py:72-75 | A name without capitals is its own snake case. |
| SnakeCase.SnakeAlphabetFixed | python/financial_ratios_json2pg.py:72-75 | A name made of `[a-z0-9_]` comes back unchanged. |
| SnakeCase.ToSnakeCaseIdempotent | python/financial_ratios_json2pg.py:72-75 | Converting twice gives the same as converting once. |
| SnakeCase.SplitWordsWeave | python/financial_ratios_json2pg.py:74 | The first substitution only inserts underscores, and never before the first character. |
| SnakeCase.SplitCamelWeave | python/financial_ratios_json2pg.py:75 | The second substitution only inserts underscores, and never before the first character. |
| SnakeCase.ToSnakeCaseInsertsOnly | python/financial_ratios_json2pg.py:72-75 | The result is the lowercased name with underscores inserted. It is at least as long as the name and starts with the name's first character, lowercased. |
| SnakeCase.SplitWordsMatch | python/financial_ratios_json2pg.py:74 | A character, a capital and its longest lowercase run become character, `_`, capital, run. |
| SnakeCase.SplitCamelPair | python/financial_ratios_json2pg.py:75 | A lowercase letter or digit followed by a capital gets `_` between them. |
| SnakeCase.SplitWordsCons | python/financial_ratios_json2pg.py:74 | Where no match starts, the first substitution copies the character. |
| SnakeCase.SplitCamelCons | python/financial_ratios_json2pg.py:75 | Where no match starts, the second substitution copies the character. |
| SnakeCase.SplitWordsCopy | python/financial_ratios_json2pg.py:74 | A stretch with no capital after its first character is copied unchanged. |
| SnakeCase.SplitCamelNoBoundary | python/financial_ratios_json2pg.py:75 | Text with no lowercase-or-digit-then-capital pair is left unchanged by the second substitution. |
| SnakeCase.PeriodDateExample | python/financial_ratios_json2pg.py:72-75 | `PeriodDate` becomes `period_date`. |
| SnakeCase.AcronymExample | python/financial_ratios_json2pg.py:72-75 | `ABCDef` becomes `abc_def`: the break comes before the word, not inside the acronym. |
| SnakeCase.DigitCapitalExample | python/financial_ratios_json2pg.py:72-75 | `value2X` becomes `value2_x`. |
| FetchUtil.SpreadSource | fetchUtil.js:17 | `...undefined` adds nothing, and `...obj` adds the object's own members. |
| FetchUtil.RequestInit | fetchUtil.js:3-23 | Every key of `options` takes the caller's value. Every other key takes the value of the literal written before `...options`. |
| FetchUtil.FetchData | fetchUtil.js:1-34 | Succeeds exactly when the request resolves, the response is ok and the body parses. The value is then the body as `JSON.stringify(body, null, 2)`. |
| FetchUtil.BaseInitLookup | fetchUtil.js:3-21 | Before `...options`: the merged headers, `referrerPolicy`, `mode`, `credentials`, and nothing else. |
| FetchUtil.DefaultRequest | fetchUtil.js:3-23 | Without options, the defaults go out: the default headers, `strict-origin-when-cross-origin`, `cors`, `include`, and no other setting. |
| FetchUtil.OptionsOverride | fetchUtil.js:19-22 | Any top-level option replaces the setting of that name, and the other settings keep their defaults. |
| FetchUtil.HeadersSent | fetchUtil.js:4-22 | With a `headers` option, the headers sent are exactly that option. Without it they are exactly the defaults. |
| FetchUtil.CallerHeadersDropDefaults | fetchUtil.js:4-22 | A default header that the caller's header object lacks is not sent. |
| FetchUtil.CorrectedHeadersKeepDefaults | fetchUtil.js:4-22 | With the merged headers placed after `...options`, a header the caller names takes the caller's value and every other default is still sent. The other settings are unchanged. |
| FetchUtil.NotOkMessageReadsBack | fetchUtil.js:25-27 | The not-ok error message gives back the status code and status text. |
| FetchUtil.NotOkIgnoresBody | fetchUtil.js:25-27 | A not-ok response fails with its status whatever its body, because the body is never read. |
| FetchUtil.FetchDataReadsBack | fetchUtil.js:28-29 | The returned text parses back to the response's JSON, with each repeated key collapsed to its last value. |
| JsonValue.Lookup | examples/news-detailed.js:71 | `obj.key` is `undefined` exactly when the key is absent, and is otherwise the value of a member with that key. Which member, the last one, is stated by `JsonValue.Snoc`. |
| JsonValue.Snoc | examples/news-detailed.js:84-87 | Appending a member puts its key last and makes it the answer for that key; every other key reads as before. So a later member overrides an earlier one, as in `{...newsItem, detail}` and `JSON.parse`. |
| JsonValue.Put | examples/news-detailed.js:84-87 | `{...obj, key: v}` reads `v` at `key` and the old values elsewhere. An existing key keeps its position, and a new one is appended. |
| JsonValue.PutPut | examples/news-detailed.js:174-177 | Setting `detail` twice leaves only the second value. |
| JsonValue.Spread | fetchUtil.js:17-22 | `{...t, ...s}` reads the source's value for every key the source has, and the target's value otherwise. |
| JsonValue.UniqueKeys | fetchUtil.js:29 | The keys of the object built from a member list: each key once, the same set of keys. |
| JsonText.PrettyPrint | fetchUtil.js:29 | The text is never empty. Its first character is `"`, `[` or `{` exactly for a string, an array or an object. What it reads back as is stated by `JsonRead.PrettyPrintRoundTrip`. |
| JsonText.NatToStringRoundTrip | fetchUtil.js:26 | The decimal digits written for a status code read back as that number. |
| JsonText.EscapeRoundTrip | fetchUtil.js:29 | Unescaping the escaped text of a string gives the string back. |
| JsonText.EscapeHasNoRawQuote | fetchUtil.js:29 | Every quote in escaped text follows a backslash. |
| JsonRead.NumberRoundTrip | fetchUtil.js:29 | An integer written by `JSON.stringify` reads back as that integer, leaving what follows. |
| JsonRead.StringRoundTrip | fetchUtil.js:29 | A quoted string reads back as the string, leaving the text after its closing quote. |
| JsonRead.ValueRoundTrip | fetchUtil.js:29 | The indented text of any value, at any indentation, reads back as its canonical form. |
| JsonRead.ElementsRoundTrip | fetchUtil.js:29 | An array's indented elements read back one by one as their canonical forms. |
| JsonRead.PropertiesRoundTrip | fetchUtil.js:29 | An object's indented properties read back as its keys, each with its canonical last value. |
| JsonRead.PrettyPrintRoundTrip | fetchUtil.js:28-29 | `JSON.parse(JSON.stringify(v, null, 2))` gives back `v` as a JavaScript object holds it. |
| JsonRead.CanonicalObject | fetchUtil.js:28-29 | The object read back has each key once, in first-appearance order, and answers every lookup with the canonical form of the original's value. |
| JsonRead.CanonicalArray | fetchUtil.js:28-29 | The array read back has the same length and the canonical form of each element. |

## Left out

- File I/O and process control are not modelled: `existsSync`, `mkdirSync`, `readFileSync`, `writeFileSync`, `console`, `process.exit` and the `--retry` argument dispatch. The files are `Stored` inputs and `Written` outcomes.
- The one-second `setTimeout` pauses are `Delay` events, not time.
- `processed_at`, `new Date().toISOString()`, is not part of the written document, because it is a clock reading.
- `fetchNewsDetail` is an oracle. Its URL, headers, HTTP status and logging are not modelled. The oracle returns any parsed body, as the code does, and the pass then treats only a truthy body as a success.
- The JSON numbers are integers. Fractions, exponents and floating point are not modelled, and the reader refuses them.
- JavaScript's enumeration order for integer-like keys, which puts them first, is not modelled. Keys keep insertion order.
- `JSON.stringify` of lone surrogates is not modelled. Characters are Dafny `char`s.
- The Python importer's database and pandas functions (`create_connection`, `transform_data_to_dataframe` and what follows) are not part of this model. So are `ixbrl.py`, `main.py` and `example.js`.
- Logging calls are not modelled.
- `glob` metacharacters in `data_directory` are not modelled. The directory is a plain prefix, and entries are matched by name only.
- FinancialRatios.Contribution: a `UnicodeDecodeError` raised by `json.load` is folded into the `Unopenable` case, since both escape the loop as exceptions.
- FetchUtil.RequestInit: options whose value is `undefined` are not modelled, because JSON has no `undefined`. A call `fetchData(url, null)` is not modelled either: the default `{}` applies only to a missing argument, so `...options.headers` throws a `TypeError` (`fetchUtil.js:17`). `options` is always an object here.
- SnakeCase.LowerChar: `lower()` is modelled on ASCII only. Other characters are kept, while Python also lowercases non-ASCII capitals.
- SnakeCase.ToSnakeCase: the regular expressions are matched on ASCII classes, which is what `[A-Z]`, `[a-z]` and `[0-9]` mean. The `.` of the first pattern does not match a newline, as in Python.
- NewsSpec.InputDoc: `data` is modelled as absent, falsy, or an array of objects. A truthy `data` that is not an array is not modelled (`examples/news-detailed.js:55-60`): the script iterates a string character by character, and writes a document with `total` 0 for an object or a number. An input file holding the literal `null` is not modelled either: reading `inputData.data` throws a `TypeError` (`examples/news-detailed.js:55`). Items that are not objects are not modelled either: a `null` item makes `newsItem.ItemId` throw (`examples/news-detailed.js:71`), which ends the run as fatal, and a string or number item is counted as failed and dropped.
- NewsSpec.PreviousDoc: `successful_details` and `failed_details` are modelled as integers. A previous document whose counters are missing or not numbers, which makes the arithmetic at `examples/news-detailed.js:191-192` give `NaN` or join strings, is not modelled. Neither is a `data` that is not an array, which makes `.filter` throw at `examples/news-detailed.js:142`. A previous file holding the literal `null` is not modelled: reading `previousData.data` throws a `TypeError` (`examples/news-detailed.js:139`).
- NewsSpec.Oracle: the remote call is a function, so a repeated `ItemId` gets the same answer every time it is fetched. The script fetches it again and could get a different answer. `NewsLemmas.RetryDataAt` and the counts for repeated ids rely on this.
- NewsSpec.FindIndex: `===` on ids is modelled as equality of JSON values. JavaScript compares objects and arrays by reference, but an `ItemId` is a string or a number.

## Findings

| source | as written | input that shows it | evidently intended | confidence | as-written member | corrected member |
|---|---|---|---|---|---|---|
| examples/news-detailed.js:191-192 | `failed_details = previous failed - successCount + stillFailedCount`. The previous count already includes every item still failing, so each one is counted twice. | Items A and B. The first pass fetches A and fails B (successful 1, failed 1). The retry fails B again: failed becomes 2 for a total of 2 items, and `successful + failed` = 3. | `failed = previous failed - successCount`, which keeps `successful + failed` equal to the item count. | high; not executed | NewsLemmas.FullThenRetryDoubleCounts, NewsScenarios.RetryDoubleCountScenario | NewsSpec.CorrectedRetryFailed, NewsLemmas.CorrectedRetryCountsEveryItem |
| fetchUtil.js:4-22 | The merged object `{defaults, ...options.headers}` is overwritten by the `headers` key of the trailing `...options`. | `options = {headers: {cookie: "c"}}`: the request carries only `cookie`, and `accept` and the other defaults are not sent. | The caller's headers laid over the defaults. | medium; not executed | FetchUtil.CallerHeadersDropDefaults, FetchUtil.HeadersSent | FetchUtil.CorrectedRequestInit, FetchUtil.CorrectedHeadersKeepDefaults |
