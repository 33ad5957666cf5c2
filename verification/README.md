# Upload classification and display helpers of an Instagram chat "rewind"

This project models, in Dafny, the upload path of a web app that turns
Instagram chat exports into a year-in-review. It also models the pure display
helpers of two of the app's cards.

- **Classifiers.** `isInstagramMessageFile` and `isProcessedStatsFile` test a
  parsed JSON value for the raw-export shape (participants, messages, title)
  and for the processed-statistics shape (`total_messages`, `per_sender`).
- **Consistency check.** `validateSameConversation` decides whether several
  raw exports are one conversation. It checks the title, then the participant
  count, then the sorted participant names, and stops at the first file that
  fails.
- **Decision.** The synchronous logic of `parseMultipleFiles` turns a batch of
  selected and read files into one success payload or one error message.
- **Personal card.** `formatHour`, `formatTime`, and the three quickest and
  three slowest response times.
- **Overview card.** The five most active senders, the 120-character preview
  of the most reacted message, and the busiest-weekday label.

JSON values are the datatype `Js.Json`. Objects keep their properties as an
ordered list, because `Object.entries` order decides ties in the card sorts.
That order puts integer-like keys (such as "2024") first, ascending, and then
the other keys in the order the text gives them. The model takes each list to
be in that order already; it does not reorder keys itself.
JavaScript's rules are written out where the code relies on them:

- truthiness and property reads on non-objects;
- `typeof`, `String(v)`, `Array.prototype.join` and `===`;
- the stable `Array.prototype.sort`, both the default string-keyed sort and
  the numeric comparators;
- `%` truncating toward zero.

A classifier call can throw a `TypeError`: `every` calls the callback on a
`null` array element and reads a property of it. That is modelled as
`Js.Completion`, and the decision reports it through the `catch` clause.

Modules:

| module | file | contents |
|---|---|---|
| `Options` | options.dfy | `Option` |
| `Text` | text.dfy | decimal rendering and reading, `join`, `endsWith`, lexicographic order |
| `Seqs` | seqs.dfy | `filter`, `Min` |
| `Js` | json.dfy | the JSON datatype and the JavaScript operations on it |
| `Sorting` | sorting.dfy | default sort, numeric comparator sort, top-k prefix |
| `Classify` | classify.dfy | the two shape predicates |
| `Consistency` | consistency.dfy | `validateSameConversation` |
| `Upload` | upload.dfy | `parseMultipleFiles` and its error messages |
| `PersonalCard` | personal_card.dfy | `formatHour`, `formatTime`, quickest/slowest |
| `OverviewCard` | overview_card.dfy | top chatters, preview truncation, busiest weekday |

Three behaviours of the code are kept as they are:

- For 0 or 1 files the validator returns the bare `true`, not `{valid: true}` (see Findings).
- The two predicates are not disjoint. A file matching both lands in both groups and is rejected as a mix.
- `isProcessedStatsFile` also accepts an array `per_sender`, since `typeof [] === "object"`.

`Upload.Decide(batch, bareTrueCounts)` is the decision with one switch.
`Upload.ParseMultipleFiles` is the code as written (`false`).
`Upload.ParseMultipleFilesCorrected` accepts the validator's bare `true` (`true`); see Findings.

## Model

| member | source | states |
|---|---|---|
| Classify.IsInstagramMessageFile | src/utils/fileHandlers.js:2-13 | Answers `true` exactly for an object with a non-empty `participants` array whose every element has a truthy `name`, a `messages` array whose every element has truthy `sender_name` and `timestamp_ms`, and a string `title`. It throws only if some array element is `null`. Without a `null` element it always returns. |
| Classify.IsProcessedStatsFile | src/utils/fileHandlers.js:16-24 | True exactly for an object with a numeric `total_messages` and a `per_sender` that is an object or an array. |
| Classify.EveryHas | src/utils/fileHandlers.js:10-11 | `every` with the truthy-property callback answers `true` exactly when every element has all the keys truthy. It throws exactly when a `null` element comes before any element that fails the test, with the error of reading the first key. |
| Classify.InstagramRejections | src/utils/fileHandlers.js:2-13 | The raw-export test is `false` for a non-object and for an empty `participants` array. It is never `true` when a participant lacks a truthy `name` or a message lacks `sender_name` or `timestamp_ms`. |
| Classify.EmptyMessagesAccepted | src/utils/fileHandlers.js:7-11 | An export with an empty `messages` array and valid participants and title is accepted. |
| Classify.PredicatesOverlap | src/utils/fileHandlers.js:2-24 | One object can satisfy both predicates: for every non-empty name, title and total. |
| Consistency.CheckFrom | src/utils/fileHandlers.js:36-79 | The loop from file `i` on yields `{valid: true}` exactly when every later file agrees with file 0 on title and on the sorted name lists (same length, `===` position by position). It never yields the bare `true`. |
| Consistency.CheckFromReportsFirstOffender | src/utils/fileHandlers.js:36-76 | A failure names the first offending file. Its reason is the first failing check, in the order title, count, names, and carries the compared values and the file's name. |
| Consistency.ValidateSameConversation | src/utils/fileHandlers.js:27-80 | Bare `true` exactly for at most one file. `{valid: true}` exactly for two or more files that all agree with file 0. |
| Consistency.ValidateReportsFirstOffender | src/utils/fileHandlers.js:27-80 | There is a mismatch report exactly when some file disagrees with file 0. The report describes the first file that does. |
| Consistency.PermutedParticipantsAgree | src/utils/fileHandlers.js:30-76 | Two exports with the same title whose string name lists are permutations of each other (duplicates counted) pass the title, count and name checks. |
| Consistency.AgreeingViewsArePermutations | src/utils/fileHandlers.js:30-76 | Conversely, two exports that pass all three checks have the same title and the same names up to order, duplicates counted, whatever the names' types. |
| Consistency.AgreementIsPermutation | src/utils/fileHandlers.js:30-76 | For string names, passing the three checks is equivalent to the same title plus names equal up to order. |
| Consistency.PermutedBatchIsValid | src/utils/fileHandlers.js:27-80 | A batch whose files share file 0's title and permute its string names is valid. |
| Sorting.DefaultSort | src/utils/fileHandlers.js:31-33 | The default `sort()` returns a permutation of its input, ordered by `String(x)`. It is stable: values with the same `String` form (the number 1 and the string "1") keep their input order. |
| Sorting.SortedStringsUnique | src/utils/fileHandlers.js:38-40 | Two sorted orderings of the same multiset of strings are equal. |
| Sorting.DefaultSortOfPermutation | src/utils/fileHandlers.js:31-40 | Sorting two permutations of the same strings gives the same sequence. |
| Sorting.SortBy | src/components/cards/PersonalCard.jsx:16-21 | The comparator sort returns a permutation of its input, ordered by the numeric value, ascending or descending. The sort is stable: entries with equal values keep their input order. |
| Sorting.TakeTop | src/components/cards/OverviewCard.jsx:10-11 | `slice(0, k)` of a sorted sequence has `min(k, n)` entries, is sorted, and comes from the input. Each of its entries may precede every entry left out. For each value, the entries kept with that value are the first ones of the sorted input with it, in the same order. |
| Upload.ReadError | src/utils/fileHandlers.js:83-98 | An unparsable file's message opens with "Invalid JSON in file \"" and a failed read's with "Failed to read file \"", and no other way round. Both end with the file's name in quotes. |
| Upload.ReadAll | src/utils/fileHandlers.js:83-98 | All reads succeed exactly when every file parsed. The records are then `{filename, data}` in batch order. A rejection carries the error of the first file in batch order that failed. |
| Upload.ClassifierThrow | src/utils/fileHandlers.js:138-140 | No exception exactly when every file's raw-export test returns. Otherwise the exception is the one raised by the first file whose test throws. |
| Upload.FirstThrowerIsReported | src/utils/fileHandlers.js:138-140 | When file `k` is the first whose raw-export test throws, its exception is the one reported. |
| Upload.ReadFailureReported | src/utils/fileHandlers.js:83-242 | With every file passing the type gate, the first file that fails to load ends the upload with "Error processing files: " and its read error ("Invalid JSON in file …" or "Failed to read file …"). |
| Upload.ClassifierThrowReported | src/utils/fileHandlers.js:127-242 | With every file loaded, the first file whose raw-export test throws ends the upload with "Error processing files: " and that exception's message. |
| Upload.RawBatchRejected | src/utils/fileHandlers.js:184-219 | A loaded batch of raw-only files that the consistency check reports as a mismatch ends in the consistency error carrying that report's reason, whichever way the bare `true` is read. |
| Upload.Decide | src/utils/fileHandlers.js:101-243 | Computes the outcome in the code's order: empty batch, type gate, reads, the classifier's exception, then the group gates. Its switch says whether the validator's bare `true` counts as valid. The lemmas below state what it yields. |
| Upload.ParseMultipleFiles | src/utils/fileHandlers.js:101-243 | The decision as written, where the bare `true` fails `!validationResult.valid`. |
| Upload.ParseMultipleFilesCorrected | src/utils/fileHandlers.js:101-243 | The decision with the bare `true` accepted. |
| Upload.Gates | src/utils/fileHandlers.js:150-239 | Computes the group gates in order: unrecognised files, a mix of kinds, several processed files, one processed file passed through, the raw branch, and last the "No valid files" error. |
| Upload.RawOutcome | src/utils/fileHandlers.js:184-233 | Computes the raw branch: the consistency error when the validator does not accept the batch, otherwise `{type: "raw_instagram", files, fileCount}`. |
| Upload.MismatchClause | src/utils/fileHandlers.js:190-211 | Empty exactly for a verdict with no reason. Each reason's full sentence is fixed by the verdict: its opening words, then "Expected: " with file 0's value, then "found: " with the offending file's value, then the file's name. The values are the quoted titles, the counts followed by " people", or the sorted name lists joined by ", ". |
| Upload.MismatchClauseNamesFile | src/utils/fileHandlers.js:190-211 | Every reason sentence ends with ` in file "<name>". ` for the offending file. |
| Upload.CountClauseReadsBack | src/utils/fileHandlers.js:200-205 | In a count-mismatch sentence, the number after "Expected: " reads back as file 0's participant count, followed by the rest of the sentence. |
| Upload.ConsistencyMessage | src/utils/fileHandlers.js:190-216 | Always opens with "Files appear to be from different conversations. " and ends with the same-conversation advice. What lies between is exactly the reason sentence, so with no reason the two sentences are the whole message. |
| Upload.SingleRawFileRejected | src/utils/fileHandlers.js:184-219 | A single raw export, as written, ends in "Files appear to be from different conversations. Please ensure all uploaded files are from the same conversation.". |
| Upload.CorrectedAcceptsSingleRawFile | src/utils/fileHandlers.js:184-233 | With the bare `true` accepted, the same single file succeeds with `{files: [it], fileCount: 1}`. |
| Upload.GroupedCorrection | src/utils/fileHandlers.js:184-189 | At the grouping stage, accepting the bare `true` changes the outcome exactly for a batch of one raw-only record. |
| Upload.CorrectionOnlyAffectsSingleRawFile | src/utils/fileHandlers.js:188-189 | The corrected and as-written decisions differ exactly on batches of one loadable raw-only file. |
| Upload.OverlappingFileRejectedAsMixed | src/utils/fileHandlers.js:138-168 | A file satisfying both predicates is rejected as a mix, even on its own. |
| Upload.SingleProcessedFileAccepted | src/utils/fileHandlers.js:170-181 | One processed statistics file is passed through unchanged. |
| Upload.NoValidFilesUnreachable | src/utils/fileHandlers.js:236-239 | The final "No valid files found" error is never produced. |
| Upload.GroupsCoverBatch | src/utils/fileHandlers.js:138-159 | With no unrecognised file, a non-empty batch has a raw or a processed file. |
| Seqs.FilterConcat | src/utils/fileHandlers.js:113-116 | `filter` keeps input order: filtering a concatenation filters each part and concatenates the results. |
| Seqs.FilterSingleton | src/utils/fileHandlers.js:113-116 | A single element is kept exactly when it passes the test. |
| Upload.TypeGate | src/utils/fileHandlers.js:107-125 | An empty batch is rejected first. Next, any file failing the name or type check causes an error listing exactly those files' names, in order. |
| Upload.GroupedGates | src/utils/fileHandlers.js:150-178 | Any unrecognised file causes an error listing all of them. Otherwise raw plus processed files cause the mix error. Several processed-only files cause the multiple-files error. |
| Upload.GroupedOutcomes | src/utils/fileHandlers.js:150-234 | Grouping succeeds only in two cases: exactly one processed-only file, passed through, or a raw-only batch the consistency check accepts, passed on whole with `fileCount` equal to its length. |
| Upload.DecideReachesGrouping | src/utils/fileHandlers.js:107-148 | Only a batch that passes the type gate, loads, and classifies without an exception reaches grouping, and it does so with its loaded records. |
| Upload.AcceptedBatches | src/utils/fileHandlers.js:101-243 | A batch succeeds exactly when it is admissible and is one processed-only file, or raw-only files that pass validation. The payload is that file's data or all the records. |
| Js.Truthy | src/utils/fileHandlers.js:4-11 | Computes JavaScript truthiness: false exactly for `null`, `false`, 0 and the empty string. |
| Js.StrictEq | src/utils/fileHandlers.js:67 | Computes `===` between values of two separate parses: equal primitives only, never two arrays or objects. |
| Js.ToJsString | src/utils/fileHandlers.js:31-33 | Computes `String(v)`: "null", "true"/"false", decimal integers, the string itself, an array's comma join, "[object Object]". |
| Js.JoinValues | src/utils/fileHandlers.js:209 | Computes `join(sep)`: each element's `String` form, `null` as the empty string, separated by `sep`. |
| PersonalCard.FormatHour | src/components/cards/PersonalCard.jsx:23-27 | 0 is "12:00 AM", 12 is "12:00 PM", 1-11 are "h:00 AM", and 13-23 are "(h-12):00 PM". |
| PersonalCard.FormatHourRoundTrip | src/components/cards/PersonalCard.jsx:23-27 | Reading the label of any hour 0-23 back as a 12-hour clock gives the hour. |
| PersonalCard.FormatHourInjective | src/components/cards/PersonalCard.jsx:23-27 | Distinct hours of the day have distinct labels. |
| PersonalCard.FormatTime | src/components/cards/PersonalCard.jsx:29-36 | "< 1 min" exactly below one minute. Otherwise "m min" below an hour, then "Hh" or "Hh Mm" below a day. |
| PersonalCard.FormatTimeDays | src/components/cards/PersonalCard.jsx:37-39 | From a day on, the label is "Dd" or "Dd Hh": whole days, then leftover whole hours. |
| PersonalCard.FormatTimeRoundTrip | src/components/cards/PersonalCard.jsx:29-40 | Reading a label back gives the minutes exactly below a day. From a day on it gives the minutes rounded down to a whole hour. |
| PersonalCard.Quickest | src/components/cards/PersonalCard.jsx:15-18 | At most three entries, ascending, drawn from the input. None is slower than an entry left out. Entries with equal times keep their input order. |
| PersonalCard.Slowest | src/components/cards/PersonalCard.jsx:19-21 | At most three entries, descending, drawn from the input. None is quicker than an entry left out. Entries with equal times keep their input order. |
| PersonalCard.SelectionsComeFromInput | src/components/cards/PersonalCard.jsx:15-21 | Each listed (name, time) pair occurs in the response times. |
| PersonalCard.PersonalCardLists | src/components/cards/PersonalCard.jsx:8-21 | The card shows nothing exactly when `account_owner` or `personal_stats` is falsy. Otherwise its lists are the selections over `your_response_times` (empty when absent), at most three each. |
| OverviewCard.TopChatters | src/components/cards/OverviewCard.jsx:9-12 | At most five badges, non-increasing by count, drawn from the entries. None has fewer messages than an entry left out. Senders with equal counts keep their `Object.entries` order. |
| OverviewCard.ChattersComeFromInput | src/components/cards/OverviewCard.jsx:9-12 | Each badge's `{name, count}` is an entry of `per_sender`, unchanged. |
| OverviewCard.TopChattersOf | src/components/cards/OverviewCard.jsx:8-13 | No badges without a truthy `per_sender`. Otherwise there are `min(5, entries)` badges. |
| OverviewCard.Truncate | src/components/cards/OverviewCard.jsx:107-110 | Text of at most 120 characters is unchanged. Longer text becomes its first 120 characters plus "...", 123 in all. |
| OverviewCard.TruncateIdempotent | src/components/cards/OverviewCard.jsx:107-110 | Truncating a preview again changes nothing. |
| OverviewCard.TruncatePrefix | src/components/cards/OverviewCard.jsx:107-110 | The preview is a prefix of the text, or its first 120 characters plus the marker. |
| OverviewCard.WeekdayAt | src/components/cards/OverviewCard.jsx:52-60 | A numeric index 0-6 selects "Mon".."Sun" in order. An absent key selects nothing. |
| OverviewCard.WeekdayAtIndex | src/components/cards/OverviewCard.jsx:52-60 | A key shows day `n` exactly when its string form is `n` in decimal. |
| OverviewCard.BusiestDay | src/components/cards/OverviewCard.jsx:51-61 | A missing, `null` or empty `busiest_dow` list, or a falsy first pair, shows "—". When the first pair is `[n, count]` with `n` in 0..6, the label is the n-th of Mon..Sun. Any other first pair `[x, ...]` gets the label of `x`. |
| OverviewCard.BusiestDayLabels | src/components/cards/OverviewCard.jsx:51-61 | The label is "—", a weekday, "7", or nothing. |

## Left out

- File reading: `FileReader` and `JSON.parse` are not modelled. Each selected file comes with the outcome of its read: parsed JSON, invalid JSON, or a read failure. The rejection messages are those of `readFile`.
- Timing of `Promise.all`: it rejects with the first read to fail in time. The model takes the first failing file in batch order, because read timing is not modelled.
- Progress callbacks, `handleFileUpload`, `handleFileDrop`, `handleDragOver` and `parseStatsFile`: event plumbing, not decision logic.
- Rendering: JSX, React state and `src/App.jsx`.
- Floating point: minutes, hours and counts are integers, so `Math.round` is the identity. The fractional cases ("60 min", "1h 60m") are not modelled.
- Number formatting: `toFixed` and `toLocaleString` are not modelled.
- The card title's clock: `new Date().getFullYear()` reads the clock.
- String order: the default sort compares UTF-16 code units. The model compares `char`s lexicographically. String lengths are counted in `char`s, not UTF-16 units.
- Non-numeric sort values: the `a - b` comparator converts its operands to numbers. `null` and booleans become 0 or 1. A string becomes the number it reads as, and an empty or blank string becomes 0. An array converts through its `String` form, so `[]` is 0 and `[5]` is 5. The result is `NaN` for plain objects, for strings that do not read as a number, and for arrays whose `String` form does not. With `NaN` the order is implementation-defined. The model implements no such conversion, so the two members below require number values.
- PersonalCard.PersonalCardLists: requires numeric response times, since the conversion above is not modelled.
- OverviewCard.TopChattersOf: requires numeric `per_sender` values, since the conversion above is not modelled.
- PersonalCard.FormatHour: its contract states the labels of the hours 0-23 only. For other integers the body follows the code (24 gives "12:00 PM", -1 gives "-1:00 AM") without a stated property. Non-integer hours, which JavaScript converts before `%` and `<`, are not modelled.
- Js.ToJsString: an object with an own `toString` property (JSON can only give it a non-function value) makes `String(o)`, `join` and a computed property key throw "Cannot convert object to primitive value". The model reads such an object as "[object Object]" and does not model that exception.
- Sorting.DefaultSort: the default comparator converts both operands to strings on every comparison. So `.sort()` throws as soon as an object with an own `toString` property is compared with any other name, that is, whenever such a name is in a list of two or more. The model sorts such an object as "[object Object]".
- Js.JoinValues: `join` converts each element to a string and throws on an object with an own `toString` property. The model joins it as "[object Object]".
- Consistency.ValidateReportsFirstOffender: a batch whose names include objects with an own `toString` property can make the source's `.sort()` throw, so the upload ends in "Error processing files: Cannot convert object to primitive value". The model returns a mismatch report instead.
- Upload.RawBatchRejected: when the reported names include an object with an own `toString` property, the source's `join` throws while building the message, and the upload ends in "Error processing files: Cannot convert object to primitive value". The model's message renders that name as "[object Object]".
- OverviewCard.BusiestDayLabels: a `busiest_dow[0][0]` object with an own `toString` property makes the weekday lookup throw during rendering. The model gives no label.
- OverviewCard.BusiestDay: for a first pair `[x, ...]` whose `x` is an object with an own `toString` property, the weekday lookup throws during rendering. The model gives `x`'s label, which is no label.
- Js.ErrorMessage: the `TypeError` message uses V8's wording ("Cannot read properties of null (reading 'x')"). Other engines word it differently, so the caught-error text is engine-specific.
- Number rendering: `String(n)` is decimal for integers. The renderings of `NaN`, infinities and exponent forms are not modelled.
- Reference identity: names that are arrays or objects are never `===`, because two parses never share a reference.

## Findings

| source | as written | input that shows it | evidently intended | confidence | as-written member | corrected member |
|---|---|---|---|---|---|---|
| src/utils/fileHandlers.js:189 | For 0 or 1 files the validator returns `true` (line 28), and the caller reads `.valid` from it, which is `undefined`, so the batch is rejected | one well-formed raw export | a single raw export is accepted as `{type: "raw_instagram", files: [it], fileCount: 1}` | high; not executed | Upload.SingleRawFileRejected | Upload.CorrectedAcceptsSingleRawFile |
