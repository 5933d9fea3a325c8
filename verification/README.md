# d3-go-client in Dafny

A model of the Go client for the D3 (dragdropdo) file-processing API:

- `NewClient`: configuration defaults and header merge.
- The multipart `UploadFile`:
  - part planning;
  - content-type resolution;
  - the initiate / PUT-per-part / complete sequence;
  - ETag handling;
  - progress reports.
- The operation endpoints (`CheckSupportedOperation`, `CreateOperation` and the convenience shortcuts).
- `GetStatus` and the `PollStatus` loop.
- The typed error family of `errors.go` with `FormatError`.

Everything is immutable data and pure functions. The outside world is an input:

- the file's bytes;
- the decoded answers of the API;
- the fate of each part's PUT;
- the clock readings of the poll loop;
- the two standard-library lookups (`filepath.Ext`, `mime.TypeByExtension`).

What the client sends is an output: requests, PUTs, progress reports, updates and sleeps. Durations are integer nanoseconds, as in Go.

| file | module | models |
|---|---|---|
| wrappers.dfy | `Wrappers` | `Option`, `Result` |
| decimal.dfy | `Decimal` | `%d` rendering of integers and its inverse |
| errors.dfy | `Errors` | errors.go |
| failures.dfy | `Failures` | the plain `errors.New` / `fmt.Errorf` failures client.go returns |
| client.dfy | `Client` | `NewClient` |
| planner.dfy | `Planner` | part count and byte ranges of `UploadFile` |
| mime.dfy | `Mime` | content-type resolution and `getMimeType` |
| upload.dfy | `Upload` | `UploadFile`, ETags, progress |
| operations.dfy | `Operations` | `CheckSupportedOperation`, `CreateOperation`, the shortcuts |
| status.dfy | `Status` | `GetStatus`, `PollStatus` |

Conventions:

- A transport answer is a `Result`. `Err(cause)` is a transport failure, the only case in which the HTTP library returns an error. `Ok(data)` is the decoded `data` object. An HTTP error status decodes to zero values and is not an error for the client.
- client.go never builds the typed errors of errors.go. Its failures are modelled as the `Failures.Failure` reasons, one per message template, and `Failures.Message` renders each template's text. `Failures.AsError` shows that none of the `IsD3*` tests recognise them.
- The tests call the constructor `NewDragdropdo` and expect paths under `/v1/external/`. client.go defines `NewClient` and uses `/v1/biz/`. The model follows client.go.
- An ETag header of two quotes passes the emptiness check and is then trimmed to an empty ETag. The model keeps this: `Upload.TrimQuotesExamples`.

## Model

| member | source | states |
|---|---|---|
| Errors.NewApiError | errors.go:22-31 | the error is an API error and no other kind; its text is the message; it carries the given status; code and details pass through |
| Errors.NewValidationError | errors.go:38-47 | only the validation test holds; status is always 400 with no code; its formatted text is just the message |
| Errors.NewUploadError | errors.go:54-61 | only the upload test holds; status and code are nil; formatting gives the message |
| Errors.NewTimeoutError | errors.go:68-77 | only the timeout test holds; an empty message becomes "Operation timed out", any other is kept; the text is never empty |
| Errors.Text | errors.go:13-15 | `Error()`: a typed error answers with its message, any other error with its own text |
| Errors.IsApiError | errors.go:80-83 | the type assertion to `*D3APIError`: true exactly for a typed error of the API kind |
| Errors.IsValidationError | errors.go:85-88 | the type assertion to `*D3ValidationError`: true exactly for a typed error of the validation kind |
| Errors.IsUploadError | errors.go:90-93 | the type assertion to `*D3UploadError`: true exactly for a typed error of the upload kind |
| Errors.IsTimeoutError | errors.go:95-98 | the type assertion to `*D3TimeoutError`: true exactly for a typed error of the timeout kind |
| Errors.KindsExclusive | errors.go:80-98 | at most one of the four type assertions holds for any error, and none holds for an error that is not one of the typed errors |
| Errors.FormatError | errors.go:100-108 | errors other than a status-carrying API error render as `Error()`; an API error with a status starts with "API Error (" and ends with its message |
| Errors.FormatApiErrorRoundTrip | errors.go:101-105 | the status and the message can both be read back from a formatted API error, whatever the message contains |
| Errors.ParseApiParts | errors.go:104 | "API Error (<status>): <message>" splits back into the status and the message |
| Errors.NewApiErrorFormats | errors.go:22-31 | a constructed API error formats to a string that yields its status and message |
| Decimal.ParseFormatInt | errors.go:104 | the decimal rendering of any integer parses back to it |
| Decimal.FormatInt | errors.go:104 | a non-empty run of decimal digits with no leading zero, preceded by a minus sign exactly when the number is negative |
| Failures.AsError | errors.go:80-98 | a client.go failure satisfies none of the four `IsD3*` tests, and `FormatError` prints the failure's message |
| Failures.Message | client.go:132-586 | every reason renders to a non-empty text: its template with `%d` as `Decimal.FormatInt`, a wrapped cause after ": ", and the timeout through the duration formatter |
| Failures.MessageEndsWithCause | client.go:176-335 | a failure that wraps a cause with `%w` ends its message with ": " and that cause |
| Failures.PartRejectedMessage | client.go:284 | part 2 answered 403 reads "failed to upload part 2: status 403" |
| Client.NewClient | client.go:130-166 | fails exactly when the API key is empty; zero timeout becomes 30 s; empty base URL becomes the dev host; one trailing slash is trimmed; headers are the two defaults overlaid by the caller's |
| Client.TrimSuffix | client.go:139 | with the suffix present, result plus suffix is the input; otherwise the input is unchanged |
| Client.MergeHeaders | client.go:146-152 | keys are the union; caller values win; defaults survive where not overridden |
| Client.TrimsOneSlashOnly | client.go:136-139 | a base URL ending in "//" keeps one slash |
| Planner.PartCount | client.go:180-191 | result in 1..100; positive requests are clamped to 100, negative ones become 1; with no request it is the least number of 5 MiB chunks covering the file, capped at 100 |
| Planner.PartAsWritten | client.go:255-260 | a part as the loop computes it never ends past the file and is no longer than the per-part size; its length is negative exactly when its start `i * chunk` lies past the end of the file |
| Planner.PlanAsWritten | client.go:254-260 | one as-written range per part, none ending past the file |
| Planner.Plan | client.go:254-260 | one corrected range per part, each inside the file |
| Planner.Safe | client.go:255-263 | the condition `(parts - 1) * chunk <= size`; a single part is always safe |
| Planner.SafeSmallFiles | client.go:255-263 | an empty file is safe in any number of parts; a file of fewer bytes than parts is safe exactly when there is one part more than bytes |
| Planner.CeilDivBounds | client.go:184 | the rounded-up quotient is the least multiple count covering the dividend |
| Planner.Part | client.go:254-260 | a corrected part lies inside the file and is no longer than the per-part size |
| Planner.PlanCoversFile | client.go:244-260 | corrected parts start at 0, are non-negative, each starts where the previous ends, the last ends at the file size, and their lengths sum to it |
| Planner.SafePlanAgrees | client.go:254-260 | when `(parts-1)*c <= size` the as-written ranges are exactly the corrected ones |
| Planner.SafeIffNoNegativeLength | client.go:255-263 | that condition holds exactly when no as-written part has a negative length |
| Planner.SafePlanEqualParts | client.go:244-260 | under it, all parts but the last have size `ceil(size/parts)` and the last is no longer |
| Planner.AutoPlanIsSafe | client.go:181-191 | with no requested count the plan is always safe, and a non-empty file gets no empty part |
| Planner.AutoChunkCoversCount | client.go:181-191 | with no requested count, the chunk size is at least the part count |
| Planner.LastPartLength | client.go:255-260 | when the last part starts inside the file, it runs from there to the end of the file |
| Planner.TooManyPartsWitness | client.go:255-263 | 10 bytes in 7 parts: part 7 starts at 12 with length -2 as written; corrected parts 6 and 7 are empty at offset 10 |
| Planner.SixMiBInTwoParts | client_test.go:23-25 | 6 MiB in 2 requested parts is two 3 MiB ranges |
| Mime.LowerChar | client.go:629 | 'A'-'Z' move up by 32 to 'a'-'z'; U+0130 becomes 'i' and U+212A becomes 'k'; every other character is unchanged; no ASCII capital comes out |
| Mime.ToLower | client.go:629 | same length, each character lower-cased as `LowerChar` does, and no ASCII capital left |
| Mime.BuiltinMimeType | client.go:611-629 | non-empty exactly when the lower-cased extension is a table key, and then it is that entry |
| Mime.BuiltinIgnoresCase | client.go:629 | extensions equal up to case give the same type |
| Mime.UpperCasePdf | client.go:613 | ".PDF" resolves to application/pdf |
| Mime.NonAsciiCapitals | client.go:611-629 | ".G\u0130F" resolves to image/gif and ".Z\u0130P" to application/zip; the Kelvin sign alone is no key |
| Mime.ResolveMimeType | client.go:193-204 | never empty; explicit type, else system table, else built-in table, else application/octet-stream |
| Upload.TrimQuotesShape | client.go:295 | the trimmed ETag is the header with a run of quotes cut from each end, and neither starts nor ends with a quote |
| Upload.TrimQuotesIdempotent | client.go:295 | trimming twice is trimming once |
| Upload.TrimQuotesExamples | client.go:288-295 | a quoted ETag loses its quotes; a bare one is unchanged; two quotes become "" |
| Upload.PercentageAsWritten | client.go:311 | undefined exactly for an empty file |
| Upload.Percentage | client.go:311 | agrees with the source for non-empty files; lies in 0..100 while bytes stay within the file; 100 for the whole file |
| Upload.PercentageMonotone | client.go:311 | more bytes never give a smaller percentage, both for the source's expression on a non-empty file and for the corrected `Percentage` |
| Upload.EmptyFileProgressWitness | client.go:311 | an empty file has no as-written percentage, and the corrected one is 100 |
| Upload.EmptyFilePlan | client.go:183-191 | an empty file is one part of 0 bytes |
| Upload.SendParts | client.go:254-314 | at most one completed part per remaining part; any failure names a single part |
| Upload.SendPartsCollects | client.go:283-300 | stops at the first part not accepted, with its failure and 1-based number; before that, one stripped ETag per part, numbered from 1 |
| Upload.SendPartsPuts | client.go:263-281 | PUTs go out in order, one per accepted part, plus the failing part when its PUT was sent |
| Upload.SendPartsProgress | client.go:302-313 | one report per accepted part when a callback is set, none otherwise; the running byte total equals the end of that part |
| Upload.SendPartsAccepted | client.go:283-313 | an accepted part contributes its stripped ETag, its PUT and (with a callback) its report ahead of what the rest of the loop produces, and keeps the rest's failure |
| Upload.SendPartsRejected | client.go:262-294 | a part not accepted ends the loop with its failure, after its PUT only when that PUT went out |
| Upload.JobFor | client.go:243-260 | the part job is valid and contiguous; one range per URL; it ends at the file size; it carries the resolved content type |
| Upload.UploadFile | client.go:169-347 | the initiate request has the file name, size, planned count and resolved type; pre-session failures open, send, report and complete nothing |
| Upload.UploadAnnounces | client.go:216-224 | once a named file is found, the initiate request goes out |
| Upload.UploadValidationOrder | client.go:170-251 | the checks fail in source order with their own reasons: name, file, initiate call, URL count, upload id, open; nothing is uploaded before the file is opened |
| Upload.UploadSucceedsIff | client.go:169-347 | success exactly when the session checks pass, the file opens, every part is accepted and the complete call goes through |
| Upload.UploadCompletion | client.go:297-330 | on success the completion keeps the session ids and has one entry per URL, in order, each with `part_number = j+1` and the stripped ETag |
| Upload.UploadResponseMirrorsSession | client.go:338-347 | on success the response repeats the session's fields, each mirrored by its alias |
| Upload.Respond | client.go:338-347 | the response carries the session's file key, upload id, URLs and object name, each mirrored by its alias |
| Upload.AllAcceptedCompletes | client.go:297-347 | a ready session whose parts are all accepted and whose complete call goes through succeeds |
| Upload.UploadPartFailure | client.go:277-294 | the first unaccepted part ends the upload with its failure: non-2xx gives the status failure, a missing ETag the ETag failure; no completion is sent |
| Upload.PlanEndsMonotone | client.go:302 | part ends never decrease along a contiguous plan |
| Upload.UploadRunsParts | client.go:254-336 | a ready session's PUTs and reports are the part loop's; success means all parts were accepted and the completion succeeded |
| Upload.JobProgressShape | client.go:305-312 | each report names its part, the part count, the end of that part and the file size, with the matching percentage |
| Upload.JobProgressMonotone | client.go:302-312 | reported bytes and percentage never decrease |
| Upload.UploadProgressReports | client.go:302-313 | with a callback, one report per accepted part (all of them on success), each with part `j+1` of the planned count and the file size |
| Upload.UploadProgressClimbs | client.go:302-313 | bytes and percentage never go backwards; a successful upload ends on the whole file at 100 |
| Upload.UploadSilentWithoutCallback | client.go:305 | no callback, no reports |
| Upload.BodiesFollowPlan | client.go:254-270 | the first n PUT bodies laid end to end are the file up to the end of part n |
| Upload.JobSendsEveryPart | client.go:254-281 | with no failing part, one PUT per planned part, each carrying that part's URL, type and bytes |
| Upload.JobSendsWholeContent | client.go:254-270 | with no failing part over a contiguous plan, the bodies together are the content up to the end of the last part |
| Upload.JobSendsWholeFile | client.go:254-281 | with no failing part over a plan that ends at the end of the content: one PUT per URL, in order, with the job's type, and the bodies together are the whole content |
| Planner.NonNegativeAgrees | client.go:255-263 | wherever the source's part length is not negative, its range is the corrected one |
| Planner.OneByteInThreeParts | client.go:255-263 | one byte in 3 requested parts: the third part as written has length -1, so the plan is not safe |
| Upload.SafeUploadNeverPanics | client.go:254-314 | when every planned part has a non-negative length, and the file is non-empty or no callback is set, the source as written does not panic |
| Upload.UploadPanics | client.go:254-314 | the runs in which the source panics: a ready session that reaches a part with a negative `make` length, or an empty file with a callback whose one part is accepted |
| Upload.PanicFreeRunFollowsSource | client.go:254-314 | in a run that does not panic, every part reached uses the source's own range, and an empty file with a callback reports nothing |
| Upload.UploadSucceedsIffAsWritten | client.go:169-347 | the source as written returns success exactly when the session checks pass, the file opens, every part is accepted, the complete call goes through, every part length is non-negative, and an empty file has no callback |
| Upload.OneByteInThreePartsPanics | client.go:255-267 | a 1-byte file with `Parts: 3` and every part answered 200 panics in the source |
| Upload.OneByteInThreePartsCompletes | client.go:169-347 | the same run completes in the corrected model |
| Upload.EmptyFileWithCallbackPanics | client.go:311 | an empty file with a callback and its one part answered 200 panics in the source |
| Upload.EmptyFileWithCallbackReports | client.go:311 | the same run reports 100% once in the corrected model |
| Upload.UploadSendsWholeFile | client.go:254-281 | on success one PUT per URL, in order, with the resolved type; the bodies together are the whole file |
| Upload.JobForPlan | client.go:244-260 | the job uses the planner's ranges for the announced count |
| Upload.SixMiBSessionReady | client_test.go:98-103 | two URLs for the two planned parts of the test file make the session usable |
| Upload.SixMiBUploadSucceeds | client_test.go:98-108 | the test upload succeeds |
| Upload.SixMiBUploadAnswers | client_test.go:98-118 | the test upload announces 2 parts of application/pdf and echoes the session back |
| Upload.SixMiBUploadCompletes | client_test.go:39-41 | both completion entries carry the unquoted "etag-part-1", numbered 1 and 2 |
| Upload.SixMiBJobCount | client_test.go:98-103 | the test upload plans 2 parts |
| Upload.SixMiBJobHalves | client_test.go:23-25 | the test upload cuts the file into two 3 MiB halves |
| Upload.TwoHalvesSent | client.go:254-281 | a job of two accepted halves PUTs exactly those halves |
| Upload.UrlCountMismatchScenario | client.go:235-237 | one URL for two planned parts fails with the counts 2 and 1, before opening the file |
| Upload.FirstRejectedIsFirst | client.go:254-294 | the first unaccepted part after accepted ones is where the loop stops |
| Operations.SupportBody | client.go:360-369 | the body always holds ext; action only when non-empty; parameters only when non-nil; no other keys |
| Operations.SupportBodyRoundTrip | client.go:360-369 | the options can be read back from the body |
| Operations.CheckSupportedOperation | client.go:351-379 | an empty ext fails before sending; otherwise the body is posted to the supported-operation path; transport errors are wrapped; the decoded data is returned as is |
| Operations.DoBody | client.go:397-406 | action and file keys always; parameters and notes only when non-nil; no other keys |
| Operations.DoBodyRoundTrip | client.go:397-406 | the options can be read back from the body |
| Operations.RespondOperation | client.go:418-422 | the main task id and its alias are both the answered id |
| Operations.CreateOperation | client.go:383-423 | the action is checked before the file keys, and neither failure sends anything; otherwise the body is posted to the do path; transport errors are wrapped; the id is mirrored |
| Operations.ActionName | client.go:428-516 | every shortcut sends a non-empty action |
| Operations.ShortcutOptions | client.go:428-516 | every shortcut sends its own action and the caller's file keys and notes; merge, zip and share send no parameters; convert sends only `convert_to`; compress sends only `compression_value`, "recommended" when none is given; lock and unlock send only `password`; reset sends only `old_password` and `new_password` |
| Operations.ShortcutRoundTrip | client.go:428-516 | the shortcut, with the compression default filled in, can be read back from the options it sends |
| Operations.RunShortcut | client.go:428-516 | a shortcut never fails for a missing action; it sends exactly when a file key is given, and then posts the shortcut's options to the do path and returns the answered id |
| Operations.ActionNamesDistinct | client.go:428-516 | different shortcuts send different actions |
| Operations.ShortcutValidation | client.go:384-389 | a shortcut never fails for a missing action; it fails before sending exactly when no file key is given |
| Operations.CompressAlwaysNamesLevel | client.go:440-452 | compression always names a level: "" becomes "recommended", anything else is sent unchanged |
| Operations.ConvertScenario | client_test.go:201-208 | converting one file to png posts action convert, `convert_to` png and no notes, and returns task-123 under both names |
| Operations.SupportQueryScenario | client_test.go:291-304 | asking about pdf alone posts only the extension and returns the answer |
| Status.StatusPath | client.go:524-527 | the path begins with the status prefix followed by the main task id |
| Status.StatusPathRoundTrip | client.go:524-527 | both task ids can be read back from the path when the main id holds no '/' |
| Status.RespondStatus | client.go:551-566 | status and file list copied, each mirrored by its alias |
| Status.GetStatus | client.go:519-567 | an empty main task id fails before fetching; otherwise the status path is fetched, transport errors are wrapped and the answer is mirrored |
| Status.EffectiveInterval | client.go:572-575 | zero becomes 2 s; other values are kept; a non-negative interval ends up positive |
| Status.EffectiveTimeout | client.go:576-579 | zero becomes 5 min; other values are kept |
| Status.FirstStop | client.go:583-606 | the first pass that does not poll again: every earlier one was in time, answered and not terminal |
| Status.PollFrom | client.go:583-606 | no more calls than passes left, no more sleeps or updates than calls, no updates without the callback, and a pending run has polled on every pass |
| Status.PollStatus | client.go:571-607 | pending exactly when every pass polls again; timed out exactly when the stopping pass is past the timeout; finished exactly when the stopping pass is fetched; one defaulted-interval sleep per continuing pass |
| Status.PollFromStopsAtFirstStop | client.go:583-606 | one call per continuing pass plus one if the stopping pass beat the clock; a sleep of the interval after each continuing pass; one update per fetched snapshot when asked; the outcome is the stopping pass's |
| Status.PollFinishedIff | client.go:583-606 | polling finishes exactly when the stopping pass was fetched successfully; it returns that terminal snapshot after k+1 calls and k sleeps, none after it |
| Status.PollTimedOutIff | client.go:585-587 | polling times out exactly when the clock is past the timeout before the stopping pass, and that pass makes no call |
| Status.PollStopsOnCallFailure | client.go:590-593 | a failing status call ends polling at once with that call's error |
| Status.FirstStopIsFirst | client.go:583-606 | any pass that stops after continuing ones is the stopping pass |
| Status.PollNeedsMainTask | client.go:520-522 | an empty main task id stops polling on the first pass in time, with no updates |
| Status.ClockAtLeast | client.go:606 | on an honest clock, pass j reads at least j intervals |
| Status.PollsWithinTimeout | client.go:583-587 | with a non-negative interval and an honest clock, every pass that polls again started within the timeout |
| Status.PollEndsInTime | client.go:583-606 | with a non-negative interval and an honest clock, a window of more than `timeout / interval + 1` ticks always reaches an outcome |
| Status.QueuedThenCompleted | client_test.go:157-228 | queued then completed, polled every 5 ms for up to 1 s: the completed snapshot with its download link after 2 calls and 1 sleep |
| Status.TwiceQueuedThenCompleted | client.go:583-606 | queued twice then completed, with updates: 3 calls, 2 sleeps, all three snapshots delivered |
| Status.DefaultsTimeOut | client.go:572-586 | with zero interval and timeout, a task still queued after 5 min times out with the 5 min default after one 2 s sleep |
| Status.StatusExamples | client.go:601 | "queued" is not terminal and "completed" is |

## Left out

- HTTP transport: resty, `http.Client`, JSON encoding and decoding, headers on the wire. Each call takes its decoded answer, or its transport error, as an input.
- File system calls: `os.Stat`, `os.Open`, `ReadAt`. The file is its byte sequence. Opening and reading failures are inputs. The tolerated short read at client.go:265 is I/O behaviour.
- `time.Now`, `time.Since` and `time.Sleep`: the poll loop reads one elapsed time per pass from a finite list and records its sleeps. When the list runs out first, the outcome is `Pending`.
- `filepath.Ext` and `mime.TypeByExtension` are uninterpreted functions (`Mime.Platform`).
- Mime.LowerChar: keeps the case of every non-ASCII capital other than U+0130 and U+212A (for example 'É' stays 'É' where Go gives 'é'), because `unicode.ToLower`'s tables are outside the model; such letters lower-case to non-ASCII letters in Go and can reach no table key.
- Mime.ToLower: lower-cases the ASCII capitals and the two non-ASCII capitals whose lower case is ASCII (U+0130 and U+212A); every other character keeps its case, because `strings.ToLower`'s Unicode tables are outside the model. The lower case of every other non-ASCII letter is non-ASCII, so it can reach no table key either way and the lookup agrees with the source.
- Upload.JobFor: plans with the corrected `Planner.Part`, so where the source's part length is negative (a panic in `make`) the model sends empty parts instead; `Upload.UploadPanics` names those runs.
- Upload.UploadFile: reports progress with the corrected `Upload.Percentage`, and plans as `Upload.JobFor` does, so in the runs `Upload.UploadPanics` names, where the source panics, the model goes on; `Upload.PanicFreeRunFollowsSource` shows it follows the source everywhere else.
- Upload.UploadSucceedsIff: states success of the corrected model; the source's own success condition, with the panicking runs excluded, is `Upload.UploadSucceedsIffAsWritten`.
- Integer widths: sizes and byte counts are unbounded, not `int64`. The overflow of `bytesUploaded * 100` needs more than 2^63 / 100, about 9.2 * 10^16 bytes (about 92 PB).
- Failure messages: `Failures.Message` renders every template; a `time.Duration` printed with `%v` is the `formatDuration` parameter, because Go's duration formatting is outside the model.
- Parameter and note values are strings. client.go accepts any JSON value for parameters.
- `OnProgress` and `OnUpdate` are booleans ("a callback is set"). Their effect is the reports and updates recorded in the run.
- client_live_test.go is a live network test and is not part of this model.

## Findings

| source | as written | input that shows it | evidently intended | confidence | as-written member | corrected member |
|---|---|---|---|---|---|---|
| client.go:255-263 | part `i` starts at `i * ceil(size/parts)`. An explicit part count can put that start past the end of the file, and `make([]byte, end - start)` then gets a negative length and panics | file of 10 bytes, `Parts: 7`: per-part size 2, part 7 starts at 12, length -2 | every part lies inside the file, with trailing parts empty when there are more parts than bytes to share | not executed | Planner.PartAsWritten, Planner.TooManyPartsWitness, Upload.OneByteInThreePartsPanics | Planner.Part, Planner.PlanCoversFile, Upload.SafeUploadNeverPanics, Upload.OneByteInThreePartsCompletes |
| client.go:311 | `Percentage` divides by the file size, which is 0 for an empty file. Go panics with an integer divide by zero once a progress callback is set | empty file with `OnProgress` set: one part of 0 bytes, then `0 * 100 / 0` | an empty upload reports 100% | not executed | Upload.PercentageAsWritten, Upload.EmptyFileProgressWitness, Upload.EmptyFileWithCallbackPanics | Upload.Percentage, Upload.PercentageMonotone, Upload.EmptyFileWithCallbackReports |
