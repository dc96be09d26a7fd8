# Survey app vote pipeline and survey service, in Dafny

This project models the core of a small survey application made of three Go services:

- the **vote service** accepts a vote, validates its tags, asks the survey service whether the
  survey exists and lists the vote's question, stamps the vote with an id and a time and hands it
  to a writer; it also reads per-question vote totals back from the results table;
- the **vote worker** consumes queued votes, decodes them, logs each one in a votes table and
  bumps a `(survey, question)` counter in a results table;
- the **survey service** validates and stores surveys (numbering their questions 1..n), lists them
  newest first, serves one survey over RPC to the vote service, and answers HTTP requests with
  status codes chosen by small decision tables.

Both HTTP services choose a serializer per request from a registry keyed by content type, falling
back to JSON.

The model is organised by source file:

| Dafny file | module | models |
|---|---|---|
| `wrappers.dfy` | `Wrappers` | `Option` and `Result` |
| `int32.dfy` | `Int32` | Go's `int32(x)` conversion (two's complement wrap-around) |
| `validation.dfy` | `Validation` | the `required` and `min` struct tags of the validator, first failing tag per field, and its messages |
| `vote_model.dfy` | `VoteModel` | `vote-service/vote/model.go` |
| `vote_memory.dfy` | `VoteMemory` | `vote-service/repository/memory.go` |
| `results_reader.dfy` | `ResultsReader` | `vote-service/repository/postgres.go` |
| `vote_logic.dfy` | `VoteLogic` | `vote-service/vote/logic.go` |
| `worker_queue.dfy` | `WorkerQueue` | `vote-worker-service/queue/rabbit.go` |
| `worker_storage.dfy` | `WorkerStorage` | `vote-worker-service/storage/postgres.go` |
| `worker_main.dfy` | `WorkerMain` | the receive loop of `vote-worker-service/main.go` |
| `survey_protos.dfy` | `SurveyProtos` | the survey RPC messages |
| `survey_model.dfy` | `SurveyModel` | `survey-service/survey/model.go` and the service's errors |
| `survey_memory.dfy` | `SurveyMemory` | `survey-service/repository/memory.go` |
| `survey_logic.dfy` | `SurveyLogic` | `survey-service/survey/logic.go` |
| `survey_grpc.dfy` | `SurveyGrpc` | `survey-service/handler/grpc.go` |
| `survey_http.dfy` | `SurveyHttp` | `survey-service/handler/http.go` |
| `middleware.dfy` | `Middleware` | both `middleware.go` files (the vote copy differs only in the serializer type) |
| `cross_service.dfy` | `CrossService` | what the vote service's question check means for surveys the survey service created |

How the outside world enters the model:

- The database, the message broker and the survey RPC are inputs. A failing database call is an
  `Option<string>` fault parameter. The survey RPC is a function from survey id to a response or
  an error. The rows a results query returns are a sequence of scanned rows or scan failures.
- The vote service's writer and the survey service's repository may fail (the broker writer and
  a database repository can). `Insert` on either service takes that failure as an
  `Option<string>` write fault; without one, the in-memory writer or repository is written.
  Likewise the survey service's `LoadByID` and `Load` take a load fault, an error other than a
  missing survey that is returned unchanged; without one, the in-memory repository answers.
- The clock (`time.Now`) and the id generators (`uuid`, `shortid`) are parameters.
- The queue's channel is the sequence of votes sent on it. The serializers are functions that
  answer `None` where the Go code receives an error.
- The in-memory repositories and the worker's two tables are classes whose methods update their
  fields. Their `LoadByID` and lookup operations are functions reading the state.
- The HTTP handlers are functions computing the one reply a handler writes. The service
  operations they call and the request body read are inputs. `Post`, `Put` and `SetExpiration`
  also return the service calls they make, in order.

Behaviour the model keeps as written:

- `Survey.Questions` carries no `dive` tag. Validating a survey therefore never looks at a
  question's `Text`, and a survey whose questions have empty texts is accepted
  (`SurveyModel.EmptyQuestionTextPasses`).
- The vote service compares question ids after narrowing the vote's `int` question id to `int32`.
  A question id of 2^32 + 1 therefore matches question 1 (`VoteLogic.NarrowingAdmitsAlias`).
  For ids within int32 range the check is plain membership (`VoteLogic.ListedInRange`).
- The vote's `AnswerType` is only tagged `required`, so any non-empty answer type passes
  (`VoteModel.UnknownAnswerTypePasses`).
- On a slice, the validator's `required` only rejects a nil slice. A survey posted with
  `"questions": []` therefore fails on `min=2`, while one with no `questions` key fails on
  `required` (`SurveyModel.EmptyListBreaksMin`). The validator's value for a survey's question
  list records whether the slice is nil.

## Model

| member | source | states |
|---|---|---|
| Int32.ToInt32 | vote-service/vote/logic.go:89 | the result is in int32 range, differs from the input by a multiple of 2^32, and equals the input when that is already in range |
| Int32.WrapsAround | vote-service/vote/logic.go:89 | narrowing ignores multiples of 2^32 |
| Validation.FirstBroken | vote-service/vote/model.go:20 | a field's tags are tried in order; the reported tag is the first one broken, and none is reported exactly when all hold |
| Validation.Report | vote-service/vote/model.go:19-22 | a field reports at most one error, and none exactly when all its tags hold; an error names the field and the first tag it breaks |
| Validation.Check | vote-service/vote/logic.go:50 | a struct reports no error exactly when every field passes, and no more errors than it has fields, each naming a field and a tag that field breaks |
| Validation.CheckReportsFailing | vote-service/vote/logic.go:50 | for fields with distinct names, a field is reported exactly when it fails, and on the first tag it breaks |
| Validation.CheckReportsOnce | vote-service/vote/logic.go:50 | for fields with distinct names, no field is reported twice |
| VoteModel.StructValidIff | vote-service/vote/model.go:17-30 | a vote passes validation exactly when its survey is non-empty, its question is at least 1 and its answer type is non-empty |
| VoteModel.FailuresName | vote-service/vote/model.go:19-22 | each failure is reported exactly when its condition holds: empty survey, question 0 (`required`), negative question (`min`), empty answer type |
| VoteModel.FailuresSpelledOut | vote-service/vote/model.go:19-22 | the failures listed in field order: Survey, then Question, then AnswerType |
| VoteModel.UnknownAnswerTypePasses | vote-service/vote/model.go:7-13 | every vote with a survey, a question of at least 1 and any non-empty answer type outside the five declared constants passes validation |
| VoteModel.UntaggedFieldsIgnored | vote-service/vote/model.go:17-30 | only Survey, Question and AnswerType affect validation |
| VoteMemory.Repository.Insert | vote-service/repository/memory.go:25-30 | stores the vote under its id, leaves every other id alone, and returns no error |
| VoteMemory.WrittenSize | vote-service/repository/memory.go:28 | a write adds one entry for a new id and none for a known id |
| VoteMemory.SameIdOverwrites | vote-service/repository/memory.go:28 | a second write under the same id replaces the first |
| ResultsReader.ScannedPrefix | vote-service/repository/postgres.go:86-95 | the rows read before the first scan failure, in order |
| ResultsReader.FirstScanError | vote-service/repository/postgres.go:92-95 | the first scan failure's error, present exactly when some row failed to scan |
| ResultsReader.Summaries | vote-service/repository/postgres.go:97-102 | one question summary per row, in row order |
| ResultsReader.LatestIsMaximum | vote-service/repository/postgres.go:104-107 | the running maximum from 0 is at least 0, at least every row's last update, and is 0 or some row's last update |
| ResultsReader.LatestZeroIff | vote-service/repository/postgres.go:66-68 | the latest update is 0 exactly when no row has a positive last update |
| ResultsReader.ProcessRows | vote-service/repository/postgres.go:81-111 | echoes the survey id, summarises the rows read before the first scan failure, keeps their latest update, and returns that scan error or else the iteration error |
| ResultsReader.GetResults | vote-service/repository/postgres.go:50-71 | answers as `Read`: a query, scan or iteration error gives empty results with that error; otherwise the processed results, with `ErrResultsNotFound` when the latest update is 0 |
| ResultsReader.ReadSuccess | vote-service/repository/postgres.go:60-70 | a read of well-formed rows echoes the survey id, has one entry per row with its question and count and empty breakdowns, and is not found exactly when no row has a positive last update |
| ResultsReader.ReadFailure | vote-service/repository/postgres.go:54-63 | any query, scan or iteration error yields the empty results and that error |
| ResultsReader.NoRowsNotFound | vote-service/repository/postgres.go:65-68 | a survey without rows is reported as not found |
| VoteLogic.IsValidQuestionId | vote-service/vote/logic.go:87-94 | true exactly when some listed question id equals the vote's question id narrowed to int32 |
| VoteLogic.ValidateSurveyAndQuestion | vote-service/vote/logic.go:69-83 | no error exactly when the survey lookup succeeds and lists the question; otherwise `ErrInvalidRequest` |
| VoteLogic.VoteService.Insert | vote-service/vote/logic.go:48-65 | an invalid vote fails with the validator's failures and nothing is written; a vote whose survey or question is unknown fails with `ErrInvalidRequest` and nothing is written; otherwise the vote carries the new id and time; when the writer fails its error is returned as is and nothing is written, and otherwise the vote is written and no error is returned |
| VoteLogic.VoteService.GetResults | vote-service/vote/logic.go:98-100 | exactly what the results repository answers for the same survey id |
| VoteLogic.NarrowingAdmitsAlias | vote-service/vote/logic.go:89 | a survey listing question 1 also admits question 2^32 + 1 |
| VoteLogic.ListedInRange | vote-service/vote/logic.go:87-94 | for question ids in int32 range, being listed is plain membership |
| WorkerQueue.ProcessMessage | vote-worker-service/queue/rabbit.go:105-113 | a message that decodes sends its vote; one that does not sends nothing |
| WorkerQueue.Consume | vote-worker-service/queue/rabbit.go:65-67 | sends exactly the decodable messages' votes, in delivery order |
| WorkerQueue.ForwardedLength | vote-worker-service/queue/rabbit.go:65-67 | one vote is sent per decodable message, never more than were delivered |
| WorkerQueue.ForwardedConcat | vote-worker-service/queue/rabbit.go:65-67 | consuming two batches in turn sends what each sends, in order |
| WorkerQueue.MalformedDropped | vote-worker-service/queue/rabbit.go:106-109 | a message that fails to decode is dropped without affecting the others |
| WorkerQueue.ForwardedInOrder | vote-worker-service/queue/rabbit.go:105-113 | a decodable message's vote is sent after the votes of the decodable messages before it |
| WorkerStorage.PostgresVoteStorage.Insert | vote-worker-service/storage/postgres.go:53-57 | appends the row (id, survey, question, vote timestamp) to the votes log unless the write fails, returns the write's error, and never touches the results table |
| WorkerStorage.PostgresVoteStorage.UpdateResults | vote-worker-service/storage/postgres.go:61-77 | reads the counter first, then increments it or creates it at 1; a failing read or write changes nothing and is returned; the votes log is untouched |
| WorkerStorage.PostgresVoteStorage.IncrementResults | vote-worker-service/storage/postgres.go:80-84 | adds one to an existing counter and stamps it with the current time, unless the write fails |
| WorkerStorage.PostgresVoteStorage.InitializeResults | vote-worker-service/storage/postgres.go:87-91 | creates a missing counter at 1 with the current time, unless the write fails |
| WorkerStorage.InsertedLogs | vote-worker-service/storage/postgres.go:53-57 | a successful insert adds one log row for the vote's key and none for others; results are unchanged |
| WorkerStorage.UpdatedCounts | vote-worker-service/storage/postgres.go:61-91 | a successful update adds one to the vote's counter and stamps it with the processing time; no other counter and no log row changes; a failed one changes nothing |
| WorkerStorage.RepeatedUpdates | vote-worker-service/storage/postgres.go:61-91 | n successful updates of a missing counter leave it at n |
| WorkerMain.Run | vote-worker-service/main.go:50-66 | processes the votes in order: store, then update results only if the store succeeded, moving on after any error; the tables end as the sequential processing of all votes and each vote's outcome is recorded |
| WorkerMain.ConsumeAndStore | vote-worker-service/main.go:44-66 | one outcome per vote the consumer sent, each the outcome of processing that vote, and the tables end as the processing of exactly those votes in order |
| WorkerMain.LogGrowth | vote-worker-service/main.go:52-56 | each key's log grows by the number of its votes that were stored |
| WorkerMain.TallyGrowth | vote-worker-service/main.go:60-64 | each key's counter grows by the number of its votes that were stored and counted |
| WorkerMain.TalliedAtMostStored | vote-worker-service/main.go:52-64 | a vote is counted only if it was stored |
| WorkerMain.CleanCounts | vote-worker-service/main.go:50-66 | without faults every vote is stored and counted |
| WorkerMain.NeverOvercounts | vote-worker-service/main.go:50-66 | the gap between a key's log rows and its counter grows by the votes stored but not counted and never shrinks, so a counter never overtakes the log |
| WorkerMain.CleanRunKeepsTalliesExact | vote-worker-service/main.go:50-66 | without faults every vote adds one log row and one count to its key, so a counter that matched the log still does |
| WorkerMain.CleanRunAppendsLog | vote-worker-service/main.go:50-66 | without faults the log grows by exactly the votes' rows, in processing order, after the rows already there |
| SurveyModel.FailuresSpelledOut | survey-service/survey/model.go:7-8 | the validator reports `Name` on `required` when the name is empty, then `Questions` on `required` when the slice is nil, or on `min` when it has fewer than two questions, and nothing else |
| SurveyModel.StructValidIff | survey-service/survey/model.go:5-10 | a survey passes validation exactly when its name is non-empty and it has at least two questions |
| SurveyModel.EmptyListBreaksMin | survey-service/survey/model.go:8 | with a name, an empty non-nil question list fails only on `min`, a nil one only on `required` |
| SurveyModel.QuestionTextsIgnored | survey-service/survey/model.go:8 | two surveys with the same name and the same number (and nilness) of questions get the same failures, whatever the question texts |
| SurveyModel.EmptyQuestionTextPasses | survey-service/survey/model.go:8 | any survey with a name and at least two questions passes, even when one of its questions has an empty text that would fail that question's own `required` tag |
| SurveyModel.ErrorText | survey-service/survey/logic.go:45 | `ErrInvalidRequest` wrapping the validator's failures reads "Invalid survey input: " followed by the validator's message; the not-found error reads "Survey not found" |
| Validation.Describe | survey-service/survey/logic.go:45 | the validator's message is empty exactly when there are no failures; otherwise it is the first failure's line, then a newline and the message for the rest |
| SurveyMemory.SortNewestFirst | survey-service/repository/memory.go:53-55 | the array ends ordered by non-increasing creation time and holds the same surveys |
| SurveyMemory.Repository.Insert | survey-service/repository/memory.go:25-30 | stores the survey under its id, overwriting an earlier one; it is then found by that id and every other id answers as before; no error |
| SurveyMemory.Repository.LoadByID | survey-service/repository/memory.go:33-40 | the stored survey exactly when the id is present, otherwise `ErrNotFound`; reads storage only |
| SurveyMemory.Repository.Collect | survey-service/repository/memory.go:46-50 | every stored survey exactly once |
| SurveyMemory.Repository.Load | survey-service/repository/memory.go:43-58 | every stored survey exactly once, newest first, no error, storage unchanged |
| SurveyLogic.NumberQuestions | survey-service/survey/logic.go:53-55 | question k gets id k + 1; count and texts unchanged |
| SurveyLogic.NumberingIds | survey-service/survey/logic.go:53-55 | after numbering the ids lie in 1..n, strictly increase, and the texts are kept |
| SurveyLogic.SurveyService.Insert | survey-service/survey/logic.go:42-59 | an invalid survey fails with `ErrInvalidRequest` and the validator's failures and the repository is untouched; a valid one is stored under the new id with the creation time and numbered questions, and the repository's error is returned as is: on a failed write nothing is stored, otherwise the survey is stored and no error is returned |
| SurveyLogic.SurveyService.LoadByID | survey-service/survey/logic.go:62-64 | the repository's answer unchanged: a load fault is returned as is; otherwise the stored survey exactly when the id is present, else `ErrNotFound` |
| SurveyLogic.SurveyService.Load | survey-service/survey/logic.go:67-69 | the repository's answer unchanged: a load fault is returned as is with no surveys; otherwise no error and every stored survey exactly once, newest first |
| SurveyGrpc.BuildSurveyResponse | survey-service/handler/grpc.go:54-67 | copies id, name and creation time, and one question response per question in order with the id narrowed to int32 and the text |
| SurveyGrpc.MirrorsUnique | survey-service/handler/grpc.go:54-67 | the response built for a survey is determined by the survey |
| SurveyGrpc.HandleSurveyError | survey-service/handler/grpc.go:42-49 | no response, and the load error unchanged |
| SurveyGrpc.GetSurvey | survey-service/handler/grpc.go:24-37 | a load error (a load fault or a missing survey) is returned unchanged with no response; otherwise the built response and no error |
| CrossService.ListedIffNumbered | survey-service/survey/logic.go:53-55 | for a numbered survey served over RPC, a vote's question is listed exactly when its int32 narrowing lies in 1..n |
| CrossService.InRangeQuestionAccepted | vote-service/vote/logic.go:78-80 | for a survey numbered by the survey service, an in-range question id is accepted exactly when it is between 1 and the number of questions |
| SurveyHttp.Response | survey-service/handler/http.go:358-362 | the serializer's content type, the given status and the output as body |
| SurveyHttp.Error | survey-service/handler/http.go:365-375 | the encoded error body with the given status; if encoding fails, a plain-text 500 "Internal Server Error" |
| SurveyHttp.ErrorStatus | survey-service/handler/http.go:365-375 | an error reply has the requested status or 500, never a success status |
| SurveyHttp.LoadErrorCode | survey-service/handler/http.go:56-64 | 404 exactly for not found, 500 for any other error |
| SurveyHttp.PostErrorReply | survey-service/handler/http.go:322-333 | invalid input and conditional-logic errors give 422 with the error's text; anything else 500 |
| SurveyHttp.UpdateErrorReply | survey-service/handler/http.go:336-350 | not found gives 404; every other error is answered as for a post |
| SurveyHttp.ExpirationErrorReply | survey-service/handler/http.go:301-312 | not found gives 404, invalid input 400 with the error's text, anything else 500 |
| SurveyHttp.Get | survey-service/handler/http.go:30-51 | a load error as mapped by the get table; an encoding failure 500; otherwise the encoded survey with 200 |
| SurveyHttp.GetOkIff | survey-service/handler/http.go:30-64 | a get answers 200 exactly when the survey was loaded and encoded |
| SurveyHttp.Collection | survey-service/handler/http.go:67-112 | a load or encoding failure gives 500; otherwise the encoded list with 200 |
| SurveyHttp.Post | survey-service/handler/http.go:115-161 | an unreadable or undecodable body gives 500 without any service call; an insert error is mapped by the post table; otherwise the survey is loaded back under its new id, and an encoding or load failure gives 500, success 201 |
| SurveyHttp.PostStatuses | survey-service/handler/http.go:115-161 | a post answers 201, 422 or 500, and 201 exactly when every step succeeded |
| SurveyHttp.Put | survey-service/handler/http.go:164-211 | as a post, but updating under the path's id, mapping errors by the update table and answering 200 |
| SurveyHttp.Act | survey-service/handler/http.go:214-277 | delete, activate and deactivate: not found gives 404, any other error 500, success the action's fixed message with 200 |
| SurveyHttp.ParseInt64 | survey-service/handler/http.go:292 | parsing succeeds exactly when the text is one optional `+` or `-` followed by one or more digits whose signed value is in 64-bit range, and then yields that signed value |
| SurveyHttp.ParseRejects | survey-service/handler/http.go:292 | a lone sign, 2^63 and -(2^63 + 1) do not parse |
| SurveyHttp.DigitsValueAppend | survey-service/handler/http.go:292 | the value of two digit strings side by side is the first's value shifted by the second's length plus the second's value |
| SurveyHttp.ParsePlusAndZeros | survey-service/handler/http.go:292 | a leading `+` and leading zeros do not change the parsed value |
| SurveyHttp.DigitsValueOfDecimal | survey-service/handler/http.go:292 | a number's decimal digits have that number as value |
| SurveyHttp.ParseSigned | survey-service/handler/http.go:292 | every 64-bit integer's decimal spelling parses back to it |
| SurveyHttp.SetExpiration | survey-service/handler/http.go:280-317 | a missing or unparsable timestamp gives 400 with its message before any service call; otherwise one call with the parsed time, its error mapped by the expiration table, success 200 |
| SurveyHttp.ExpirationReachesService | survey-service/handler/http.go:285-300 | a well-formed timestamp always reaches the service with the value it spells |
| Middleware.Lookup | survey-service/middleware/middleware.go:37-45 | the serializer registered for the content type, else the JSON one, and nothing only when neither is registered |
| Middleware.Registry.Init | survey-service/middleware/middleware.go:24-27 | the registry holds the JSON serializer and nothing else |
| Middleware.Registry.Register | vote-service/middleware/middleware.go:30-34 | sets the entry for the content type, replacing an earlier one, after which the lookup finds it |
| Middleware.Registry.Get | survey-service/middleware/middleware.go:37-45 | once JSON is registered, every content type gets a serializer |
| Middleware.RegisteredIsFound | survey-service/middleware/middleware.go:30-42 | a registered serializer is found under its content type |
| Middleware.RegisterChangesOnlyThatKey | survey-service/middleware/middleware.go:33 | registering one content type changes the lookup of no other, except that re-registering JSON changes the fallback |
| Middleware.AlwaysFound | survey-service/middleware/middleware.go:24-27 | after `init` and any registrations, every content type gets a serializer |

## Left out

- Concurrency: the mutexes of the in-memory repositories and the registry, the goroutines of the worker and the forever-blocking `main` are not modelled; every operation runs to completion alone. In particular the read-then-write of `UpdateResults` is modelled as atomic, so two workers racing on a new counter are not covered.
- Connecting to PostgreSQL, RabbitMQ and the survey RPC, declaring the queue, and the SQL text itself are not modelled; their answers are inputs.
- Logging (zerolog) is not modelled; it has no effect on results.
- The JSON serializers are not modelled; a serializer is a set of functions that may fail.
- Go pointers: the repositories store pointers, so a caller mutating a survey after `Insert` would change the stored one. Surveys and votes are values here.
- WorkerMain.Run: the processing times are given per vote, because `time.Now` is read inside each update.
- `int64` overflow of timestamps and counters is not modelled: `votes + 1` and Unix times are unbounded integers.
- The average-rating and average-scale fields of the results are floating point and are never set by the reader; they are left out of `QuestionResults`.
- ResultsReader.GetResults: the final `rows.Err()` is taken to be nil once `processRows` has returned its own iteration error, so no second iteration error is modelled.
- The service operations `Update`, `DeleteSurvey`, `ActivateSurvey`, `DeactivateSurvey`, `SetExpirationDate` and `LoadActive` and the error `ErrQuestionConditionalLogic` that the HTTP handlers use are not part of this model; the handlers take their answers as inputs.
- The MongoDB survey repository is not part of this model beyond its failures, which enter as the load and write faults above; in particular its listing of at most the 25 newest surveys is not modelled, the in-memory listing returns all of them.
- Apart from a survey's question list, a nil and an empty slice are the same empty sequence here.
- Go map iteration order: `Load` collects the surveys in an arbitrary order before sorting; the model picks the keys by an unspecified choice, and the order among surveys created at the same second is likewise unspecified.
- The request parsing of chi URL parameters and query strings is not modelled; the id and the `timestamp` value are inputs. `AddSerializer` only puts the serializer that `getSerializer` returns into the request context; the handlers take that serializer as input.
- A registry missing the JSON serializer answers `None`; in Go the handler's type assertion would then panic. The `init` function always registers JSON, so this does not arise.
