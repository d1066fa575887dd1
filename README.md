# ProjectAssistant: the company-storage search agent, in Dafny

This project models the agent loop of ProjectAssistant's
`SearchInCompanyStorageCommandHandler` and the small value types it returns.
Each turn, the handler asks a chat model for an answer and appends it to the
caller's transcript and to the messages it sends back to the model. It then
classifies the answer by substring tests on closing tags:

- `</result>` ends the run with the answer.
- `</think>` is a reasoning turn.
- `</query>` strips the query tags, runs the rest as SQL and appends the
  joined rows.
- An answer with none of these ends the run with a protocol error.

A counter stops the loop when it equals the command's `IterationLimit`.

The chat model is an input: the sequence of its replies, one per call, each
reply being the texts of its content parts. The database is an input too: a
function from query text to the rows it returns.

Modules, one per source file or concern:

- `Strings`: the ordinal .NET string operations the loop relies on.
  - `Contains` scans left to right.
  - `RemoveAll` is `Replace(pat, "")`: a left-to-right scan that resumes
    after each deleted copy.
  - `Join` is `string.Join`.
  - `Split` on one character is `Join`'s reference inverse.
- `Models`: `Result<TValue, TError>` (Features/Models/Result.cs).
- `Exceptions`: `BaseException` and `DomainException` as immutable values.
  The three pass-through exception kinds appear as kinds only.
- `Utilities`: `ExceptionUtility`.
- `SearchInCompanyStorage`: the handler, modelled in three layers.
  - **The lists.** `List<T>` is a class whose `Add` appends in place. The
    command record holds the caller's list by reference.
  - **The counter.** `Int32` is C#'s `int`, and `Increment` is its
    wrapping `counter++`.
  - **The loop.** `Handle` sets up both lists and calls `Converse`, the
    `while (!breakLoop)` loop with its early `break` and `return`.
    `RecordAnswer` is one pass of the loop body after the answer is joined.
  - **The specification.** `Converse` is proved against the pure state
    machine `Step`/`Run`. The properties of a run are proved as lemmas about
    `Run`.

## Model

All handler rows cite
Features/AgentFeatures/SearchInCompanyStorage/SearchInCompanyStorageCommandHandler.cs.

| member | source | states |
|---|---|---|
| Strings.Contains | Features/AgentFeatures/SearchInCompanyStorage/SearchInCompanyStorageCommandHandler.cs:82-92 | ordinal `String.Contains`: a left-to-right scan for a copy of the tag; its meaning is stated by ContainsIffOccurs, ContainsInfix and ContainsNeedsRoom |
| Strings.ContainsIffOccurs | Features/AgentFeatures/SearchInCompanyStorage/SearchInCompanyStorageCommandHandler.cs:82-92 | the left-to-right `Contains` test holds exactly when some position of the answer starts a copy of the tag |
| Strings.ContainsInfix | Features/AgentFeatures/SearchInCompanyStorage/SearchInCompanyStorageCommandHandler.cs:82-92 | a tag placed anywhere in a text, with anything before and after it, is found |
| Strings.ContainsNeedsRoom | Features/AgentFeatures/SearchInCompanyStorage/SearchInCompanyStorageCommandHandler.cs:82-92 | a text that holds a tag is at least as long as the tag |
| Strings.RemoveAll | Features/AgentFeatures/SearchInCompanyStorage/SearchInCompanyStorageCommandHandler.cs:115-117 | `Replace(pat, "")` never lengthens the text, and it leaves a text without the pattern unchanged |
| Strings.RemoveAllAfterNoHead | Features/AgentFeatures/SearchInCompanyStorage/SearchInCompanyStorageCommandHandler.cs:115-117 | text without the pattern's first character is kept as it is, in front of whatever the removal makes of the rest |
| Strings.RemoveAllWithoutHead | Features/AgentFeatures/SearchInCompanyStorage/SearchInCompanyStorageCommandHandler.cs:115-117 | text without the pattern's first character is left as it is |
| Strings.RemoveAllAfterCopy | Features/AgentFeatures/SearchInCompanyStorage/SearchInCompanyStorageCommandHandler.cs:115-117 | a copy of the pattern at the front is deleted and the scan resumes right after it |
| Strings.RemoveAllAppend | Features/AgentFeatures/SearchInCompanyStorage/SearchInCompanyStorageCommandHandler.cs:115-117 | removing from a concatenation removes from each side, provided no copy of the pattern straddles the join |
| Strings.RemoveAllSplitAtHead | Features/AgentFeatures/SearchInCompanyStorage/SearchInCompanyStorageCommandHandler.cs:115-117 | for a pattern whose first character occurs only once in it, removal splits at any point where that character starts the rest |
| Strings.RemoveAllOfJoin | Features/AgentFeatures/SearchInCompanyStorage/SearchInCompanyStorageCommandHandler.cs:115-117 | removing a pattern whose first character occurs once in it from parts joined with that pattern deletes exactly the separators, however many, and keeps the parts in order, when no part holds the pattern |
| Strings.Join | Features/AgentFeatures/SearchInCompanyStorage/SearchInCompanyStorageCommandHandler.cs:124 | `string.Join(sep, parts)` (also line 78): the parts in order with one separator between neighbours and none for an empty list; Split is its inverse and SplitJoin the round trip |
| Strings.Split | Features/AgentFeatures/SearchInCompanyStorage/SearchInCompanyStorageCommandHandler.cs:124 | the reference inverse of `string.Join` on one character: it yields at least one part, no part holds the separator, and joining the parts gives the text back |
| Strings.SplitJoin | Features/AgentFeatures/SearchInCompanyStorage/SearchInCompanyStorageCommandHandler.cs:78 | parts without the separator come back from `Split` after `Join`, in order |
| Models.Result.IsSuccess | Features/Models/Result.cs:22 | `IsSuccess` is `!_isError`: true for a Result built from a value and false for one built from an error; FromValue, FromError and ResultIsOneOfTwo state this |
| Models.Result.Value | Features/Models/Result.cs:10-19 | `Value` may be read only on a success, and then it is the stored value |
| Models.Result.Error | Features/Models/Result.cs:20-35 | `Error` is null on a success and the stored error on a failure built from a non-null error |
| Models.FromValue | Features/Models/Result.cs:42-43 | a Result built from a value is a success, its `Value` is that value and its `Error` is null |
| Models.FromError | Features/Models/Result.cs:49-50 | a Result built from an error is not a success and its `Error` holds that error |
| Models.ResultIsOneOfTwo | Features/Models/Result.cs:5-36 | every Result is exactly one of the two conversions of its own payload, never both |
| Exceptions.NewBaseException | Features/Exceptions/BaseException.cs:9-16 | the three-argument constructor stores Title, ErrorCode and Message as passed, has no inner exception, and leaves StatusCode at 500 |
| Exceptions.NewBaseExceptionWithStatus | Features/Exceptions/BaseException.cs:18-24 | the four-argument constructor stores Title, ErrorCode, Message and the given StatusCode, with no inner exception |
| Exceptions.ConstructorsAgreeAtDefaultStatus | Features/Exceptions/BaseException.cs:9-24 | the three-argument constructor is the four-argument one at status 500 |
| Exceptions.NewDomainException | Features/Exceptions/DomainException.cs:7-10 | the Title is "Domain exception", the ErrorCode is the first argument, the Message is the second, and the StatusCode is 500 |
| Exceptions.DomainExceptionIgnoresThirdArgument | Features/Exceptions/DomainException.cs:7-10 | any two values of the third argument give the same exception |
| Utilities.ToUnhandledDomainException | Features/Utilities/ExceptionUtility.cs:7-11 | the replacement is a DomainException with ErrorCode "Unhandled exception", Message "500" and StatusCode 500 |
| Utilities.UnhandledForgetsOriginal | Features/Utilities/ExceptionUtility.cs:7-11 | the replacement does not depend on the exception it replaces, so the original message is lost |
| Utilities.ResolveExceptionToReturn | Features/Utilities/ExceptionUtility.cs:13-19 | NotFound, DataValidation and BusinessValidation exceptions come back unchanged; every other exception, a DomainException too, is replaced; the output is always a pass-through kind or the unhandled DomainException |
| Utilities.ResolveIsIdempotent | Features/Utilities/ExceptionUtility.cs:7-19 | resolving a resolved exception gives the same exception again |
| SearchInCompanyStorage.List.constructor | Features/AgentFeatures/SearchInCompanyStorage/SearchInCompanyStorageCommandHandler.cs:57-61 | a new list holds exactly its initial elements |
| SearchInCompanyStorage.List.Add | Features/AgentFeatures/SearchInCompanyStorage/SearchInCompanyStorageCommandHandler.cs:79-80 | `Add` appends one element at the end and changes nothing else |
| SearchInCompanyStorage.Increment | Features/AgentFeatures/SearchInCompanyStorage/SearchInCompanyStorageCommandHandler.cs:106 | `counter++` on a C# `int`: below the largest `int` it adds one (and the largest wraps round to the smallest) |
| SearchInCompanyStorage.IncrementCounts | Features/AgentFeatures/SearchInCompanyStorage/SearchInCompanyStorageCommandHandler.cs:63-106 | one wrapping increment takes `Wrap32(n)` to `Wrap32(n + 1)`; with this step, the loop invariant `counter == Wrap32(calls)` of Converse carries the count from 0 |
| SearchInCompanyStorage.SmallCountsDoNotWrap | Features/AgentFeatures/SearchInCompanyStorage/SearchInCompanyStorageCommandHandler.cs:63-106 | below 2^31 increments the counter equals the number of increments |
| SearchInCompanyStorage.Classify | Features/AgentFeatures/SearchInCompanyStorage/SearchInCompanyStorageCommandHandler.cs:82-105 | the kind of an answer by the tag tests in the source's order: `</result>`, then `</think>`, then `</query>`, else malformed; ResultTagWins, ThinkTagBeforeQueryTag and ThinkTagInEitherOrder state the precedence |
| SearchInCompanyStorage.Answer | Features/AgentFeatures/SearchInCompanyStorage/SearchInCompanyStorageCommandHandler.cs:72-77 | the answer is the texts of the reply's content parts joined with one space; AnswerJoinsContentParts states the round trip |
| SearchInCompanyStorage.StripQueryTags | Features/AgentFeatures/SearchInCompanyStorage/SearchInCompanyStorageCommandHandler.cs:115-117 | every `</query>` deleted, then every `<query>`; StripQueryTagsOfWrappedQuery and StrippedQueryCanHoldTag state what survives |
| SearchInCompanyStorage.ExecuteRequest | Features/AgentFeatures/SearchInCompanyStorage/SearchInCompanyStorageCommandHandler.cs:113-125 | the rows the database returns for the stripped answer, joined with one space; QueryResultJoinsRows states the round trip |
| SearchInCompanyStorage.ProtocolError | Features/AgentFeatures/SearchInCompanyStorage/SearchInCompanyStorageCommandHandler.cs:99-105 | an answer without closing tags yields the unhandled DomainException with Message "500"; the "Assistant error" text is not kept |
| SearchInCompanyStorage.Step | Features/AgentFeatures/SearchInCompanyStorage/SearchInCompanyStorageCommandHandler.cs:67-108 | each pass of the loop makes exactly one chat-model call |
| SearchInCompanyStorage.TurnEntries | Features/AgentFeatures/SearchInCompanyStorage/SearchInCompanyStorageCommandHandler.cs:79-97 | what one pass appends: the answer, then on a query turn (lines 96-97) the query result; RecordAnswer, StepAppendsTurn and EntriesSnoc state that a pass appends exactly this |
| SearchInCompanyStorage.StepAppendsTurn | Features/AgentFeatures/SearchInCompanyStorage/SearchInCompanyStorageCommandHandler.cs:79-98 | one pass appends the answer, and after a query turn the query result, whatever kind the answer is |
| SearchInCompanyStorage.Run | Features/AgentFeatures/SearchInCompanyStorage/SearchInCompanyStorageCommandHandler.cs:67-108 | the loop run pass by pass until it returns or the replies run out; Converse is proved to return its outcome, and RunAppendOnly, RunEndsAfterTurns, RunEnds, LimitEndsRun and RunWithinLimit state its properties |
| SearchInCompanyStorage.EntriesSnoc | Features/AgentFeatures/SearchInCompanyStorage/SearchInCompanyStorageCommandHandler.cs:79-98 | the entries of one more call are those so far followed by that call's answer and, on a query turn, its result |
| SearchInCompanyStorage.SentToCall | Features/AgentFeatures/SearchInCompanyStorage/SearchInCompanyStorageCommandHandler.cs:68-70 | what a `CompleteChatAsync` call is sent: the prompt, then as user messages the entries of the calls before it; Converse and Handle state that every call is sent exactly this |
| SearchInCompanyStorage.UserMessages | Features/AgentFeatures/SearchInCompanyStorage/SearchInCompanyStorageCommandHandler.cs:80 | every text added to the chat messages becomes one user message with that text, in the same order |
| SearchInCompanyStorage.UserMessagesAppend | Features/AgentFeatures/SearchInCompanyStorage/SearchInCompanyStorageCommandHandler.cs:80-97 | converting two batches of texts one after the other is the same as converting them together |
| SearchInCompanyStorage.RecordAnswer | Features/AgentFeatures/SearchInCompanyStorage/SearchInCompanyStorageCommandHandler.cs:79-98 | the answer goes to both lists; the kind follows the tag tests in the source's order; on a query turn, and only then, the joined rows follow the answer in both lists |
| SearchInCompanyStorage.Handle | Features/AgentFeatures/SearchInCompanyStorage/SearchInCompanyStorageCommandHandler.cs:25-111 | the result is the outcome of `Run`; the caller's transcript keeps its old entries and receives the request, then exactly the entries of the run; `chatMessages` ends as the system prompt, the request and the same entries as user messages, and call number `i` is sent the system prompt, the request and the entries of the calls before it |
| SearchInCompanyStorage.Converse | Features/AgentFeatures/SearchInCompanyStorage/SearchInCompanyStorageCommandHandler.cs:62-110 | the loop, with its `break`, its early `return` and its wrapping `int` counter, returns `Run`'s outcome; the transcript and the chat messages receive exactly `Run`'s entries; each call is sent the chat messages as they stand before its answer is recorded |
| SearchInCompanyStorage.RunAppendOnly | Features/AgentFeatures/SearchInCompanyStorage/SearchInCompanyStorageCommandHandler.cs:79-96 | the transcript is append-only and grows by exactly the entries of the calls made, in call order: each answer, and after a query turn its query result; no more calls than there are replies |
| SearchInCompanyStorage.EntriesPerCall | Features/AgentFeatures/SearchInCompanyStorage/SearchInCompanyStorageCommandHandler.cs:79-80 | every call appends at least its answer |
| SearchInCompanyStorage.RunEndsAfterTurns | Features/AgentFeatures/SearchInCompanyStorage/SearchInCompanyStorageCommandHandler.cs:82-107 | every answer before the last one of a finished run was a reasoning or query turn, and after each of them the counter was not equal to the limit |
| SearchInCompanyStorage.RunEnds | Features/AgentFeatures/SearchInCompanyStorage/SearchInCompanyStorageCommandHandler.cs:82-110 | the last answer decides the result: with `</result>` the whole answer, with no closing tag the protocol error, and otherwise the counter equals the limit and the result is "" |
| SearchInCompanyStorage.FinalAnswerEndsRun | Features/AgentFeatures/SearchInCompanyStorage/SearchInCompanyStorageCommandHandler.cs:82-87 | an answer with `</result>` ends the run at once; it is the last entry appended, and the result is the answer unstripped, whatever other tags it holds |
| SearchInCompanyStorage.MalformedAnswerEndsRun | Features/AgentFeatures/SearchInCompanyStorage/SearchInCompanyStorageCommandHandler.cs:79-105 | an answer with none of the closing tags ends the run with the protocol error; the answer has already been appended |
| SearchInCompanyStorage.LimitEndsRun | Features/AgentFeatures/SearchInCompanyStorage/SearchInCompanyStorageCommandHandler.cs:106-110 | with a positive limit and only reasoning or query turns, the loop makes exactly `IterationLimit` calls and returns "" |
| SearchInCompanyStorage.RunWithinLimit | Features/AgentFeatures/SearchInCompanyStorage/SearchInCompanyStorageCommandHandler.cs:106-107 | below a positive limit, no run makes more than `IterationLimit` calls |
| SearchInCompanyStorage.NonPositiveLimitWaitsForWrap | Features/AgentFeatures/SearchInCompanyStorage/SearchInCompanyStorageCommandHandler.cs:106-107 | with `IterationLimit <= 0` the test `counter == IterationLimit` cannot fire before the counter wraps round: a run that returns "" has made at least 2^31 calls, a number equal to the limit modulo 2^32 |
| SearchInCompanyStorage.ResultTagWins | Features/AgentFeatures/SearchInCompanyStorage/SearchInCompanyStorageCommandHandler.cs:82-87 | `</result>` anywhere in an answer makes it the final answer |
| SearchInCompanyStorage.ThinkTagBeforeQueryTag | Features/AgentFeatures/SearchInCompanyStorage/SearchInCompanyStorageCommandHandler.cs:88-98 | an answer holding `</think>` and `</query>` but no `</result>`, in any order and anywhere, is a reasoning turn that runs no query and appends only itself |
| SearchInCompanyStorage.ThinkTagInEitherOrder | Features/AgentFeatures/SearchInCompanyStorage/SearchInCompanyStorageCommandHandler.cs:88-98 | `</think>` before `</query>` and `</query>` before `</think>` both make a reasoning turn when `</result>` is absent |
| SearchInCompanyStorage.KeepOtherTag | Features/AgentFeatures/SearchInCompanyStorage/SearchInCompanyStorageCommandHandler.cs:116 | removing `</query>` leaves `<query>`, which shares only its first character, in place, and carries on after it |
| SearchInCompanyStorage.ClosingTagGoes | Features/AgentFeatures/SearchInCompanyStorage/SearchInCompanyStorageCommandHandler.cs:116 | removing `</query>` from a wrapped query whose text and tail hold no `</query>` deletes just the closing tag |
| SearchInCompanyStorage.FirstPass | Features/AgentFeatures/SearchInCompanyStorage/SearchInCompanyStorageCommandHandler.cs:116 | the first pass deletes the closing tag of a wrapped query and nothing else, when no other `</query>` is present |
| SearchInCompanyStorage.SecondPass | Features/AgentFeatures/SearchInCompanyStorage/SearchInCompanyStorageCommandHandler.cs:117 | the second pass deletes the opening tag and nothing else, when no other `<query>` is present |
| SearchInCompanyStorage.StripQueryTagsOfWrappedQuery | Features/AgentFeatures/SearchInCompanyStorage/SearchInCompanyStorageCommandHandler.cs:115-117 | the query sent to the database is the whole answer with both tags deleted: the text before, inside and after them, `<`, `<=` and `<>` included, survives untrimmed as long as it holds no further tag |
| SearchInCompanyStorage.StripQueryTagsOfPieces | Features/AgentFeatures/SearchInCompanyStorage/SearchInCompanyStorageCommandHandler.cs:115-117 | for any answer: cut at its `</query>` tags and the rest cut at its `<query>` tags, the database receives the remaining pieces one after the other, so only the tags are deleted, however many blocks or unpaired tags there are |
| SearchInCompanyStorage.StripLoneClosingTag | Features/AgentFeatures/SearchInCompanyStorage/SearchInCompanyStorageCommandHandler.cs:115-117 | an answer that ends a query with `</query>` and has no `<query>` passes the `</query>` test, and the text before the tag is sent unchanged |
| SearchInCompanyStorage.StrippedQueryCanHoldTag | Features/AgentFeatures/SearchInCompanyStorage/SearchInCompanyStorageCommandHandler.cs:115-117 | each pass deletes only the copies in its own input: `<<query>/query>` is sent to the database as `</query>` |
| SearchInCompanyStorage.QueryResultJoinsRows | Features/AgentFeatures/SearchInCompanyStorage/SearchInCompanyStorageCommandHandler.cs:122-124 | the query result is the rows joined with one space: when there is at least one row and no row holds a space, splitting it at spaces gives the rows back (no rows give "", which splits into one empty part) |
| SearchInCompanyStorage.AnswerJoinsContentParts | Features/AgentFeatures/SearchInCompanyStorage/SearchInCompanyStorageCommandHandler.cs:72-77 | the answer is the content parts joined with one space: when there is at least one part and none holds a space, splitting it at spaces gives the parts back (no parts give "", which splits into one empty part) |

Behaviours of the code that the model keeps:

- The query text is the whole answer with every `</query>` and then every
  `<query>` deleted. It is not trimmed, and it is not cut down to the text
  between the tags.
- There is no retry around the query. A failing query is not caught.
- There is no progress callback and no delay between turns.
- `</think>` is checked before `</query>`.
- The final answer is the whole unstripped answer, not the text inside
  `<result>`.
- `counter` is a C# `int` that `counter++` wraps round in the default
  unchecked context. With `IterationLimit <= 0`, the counter can equal the
  limit only after at least 2^31 passes.

## Left out

- The chat-model call (`CompleteChatAsync`): this is network I/O. The replies are an input sequence; a call that fails or throws is not modelled.
- The SQL execution through `SqlConnection` and Dapper: this is database I/O. Rows come from an uninterpreted function, and exceptions the query throws are not modelled. The query turns assume a configured connection: as written, the constructor sets `_connectionString` to "" (line 22), with which `OpenAsync` throws, so every query turn of the code as it stands ends in an exception.
- `async`/`await` and the `CancellationToken`: the loop is modelled as sequential.
- The `Log.Information` calls: these are side-channel logging.
- The wording of the system prompt: `SystemPrompt` is an unspecified constant, and nothing in the code depends on its content.
- NotFoundException, DataValidationException and BusinessValidationException: these classes are not part of this model. Only their kind matters to `ResolveExceptionToReturn`.
- Null payloads and the default struct value of `Result<TValue, TError>`: the private constructor taking an error accepts null, which gives a failure whose `Error` is null, and `default(Result<,>)` is a success with a null `Value`. The model's Result always holds a value or an error; the handler builds neither null case.
- Object identity: exceptions and Results are values, so "returned as the very same object" is stated as equality.
- Handle: requires that the given replies are enough for the run to end (`Finishes`). A run that does not end within the given replies is not modelled; with `IterationLimit <= 0` and only reasoning or query turns it takes 2^32 plus the limit calls.
- Converse: has the same requirement as Handle, for the same reason.
- NonPositiveLimitWaitsForWrap: states a lower bound of 2^31 calls and the counter's value modulo 2^32, not that the run ends after exactly 2^32 plus the limit calls.
- `Program.cs` and `IoC/RegisterLlmClients.cs` are not part of this model: they are host wiring and dependency-injection registration.
