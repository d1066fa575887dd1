/** SearchInCompanyStorageCommandHandler: the agent loop that lets a chat
    model reason, run queries against the company database and answer.

    The chat model is given as the sequence of its replies, one per call,
    each reply being the texts of its content parts. The database is given as
    a function from query text to the rows it returns. */
module SearchInCompanyStorage {
  import opened Strings
  import opened Models
  import opened Exceptions
  import opened Utilities

  const ResultCloseTag: string := "</result>"
  const ThinkCloseTag: string := "</think>"
  const QueryCloseTag: string := "</query>"
  const QueryOpenTag: string := "<query>"

  /** The instructions sent first on every run; their wording is not modelled. */
  const SystemPrompt: string

  /** A .NET `List<T>` that is appended to in place. */
  class List<T> {
    var items: seq<T>

    constructor (initial: seq<T>)
      ensures items == initial
    {
      items := initial;
    }

    method Add(x: T)
      modifies this
      ensures items == old(items) + [x]
    {
      items := items + [x];
    }
  }

  /** The messages sent to the chat model. A `string` added to a list of chat
      messages is converted by the OpenAI client to a user message. */
  datatype ChatMessage = SystemChatMessage(text: string) | UserChatMessage(text: string)

  /** The command record; `chatMessages` is the caller's list, shared with the handler. */
  datatype SearchInCompanyStorageCommand =
    SearchInCompanyStorageCommand(request: string, iterationLimit: Int32, chatMessages: List<string>)

  /** A C# `int`. */
  type Int32 = x: int | -0x8000_0000 <= x < 0x8000_0000

  /** The value of an `int` counter that started at 0 after `n` increments:
      `n` taken modulo 2^32 into the signed range. */
  function Wrap32(n: int): Int32 {
    (n + 0x8000_0000) % 0x1_0000_0000 - 0x8000_0000
  }

  /** `counter++` on an `int` in C#'s default unchecked context: the largest
      value wraps round to the smallest. */
  function Increment(counter: Int32): (next: Int32)
    ensures next == Wrap32(counter + 1)
  {
    if counter == 0x7FFF_FFFF then -0x8000_0000 else counter + 1
  }

  /** Counting the increments: after `n + 1` of them the counter holds
      `Wrap32(n + 1)`. */
  lemma IncrementCounts(n: nat)
    ensures Increment(Wrap32(n)) == Wrap32(n + 1)
  {
  }

  /** Below 2^31 the counter equals the number of increments. */
  lemma SmallCountsDoNotWrap(n: int)
    requires 0 <= n < 0x8000_0000
    ensures Wrap32(n) == n
  {
  }

  /** How the loop treats an answer. */
  datatype AnswerKind = FinalAnswer | Reasoning | QueryCall | Malformed

  /** The substring tests of the loop, in the order it makes them. */
  function Classify(answer: string): AnswerKind {
    if Contains(answer, ResultCloseTag) then FinalAnswer
    else if Contains(answer, ThinkCloseTag) then Reasoning
    else if Contains(answer, QueryCloseTag) then QueryCall
    else Malformed
  }

  /** The answer text: the content parts of a reply joined with one space. */
  function Answer(reply: seq<string>): string {
    Join(" ", reply)
  }

  /** The query sent to the database: every `</query>` removed, then every `<query>`. */
  function StripQueryTags(answer: string): string {
    RemoveAll(RemoveAll(answer, QueryCloseTag), QueryOpenTag)
  }

  /** `ExecuteRequestAsync(query)`: the tags are stripped from the whole
      answer, the result sent to the database as it is, and the returned rows
      joined with one space. */
  function ExecuteRequest(query: string, rows: string -> seq<string>): string {
    Join(" ", rows(StripQueryTags(query)))
  }

  /** The error returned for an answer with none of the closing tags. */
  function ProtocolError(): (e: Exception)
    ensures e.kind == Domain("Domain exception", "Unhandled exception", 500)
    ensures e.message == "500" && e.innerException == None
  {
    ResolveExceptionToReturn(NewDomainException("Assistant error", "500", "Assistant error"))
  }

  /** What one answer adds to the transcript: the answer, and after a query
      turn the query result. */
  function TurnEntries(answer: string, rows: string -> seq<string>): seq<string> {
    if Classify(answer) == QueryCall then [answer, ExecuteRequest(answer, rows)] else [answer]
  }

  /** Where the loop stands: still going, or returned with `outcome`. */
  datatype Phase = Running | Finished(outcome: Result<string, Exception>)

  /** The loop's state after some passes: the chat-model calls made so far
      (the counter holds `Wrap32(calls)` while the loop runs), the entries
      appended to the transcript after the request, and the phase. */
  datatype LoopState = LoopState(calls: nat, appended: seq<string>, phase: Phase)

  /** One pass of the loop body, on the reply to call number `st.calls`. */
  function Step(replies: seq<seq<string>>, rows: string -> seq<string>, limit: Int32, st: LoopState): (next: LoopState)
    requires st.phase.Running? && st.calls < |replies|
    ensures next.calls == st.calls + 1
  {
    var answer := Answer(replies[st.calls]);
    match Classify(answer)
    case FinalAnswer => LoopState(st.calls + 1, st.appended + [answer], Finished(FromValue(answer)))
    case Malformed => LoopState(st.calls + 1, st.appended + [answer], Finished(FromError(ProtocolError())))
    case _ =>
      LoopState(st.calls + 1, st.appended + TurnEntries(answer, rows),
        if Wrap32(st.calls + 1) == limit then Finished(FromValue("")) else Running)
  }

  /** The loop run on from state `st` until it returns or the replies run out. */
  function Run(replies: seq<seq<string>>, rows: string -> seq<string>, limit: Int32, st: LoopState): LoopState
    decreases |replies| - st.calls
  {
    if st.phase.Running? && st.calls < |replies| then Run(replies, rows, limit, Step(replies, rows, limit, st)) else st
  }

  const Start: LoopState := LoopState(0, [], Running)

  /** The replies suffice for the loop to return. */
  predicate Finishes(replies: seq<seq<string>>, rows: string -> seq<string>, limit: Int32) {
    Run(replies, rows, limit, Start).phase.Finished?
  }

  /** The entries that calls `lo` up to `hi` add, in call order. */
  function Entries(replies: seq<seq<string>>, rows: string -> seq<string>, lo: nat, hi: nat): seq<string>
    requires lo <= hi <= |replies|
    decreases hi - lo
  {
    if lo == hi then [] else TurnEntries(Answer(replies[lo]), rows) + Entries(replies, rows, lo + 1, hi)
  }

  /** The messages sent to the chat model after the system prompt. */
  function UserMessages(texts: seq<string>): (m: seq<ChatMessage>)
    ensures |m| == |texts|
    ensures forall k :: 0 <= k < |texts| ==> m[k] == UserChatMessage(texts[k])
  {
    seq(|texts|, k requires 0 <= k < |texts| => UserChatMessage(texts[k]))
  }

  lemma UserMessagesAppend(texts: seq<string>, more: seq<string>)
    ensures UserMessages(texts + more) == UserMessages(texts) + UserMessages(more)
  {
  }

  /** One pass of the `while` body of `Handle` after the answer is joined:
      the answer goes to both lists, then the closing tags are checked in the
      source's order; a query turn runs the query and sends the rows to both
      lists. The caller acts on the returned kind (break, return, or count). */
  method RecordAnswer(transcript: List<string>, chatMessages: List<ChatMessage>, answer: string, rows: string -> seq<string>)
    returns (kind: AnswerKind)
    modifies transcript, chatMessages
    ensures kind == Classify(answer)
    ensures transcript.items == old(transcript.items) + TurnEntries(answer, rows)
    ensures chatMessages.items == old(chatMessages.items) + UserMessages(TurnEntries(answer, rows))
  {
    transcript.Add(answer);
    chatMessages.Add(UserChatMessage(answer));
    if Contains(answer, ResultCloseTag) {
      kind := FinalAnswer;
    } else if Contains(answer, ThinkCloseTag) {
      kind := Reasoning;
    } else if Contains(answer, QueryCloseTag) {
      kind := QueryCall;
      var queryResult := ExecuteRequest(answer, rows);
      transcript.Add(queryResult);
      chatMessages.Add(UserChatMessage(queryResult));
    } else {
      kind := Malformed;
    }
  }

  /** `Handle`: adds the request to the caller's transcript, starts the
      messages for the chat model with the system prompt and the request,
      and runs the loop. The caller's transcript receives the request and
      then exactly the entries the loop appends. The chat messages end as
      the system prompt, the request and the same entries as user messages;
      `seen[i]` is what call number `i` is sent: the system prompt, the
      request and, as user messages, the entries of the calls before it. */
  method Handle(command: SearchInCompanyStorageCommand, replies: seq<seq<string>>, rows: string -> seq<string>)
    returns (r: Result<string, Exception>, ghost conversation: seq<ChatMessage>, ghost seen: seq<seq<ChatMessage>>)
    requires Finishes(replies, rows, command.iterationLimit)
    modifies command.chatMessages
    ensures var final := Run(replies, rows, command.iterationLimit, Start);
      var prompt := [SystemChatMessage(SystemPrompt), UserChatMessage(command.request)];
      && r == final.phase.outcome
      && command.chatMessages.items == old(command.chatMessages.items) + [command.request] + final.appended
      && conversation == prompt + UserMessages(final.appended)
      && |seen| == final.calls <= |replies|
      && forall i :: 0 <= i < final.calls ==> seen[i] == prompt + UserMessages(Entries(replies, rows, 0, i))
  {
    command.chatMessages.Add(command.request);
    var chatMessages := new List<ChatMessage>([SystemChatMessage(SystemPrompt), UserChatMessage(command.request)]);
    r, seen := Converse(command.chatMessages, chatMessages, command.iterationLimit, replies, rows);
    conversation := chatMessages.items;
  }

  /** The `while (!breakLoop)` loop of `Handle` and the returns after it.
      Each pass asks for the next reply and records it; a final answer
      breaks out with the answer as result, a malformed one returns the
      protocol error, and otherwise the counter goes up and is compared with
      the limit. Both lists receive exactly the entries `Run` appends, and
      each call is sent the chat messages as they stand before its own
      answer is recorded (`seen`). `calls` is the chat model's position in
      its replies; the source has no such variable. */
  method Converse(transcript: List<string>, chatMessages: List<ChatMessage>, limit: Int32,
                  replies: seq<seq<string>>, rows: string -> seq<string>)
    returns (r: Result<string, Exception>, ghost seen: seq<seq<ChatMessage>>)
    requires Finishes(replies, rows, limit)
    modifies transcript, chatMessages
    ensures var final := Run(replies, rows, limit, Start);
      && r == final.phase.outcome
      && transcript.items == old(transcript.items) + final.appended
      && chatMessages.items == old(chatMessages.items) + UserMessages(final.appended)
      && |seen| == final.calls <= |replies|
      && forall i :: 0 <= i < final.calls ==> seen[i] == old(chatMessages.items) + UserMessages(Entries(replies, rows, 0, i))
  {
    ghost var sent := transcript.items;
    ghost var prompt := chatMessages.items;
    ghost var final := Run(replies, rows, limit, Start);
    var breakLoop := false;
    var counter: Int32 := 0;
    var finalResult := "";
    var calls: nat := 0;
    ghost var st := Start;
    seen := [];

    while !breakLoop
      invariant finalResult == "" && st.calls == calls && counter == Wrap32(calls)
      invariant calls <= |replies| && st.appended == Entries(replies, rows, 0, calls)
      invariant |seen| == calls && CallsSaw(seen, prompt, replies, rows)
      invariant transcript.items == sent + st.appended
      invariant chatMessages.items == prompt + UserMessages(st.appended)
      invariant Run(replies, rows, limit, st) == final
      invariant st.phase == if breakLoop then Finished(FromValue("")) else Running
      decreases |replies| - calls
    {
      CallsSawSnoc(seen, prompt, replies, rows);
      seen := seen + [chatMessages.items];
      var answer := Answer(replies[calls]);
      calls := calls + 1;
      var kind := RecordAnswer(transcript, chatMessages, answer, rows);
      AppendTurn(sent, prompt, st.appended, TurnEntries(answer, rows));
      EntriesSnoc(replies, rows, 0, st.calls);
      StepAppendsTurn(replies, rows, limit, st);
      st := Step(replies, rows, limit, st);
      if kind == FinalAnswer {
        finalResult := answer;
        break;
      } else if kind == Malformed {
        r := FromError(ResolveExceptionToReturn(NewDomainException("Assistant error", "500", "Assistant error")));
        return;
      }
      IncrementCounts(calls - 1);
      counter := Increment(counter);
      breakLoop := counter == limit;
    }
    r := FromValue(finalResult);
  }

  /** Both lists after one more pass hold the entries so far followed by
      that pass's entries. */
  lemma AppendTurn(sent: seq<string>, prompt: seq<ChatMessage>, appended: seq<string>, entries: seq<string>)
    ensures sent + appended + entries == sent + (appended + entries)
    ensures prompt + UserMessages(appended) + UserMessages(entries) == prompt + UserMessages(appended + entries)
  {
    UserMessagesAppend(appended, entries);
  }

  /** The chat messages call number `i` is sent: the prompt, then the
      entries of the calls before it as user messages. */
  function SentToCall(prompt: seq<ChatMessage>, replies: seq<seq<string>>, rows: string -> seq<string>, i: nat): seq<ChatMessage>
    requires i <= |replies|
  {
    prompt + UserMessages(Entries(replies, rows, 0, i))
  }

  /** `seen` lists what each call so far was sent. */
  ghost predicate CallsSaw(seen: seq<seq<ChatMessage>>, prompt: seq<ChatMessage>, replies: seq<seq<string>>, rows: string -> seq<string>) {
    |seen| <= |replies| && forall i :: 0 <= i < |seen| ==> seen[i] == SentToCall(prompt, replies, rows, i)
  }

  lemma CallsSawSnoc(seen: seq<seq<ChatMessage>>, prompt: seq<ChatMessage>, replies: seq<seq<string>>, rows: string -> seq<string>)
    requires CallsSaw(seen, prompt, replies, rows) && |seen| < |replies|
    ensures CallsSaw(seen + [SentToCall(prompt, replies, rows, |seen|)], prompt, replies, rows)
  {
  }

  /** The entries of one more call are those so far followed by that call's. */
  lemma {:induction false} EntriesSnoc(replies: seq<seq<string>>, rows: string -> seq<string>, lo: nat, hi: nat)
    requires lo <= hi < |replies|
    ensures Entries(replies, rows, lo, hi + 1) == Entries(replies, rows, lo, hi) + TurnEntries(Answer(replies[hi]), rows)
    decreases hi - lo
  {
    if lo < hi {
      EntriesSnoc(replies, rows, lo + 1, hi);
      var head := TurnEntries(Answer(replies[lo]), rows);
      assert head + (Entries(replies, rows, lo + 1, hi) + TurnEntries(Answer(replies[hi]), rows))
          == head + Entries(replies, rows, lo + 1, hi) + TurnEntries(Answer(replies[hi]), rows);
    }
  }

  // Properties of the loop, stated on `Step` and `Run`.

  /** One pass appends that call's entries, whatever the answer. */
  lemma StepAppendsTurn(replies: seq<seq<string>>, rows: string -> seq<string>, limit: Int32, st: LoopState)
    requires st.phase.Running? && st.calls < |replies|
    ensures Step(replies, rows, limit, st).appended == st.appended + TurnEntries(Answer(replies[st.calls]), rows)
  {
  }

  /** The transcript only grows, and by exactly the entries of the calls the
      run makes: each answer in call order, a query turn's answer followed by
      its query result. */
  lemma {:induction false} RunAppendOnly(replies: seq<seq<string>>, rows: string -> seq<string>, limit: Int32, st: LoopState)
    requires st.calls <= |replies|
    ensures var end := Run(replies, rows, limit, st);
      && st.calls <= end.calls <= |replies|
      && end.appended == st.appended + Entries(replies, rows, st.calls, end.calls)
    decreases |replies| - st.calls
  {
    if st.phase.Running? && st.calls < |replies| {
      var next := Step(replies, rows, limit, st);
      var turn := TurnEntries(Answer(replies[st.calls]), rows);
      StepAppendsTurn(replies, rows, limit, st);
      RunAppendOnly(replies, rows, limit, next);
      var end := Run(replies, rows, limit, next);
      assert Run(replies, rows, limit, st) == end;
      assert Entries(replies, rows, st.calls, end.calls) == turn + Entries(replies, rows, st.calls + 1, end.calls);
      assert st.appended + turn + Entries(replies, rows, st.calls + 1, end.calls)
          == st.appended + (turn + Entries(replies, rows, st.calls + 1, end.calls));
    } else {
      assert st.appended + [] == st.appended;
    }
  }

  /** Every call adds at least its answer, so the entries of `hi - lo`
      calls number at least `hi - lo`. */
  lemma {:induction false} EntriesPerCall(replies: seq<seq<string>>, rows: string -> seq<string>, lo: nat, hi: nat)
    requires lo <= hi <= |replies|
    ensures |Entries(replies, rows, lo, hi)| >= hi - lo
    decreases hi - lo
  {
    if lo < hi {
      EntriesPerCall(replies, rows, lo + 1, hi);
    }
  }

  /** A pass that leaves the loop running: the answer was a reasoning or
      query turn, and the counter after it is not the limit. */
  predicate Continues(replies: seq<seq<string>>, limit: Int32, i: nat)
    requires i < |replies|
  {
    Classify(Answer(replies[i])) in {Reasoning, QueryCall} && Wrap32(i + 1) != limit
  }

  /** How a run ends, first part: it makes at least one call from a running
      state, and every pass before the last one continued. */
  lemma {:induction false} RunEndsAfterTurns(replies: seq<seq<string>>, rows: string -> seq<string>, limit: Int32, st: LoopState)
    requires st.phase.Running?
    requires Run(replies, rows, limit, st).phase.Finished?
    ensures var end := Run(replies, rows, limit, st);
      && st.calls < end.calls <= |replies|
      && forall i :: st.calls <= i < end.calls - 1 ==> Continues(replies, limit, i)
    decreases |replies| - st.calls
  {
    var next := Step(replies, rows, limit, st);
    assert Run(replies, rows, limit, st) == Run(replies, rows, limit, next);
    if next.phase.Running? {
      RunEndsAfterTurns(replies, rows, limit, next);
      assert Continues(replies, limit, st.calls);
    }
  }

  /** How a run ends, second part: the last answer decides the result. With
      `</result>` it is the answer itself, with none of the closing tags it
      is the protocol error, and otherwise the counter has reached the limit
      and the result is the empty string. */
  lemma {:induction false} RunEnds(replies: seq<seq<string>>, rows: string -> seq<string>, limit: Int32, st: LoopState)
    requires st.phase.Running?
    requires Run(replies, rows, limit, st).phase.Finished?
    ensures var end := Run(replies, rows, limit, st);
      && 0 < end.calls <= |replies|
      && var last := Answer(replies[end.calls - 1]);
      && (Classify(last) == FinalAnswer ==> end.phase.outcome == FromValue(last))
      && (Classify(last) == Malformed ==> end.phase.outcome == FromError(ProtocolError()))
      && (Classify(last) in {Reasoning, QueryCall} ==> Wrap32(end.calls) == limit && end.phase.outcome == FromValue(""))
    decreases |replies| - st.calls
  {
    var next := Step(replies, rows, limit, st);
    if next.phase.Running? {
      RunEnds(replies, rows, limit, next);
    }
  }

  /** An answer with `</result>` ends the run at once, whatever other tags it
      carries: it is the last entry appended and, unstripped, the result. */
  lemma FinalAnswerEndsRun(replies: seq<seq<string>>, rows: string -> seq<string>, limit: Int32, st: LoopState)
    requires st.phase.Running? && st.calls < |replies|
    requires Contains(Answer(replies[st.calls]), ResultCloseTag)
    ensures var answer := Answer(replies[st.calls]);
      Run(replies, rows, limit, st) == LoopState(st.calls + 1, st.appended + [answer], Finished(FromValue(answer)))
  {
  }

  /** An answer with none of the three closing tags ends the run with the
      protocol error, after the answer itself has been appended. */
  lemma MalformedAnswerEndsRun(replies: seq<seq<string>>, rows: string -> seq<string>, limit: Int32, st: LoopState)
    requires st.phase.Running? && st.calls < |replies|
    requires var answer := Answer(replies[st.calls]);
      !Contains(answer, ResultCloseTag) && !Contains(answer, ThinkCloseTag) && !Contains(answer, QueryCloseTag)
    ensures var answer := Answer(replies[st.calls]);
      Run(replies, rows, limit, st) == LoopState(st.calls + 1, st.appended + [answer], Finished(FromError(ProtocolError())))
  {
  }

  /** With a positive limit and only reasoning or query turns before it, the
      loop makes exactly `limit` calls and returns the empty string. */
  lemma {:induction false} LimitEndsRun(replies: seq<seq<string>>, rows: string -> seq<string>, limit: Int32, st: LoopState)
    requires st.phase.Running? && st.calls < limit <= |replies|
    requires forall i :: st.calls <= i < limit ==> Classify(Answer(replies[i])) in {Reasoning, QueryCall}
    ensures Run(replies, rows, limit, st).calls == limit
    ensures Run(replies, rows, limit, st).phase == Finished(FromValue(""))
    decreases limit - st.calls
  {
    SmallCountsDoNotWrap(st.calls + 1);
    if st.calls + 1 < limit {
      LimitEndsRun(replies, rows, limit, Step(replies, rows, limit, st));
    }
  }

  /** The counter bounds the calls: from a running state below a positive
      limit, no run makes more than `limit` chat-model calls. */
  lemma {:induction false} RunWithinLimit(replies: seq<seq<string>>, rows: string -> seq<string>, limit: Int32, st: LoopState)
    requires st.phase.Running? && st.calls < limit
    ensures Run(replies, rows, limit, st).calls <= limit
    decreases |replies| - st.calls
  {
    if st.calls < |replies| {
      SmallCountsDoNotWrap(st.calls + 1);
      var next := Step(replies, rows, limit, st);
      if next.phase.Running? {
        RunWithinLimit(replies, rows, limit, next);
      }
    }
  }

  /** With `limit <= 0` the test `counter == limit` cannot fire until the
      counter has wrapped round: a run that returns "" has made at least 2^31
      calls, and the number of calls is `limit` modulo 2^32. */
  lemma NonPositiveLimitWaitsForWrap(replies: seq<seq<string>>, rows: string -> seq<string>, limit: Int32, st: LoopState)
    requires limit <= 0 && st.phase.Running?
    requires Run(replies, rows, limit, st).phase.Finished?
    ensures var end := Run(replies, rows, limit, st);
      end.phase.outcome == FromValue("") ==> end.calls >= 0x8000_0000 && Wrap32(end.calls) == limit
  {
    RunEnds(replies, rows, limit, st);
    var end := Run(replies, rows, limit, st);
    var last := Answer(replies[end.calls - 1]);
    if Classify(last) == FinalAnswer {
      ContainsNeedsRoom(last, ResultCloseTag);
    } else if Classify(last) != Malformed && end.calls < 0x8000_0000 {
      SmallCountsDoNotWrap(end.calls);
    }
  }

  /** `</result>` anywhere in an answer makes it the final answer. */
  lemma ResultTagWins(pre: string, post: string)
    ensures Classify(pre + ResultCloseTag + post) == FinalAnswer
  {
    ContainsInfix(pre, ResultCloseTag, post);
  }

  /** `</think>` is checked before `</query>`: an answer with both and no
      `</result>` is a reasoning turn, and no query runs. */
  lemma ThinkTagBeforeQueryTag(answer: string, rows: string -> seq<string>)
    requires Contains(answer, ThinkCloseTag) && Contains(answer, QueryCloseTag)
    requires !Contains(answer, ResultCloseTag)
    ensures Classify(answer) == Reasoning && TurnEntries(answer, rows) == [answer]
  {
  }

  /** The precedence does not depend on where the tags stand: `</think>`
      before `</query>` and `</query>` before `</think>` both make a
      reasoning turn when `</result>` is absent. */
  lemma ThinkTagInEitherOrder(pre: string, mid: string, post: string)
    ensures var answer := pre + ThinkCloseTag + mid + QueryCloseTag + post;
      !Contains(answer, ResultCloseTag) ==> Classify(answer) == Reasoning
    ensures var answer := pre + QueryCloseTag + mid + ThinkCloseTag + post;
      !Contains(answer, ResultCloseTag) ==> Classify(answer) == Reasoning
  {
    ContainsInfix(pre, ThinkCloseTag, mid + QueryCloseTag + post);
    assert pre + ThinkCloseTag + (mid + QueryCloseTag + post) == pre + ThinkCloseTag + mid + QueryCloseTag + post;
    ContainsInfix(pre + QueryCloseTag + mid, ThinkCloseTag, post);
  }

  /** Two tags shaped like `<query>` and `</query>`: each starts with a
      character found nowhere else in it, the same one for both, and they
      differ in their second character. */
  predicate TagPair(open: string, close: string) {
    |open| > 1 && |close| > 1 && HeadUnique(open) && HeadUnique(close)
    && open[0] == close[0] && open[1] != close[1]
  }

  lemma QueryTagFacts()
    ensures TagPair(QueryOpenTag, QueryCloseTag)
  {
  }

  /** The other tag of a pair does not start a copy of the tag, and its
      tail does not hold the tag's first character. */
  lemma OtherTagFacts(other: string, tag: string, rest: string)
    requires TagPair(other, tag)
    ensures !StartsWith(other + rest, tag)
    ensures tag[0] !in other[1..]
  {
    assert (other + rest)[1] == other[1];
    forall k | 0 <= k < |other[1..]|
      ensures other[1..][k] != tag[0]
    {
      assert other[1..][k] == other[k + 1];
    }
  }

  /** The other tag of a pair is not removed: at the front of some text it
      stays, and the removal carries on in the text after it. */
  lemma KeepOtherTag(other: string, tag: string, rest: string)
    requires TagPair(other, tag)
    ensures RemoveAll(other + rest, tag) == other + RemoveAll(rest, tag)
  {
    OtherTagFacts(other, tag, rest);
    var s := other + rest;
    assert s[1..] == other[1..] + rest;
    RemoveAllAfterNoHead(other[1..], rest, tag);
    assert [s[0]] + (other[1..] + RemoveAll(rest, tag)) == other + RemoveAll(rest, tag);
  }

  /** The closing tag goes from a wrapped query whose text and tail do not
      hold it. */
  lemma ClosingTagGoes(open: string, query: string, close: string, post: string)
    requires TagPair(open, close) && !Contains(query, close) && !Contains(post, close)
    ensures RemoveAll(open + query + close + post, close) == open + query + post
  {
    RemoveAllSplitAtHead(open + query, close + post, close);
    assert open + query + close + post == (open + query) + (close + post);
    KeepOtherTag(open, close, query);
    RemoveAllAfterCopy(close, post);
  }

  /** The first pass of the stripping on one wrapped query, for any pair of
      tags shaped like `<query>` and `</query>`: the closing tag goes and
      everything else stays. */
  lemma FirstPass(pre: string, open: string, query: string, close: string, post: string)
    requires TagPair(open, close)
    requires !Contains(pre, close) && !Contains(query, close) && !Contains(post, close)
    ensures RemoveAll(pre + open + query + close + post, close) == pre + open + query + post
  {
    var tail := open + query + close + post;
    RemoveAllSplitAtHead(pre, tail, close);
    ClosingTagGoes(open, query, close, post);
    Regroup(pre, open, query, close, post);
  }

  /** The second pass: the opening tag goes and everything else stays. */
  lemma SecondPass(pre: string, open: string, rest: string)
    requires HeadUnique(open) && !Contains(pre, open) && !Contains(rest, open)
    ensures RemoveAll(pre + open + rest, open) == pre + rest
  {
    RemoveAllSplitAtHead(pre, open + rest, open);
    RemoveAllAfterCopy(open, rest);
    assert pre + open + rest == pre + (open + rest);
  }

  /** Concatenation regrouped, kept out of the stripping proofs. */
  lemma Regroup(pre: string, open: string, query: string, close: string, post: string)
    ensures pre + (open + query + close + post) == pre + open + query + close + post
    ensures pre + (open + query + post) == pre + open + query + post
    ensures pre + open + query + post == pre + open + (query + post)
    ensures pre + (query + post) == pre + query + post
  {
  }

  /** The query sent to the database is the answer without its tags, and
      nothing else: the text around and between the tags, spaces and any
      `<`, `<=` or `<>` included, stays where it was, as long as it holds no
      further tag. */
  lemma StripQueryTagsOfWrappedQuery(pre: string, query: string, post: string)
    requires !Contains(pre, QueryCloseTag) && !Contains(query, QueryCloseTag) && !Contains(post, QueryCloseTag)
    requires !Contains(pre, QueryOpenTag) && !Contains(query + post, QueryOpenTag)
    ensures StripQueryTags(pre + QueryOpenTag + query + QueryCloseTag + post) == pre + query + post
  {
    QueryTagFacts();
    FirstPass(pre, QueryOpenTag, query, QueryCloseTag, post);
    Regroup(pre, QueryOpenTag, query, QueryCloseTag, post);
    SecondPass(pre, QueryOpenTag, query + post);
  }

  /** For any answer, the stripping deletes exactly the tags and keeps all
      other text in order: cut the answer at its `</query>` tags into
      `parts`, cut what remains at its `<query>` tags into `pieces`; the
      database receives the pieces one after the other. This covers several
      query blocks and unpaired tags alike. */
  lemma StripQueryTagsOfPieces(parts: seq<string>, pieces: seq<string>)
    requires |parts| > 0 && forall k :: 0 <= k < |parts| ==> !Contains(parts[k], QueryCloseTag)
    requires |pieces| > 0 && forall k :: 0 <= k < |pieces| ==> !Contains(pieces[k], QueryOpenTag)
    requires Concat(parts) == Join(QueryOpenTag, pieces)
    ensures StripQueryTags(Join(QueryCloseTag, parts)) == Concat(pieces)
  {
    QueryTagFacts();
    RemoveAllOfJoin(parts, QueryCloseTag);
    RemoveAllOfJoin(pieces, QueryOpenTag);
  }

  /** An answer that only closes a query, with no opening tag, passes the
      `</query>` test (it is a query turn unless `</result>` or `</think>`
      comes first), and the database receives the text before the tag
      unchanged. */
  lemma StripLoneClosingTag(query: string)
    requires !Contains(query, QueryCloseTag) && !Contains(query, QueryOpenTag)
    ensures Classify(query + QueryCloseTag) in {FinalAnswer, Reasoning, QueryCall}
    ensures StripQueryTags(query + QueryCloseTag) == query
  {
    ContainsInfix(query, QueryCloseTag, "");
    assert query + QueryCloseTag + "" == query + QueryCloseTag;
    assert Join(QueryCloseTag, [query, ""]) == query + QueryCloseTag + Join(QueryCloseTag, [""]);
    assert Concat([query, ""]) == query + Concat([""]);
    StripQueryTagsOfPieces([query, ""], [query]);
  }

  /** The query result splits back at its spaces into the rows the database
      returned, when no row holds a space. */
  lemma QueryResultJoinsRows(query: string, rows: string -> seq<string>)
    requires |rows(StripQueryTags(query))| > 0
    requires forall k :: 0 <= k < |rows(StripQueryTags(query))| ==> ' ' !in rows(StripQueryTags(query))[k]
    ensures Split(ExecuteRequest(query, rows), ' ') == rows(StripQueryTags(query))
  {
    SplitJoin(rows(StripQueryTags(query)), ' ');
  }

  /** Likewise the answer splits back into the content parts of the reply. */
  lemma AnswerJoinsContentParts(reply: seq<string>)
    requires |reply| > 0
    requires forall k :: 0 <= k < |reply| ==> ' ' !in reply[k]
    ensures Split(Answer(reply), ' ') == reply
  {
    SplitJoin(reply, ' ');
  }

  /** Each pass deletes only the copies present in its own input, so the
      text sent to the database can still hold a tag: in `<<query>/query>`
      the second pass deletes `<query>` and closes up the rest to `</query>`. */
  lemma StrippedQueryCanHoldTag()
    ensures StripQueryTags("<" + QueryOpenTag + QueryCloseTag[1..]) == QueryCloseTag
  {
    QueryTagFacts();
    var rest := QueryCloseTag[1..];
    assert '<' !in rest;
    RemoveAllWithoutHead(rest, QueryCloseTag);
    RemoveAllWithoutHead(rest, QueryOpenTag);
    assert RemoveAll("<", QueryCloseTag) == "<" && RemoveAll("<", QueryOpenTag) == "<";
    RemoveAllSplitAtHead("<", QueryOpenTag + rest, QueryCloseTag);
    KeepOtherTag(QueryOpenTag, QueryCloseTag, rest);
    RemoveAllSplitAtHead("<", QueryOpenTag + rest, QueryOpenTag);
    RemoveAllAfterCopy(QueryOpenTag, rest);
    assert "<" + QueryOpenTag + rest == "<" + (QueryOpenTag + rest);
    assert "<" + rest == QueryCloseTag;
  }
}
