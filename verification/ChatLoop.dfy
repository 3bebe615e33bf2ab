/**
 The chat service's tool loop: the assistant is asked again as long as it requests tools, at most five times, each
 time with a window onto the growing history.  Nobody else writes to the history meanwhile.
 */
module ChatLoop {
  import opened Wrappers
  import opened Pieces

  datatype Role = User | Assistant | Tool | Other

  datatype ToolAction = ToolAction(toolType: string, params: string, completed: bool, result: string)

  datatype Message = Message(role: Role, content: string, timestamp: nat, action: Option<ToolAction>)

  datatype Call = Call(name: string, arguments: string)

  datatype Reply = Reply(content: string, calls: seq<Call>)

  /** One entry of a request: the system prompt, or a message of the history. */
  datatype Entry = SystemEntry(prompt: string) | HistoryEntry(role: Role, content: string)

  datatype Request = Request(messages: seq<Entry>)

  const MAX_ITERATIONS: nat := 5
  const WINDOW: nat := 10
  const FALLBACK := "I reached the maximum number of tool calls for this request."

  // ---------- the window ----------

  /** Tool messages are shown by the loop, and not by the plain variant. */
  datatype Shows = WithTools | Plain

  predicate Counts(p: Shows, m: Message) { m.role == User || m.role == Assistant || (m.role == Tool && p == WithTools) }

  /** Those of the first `n` messages that count. */
  function FilterTo(p: Shows, ms: seq<Message>, n: nat): seq<Message>
    requires n <= |ms|
  {
    if n == 0 then [] else FilterTo(p, ms, n - 1) + if Counts(p, ms[n - 1]) then [ms[n - 1]] else []
  }

  function Filter(p: Shows, ms: seq<Message>): seq<Message> { FilterTo(p, ms, |ms|) }

  function EntryOf(m: Message): Entry { HistoryEntry(m.role, m.content) }

  function Entries(ms: seq<Message>): (r: seq<Entry>)
    ensures |r| == |ms|
  {
    seq(|ms|, i requires 0 <= i < |ms| => EntryOf(ms[i]))
  }

  function Greeting(system: string): seq<Entry> { if system == "" then [] else [SystemEntry(system)] }

  /** The last ten of the messages that count. */
  function LastTen(ms: seq<Message>): seq<Message> { if |ms| <= WINDOW then ms else ms[|ms| - WINDOW..] }

  function Window(p: Shows, system: string, history: seq<Message>): seq<Entry> {
    Greeting(system) + Entries(LastTen(Filter(p, history)))
  }

  function RequestFor(p: Shows, system: string, history: seq<Message>): Request { Request(Window(p, system, history)) }

  /** The messages that count, in order. */
  method Relevant(p: Shows, history: seq<Message>) returns (relevant: seq<Message>)
    ensures relevant == Filter(p, history)
  {
    relevant := [];
    for i := 0 to |history|
      invariant relevant == FilterTo(p, history, i)
    {
      if Counts(p, history[i]) {
        relevant := relevant + [history[i]];
      }
    }
  }

  /** Building the request as the source does. */
  method BuildRequest(p: Shows, system: string, history: seq<Message>) returns (request: Request)
    ensures request == RequestFor(p, system, history)
  {
    var shown: seq<Entry> := [];
    if system != "" {
      shown := shown + [SystemEntry(system)];
    }
    var relevant := Relevant(p, history);
    var start := if |relevant| < WINDOW then 0 else |relevant| - WINDOW;
    ghost var last := LastTen(relevant);
    assert relevant[start..] == last;
    for i := start to |relevant|
      invariant shown == Greeting(system) + Entries(last)[..i - start]
    {
      assert relevant[i] == last[i - start];
      shown := shown + [EntryOf(relevant[i])];
    }
    assert Entries(last)[..|last|] == Entries(last);
    request := Request(shown);
  }

  lemma {:induction false} FilterFront(p: Shows, a: seq<Message>, b: seq<Message>, n: nat)
    requires n <= |a|
    ensures FilterTo(p, a + b, n) == FilterTo(p, a, n)
  {
    if n > 0 {
      FilterFront(p, a, b, n - 1);
    }
  }

  lemma {:induction false} FilterBack(p: Shows, a: seq<Message>, b: seq<Message>, n: nat)
    requires n <= |b|
    ensures FilterTo(p, a + b, |a| + n) == Filter(p, a) + FilterTo(p, b, n)
  {
    if n == 0 {
      FilterFront(p, a, b, |a|);
    } else {
      FilterBack(p, a, b, n - 1);
    }
  }

  /** Which messages count: those of the user and the assistant, and tool results where they are shown. */
  lemma CountsMeans(p: Shows, m: Message)
    ensures Counts(p, m) <==> m.role == User || m.role == Assistant || (m.role == Tool && p == WithTools)
    ensures Filter(p, []) == [] && Filter(p, [m]) == if Counts(p, m) then [m] else []
  {
    assert FilterTo(p, [m], 0) == [];
  }

  /** The messages that count are kept in their order, and the others left out. */
  lemma FilterSplits(p: Shows, a: seq<Message>, b: seq<Message>)
    ensures Filter(p, a + b) == Filter(p, a) + Filter(p, b)
  {
    FilterBack(p, a, b, |b|);
  }

  lemma LastTenAt(a: seq<Message>, m: Message, b: seq<Message>)
    ensures |b| < WINDOW ==> |LastTen(a + [m] + b)| > |b|
    ensures |b| < WINDOW ==> LastTen(a + [m] + b)[|LastTen(a + [m] + b)| - 1 - |b|] == m
    ensures |b| >= WINDOW ==> LastTen(a + [m] + b) == LastTen(b)
    ensures |LastTen(a + [m] + b)| == if |a| + 1 + |b| <= WINDOW then |a| + 1 + |b| else WINDOW
  {}

  lemma FilterAround(p: Shows, before: seq<Message>, m: Message, after: seq<Message>)
    requires Counts(p, m)
    ensures Filter(p, before + [m] + after) == Filter(p, before) + [m] + Filter(p, after)
  {
    FilterBack(p, before, [m], 1);
    FilterBack(p, before + [m], after, |after|);
    assert FilterTo(p, [m], 0) == [];
  }

  /**
   The window in terms of the history: a message that counts is in the request, at its place from the end, if fewer
   than ten that count come after it; the request holds no others, besides the system prompt in front.
   */
  lemma WindowAt(p: Shows, system: string, before: seq<Message>, m: Message, after: seq<Message>)
    requires Counts(p, m)
    ensures var request := Window(p, system, before + [m] + after);
            var later := |Filter(p, after)|;
            var greeting := if system == "" then [] else [SystemEntry(system)];
            && |request| == |greeting| + (if |Filter(p, before)| + 1 + later <= 10
                                          then |Filter(p, before)| + 1 + later else 10)
            && request[..|greeting|] == greeting
            && (later < 10 ==> request[|request| - 1 - later] == HistoryEntry(m.role, m.content))
            && (later >= 10 ==> request == greeting + Entries(LastTen(Filter(p, after))))
  {
    FilterAround(p, before, m, after);
    LastTenAt(Filter(p, before), m, Filter(p, after));
  }

  // ---------- the backend and the tools ----------

  /** Answers by number: whatever the backend says, it says some sequence of things. */
  class Backend {
    var requests: seq<Request>
    const replies: nat -> Result<Reply, string>

    constructor (replies: nat -> Result<Reply, string>)
      ensures requests == [] && this.replies == replies
    {
      this.requests, this.replies := [], replies;
    }

    method ChatCompletion(request: Request) returns (reply: Result<Reply, string>)
      modifies this
      ensures requests == old(requests) + [request] && reply == replies(|old(requests)|)
    {
      reply := replies(|requests|);
      requests := requests + [request];
    }
  }

  class ToolExecutor {
    var executed: seq<Call>
    const results: nat -> Result<string, string>

    constructor (results: nat -> Result<string, string>)
      ensures executed == [] && this.results == results
    {
      this.executed, this.results := [], results;
    }

    method Execute(call: Call) returns (result: Result<string, string>)
      modifies this
      ensures executed == old(executed) + [call] && result == results(|old(executed)|)
    {
      result := results(|executed|);
      executed := executed + [call];
    }
  }

  // ---------- one turn ----------

  /**
   What a turn meets: the answers from number `asked` on, the tool results from number `executed` on, and what requests
   show of a history.
   */
  datatype Turn = Turn(
    replies: nat -> Result<Reply, string>, asked: nat,
    results: nat -> Result<string, string>, executed: nat,
    now: nat, show: seq<Message> -> Request)

  ghost predicate ShowsWindow(show: seq<Message> -> Request, system: string) {
    forall history :: show(history) == RequestFor(WithTools, system, history)
  }

  function ReplyAt(t: Turn, i: nat): Result<Reply, string> { t.replies(t.asked + i) }

  function CallsAt(t: Turn, i: nat): seq<Call> { if ReplyAt(t, i).Ok? then ReplyAt(t, i).value.calls else [] }

  function RoundsFrom(t: Turn, i: nat): nat
    decreases MAX_ITERATIONS - i
  {
    if i < MAX_ITERATIONS && CallsAt(t, i) != [] then RoundsFrom(t, i + 1) else i
  }

  /** How many answers request tools before the first that does not, up to five. */
  function Rounds(t: Turn): nat { RoundsFrom(t, 0) }

  lemma {:induction false} RoundsMean(t: Turn, i: nat)
    requires i <= MAX_ITERATIONS
    ensures var r := RoundsFrom(t, i);
            && i <= r <= MAX_ITERATIONS
            && (forall k: nat :: i <= k < r ==> CallsAt(t, k) != [])
            && (r < MAX_ITERATIONS ==> CallsAt(t, r) == [])
    decreases MAX_ITERATIONS - i
  {
    if i < MAX_ITERATIONS && CallsAt(t, i) != [] {
      RoundsMean(t, i + 1);
    }
  }

  /** The calls of the first `i` answers, in order. */
  function CallsBefore(t: Turn, i: nat): seq<Call> {
    if i == 0 then [] else CallsBefore(t, i - 1) + CallsAt(t, i - 1)
  }

  function ResultText(result: Result<string, string>): string {
    match result
    case Ok(output) => output
    case Err(error) => "Tool error: " + error
  }

  /** The message for the `n`-th call of the turn, made in the given round. */
  function ToolMessage(t: Turn, n: nat, call: Call, round: nat): Message {
    var result := t.results(t.executed + n);
    Message(Tool, ResultText(result), t.now + round + 1,
            Some(ToolAction(call.name, call.arguments, result.Ok?, ResultText(result))))
  }

  /** The messages of the first `k` calls of one answer. */
  function RoundMessages(t: Turn, round: nat, n: nat, calls: seq<Call>, k: nat): seq<Message>
    requires k <= |calls|
  {
    if k == 0 then [] else RoundMessages(t, round, n, calls, k - 1) + [ToolMessage(t, n + k - 1, calls[k - 1], round)]
  }

  function NewMessages(t: Turn, round: nat): seq<Message> {
    RoundMessages(t, round, |CallsBefore(t, round)|, CallsAt(t, round), |CallsAt(t, round)|)
  }

  /** The tool messages of the first `i` rounds. */
  function ToolMessages(t: Turn, i: nat): seq<Message> {
    if i == 0 then []
    else ToolMessages(t, i - 1) + NewMessages(t, i - 1)
  }

  function UserMessage(t: Turn, text: string): Message { Message(User, text, t.now, None) }

  /** The answer after `r` rounds; a backend error leaves none. */
  function Answer(t: Turn, r: nat): Result<Message, string> {
    if r == MAX_ITERATIONS then Ok(Message(Assistant, FALLBACK, t.now, None))
    else
      match ReplyAt(t, r)
      case Ok(reply) => Ok(Message(Assistant, reply.content, t.now + r + 1, None))
      case Err(error) => Err(error)
  }

  function Closing(answer: Result<Message, string>): seq<Message> { if answer.Ok? then [answer.value] else [] }

  /** The history when the `i`-th request of the turn is made. */
  function HistoryAt(t: Turn, history: seq<Message>, text: string, i: nat): seq<Message> {
    history + [UserMessage(t, text)] + ToolMessages(t, i)
  }

  function Asked(r: nat): nat { if r < MAX_ITERATIONS then r + 1 else MAX_ITERATIONS }

  function RequestAt(t: Turn, history: seq<Message>, text: string, i: nat): Request {
    t.show(HistoryAt(t, history, text, i))
  }

  /** The first `n` requests of the turn; each shows the history as it was when its round began. */
  function Requests(t: Turn, history: seq<Message>, text: string, n: nat): (rs: seq<Request>)
    ensures |rs| == n
  {
    seq(n, i requires 0 <= i < n => RequestAt(t, history, text, i))
  }

  // ---------- one more round ----------

  lemma HistoryGrows(t: Turn, history: seq<Message>, text: string, i: nat)
    ensures HistoryAt(t, history, text, i + 1) == HistoryAt(t, history, text, i) + NewMessages(t, i)
  {
    Regroup(history + [UserMessage(t, text)], ToolMessages(t, i), NewMessages(t, i));
  }

  lemma RequestsGrow(t: Turn, history: seq<Message>, text: string, i: nat, before: seq<Request>)
    ensures before + Requests(t, history, text, i + 1)
         == before + Requests(t, history, text, i) + [RequestAt(t, history, text, i)]
  {
    RequestsNext(t, history, text, i);
    Regroup(before, Requests(t, history, text, i), [RequestAt(t, history, text, i)]);
  }

  lemma RequestsNext(t: Turn, history: seq<Message>, text: string, i: nat)
    ensures Requests(t, history, text, i + 1)
         == Requests(t, history, text, i) + [RequestAt(t, history, text, i)]
  {}

  lemma CallsGrow(t: Turn, i: nat, before: seq<Call>)
    ensures before + CallsBefore(t, i + 1) == before + CallsBefore(t, i) + CallsAt(t, i)
  {
    Regroup(before, CallsBefore(t, i), CallsAt(t, i));
  }

  /** Where a turn is before its `i`-th request: the history, all requests and all calls so far. */
  ghost predicate InRound(
      t: Turn, history: seq<Message>, text: string, requests: seq<Request>, executed: seq<Call>,
      i: nat, ms: seq<Message>, rs: seq<Request>, cs: seq<Call>)
  {
    && i <= MAX_ITERATIONS
    && Rounds(t) == RoundsFrom(t, i)
    && ms == HistoryAt(t, history, text, i)
    && rs == requests + Requests(t, history, text, i)
    && cs == executed + CallsBefore(t, i)
  }

  lemma NextRound(
      t: Turn, history: seq<Message>, text: string, requests: seq<Request>, executed: seq<Call>,
      i: nat, ms: seq<Message>, rs: seq<Request>, cs: seq<Call>)
    requires InRound(t, history, text, requests, executed, i, ms, rs, cs)
    requires i < MAX_ITERATIONS && CallsAt(t, i) != []
    ensures InRound(t, history, text, requests, executed, i + 1, ms + NewMessages(t, i),
                    rs + [t.show(ms)], cs + CallsAt(t, i))
  {
    RequestsGrow(t, history, text, i, requests);
    HistoryGrows(t, history, text, i);
    CallsGrow(t, i, executed);
  }

  /** Where a turn has ended, and with which answer. */
  ghost predicate TurnDone(
      t: Turn, history: seq<Message>, text: string, requests: seq<Request>, executed: seq<Call>,
      r: Result<Message, string>, ms: seq<Message>, rs: seq<Request>, cs: seq<Call>)
  {
    && r == Answer(t, Rounds(t))
    && ms == HistoryAt(t, history, text, Rounds(t)) + Closing(r)
    && rs == requests + Requests(t, history, text, Asked(Rounds(t)))
    && cs == executed + CallsBefore(t, Rounds(t))
  }

  /** The last answer requests no tools: it is the answer of the turn, or the error is. */
  lemma LastRound(
      t: Turn, history: seq<Message>, text: string, requests: seq<Request>, executed: seq<Call>,
      i: nat, ms: seq<Message>, rs: seq<Request>, cs: seq<Call>, r: Result<Message, string>)
    requires InRound(t, history, text, requests, executed, i, ms, rs, cs)
    requires i < MAX_ITERATIONS && CallsAt(t, i) == [] && r == Answer(t, i)
    ensures TurnDone(t, history, text, requests, executed, r, ms + Closing(r),
                     rs + [t.show(ms)], cs)
  {
    RequestsGrow(t, history, text, i, requests);
  }

  lemma NoMoreRounds(
      t: Turn, history: seq<Message>, text: string, requests: seq<Request>, executed: seq<Call>,
      i: nat, ms: seq<Message>, rs: seq<Request>, cs: seq<Call>, m: Message)
    requires InRound(t, history, text, requests, executed, i, ms, rs, cs) && i == MAX_ITERATIONS
    requires m == Message(Assistant, FALLBACK, t.now, None)
    ensures TurnDone(t, history, text, requests, executed, Ok(m), ms + [m], rs, cs)
  {}

  /** One request further, a turn goes on or has ended. */
  lemma NextOrLast(
      t: Turn, history: seq<Message>, text: string, requests: seq<Request>, executed: seq<Call>,
      i: nat, ms: seq<Message>, rs: seq<Request>, cs: seq<Call>)
    requires InRound(t, history, text, requests, executed, i, ms, rs, cs) && i < MAX_ITERATIONS
    ensures CallsAt(t, i) != [] ==>
              InRound(t, history, text, requests, executed, i + 1, ms + NewMessages(t, i),
                      rs + [t.show(ms)], cs + CallsAt(t, i))
    ensures CallsAt(t, i) == [] ==>
              TurnDone(t, history, text, requests, executed, Answer(t, i), ms + Closing(Answer(t, i)),
                       rs + [t.show(ms)], cs)
  {
    if CallsAt(t, i) != [] {
      NextRound(t, history, text, requests, executed, i, ms, rs, cs);
    } else {
      LastRound(t, history, text, requests, executed, i, ms, rs, cs, Answer(t, i));
    }
  }

  lemma AnswerHere(t: Turn, i: nat)
    requires i < MAX_ITERATIONS
    ensures match ReplyAt(t, i)
            case Err(error) => Answer(t, i) == Err(error) && Closing(Answer(t, i)) == []
            case Ok(reply) =>
              var m := Message(Assistant, reply.content, t.now + i + 1, None);
              Answer(t, i) == Ok(m) && Closing(Answer(t, i)) == [m]
  {}

  // ---------- a turn as it is seen ----------

  /** The calls of the first `n` answers from number `asked` on. */
  function CallsOf(replies: nat -> Result<Reply, string>, asked: nat, n: nat): seq<Call> {
    if n == 0 then []
    else
      match replies(asked + n - 1)
      case Ok(reply) => CallsOf(replies, asked, n - 1) + reply.calls
      case Err(_) => CallsOf(replies, asked, n - 1)
  }

  /** A turn from outside: what was sent and done in it, and what it was answered. */
  datatype Seen = Seen(
    text: string, now: nat, system: string,
    history: seq<Message>, messages: seq<Message>, requests: seq<Request>, calls: seq<Call>,
    replies: nat -> Result<Reply, string>, asked: nat,
    results: nat -> Result<string, string>, executed: nat,
    answer: Result<Message, string>)

  function Opened(v: Seen): seq<Message> { v.history + [Message(User, v.text, v.now, None)] }

  /** The result of a call as its message tells it. */
  predicate Tells(m: Message, call: Call, result: Result<string, string>) {
    && m.role == Tool
    && m.content == (match result case Ok(output) => output case Err(error) => "Tool error: " + error)
    && m.action == Some(ToolAction(call.name, call.arguments, result.Ok?, m.content))
  }

  /** What the last of the answers comes to. */
  predicate Concludes(answer: Result<Message, string>, last: Result<Reply, string>, n: nat) {
    match last
    case Err(error) => answer == Err(error)
    case Ok(reply) =>
      && answer.Ok? && answer.value.role == Assistant && answer.value.action == None
      && (reply.calls == [] ==> answer.value.content == reply.content)
      && (reply.calls != [] ==>
            n == 5 && answer.value.content == "I reached the maximum number of tool calls for this request.")
  }

  /** The `k`-th request is the window onto the conversation as it was after the calls of the answers before. */
  predicate Shown(v: Seen, k: nat) {
    && |Opened(v)| + |CallsOf(v.replies, v.asked, k)| <= |v.messages| && k < |v.requests|
    && v.requests[k]
         == Request(Window(WithTools, v.system, v.messages[..|Opened(v)| + |CallsOf(v.replies, v.asked, k)|]))
  }

  predicate ToldAt(v: Seen, k: nat) {
    && |Opened(v)| + k < |v.messages| && k < |v.calls|
    && Tells(v.messages[|Opened(v)| + k], v.calls[k], v.results(v.executed + k))
  }

  predicate WantsTools(v: Seen, k: nat) {
    v.replies(v.asked + k).Ok? && v.replies(v.asked + k).value.calls != []
  }

  /**
   The conversation goes on with the user's message, one message for each executed call, and the answer, if there is
   one; there are up to five requests, all but the last of which are answered with calls.
   */
  ghost predicate Spoken(v: Seen) {
    && Opened(v) <= v.messages
    && |v.messages| == |Opened(v)| + |v.calls| + (if v.answer.Ok? then 1 else 0)
    && (forall k :: 0 <= k < |v.calls| ==> ToldAt(v, k))
    && (v.answer.Ok? ==> v.messages[|v.messages| - 1] == v.answer.value)
    && 1 <= |v.requests| <= 5
    && (forall k :: 0 <= k < |v.requests| ==> Shown(v, k))
    && (forall k :: 0 <= k < |v.requests| - 1 ==> WantsTools(v, k))
    && v.calls == CallsOf(v.replies, v.asked, |v.requests|)
    && Concludes(v.answer, v.replies(v.asked + |v.requests| - 1), |v.requests|)
  }

  /** What the rounds of a turn make of it. */
  ghost predicate Turned(t: Turn, v: Seen) {
    && t == Turn(v.replies, v.asked, v.results, v.executed, v.now, t.show) && ShowsWindow(t.show, v.system)
    && v.answer == Answer(t, Rounds(t))
    && v.messages == HistoryAt(t, v.history, v.text, Rounds(t)) + Closing(v.answer)
    && v.requests == Requests(t, v.history, v.text, Asked(Rounds(t)))
    && v.calls == CallsBefore(t, Rounds(t))
  }

  lemma {:induction false} CallsOfIs(t: Turn, n: nat)
    ensures CallsOf(t.replies, t.asked, n) == CallsBefore(t, n)
  {
    if n > 0 {
      CallsOfIs(t, n - 1);
    }
  }

  class ChatService {
    var messages: seq<Message>
    var systemPrompt: string

    constructor ()
      ensures messages == [] && systemPrompt == ""
    {
      messages, systemPrompt := [], "";
    }

    /** The calls of one answer, executed in order, each leaving its message. */
    method ExecuteCalls(calls: seq<Call>, ghost t: Turn, now: nat, round: nat, tools: ToolExecutor)
      requires t.results == tools.results && t.executed <= |tools.executed| && t.now == now
      modifies this`messages, tools
      ensures tools.executed == old(tools.executed) + calls
      ensures messages == old(messages) + RoundMessages(t, round, |old(tools.executed)| - t.executed, calls, |calls|)
    {
      ghost var n := |tools.executed| - t.executed;
      for k := 0 to |calls|
        invariant tools.executed == old(tools.executed) + calls[..k]
        invariant messages == old(messages) + RoundMessages(t, round, n, calls, k)
      {
        var result := tools.Execute(calls[k]);
        var content := ResultText(result);
        var message := Message(Tool, content, now + round + 1,
                               Some(ToolAction(calls[k].name, calls[k].arguments, result.Ok?, content)));
        assert message == ToolMessage(t, n + k, calls[k], round);
        messages := messages + [message];
      }
    }

    /** One pass of the loop: a request, and the calls that come back. */
    method AskAndExecute(ghost t: Turn, now: nat, i: nat, backend: Backend, tools: ToolExecutor)
      returns (response: Result<Reply, string>)
      requires t.replies == backend.replies && t.results == tools.results && t.now == now
      requires ShowsWindow(t.show, systemPrompt)
      requires |backend.requests| == t.asked + i && |tools.executed| == t.executed + |CallsBefore(t, i)|
      modifies this`messages, backend, tools
      ensures response == ReplyAt(t, i)
      ensures backend.requests == old(backend.requests) + [t.show(old(messages))]
      ensures messages == old(messages) + NewMessages(t, i)
      ensures tools.executed == old(tools.executed) + CallsAt(t, i)
      ensures CallsAt(t, i) == [] ==> messages == old(messages) && tools.executed == old(tools.executed)
    {
      var request := BuildRequest(WithTools, systemPrompt, messages);
      response := backend.ChatCompletion(request);
      if response.Ok? && response.value.calls != [] {
        ExecuteCalls(response.value.calls, t, now, i, tools);
      }
    }

    /** The same with what comes of it: the turn goes on after calls, and is otherwise over with an answer. */
    method Round(
        ghost t: Turn, ghost history: seq<Message>, ghost text: string, ghost requests: seq<Request>,
        ghost executed: seq<Call>, now: nat, i: nat, backend: Backend, tools: ToolExecutor)
      returns (answer: Option<Result<Message, string>>)
      requires t == Turn(backend.replies, |requests|, tools.results, |executed|, now, t.show)
      requires ShowsWindow(t.show, systemPrompt) && i < MAX_ITERATIONS
      requires InRound(t, history, text, requests, executed, i, messages, backend.requests, tools.executed)
      modifies this`messages, backend, tools
      ensures answer.None? ==>
                InRound(t, history, text, requests, executed, i + 1, messages, backend.requests, tools.executed)
      ensures answer.Some? ==>
                TurnDone(t, history, text, requests, executed, answer.value, messages, backend.requests, tools.executed)
    {
      NextOrLast(t, history, text, requests, executed, i, messages, backend.requests, tools.executed);
      AnswerHere(t, i);
      var response := AskAndExecute(t, now, i, backend, tools);
      if response.Err? {
        return Some(Err(response.error));
      }
      if response.value.calls == [] {
        var message := Message(Assistant, response.value.content, now + i + 1, None);
        messages := messages + [message];
        return Some(Ok(message));
      }
      answer := None;
    }

    /** The rounds of a turn. */
    method TakeTurn(ghost t: Turn, text: string, now: nat, backend: Backend, tools: ToolExecutor)
      returns (r: Result<Message, string>)
      requires t == Turn(backend.replies, |backend.requests|, tools.results, |tools.executed|, now, t.show)
      requires ShowsWindow(t.show, systemPrompt)
      modifies this`messages, backend, tools
      ensures TurnDone(t, old(messages), text, old(backend.requests), old(tools.executed),
                       r, messages, backend.requests, tools.executed)
    {
      ghost var history, requests, executed := messages, backend.requests, tools.executed;
      messages := messages + [Message(User, text, now, None)];
      var iteration := 0;
      while iteration < MAX_ITERATIONS
        invariant InRound(t, history, text, requests, executed, iteration,
                          messages, backend.requests, tools.executed)
      {
        var answer := Round(t, history, text, requests, executed, now, iteration, backend, tools);
        if answer.Some? {
          return answer.value;
        }
        iteration := iteration + 1;
      }
      var fallback := Message(Assistant, FALLBACK, now, None);
      NoMoreRounds(t, history, text, requests, executed, iteration,
                   messages, backend.requests, tools.executed, fallback);
      messages := messages + [fallback];
      r := Ok(fallback);
    }

    /** `send_message_with_tools_streaming`. */
    method SendMessageWithTools(text: string, now: nat, backend: Backend, tools: ToolExecutor)
      returns (r: Result<Message, string>)
      modifies this`messages, backend, tools
      ensures old(backend.requests) <= backend.requests && old(tools.executed) <= tools.executed
      ensures Spoken(Seen(text, now, systemPrompt, old(messages), messages,
                          backend.requests[|old(backend.requests)|..], tools.executed[|old(tools.executed)|..],
                          backend.replies, |old(backend.requests)|, tools.results, |old(tools.executed)|, r))
    {
      ghost var history, asked, executed := messages, |backend.requests|, |tools.executed|;
      ghost var system := systemPrompt;
      ghost var show := past => RequestFor(WithTools, system, past);
      ghost var t := Turn(backend.replies, asked, tools.results, executed, now, show);
      r := TakeTurn(t, text, now, backend, tools);
      ghost var v := Seen(text, now, systemPrompt, history, messages, backend.requests[asked..],
                          tools.executed[executed..], backend.replies, asked, tools.results, executed, r);
      TurnIsSpoken(t, v);
    }

    /** `send_message`: one request, and tool messages are not shown. */
    method SendMessage(text: string, now: nat, backend: Backend) returns (r: Result<Message, string>)
      modifies this`messages, backend
      ensures var asked := old(messages) + [Message(User, text, now, None)];
              && backend.requests == old(backend.requests) + [RequestFor(Plain, systemPrompt, asked)]
              && messages == asked + Closing(r)
              && match backend.replies(|old(backend.requests)|)
                 case Ok(reply) => r == Ok(Message(Assistant, reply.content, now + 1, None))
                 case Err(error) => r == Err(error)
    {
      messages := messages + [Message(User, text, now, None)];
      var request := BuildRequest(Plain, systemPrompt, messages);
      var response := backend.ChatCompletion(request);
      if response.Err? {
        return Err(response.error);
      }
      var message := Message(Assistant, response.value.content, now + 1, None);
      messages := messages + [message];
      r := Ok(message);
    }
  }

  // ---------- what a turn leaves ----------

  lemma TurnIsSpoken(t: Turn, v: Seen)
    requires Turned(t, v)
    ensures Spoken(v)
  {
    HistoryIsKept(t, v);
    CallsAreTold(t, v);
    RequestsAreShown(t, v);
    TurnConcludes(t, v);
  }

  lemma HistoryIsKept(t: Turn, v: Seen)
    requires Turned(t, v)
    ensures Opened(v) <= v.messages
    ensures |v.messages| == |Opened(v)| + |v.calls| + (if v.answer.Ok? then 1 else 0)
    ensures v.answer.Ok? ==> v.messages[|v.messages| - 1] == v.answer.value
  {
    TurnAnswered(t, Rounds(t));
  }

  lemma CallIsTold(t: Turn, v: Seen, tools: seq<Message>, rest: seq<Message>, k: nat)
    requires t.results == v.results && t.executed == v.executed && v.messages == Opened(v) + tools + rest
    requires AllAnswered(t, 0, v.calls, tools) && k < |v.calls|
    ensures ToldAt(v, k)
  {
    assert AnsweredAt(t, 0, v.calls, tools, k);
    assert v.messages[|Opened(v)| + k] == tools[k];
  }

  lemma CallsAreTold(t: Turn, v: Seen)
    requires Turned(t, v)
    ensures forall k :: 0 <= k < |v.calls| ==> ToldAt(v, k)
  {
    var r := Rounds(t);
    TurnAnswered(t, r);
    forall k | 0 <= k < |v.calls|
      ensures ToldAt(v, k)
    {
      CallIsTold(t, v, ToolMessages(t, r), Closing(v.answer), k);
    }
  }

  lemma RequestsAreShown(t: Turn, v: Seen)
    requires Turned(t, v)
    ensures 1 <= |v.requests| <= 5
    ensures forall k :: 0 <= k < |v.requests| ==> Shown(v, k)
    ensures forall k :: 0 <= k < |v.requests| - 1 ==> WantsTools(v, k)
  {
    RoundsMean(t, 0);
    forall k | 0 <= k < |v.requests|
      ensures Shown(v, k)
    {
      RequestIsShown(t, v, k);
    }
    forall k | 0 <= k < |v.requests| - 1
      ensures WantsTools(v, k)
    {
      assert CallsAt(t, k) != [];
    }
  }

  lemma TurnConcludes(t: Turn, v: Seen)
    requires Turned(t, v)
    ensures v.calls == CallsOf(v.replies, v.asked, |v.requests|)
    ensures |v.requests| > 0 && Concludes(v.answer, v.replies(v.asked + |v.requests| - 1), |v.requests|)
  {
    var r, n := Rounds(t), Asked(Rounds(t));
    RoundsMean(t, 0);
    CallsOfIs(t, n);
    assert ReplyAt(t, n - 1) == v.replies(v.asked + n - 1);
    if r < MAX_ITERATIONS {
      assert CallsAt(t, r) == [];
    } else {
      assert CallsAt(t, n - 1) != [];
    }
  }

  lemma {:induction false} ToolMessagesPrefix(t: Turn, i: nat, r: nat)
    requires i <= r
    ensures ToolMessages(t, i) <= ToolMessages(t, r)
  {
    if i < r {
      ToolMessagesPrefix(t, i, r - 1);
    }
  }

  lemma HistoryShown(t: Turn, v: Seen, k: nat, n: nat)
    requires Turned(t, v) && k <= Rounds(t) && n == |CallsBefore(t, k)|
    ensures |Opened(v)| + n <= |v.messages| && v.messages[..|Opened(v)| + n] == HistoryAt(t, v.history, v.text, k)
  {
    TurnAnswered(t, k);
    ToolMessagesPrefix(t, k, Rounds(t));
    PrefixOfThree(Opened(v), ToolMessages(t, k), ToolMessages(t, Rounds(t)), Closing(v.answer));
  }

  lemma PrefixOfThree<T>(a: seq<T>, b: seq<T>, more: seq<T>, c: seq<T>)
    requires b <= more
    ensures |a| + |b| <= |a + more + c| && (a + more + c)[..|a| + |b|] == a + b
  {}

  lemma RequestIsShown(t: Turn, v: Seen, k: nat)
    requires Turned(t, v) && k < |v.requests|
    ensures Shown(v, k)
  {
    var r := Rounds(t);
    RoundsMean(t, 0);
    assert k <= r;
    CallsOfIs(t, k);
    HistoryShown(t, v, k, |CallsBefore(t, k)|);
    RequestNumber(t, v.system, v.history, v.text, Asked(r), k);
    ShownIf(v, k, |CallsBefore(t, k)|, HistoryAt(t, v.history, v.text, k));
  }

  lemma ShownIf(v: Seen, k: nat, n: nat, shown: seq<Message>)
    requires k < |v.requests| && n == |CallsOf(v.replies, v.asked, k)|
    requires |Opened(v)| + n <= |v.messages| && v.messages[..|Opened(v)| + n] == shown
    requires v.requests[k] == Request(Window(WithTools, v.system, shown))
    ensures Shown(v, k)
  {}

  lemma RequestNumber(t: Turn, system: string, history: seq<Message>, text: string, n: nat, k: nat)
    requires k < n && ShowsWindow(t.show, system)
    ensures Requests(t, history, text, n)[k]
         == Request(Window(WithTools, system, HistoryAt(t, history, text, k)))
  {}

  /** The `k`-th call of the turn and the `k`-th tool message belong together. */
  ghost predicate Answers(t: Turn, k: nat, call: Call, m: Message) {
    && m.role == Tool
    && m.content == ResultText(t.results(t.executed + k))
    && m.action == Some(ToolAction(call.name, call.arguments, t.results(t.executed + k).Ok?, m.content))
  }

  ghost predicate AnsweredAt(t: Turn, base: nat, calls: seq<Call>, ms: seq<Message>, k: nat) {
    k < |calls| && k < |ms| && Answers(t, base + k, calls[k], ms[k])
  }

  /** One message for each call, in the order of the calls; the first has number `base`. */
  ghost predicate AllAnswered(t: Turn, base: nat, calls: seq<Call>, ms: seq<Message>) {
    |ms| == |calls| && forall k :: 0 <= k < |calls| ==> AnsweredAt(t, base, calls, ms, k)
  }

  lemma AnsweredConcat(t: Turn, base: nat, c1: seq<Call>, m1: seq<Message>, c2: seq<Call>, m2: seq<Message>)
    requires AllAnswered(t, base, c1, m1) && AllAnswered(t, base + |c1|, c2, m2)
    ensures AllAnswered(t, base, c1 + c2, m1 + m2)
  {
    forall k | 0 <= k < |c1 + c2|
      ensures AnsweredAt(t, base, c1 + c2, m1 + m2, k)
    {
      if k < |c1| {
        assert AnsweredAt(t, base, c1, m1, k);
      } else {
        assert AnsweredAt(t, base + |c1|, c2, m2, k - |c1|);
      }
    }
  }

  lemma {:induction false} RoundAnswered(t: Turn, round: nat, n: nat, calls: seq<Call>, c: nat)
    requires c <= |calls|
    ensures AllAnswered(t, n, calls[..c], RoundMessages(t, round, n, calls, c))
  {
    if c > 0 {
      RoundAnswered(t, round, n, calls, c - 1);
      OneAnswered(t, round, n + c - 1, calls[c - 1]);
      AnsweredConcat(t, n, calls[..c - 1], RoundMessages(t, round, n, calls, c - 1),
                     [calls[c - 1]], [ToolMessage(t, n + c - 1, calls[c - 1], round)]);
      LastOf(calls, c);
    }
  }

  lemma OneAnswered(t: Turn, round: nat, n: nat, call: Call)
    ensures AllAnswered(t, n, [call], [ToolMessage(t, n, call, round)])
  {}

  lemma LastOf<T>(s: seq<T>, c: nat)
    requires 0 < c <= |s|
    ensures s[..c - 1] + [s[c - 1]] == s[..c]
  {}

  lemma {:induction false} TurnAnswered(t: Turn, i: nat)
    ensures AllAnswered(t, 0, CallsBefore(t, i), ToolMessages(t, i))
  {
    if i > 0 {
      TurnAnswered(t, i - 1);
      var n, calls := |CallsBefore(t, i - 1)|, CallsAt(t, i - 1);
      RoundAnswered(t, i - 1, n, calls, |calls|);
      assert calls[..|calls|] == calls;
      AnsweredConcat(t, 0, CallsBefore(t, i - 1), ToolMessages(t, i - 1), calls, NewMessages(t, i - 1));
    }
  }

  lemma {:induction false} AllAreKept(p: Shows, ms: seq<Message>, n: nat)
    requires n <= |ms| && forall k :: 0 <= k < n ==> Counts(p, ms[k])
    ensures FilterTo(p, ms, n) == ms[..n]
  {
    if n > 0 {
      AllAreKept(p, ms, n - 1);
    }
  }

  lemma OnlyToolsShown(system: string, tools: seq<Message>)
    requires |tools| >= 10 && forall k :: 0 <= k < |tools| ==> tools[k].role == Tool
    ensures forall e :: e in Greeting(system) + Entries(LastTen(tools)) && e.HistoryEntry? ==> e.role == Tool
  {
    var shown := LastTen(tools);
    assert forall j :: 0 <= j < |shown| ==> Entries(shown)[j].role == Tool;
  }

  lemma PromptInWindow(
      system: string, history: seq<Message>, m: Message, tools: seq<Message>, n: nat, shown: seq<Entry>)
    requires m.role == User && Filter(WithTools, tools) == tools
    requires forall k :: 0 <= k < |tools| ==> tools[k].role == Tool
    requires n == |tools| && shown == Window(WithTools, system, history + [m] + tools)
    ensures EntryOf(m) in shown <==> n < 10
    ensures n < 10 ==> |shown| > n && shown[|shown| - 1 - n] == EntryOf(m)
    ensures n >= 10 ==> forall e :: e in shown && e.HistoryEntry? ==> e.role == Tool
  {
    WindowAt(WithTools, system, history, m, tools);
    if n >= 10 {
      OnlyToolsShown(system, tools);
    }
  }

  lemma {:induction false} CallsOfGrow(replies: nat -> Result<Reply, string>, asked: nat, i: nat, n: nat)
    requires i <= n
    ensures |CallsOf(replies, asked, i)| <= |CallsOf(replies, asked, n)|
  {
    if i < n {
      CallsOfGrow(replies, asked, i, n - 1);
    }
  }

  lemma ToolsFollow(v: Seen, n: nat, tools: seq<Message>)
    requires Spoken(v) && n <= |v.calls| && tools == v.messages[|Opened(v)|..|Opened(v)| + n]
    ensures forall k :: 0 <= k < n ==> tools[k].role == Tool
    ensures Filter(WithTools, tools) == tools
  {
    forall k | 0 <= k < n
      ensures tools[k].role == Tool
    {
      assert ToldAt(v, k);
    }
    AllAreKept(WithTools, tools, n);
    assert tools[..n] == tools;
  }

  lemma PrefixIs<T>(front: seq<T>, whole: seq<T>, n: nat, part: seq<T>)
    requires front <= whole && |front| + n <= |whole| && part == whole[|front|..|front| + n]
    ensures whole[..|front| + n] == front + part
  {}

  lemma ShownWithin(v: Seen, i: nat, n: nat)
    requires Spoken(v) && i < |v.requests| && n == |CallsOf(v.replies, v.asked, i)|
    ensures n <= |v.calls| && Opened(v) <= v.messages && |Opened(v)| + n <= |v.messages| && Shown(v, i)
  {
    CallsOfGrow(v.replies, v.asked, i, |v.requests|);
  }

  lemma ShownIs(v: Seen, i: nat, n: nat)
    requires Shown(v, i) && n == |CallsOf(v.replies, v.asked, i)|
    ensures v.requests[i].messages == Window(WithTools, v.system, v.messages[..|Opened(v)| + n])
  {}

  /** What the `i`-th request shows of the prompt, if the messages since are the results of tools. */
  lemma PromptShownIf(v: Seen, i: nat, n: nat, tools: seq<Message>, shown: seq<Entry>)
    requires Shown(v, i) && n == |CallsOf(v.replies, v.asked, i)| == |tools| && shown == v.requests[i].messages
    requires Opened(v) <= v.messages && tools == v.messages[|Opened(v)|..|Opened(v)| + n]
    requires Filter(WithTools, tools) == tools && forall k :: 0 <= k < n ==> tools[k].role == Tool
    ensures HistoryEntry(User, v.text) in shown <==> n < 10
    ensures n < 10 ==> |shown| > n && shown[|shown| - 1 - n] == HistoryEntry(User, v.text)
    ensures n >= 10 ==> forall e :: e in shown && e.HistoryEntry? ==> e.role == Tool
  {
    ShownIs(v, i, n);
    PrefixIs(Opened(v), v.messages, n, tools);
    PromptInPrefix(v, v.messages[..|Opened(v)| + n], n, tools, shown);
  }

  lemma PromptInPrefix(v: Seen, past: seq<Message>, n: nat, tools: seq<Message>, shown: seq<Entry>)
    requires past == Opened(v) + tools && n == |tools| && shown == Window(WithTools, v.system, past)
    requires Filter(WithTools, tools) == tools && forall k :: 0 <= k < n ==> tools[k].role == Tool
    ensures HistoryEntry(User, v.text) in shown <==> n < 10
    ensures n < 10 ==> |shown| > n && shown[|shown| - 1 - n] == HistoryEntry(User, v.text)
    ensures n >= 10 ==> forall e :: e in shown && e.HistoryEntry? ==> e.role == Tool
  {
    PromptInWindow(v.system, v.history, Message(User, v.text, v.now, None), tools, n, shown);
  }

  /**
   The user's prompt is in the `i`-th request of its turn if and only if at most nine tool results came before it;
   then it stands in front of just these.  After ten, a request shows nothing of the user's at all.
   */
  lemma PromptIsShown(v: Seen, i: nat, n: nat, shown: seq<Entry>)
    requires Spoken(v) && i < |v.requests|
    requires n == |CallsOf(v.replies, v.asked, i)| && shown == v.requests[i].messages
    ensures HistoryEntry(User, v.text) in shown <==> n < 10
    ensures n < 10 ==> |shown| > n && shown[|shown| - 1 - n] == HistoryEntry(User, v.text)
    ensures n >= 10 ==> forall e :: e in shown && e.HistoryEntry? ==> e.role == Tool
  {
    ShownWithin(v, i, n);
    var tools := v.messages[|Opened(v)|..|Opened(v)| + n];
    ToolsFollow(v, n, tools);
    PromptShownIf(v, i, n, tools, shown);
  }
}
