/** The `agent` entrypoint of 10-functional-api-agent.js: the thread's previous
    messages plus the question, then at most five rounds of "call the model,
    append its reply, stop if it asks for no tool, otherwise run each
    requested tool and append its result".

    The model is an oracle from the message list to a reply; the tools are an
    oracle from a call to its result or the exception it throws. */
module FunctionalAgent {
  import opened Wrappers
  import opened Messages

  /** `for (let i = 0; i < 5; i++)` */
  const MAX_CALLS := 5

  /** The only tool the entrypoint knows, as `toolsByName` holds it. */
  const ToolNames: set<string> := {"calculator"}

  /** What an AI reply carries: its text and its `tool_calls`. */
  datatype Reply = Reply(content: string, toolCalls: seq<ToolCall>)

  /** Why an invocation throws: `toolsByName[call.name]` is undefined, or the
      tool itself threw. */
  datatype AgentError = UnknownTool(name: string) | ToolFailed(id: string, message: string)

  /** The entrypoint's return value `{ messages, answer }`. */
  datatype AgentOutput = AgentOutput(messages: seq<Message>, answer: string)

  /** The finished loop: the message list and how many model calls it took. */
  datatype Run = Run(messages: seq<Message>, calls: nat)

  /** `getPreviousState() ?? { messages: [] }`, then the question. */
  function InitialMessages(prev: Option<seq<Message>>, question: string): (ms: seq<Message>)
    ensures |ms| >= 1 && ms[|ms| - 1] == Human(question)
    ensures prev.None? ==> ms == [Human(question)]
    ensures prev.Some? ==> ms[..|ms| - 1] == prev.value
  {
    prev.GetOr([]) + [Human(question)]
  }

  /** runTool on one call: a ToolMessage answering that call by its id. */
  function RunTool(call: ToolCall, tool: ToolCall -> Result<string, string>): (r: Result<Message, AgentError>)
    ensures call.name !in ToolNames ==> r == Failure(UnknownTool(call.name))
    ensures call.name in ToolNames && tool(call).Success? ==> r == Success(Tool(call.id, tool(call).value))
    ensures call.name in ToolNames && tool(call).Failure? ==> r == Failure(ToolFailed(call.id, tool(call).error))
    ensures r.Success? ==> r.value.Tool? && r.value.toolCallId == call.id
  {
    if call.name !in ToolNames then Failure(UnknownTool(call.name))
    else
      match tool(call)
      case Success(content) => Success(Tool(call.id, content))
      case Failure(e) => Failure(ToolFailed(call.id, e))
  }

  /** The tool messages for `calls`, run in order; the first failure ends it. */
  function RunTools(calls: seq<ToolCall>, tool: ToolCall -> Result<string, string>): (r: Result<seq<Message>, AgentError>)
    ensures r.Success? ==> |r.value| == |calls|
    ensures r.Success? ==> forall j :: 0 <= j < |calls| ==> RunTool(calls[j], tool) == Success(r.value[j])
  {
    if calls == [] then Success([])
    else
      match RunTool(calls[0], tool)
      case Failure(e) => Failure(e)
      case Success(m) =>
        match RunTools(calls[1..], tool)
        case Failure(e) => Failure(e)
        case Success(rest) => Success([m] + rest)
  }

  /** The loop from iteration `i` with the list `messages` so far. */
  function Loop(messages: seq<Message>, i: nat, llm: seq<Message> -> Reply,
                tool: ToolCall -> Result<string, string>): Result<Run, AgentError>
    decreases MAX_CALLS - i
  {
    if i >= MAX_CALLS then Success(Run(messages, i))
    else
      var res := llm(messages);
      var withReply := messages + [AI(res.content, res.toolCalls)];
      if |res.toolCalls| == 0 then Success(Run(withReply, i + 1))
      else
        match RunTools(res.toolCalls, tool)
        case Failure(e) => Failure(e)
        case Success(results) => Loop(withReply + results, i + 1, llm, tool)
  }

  /** The whole invocation, as a function of its inputs. */
  function AgentRun(prev: Option<seq<Message>>, question: string, llm: seq<Message> -> Reply,
                    tool: ToolCall -> Result<string, string>): Result<Run, AgentError>
  {
    Loop(InitialMessages(prev, question), 0, llm, tool)
  }

  /** When every call's tool answers, the tool messages are those answers in
      call order. */
  lemma {:induction false} RunToolsAllSucceed(calls: seq<ToolCall>, tool: ToolCall -> Result<string, string>, ms: seq<Message>)
    requires |ms| == |calls|
    requires forall j :: 0 <= j < |calls| ==> RunTool(calls[j], tool) == Success(ms[j])
    ensures RunTools(calls, tool) == Success(ms)
  {
    if calls != [] {
      assert RunTool(calls[0], tool) == Success(ms[0]);
      RunToolsAllSucceed(calls[1..], tool, ms[1..]);
      assert [ms[0]] + ms[1..] == ms;
    }
  }

  /** The first call whose tool fails decides the error. */
  lemma {:induction false} RunToolsFirstFailure(calls: seq<ToolCall>, tool: ToolCall -> Result<string, string>, k: nat)
    requires k < |calls|
    requires forall j :: 0 <= j < k ==> RunTool(calls[j], tool).Success?
    requires RunTool(calls[k], tool).Failure?
    ensures RunTools(calls, tool) == Failure(RunTool(calls[k], tool).error)
  {
    if k > 0 {
      assert RunTool(calls[0], tool).Success?;
      RunToolsFirstFailure(calls[1..], tool, k - 1);
    }
  }

  /** A round whose tools all answer: the loop goes on from the list with
      the reply and the answers appended. */
  lemma ToolRoundContinues(messages: seq<Message>, i: nat, llm: seq<Message> -> Reply,
                           tool: ToolCall -> Result<string, string>, results: seq<Message>)
    requires i < MAX_CALLS && |llm(messages).toolCalls| > 0
    requires |results| == |llm(messages).toolCalls|
    requires forall j :: 0 <= j < |results| ==> RunTool(llm(messages).toolCalls[j], tool) == Success(results[j])
    ensures Loop(messages, i, llm, tool)
      == Loop(messages + [AI(llm(messages).content, llm(messages).toolCalls)] + results, i + 1, llm, tool)
  {
    RunToolsAllSucceed(llm(messages).toolCalls, tool, results);
  }

  /** A round in which a tool fails: the loop fails with the first failure. */
  lemma ToolFailureEndsLoop(messages: seq<Message>, i: nat, llm: seq<Message> -> Reply,
                            tool: ToolCall -> Result<string, string>, k: nat)
    requires i < MAX_CALLS && k < |llm(messages).toolCalls|
    requires forall j :: 0 <= j < k ==> RunTool(llm(messages).toolCalls[j], tool).Success?
    requires RunTool(llm(messages).toolCalls[k], tool).Failure?
    ensures Loop(messages, i, llm, tool) == Failure(RunTool(llm(messages).toolCalls[k], tool).error)
  {
    RunToolsFirstFailure(llm(messages).toolCalls, tool, k);
  }

  /** The entrypoint: grows `messages` in a bounded loop and returns it with
      the content of its last message. */
  method Agent(prev: Option<seq<Message>>, question: string, llm: seq<Message> -> Reply,
               tool: ToolCall -> Result<string, string>)
    returns (r: Result<AgentOutput, AgentError>)
    ensures match AgentRun(prev, question, llm, tool)
      case Failure(e) => r == Failure(e)
      case Success(run) =>
        && run.messages != []
        && r == Success(AgentOutput(run.messages, run.messages[|run.messages| - 1].content))
  {
    var messages := InitialMessages(prev, question);
    for i := 0 to MAX_CALLS
      invariant |messages| > 0
      invariant AgentRun(prev, question, llm, tool) == Loop(messages, i, llm, tool)
    {
      ghost var before := messages;
      var res := llm(messages);
      messages := messages + [AI(res.content, res.toolCalls)];
      if |res.toolCalls| == 0 {
        PlainReplyEndsLoop(before, i, llm, tool);
        break;
      }
      var calls := res.toolCalls;
      ghost var base := messages;
      var k := 0;
      while k < |calls|
        invariant 0 <= k <= |calls|
        invariant |messages| == |base| + k && messages[..|base|] == base
        invariant forall j :: 0 <= j < k ==> RunTool(calls[j], tool) == Success(messages[|base| + j])
      {
        var m := RunTool(calls[k], tool);
        if m.Failure? {
          ToolFailureEndsLoop(before, i, llm, tool, k);
          return Failure(m.error);
        }
        messages := messages + [m.value];
        k := k + 1;
      }
      assert messages == base + messages[|base|..];
      ToolRoundContinues(before, i, llm, tool, messages[|base|..]);
    }
    return Success(AgentOutput(messages, messages[|messages| - 1].content));
  }

  /** Tool messages are not AI messages. */
  lemma ToolResultsHaveNoReply(calls: seq<ToolCall>, tool: ToolCall -> Result<string, string>)
    requires RunTools(calls, tool).Success?
    ensures CountKind(RunTools(calls, tool).value, AIMessage) == 0
  {
    var ms := RunTools(calls, tool).value;
    forall j | 0 <= j < |ms|
      ensures KindOf(ms[j]) != AIMessage
    {
      assert RunTool(calls[j], tool) == Success(ms[j]);
    }
    CountKindNone(ms, AIMessage);
  }

  /** One round that asks for tools, when its tools all answer: the reply, then
      the tool messages. */
  function Extended(messages: seq<Message>, res: Reply, tool: ToolCall -> Result<string, string>): seq<Message>
    requires RunTools(res.toolCalls, tool).Success?
  {
    messages + [AI(res.content, res.toolCalls)] + RunTools(res.toolCalls, tool).value
  }

  /** The list only grows, so what was there stays a prefix; the count of
      model calls stays within MAX_CALLS and goes up by at least one when
      the loop has iterations left. */
  lemma {:induction false} LoopGrows(messages: seq<Message>, i: nat, llm: seq<Message> -> Reply,
                                     tool: ToolCall -> Result<string, string>)
    requires i <= MAX_CALLS
    requires Loop(messages, i, llm, tool).Success?
    ensures var run := Loop(messages, i, llm, tool).value;
      && i <= run.calls <= MAX_CALLS
      && (i < MAX_CALLS ==> i < run.calls && |messages| < |run.messages|)
      && |messages| <= |run.messages| && run.messages[..|messages|] == messages
    decreases MAX_CALLS - i
  {
    var res := llm(messages);
    if i < MAX_CALLS && |res.toolCalls| > 0 {
      var next := Extended(messages, res, tool);
      LoopGrows(next, i + 1, llm, tool);
      var run := Loop(messages, i, llm, tool).value;
      assert run.messages[..|messages|] == run.messages[..|next|][..|messages|];
    }
  }

  /** A reply that asks for no tool ends the loop at once: it is appended and
      returned, and the model is not called again. */
  lemma PlainReplyEndsLoop(messages: seq<Message>, i: nat, llm: seq<Message> -> Reply,
                           tool: ToolCall -> Result<string, string>)
    requires i < MAX_CALLS && llm(messages).toolCalls == []
    ensures Loop(messages, i, llm, tool) == Success(Run(messages + [AI(llm(messages).content, [])], i + 1))
  {
  }

  /** Every reply the loop appends, except possibly the last message, asked
      for tools: the loop never goes on after a reply that asks for none. */
  lemma {:induction false} OnlyLastReplyIsPlain(messages: seq<Message>, i: nat, llm: seq<Message> -> Reply,
                                                tool: ToolCall -> Result<string, string>)
    requires i <= MAX_CALLS
    requires Loop(messages, i, llm, tool).Success?
    ensures var run := Loop(messages, i, llm, tool).value;
      forall j :: |messages| <= j < |run.messages| - 1 && run.messages[j].AI? ==> run.messages[j].toolCalls != []
    decreases MAX_CALLS - i
  {
    var run := Loop(messages, i, llm, tool).value;
    var res := llm(messages);
    if i < MAX_CALLS && |res.toolCalls| > 0 {
      var results := RunTools(res.toolCalls, tool).value;
      var next := Extended(messages, res, tool);
      assert run == Loop(next, i + 1, llm, tool).value;
      OnlyLastReplyIsPlain(next, i + 1, llm, tool);
      LoopGrows(next, i + 1, llm, tool);
      assert run.messages[..|next|] == next;
      forall j | |messages| <= j < |next|
        ensures run.messages[j].AI? ==> run.messages[j].toolCalls != []
      {
        assert run.messages[j] == next[j];
        if j > |messages| {
          assert next[j] == results[j - |messages| - 1];
          assert RunTool(res.toolCalls[j - |messages| - 1], tool) == Success(results[j - |messages| - 1]);
        }
      }
    }
  }

  /** The loop ends before using all its iterations only right after a reply
      that asks for no tool. */
  lemma {:induction false} LoopStopsOnPlainReply(messages: seq<Message>, i: nat, llm: seq<Message> -> Reply,
                                                 tool: ToolCall -> Result<string, string>)
    requires i <= MAX_CALLS
    requires Loop(messages, i, llm, tool).Success?
    ensures var run := Loop(messages, i, llm, tool).value;
      run.calls < MAX_CALLS ==>
        && run.messages != []
        && run.messages[|run.messages| - 1].AI?
        && run.messages[|run.messages| - 1].toolCalls == []
    decreases MAX_CALLS - i
  {
    var res := llm(messages);
    if i < MAX_CALLS && |res.toolCalls| > 0 {
      LoopStopsOnPlainReply(Extended(messages, res, tool), i + 1, llm, tool);
    }
  }

  /** A round appends one reply and then tool messages only: it adds one AI
      message to whatever follows it. */
  lemma RoundCountsOneReply(reply: Message, calls: seq<ToolCall>, tool: ToolCall -> Result<string, string>,
                            rest: seq<Message>)
    requires reply.AI? && RunTools(calls, tool).Success?
    ensures CountKind([reply] + RunTools(calls, tool).value + rest, AIMessage) == 1 + CountKind(rest, AIMessage)
  {
    var results := RunTools(calls, tool).value;
    assert CountKind([reply], AIMessage) == 1 by {
      assert [reply][..0] == [];
    }
    CountKindAppend([reply] + results, rest, AIMessage);
    CountKindAppend([reply], results, AIMessage);
    ToolResultsHaveNoReply(calls, tool);
  }

  /** What follows position `n` in a list that starts with `b`. */
  lemma SuffixSplit(a: seq<Message>, n: nat, b: seq<Message>)
    requires n <= |b| <= |a| && a[..|b|] == b
    ensures a[n..] == b[n..] + a[|b|..]
  {
    assert a == b + a[|b|..];
  }

  /** A list that starts with one tool-asking round after `messages` holds
      one more AI message after `messages` than after that round. */
  lemma ToolRoundCount(messages: seq<Message>, res: Reply, tool: ToolCall -> Result<string, string>,
                       ms: seq<Message>)
    requires RunTools(res.toolCalls, tool).Success?
    requires |Extended(messages, res, tool)| <= |ms| && ms[..|Extended(messages, res, tool)|] == Extended(messages, res, tool)
    ensures CountKind(ms[|messages|..], AIMessage) == 1 + CountKind(ms[|Extended(messages, res, tool)|..], AIMessage)
  {
    var next := Extended(messages, res, tool);
    var reply := AI(res.content, res.toolCalls);
    SuffixSplit(ms, |messages|, next);
    assert next[|messages|..] == [reply] + RunTools(res.toolCalls, tool).value;
    RoundCountsOneReply(reply, res.toolCalls, tool, ms[|next|..]);
  }

  /** Each model call appends exactly one AI message: the loop appends as many
      AI messages as it makes calls. */
  lemma {:induction false} LoopCountsReplies(messages: seq<Message>, i: nat, llm: seq<Message> -> Reply,
                                             tool: ToolCall -> Result<string, string>)
    requires i <= MAX_CALLS
    requires Loop(messages, i, llm, tool).Success?
    ensures var run := Loop(messages, i, llm, tool).value;
      |messages| <= |run.messages| && CountKind(run.messages[|messages|..], AIMessage) == run.calls - i
    decreases MAX_CALLS - i
  {
    LoopGrows(messages, i, llm, tool);
    var run := Loop(messages, i, llm, tool).value;
    if i < MAX_CALLS {
      var res := llm(messages);
      var reply := AI(res.content, res.toolCalls);
      if |res.toolCalls| > 0 {
        var next := Extended(messages, res, tool);
        assert run == Loop(next, i + 1, llm, tool).value;
        LoopCountsReplies(next, i + 1, llm, tool);
        LoopGrows(next, i + 1, llm, tool);
        ToolRoundCount(messages, res, tool, run.messages);
      } else {
        assert run.messages[|messages|..] == [reply];
        assert [reply][..0] == [];
      }
    } else {
      assert run.messages[|messages|..] == [];
    }
  }

  /** A round whose reply asks for tools appends that reply and then one
      ToolMessage per requested call, in call order, each answering its
      call's id; the loop then goes on from there. */
  lemma RoundAppendsToolMessages(messages: seq<Message>, i: nat, llm: seq<Message> -> Reply,
                                 tool: ToolCall -> Result<string, string>)
    requires i < MAX_CALLS
    requires |llm(messages).toolCalls| > 0
    requires Loop(messages, i, llm, tool).Success?
    ensures var res := llm(messages);
      var ms := Loop(messages, i, llm, tool).value.messages;
      var n := |messages|;
      && |ms| >= n + 1 + |res.toolCalls|
      && ms[..n] == messages
      && ms[n] == AI(res.content, res.toolCalls)
      && forall j :: 0 <= j < |res.toolCalls| ==>
           ms[n + 1 + j].Tool? && ms[n + 1 + j].toolCallId == res.toolCalls[j].id
  {
    var res := llm(messages);
    var results := RunTools(res.toolCalls, tool).value;
    var next := Extended(messages, res, tool);
    LoopGrows(next, i + 1, llm, tool);
    var ms := Loop(messages, i, llm, tool).value.messages;
    assert ms[..|next|] == next;
    forall j | 0 <= j < |res.toolCalls|
      ensures ms[|messages| + 1 + j].Tool? && ms[|messages| + 1 + j].toolCallId == res.toolCalls[j].id
    {
      assert ms[|messages| + 1 + j] == next[|messages| + 1 + j] == results[j];
      assert RunTool(res.toolCalls[j], tool) == Success(results[j]);
    }
    assert ms[..|messages|] == next[..|messages|];
  }

  /** End to end: the list is the previous messages, the question, and what
      the loop appended; one to MAX_CALLS replies; the last message is a
      reply without tool calls unless all MAX_CALLS calls were used; and every
      earlier reply asked for tools. */
  lemma AgentRunFacts(prev: Option<seq<Message>>, question: string, llm: seq<Message> -> Reply,
                      tool: ToolCall -> Result<string, string>)
    requires AgentRun(prev, question, llm, tool).Success?
    ensures var run := AgentRun(prev, question, llm, tool).value;
      var start := InitialMessages(prev, question);
      && 1 <= run.calls <= MAX_CALLS
      && |start| <= |run.messages| && run.messages[..|start|] == start
      && run.messages[|start| - 1] == Human(question)
      && CountKind(run.messages[|start|..], AIMessage) == run.calls
      && (run.calls < MAX_CALLS ==>
            run.messages[|run.messages| - 1].AI? && run.messages[|run.messages| - 1].toolCalls == [])
      && (forall j :: |start| <= j < |run.messages| - 1 && run.messages[j].AI? ==> run.messages[j].toolCalls != [])
  {
    var start := InitialMessages(prev, question);
    LoopGrows(start, 0, llm, tool);
    OnlyLastReplyIsPlain(start, 0, llm, tool);
    LoopStopsOnPlainReply(start, 0, llm, tool);
    LoopCountsReplies(start, 0, llm, tool);
    var run := AgentRun(prev, question, llm, tool).value;
    assert run.messages[|start| - 1] == run.messages[..|start|][|start| - 1];
  }
}
