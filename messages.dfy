/** Chat messages as the agents exchange them, and the router shared by the
    tool-calling graphs. */
module Messages {
  import opened Wrappers

  /** A tool invocation requested by a model reply. */
  datatype ToolCall = ToolCall(id: string, name: string, args: map<string, string>)

  /** `HumanMessage`, `AIMessage` (with its `tool_calls`), `ToolMessage` and
      `SystemMessage`. Only an AI message carries tool calls. */
  datatype Message =
    | Human(content: string)
    | AI(content: string, toolCalls: seq<ToolCall>)
    | Tool(toolCallId: string, content: string)
    | System(content: string)

  /** `lastMessage.tool_calls && lastMessage.tool_calls.length > 0` */
  predicate RequestsTools(m: Message) {
    m.AI? && |m.toolCalls| > 0
  }

  /** Reading a property of the missing last message of an empty list. */
  datatype JsError = TypeError

  /** The router after the agent node: to the tool node while the last message
      asks for a tool, otherwise to the end. An empty list has no last message,
      and reading its `tool_calls` throws. */
  function ShouldCallTools(messages: seq<Message>): (r: Result<string, JsError>)
    ensures messages == [] <==> r == Failure(TypeError)
    ensures r == Success("tools") <==> messages != [] && RequestsTools(messages[|messages| - 1])
    ensures r == Success("end") <==> messages != [] && !RequestsTools(messages[|messages| - 1])
  {
    if |messages| == 0 then Failure(TypeError)
    else
      var last := messages[|messages| - 1];
      if RequestsTools(last) then Success("tools") else Success("end")
  }

  /** The routes of the agent/tool graphs and where each leads. */
  const AgentRoutes: map<string, string> := map["tools" := "tools", "end" := "__end__"]

  /** Whenever the router answers, its answer is a key of the destination map. */
  lemma ShouldCallToolsRoutesInMap(messages: seq<Message>)
    requires messages != []
    ensures ShouldCallTools(messages).Success?
    ensures ShouldCallTools(messages).value in AgentRoutes
  {
  }

  /** After the agent node appends a model reply, the router sends the run to
      the tool node exactly when that reply asks for tools. */
  lemma RouteAfterReply(history: seq<Message>, reply: Message)
    ensures ShouldCallTools(history + [reply]) ==
            (if RequestsTools(reply) then Success("tools") else Success("end"))
  {
  }

  /** The class of a message, as `msg.constructor.name` tells it. */
  datatype Kind = HumanMessage | AIMessage | ToolMessage | SystemMessage

  function KindOf(m: Message): Kind {
    match m
    case Human(_) => HumanMessage
    case AI(_, _) => AIMessage
    case Tool(_, _) => ToolMessage
    case System(_) => SystemMessage
  }

  /** How many of `msgs` are of kind `k`. */
  function CountKind(msgs: seq<Message>, k: Kind): (n: nat)
    ensures n <= |msgs|
  {
    if msgs == [] then 0
    else CountKind(msgs[..|msgs| - 1], k) + (if KindOf(msgs[|msgs| - 1]) == k then 1 else 0)
  }

  /** Counting splits over concatenation. */
  lemma {:induction false} CountKindAppend(a: seq<Message>, b: seq<Message>, k: Kind)
    ensures CountKind(a + b, k) == CountKind(a, k) + CountKind(b, k)
    decreases |b|
  {
    if b != [] {
      assert (a + b)[..|a + b| - 1] == a + b[..|b| - 1];
      CountKindAppend(a, b[..|b| - 1], k);
    } else {
      assert a + b == a;
    }
  }

  /** A list with no message of kind `k` counts none. */
  lemma {:induction false} CountKindNone(msgs: seq<Message>, k: Kind)
    requires forall j :: 0 <= j < |msgs| ==> KindOf(msgs[j]) != k
    ensures CountKind(msgs, k) == 0
  {
    if msgs != [] {
      CountKindNone(msgs[..|msgs| - 1], k);
    }
  }
}
