/** 08-memory-chatbot.js: a one-node chat graph whose `messages` reducer keeps
    a sliding window of the latest messages, the history display and the
    command-line dispatch. The checkpoint store is abstracted to the history a
    thread had before the turn. */
module MemoryChatbot {
  import opened Wrappers
  import opened Text
  import opened Messages

  const MAX_MESSAGES := 20

  /** The newest `n` elements of `s`, as `s.slice(-n)` once `s` is longer. */
  function Newest<T>(s: seq<T>, n: nat): (r: seq<T>)
    ensures |r| == if |s| > n then n else |s|
    ensures r == s[|s| - |r|..]
  {
    if |s| > n then s[|s| - n..] else s
  }

  /** The `messages` reducer: concatenation, cut to the newest 20. */
  function BoundedAppend(prev: seq<Message>, next: seq<Message>): (r: seq<Message>)
    ensures |prev| + |next| <= MAX_MESSAGES ==> r == prev + next
    ensures |prev| + |next| > MAX_MESSAGES ==> r == (prev + next)[|prev| + |next| - MAX_MESSAGES..]
    ensures |r| == if |prev| + |next| > MAX_MESSAGES then MAX_MESSAGES else |prev| + |next|
    ensures r == (prev + next)[|prev| + |next| - |r|..]
  {
    Newest(prev + next, MAX_MESSAGES)
  }

  /** The window never drops the update's newest message. */
  lemma BoundedAppendKeepsLast(prev: seq<Message>, next: seq<Message>)
    requires next != []
    ensures var r := BoundedAppend(prev, next);
      r != [] && r[|r| - 1] == next[|next| - 1]
  {
    var r := BoundedAppend(prev, next);
    assert r[|r| - 1] == (prev + next)[|prev| + |next| - 1];
  }

  /** Cutting early loses nothing a later cut would keep: windowing after each
      update is windowing once after all of them. */
  lemma NewestCompose<T>(x: seq<T>, c: seq<T>, n: nat)
    ensures Newest(Newest(x, n) + c, n) == Newest(x + c, n)
  {
    if |x| > n {
      var y := x[|x| - n..];
      var l := (y + c)[|c|..];
      var r := (x + c)[|x| + |c| - n..];
      assert |l| == n == |r|;
      forall i | 0 <= i < n
        ensures l[i] == r[i]
      {
        if |c| + i < n {
          assert l[i] == y[|c| + i] == x[|x| - n + |c| + i];
        } else {
          assert l[i] == c[|c| + i - n] == r[i];
        }
      }
      assert Newest(y + c, n) == l;
      assert Newest(x + c, n) == r;
    }
  }

  /** So a history that went through the reducer turn by turn is the newest 20
      of everything ever sent, and stays within 20. */
  lemma BoundedAppendCompose(prev: seq<Message>, a: seq<Message>, b: seq<Message>)
    ensures BoundedAppend(BoundedAppend(prev, a), b) == BoundedAppend(prev + a, b)
    ensures |BoundedAppend(BoundedAppend(prev, a), b)| <= MAX_MESSAGES
  {
    NewestCompose(prev + a, b, MAX_MESSAGES);
    assert prev + a + b == prev + (a + b);
  }

  const SystemPrompt := "你是一个友好、有帮助的 AI 助手。\n\n你的特点：\n1. 记住用户在对话中告诉你的信息（名字、偏好、之前讨论的话题等）\n2. 回答要简洁但有帮助\n3. 可以进行日常对话，也可以回答技术问题\n4. 保持对话的连贯性，适当引用之前的对话内容\n\n当用户第一次和你对话时，你可以友好地问候并询问怎么称呼对方。"

  /** chatNode: the model sees the system prompt and then the history; its
      reply is the node's whole update. */
  function ChatNode(messages: seq<Message>, llm: seq<Message> -> string): (next: seq<Message>)
    ensures next == [AI(llm([System(SystemPrompt)] + messages), [])]
  {
    var messagesToSend := [System(SystemPrompt)] + messages;
    [AI(llm(messagesToSend), [])]
  }

  datatype Turn = Turn(history: seq<Message>, reply: string)

  /** sendMessage on a thread whose saved history is `history`: the human
      message goes through the reducer, the chat node runs on the result, its
      reply goes through the reducer, and the last message's content is returned. */
  function SendMessage(history: seq<Message>, userMessage: string, llm: seq<Message> -> string): (t: Turn)
    ensures var withHuman := BoundedAppend(history, [Human(userMessage)]);
      && withHuman[|withHuman| - 1] == Human(userMessage)
      && t.reply == llm([System(SystemPrompt)] + withHuman)
      && t.history == BoundedAppend(withHuman, [AI(t.reply, [])])
      && t.history[|t.history| - 1] == AI(t.reply, [])
      && |t.history| <= MAX_MESSAGES
  {
    var withHuman := BoundedAppend(history, [Human(userMessage)]);
    BoundedAppendKeepsLast(history, [Human(userMessage)]);
    var result := BoundedAppend(withHuman, ChatNode(withHuman, llm));
    BoundedAppendKeepsLast(withHuman, ChatNode(withHuman, llm));
    Turn(result, result[|result| - 1].content)
  }

  /** The `values` of a thread's snapshot: absent for an unknown thread, and
      its `messages` possibly absent. */
  datatype ChatValues = ChatValues(messages: Option<seq<Message>>)

  datatype ConversationInfo = ConversationInfo(messageCount: nat, messages: seq<Message>)

  /** getConversationInfo: `values?.messages?.length || 0` and `values?.messages || []`. */
  function GetConversationInfo(values: Option<ChatValues>): (info: ConversationInfo)
    ensures info.messageCount == |info.messages|
    ensures values.Some? && values.value.messages.Some? ==> info.messages == values.value.messages.value
    ensures values.None? || values.value.messages.None? ==> info.messageCount == 0 && info.messages == []
  {
    match values
    case Some(ChatValues(Some(ms))) => ConversationInfo(|ms|, ms)
    case _ => ConversationInfo(0, [])
  }

  const PREVIEW_LENGTH := 60
  const Ellipsis := "..."

  /** showHistory's content column: longer contents are cut to 60 characters
      and marked with "...". */
  function Preview(content: string): (r: string)
    ensures |content| <= PREVIEW_LENGTH ==> r == content
    ensures |content| > PREVIEW_LENGTH ==>
      |r| == PREVIEW_LENGTH + |Ellipsis| && r[..PREVIEW_LENGTH] == content[..PREVIEW_LENGTH] && r[PREVIEW_LENGTH..] == Ellipsis
  {
    if |content| > PREVIEW_LENGTH then content[..PREVIEW_LENGTH] + Ellipsis else content
  }

  /** A preview never exceeds 63 characters and always starts the content:
      all of it, or all but an elided tail. */
  lemma PreviewBounded(content: string)
    ensures |Preview(content)| <= PREVIEW_LENGTH + |Ellipsis|
    ensures Preview(content) == content
      || (Preview(content) == content[..PREVIEW_LENGTH] + Ellipsis && |content| > PREVIEW_LENGTH)
  {
  }

  function Role(m: Message): string {
    if m.Human? then "👤 用户" else "🤖 AI"
  }

  /** One numbered history line. */
  function HistoryLine(index: nat, m: Message): string {
    "   " + NatToString(index + 1) + ". " + Role(m) + ": " + Preview(m.content)
  }

  /** The lines showHistory prints between its rulers. */
  function HistoryLines(info: ConversationInfo): (lines: seq<string>)
    ensures info.messageCount == 0 ==> lines == ["   （暂无对话记录）"]
    ensures info.messageCount > 0 ==>
      |lines| == |info.messages| && forall i :: 0 <= i < |lines| ==> lines[i] == HistoryLine(i, info.messages[i])
  {
    if info.messageCount == 0 then ["   （暂无对话记录）"]
    else seq(|info.messages|, i requires 0 <= i < |info.messages| => HistoryLine(i, info.messages[i]))
  }

  /** What askQuestion does with a line of input. */
  datatype Command = Quit | ShowHistory | NewConversation | Ignore | Send(text: string)

  /** The trimmed input is compared with "/quit", "/history" and "/new" in turn,
      an empty one is skipped, and anything else is sent as it stands trimmed. */
  function Classify(input: string): (c: Command)
    ensures c == Quit <==> Trim(input) == "/quit"
    ensures c == ShowHistory <==> Trim(input) == "/history"
    ensures c == NewConversation <==> Trim(input) == "/new"
    ensures c == Ignore <==> Trim(input) == ""
    ensures c.Send? <==> Trim(input) !in {"/quit", "/history", "/new", ""}
    ensures c.Send? ==> c.text == Trim(input)
  {
    var trimmedInput := Trim(input);
    if trimmedInput == "/quit" then Quit
    else if trimmedInput == "/history" then ShowHistory
    else if trimmedInput == "/new" then NewConversation
    else if trimmedInput == "" then Ignore
    else Send(trimmedInput)
  }

  /** What reaches the model is never blank and has no surrounding whitespace,
      and sending it again as typed gives the same message. */
  lemma SentTextIsClean(input: string)
    requires Classify(input).Send?
    ensures var t := Classify(input).text;
      t != "" && !IsWhitespace(t[0]) && !IsWhitespace(t[|t| - 1]) && Classify(t) == Classify(input)
  {
    TrimIdempotent(input);
  }
}
