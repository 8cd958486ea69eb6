# langchain-learning: the hand-written logic of the LangGraph demos, in Dafny

The repository is a set of tutorial scripts around a graph/LLM framework.
What its authors wrote themselves, and what this project models, is:

- the per-field reducers, node functions and routers of the small state
  graphs: the text pipeline (`02-multi-nodes.js`), the score → grade →
  feedback branching (`03-conditional-edges.js`), the capped guessing loop
  (`04-loop.js`), and the greeting graph, sentiment router, code-review loop
  and tool router of `workflow.js`;
- the sliding-window `messages` reducer of the memory chatbot, its history
  preview and its command dispatch (`08-memory-chatbot.js`);
- the in-memory notes store, the weather table and the message statistics of
  the memory agent (`09-memory-agent.js`);
- the bounded tool-calling loop of the functional-API agent
  (`10-functional-api-agent.js`);
- the curly-brace escaper of the few-shot prompt (`few-shot-learning.js`).

The graph engine is not rebuilt as a general engine. Each graph is a state
datatype. Each node returns a partial update, with one `Option` per field.
The update is merged through the reducer each field's annotation declares:
replace for `(_, next) => next`, append for `[...prev, ...next]`. A run is
the composition the edges fix. The linear graphs apply their nodes in
sequence. The loop graphs recurse, and their router's own cap bounds the
recursion. The number-guessing loop also counts node executions against the
framework's recursion limit, because the framework stops every invocation
that reaches it.

Model replies, tool bodies and `Math.random()` are inputs: an oracle function
from the prompt (or the message list) to the reply, and a draw oracle for
`Math.floor(Math.random() * n)`. The predicate `ValidDraw` gives the values
such a draw can take.

Files, one module each: `wrappers.dfy` (Option, Result), `text.dfy` (the
JavaScript string operations the scripts use: `includes`, `trim`,
`toUpperCase`, `\s`, integer rendering), `reducers.dfy`, `messages.dfy` (chat
messages, the shared tool router, counting by message class),
`multi_nodes.dfy`, `conditional_edges.dfy`, `guess_loop.dfy`, `workflow.dfy`,
`memory_chatbot.dfy`, `memory_agent.dfy`, `functional_agent.dfy`,
`few_shot.dfy`.

The notes store of `09-memory-agent.js` is a class whose `notes` map field
the `Notes` method updates in place. The statistics loop of that file and the
agent loop of `10-functional-api-agent.js` are methods with loops, proved
against specification functions. Everything else is functions and lemmas.

## Model

| member | source | states |
|---|---|---|
| `Reducers.Append` | langchain-learning/src/langgraph/02-multi-nodes.js:34-35 | the append reducer's result is `prev` followed by `next`, of length \|prev\|+\|next\| |
| `Reducers.MergeReplace` | langchain-learning/src/langgraph/02-multi-nodes.js:24-32 | a replace field takes the update's value when the node returns one and keeps its value otherwise |
| `Reducers.MergeAppend` | langchain-learning/src/langgraph/02-multi-nodes.js:34-37 | an append field grows by the update when the node returns one and is unchanged otherwise |
| `Reducers.MergeReplaceIdempotent` | langchain-learning/src/langgraph/02-multi-nodes.js:25 | merging the same replace update twice equals merging it once |
| `Reducers.MergeAppendAccumulates` | langchain-learning/src/langgraph/02-multi-nodes.js:35 | two append merges accumulate both updates in order |
| `MultiNodes.Execute` | langchain-learning/src/langgraph/02-multi-nodes.js:50-80 | a node step keeps `original`, rewrites `text` (upper-case, prefix "【重要】" or suffix "！！！") and grows `steps` by exactly its one label |
| `MultiNodes.RunPathLog` | langchain-learning/src/langgraph/02-multi-nodes.js:96-104 | running any node sequence keeps `original` and appends one label per node in execution order |
| `MultiNodes.InvokeResult` | langchain-learning/src/langgraph/02-multi-nodes.js:96-121 | after the run, text = "【重要】" + upper(input) + "！！！", steps = input steps + ["转大写","添加前缀","添加后缀"], original = the input's |
| `MultiNodes.InvokeWithoutSteps` | langchain-learning/src/langgraph/02-multi-nodes.js:118-121 | the script's own call ends in exactly that state |
| `ConditionalEdges.GradeOf` | langchain-learning/src/langgraph/03-conditional-edges.js:47-58 | grade A iff score ≥ 90, B iff 80 ≤ score < 90, C iff 60 ≤ score < 80, D iff score < 60 |
| `ConditionalEdges.GradeMonotone` | langchain-learning/src/langgraph/03-conditional-edges.js:51-54 | a higher score never yields a lower grade |
| `ConditionalEdges.GradeRouter` | langchain-learning/src/langgraph/03-conditional-edges.js:103-113 | A → "excellent", B → "good", C → "pass", every other grade → "fail", each in both directions |
| `ConditionalEdges.RouterInMap` | langchain-learning/src/langgraph/03-conditional-edges.js:140-145 | every router key is a key of the destination map |
| `ConditionalEdges.RunFeedback` | langchain-learning/src/langgraph/03-conditional-edges.js:61-82 | a feedback node sets only `feedback`; `score` and `grade` are unchanged |
| `ConditionalEdges.InvokeByBand` | langchain-learning/src/langgraph/03-conditional-edges.js:131-150 | end to end: routing never fails, `grade` then exactly one feedback node runs, and the final state holds the score, its grade and its band's feedback |
| `ConditionalEdges.SampleScores` | langchain-learning/src/langgraph/03-conditional-edges.js:167-173 | scores 95, 82, 65, 45 reach excellent, good, pass and fail with their texts |
| `GuessLoop.GuessNode` | langchain-learning/src/langgraph/04-loop.js:68-92 | attempts + 1, one history entry for the new guess, and no update to target, hint or isCorrect |
| `GuessLoop.FirstGuessRange` | langchain-learning/src/langgraph/04-loop.js:74-76 | with hint "" the guess lies in [1, 100] |
| `GuessLoop.TooBigRange` | langchain-learning/src/langgraph/04-loop.js:77-79 | after "大了" the guess lies in [1, previous guess] |
| `GuessLoop.TooSmallRange` | langchain-learning/src/langgraph/04-loop.js:80-82 | after "小了" the guess lies in [previous guess + 1, 100] when the previous guess is below 100 |
| `GuessLoop.CheckNode` | langchain-learning/src/langgraph/04-loop.js:95-108 | isCorrect iff guess = target; hint "大了" iff guess > target, "小了" iff guess < target; no other field updated |
| `GuessLoop.ShouldContinue` | langchain-learning/src/langgraph/04-loop.js:123-143 | "end" iff correct or attempts ≥ 20, "continue" otherwise |
| `GuessLoop.GuessStepInRange` | langchain-learning/src/langgraph/04-loop.js:74-82 | from any resumable state with a target in [1, 100], the next guess stays in [1, 100] |
| `GuessLoop.PassFacts` | langchain-learning/src/langgraph/04-loop.js:160-168 | one guess/check pass: attempts + 1, one more history entry, target untouched, verdict on the new guess, and either a resumable state or a reason to end |
| `GuessLoop.RunFromOutcome` | langchain-learning/src/langgraph/04-loop.js:123-168 | a finished run made at most 20 guesses, two executions each, target unchanged, and it ended on a right guess or at the cap; a stopped run used exactly the limit |
| `GuessLoop.RunFromHistory` | langchain-learning/src/langgraph/04-loop.js:87-91 | a finished run has one history entry per guess and begins with the history it started from (entries are only appended) |
| `GuessLoop.RunFromFinishes` | langchain-learning/src/langgraph/04-loop.js:160-168 | with room for 40 node executions the loop always reaches END |
| `GuessLoop.RunFromInRange` | langchain-learning/src/langgraph/04-loop.js:74-82 | with valid draws and a target in [1, 100], the final guess lies in [1, 100] |
| `GuessLoop.CorrectedRunEnds` | langchain-learning/src/langgraph/04-loop.js:123-168 | with a limit of 40 executions the game ends at END after 1 to 20 guesses, on a right guess or after 20 |
| `GuessLoop.AsWrittenCapUnreachable` | langchain-learning/src/langgraph/04-loop.js:182 | with the default limit a run only reaches END on a right guess within 12 attempts; otherwise the framework stops it |
| `GuessLoop.AsWrittenStopsEarly` | langchain-learning/src/langgraph/04-loop.js:123 | target 100 with zero draws: as written the recursion limit stops the run, corrected it ends after 20 wrong guesses |
| `Workflow.GreetNode` | langchain-learning/src/workflow.js:72-76 | the result is "你好，" then the input then "！欢迎学习 LangGraph！", and `input` is not updated |
| `Workflow.GreetInjective` | langchain-learning/src/workflow.js:72-91 | two inputs greet alike only when they are equal |
| `Workflow.RouteBySentiment` | langchain-learning/src/workflow.js:279-288 | "positive" iff the sentiment contains "积极"; "negative" iff it contains "消极" but not "积极"; "neutral" otherwise |
| `Workflow.SentimentRouteInMap` | langchain-learning/src/workflow.js:299-303 | every router key is in the destination map |
| `Workflow.SentimentRunByKeyword` | langchain-learning/src/workflow.js:233-307 | end to end: the trimmed sentiment picks exactly one response node by those rules and the response is its emoji and trimmed reply |
| `Workflow.CapturedMatches` | langchain-learning/src/workflow.js:417 | a capture at an index (one line after "反馈" + colon + whitespace, starting where the greedy `\s*` backtracks to) is exactly what the expression gives there |
| `Workflow.CaptureUnique` | langchain-learning/src/workflow.js:417 | at each index the capture is determined by the text: two captures there are equal |
| `Workflow.FeedbackMeaning` | langchain-learning/src/workflow.js:417-418 | feedback is non-empty iff a capture exists somewhere; it is then the capture at the leftmost index that has one |
| `Workflow.FeedbackAbsent` | langchain-learning/src/workflow.js:417-418 | without "反馈：" or "反馈:" the feedback is "" |
| `Workflow.FeedbackOfFormattedReply` | langchain-learning/src/workflow.js:409-418 | a reply in the requested format yields exactly its comment |
| `Workflow.GenerateCode` | langchain-learning/src/workflow.js:378-397 | iteration = previous + 1, code = the trimmed reply, nothing else updated |
| `Workflow.ReviewCode` | langchain-learning/src/workflow.js:400-428 | approved iff the trimmed reply contains "通过" and not "需要改进"; feedback is the parsed comment |
| `Workflow.ShouldContinue` | langchain-learning/src/workflow.js:431-443 | "end" iff iteration ≥ 3 or approved, "continue" otherwise |
| `Workflow.Pass` | langchain-learning/src/workflow.js:378-428 | one generate/review pass counts one iteration, keeps the requirement and sets approval from the trimmed review reply |
| `Workflow.RunReviewBounded` | langchain-learning/src/workflow.js:446-454 | from iteration i < 3: at most 3 − i generations, one iteration per generation, ending approved or at 3, requirement unchanged |
| `Workflow.InvokeReviewBounded` | langchain-learning/src/workflow.js:446-461 | the script's run generates 1 to 3 times and stops early only on approval |
| `Messages.ShouldCallTools` | langchain-learning/src/workflow.js:575-586 | "tools" iff the last message has a non-empty tool call list, "end" otherwise, and an error on an empty list |
| `Messages.ShouldCallToolsRoutesInMap` | langchain-learning/src/workflow.js:593-596 | on a non-empty list the router answers with a key of its destination map |
| `Messages.RouteAfterReply` | langchain-learning/src/workflow.js:559-597 | after the agent node appends a reply, the run goes to the tools exactly when that reply asks for them |
| `MemoryChatbot.BoundedAppend` | langchain-learning/src/langgraph/08-memory-chatbot.js:92-103 | prev ++ next when it has at most 20 messages, else its last 20; length min(\|prev\|+\|next\|, 20); always a suffix of prev ++ next |
| `MemoryChatbot.BoundedAppendKeepsLast` | langchain-learning/src/langgraph/08-memory-chatbot.js:94-100 | a non-empty update's last message is kept |
| `MemoryChatbot.BoundedAppendCompose` | langchain-learning/src/langgraph/08-memory-chatbot.js:98-101 | windowing after each update equals windowing once, so the history never exceeds 20 |
| `MemoryChatbot.ChatNode` | langchain-learning/src/langgraph/08-memory-chatbot.js:121-133 | the model sees the system prompt then the history, and the node's update is its one reply |
| `MemoryChatbot.SendMessage` | langchain-learning/src/langgraph/08-memory-chatbot.js:160-171 | the human message and the reply both pass through the reducer; the returned text is the reply, which ends the history |
| `MemoryChatbot.GetConversationInfo` | langchain-learning/src/langgraph/08-memory-chatbot.js:179-187 | count and list agree; no snapshot or no messages gives 0 and [] |
| `MemoryChatbot.Preview` | langchain-learning/src/langgraph/08-memory-chatbot.js:205-208 | content over 60 characters shows its first 60 and "...", shorter content unchanged |
| `MemoryChatbot.PreviewBounded` | langchain-learning/src/langgraph/08-memory-chatbot.js:205-208 | a preview has at most 63 characters and is the content or its elided start |
| `MemoryChatbot.HistoryLines` | langchain-learning/src/langgraph/08-memory-chatbot.js:200-211 | the placeholder line for an empty history, else one numbered line per message in order |
| `MemoryChatbot.Classify` | langchain-learning/src/langgraph/08-memory-chatbot.js:246-278 | on the trimmed input: "/quit", "/history", "/new", empty, else send, in that order |
| `MemoryChatbot.SentTextIsClean` | langchain-learning/src/langgraph/08-memory-chatbot.js:248-278 | what is sent is non-blank, has no surrounding whitespace and classifies the same again |
| `MemoryAgent.LookupWeather` | langchain-learning/src/langgraph/09-memory-agent.js:96-109 | a listed city gets its table entry, any other city the default {20, "晴", 50, "微风"} |
| `MemoryAgent.WeatherReport` | langchain-learning/src/langgraph/09-memory-agent.js:111 | the report is the city, "天气：", then the condition, temperature (°C), humidity (%) and wind of the looked-up entry |
| `MemoryAgent.UnlistedCitiesShareFallback` | langchain-learning/src/langgraph/09-memory-agent.js:104-111 | unlisted cities all get the same figures and the same report after their name |
| `MemoryAgent.GetReply` | langchain-learning/src/langgraph/09-memory-agent.js:141-143 | no key → the error; a saved non-empty text → that text; otherwise "备忘录「k」不存在" |
| `MemoryAgent.NotesStore.constructor` | langchain-learning/src/langgraph/09-memory-agent.js:119 | the store starts empty |
| `MemoryAgent.NotesStore.Notes` | langchain-learning/src/langgraph/09-memory-agent.js:132-155 | save with a blank key or content returns the error and changes nothing; save sets store[k] = c and leaves other keys; get, list and unknown actions change nothing |
| `MemoryAgent.GetAfterSave` | langchain-learning/src/langgraph/09-memory-agent.js:136-143 | after save(k, c), get(k) returns c and every other key reads as before |
| `MemoryAgent.GetUnsaved` | langchain-learning/src/langgraph/09-memory-agent.js:141-143 | a never-saved key reads as "备忘录「k」不存在" |
| `MemoryAgent.ListShowsEverySavedNote` | langchain-learning/src/langgraph/09-memory-agent.js:145-150 | the list is "暂无备忘录" iff nothing is saved, and otherwise contains a "- k: v" line for every saved key |
| `MemoryAgent.CountsPartition` | langchain-learning/src/langgraph/09-memory-agent.js:349-356 | every message is of exactly one class, so the four class counts add up to the total |
| `MemoryAgent.CountMessageTypes` | langchain-learning/src/langgraph/09-memory-agent.js:348-356 | the three counters are the numbers of human, AI and tool messages, and they add up to the messages that are not system messages |
| `FunctionalAgent.InitialMessages` | langchain-learning/src/langgraph/10-functional-api-agent.js:40-41 | the previous messages (or none) followed by one HumanMessage of the question |
| `FunctionalAgent.RunTool` | langchain-learning/src/langgraph/10-functional-api-agent.js:33-36 | an unknown tool name fails; a known tool's answer becomes a ToolMessage with the call's id and that answer as content; a known tool that throws fails with that call's id and error |
| `FunctionalAgent.RunTools` | langchain-learning/src/langgraph/10-functional-api-agent.js:47 | one tool message per call, in call order |
| `FunctionalAgent.RunToolsAllSucceed` | langchain-learning/src/langgraph/10-functional-api-agent.js:47 | when every tool answers, the appended messages are exactly those answers in call order |
| `FunctionalAgent.RunToolsFirstFailure` | langchain-learning/src/langgraph/10-functional-api-agent.js:33-47 | the first failing call decides the invocation's error |
| `FunctionalAgent.Agent` | langchain-learning/src/langgraph/10-functional-api-agent.js:39-51 | the loop's result is the specified run: its messages, and as answer the content of the last message |
| `FunctionalAgent.LoopGrows` | langchain-learning/src/langgraph/10-functional-api-agent.js:41-48 | the message list only grows, keeping its prefix, and the calls stay within 5 |
| `FunctionalAgent.PlainReplyEndsLoop` | langchain-learning/src/langgraph/10-functional-api-agent.js:44-46 | a reply without tool calls is appended and ends the loop at once, with no further model call |
| `FunctionalAgent.OnlyLastReplyIsPlain` | langchain-learning/src/langgraph/10-functional-api-agent.js:43-48 | every appended AI message before the last message asked for tools |
| `FunctionalAgent.LoopStopsOnPlainReply` | langchain-learning/src/langgraph/10-functional-api-agent.js:46 | the loop stops before 5 calls only right after a reply with no tool calls |
| `FunctionalAgent.LoopCountsReplies` | langchain-learning/src/langgraph/10-functional-api-agent.js:43-45 | each model call appends exactly one AI message |
| `FunctionalAgent.RoundAppendsToolMessages` | langchain-learning/src/langgraph/10-functional-api-agent.js:44-47 | a reply asking for tools is appended first, then one ToolMessage per call in order with matching ids |
| `FunctionalAgent.AgentRunFacts` | langchain-learning/src/langgraph/10-functional-api-agent.js:39-51 | 1 to 5 model calls; input prefix and question kept; one AI message per call; the last message is a tool-free reply unless all 5 calls were used; every earlier reply asked for tools |
| `FewShot.ReplaceAll` | langchain-learning/src/few-shot-learning.js:44 | a global replace of a character that does not occur changes nothing |
| `FewShot.EscapeIsEscapeEach` | langchain-learning/src/few-shot-learning.js:44 | the two passes equal doubling each brace and keeping every other character, in order |
| `FewShot.EscapeLength` | langchain-learning/src/few-shot-learning.js:44 | output length = input length + number of braces |
| `FewShot.EscapeNoBraces` | langchain-learning/src/few-shot-learning.js:44 | text without braces is returned unchanged |
| `FewShot.UnescapeEscape` | langchain-learning/src/few-shot-learning.js:42-44 | collapsing "{{" and "}}" on the output recovers the input |
| `FewShot.EscapeInjective` | langchain-learning/src/few-shot-learning.js:44 | different texts never escape alike |
| `FewShot.EscapeExamples` | langchain-learning/src/few-shot-learning.js:48-52 | same length and order as the examples, with question and answer escaped |
| `FewShot.EscapedExamplesReadBack` | langchain-learning/src/few-shot-learning.js:42-52 | every escaped example reads back through the template as the original |

## Left out

- Model calls (`ChatDeepSeek.invoke`, `bindTools`, streaming) are oracle parameters; a model or network failure is not modelled.
- The framework itself (`StateGraph`, `Annotation`, `ToolNode`, `MemorySaver`, `getState`, `getPreviousState`, `entrypoint`/`task`) is not modelled as an engine. A thread's checkpoint enters as the history or previous messages it holds.
- The calculator tool evaluates arbitrary JavaScript through `Function`. Tool bodies are a parameter that gives a result or an error.
- `Math.random()` is a draw oracle. Its values are constrained by `ValidDraw`, not modelled as floating point.
- JavaScript numbers are floating point. Scores, guesses, attempts and iterations are modelled as unbounded integers, which the scripts only ever give them.
- Text.ToUpper: upper-cases only the ASCII letters a–z; JavaScript's `toUpperCase` applies the full Unicode case mapping (the Chinese labels and prefixes have none).
- MemoryChatbot.Preview: counts characters, while JavaScript's `length` and `substring` count UTF-16 code units; the two differ for characters outside the Basic Multilingual Plane such as emoji.
- MemoryAgent.NotesStore.Notes: `list` shows keys in insertion order, while `Object.keys` lists integer-like keys first in ascending numeric order; keys that name `Object.prototype` members (such as "toString") are not modelled.
- MemoryAgent.LookupWeather: a city named after an `Object.prototype` member ("toString", "constructor", "hasOwnProperty", "__proto__") finds an inherited, truthy value in the plain object `weatherData`, not the fallback; the model gives such a city the fallback.
- MemoryAgent.WeatherReport: for those same prototype-member cities the source reports `undefined` for every figure; the model reports the fallback figures.
- The readline loop, `currentThreadId`, `Date.now()` thread ids, `setTimeout`, `process.exit` and all console output are I/O.
- The content pipeline of `workflow.js` (lines 117-185), the streaming example, `05-with-llm.js` and the nodes `agentNode`/`analyzeSentiment`: every node there is a model call, so only their wiring and routers are modelled.
- `agent.js`, `06-react-agent.js` and `01-hello-world.js` repeat the `workflow.js` router and greeting, which are modelled once.
- `res.tool_calls?.length` treats a missing list like an empty one; replies always carry a list here.

## Findings

| source | as written | input that shows it | evidently intended | confidence | as-written member | corrected member |
|---|---|---|---|---|---|---|
| langchain-learning/src/langgraph/04-loop.js:123 | MAX_ATTEMPTS is 20, but every guess costs two node executions (guess, check) and the graph is compiled without a recursion limit, so the framework's default of 25 executions per invocation stops the run after the 13th guess | target 100 with `Math.random()` always 0: the guesses are 1, 2, 3, … and never right | the router's "达到最大次数" route ends the game at END after 20 wrong guesses, which needs a limit of at least 40 | not executed; relies on the framework's documented default limit of 25, and 40 executions exceed it whatever its exact off-by-one | `GuessLoop.AsWrittenStopsEarly` | `GuessLoop.CorrectedRunEnds` |
