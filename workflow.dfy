/** The plain-code parts of workflow.js: the greeting graph, the sentiment
    router and its graph, and the code-review loop with its reply parser and
    its iteration cap. The model is an oracle from prompt (and, in the loop,
    iteration number) to reply text. */
module Workflow {
  import opened Wrappers
  import opened Reducers
  import opened Text

  // ---------------------------------------------------------------------
  // Example 1: START → greet → END

  datatype SimpleState = SimpleState(input: string, result: string)
  datatype SimpleUpdate = SimpleUpdate(input: Option<string>, result: Option<string>)

  function MergeSimple(s: SimpleState, u: SimpleUpdate): SimpleState {
    SimpleState(MergeReplace(s.input, u.input), MergeReplace(s.result, u.result))
  }

  const GreetPrefix := "你好，"
  const GreetSuffix := "！欢迎学习 LangGraph！"

  /** greetNode: the input framed by the greeting, in `result` only. */
  function GreetNode(s: SimpleState): (u: SimpleUpdate)
    ensures u.input.None? && u.result.Some?
    ensures var g := u.result.value;
      && |g| == |GreetPrefix| + |s.input| + |GreetSuffix|
      && g[..|GreetPrefix|] == GreetPrefix
      && g[|GreetPrefix|..|GreetPrefix| + |s.input|] == s.input
      && g[|GreetPrefix| + |s.input|..] == GreetSuffix
  {
    SimpleUpdate(None, Some(GreetPrefix + s.input + GreetSuffix))
  }

  /** `simpleApp.invoke({ input })` */
  function InvokeGreet(input: string): SimpleState {
    var s0 := MergeSimple(SimpleState("", ""), SimpleUpdate(Some(input), None));
    MergeSimple(s0, GreetNode(s0))
  }

  /** The greeting determines the name: two inputs greet alike only if equal. */
  lemma GreetInjective(a: string, b: string)
    requires InvokeGreet(a).result == InvokeGreet(b).result
    ensures a == b
  {
    var ga, gb := InvokeGreet(a).result, InvokeGreet(b).result;
    assert |a| == |b|;
    assert a == ga[|GreetPrefix|..|GreetPrefix| + |a|] == gb[|GreetPrefix|..|GreetPrefix| + |b|] == b;
  }

  // ---------------------------------------------------------------------
  // Example 3: START → analyze → (routeBySentiment) → positive | negative | neutral → END

  datatype SentimentState = SentimentState(text: string, sentiment: string, response: string)

  const Positive := "积极"
  const Negative := "消极"

  /** routeBySentiment: "积极" is checked first, then "消极". */
  function RouteBySentiment(s: SentimentState): (key: string)
    ensures key == "positive" <==> Contains(s.sentiment, Positive)
    ensures key == "negative" <==> !Contains(s.sentiment, Positive) && Contains(s.sentiment, Negative)
    ensures key == "neutral" <==> !Contains(s.sentiment, Positive) && !Contains(s.sentiment, Negative)
  {
    if Contains(s.sentiment, Positive) then "positive"
    else if Contains(s.sentiment, Negative) then "negative"
    else "neutral"
  }

  datatype ResponseNode = PositiveResponse | NegativeResponse | NeutralResponse

  const SentimentRoutes: map<string, ResponseNode> :=
    map["positive" := PositiveResponse, "negative" := NegativeResponse, "neutral" := NeutralResponse]

  /** Every key the router returns is in the destination map. */
  lemma SentimentRouteInMap(s: SentimentState)
    ensures RouteBySentiment(s) in SentimentRoutes
  {
  }

  function AnalyzePrompt(text: string): string {
    "分析以下文本的情感倾向，只输出一个词：积极、消极 或 中性。\n文本：" + text
  }

  function ResponsePrompt(n: ResponseNode, text: string): string {
    match n
    case PositiveResponse => "用户说：\"" + text + "\"。这是积极的情感，请生成一个鼓励性的回复，20字以内。"
    case NegativeResponse => "用户说：\"" + text + "\"。这是消极的情感，请生成一个安慰性的回复，20字以内。"
    case NeutralResponse => "用户说：\"" + text + "\"。请生成一个友好的回复，20字以内。"
  }

  function Emoji(n: ResponseNode): string {
    match n
    case PositiveResponse => "😊 "
    case NegativeResponse => "💪 "
    case NeutralResponse => "👋 "
  }

  datatype SentimentRun = SentimentRun(state: SentimentState, node: ResponseNode)

  /** `sentimentApp.invoke({ text })` with the model's reply to each prompt given by `llm`. */
  function InvokeSentiment(text: string, llm: string -> string): Result<SentimentRun, string> {
    var s0 := SentimentState(text, "", "");
    var s1 := s0.(sentiment := Trim(llm(AnalyzePrompt(text))));
    var key := RouteBySentiment(s1);
    if key in SentimentRoutes then
      var n := SentimentRoutes[key];
      Success(SentimentRun(s1.(response := Emoji(n) + Trim(llm(ResponsePrompt(n, text)))), n))
    else Failure(key)
  }

  /** End to end: routing never fails; a trimmed sentiment containing "积极"
      runs the positive node, one containing only "消极" the negative node,
      any other the neutral node; the response is that node's emoji and its
      trimmed reply, and the text is kept. */
  lemma SentimentRunByKeyword(text: string, llm: string -> string)
    ensures InvokeSentiment(text, llm).Success?
    ensures var run := InvokeSentiment(text, llm).value;
      var sentiment := Trim(llm(AnalyzePrompt(text)));
      && run.state.text == text && run.state.sentiment == sentiment
      && (run.node == PositiveResponse <==> Contains(sentiment, Positive))
      && (run.node == NegativeResponse <==> !Contains(sentiment, Positive) && Contains(sentiment, Negative))
      && (run.node == NeutralResponse <==> !Contains(sentiment, Positive) && !Contains(sentiment, Negative))
      && run.state.response == Emoji(run.node) + Trim(llm(ResponsePrompt(run.node, text)))
  {
  }

  // ---------------------------------------------------------------------
  // The review reply parser: `result.match(/反馈[：:]\s*(.+)/)`

  predicate IsColon(c: char) {
    c == '：' || c == ':'
  }

  /** Where a `.+` starting at `p` stops: the end of the line. */
  function LineEnd(t: string, p: nat): (e: nat)
    requires p <= |t|
    ensures p <= e <= |t|
    ensures forall k :: p <= k < e ==> !IsLineTerminator(t[k])
    ensures e == |t| || IsLineTerminator(t[e])
    decreases |t| - p
  {
    if p < |t| && !IsLineTerminator(t[p]) then LineEnd(t, p + 1) else p
  }

  /** Where a greedy `\s*` starting at `p` stops. */
  function WhitespaceEnd(t: string, p: nat): (e: nat)
    requires p <= |t|
    ensures p <= e <= |t|
    ensures forall k :: p <= k < e ==> IsWhitespace(t[k])
    ensures e == |t| || !IsWhitespace(t[e])
    decreases |t| - p
  {
    if p < |t| && IsWhitespace(t[p]) then WhitespaceEnd(t, p + 1) else p
  }

  /** `\s*(.+)` from `q`, with `\s*` holding `k` characters and giving them
      back one at a time until `.+` can take at least one character. */
  function CaptureFrom(t: string, q: nat, k: nat): Option<string>
    requires q + k <= |t|
    decreases k
  {
    var p := q + k;
    if p < |t| && !IsLineTerminator(t[p]) then Some(t[p..LineEnd(t, p)])
    else if k == 0 then None
    else CaptureFrom(t, q, k - 1)
  }

  /** "反馈" followed by a full-width or ASCII colon at index `i`. */
  predicate MarkerAt(t: string, i: nat) {
    i + 3 <= |t| && t[i] == '反' && t[i + 1] == '馈' && IsColon(t[i + 2])
  }

  /** The regular expression tried at index `i`. */
  function MatchAt(t: string, i: nat): Option<string>
    requires i <= |t|
  {
    if MarkerAt(t, i) then CaptureFrom(t, i + 3, WhitespaceEnd(t, i + 3) - (i + 3)) else None
  }

  /** The regular expression tried at `i`, then at each later index. */
  function SearchFrom(t: string, i: nat): Option<string>
    requires i <= |t|
    decreases |t| - i
  {
    match MatchAt(t, i)
    case Some(c) => Some(c)
    case None => if i < |t| then SearchFrom(t, i + 1) else None
  }

  /** `feedbackMatch ? feedbackMatch[1] : ""` */
  function FeedbackOf(t: string): string {
    SearchFrom(t, 0).GetOr("")
  }

  /** Every character of `t` in [lo, hi) is whitespace. */
  ghost predicate WhitespaceRun(t: string, lo: nat, hi: nat) {
    forall m :: lo <= m < hi && m < |t| ==> IsWhitespace(t[m])
  }

  /** What a capture is: a non-empty run of one line, after the colon and some
      whitespace, reaching the end of its line, and starting at the last place
      the greedy `\s*` can give back to, since every later start inside the
      whitespace is a line terminator, where `.+` cannot begin. */
  ghost predicate CapturedAt(t: string, i: nat, c: string) {
    exists p :: CaptureSpan(t, i, p, c)
  }

  ghost predicate CaptureSpan(t: string, i: nat, p: nat, c: string) {
    && MarkerAt(t, i) && i + 3 <= p && p + |c| <= |t|
    && WhitespaceRun(t, i + 3, p)
    && c == t[p..p + |c|] && |c| > 0
    && (forall k :: 0 <= k < |c| ==> !IsLineTerminator(c[k]))
    && (p + |c| == |t| || IsLineTerminator(t[p + |c|]))
    && (forall k :: p < k < |t| && WhitespaceRun(t, i + 3, k) ==> IsLineTerminator(t[k]))
  }

  /** A start inside the whitespace after the colon, with every later start
      inside it a line terminator, begins a capture that runs to the line end. */
  lemma CaptureSpanAt(t: string, i: nat, p: nat)
    requires MarkerAt(t, i) && i + 3 <= p <= WhitespaceEnd(t, i + 3) && p < |t| && !IsLineTerminator(t[p])
    requires forall k' :: p < k' <= WhitespaceEnd(t, i + 3) && k' < |t| ==> IsLineTerminator(t[k'])
    ensures CaptureSpan(t, i, p, t[p..LineEnd(t, p)])
  {
    var w := WhitespaceEnd(t, i + 3);
    var e := LineEnd(t, p);
    var c := t[p..e];
    assert WhitespaceRun(t, i + 3, p);
    forall k | 0 <= k < |c|
      ensures !IsLineTerminator(c[k])
    {
      assert c[k] == t[p + k];
    }
    forall k | p < k < |t| && WhitespaceRun(t, i + 3, k)
      ensures IsLineTerminator(t[k])
    {
      assert k <= w;
    }
  }

  lemma {:induction false} CaptureFromShape(t: string, i: nat, k: nat)
    requires MarkerAt(t, i) && i + 3 + k <= WhitespaceEnd(t, i + 3)
    requires forall k' :: i + 3 + k < k' <= WhitespaceEnd(t, i + 3) && k' < |t| ==> IsLineTerminator(t[k'])
    ensures CaptureFrom(t, i + 3, k).Some? ==> CapturedAt(t, i, CaptureFrom(t, i + 3, k).value)
    decreases k
  {
    var w := WhitespaceEnd(t, i + 3);
    var p := i + 3 + k;
    if p < |t| && !IsLineTerminator(t[p]) {
      CaptureSpanAt(t, i, p);
    } else if k > 0 {
      CaptureFromShape(t, i, k - 1);
    }
  }

  /** A match at `i` is a capture at `i`. */
  lemma MatchAtShape(t: string, i: nat)
    requires i <= |t|
    ensures MatchAt(t, i).Some? ==> CapturedAt(t, i, MatchAt(t, i).value)
  {
    if MarkerAt(t, i) {
      CaptureFromShape(t, i, WhitespaceEnd(t, i + 3) - (i + 3));
    }
  }

  /** `.+` from the start of a capture stops where the capture ends. */
  lemma LineEndOfCapture(t: string, i: nat, p: nat, c: string)
    requires CaptureSpan(t, i, p, c)
    ensures LineEnd(t, p) == p + |c|
  {
    forall k | p <= k < p + |c|
      ensures !IsLineTerminator(t[k])
    {
      assert t[k] == c[k - p];
    }
  }

  lemma {:induction false} CaptureFromFinds(t: string, i: nat, p: nat, c: string, k: nat)
    requires CaptureSpan(t, i, p, c)
    requires p <= i + 3 + k <= |t| && WhitespaceRun(t, i + 3, i + 3 + k)
    ensures CaptureFrom(t, i + 3, k) == Some(c)
    decreases k
  {
    var q := i + 3 + k;
    if q == p {
      assert t[p] == c[0];
      LineEndOfCapture(t, i, p, c);
    } else {
      assert q < |t| ==> IsLineTerminator(t[q]);
      CaptureFromFinds(t, i, p, c, k - 1);
    }
  }

  /** A capture at `i` is what the expression tried at `i` gives. */
  lemma CapturedMatches(t: string, i: nat, c: string)
    requires i <= |t|
    ensures CapturedAt(t, i, c) ==> MatchAt(t, i) == Some(c)
  {
    if CapturedAt(t, i, c) {
      var p: nat :| CaptureSpan(t, i, p, c);
      var w := WhitespaceEnd(t, i + 3);
      assert p <= w;
      CaptureFromFinds(t, i, p, c, w - (i + 3));
    }
  }

  /** The capture at an index is determined by the text: the expression has
      one answer there. */
  lemma CaptureUnique(t: string, i: nat, c1: string, c2: string)
    requires CapturedAt(t, i, c1) && CapturedAt(t, i, c2)
    ensures c1 == c2
  {
    var p: nat :| CaptureSpan(t, i, p, c1);
    CapturedMatches(t, i, c1);
    CapturedMatches(t, i, c2);
  }

  /** No index in [lo, hi) has a match. */
  ghost predicate NoMatchBetween(t: string, lo: nat, hi: nat) {
    forall m :: lo <= m < hi && m <= |t| ==> MatchAt(t, m).None?
  }

  /** A miss at `i` extends a run of misses that starts at `i + 1`. */
  lemma NoMatchExtend(t: string, i: nat, j: nat)
    requires i <= |t| && MatchAt(t, i).None? && NoMatchBetween(t, i + 1, j)
    ensures NoMatchBetween(t, i, j)
  {
  }

  /** The search returns the match at the first index that has one, and
      finds nothing only when no index from `i` on has one. */
  lemma {:induction false} SearchFromFirst(t: string, i: nat)
    requires i <= |t|
    ensures SearchFrom(t, i).None? ==> NoMatchBetween(t, i, |t| + 1)
    ensures SearchFrom(t, i).Some? ==>
      exists j :: i <= j <= |t| && MatchAt(t, j) == SearchFrom(t, i) && NoMatchBetween(t, i, j)
    decreases |t| - i
  {
    if MatchAt(t, i).Some? {
      assert MatchAt(t, i) == SearchFrom(t, i) && NoMatchBetween(t, i, i);
    } else if i < |t| {
      assert SearchFrom(t, i) == SearchFrom(t, i + 1);
      SearchFromFirst(t, i + 1);
      if SearchFrom(t, i + 1).Some? {
        var j :| i + 1 <= j <= |t| && MatchAt(t, j) == SearchFrom(t, i + 1) && NoMatchBetween(t, i + 1, j);
        NoMatchExtend(t, i, j);
      } else {
        NoMatchExtend(t, i, |t| + 1);
      }
    } else {
      assert SearchFrom(t, i).None? && NoMatchBetween(t, i, |t| + 1);
    }
  }

  /** A capture anywhere means the search finds something. */
  lemma CaptureMeansMatch(t: string)
    ensures (exists j: nat, c :: CapturedAt(t, j, c)) ==> SearchFrom(t, 0).Some?
  {
    SearchFromFirst(t, 0);
    forall j: nat, c | CapturedAt(t, j, c)
      ensures SearchFrom(t, 0).Some?
    {
      var p: nat :| CaptureSpan(t, j, p, c);
      CapturedMatches(t, j, c);
    }
  }

  /** The parsed feedback is non-empty exactly when there is a capture
      somewhere; it is then the capture at the first index that has one: one
      line of text after the first "反馈" + colon that is followed, past
      optional whitespace, by a non-empty line. */
  lemma FeedbackMeaning(t: string)
    ensures FeedbackOf(t) != "" <==> exists j: nat, c :: CapturedAt(t, j, c)
    ensures FeedbackOf(t) != "" ==>
      exists j: nat :: CapturedAt(t, j, FeedbackOf(t))
        && forall m: nat, c :: m < j ==> !CapturedAt(t, m, c)
  {
    SearchFromFirst(t, 0);
    CaptureMeansMatch(t);
    if SearchFrom(t, 0).Some? {
      var j :| 0 <= j <= |t| && MatchAt(t, j) == SearchFrom(t, 0) && NoMatchBetween(t, 0, j);
      MatchAtShape(t, j);
      var c := MatchAt(t, j).value;
      var p: nat :| CaptureSpan(t, j, p, c);
      assert c != "";
      forall m: nat, c' | m < j
        ensures !CapturedAt(t, m, c')
      {
        CapturedMatches(t, m, c');
      }
    }
  }

  /** Without "反馈：" or "反馈:" in the reply the feedback is "". */
  lemma FeedbackAbsent(t: string)
    requires !Contains(t, "反馈：") && !Contains(t, "反馈:")
    ensures FeedbackOf(t) == ""
  {
    ContainsIff(t, "反馈：");
    ContainsIff(t, "反馈:");
    forall j | 0 <= j <= |t|
      ensures MatchAt(t, j).None?
    {
      assert !OccursAt(t, "反馈：", j) && !OccursAt(t, "反馈:", j);
    }
    SearchFromFirst(t, 0);
  }

  lemma {:induction false} NoMarkerBefore(pre: string, t: string, i: nat)
    requires i <= |pre| && |pre| + 3 <= |t| && t[..|pre|] == pre
    requires forall j :: 0 <= j < |pre| ==> pre[j] != '反'
    ensures SearchFrom(t, i) == SearchFrom(t, |pre|)
    decreases |pre| - i
  {
    if i < |pre| {
      assert t[i] == pre[i];
      NoMarkerBefore(pre, t, i + 1);
    }
  }

  /** The reply the review prompt asks for: text without "反", then
      "反馈：" and a one-line comment that starts with a visible character. The
      feedback is exactly that comment. */
  lemma FeedbackOfFormattedReply(pre: string, comment: string)
    requires forall j :: 0 <= j < |pre| ==> pre[j] != '反'
    requires |comment| > 0 && !IsWhitespace(comment[0])
    requires forall k :: 0 <= k < |comment| ==> !IsLineTerminator(comment[k])
    ensures FeedbackOf(pre + "反馈：" + comment) == comment
  {
    var t := pre + "反馈：" + comment;
    var q := |pre| + 3;
    assert t[..|pre|] == pre;
    NoMarkerBefore(pre, t, 0);
    assert MarkerAt(t, |pre|);
    assert t[q] == comment[0];
    assert WhitespaceEnd(t, q) == q;
    assert forall k :: q <= k < |t| ==> t[k] == comment[k - q];
    assert LineEnd(t, q) == |t| by {
      LineEndAtEnd(t, q);
    }
    assert t[q..] == comment;
  }

  lemma {:induction false} LineEndAtEnd(t: string, p: nat)
    requires p <= |t|
    requires forall k :: p <= k < |t| ==> !IsLineTerminator(t[k])
    ensures LineEnd(t, p) == |t|
    decreases |t| - p
  {
    if p < |t| {
      LineEndAtEnd(t, p + 1);
    }
  }

  // ---------------------------------------------------------------------
  // Example 4: START → generate → review → (shouldContinue) → generate | END

  datatype CodeReviewState = CodeReviewState(requirement: string, code: string, feedback: string, isApproved: bool, iteration: int)
  datatype CodeReviewUpdate = CodeReviewUpdate(
    requirement: Option<string>, code: Option<string>, feedback: Option<string>,
    isApproved: Option<bool>, iteration: Option<int>)

  const ReviewInitial := CodeReviewState("", "", "", false, 0)

  function MergeReview(s: CodeReviewState, u: CodeReviewUpdate): CodeReviewState {
    CodeReviewState(
      MergeReplace(s.requirement, u.requirement), MergeReplace(s.code, u.code),
      MergeReplace(s.feedback, u.feedback), MergeReplace(s.isApproved, u.isApproved),
      MergeReplace(s.iteration, u.iteration))
  }

  const MAX_ITERATIONS := 3

  /** generateCode's prompt: an improvement request while there is feedback,
      otherwise the requirement. */
  function GeneratePrompt(s: CodeReviewState): string {
    if s.feedback != "" then
      "根据以下反馈改进代码：\n反馈：" + s.feedback + "\n当前代码：" + s.code + "\n请直接输出改进后的代码，不要解释。"
    else
      "请用 JavaScript 实现以下需求，只输出代码：\n" + s.requirement
  }

  /** generateCode given the model's reply: the trimmed reply is the code, and
      the iteration counter goes up by one. */
  function GenerateCode(s: CodeReviewState, reply: string): (u: CodeReviewUpdate)
    ensures u.iteration == Some(s.iteration + 1)
    ensures u.code == Some(Trim(reply))
    ensures u.requirement.None? && u.feedback.None? && u.isApproved.None?
  {
    CodeReviewUpdate(None, Some(Trim(reply)), None, None, Some(s.iteration + 1))
  }

  function ReviewPrompt(s: CodeReviewState): string {
    "审查以下代码，判断是否符合要求且代码质量良好。\n需求：" + s.requirement + "\n代码：" + s.code
      + "\n\n请按以下格式回复：\n状态：通过 或 需要改进\n反馈：（如果需要改进，说明问题，20字以内）"
  }

  /** reviewCode given the model's reply: approved iff the trimmed reply says
      "通过" and never "需要改进"; the feedback is the parsed comment. */
  function ReviewCode(s: CodeReviewState, reply: string): (u: CodeReviewUpdate)
    ensures u.isApproved == Some(Contains(Trim(reply), "通过") && !Contains(Trim(reply), "需要改进"))
    ensures u.feedback == Some(FeedbackOf(Trim(reply)))
    ensures u.requirement.None? && u.code.None? && u.iteration.None?
  {
    var result := Trim(reply);
    var isApproved := Contains(result, "通过") && !Contains(result, "需要改进");
    CodeReviewUpdate(None, None, Some(FeedbackOf(result)), Some(isApproved), None)
  }

  /** The router after `review`: stop at the cap whatever the verdict, stop on
      approval, otherwise generate again. */
  function ShouldContinue(s: CodeReviewState): (key: string)
    ensures key == "end" <==> s.iteration >= MAX_ITERATIONS || s.isApproved
    ensures key == "continue" <==> s.iteration < MAX_ITERATIONS && !s.isApproved
  {
    if s.iteration >= MAX_ITERATIONS then "end"
    else if s.isApproved then "end"
    else "continue"
  }

  /** One pass of the loop: `generate`, then `review`, each merged. The pass
      counts one iteration, keeps the requirement, and leaves the review's
      verdict on the new code. */
  function Pass(s: CodeReviewState, llm: (int, string) -> string): (s2: CodeReviewState)
    ensures s2.iteration == s.iteration + 1
    ensures s2.requirement == s.requirement
    ensures var s1 := MergeReview(s, GenerateCode(s, llm(s.iteration + 1, GeneratePrompt(s))));
      var verdict := Trim(llm(s1.iteration, ReviewPrompt(s1)));
      s2.isApproved == (Contains(verdict, "通过") && !Contains(verdict, "需要改进"))
  {
    var s1 := MergeReview(s, GenerateCode(s, llm(s.iteration + 1, GeneratePrompt(s))));
    MergeReview(s1, ReviewCode(s1, llm(s1.iteration, ReviewPrompt(s1))))
  }

  datatype ReviewRun = ReviewRun(state: CodeReviewState, generations: nat)

  /** Passes from `s`, following the route out of review; `llm` gives the
      reply to a prompt in a given iteration. */
  function RunReview(s: CodeReviewState, llm: (int, string) -> string): ReviewRun
    decreases if s.iteration < MAX_ITERATIONS then MAX_ITERATIONS - s.iteration else 0
  {
    var s2 := Pass(s, llm);
    if ShouldContinue(s2) == "end" then ReviewRun(s2, 1)
    else
      var rest := RunReview(s2, llm);
      ReviewRun(rest.state, rest.generations + 1)
  }

  /** `codeReviewApp.invoke({ requirement })` */
  function InvokeReview(requirement: string, llm: (int, string) -> string): ReviewRun {
    RunReview(MergeReview(ReviewInitial, CodeReviewUpdate(Some(requirement), None, None, None, None)), llm)
  }

  /** From iteration `i` below the cap, the loop generates at most
      MAX_ITERATIONS - i times, ends at the cap or on an approval, counts one
      iteration per generation, and never changes the requirement. */
  lemma {:induction false} RunReviewBounded(s: CodeReviewState, llm: (int, string) -> string)
    requires 0 <= s.iteration < MAX_ITERATIONS
    ensures var run := RunReview(s, llm);
      && 1 <= run.generations <= MAX_ITERATIONS - s.iteration
      && run.state.iteration == s.iteration + run.generations
      && (run.state.isApproved || run.state.iteration == MAX_ITERATIONS)
      && run.state.requirement == s.requirement
    decreases MAX_ITERATIONS - s.iteration
  {
    var s2 := Pass(s, llm);
    if ShouldContinue(s2) != "end" {
      RunReviewBounded(s2, llm);
    }
  }

  /** The script's run: `generate` runs once to three times, and the loop ends
      with an approved review or after the third generation. */
  lemma InvokeReviewBounded(requirement: string, llm: (int, string) -> string)
    ensures var run := InvokeReview(requirement, llm);
      && 1 <= run.generations <= MAX_ITERATIONS
      && run.state.iteration == run.generations
      && (run.state.iteration < MAX_ITERATIONS ==> run.state.isApproved)
      && run.state.requirement == requirement
  {
    RunReviewBounded(MergeReview(ReviewInitial, CodeReviewUpdate(Some(requirement), None, None, None, None)), llm);
  }
}
