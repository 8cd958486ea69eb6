/** The grading graph of 03-conditional-edges.js: a grade node, a router on the
    grade, and four feedback nodes that each lead to the end. Every field
    replaces. */
module ConditionalEdges {
  import opened Wrappers
  import opened Reducers

  datatype GradeState = GradeState(score: int, grade: string, feedback: string)
  datatype GradeUpdate = GradeUpdate(score: Option<int>, grade: Option<string>, feedback: Option<string>)

  const Initial := GradeState(0, "", "")

  function Merge(s: GradeState, u: GradeUpdate): GradeState {
    GradeState(MergeReplace(s.score, u.score), MergeReplace(s.grade, u.grade), MergeReplace(s.feedback, u.feedback))
  }

  /** The if/else chain of gradeNode on the score. */
  function GradeOf(score: int): (g: string)
    ensures g == "A" <==> score >= 90
    ensures g == "B" <==> 80 <= score < 90
    ensures g == "C" <==> 60 <= score < 80
    ensures g == "D" <==> score < 60
  {
    if score >= 90 then "A"
    else if score >= 80 then "B"
    else if score >= 60 then "C"
    else "D"
  }

  /** gradeNode updates only `grade`. */
  function GradeNode(s: GradeState): GradeUpdate {
    GradeUpdate(None, Some(GradeOf(s.score)), None)
  }

  /** The position of a grade, D lowest; any other text ranks below D. */
  function Rank(g: string): int {
    if g == "A" then 4 else if g == "B" then 3 else if g == "C" then 2 else if g == "D" then 1 else 0
  }

  /** A higher score never yields a lower grade. */
  lemma GradeMonotone(a: int, b: int)
    requires a <= b
    ensures Rank(GradeOf(a)) <= Rank(GradeOf(b))
    ensures Rank(GradeOf(a)) >= 1
  {
  }

  /** gradeRouter's switch; the default case catches every other grade. */
  function GradeRouter(s: GradeState): (key: string)
    ensures key == "excellent" <==> s.grade == "A"
    ensures key == "good" <==> s.grade == "B"
    ensures key == "pass" <==> s.grade == "C"
    ensures key == "fail" <==> s.grade !in {"A", "B", "C"}
  {
    match s.grade
    case "A" => "excellent"
    case "B" => "good"
    case "C" => "pass"
    case _ => "fail"
  }

  datatype FeedbackNode = Excellent | Good | Pass | Fail

  /** The destination map of the conditional edge out of `grade`. */
  const Destinations: map<string, FeedbackNode> :=
    map["excellent" := Excellent, "good" := Good, "pass" := Pass, "fail" := Fail]

  /** Routing never falls outside the destination map. */
  lemma RouterInMap(s: GradeState)
    ensures GradeRouter(s) in Destinations
  {
  }

  const ExcellentText := "🎉 太棒了！你是学霸！继续保持！"
  const GoodText := "👍 不错！再努力一点就能拿 A！"
  const PassText := "💪 及格了，但还有提升空间，加油！"
  const FailText := "📚 需要更加努力！建议找老师辅导。"

  function FeedbackText(n: FeedbackNode): string {
    match n
    case Excellent => ExcellentText
    case Good => GoodText
    case Pass => PassText
    case Fail => FailText
  }

  function NodeName(n: FeedbackNode): string {
    match n
    case Excellent => "excellent"
    case Good => "good"
    case Pass => "pass"
    case Fail => "fail"
  }

  /** Running a feedback node: its constant message becomes `feedback`, and
      since it returns nothing else, `score` and `grade` stay as they were. */
  function RunFeedback(n: FeedbackNode, s: GradeState): (r: GradeState)
    ensures r.score == s.score && r.grade == s.grade
    ensures r.feedback == FeedbackText(n)
  {
    Merge(s, GradeUpdate(None, None, Some(FeedbackText(n))))
  }

  /** A run's final state and the names of the nodes it executed, in order. */
  datatype Run = Run(state: GradeState, trace: seq<string>)

  /** A router key outside the destination map. */
  datatype RoutingError = RoutingError(key: string)

  /** `app.invoke(input)` along START → grade → (router) → feedback node → END. */
  function Invoke(input: GradeUpdate): Result<Run, RoutingError> {
    var s0 := Merge(Initial, input);
    var s1 := Merge(s0, GradeNode(s0));
    var key := GradeRouter(s1);
    if key in Destinations then
      var n := Destinations[key];
      Success(Run(RunFeedback(n, s1), ["grade", NodeName(n)]))
    else Failure(RoutingError(key))
  }

  /** The feedback that belongs to a score's band. */
  function BandFeedback(score: int): string {
    if score >= 90 then ExcellentText
    else if score >= 80 then GoodText
    else if score >= 60 then PassText
    else FailText
  }

  /** End to end: the run never fails to route, executes `grade` and then
      exactly one feedback node, keeps the score, and ends with the grade and
      feedback of the score's band. */
  lemma InvokeByBand(score: int)
    ensures Invoke(GradeUpdate(Some(score), None, None)).Success?
    ensures var run := Invoke(GradeUpdate(Some(score), None, None)).value;
      && |run.trace| == 2 && run.trace[0] == "grade"
      && run.trace[1] in Destinations && run.trace[1] != "grade"
      && run.state == GradeState(score, GradeOf(score), BandFeedback(score))
  {
  }

  /** The four scores the script tries. */
  lemma SampleScores()
    ensures Invoke(GradeUpdate(Some(95), None, None)) == Success(Run(GradeState(95, "A", ExcellentText), ["grade", "excellent"]))
    ensures Invoke(GradeUpdate(Some(82), None, None)) == Success(Run(GradeState(82, "B", GoodText), ["grade", "good"]))
    ensures Invoke(GradeUpdate(Some(65), None, None)) == Success(Run(GradeState(65, "C", PassText), ["grade", "pass"]))
    ensures Invoke(GradeUpdate(Some(45), None, None)) == Success(Run(GradeState(45, "D", FailText), ["grade", "fail"]))
  {
  }
}
