/** The number-guessing loop of 04-loop.js: guess → check → (router) → guess …
    until the guess is right or MAX_ATTEMPTS guesses were made. `history`
    appends; every other field replaces.

    `Math.random()` is an input: the run takes a draw oracle that, for attempt
    `k` and multiplier `n`, gives the value of `Math.floor(Math.random() * n)`.
    The run also counts node executions against the graph's recursion limit,
    because the framework stops every invocation that reaches it. */
module GuessLoop {
  import opened Wrappers
  import opened Reducers
  import opened Text

  datatype GuessState = GuessState(target: int, guess: int, attempts: int, hint: string, history: seq<string>, isCorrect: bool)
  datatype GuessUpdate = GuessUpdate(
    target: Option<int>, guess: Option<int>, attempts: Option<int>,
    hint: Option<string>, history: Option<seq<string>>, isCorrect: Option<bool>)

  const Initial := GuessState(0, 0, 0, "", [], false)

  function Merge(s: GuessState, u: GuessUpdate): GuessState {
    GuessState(
      MergeReplace(s.target, u.target), MergeReplace(s.guess, u.guess), MergeReplace(s.attempts, u.attempts),
      MergeReplace(s.hint, u.hint), MergeAppend(s.history, u.history), MergeReplace(s.isCorrect, u.isCorrect))
  }

  const MAX_ATTEMPTS := 20
  const TooBig := "大了"
  const TooSmall := "小了"
  const Correct := "猜中了！"

  /** The values `Math.floor(Math.random() * n)` can take, `Math.random()` being in [0, 1). */
  predicate ValidDraw(n: int, r: int) {
    if n > 0 then 0 <= r < n else if n == 0 then r == 0 else n <= r <= 0
  }

  /** The oracle only gives values `Math.floor(Math.random() * n)` can take. */
  ghost predicate ValidDraws(draw: (int, int) -> int) {
    forall k, n :: ValidDraw(n, draw(k, n))
  }

  /** The multiplier of `Math.random()` in guessNode, by the previous hint. */
  function Scale(s: GuessState): int {
    if s.hint == "" then 100 else if s.hint == TooBig then s.guess else 100 - s.guess
  }

  /** What guessNode adds to the scaled draw, by the previous hint. */
  function Base(s: GuessState): int {
    if s.hint == "" then 1 else if s.hint == TooBig then 1 else s.guess + 1
  }

  /** The history entry `第${attempts}次: ${guess}`. */
  function Entry(attempts: int, guess: int): string {
    "第" + IntToString(attempts) + "次: " + IntToString(guess)
  }

  /** guessNode with the draw `r`: one more attempt, a new guess, one new history
      entry, and nothing about `target`, `hint` or `isCorrect`. */
  function GuessNode(s: GuessState, r: int): (u: GuessUpdate)
    ensures u.target.None? && u.hint.None? && u.isCorrect.None?
    ensures u.attempts == Some(s.attempts + 1)
    ensures u.guess.Some? && u.history == Some([Entry(s.attempts + 1, u.guess.value)])
  {
    var attempts := s.attempts + 1;
    var guess := r + Base(s);
    GuessUpdate(None, Some(guess), Some(attempts), None, Some([Entry(attempts, guess)]), None)
  }

  /** The first guess lies in [1, 100]. */
  lemma FirstGuessRange(s: GuessState, r: int)
    requires s.hint == "" && ValidDraw(Scale(s), r)
    ensures 1 <= GuessNode(s, r).guess.value <= 100
  {
  }

  /** After "too big" the new guess lies in [1, previous guess]. */
  lemma TooBigRange(s: GuessState, r: int)
    requires s.hint == TooBig && s.guess >= 1 && ValidDraw(Scale(s), r)
    ensures 1 <= GuessNode(s, r).guess.value <= s.guess
  {
  }

  /** After "too small" the new guess lies in [previous guess + 1, 100]. */
  lemma TooSmallRange(s: GuessState, r: int)
    requires s.hint == TooSmall && s.guess < 100 && ValidDraw(Scale(s), r)
    ensures s.guess + 1 <= GuessNode(s, r).guess.value <= 100
  {
  }

  /** checkNode compares the guess with the target and updates only `isCorrect`
      and `hint`. */
  function CheckNode(s: GuessState): (u: GuessUpdate)
    ensures u.target.None? && u.guess.None? && u.attempts.None? && u.history.None?
    ensures u.isCorrect == Some(s.guess == s.target)
    ensures u.hint == Some(Correct) <==> s.guess == s.target
    ensures u.hint == Some(TooBig) <==> s.guess > s.target
    ensures u.hint == Some(TooSmall) <==> s.guess < s.target
  {
    if s.guess == s.target then GuessUpdate(None, None, None, Some(Correct), None, Some(true))
    else if s.guess > s.target then GuessUpdate(None, None, None, Some(TooBig), None, Some(false))
    else GuessUpdate(None, None, None, Some(TooSmall), None, Some(false))
  }

  /** The router after `check`: stop on a right guess, else stop once
      MAX_ATTEMPTS guesses were made, else guess again. */
  function ShouldContinue(s: GuessState): (key: string)
    ensures key == "end" <==> s.isCorrect || s.attempts >= MAX_ATTEMPTS
    ensures key == "continue" <==> !s.isCorrect && s.attempts < MAX_ATTEMPTS
  {
    if s.isCorrect then "end" else if s.attempts >= MAX_ATTEMPTS then "end" else "continue"
  }

  /** The end of an invocation: at END, or stopped by the recursion limit
      (the framework's recursion-limit error) with the state reached so far. */
  datatype Outcome =
    | Finished(state: GuessState, executions: nat)
    | RecursionLimit(state: GuessState, executions: nat)

  /** The framework's default recursion limit: node executions per invocation. */
  const DEFAULT_RECURSION_LIMIT := 25

  /** Execute guessNode, drawing for the next attempt. */
  function GuessStep(s: GuessState, draw: (int, int) -> int): GuessState {
    Merge(s, GuessNode(s, draw(s.attempts + 1, Scale(s))))
  }

  /** Execute checkNode. */
  function CheckStep(s: GuessState): GuessState {
    Merge(s, CheckNode(s))
  }

  /** guessNode then checkNode: one pass round the loop. */
  function Pass(s: GuessState, draw: (int, int) -> int): GuessState {
    CheckStep(GuessStep(s, draw))
  }

  /** From `s`, with `executions` node executions already done: guess, check,
      and follow the route out of check. */
  function RunFrom(s: GuessState, draw: (int, int) -> int, executions: nat, limit: nat): Outcome
    decreases limit - executions
  {
    if executions >= limit then RecursionLimit(s, executions)
    else if executions + 1 >= limit then RecursionLimit(GuessStep(s, draw), executions + 1)
    else
      var s2 := Pass(s, draw);
      if ShouldContinue(s2) == "end" then Finished(s2, executions + 2)
      else RunFrom(s2, draw, executions + 2, limit)
  }

  /** The state after `app.invoke({ target })`: the defaults with the target. */
  function Start(target: int): GuessState {
    Merge(Initial, GuessUpdate(Some(target), None, None, None, None, None))
  }

  /** The script's `app.invoke({ target })`, compiled without options, so with
      the default recursion limit. */
  function Invoke(target: int, draw: (int, int) -> int): Outcome {
    RunFrom(Start(target), draw, 0, DEFAULT_RECURSION_LIMIT)
  }

  /** The same invocation with a recursion limit that leaves room for
      MAX_ATTEMPTS guesses and checks (`{ recursionLimit: 40 }`). */
  function InvokeCorrected(target: int, draw: (int, int) -> int): Outcome {
    RunFrom(Start(target), draw, 0, 2 * MAX_ATTEMPTS)
  }

  /** The hint checkNode leaves for a guess. */
  function HintFor(guess: int, target: int): string {
    if guess == target then Correct else if guess > target then TooBig else TooSmall
  }

  /** What holds at each return to `guess`: the target is the input's, there
      is one history entry per attempt, the hint and `isCorrect` are checkNode's
      verdict on the last guess, and that verdict was "not yet". */
  ghost predicate Resumable(s: GuessState, target: int) {
    && s.target == target
    && 0 <= s.attempts < MAX_ATTEMPTS
    && |s.history| == s.attempts
    && !s.isCorrect
    && (s.attempts == 0 ==> s.hint == "")
    && (s.attempts > 0 ==> s.hint == HintFor(s.guess, target) && s.guess != target)
  }

  /** Every guess stays in [1, 100] when the target does. */
  ghost predicate InRange(s: GuessState) {
    s.attempts > 0 ==> 1 <= s.guess <= 100
  }

  /** One guess from a resumable state, with an in-range target and a draw
      `Math.random` can produce, lands in [1, 100]. */
  lemma GuessStepInRange(s: GuessState, target: int, r: int)
    requires Resumable(s, target) && InRange(s) && 1 <= target <= 100
    requires ValidDraw(Scale(s), r)
    ensures 1 <= GuessNode(s, r).guess.value <= 100
  {
    if s.attempts == 0 {
      FirstGuessRange(s, r);
    } else if s.guess > target {
      TooBigRange(s, r);
    } else {
      TooSmallRange(s, r);
    }
  }

  /** One guess and its check from a resumable state: one more attempt and
      one more history entry, the target untouched, the verdict on the new
      guess, and either a state to resume from or a reason to end. */
  lemma PassFacts(s: GuessState, target: int, draw: (int, int) -> int)
    requires Resumable(s, target)
    ensures var s2 := Pass(s, draw);
      && s2.target == target && s2.attempts == s.attempts + 1
      && |s2.history| == |s.history| + 1
      && s2.isCorrect == (s2.guess == target)
      && (ShouldContinue(s2) == "end" ==> s2.isCorrect || s2.attempts == MAX_ATTEMPTS)
      && (ShouldContinue(s2) == "continue" ==> Resumable(s2, target))
  {
  }

  /** One guess and its check append exactly one history entry, for the new
      attempt and guess. */
  lemma PassHistory(s: GuessState, draw: (int, int) -> int)
    ensures var s2 := Pass(s, draw);
      s2.history == s.history + [Entry(s2.attempts, s2.guess)]
  {
  }

  /** What a run from a resumable state ends with. Finishing: at most
      MAX_ATTEMPTS guesses, each followed by its check, the target untouched,
      and either a right guess or MAX_ATTEMPTS guesses. Stopping: exactly
      `limit` executions. */
  lemma {:induction false} RunFromOutcome(s: GuessState, target: int, draw: (int, int) -> int, executions: nat, limit: nat)
    requires Resumable(s, target) && executions == 2 * s.attempts <= limit
    ensures var o := RunFrom(s, draw, executions, limit);
      && (o.Finished? ==>
            && o.executions == 2 * o.state.attempts <= limit
            && s.attempts < o.state.attempts <= MAX_ATTEMPTS
            && o.state.target == target
            && o.state.isCorrect == (o.state.guess == target)
            && (o.state.isCorrect || o.state.attempts == MAX_ATTEMPTS))
      && (o.RecursionLimit? ==> o.executions == limit && o.state.target == target)
    decreases limit - executions
  {
    if executions < limit && executions + 1 < limit {
      var s2 := Pass(s, draw);
      PassFacts(s, target, draw);
      if ShouldContinue(s2) == "end" {
        assert RunFrom(s, draw, executions, limit) == Finished(s2, executions + 2);
      } else {
        assert RunFrom(s, draw, executions, limit) == RunFrom(s2, draw, executions + 2, limit);
        RunFromOutcome(s2, target, draw, executions + 2, limit);
      }
    }
  }

  /** A finished run has one history entry per guess, and the history it
      started from is still its beginning: entries are only appended. */
  lemma {:induction false} RunFromHistory(s: GuessState, target: int, draw: (int, int) -> int, executions: nat, limit: nat)
    requires Resumable(s, target)
    ensures var o := RunFrom(s, draw, executions, limit);
      o.Finished? ==>
        && |o.state.history| == o.state.attempts
        && |s.history| <= |o.state.history|
        && o.state.history[..|s.history|] == s.history
    decreases limit - executions
  {
    if executions < limit && executions + 1 < limit {
      var s2 := Pass(s, draw);
      PassFacts(s, target, draw);
      PassHistory(s, draw);
      assert s2.history[..|s.history|] == s.history;
      if ShouldContinue(s2) != "end" {
        assert RunFrom(s, draw, executions, limit) == RunFrom(s2, draw, executions + 2, limit);
        RunFromHistory(s2, target, draw, executions + 2, limit);
        var o := RunFrom(s2, draw, executions + 2, limit);
        if o.Finished? {
          assert o.state.history[..|s.history|] == o.state.history[..|s2.history|][..|s.history|];
        }
      }
    }
  }

  /** With room for MAX_ATTEMPTS guesses and checks, a run never meets the
      recursion limit. */
  lemma {:induction false} RunFromFinishes(s: GuessState, target: int, draw: (int, int) -> int, executions: nat, limit: nat)
    requires Resumable(s, target) && executions == 2 * s.attempts && limit >= 2 * MAX_ATTEMPTS
    ensures RunFrom(s, draw, executions, limit).Finished?
    decreases limit - executions
  {
    assert executions + 1 < limit;
    var s2 := Pass(s, draw);
    PassFacts(s, target, draw);
    if ShouldContinue(s2) == "end" {
      assert RunFrom(s, draw, executions, limit) == Finished(s2, executions + 2);
    } else {
      assert RunFrom(s, draw, executions, limit) == RunFrom(s2, draw, executions + 2, limit);
      RunFromFinishes(s2, target, draw, executions + 2, limit);
    }
  }

  /** With an in-range target and draws `Math.random` can produce, the guess a
      run finishes with lies in [1, 100]. */
  lemma {:induction false} RunFromInRange(s: GuessState, target: int, draw: (int, int) -> int, executions: nat, limit: nat)
    requires Resumable(s, target) && InRange(s) && 1 <= target <= 100 && ValidDraws(draw)
    ensures var o := RunFrom(s, draw, executions, limit);
      o.Finished? ==> 1 <= o.state.guess <= 100
    decreases limit - executions
  {
    if executions < limit && executions + 1 < limit {
      var r := draw(s.attempts + 1, Scale(s));
      assert ValidDraw(Scale(s), r);
      GuessStepInRange(s, target, r);
      var s2 := Pass(s, draw);
      PassFacts(s, target, draw);
      if ShouldContinue(s2) != "end" {
        RunFromInRange(s2, target, draw, executions + 2, limit);
      }
    }
  }

  /** With the corrected limit the game ends at END after 1 to MAX_ATTEMPTS
      guesses: on a right guess or after MAX_ATTEMPTS of them. */
  lemma CorrectedRunEnds(target: int, draw: (int, int) -> int)
    ensures var o := InvokeCorrected(target, draw);
      && o.Finished?
      && 1 <= o.state.attempts <= MAX_ATTEMPTS && o.executions == 2 * o.state.attempts
      && o.state.target == target
      && |o.state.history| == o.state.attempts
      && o.state.isCorrect == (o.state.guess == target)
      && (o.state.isCorrect || o.state.attempts == MAX_ATTEMPTS)
      && (1 <= target <= 100 && ValidDraws(draw) ==> 1 <= o.state.guess <= 100)
  {
    RunFromOutcome(Start(target), target, draw, 0, 2 * MAX_ATTEMPTS);
    RunFromHistory(Start(target), target, draw, 0, 2 * MAX_ATTEMPTS);
    RunFromFinishes(Start(target), target, draw, 0, 2 * MAX_ATTEMPTS);
    if 1 <= target <= 100 && ValidDraws(draw) {
      RunFromInRange(Start(target), target, draw, 0, 2 * MAX_ATTEMPTS);
    }
  }

  /** As written, the default limit ends every run that is not stopped by the
      framework on a right guess within 12 attempts: the MAX_ATTEMPTS route to END is
      never taken. */
  lemma AsWrittenCapUnreachable(target: int, draw: (int, int) -> int)
    ensures var o := Invoke(target, draw);
      && (o.Finished? ==> o.state.isCorrect && o.state.attempts <= 12)
      && (o.RecursionLimit? ==> o.executions == DEFAULT_RECURSION_LIMIT)
  {
    RunFromOutcome(Start(target), target, draw, 0, DEFAULT_RECURSION_LIMIT);
  }

  /** `Math.random()` returning 0 every time: a draw the oracle may give. */
  function ZeroDraw(k: int, n: int): int {
    0
  }

  lemma ZeroDrawValid()
    ensures ValidDraws(ZeroDraw)
  {
  }

  /** One pass with a zero draw after "too small" on guess k < 100 guesses
      k + 1, still too small below 100. */
  lemma ZeroDrawPass(s: GuessState)
    requires s.target == 100 && s.hint == TooSmall && s.guess == s.attempts && 1 <= s.attempts < 99
    ensures var s2 := Pass(s, ZeroDraw);
      && s2.target == 100 && s2.attempts == s.attempts + 1 && s2.guess == s2.attempts
      && s2.hint == TooSmall && !s2.isCorrect
  {
    assert GuessStep(s, ZeroDraw).guess == s.attempts + 1;
  }

  /** With target 100 and zero draws the k-th guess is k. */
  lemma {:induction false} ZeroDrawClimbs(s: GuessState, executions: nat, limit: nat)
    requires s.target == 100 && 1 <= s.attempts < MAX_ATTEMPTS && s.guess == s.attempts
    requires s.hint == TooSmall && !s.isCorrect && executions == 2 * s.attempts
    ensures limit == DEFAULT_RECURSION_LIMIT ==> RunFrom(s, ZeroDraw, executions, limit).RecursionLimit?
    ensures limit == 2 * MAX_ATTEMPTS ==>
      var o := RunFrom(s, ZeroDraw, executions, limit);
      o.Finished? && o.state.attempts == MAX_ATTEMPTS && !o.state.isCorrect
    decreases MAX_ATTEMPTS - s.attempts
  {
    if executions + 1 < limit {
      var s2 := Pass(s, ZeroDraw);
      ZeroDrawPass(s);
      if s2.attempts < MAX_ATTEMPTS {
        assert RunFrom(s, ZeroDraw, executions, limit) == RunFrom(s2, ZeroDraw, executions + 2, limit);
        ZeroDrawClimbs(s2, executions + 2, limit);
      } else {
        assert RunFrom(s, ZeroDraw, executions, limit) == Finished(s2, executions + 2);
      }
    } else {
      assert RunFrom(s, ZeroDraw, executions, limit).RecursionLimit?;
    }
  }

  /** The witness for the finding: target 100, `Math.random()` always 0. The
      guesses are 1, 2, 3, …; as written the run is stopped by the recursion
      limit after the 13th guess, while with the corrected limit it reaches
      END after MAX_ATTEMPTS wrong guesses, as the router intends. */
  lemma AsWrittenStopsEarly()
    ensures Invoke(100, ZeroDraw).RecursionLimit?
    ensures InvokeCorrected(100, ZeroDraw).Finished?
    ensures InvokeCorrected(100, ZeroDraw).state.attempts == MAX_ATTEMPTS
    ensures !InvokeCorrected(100, ZeroDraw).state.isCorrect
  {
    var s1 := GuessStep(Start(100), ZeroDraw);
    var s2 := CheckStep(s1);
    assert s2.guess == 1 && s2.attempts == 1 && s2.hint == TooSmall;
    ZeroDrawClimbs(s2, 2, DEFAULT_RECURSION_LIMIT);
    ZeroDrawClimbs(s2, 2, 2 * MAX_ATTEMPTS);
  }
}
