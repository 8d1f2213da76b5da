/** The shared round state of bioguessr-client/src/hooks/useGameState.js: score,
    round, guess and lock, the answer check and the round transitions. The request
    the hook sends for each round is not part of it. */
module GameState {
  import opened JsMath
  import opened JsString
  import opened Json

  datatype Game = Game(
    round: int, score: int, guess: string, current: Option<Json>, locked: bool, feedback: string)

  const Start := Game(1, 0, "", None, false, "")

  /** `isGameOver`: a game with a round count is over once past its last round;
      one without never is. */
  predicate IsGameOver(totalRounds: Option<int>, round: int) {
    totalRounds.Some? && round > totalRounds.value
  }

  /** `checkGuess()`: `None` for `null`. The countries default to [] when falsy;
      a truthy non-array, or an element without `toLowerCase` reached before a
      match, throws. */
  function CheckGuess(g: Game): Option<Verdict> {
    if g.current.None? || IsBlank(g.guess) || g.locked then None
    else
      var countries := Prop(g.current.value, "countries");
      var target := Normalize(g.guess);
      if !Truthy(countries) then Some(NoMatch)
      else if countries.JArr? then Some(SomeLower(countries.items, target))
      else Some(TypeError)
  }

  /** The round's request answered (lines 27-33): the answer becomes the animal, a
      falsy one reading as none, and the guess, lock and feedback are cleared. */
  function Arrive(g: Game, data: Json): Game {
    g.(current := if Truthy(data) then Some(data) else None, guess := "", locked := false, feedback := "")
  }

  /** `submitCorrect(points, msg)` */
  function SubmitCorrect(g: Game, points: int, msg: string): Game {
    g.(score := g.score + points, locked := true, feedback := msg)
  }

  /** `submitWrong(msg, penalty)` */
  function SubmitWrong(g: Game, msg: string, penalty: int): Game {
    var score := if penalty > 0 then Max(0, g.score - penalty) else g.score;
    g.(score := score, locked := true, feedback := msg)
  }

  /** `resetRoundState()` */
  function ResetRoundState(g: Game): Game {
    g.(guess := "", locked := false, feedback := "")
  }

  /** `nextRound()` */
  function NextRound(g: Game): Game {
    g.(round := g.round + 1, guess := "", locked := false, feedback := "")
  }

  // ---- properties ----------------------------------------------------------

  /** A game without a round count never ends; one with a count ends after it and
      stays over as the rounds go on. */
  lemma GameOverMonotone(totalRounds: Option<int>, r1: int, r2: int)
    requires r1 <= r2
    ensures totalRounds.None? ==> !IsGameOver(totalRounds, r2)
    ensures IsGameOver(totalRounds, r1) ==> IsGameOver(totalRounds, r2)
  {
  }

  /** Without an animal, with a blank guess or once locked there is no verdict;
      otherwise, on an array of strings, the guess is right exactly when its
      trimmed, lower-cased form equals some country lower-cased as it stands. */
  lemma CheckGuessSpec(g: Game)
    ensures CheckGuess(g).None? <==> g.current.None? || IsBlank(g.guess) || g.locked
    ensures CheckGuess(g).Some? ==> var countries := Prop(g.current.value, "countries");
      countries.JArr? && (forall k :: 0 <= k < |countries.items| ==> countries.items[k].JStr?) ==>
        (CheckGuess(g) == Some(Match) <==>
           exists k :: 0 <= k < |countries.items| && ToLower(countries.items[k].s) == Normalize(g.guess))
        && CheckGuess(g) != Some(TypeError)
  {
    if CheckGuess(g).Some? {
      var countries := Prop(g.current.value, "countries");
      if countries.JArr? && forall k :: 0 <= k < |countries.items| ==> countries.items[k].JStr? {
        SomeLowerStrings(countries.items, Normalize(g.guess));
      }
    }
  }

  /** The countries are not trimmed: one stored with a space at either end
      matches no guess at all. */
  lemma UntrimmedCountryNeverMatches(c: string, guess: string)
    requires |c| > 0 && (IsSpace(c[0]) || IsSpace(c[|c| - 1]))
    ensures ToLower(c) != Normalize(guess)
  {
    var n := Normalize(guess);
    var t := Trim(guess);
    var lc := ToLower(c);
    if |n| == |c| {
      assert |t| == |c| && IsTrimmed(t);
      var i := if IsSpace(c[0]) then 0 else |c| - 1;
      assert IsSpace(lc[i]);
      assert !IsSpace(t[i]) && n[i] == LowerChar(t[i]);
      assert lc[i] != n[i];
    }
  }

  /** `submitCorrect` adds exactly the points and locks the round. */
  lemma SubmitCorrectAdds(g: Game, points: int, msg: string)
    ensures SubmitCorrect(g, points, msg).score - g.score == points
    ensures SubmitCorrect(g, points, msg).locked
    ensures SubmitCorrect(g, points, msg).(score := g.score, locked := g.locked, feedback := g.feedback) == g
  {
  }

  /** `submitWrong` always locks; a positive penalty comes off the score, which
      stops at 0, and any other penalty leaves the score alone. */
  lemma SubmitWrongPenalty(g: Game, msg: string, penalty: int)
    ensures SubmitWrong(g, msg, penalty).locked
    ensures penalty <= 0 ==> SubmitWrong(g, msg, penalty).score == g.score
    ensures penalty > 0 && g.score >= 0 ==>
      && SubmitWrong(g, msg, penalty).score >= 0
      && SubmitWrong(g, msg, penalty).score == (if penalty >= g.score then 0 else g.score - penalty)
    ensures SubmitWrong(g, msg, penalty).round == g.round && SubmitWrong(g, msg, penalty).current == g.current
  {
  }

  /** An answer opens the round afresh: it is `resetRoundState` with the new animal. */
  lemma ArriveOpensRound(g: Game, data: Json)
    ensures Arrive(g, data) == ResetRoundState(g).(current := if Truthy(data) then Some(data) else None)
    ensures Arrive(g, data).current.Some? <==> Truthy(data)
    ensures Arrive(g, data).round == g.round && Arrive(g, data).score == g.score
  {
  }

  /** `nextRound` is `resetRoundState` plus one round: both clear the guess, the
      lock and the feedback, and leave the score and the animal alone. */
  lemma NextRoundIsResetPlusOne(g: Game)
    ensures NextRound(g) == ResetRoundState(g).(round := g.round + 1)
    ensures ResetRoundState(g).round == g.round
    ensures var n := NextRound(g); n.guess == "" && !n.locked && n.feedback == "" && n.score == g.score && n.current == g.current
    ensures ResetRoundState(ResetRoundState(g)) == ResetRoundState(g)
  {
  }
}
