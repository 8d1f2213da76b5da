/** The Easy rules as the reusable hook bioguessr-client/src/hooks/useEasyMode.js
    states them: a wrong-guess counter on top of the shared round state, which
    unlocks two hints and locks the round on the third miss. */
module EasyHook {
  import opened JsMath
  import opened Json
  import opened Hints
  import opened GameState
  import Play
  import PlayProps

  /** The miss that locks the round. */
  const LockingMiss := 3

  datatype Easy = Easy(enabled: bool, game: Game, wrongGuesses: int)

  datatype Event =
    | Arrived(data: Json)  // the shared state's request for the round answered
    | Wrong                // `handleWrongGuess()`
    | Reset                // `resetWrongGuesses()`

  /** What the hook hands to the page. */
  datatype View = View(enabled: bool, hint1: Option<string>, hint2: Option<string>, wrongGuesses: int)

  function Init(enabled: bool): Easy {
    Easy(enabled, Start, 0)
  }

  /** `hint1`: the feature hint, from the first miss on. */
  function Hint1(s: Easy): Option<string> {
    if !s.enabled || s.game.current.None? || s.wrongGuesses < 1 then None
    else Some(FeatureHint(s.game.current.value))
  }

  /** `hint2`: the weight hint, from the second miss on. */
  function Hint2(s: Easy): Option<string> {
    if !s.enabled || s.game.current.None? || s.wrongGuesses < 2 then None
    else Some(WeightHint(s.game.current.value))
  }

  /** The hook's result: fixed values when disabled. */
  function ViewOf(s: Easy): View {
    if !s.enabled then View(false, None, None, 0)
    else View(true, Hint1(s), Hint2(s), s.wrongGuesses)
  }

  /** `handleWrongGuess`: one more miss; the third and later lock the round. */
  function HandleWrong(s: Easy): Easy {
    if !s.enabled then s
    else
      var next := s.wrongGuesses + 1;
      if next >= LockingMiss then s.(game := s.game.(locked := true, feedback := "Not quite."), wrongGuesses := next)
      else s.(game := s.game.(feedback := "Try again!"), wrongGuesses := next)
  }

  function Handle(s: Easy, e: Event): Easy {
    match e
    case Arrived(data) => s.(game := Arrive(s.game, data))
    case Wrong => HandleWrong(s)
    case Reset => if s.enabled then s.(wrongGuesses := 0) else s
  }

  /** The reset effect: a new animal (each answer is a new object) clears the
      counter. */
  function Settle(before: Easy, after: Easy, arrived: bool): Easy {
    if (arrived || after.game.current != before.game.current) && after.game.current.Some? then after.(wrongGuesses := 0)
    else after
  }

  function Step(s: Easy, e: Event): Easy {
    Settle(s, Handle(s, e), e.Arrived?)
  }

  // ---- properties ----------------------------------------------------------

  /** Each hint is shown exactly when the hook is enabled, an animal is loaded and
      enough misses were made: one for the feature hint, two for the weight hint. */
  lemma HintGating(s: Easy)
    ensures ViewOf(s).hint1.Some? <==> s.enabled && s.game.current.Some? && s.wrongGuesses >= 1
    ensures ViewOf(s).hint2.Some? <==> s.enabled && s.game.current.Some? && s.wrongGuesses >= 2
    ensures ViewOf(s).hint1.Some? ==> ViewOf(s).hint1.value == FeatureHint(s.game.current.value)
    ensures ViewOf(s).hint2.Some? ==> ViewOf(s).hint2.value == WeightHint(s.game.current.value) && ViewOf(s).hint1.Some?
  {
  }

  /** Each miss counts exactly one; the round locks once the count reaches three
      and the lock is never lifted by a miss. */
  lemma WrongCounts(s: Easy)
    requires s.enabled
    ensures Step(s, Wrong).wrongGuesses == s.wrongGuesses + 1
    ensures Step(s, Wrong).game.locked <==> s.game.locked || s.wrongGuesses + 1 >= LockingMiss
    ensures Step(s, Wrong).game.feedback == (if s.wrongGuesses + 1 >= LockingMiss then "Not quite." else "Try again!")
    ensures Step(s, Wrong).game.(locked := s.game.locked, feedback := s.game.feedback) == s.game
  {
  }

  /** From a fresh round, the first two misses leave it open and the third locks it. */
  lemma ThirdMissLocks(s: Easy)
    requires s.enabled && s.wrongGuesses == 0 && !s.game.locked
    ensures var one := Step(s, Wrong); var two := Step(one, Wrong); var three := Step(two, Wrong);
      && !one.game.locked && !two.game.locked && three.game.locked && three.wrongGuesses == 3
      && ViewOf(one).hint1.Some? == s.game.current.Some? && ViewOf(one).hint2.None?
      && ViewOf(two).hint2.Some? == s.game.current.Some?
  {
    WrongCounts(s);
    WrongCounts(Step(s, Wrong));
    WrongCounts(Step(Step(s, Wrong), Wrong));
  }

  /** A new animal, or the reset handler, sets the count back to 0. */
  lemma ResetZero(s: Easy, data: Json)
    requires Truthy(data)
    ensures Step(s, Arrived(data)).wrongGuesses == 0
    ensures Step(s, Arrived(data)).game.current == Some(data)
    ensures s.enabled ==> Step(s, Reset).wrongGuesses == 0 && Step(s, Reset).game == s.game
  {
  }

  /** Disabled, the hook shows no hint and no count, and neither handler does
      anything. */
  lemma DisabledInert(s: Easy)
    requires !s.enabled
    ensures ViewOf(s) == View(false, None, None, 0)
    ensures Step(s, Wrong) == s && Step(s, Reset) == s
  {
  }

  /** The hook and the play page disagree on Easy mode: after one miss, a second
      locks the page's round but leaves the hook's open. */
  lemma LocksLaterThanPage(s: Easy, p: Play.Play)
    requires s.enabled && s.wrongGuesses == 1 && !s.game.locked
    requires PlayProps.Valid(p) && PlayProps.Ready(p) && p.mode == Play.Easy && p.wrongGuesses == 1
    requires !Play.IsCorrect(p.card.current.value, p.card.guess)
    ensures !Step(s, Wrong).game.locked && Step(s, Wrong).wrongGuesses == 2
    ensures Play.Step(p, Play.Submit).card.locked && Play.Step(p, Play.Submit).wrongGuesses == 2
  {
    WrongCounts(s);
    PlayProps.EasyWrong(p);
  }
}
