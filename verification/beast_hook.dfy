/** The Beast rules as the reusable hook bioguessr-client/src/hooks/useBeastMode.js
    states them, on top of the shared round state of `GameState`.

    A `Beast` pairs the shared game with the hook's own counters; `Step` applies one
    event (an answer to the round's request, a tick of the 100 ms interval, one of
    the two answer handlers, the 1.5 s auto-advance) and then the hook's effects.
    The heartbeat audio, the timer colour, the zoom scale and the feedback texts
    are not part of it. */
module BeastHook {
  import opened JsMath
  import opened Json
  import opened GameState
  import Play

  const MaxLives := 3
  const BaseTime := 7
  const MinTime := 4

  /** The hook's own state; `timeLeft` is in tenths of a second, `None` until the
      first clock is set. `enabled` is the hook's option and never changes. */
  datatype Hook = Hook(enabled: bool, lives: int, streak: int, timeLeft: Option<int>)

  datatype Beast = Beast(game: Game, hook: Hook)

  datatype Event =
    | Arrived(data: Json)  // the shared state's request for the round answered
    | Tick                 // the countdown interval fired
    | Correct              // `handleCorrectGuess()`
    | Wrong                // `handleWrongGuess()`
    | AutoAdvance          // the auto-advance timeout fired

  function Init(enabled: bool): Beast {
    Beast(Start, Hook(enabled, MaxLives, 0, None))
  }

  /** `timeLimit`: none when disabled, otherwise 7 seconds, one less every 10
      rounds, never below 4. */
  function TimeLimit(enabled: bool, round: int): (limit: Option<int>)
    ensures limit.Some? <==> enabled
    ensures limit.Some? ==> MinTime <= limit.value && (round >= 1 ==> limit.value <= BaseTime)
  {
    if !enabled then None else Some(Max(MinTime, BaseTime - FloorDiv(round - 1, 10)))
  }

  function Limit(b: Beast): Option<int> {
    TimeLimit(b.hook.enabled, b.game.round)
  }

  /** `isDead` */
  predicate IsDead(b: Beast) {
    b.hook.lives <= 0
  }

  /** The share of the time left, `max(0, timeLeft / timeLimit)`; not capped above. */
  function Ratio(b: Beast): real {
    if Limit(b).Some? && b.hook.timeLeft.Some? then
      var r := b.hook.timeLeft.value as real / (10 * Limit(b).value) as real;
      if r < 0.0 then 0.0 else r
    else 0.0
  }

  /** The points of a correct answer: the new streak times the round's base value
      plus the time bonus. */
  function Points(b: Beast): int {
    (100 + (b.game.round - 1) * 5 + Round(20.0 * Ratio(b))) * (b.hook.streak + 1)
  }

  /** `handleCorrectGuess`; a no-op when disabled. It does not look at the lock:
      the page calling it does. */
  function HandleCorrect(b: Beast): Beast {
    if !b.hook.enabled then b
    else Beast(b.game.(score := b.game.score + Points(b), locked := true),
               b.hook.(streak := b.hook.streak + 1))
  }

  /** `handleWrongGuess`; a no-op when disabled. A third of the score (rounded
      down) and a life are lost, the latter with no floor, and the streak ends. */
  function HandleWrong(b: Beast): Beast {
    if !b.hook.enabled then b
    else
      var penalty := FloorDiv(b.game.score, 3);
      Beast(b.game.(score := Max(0, b.game.score - penalty), locked := true),
            b.hook.(lives := b.hook.lives - 1, streak := 0))
  }

  /** The countdown interval is running. */
  predicate Ticking(b: Beast) {
    && b.hook.enabled && b.game.current.Some? && !b.game.locked
    && b.hook.timeLeft.Some? && b.hook.timeLeft.value > 0
  }

  function Countdown(b: Beast): Beast {
    if Ticking(b) then b.(hook := b.hook.(timeLeft := Some(Max(0, b.hook.timeLeft.value - 1)))) else b
  }

  /** The time-up effect would run. */
  predicate TimeUp(b: Beast) {
    && b.hook.enabled && b.hook.timeLeft.Some? && b.hook.timeLeft.value <= 0
    && !b.game.locked && b.hook.lives > 0
  }

  /** The time-up effect's body. */
  function Expire(b: Beast): Beast {
    var penalty := FloorDiv(b.game.score, 3);
    Beast(b.game.(score := Max(0, b.game.score - penalty), locked := true),
          b.hook.(lives := b.hook.lives - 1, streak := 0))
  }

  /** The auto-advance timeout is pending. */
  predicate AdvancePending(b: Beast) {
    b.hook.enabled && b.game.locked && b.hook.lives > 0
  }

  function Handle(b: Beast, e: Event): Beast {
    match e
    case Arrived(data) => b.(game := Arrive(b.game, data))
    case Tick => Countdown(b)
    case Correct => HandleCorrect(b)
    case Wrong => HandleWrong(b)
    case AutoAdvance => if AdvancePending(b) then b.(game := NextRound(b.game)) else b
  }

  /** The reset effect's body: a full clock, when there is an animal and a limit. */
  function ResetClock(b: Beast): Beast {
    if b.game.current.Some? && Limit(b).Some? then b.(hook := b.hook.(timeLeft := Some(10 * Limit(b).value)))
    else b
  }

  /** The effects after one event: the clock is reset when a new animal arrived
      (`arrived`; each answer is a new object), the animal or the limit changed,
      or the round changed; then an emptied clock counts as a miss. */
  function Settle(before: Beast, after: Beast, arrived: bool): Beast {
    var changed := arrived || after.game.current != before.game.current || Limit(after) != Limit(before)
                   || after.game.round != before.game.round;
    var timed := if changed then ResetClock(after) else after;
    if TimeUp(timed) then Expire(timed) else timed
  }

  /** The effects as written. The reset effect watches only the animal and the
      limit, so a new round with the same animal and limit keeps the old clock.
      The reset and the time-up effect run in the same commit, so the time-up
      effect judges the clock of the render (`after`), not the one just reset. */
  function SettleAsWritten(before: Beast, after: Beast, arrived: bool): Beast {
    var changed := arrived || after.game.current != before.game.current || Limit(after) != Limit(before);
    var timed := if changed then ResetClock(after) else after;
    if TimeUp(after) then Expire(timed) else timed
  }

  function Step(b: Beast, e: Event): Beast {
    Settle(b, Handle(b, e), e.Arrived?)
  }

  function StepAsWritten(b: Beast, e: Event): Beast {
    SettleAsWritten(b, Handle(b, e), e.Arrived?)
  }

  // ---- properties ----------------------------------------------------------

  /** What holds in every state the hook can reach. */
  predicate Valid(b: Beast) {
    && b.game.round >= 1 && b.game.score >= 0
    && b.hook.lives <= MaxLives && b.hook.streak >= 0
    && !TimeUp(b)
    && (b.hook.timeLeft.Some? ==> b.hook.enabled && 0 <= b.hook.timeLeft.value <= 10 * BaseTime)
    && (b.hook.timeLeft.Some? && b.game.current.Some? ==> b.hook.timeLeft.value <= 10 * Limit(b).value)
  }

  lemma InitValid(enabled: bool)
    ensures Valid(Init(enabled)) && !IsDead(Init(enabled)) && Init(enabled).hook.timeLeft.None?
  {
  }

  /** The hook's limit is the play page's Beast limit. */
  lemma TimeLimitAgrees(round: int)
    ensures TimeLimit(false, round).None?
    ensures TimeLimit(true, round) == Some(Play.BeastTimeLimit(round))
  {
  }

  /** On a clock that has not overrun, the hook's points are the play page's
      Beast points for the same round, streak and clock. */
  lemma PointsAgree(b: Beast)
    requires b.hook.enabled && b.hook.timeLeft.Some? && b.game.round >= 1
    requires 0 <= b.hook.timeLeft.value <= 10 * Limit(b).value
    ensures Points(b) == Play.BeastGain(b.game.round, b.hook.streak, Some(Play.Clock(Limit(b).value, b.hook.timeLeft.value)))
  {
    var c := Play.Clock(Limit(b).value, b.hook.timeLeft.value);
    assert Play.TimeRatio(Some(c)) == Ratio(b);
  }

  /** Unlike the page's clamped ratio, the hook's grows past 1 on a clock showing
      more than its limit, and the bonus with it. */
  lemma RatioUncapped(b: Beast)
    requires b.hook.enabled && b.hook.timeLeft == Some(20 * Limit(b).value)
    ensures Ratio(b) == 2.0 && Round(20.0 * Ratio(b)) == 40
  {
    var d := (10 * Limit(b).value) as real;
    assert d > 0.0;
    assert b.hook.timeLeft.value as real == 2.0 * d;
    assert b.hook.timeLeft.value as real / d == 2.0;
    assert 20.0 * Ratio(b) == 40.0;
  }

  /** A correct answer adds the points, extends the streak and locks the round;
      lives and the clock are untouched, and the auto-advance is then pending. */
  lemma CorrectAdds(b: Beast)
    requires Valid(b) && b.hook.enabled && b.hook.lives > 0
    ensures var s := Step(b, Correct);
      && s.game.score == b.game.score + Points(b) && s.hook.streak == b.hook.streak + 1
      && s.game.locked && s.hook.lives == b.hook.lives && s.hook.timeLeft == b.hook.timeLeft
      && s.game.round == b.game.round && AdvancePending(s)
  {
  }

  /** A wrong answer costs a third of the score, rounded down, and one life with no
      floor, and ends the streak; the score stays non-negative. */
  lemma WrongCosts(b: Beast)
    requires Valid(b) && b.hook.enabled
    ensures var s := Step(b, Wrong);
      && s.game.score == b.game.score - Play.Penalty(b.game.score) && s.game.score >= 0
      && s.hook.lives == b.hook.lives - 1 && s.hook.streak == 0 && s.game.locked
      && (b.hook.lives <= 0 ==> s.hook.lives < 0)
  {
  }

  /** Neither handler, nor the clock, does anything when the hook is disabled. */
  lemma DisabledInert(b: Beast, e: Event)
    requires Valid(b) && !b.hook.enabled && !e.Arrived?
    ensures Step(b, e) == b
    ensures Limit(b).None? && !Ticking(b) && !TimeUp(b) && !AdvancePending(b) && Ratio(b) == 0.0
  {
  }

  /** A tick takes a tenth off a running clock and never below 0; outside a
      running clock it does nothing. */
  lemma TickCounts(b: Beast)
    requires Valid(b)
    ensures Ticking(b) && b.hook.timeLeft.value > 1 ==>
      Step(b, Tick) == b.(hook := b.hook.(timeLeft := Some(b.hook.timeLeft.value - 1)))
    ensures !Ticking(b) ==> Step(b, Tick) == b
    ensures Step(b, Tick).hook.timeLeft.Some? ==> Step(b, Tick).hook.timeLeft.value >= 0
  {
  }

  /** The tick that empties the clock costs exactly what a wrong answer costs. */
  lemma TimeoutIsAWrongAnswer(b: Beast)
    requires Valid(b) && Ticking(b) && b.hook.timeLeft.value == 1 && b.hook.lives > 0
    ensures var t := Step(b, Tick); var w := Step(b, Wrong);
      && t.game.score == w.game.score && t.hook.lives == w.hook.lives
      && t.hook.streak == w.hook.streak && t.game.locked && w.game.locked
      && t.hook.timeLeft == Some(0)
  {
  }

  /** The time-up penalty is taken only with the hook enabled, an empty clock, an
      open round and a life left, and then it takes exactly one life. */
  lemma TimeoutOnlyWhenDue(before: Beast, after: Beast, arrived: bool)
    ensures var s := Settle(before, after, arrived);
      s.hook.lives != after.hook.lives ==>
        && after.hook.enabled && after.hook.timeLeft.Some? && after.hook.timeLeft.value <= 0
        && !after.game.locked && after.hook.lives > 0
        && s.hook.lives == after.hook.lives - 1 && s.game.locked
  {
  }

  /** A dead hook never takes another life by time-out and never advances. */
  lemma DeadStaysDead(b: Beast, e: Event)
    requires Valid(b) && IsDead(b)
    ensures IsDead(Step(b, e)) && !AdvancePending(Step(b, e))
  {
  }

  /** As written, the auto-advance moves to the next round with the same animal:
      the clock is reset only when the new round's limit is lower, otherwise it
      carries over; and an empty clock is charged a second time either way, since
      the time-up effect reads the render's clock. */
  lemma AutoAdvanceNext(b: Beast)
    requires Valid(b) && AdvancePending(b)
    ensures var s := StepAsWritten(b, AutoAdvance);
      && s.game.round == b.game.round + 1 && s.game.current == b.game.current
      && (b.hook.timeLeft != Some(0) && Limit(s) != Limit(b) && b.game.current.Some? ==>
            s.game == NextRound(b.game) && s.hook.lives == b.hook.lives
            && s.hook.timeLeft == Some(10 * Play.BeastTimeLimit(b.game.round + 1)))
      && (b.hook.timeLeft != Some(0) && Limit(s) == Limit(b) ==> s == b.(game := NextRound(b.game)))
      && (b.hook.timeLeft == Some(0) ==> s.game.locked && s.hook.lives == b.hook.lives - 1)
  {
    var after := Handle(b, AutoAdvance);
    assert after == b.(game := NextRound(b.game));
  }

  /** With the clock reset on every new round, the auto-advance opens the next
      round on a full clock. */
  lemma AutoAdvanceFullClock(b: Beast)
    requires Valid(b) && AdvancePending(b) && b.game.current.Some?
    ensures var s := Step(b, AutoAdvance);
      && s.game == NextRound(b.game) && s.hook.lives == b.hook.lives
      && s.hook.timeLeft == Some(10 * Play.BeastTimeLimit(b.game.round + 1))
  {
  }

  lemma ArrivedValid(b: Beast, data: Json)
    requires Valid(b)
    ensures Valid(Step(b, Arrived(data))) && Valid(StepAsWritten(b, Arrived(data)))
  {
    var after := Handle(b, Arrived(data));
    assert after == b.(game := Arrive(b.game, data));
  }

  lemma TickValid(b: Beast)
    requires Valid(b)
    ensures Valid(Step(b, Tick)) && Valid(StepAsWritten(b, Tick))
  {
    assert Handle(b, Tick) == Countdown(b);
  }

  lemma AnswerValid(b: Beast)
    requires Valid(b)
    ensures Valid(Step(b, Correct)) && Valid(StepAsWritten(b, Correct))
    ensures Valid(Step(b, Wrong)) && Valid(StepAsWritten(b, Wrong))
  {
    assert Handle(b, Correct) == HandleCorrect(b);
    assert Handle(b, Wrong) == HandleWrong(b);
  }

  lemma AdvanceValid(b: Beast)
    requires Valid(b)
    ensures Valid(Step(b, AutoAdvance)) && Valid(StepAsWritten(b, AutoAdvance))
  {
    if AdvancePending(b) {
      assert Handle(b, AutoAdvance) == b.(game := NextRound(b.game));
    } else {
      assert Handle(b, AutoAdvance) == b;
    }
  }

  /** Every event keeps the invariant, with the effects in either order. */
  lemma StepValid(b: Beast, e: Event)
    requires Valid(b)
    ensures Valid(Step(b, e))
    ensures Valid(StepAsWritten(b, e))
  {
    match e
    case Arrived(data) => ArrivedValid(b, data);
    case Tick => TickValid(b);
    case Correct => AnswerValid(b);
    case Wrong => AnswerValid(b);
    case AutoAdvance => AdvanceValid(b);
  }

  // ---- the clock across rounds ---------------------------------------------

  /** As written, a time-out is paid twice: the auto-advance opens the next round
      with the same animal and limit, so the clock is not reset, and the empty
      clock on an open round costs a second penalty and a second life. */
  lemma DoubleTimeoutAsWritten()
    ensures var b := Beast(Game(1, 90, "", Some(JStr("okapi")), false, ""), Hook(true, 3, 2, Some(1)));
      && Valid(b)
      && var out := StepAsWritten(b, Tick);
      && out.hook.lives == 2 && out.game.score == 60 && AdvancePending(out)
      && var next := StepAsWritten(out, AutoAdvance);
      && next.game.round == 2 && next.hook.lives == 1 && next.game.score == 40 && next.game.locked
      && var last := StepAsWritten(next, Arrived(JStr("tapir")));
      && last.hook.lives == 0 && last.game.score == 27 && last.game.locked && IsDead(last)
  {
    var b := Beast(Game(1, 90, "", Some(JStr("okapi")), false, ""), Hook(true, 3, 2, Some(1)));
    var out := StepAsWritten(b, Tick);
    assert out.hook.lives == 2 && out.game.score == 60 && out.hook.timeLeft == Some(0);
    var next := StepAsWritten(out, AutoAdvance);
    assert next.hook.lives == 1 && next.game.score == 40 && next.hook.timeLeft == Some(0);
    assert Truthy(JStr("tapir"));
  }

  /** With the clock reset on every new round, the same time-out costs one life and
      the next round starts on a full clock. */
  lemma SingleTimeout()
    ensures var b := Beast(Game(1, 90, "", Some(JStr("okapi")), false, ""), Hook(true, 3, 2, Some(1)));
      && var out := Step(b, Tick);
      && out.hook.lives == 2 && out.game.score == 60
      && var next := Step(out, AutoAdvance);
      && next.game.round == 2 && next.hook.lives == 2 && next.game.score == 60 && !next.game.locked
      && next.hook.timeLeft == Some(70)
      && var last := Step(next, Arrived(JStr("tapir")));
      && last.hook.lives == 2 && last.game.score == 60 && !last.game.locked && last.hook.timeLeft == Some(70)
  {
    assert Truthy(JStr("tapir"));
  }

  /** Every new round starts on a full clock whenever there is an animal. */
  lemma NewRoundFullClock(b: Beast, e: Event)
    requires Valid(b) && b.hook.enabled && Step(b, e).game.round != b.game.round
    requires Step(b, e).game.current.Some?
    ensures Step(b, e).hook.timeLeft == Some(10 * Play.BeastTimeLimit(Step(b, e).game.round))
    ensures !Step(b, e).game.locked
  {
  }
}
