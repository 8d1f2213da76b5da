/** The Final Doom trial, the fetch life-cycle and the end of an Arena run, stated
    on whole renders (`Step`). */
module ArenaDoomSpecs {
  import opened JsMath
  import opened JsString
  import opened Json
  import opened Doom
  import opened ArenaRules
  import opened Arena
  import opened ArenaProps

  /** A render in which the handler changed nothing runs no effect either. */
  lemma SettleSame(r: Run)
    ensures Settle(r, r) == r
  {
  }

  // ---- choosing a tier -----------------------------------------------------

  /** The tier screen accepts a choice. */
  predicate TierReady(r: Run) {
    r.mode == DoomSelect && MainVisible(r)
  }

  /** An unknown id, or a tier the score has not unlocked, changes nothing. */
  lemma TierRefused(r: Run, id: string)
    requires TierReady(r)
    requires TierOf(id).None? || !Available(TierOf(id).value, r.score)
    ensures Step(r, ChooseTier(id)) == r
  {
    SettleSame(r);
  }

  /** An unlocked tier starts its trial at question 1 with the tier's strikes and
      the full base time on the clock, and fetches the first Doom animal. */
  lemma TierStarts(r: Run, id: string)
    requires TierReady(r)
    requires TierOf(id).Some? && Available(TierOf(id).value, r.score)
    ensures var s := Step(r, ChooseTier(id)); var cfg := ConfigOf(TierOf(id).value);
      && s.mode == DoomTrial && s.doom.tier == TierOf(id) && s.doom.count == 1
      && s.doom.strikesLeft == cfg.strikes
      && s.doom.timer == Some(Timer(cfg.baseTime, 10 * cfg.baseTime))
      && s.screen.loading && s.score == r.score && s.timeouts == r.timeouts
  {
    var started := StartDoomTier(r, id);
    assert Handle(r, ChooseTier(id)) == started;
    assert TimeLimit(ConfigOf(TierOf(id).value), 1) == ConfigOf(TierOf(id).value).baseTime;
  }

  // ---- answering -----------------------------------------------------------

  /** The Doom screen accepts a submission. */
  predicate DoomReady(r: Run) {
    r.mode == DoomTrial && MainVisible(r) && !IsBlank(r.screen.guess) && !r.screen.locked && r.doom.tier.Some?
  }

  /** In the trial the submit button runs `handleDoomSubmit` and no effect follows. */
  lemma DoomSubmitRunsHandler(r: Run)
    requires DoomReady(r)
    ensures Step(r, Submit) == DoomSubmit(r)
  {
    var cfg := ConfigOf(r.doom.tier.value);
    if !EvaluateGuess(r.screen.current, r.screen.guess) && cfg.strikes > 0 && r.doom.strikesLeft > 0 {
      var hp := ClampHp(r.hp - 3, r.buffs.oath);
      if hp > 0 {
        assert DoomSubmit(r) == r.(doom := r.doom.(strikesLeft := r.doom.strikesLeft - 1), hp := hp);
      }
    }
  }

  /** A right answer earns the tier's points for the share of time left, scaled by
      the run's multiplier, locks the question and schedules the next one; the clock
      is left as it stood. */
  lemma DoomCorrect(r: Run)
    requires DoomReady(r)
    requires EvaluateGuess(r.screen.current, r.screen.guess)
    ensures var s := Step(r, Submit); var t := r.doom.timer;
      && s.score == r.score + Points(ConfigOf(r.doom.tier.value), TimeRatio(t), r.multiplier)
      && s.screen.locked && s.doom.timer == t && s.doom.count == r.doom.count && s.hp == r.hp
      && s.timeouts == r.timeouts + [NextDoomQuestion]
  {
    DoomSubmitRunsHandler(r);
    DoomSubmitCorrect(r);
  }

  /** The share of time a Doom answer is paid for is exact: the tenths left over
      the tenths allowed. */
  lemma DoomRatioExact(t: Option<Timer>)
    requires GoodTimer(t)
    ensures 0.0 <= TimeRatio(t) <= 1.0
    ensures t.Some? ==> TimeRatio(t) * (10 * t.value.limit) as real == t.value.left as real
  {
    if t.Some? {
      assert TimeRatio(t) == Ratio(t.value.limit, t.value.left);
    }
  }

  /** The handler's part of a right answer. */
  lemma DoomSubmitCorrect(r: Run)
    requires DoomReady(r) && EvaluateGuess(r.screen.current, r.screen.guess)
    ensures DoomSubmit(r) == Schedule(Lock(r.(score := r.score + Points(ConfigOf(r.doom.tier.value), TimeRatio(r.doom.timer), r.multiplier))), NextDoomQuestion)
  {
  }

  /** A faster right answer never earns fewer points. */
  lemma FasterEarnsMore(r: Run, slower: int)
    requires DoomReady(r) && Valid(r) && r.doom.timer.Some?
    requires EvaluateGuess(r.screen.current, r.screen.guess)
    requires 0 <= slower <= r.doom.timer.value.left
    ensures Step(r.(doom := r.doom.(timer := Some(r.doom.timer.value.(left := slower)))), Submit).score
         <= Step(r, Submit).score
  {
    var slow := r.(doom := r.doom.(timer := Some(r.doom.timer.value.(left := slower))));
    DoomCorrect(r);
    DoomCorrect(slow);
    var t := r.doom.timer.value;
    assert TimeRatio(slow.doom.timer) <= TimeRatio(r.doom.timer) by {
      RatioMonotone(t.limit, slower, t.left);
    }
    PointsMonotone(ConfigOf(r.doom.tier.value), TimeRatio(slow.doom.timer), TimeRatio(r.doom.timer), r.multiplier);
  }

  lemma RatioMonotone(limit: int, a: int, b: int)
    requires limit > 0 && 0 <= a <= b <= 10 * limit
    ensures Ratio(limit, a) <= Ratio(limit, b)
  {
    var d := (10 * limit) as real;
    DivMonotone(a as real, b as real, d);
    assert Ratio(limit, a) == Clamp01(a as real / d) && Ratio(limit, b) == Clamp01(b as real / d);
  }

  lemma DivMonotone(x: real, y: real, d: real)
    requires d > 0.0 && x <= y
    ensures x / d <= y / d
  {
    assert y / d - x / d == (y - x) / d;
  }

  /** A wrong answer with a strike in hand costs the strike and 3 HP (capped by
      the oath); the question stays open unless that leaves no HP, which ends the run. */
  lemma DoomStrike(r: Run)
    requires DoomReady(r) && Valid(r)
    requires !EvaluateGuess(r.screen.current, r.screen.guess)
    requires ConfigOf(r.doom.tier.value).strikes > 0 && r.doom.strikesLeft > 0
    ensures var s := Step(r, Submit);
      && s.score == r.score && s.doom.strikesLeft == r.doom.strikesLeft - 1
      && s.hp == ClampHp(r.hp - 3, r.buffs.oath)
      && (s.hp <= 0 ==> s.screen.locked && s.timeouts == r.timeouts + [End(DoomDeath)])
      && (s.hp > 0 ==> !s.screen.locked && s.timeouts == r.timeouts && s.doom.timer == r.doom.timer)
  {
    DoomSubmitRunsHandler(r);
  }

  /** A wrong answer without a strike fails the trial. */
  lemma DoomFailOnMiss(r: Run)
    requires DoomReady(r) && Valid(r)
    requires !EvaluateGuess(r.screen.current, r.screen.guess)
    requires ConfigOf(r.doom.tier.value).strikes == 0 || r.doom.strikesLeft == 0
    ensures var s := Step(r, Submit);
      && s.score == r.score && s.hp == r.hp && s.screen.locked
      && s.timeouts == r.timeouts + [End(DoomFail)]
  {
    DoomSubmitRunsHandler(r);
  }

  // ---- the clock -----------------------------------------------------------

  /** Outside a running Doom clock, a tick does nothing. */
  lemma IdleTick(r: Run)
    requires !Ticking(r)
    ensures Step(r, Tick) == r
  {
    SettleSame(r);
  }

  /** A tick takes a tenth of a second off the clock ... */
  lemma TickCounts(r: Run)
    requires Ticking(r) && r.doom.timer.value.left > 1
    ensures Step(r, Tick) == r.(doom := r.doom.(timer := Some(r.doom.timer.value.(left := r.doom.timer.value.left - 1))))
  {
  }

  /** ... and the tick that empties it counts as a wrong answer with no time left. */
  lemma TickExpires(r: Run)
    requires Ticking(r) && r.doom.timer.value.left == 1
    ensures Step(r, Tick) == DoomScoring(r.(doom := r.doom.(timer := Some(r.doom.timer.value.(left := 0)))), false)
  {
  }

  /** Once the next Doom question's callback runs, the question opens with the
      full time limit of question `count + 1` on the clock and nothing new scheduled. */
  lemma NextDoomQuestionFresh(r: Run, i: nat, draw: nat -> nat)
    requires r.mode == DoomTrial && r.doom.tier.Some? && Valid(r)
    requires i < |r.timeouts| && r.timeouts[i] == NextDoomQuestion
    ensures var s := Step(r, Fire(i, draw)); var limit := TimeLimit(ConfigOf(r.doom.tier.value), r.doom.count + 1);
      && s.doom.count == r.doom.count + 1 && !s.screen.locked && s.screen.loading
      && s.doom.timer == Some(Timer(limit, 10 * limit))
      && s.timeouts == Unschedule(r.timeouts, i)
      && s.score == r.score && s.doom.strikesLeft == r.doom.strikesLeft
  {
    assert Handle(r, Fire(i, draw)) == RunTimeout(r.(timeouts := Unschedule(r.timeouts, i)), NextDoomQuestion, draw);
  }

  // ---- the stale timeout ---------------------------------------------------

  /** As the component orders its effects, the callback that opens the next Doom
      question after an emptied clock makes the timer effect judge the old, empty
      clock against the now unlocked question: the run is failed for a time-out on
      a question it never showed. */
  lemma StaleTimeoutAsWritten(r: Run, i: nat, draw: nat -> nat)
    requires r.mode == DoomTrial && r.doom.tier.Some? && r.screen.locked
    requires r.doom.timer.Some? && r.doom.timer.value.left == 0
    requires ConfigOf(r.doom.tier.value).strikes == 0 || r.doom.strikesLeft == 0
    requires i < |r.timeouts| && r.timeouts[i] == NextDoomQuestion
    ensures StepAsWritten(r, Fire(i, draw)).screen.locked
    ensures StepAsWritten(r, Fire(i, draw)).timeouts == Unschedule(r.timeouts, i) + [End(DoomFail)]
    ensures !Step(r, Fire(i, draw)).screen.locked
    ensures Step(r, Fire(i, draw)).timeouts == Unschedule(r.timeouts, i)
  {
    assert Handle(r, Fire(i, draw)) == RunTimeout(r.(timeouts := Unschedule(r.timeouts, i)), NextDoomQuestion, draw);
  }

  /** Such a state is reached in Bronze: the clock runs out while the strike is in
      hand (3 HP lost, question still open, clock left at zero), then the player
      answers correctly. */
  lemma StaleTimeoutReachable(r: Run, draw: nat -> nat)
    requires Valid(r) && DoomReady(r) && r.doom.tier == Some(Bronze)
    requires r.doom.strikesLeft == 1 && r.hp >= 4 && !r.buffs.oath
    requires r.doom.timer.Some? && r.doom.timer.value.left == 1
    requires EvaluateGuess(r.screen.current, r.screen.guess)
    ensures var r1 := Step(r, Tick); var r2 := Step(r1, Submit); var i := |r2.timeouts| - 1;
      && r1.doom.strikesLeft == 0 && r1.hp == r.hp - 3 && DoomReady(r1) && Valid(r1)
      && i >= 0 && r2.timeouts[i] == NextDoomQuestion
      && r2.screen.locked && r2.doom.timer.Some? && r2.doom.timer.value.left == 0
      && StepAsWritten(r2, Fire(i, draw)).timeouts == Unschedule(r2.timeouts, i) + [End(DoomFail)]
      && !Step(r2, Fire(i, draw)).screen.locked
  {
    TickExpires(r);
    var r1 := Step(r, Tick);
    StepValid(r, Tick);
    assert r1.screen == r.screen;
    DoomCorrect(r1);
    var r2 := Step(r1, Submit);
    StepValid(r1, Submit);
    StaleTimeoutAsWritten(r2, |r2.timeouts| - 1, draw);
  }

  // ---- fetching ------------------------------------------------------------

  /** A response or failure that arrives when no request is outstanding is dropped. */
  lemma StaleResponseIgnored(r: Run, animal: Json)
    requires !r.screen.loading
    ensures Step(r, Loaded(animal)) == r
    ensures Step(r, LoadFailed) == r
  {
    SettleSame(r);
  }

  /** The answer to the outstanding request becomes the question, with an empty,
      unlocked guess; a falsy body leaves no question. */
  lemma LoadedShows(r: Run, animal: Json)
    requires r.screen.loading
    requires r.mode == DoomTrial ==> r.doom.timer.None? || r.doom.timer.value.left > 0
    ensures var s := Step(r, Loaded(animal));
      && s.screen.current == (if Truthy(animal) then Some(animal) else None)
      && s.screen.guess == [] && !s.screen.locked && !s.screen.loading
      && s.mode == r.mode && s.score == r.score && s.hp == r.hp && s.timeouts == r.timeouts
  {
  }

  /** A failed request shows the error screen, whose retry button asks again. */
  lemma RetryRefetches(r: Run)
    requires r.screen.loading && Fetches(r.mode)
    ensures var failed := Step(r, LoadFailed);
      && failed.screen.loadError && failed.screen.current.None? && !MainVisible(failed)
      && var again := Step(failed, Retry);
      again.screen.loading && !again.screen.loadError
      && again.screen.questionKey == r.screen.questionKey + 1 && again.mode == r.mode
  {
  }

  // ---- the end -------------------------------------------------------------

  /** Once the run is over and nothing is loading, no user action or tick changes it. */
  lemma GameOverIgnoresInput(r: Run, e: Event)
    requires r.mode == GameOver && !r.screen.loading && !e.Fire?
    ensures Step(r, e) == r
  {
    SettleSame(r);
  }

  /** Every way a run ends goes through the game-over screen. */
  lemma EndFires(r: Run, i: nat, draw: nat -> nat, why: EndReason)
    requires r.mode != GameOver && i < |r.timeouts| && r.timeouts[i] == End(why)
    ensures Step(r, Fire(i, draw)).mode == GameOver
    ensures !Step(r, Fire(i, draw)).screen.loading
    ensures Step(r, Fire(i, draw)).score == r.score
  {
    assert Handle(r, Fire(i, draw)) == r.(timeouts := Unschedule(r.timeouts, i), mode := GameOver);
  }
}
