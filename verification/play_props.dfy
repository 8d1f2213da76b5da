/** The effect of each event on the play page, stated on whole renders (`Step`),
    and the invariant every reachable page state keeps. */
module PlayProps {
  import opened JsMath
  import opened JsString
  import opened Json
  import opened Play
  import opened PlaySpecs

  /** A Beast clock shows a limit of 4-7 seconds and never more than that left. */
  predicate GoodClock(c: Option<Clock>) {
    c.Some? ==> BeastMinTime <= c.value.limit <= BeastBaseTime && 0 <= c.value.left <= 10 * c.value.limit
  }

  /** What holds in every state the page can reach. */
  predicate Valid(p: Play) {
    && p.round >= 1 && p.score >= 0
    && 0 <= p.beast.lives <= BeastMaxLives && p.beast.streak >= 0
    && GoodClock(p.beast.clock)
    && !TimeUp(p)
    && (p.mode == Easy ==> 0 <= p.wrongGuesses <= 1 || (p.wrongGuesses == 2 && p.card.locked))
    && (p.mode != Easy ==> p.wrongGuesses == 0)
    && (p.card.loadError ==> p.card.current.None? && !p.card.loading)
    && (p.card.loading ==> p.card.locked || p.card.current.None?)
    && (p.mode != Beast || p.card.loading || p.card.loadError ==> !p.beast.advancing)
    && (p.beast.advancing ==> p.card.locked && p.beast.lives > 0)
  }

  lemma InitValid(mode: PlayMode)
    ensures Valid(Init(mode)) && !GameOver(Init(mode))
  {
  }

  // ---- the effects ---------------------------------------------------------

  /** A render after which nothing the effects watch has changed runs none of them. */
  lemma SettleQuiet(before: Play, after: Play)
    requires after.round == before.round && after.card.current == before.card.current
    requires after.card.locked == before.card.locked && after.beast.lives == before.beast.lives
    requires !TimeUp(after)
    ensures Settle(before, after, false) == after
  {
  }

  /** The effects never leave an expired clock behind. */
  lemma SettleSettles(before: Play, after: Play, arrived: bool)
    ensures !TimeUp(Settle(before, after, arrived))
  {
  }

  /** Outside Beast mode, a render that keeps the round and the animal runs no
      effect that changes anything. */
  lemma SettlePlain(before: Play, after: Play)
    requires after.mode != Beast && !after.beast.advancing
    requires after.round == before.round && after.card.current == before.card.current
    ensures Settle(before, after, false) == after
  {
  }

  /** In Beast mode, locking the round without moving on registers the
      auto-advance exactly when a life is left. */
  lemma SettleBeastLock(before: Play, after: Play)
    requires after.mode == Beast && after.card.locked && !before.card.locked
    requires after.round == before.round && after.card.current == before.card.current
    ensures Settle(before, after, false) == after.(beast := after.beast.(advancing := after.beast.lives > 0))
  {
  }

  // ---- answering -----------------------------------------------------------

  /** The question card accepts a submission. */
  predicate Ready(p: Play) {
    Visible(p) && !IsBlank(p.card.guess) && !p.card.locked
  }

  /** `submitGuess` does nothing without an animal, with a blank guess or once the
      round is locked; neither does the button while the card is not on screen. */
  lemma SubmitIgnored(p: Play)
    requires Valid(p) && !Ready(p)
    ensures Step(p, Submit) == p
  {
  }

  /** Outside Beast mode a right answer is worth exactly 100 and locks the round. */
  lemma PlainCorrect(p: Play)
    requires Valid(p) && Ready(p) && p.mode != Beast
    requires IsCorrect(p.card.current.value, p.card.guess)
    ensures Step(p, Submit).score == p.score + 100
    ensures Step(p, Submit).card.locked && Step(p, Submit).round == p.round
  {
    var after := LockCard(p.(score := p.score + 100));
    assert Handle(p, Submit) == after;
    SettlePlain(p, after);
  }

  /** In Normal mode a wrong answer scores nothing and locks the round at once. */
  lemma NormalWrong(p: Play)
    requires Valid(p) && Ready(p) && p.mode == Normal
    requires !IsCorrect(p.card.current.value, p.card.guess)
    ensures Step(p, Submit).score == p.score && Step(p, Submit).card.locked
  {
    assert Handle(p, Submit) == LockCard(p);
    SettlePlain(p, LockCard(p));
  }

  /** In Easy mode a wrong answer counts one more miss and locks the round only on
      the second miss. */
  lemma EasyWrong(p: Play)
    requires Valid(p) && Ready(p) && p.mode == Easy
    requires !IsCorrect(p.card.current.value, p.card.guess)
    ensures Step(p, Submit).wrongGuesses == p.wrongGuesses + 1
    ensures Step(p, Submit).card.locked <==> p.wrongGuesses + 1 >= 2
    ensures Step(p, Submit).score == p.score
  {
    var next := p.wrongGuesses + 1;
    var after := if next >= 2 then LockCard(p.(wrongGuesses := next)) else p.(wrongGuesses := next);
    assert Handle(p, Submit) == SubmitGuess(p) == after;
    SettlePlain(p, after);
  }

  /** A right Beast answer extends the streak and earns the streak-scaled points;
      the auto-advance is then pending. */
  lemma BeastCorrect(p: Play)
    requires Valid(p) && Ready(p) && p.mode == Beast
    requires IsCorrect(p.card.current.value, p.card.guess)
    ensures var s := Step(p, Submit);
      && s.beast.streak == p.beast.streak + 1
      && s.score == p.score + BeastGain(p.round, p.beast.streak, p.beast.clock)
      && s.score >= p.score + 100 * (p.beast.streak + 1)
      && s.beast.lives == p.beast.lives && s.card.locked && s.beast.advancing
  {
    var gain := BeastGain(p.round, p.beast.streak, p.beast.clock);
    var after := LockCard(p.(score := p.score + gain, beast := p.beast.(streak := p.beast.streak + 1)));
    assert Handle(p, Submit) == SubmitGuess(p) == after;
    SettleBeastLock(p, after);
    assert Step(p, Submit).score == p.score + gain;
    BeastGainBounds(p.round, p.beast.streak, p.beast.clock);
  }

  /** A wrong Beast answer costs a third of the score (rounded down) and a life,
      and ends the streak. */
  lemma BeastWrong(p: Play)
    requires Valid(p) && Ready(p) && p.mode == Beast
    requires !IsCorrect(p.card.current.value, p.card.guess)
    ensures var s := Step(p, Submit);
      && s.score == p.score - Penalty(p.score) && s.score >= 0
      && s.beast.lives == p.beast.lives - 1 && s.beast.streak == 0 && s.card.locked
      && s.beast.advancing == (s.beast.lives > 0)
  {
    PenaltyBounds(p.score);
    assert Handle(p, Submit) == SubmitGuess(p) == BeastMiss(p);
    SettleBeastLock(p, BeastMiss(p));
  }

  // ---- the Beast clock -----------------------------------------------------

  /** A tick takes a tenth of a second off the running clock ... */
  lemma TickCounts(p: Play)
    requires Valid(p) && Ticking(p) && p.beast.clock.value.left > 1
    ensures Step(p, Tick).beast.clock == Some(p.beast.clock.value.(left := p.beast.clock.value.left - 1))
    ensures Step(p, Tick).score == p.score && !Step(p, Tick).card.locked
  {
  }

  /** ... and the tick that empties it costs exactly what a wrong answer costs. */
  lemma TimeoutIsAMiss(p: Play)
    requires Valid(p) && Ready(p) && Ticking(p) && p.beast.clock.value.left == 1
    requires !IsCorrect(p.card.current.value, p.card.guess)
    ensures var t := Step(p, Tick); var w := Step(p, Submit);
      && t.score == w.score && t.beast.lives == w.beast.lives && t.beast.streak == w.beast.streak
      && t.card.locked && t.beast.advancing == w.beast.advancing
      && t.beast.clock == Some(p.beast.clock.value.(left := 0))
  {
    var h := p.(beast := p.beast.(clock := Some(p.beast.clock.value.(left := 0))));
    assert Handle(p, Tick) == h;
    assert TimeUp(h) && !Arrives(p, Tick);
    var m := BeastMiss(h);
    assert Step(p, Tick) == m.(beast := m.beast.(advancing := m.beast.lives > 0));
    BeastWrong(p);
  }

  /** Outside a running clock, a tick does nothing. */
  lemma IdleTick(p: Play)
    requires Valid(p) && !Ticking(p)
    ensures Step(p, Tick) == p
  {
  }

  // ---- rounds --------------------------------------------------------------

  /** The pending auto-advance moves a Beast run to the next round, whose animal is
      requested; the clock restarts at the next round's limit. */
  lemma AutoAdvanceNext(p: Play)
    requires Valid(p) && p.beast.advancing
    ensures var s := Step(p, AutoAdvance);
      && s.round == p.round + 1 && s.card.loading && !s.beast.advancing
      && s.beast.clock == (if p.card.current.Some? then Some(Clock(BeastTimeLimit(p.round + 1), 10 * BeastTimeLimit(p.round + 1))) else None)
  {
  }

  /** A loaded animal opens a fresh, unlocked round with an empty guess and no
      misses; in Beast mode its clock starts full. */
  lemma LoadedOpens(p: Play, animal: Json)
    requires Valid(p) && p.card.loading && Truthy(animal)
    ensures var s := Step(p, Loaded(animal));
      && s.card.current == Some(animal) && s.card.guess == "" && !s.card.locked && !s.card.loading
      && s.wrongGuesses == 0 && s.round == p.round && s.score == p.score
      && (p.mode == Beast ==> s.beast.clock == Some(Clock(BeastTimeLimit(p.round), 10 * BeastTimeLimit(p.round))))
  {
  }

  /** An answer or failure that arrives when no request is outstanding is dropped. */
  lemma StaleResponseIgnored(p: Play, animal: Json)
    requires Valid(p) && !p.card.loading
    ensures Step(p, Loaded(animal)) == p && Step(p, LoadFailed) == p
  {
  }

  // ---- the invariant -------------------------------------------------------

  lemma LoadedValid(p: Play, animal: Json)
    requires Valid(p)
    ensures Valid(Step(p, Loaded(animal)))
  {
  }

  lemma SubmitValid(p: Play)
    requires Valid(p)
    ensures Valid(Step(p, Submit)) && Step(p, Submit).score >= 0
  {
    if Ready(p) {
      var correct := IsCorrect(p.card.current.value, p.card.guess);
      if p.mode == Beast {
        if correct { BeastCorrect(p); } else { BeastWrong(p); }
      }
    }
  }

  lemma TickValid(p: Play)
    requires Valid(p)
    ensures Valid(Step(p, Tick))
  {
    if Ticking(p) {
      PenaltyBounds(p.score);
    }
  }

  lemma AdvanceValid(p: Play, e: Event)
    requires Valid(p) && (e.Next? || e.AutoAdvance? || e.Retry?)
    ensures Valid(Step(p, e))
  {
    match e
    case Next =>
      if p.mode != Beast && Visible(p) && p.card.locked {
        BeastTimeLimitSteps(p.round + 1);
      }
    case AutoAdvance =>
      if p.beast.advancing {
        BeastTimeLimitSteps(p.round + 1);
      }
    case Retry =>
  }

  /** Every event keeps the invariant. */
  lemma StepValid(p: Play, e: Event)
    requires Valid(p)
    ensures Valid(Step(p, e))
  {
    match e
    case Loaded(animal) =>
      LoadedValid(p, animal);
    case Submit => SubmitValid(p);
    case Tick => TickValid(p);
    case Next => AdvanceValid(p, e);
    case AutoAdvance => AdvanceValid(p, e);
    case Retry => AdvanceValid(p, e);
    case _ =>
  }

  /** Once over, a game stays over: rounds never go back and lives never come back. */
  lemma GameOverStays(p: Play, e: Event)
    requires Valid(p) && GameOver(p)
    ensures GameOver(Step(p, e))
  {
  }

  // ---- the retry button ----------------------------------------------------

  /** As written, a failed request is final: on the error screen every event,
      the retry button included, leaves the page exactly as it is. */
  lemma RetryAsWrittenStuck(p: Play, e: Event)
    requires Valid(p) && p.card.loadError
    ensures StepAsWritten(p, e) == p
  {
  }

  /** With a retry that asks again, the error screen leads back to a playable
      question once an animal arrives. */
  lemma RetryRecovers(p: Play, animal: Json)
    requires Valid(p) && p.card.loadError && !GameOver(p) && Truthy(animal)
    ensures var again := Step(p, Retry);
      && again.card.loading && !again.card.loadError && again.round == p.round
      && Step(again, Loaded(animal)).card.current == Some(animal)
      && Visible(Step(again, Loaded(animal)))
  {
  }
}
