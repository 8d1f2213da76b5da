/** What an Arena run guarantees: the invariant every reachable state keeps, and
    the effect of each kind of event. */
module ArenaProps {
  import opened JsMath
  import opened JsString
  import opened Json
  import opened Augments
  import opened Offer
  import opened Doom
  import opened ArenaRules
  import opened Arena

  /** A pending `Advance` names a real stage and question. */
  predicate GoodTimeout(t: Timeout) {
    t.Advance? ==> 1 <= t.stage <= MaxStage && 1 <= t.q <= QuestionsPerStage
  }

  predicate GoodTimeouts(ts: seq<Timeout>) {
    forall k :: 0 <= k < |ts| ==> GoodTimeout(ts[k])
  }

  /** A running clock never shows more than its limit or less than nothing. */
  predicate GoodTimer(t: Option<Timer>) {
    t.Some? ==> t.value.limit > 0 && 0 <= t.value.left <= 10 * t.value.limit
  }

  /** What holds in every state a run can reach. */
  predicate Valid(r: Run) {
    && r.score >= 0
    && r.multiplier > 0.0
    && (r.buffs.oath ==> r.hp <= 1)
    && 1 <= r.stage <= MaxStage && 1 <= r.qInStage <= QuestionsPerStage
    && NonNegative(r.buffs.charges)
    && r.doom.strikesLeft >= 0
    && (r.mode == DoomTrial ==> r.doom.tier.Some? && r.doom.count >= 1)
    && GoodTimer(r.doom.timer)
    && GoodTimeouts(r.timeouts)
  }

  lemma InitValid()
    ensures Valid(Init)
    ensures Init.mode == Question && Init.hp == StartHp && Init.score == 0 && Init.screen.loading
  {
  }

  // ---- invariant, handler by handler ---------------------------------------

  /** Appending a well-formed timeout keeps every pending timeout well-formed. */
  lemma ScheduleValid(r: Run, t: Timeout)
    requires Valid(r) && GoodTimeout(t)
    ensures Valid(Schedule(r, t))
  {
    assert forall k :: 0 <= k < |r.timeouts| ==> (r.timeouts + [t])[k] == r.timeouts[k];
  }

  lemma SubmitCorrectValid(r: Run)
    requires Valid(r) && r.screen.current.Some? && !IsBlank(r.screen.guess) && !r.screen.locked && r.mode == Question
    requires EvaluateGuess(r.screen.current, r.screen.guess)
    ensures Valid(SubmitQuestion(r)) && SubmitQuestion(r).score >= r.score
  {
    var a := Snapshot(r.buffs.charges, r.buffs.duelPending);
    var spent := Lock(r.(buffs := r.buffs.(charges := Consume(r.buffs.charges), duelPending := false)));
    var hp := if a.leech then ClampHp(r.hp + 1, r.buffs.oath) else r.hp;
    ScheduleValid(spent.(hp := hp, score := r.score + Gained(CorrectPoints(a), r.multiplier)), Advance(r.stage, r.qInStage));
  }

  lemma SubmitWrongValid(r: Run)
    requires Valid(r) && r.screen.current.Some? && !IsBlank(r.screen.guess) && !r.screen.locked && r.mode == Question
    requires !EvaluateGuess(r.screen.current, r.screen.guess)
    ensures Valid(SubmitQuestion(r)) && SubmitQuestion(r).score == r.score
  {
    var a := Snapshot(r.buffs.charges, r.buffs.duelPending);
    var spent := Lock(r.(buffs := r.buffs.(charges := Consume(r.buffs.charges), duelPending := false)));
    var hp := ClampHp(r.hp - HpLoss(a, r.hp), r.buffs.oath);
    ScheduleValid(spent.(hp := hp), if hp <= 0 then End(HpZero) else Advance(r.stage, r.qInStage));
  }

  lemma SubmitQuestionValid(r: Run)
    requires Valid(r)
    ensures Valid(SubmitQuestion(r)) && SubmitQuestion(r).score >= r.score
  {
    if !(r.screen.current.None? || IsBlank(r.screen.guess) || r.screen.locked || r.mode != Question) {
      if EvaluateGuess(r.screen.current, r.screen.guess) { SubmitCorrectValid(r); } else { SubmitWrongValid(r); }
    }
  }

  lemma ApplyEffectValid(r: Run, e: Effect)
    requires Valid(r)
    ensures Valid(ApplyEffect(r, e)) && ApplyEffect(r, e).score == r.score
  {
    match e
    case SafeGuard =>
    case BloodPact =>
    case FlurryGambit =>
    case Hearty =>
    case ShieldedShell =>
    case LeechVines =>
    case Clairvoyance =>
    case LastLifeLens =>
    case PhantomShroud =>
    case EternalFlurry =>
    case DuelFlurry =>
  }

  lemma PickAugmentValid(r: Run, aug: Augment)
    requires Valid(r)
    ensures Valid(PickAugment(r, aug)) && PickAugment(r, aug).score == r.score
  {
    match EffectOf(aug.id)
    case None =>
    case Some(e) => ApplyEffectValid(r, e);
  }

  lemma DoomCorrectValid(r: Run)
    requires Valid(r) && r.doom.tier.Some?
    ensures Valid(DoomScoring(r, true)) && DoomScoring(r, true).score >= r.score
  {
    PointsNonNegative(ConfigOf(r.doom.tier.value), TimeRatio(r.doom.timer), r.multiplier);
  }

  lemma DoomWrongValid(r: Run)
    requires Valid(r) && r.doom.tier.Some?
    ensures Valid(DoomScoring(r, false)) && DoomScoring(r, false).score == r.score
  {
    var cfg := ConfigOf(r.doom.tier.value);
    if cfg.strikes > 0 && r.doom.strikesLeft > 0 {
      var hp := ClampHp(r.hp - 3, r.buffs.oath);
      var struck := r.(doom := r.doom.(strikesLeft := r.doom.strikesLeft - 1), hp := hp);
      ScheduleValid(Lock(struck), End(DoomDeath));
    } else {
      ScheduleValid(Lock(r), End(DoomFail));
    }
  }

  lemma DoomScoringValid(r: Run, correct: bool)
    requires Valid(r)
    ensures Valid(DoomScoring(r, correct)) && DoomScoring(r, correct).score >= r.score
  {
    if r.doom.tier.Some? {
      if correct { DoomCorrectValid(r); } else { DoomWrongValid(r); }
    }
  }

  lemma DoomSubmitValid(r: Run)
    requires Valid(r)
    ensures Valid(DoomSubmit(r)) && DoomSubmit(r).score >= r.score
  {
    if !(r.screen.current.None? || IsBlank(r.screen.guess) || r.screen.locked || r.mode != DoomTrial) {
      var correct := EvaluateGuess(r.screen.current, r.screen.guess);
      DoomScoringValid(r, correct);
      ScheduleValid(Lock(DoomScoring(r, correct)), NextDoomQuestion);
    }
  }

  lemma AfterQuestionValid(r: Run, stage: int, q: int, draw: nat -> nat)
    requires Valid(r) && GoodTimeout(Advance(stage, q))
    ensures Valid(AfterQuestion(r, stage, q, draw)) && AfterQuestion(r, stage, q, draw).score == r.score
  {
    if q + 1 > QuestionsPerStage && stage < MaxStage {
      OfferValid(r, draw);
    }
  }

  lemma OfferValid(r: Run, draw: nat -> nat)
    requires Valid(r)
    ensures Valid(r.(mode := AugmentPick, choices := PickAugmentChoices(3, draw)))
  {
  }

  lemma RunTimeoutValid(r: Run, t: Timeout, draw: nat -> nat)
    requires Valid(r) && GoodTimeout(t)
    ensures Valid(RunTimeout(r, t, draw)) && RunTimeout(r, t, draw).score == r.score
  {
    match t
    case Advance(stage, q) => AfterQuestionValid(r, stage, q, draw);
    case End(_) =>
    case NextDoomQuestion =>
  }

  /** Removing the timeout that fires keeps the others well-formed. */
  lemma UnscheduleValid(ts: seq<Timeout>, i: nat)
    requires i < |ts| && GoodTimeouts(ts)
    ensures GoodTimeouts(Unschedule(ts, i)) && GoodTimeout(ts[i])
  {
    var rest := Unschedule(ts, i);
    forall k | 0 <= k < |rest| ensures GoodTimeout(rest[k]) {
      if k < i { assert rest[k] == ts[k]; } else { assert rest[k] == ts[k + 1]; }
    }
  }

  lemma SubmitValid(r: Run)
    requires Valid(r)
    ensures Valid(Handle(r, Submit)) && Handle(r, Submit).score >= r.score
  {
    if MainVisible(r) && !IsBlank(r.screen.guess) && !r.screen.locked {
      if r.mode == DoomTrial { DoomSubmitValid(r); } else { SubmitQuestionValid(r); }
    }
  }

  lemma PickValid(r: Run, i: nat)
    requires Valid(r)
    ensures Valid(Handle(r, Pick(i))) && Handle(r, Pick(i)).score == r.score
  {
    if r.mode == AugmentPick && MainVisible(r) && i < |r.choices| {
      PickAugmentValid(r, r.choices[i]);
    }
  }

  lemma PickRandomValid(r: Run, n: nat)
    requires Valid(r)
    ensures Valid(Handle(r, PickRandom(n))) && Handle(r, PickRandom(n)).score == r.score
  {
    if r.mode == AugmentPick && MainVisible(r) && |r.choices| > 0 {
      PickAugmentValid(r, r.choices[n % |r.choices|]);
    }
  }

  lemma FireValid(r: Run, i: nat, draw: nat -> nat)
    requires Valid(r)
    ensures Valid(Handle(r, Fire(i, draw))) && Handle(r, Fire(i, draw)).score == r.score
  {
    if i < |r.timeouts| {
      UnscheduleValid(r.timeouts, i);
      RunTimeoutValid(r.(timeouts := Unschedule(r.timeouts, i)), r.timeouts[i], draw);
    }
  }

  lemma HandleValid(r: Run, e: Event)
    requires Valid(r)
    ensures Valid(Handle(r, e)) && Handle(r, e).score >= r.score
  {
    match e
    case Submit => SubmitValid(r);
    case Pick(i) => PickValid(r, i);
    case PickRandom(n) => PickRandomValid(r, n);
    case Fire(i, draw) => FireValid(r, i, draw);
    case _ =>
  }

  lemma SettleValid(before: Run, after: Run)
    requires Valid(after)
    ensures Valid(Settle(before, after)) && Settle(before, after).score >= after.score
  {
    var timed := RefreshTimer(before, after, FetchEffect(before, after));
    assert Valid(timed);
    if TickDepsChanged(before, timed) && TimedOut(timed) {
      DoomScoringValid(timed, false);
    }
  }

  /** Every event keeps the invariant. */
  lemma StepValid(r: Run, e: Event)
    requires Valid(r)
    ensures Valid(Step(r, e))
  {
    HandleValid(r, e);
    SettleValid(r, Handle(r, e));
  }

  /** The score never goes down. */
  lemma ScoreNeverDecreases(r: Run, e: Event)
    requires Valid(r)
    ensures Step(r, e).score >= r.score
  {
    HandleValid(r, e);
    SettleValid(r, Handle(r, e));
  }

  lemma SettleAsWrittenValid(before: Run, after: Run)
    requires Valid(after)
    ensures Valid(SettleAsWritten(before, after)) && SettleAsWritten(before, after).score >= after.score
  {
    var fetched := FetchEffect(before, after);
    assert Valid(fetched);
    if TickDepsChanged(before, fetched) && TimedOut(fetched) {
      DoomScoringValid(fetched, false);
    }
  }

  /** With the effects in the component's own order, too, every event keeps the
      invariant and no event lowers the score. */
  lemma StepAsWrittenValid(r: Run, e: Event)
    requires Valid(r)
    ensures Valid(StepAsWritten(r, e))
    ensures StepAsWritten(r, e).score >= r.score
  {
    HandleValid(r, e);
    SettleAsWrittenValid(r, Handle(r, e));
  }
}
