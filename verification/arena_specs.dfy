/** The effect of each kind of Arena event, stated on whole renders (`Step`). */
module ArenaSpecs {
  import opened JsMath
  import opened JsString
  import opened Json
  import opened Augments
  import opened Offer
  import opened Doom
  import opened ArenaRules
  import opened Arena
  import opened ArenaProps

  /** A render that changes neither the mode, the question key nor the Doom
      question, and leaves no expired clock behind, runs no effect. */
  lemma SettleQuiet(before: Run, after: Run)
    requires after.mode == before.mode && after.screen.questionKey == before.screen.questionKey
    requires after.doom.tier == before.doom.tier && after.doom.count == before.doom.count
    requires !TimedOut(after) || !TickDepsChanged(before, after)
    ensures Settle(before, after) == after
  {
  }

  /** The question screen accepts a submission. */
  predicate QuestionReady(r: Run) {
    r.mode == Question && MainVisible(r) && !IsBlank(r.screen.guess) && !r.screen.locked
  }

  /** In question mode the submit button runs `handleSubmitQuestion` and no effect follows. */
  lemma SubmitRunsHandler(r: Run)
    requires QuestionReady(r)
    ensures Step(r, Submit) == SubmitQuestion(r)
  {
    SettleQuiet(r, SubmitQuestion(r));
  }

  /** Submitting spends one charge of every active per-question augment and the
      armed duel, locks the screen and registers exactly one callback, whatever the
      answer; the multiplier and the permanent augments are untouched. */
  lemma SubmitSpendsCharges(r: Run)
    requires QuestionReady(r)
    ensures Step(r, Submit).buffs.charges == Consume(r.buffs.charges)
    ensures !Step(r, Submit).buffs.duelPending
    ensures Step(r, Submit).screen.locked
    ensures Step(r, Submit).multiplier == r.multiplier
    ensures Step(r, Submit).buffs.oath == r.buffs.oath && Step(r, Submit).buffs.heartyApplied == r.buffs.heartyApplied
    ensures Step(r, Submit).mode == Question && Step(r, Submit).stage == r.stage && Step(r, Submit).qInStage == r.qInStage
    ensures |Step(r, Submit).timeouts| == |r.timeouts| + 1
    ensures Step(r, Submit).timeouts[..|r.timeouts|] == r.timeouts
  {
    SubmitRunsHandler(r);
    var a := Snapshot(r.buffs.charges, r.buffs.duelPending);
    var spent := Lock(r.(buffs := r.buffs.(charges := Consume(r.buffs.charges), duelPending := false)));
    var s := SubmitQuestion(r);
    if EvaluateGuess(r.screen.current, r.screen.guess) {
      var hp := if a.leech then ClampHp(r.hp + 1, r.buffs.oath) else r.hp;
      assert s == Schedule(spent.(hp := hp, score := r.score + Gained(CorrectPoints(a), r.multiplier)), Advance(r.stage, r.qInStage));
    } else {
      var hp := ClampHp(r.hp - HpLoss(a, r.hp), r.buffs.oath);
      assert s == Schedule(spent.(hp := hp), if hp <= 0 then End(HpZero) else Advance(r.stage, r.qInStage));
    }
  }

  /** A right answer never costs HP (Leech Vines heals one, capped by the oath),
      earns the stacked points scaled by the multiplier, and schedules the move on. */
  lemma CorrectAnswer(r: Run)
    requires QuestionReady(r) && Valid(r)
    requires EvaluateGuess(r.screen.current, r.screen.guess)
    ensures Step(r, Submit).hp >= r.hp
    ensures Step(r, Submit).hp == (if r.buffs.charges.leech > 0 then ClampHp(r.hp + 1, r.buffs.oath) else r.hp)
    ensures Step(r, Submit).score
         == r.score + Gained(CorrectPoints(Snapshot(r.buffs.charges, r.buffs.duelPending)), r.multiplier)
    ensures Step(r, Submit).score >= r.score
    ensures Step(r, Submit).timeouts == r.timeouts + [Advance(r.stage, r.qInStage)]
  {
    SubmitRunsHandler(r);
  }

  /** A wrong answer scores nothing and costs the composed loss, capped by the oath;
      the run ends exactly when that leaves no HP. */
  lemma WrongAnswer(r: Run)
    requires QuestionReady(r) && Valid(r)
    requires !EvaluateGuess(r.screen.current, r.screen.guess)
    ensures Step(r, Submit).score == r.score
    ensures Step(r, Submit).hp == ClampHp(r.hp - HpLoss(Snapshot(r.buffs.charges, r.buffs.duelPending), r.hp), r.buffs.oath)
    ensures Step(r, Submit).hp <= r.hp
    ensures Step(r, Submit).hp <= 0 ==> Step(r, Submit).timeouts == r.timeouts + [End(HpZero)]
    ensures Step(r, Submit).hp > 0 ==> Step(r, Submit).timeouts == r.timeouts + [Advance(r.stage, r.qInStage)]
  {
    SubmitRunsHandler(r);
  }

  // ---- moving on -----------------------------------------------------------

  /** A pending timeout leaves the queue when it runs. */
  lemma FireRuns(r: Run, i: nat, draw: nat -> nat)
    requires i < |r.timeouts|
    ensures Handle(r, Fire(i, draw)) == RunTimeout(r.(timeouts := Unschedule(r.timeouts, i)), r.timeouts[i], draw)
  {
  }

  /** The callback of question `q < 4` of stage `s` fetches question `q + 1` of that stage. */
  lemma RouteNextQuestion(r: Run, i: nat, draw: nat -> nat, s: int, q: int)
    requires r.mode == Question && i < |r.timeouts| && r.timeouts[i] == Advance(s, q) && q < QuestionsPerStage
    ensures Step(r, Fire(i, draw)).timeouts == Unschedule(r.timeouts, i)
    ensures Step(r, Fire(i, draw)).mode == Question
    ensures Step(r, Fire(i, draw)).stage == s && Step(r, Fire(i, draw)).qInStage == q + 1
    ensures Step(r, Fire(i, draw)).round == r.round + 1
    ensures Step(r, Fire(i, draw)).screen.loading
  {
    FireRuns(r, i, draw);
  }

  /** After the fourth question of stages 1-3 comes a fresh three-card augment offer,
      and no question is fetched. */
  lemma RouteOffer(r: Run, i: nat, draw: nat -> nat, s: int, q: int)
    requires r.mode == Question && i < |r.timeouts| && r.timeouts[i] == Advance(s, q)
    requires q >= QuestionsPerStage && s < MaxStage
    ensures Step(r, Fire(i, draw)).timeouts == Unschedule(r.timeouts, i)
    ensures Step(r, Fire(i, draw)).mode == AugmentPick
    ensures Step(r, Fire(i, draw)).choices == PickAugmentChoices(3, draw)
    ensures !Step(r, Fire(i, draw)).screen.loading
  {
    FireRuns(r, i, draw);
  }

  /** After the fourth question of stage 4 comes the tier choice. */
  lemma RouteDoomSelect(r: Run, i: nat, draw: nat -> nat, s: int, q: int)
    requires r.mode == Question && i < |r.timeouts| && r.timeouts[i] == Advance(s, q)
    requires q >= QuestionsPerStage && s >= MaxStage
    ensures Step(r, Fire(i, draw)).timeouts == Unschedule(r.timeouts, i)
    ensures Step(r, Fire(i, draw)).mode == DoomSelect
    ensures Step(r, Fire(i, draw)).screen.loading
  {
    FireRuns(r, i, draw);
  }

  /** An augment offer holds three different augments of the catalog. */
  lemma OfferHasThree(draw: nat -> nat)
    ensures |PickAugmentChoices(3, draw)| == 3
    ensures DistinctIds(PickAugmentChoices(3, draw))
  {
    PickAugmentChoicesSpec(3, draw);
  }

  /** The augment screen accepts a pick. */
  predicate AugmentReady(r: Run) {
    r.mode == AugmentPick && MainVisible(r)
  }

  /** Picking a card applies its augment, then moves to question 1 of the next stage.
      The `stage >= 4` branch (the tier choice, or the end at 0 HP) is stated as
      written, though the offer opens only after stages 1-3. */
  lemma PickRoutes(r: Run, i: nat)
    requires AugmentReady(r) && i < |r.choices|
    ensures Step(r, Pick(i)).hp == ApplyAugment(r, r.choices[i].id).hp
    ensures Step(r, Pick(i)).buffs == ApplyAugment(r, r.choices[i].id).buffs
    ensures Step(r, Pick(i)).multiplier == ApplyAugment(r, r.choices[i].id).multiplier
    ensures r.stage < MaxStage ==>
      && Step(r, Pick(i)).mode == Question && Step(r, Pick(i)).stage == r.stage + 1
      && Step(r, Pick(i)).qInStage == 1 && Step(r, Pick(i)).screen.loading
    ensures r.stage >= MaxStage ==> Step(r, Pick(i)).mode == (if r.hp <= 0 then GameOver else DoomSelect)
  {
  }

  /** "Random Choice" picks one of the offered cards. */
  lemma PickRandomIsAPick(r: Run, n: nat)
    requires AugmentReady(r) && |r.choices| > 0
    ensures Step(r, PickRandom(n)) == Step(r, Pick(n % |r.choices|))
  {
  }
}
