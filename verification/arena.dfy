/** The Arena run of bioguessr-client/src/ArenaPage.jsx as a state machine.

    A `Run` holds the component's state. Every user action, network answer, timer
    tick and expiring `setTimeout` is an `Event`; `Step` applies its handler and then
    the component's effects (the animal fetch and the Doom timer), so that one
    `Step` is one committed render. Randomness is carried by the events (`roll`,
    `shuffle`); the network is the `Loaded`/`LoadFailed` events. */
module Arena {
  import opened JsMath
  import opened JsString
  import opened Json
  import opened Augments
  import opened Offer
  import opened Doom
  import opened ArenaRules

  datatype Mode = Question | AugmentPick | DoomSelect | DoomTrial | GameOver

  datatype EndReason = HpZero | DoomDeath | DoomFail

  /** A callback registered with `setTimeout` and not yet run. `Advance` carries the
      stage and question it was registered in, as the closure does. */
  datatype Timeout = Advance(stage: int, q: int) | End(reason: EndReason) | NextDoomQuestion

  /** `doomTimeLimit` in seconds and `doomTimeLeft` in tenths of a second. */
  datatype Timer = Timer(limit: int, left: int)

  /** What the question screen shows and whether a request is in flight. */
  datatype Screen = Screen(
    current: Option<Json>, guess: string, locked: bool, loadError: bool,
    loading: bool,  // a request for the current `questionKey` is outstanding
    questionKey: int)

  /** The augments the run has picked up. */
  datatype Buffs = Buffs(
    charges: Charges, heartyApplied: bool, oath: bool, zoomCurse: bool, blurCurse: bool, duelPending: bool)

  /** The Final Doom trial. */
  datatype DoomRun = DoomRun(tier: Option<Tier>, count: int, timer: Option<Timer>, strikesLeft: int)

  /** The whole state of `ArenaPage`, `feedback` text aside. */
  datatype Run = Run(
    mode: Mode, stage: int, qInStage: int, round: int, hp: int, score: int, multiplier: real,
    screen: Screen, buffs: Buffs, doom: DoomRun, choices: seq<Augment>, timeouts: seq<Timeout>)

  datatype Event =
    | Loaded(animal: Json)        // the outstanding `/api/play` request answered
    | LoadFailed                  // the outstanding request failed
    | Retry                       // the error screen's retry button
    | Type(text: string)          // the country picker changed the guess
    | Submit                      // the submit button
    | Tick                        // the 100 ms Doom interval fired
    | Pick(index: nat)            // an augment card
    | PickRandom(roll: nat)       // "Random Choice"
    | ChooseTier(id: string)      // a Doom tier button
    | Fire(index: nat, shuffle: nat -> nat)  // a pending timeout expired

  /** The state after mounting: the first question's request is on its way. */
  const Init := Run(
    Question, 1, 1, 1, StartHp, 0, 1.0,
    Screen(None, "", false, false, true, 1),
    Buffs(NoCharges, false, false, false, false, false),
    DoomRun(None, 0, None, 0),
    [], [])

  /** The modes in which the component fetches an animal. */
  predicate Fetches(m: Mode) {
    m != AugmentPick && m != GameOver
  }

  /** The question card, guess picker and submit button are on screen. */
  predicate MainVisible(r: Run) {
    r.mode != GameOver && !r.screen.loadError && r.screen.current.Some?
  }

  /** `setLocked(true)` */
  function Lock(r: Run): Run {
    r.(screen := r.screen.(locked := true))
  }

  /** `setTimeout(...)` */
  function Schedule(r: Run, t: Timeout): Run {
    r.(timeouts := r.timeouts + [t])
  }

  // ---- transitions ---------------------------------------------------------

  /** `startNextQuestion(stage, q)` */
  function NextQuestion(r: Run, stage: int, q: int): Run {
    r.(stage := stage, qInStage := q, mode := Question, round := r.round + 1,
       screen := r.screen.(questionKey := r.screen.questionKey + 1))
  }

  /** `startDoomTier(id)`: unknown ids are ignored. */
  function StartDoomTier(r: Run, id: string): Run {
    match TierOf(id)
    case None => r
    case Some(t) =>
      r.(doom := r.doom.(tier := Some(t), count := 1, strikesLeft := ConfigOf(t).strikes), mode := DoomTrial,
         round := r.round + 1, screen := r.screen.(questionKey := r.screen.questionKey + 1))
  }

  // ---- normal questions ----------------------------------------------------

  /** `handleSubmitQuestion()` */
  function SubmitQuestion(r: Run): Run {
    if r.screen.current.None? || IsBlank(r.screen.guess) || r.screen.locked || r.mode != Question then r
    else
      var correct := EvaluateGuess(r.screen.current, r.screen.guess);
      var a := Snapshot(r.buffs.charges, r.buffs.duelPending);
      var spent := Lock(r.(buffs := r.buffs.(charges := Consume(r.buffs.charges), duelPending := false)));
      if correct then
        var hp := if a.leech then ClampHp(r.hp + 1, r.buffs.oath) else r.hp;
        Schedule(spent.(hp := hp, score := r.score + Gained(CorrectPoints(a), r.multiplier)), Advance(r.stage, r.qInStage))
      else
        var hp := ClampHp(r.hp - HpLoss(a, r.hp), r.buffs.oath);
        Schedule(spent.(hp := hp), if hp <= 0 then End(HpZero) else Advance(r.stage, r.qInStage))
  }

  /** The callback `handleSubmitQuestion` schedules: the next question, the augment
      offer after the fourth question of stages 1-3, the tier choice after stage 4. */
  function AfterQuestion(r: Run, stage: int, q: int, draw: nat -> nat): Run {
    if q + 1 > QuestionsPerStage then
      if stage >= MaxStage then r.(mode := DoomSelect)
      else r.(mode := AugmentPick, choices := PickAugmentChoices(3, draw))
    else NextQuestion(r, stage, q + 1)
  }

  // ---- augments ------------------------------------------------------------

  /** The cases of the `switch` in `pickAugment`. */
  datatype Effect =
    | SafeGuard | BloodPact | FlurryGambit | Hearty | ShieldedShell | LeechVines
    | Clairvoyance | LastLifeLens | PhantomShroud | EternalFlurry | DuelFlurry

  /** The `case` label an augment id selects; `None` is the `default` branch. */
  function EffectOf(id: string): Option<Effect> {
    if id == "safe_guard" then Some(SafeGuard)
    else if id == "blood_pact" then Some(BloodPact)
    else if id == "flurry_gambit" then Some(FlurryGambit)
    else if id == "hearty" then Some(Hearty)
    else if id == "shielded_shell" then Some(ShieldedShell)
    else if id == "leech_vines" then Some(LeechVines)
    else if id == "clairvoyance" then Some(Clairvoyance)
    else if id == "last_life_lens" then Some(LastLifeLens)
    else if id == "phantom_shroud" then Some(PhantomShroud)
    else if id == "eternal_flurry" then Some(EternalFlurry)
    else if id == "duel_flurry" then Some(DuelFlurry)
    else None
  }

  /** The body of one `case` of that `switch`. */
  function ApplyEffect(r: Run, e: Effect): Run {
    var b := r.buffs;
    var c := b.charges;
    match e
    case SafeGuard => r.(buffs := b.(charges := c.(safe := c.safe + 4)))
    case BloodPact => r.(hp := ClampHp(Max(0, r.hp - 3), b.oath), multiplier := r.multiplier * 2.0)
    case FlurryGambit => r.(buffs := b.(charges := c.(flurry := c.flurry + 4)))
    case Hearty =>
      if b.heartyApplied then r
      else r.(buffs := b.(heartyApplied := true), hp := ClampHp(r.hp + 5, b.oath), multiplier := r.multiplier * 0.8)
    case ShieldedShell => r.(buffs := b.(charges := c.(shield := c.shield + 4)))
    case LeechVines => r.(buffs := b.(charges := c.(leech := c.leech + 4)))
    case Clairvoyance => r.(buffs := b.(charges := c.(foresight := c.foresight + 3)))
    case LastLifeLens => r.(buffs := b.(oath := true, zoomCurse := true), hp := 1, multiplier := r.multiplier * 3.0)
    case PhantomShroud => r.(buffs := b.(blurCurse := true), multiplier := r.multiplier * 2.5)
    case EternalFlurry => r.(buffs := b.(charges := c.(flurry := 999)))
    case DuelFlurry => r.(buffs := b.(duelPending := true))
  }

  /** The `switch` of `pickAugment`: the effect of one augment id on the run. */
  function ApplyAugment(r: Run, id: string): Run {
    match EffectOf(id)
    case None => r
    case Some(e) => ApplyEffect(r, e)
  }

  /** `pickAugment(augment)`: apply it, then the next stage, or after stage 4 the
      tier choice (or the end, judged on the HP from before the augment). */
  function PickAugment(r: Run, aug: Augment): Run {
    var applied := ApplyAugment(r, aug.id);
    if r.stage >= MaxStage then
      if r.hp <= 0 then applied.(mode := GameOver) else applied.(mode := DoomSelect)
    else NextQuestion(applied, r.stage + 1, 1)
  }

  // ---- Final Doom ----------------------------------------------------------

  /** The share of the time left, as `doomScoring` computes it. */
  function TimeRatio(timer: Option<Timer>): real {
    match timer
    case None => 0.0
    case Some(t) => Ratio(t.limit, t.left)
  }

  /** `doomScoring(correct)` */
  function DoomScoring(r: Run, correct: bool): Run {
    match r.doom.tier
    case None => r
    case Some(tier) =>
      var cfg := ConfigOf(tier);
      if correct then r.(score := r.score + Points(cfg, TimeRatio(r.doom.timer), r.multiplier))
      else if cfg.strikes > 0 && r.doom.strikesLeft > 0 then
        var hp := ClampHp(r.hp - 3, r.buffs.oath);
        var struck := r.(doom := r.doom.(strikesLeft := r.doom.strikesLeft - 1), hp := hp);
        if hp <= 0 then Schedule(Lock(struck), End(DoomDeath)) else struck
      else Schedule(Lock(r), End(DoomFail))
  }

  /** `handleDoomSubmit()` */
  function DoomSubmit(r: Run): Run {
    if r.screen.current.None? || IsBlank(r.screen.guess) || r.screen.locked || r.mode != DoomTrial then r
    else
      var correct := EvaluateGuess(r.screen.current, r.screen.guess);
      var scored := DoomScoring(r, correct);
      if correct then Schedule(Lock(scored), NextDoomQuestion) else scored
  }

  /** `handleDoomTimeout()` */
  function DoomTimeout(r: Run): Run {
    if r.screen.locked || r.mode != DoomTrial then r else DoomScoring(r, false)
  }

  /** The 100 ms interval is running. */
  predicate Ticking(r: Run) {
    r.mode == DoomTrial && r.doom.timer.Some? && !r.screen.locked && r.doom.timer.value.left > 0
  }

  /** The timer effect would call `handleDoomTimeout()`. */
  predicate TimedOut(r: Run) {
    r.mode == DoomTrial && r.doom.timer.Some? && !r.screen.locked && r.doom.timer.value.left <= 0
  }

  /** The timer the time-limit effect installs for the current Doom question. */
  function FreshTimer(r: Run): Option<Timer> {
    if r.mode == DoomTrial && r.doom.tier.Some? then
      var limit := TimeLimit(ConfigOf(r.doom.tier.value), r.doom.count);
      Some(Timer(limit, 10 * limit))
    else None
  }

  /** One tick of the interval: a tenth of a second off, never below 0. */
  function TickDown(r: Run): Run
    requires r.doom.timer.Some?
  {
    var t := r.doom.timer.value;
    r.(doom := r.doom.(timer := Some(t.(left := Max(0, t.left - 1)))))
  }

  /** A pending timeout runs. */
  function RunTimeout(r: Run, t: Timeout, draw: nat -> nat): Run {
    match t
    case Advance(stage, q) => AfterQuestion(r, stage, q, draw)
    case End(_) => r.(mode := GameOver)
    case NextDoomQuestion =>
      r.(screen := r.screen.(locked := false, questionKey := r.screen.questionKey + 1),
         doom := r.doom.(count := r.doom.count + 1))
  }

  /** The timeouts other than the `i`-th. */
  function Unschedule(ts: seq<Timeout>, i: nat): seq<Timeout>
    requires i < |ts|
  {
    ts[..i] + ts[i + 1..]
  }

  // ---- one render ----------------------------------------------------------

  /** The event handlers. */
  function Handle(r: Run, e: Event): Run {
    match e
    case Loaded(animal) =>
      if !r.screen.loading then r
      else r.(screen := r.screen.(current := if Truthy(animal) then Some(animal) else None,
                                  guess := "", locked := false, loading := false))
    case LoadFailed =>
      if !r.screen.loading then r
      else r.(screen := r.screen.(loadError := true, current := None, loading := false))
    case Retry =>
      if r.mode != GameOver && r.screen.loadError then r.(screen := r.screen.(questionKey := r.screen.questionKey + 1))
      else r
    case Type(text) =>
      if MainVisible(r) && !r.screen.locked then r.(screen := r.screen.(guess := text)) else r
    case Submit =>
      if !MainVisible(r) || IsBlank(r.screen.guess) || r.screen.locked then r
      else if r.mode == DoomTrial then DoomSubmit(r)
      else SubmitQuestion(r)
    case Tick =>
      if Ticking(r) then TickDown(r) else r
    case Pick(i) =>
      if r.mode == AugmentPick && MainVisible(r) && i < |r.choices| then PickAugment(r, r.choices[i]) else r
    case PickRandom(n) =>
      if r.mode == AugmentPick && MainVisible(r) && |r.choices| > 0 then PickAugment(r, r.choices[n % |r.choices|])
      else r
    case ChooseTier(id) =>
      if r.mode != DoomSelect || !MainVisible(r) then r
      else (match TierOf(id)
            case None => r
            case Some(t) => if Available(t, r.score) then StartDoomTier(r, id) else r)
    case Fire(i, draw) =>
      if i < |r.timeouts| then RunTimeout(r.(timeouts := Unschedule(r.timeouts, i)), r.timeouts[i], draw)
      else r
  }

  /** The fetch effect: a change of mode or `questionKey` cancels the outstanding
      request and, outside the augment offer and the game-over screen, starts a new one. */
  function FetchEffect(before: Run, after: Run): Run {
    if after.mode == before.mode && after.screen.questionKey == before.screen.questionKey then after
    else if Fetches(after.mode) then after.(screen := after.screen.(loading := true, loadError := false))
    else after.(screen := after.screen.(loading := false))
  }

  predicate TimerDepsChanged(before: Run, after: Run) {
    after.mode != before.mode || after.doom.tier != before.doom.tier || after.doom.count != before.doom.count
  }

  predicate TickDepsChanged(before: Run, after: Run) {
    after.mode != before.mode || after.doom.timer != before.doom.timer || after.screen.locked != before.screen.locked
  }

  /** The time-limit effect, when its dependencies changed. */
  function RefreshTimer(before: Run, after: Run, r: Run): Run {
    if TimerDepsChanged(before, after) then r.(doom := r.doom.(timer := FreshTimer(after))) else r
  }

  /** The timer effect's timeout check, when its dependencies changed. */
  function CheckTimeout(before: Run, r: Run): Run {
    if TickDepsChanged(before, r) && TimedOut(r) then DoomTimeout(r) else r
  }

  /** The effects of one render, with the timer effect judging the timer the
      time-limit effect has just installed. */
  function Settle(before: Run, after: Run): Run {
    CheckTimeout(before, RefreshTimer(before, after, FetchEffect(before, after)))
  }

  /** The effects of one render as the component orders them: the timer effect runs
      in the same commit as the time-limit effect and still sees the old timer. */
  function SettleAsWritten(before: Run, after: Run): Run {
    RefreshTimer(before, after, CheckTimeout(before, FetchEffect(before, after)))
  }

  function Step(r: Run, e: Event): Run {
    Settle(r, Handle(r, e))
  }

  function StepAsWritten(r: Run, e: Event): Run {
    SettleAsWritten(r, Handle(r, e))
  }
}
