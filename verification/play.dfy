/** The Normal, Easy and Beast games of bioguessr-client/src/playPage.jsx.

    A `Play` holds the page's state; `Step` applies one event (a user action, the
    answer to the animal request, a tick of the Beast interval, the Beast
    auto-advance timeout) and then the page's effects. The request itself, the
    heartbeat audio and everything that is only rendered are not part of it. */
module Play {
  import opened JsMath
  import opened JsString
  import opened Json
  import opened Hints

  datatype PlayMode = Normal | Easy | Beast

  const TotalRounds := 4
  const BeastMaxLives := 3
  const BeastBaseTime := 7
  const BeastMinTime := 4

  /** `useMode()`: the `mode` query parameter. */
  function ModeOf(param: Option<string>): (m: PlayMode)
    ensures m == Easy <==> param == Some("easy")
    ensures m == Beast <==> param == Some("beast")
  {
    if param == Some("easy") then Easy
    else if param == Some("beast") then Beast
    else Normal
  }

  /** The `mode` parameter of the link to each game. */
  function Param(m: PlayMode): Option<string> {
    match m
    case Normal => None
    case Easy => Some("easy")
    case Beast => Some("beast")
  }

  /** The link to each game opens that game, and only the two exact parameter
      values open Easy or Beast: anything else, absent or not, is Normal. */
  lemma ModeOfParam(m: PlayMode, param: Option<string>)
    ensures ModeOf(Param(m)) == m
    ensures m != Normal && ModeOf(param) == m ==> param == Param(m)
    ensures param !in {Param(Easy), Param(Beast)} ==> ModeOf(param) == Normal
  {
  }

  // ---- answers -------------------------------------------------------------

  /** `getCountryList(animal)`: the trimmed, non-empty strings of an array-valued
      `countries` field; [] for anything else. */
  function CountryList(animal: Option<Json>): (list: seq<string>)
    ensures forall k :: 0 <= k < |list| ==> list[k] != "" && IsTrimmed(list[k])
  {
    match animal
    case None => []
    case Some(a) =>
      match Prop(a, "countries")
      case JArr(items) => NonBlankStrings(items)
      case _ => []
  }

  /** `formatCountryAnswer(countries)` */
  function FormatCountryAnswer(countries: seq<string>): string {
    if |countries| == 0 then ""
    else if |countries| == 1 then countries[0]
    else if |countries| <= 3 then Join(countries, ", ")
    else Join(countries[..3], ", ") + ", ..."
  }

  /** `String(current.name || "")`. The text of a number, array or object is not
      modelled: such a name reads as "". */
  function NameText(animal: Json): string {
    match Prop(animal, "name")
    case JStr(s) => s
    case JBool(b) => if b then "true" else ""
    case _ => ""
  }

  /** Some entry of the list normalises to `n`. */
  predicate SomeNormalizes(list: seq<string>, n: string)
    decreases |list|
  {
    |list| > 0 && (Normalize(list[0]) == n || SomeNormalizes(list[1..], n))
  }

  /** The answer check of `submitGuess`: against the countries when there are any,
      otherwise against the animal's name. */
  function IsCorrect(animal: Json, guess: string): bool {
    var list := CountryList(Some(animal));
    if |list| > 0 then SomeNormalizes(list, Normalize(guess))
    else Normalize(guess) == Normalize(NameText(animal))
  }

  // ---- Beast arithmetic ----------------------------------------------------

  /** `computeBeastTimeLimit(round)`: 7 seconds, one less every 10 rounds, never below 4. */
  function BeastTimeLimit(round: int): (limit: int)
    ensures limit >= BeastMinTime
    ensures round >= 1 ==> limit <= BeastBaseTime
  {
    Max(BeastMinTime, BeastBaseTime - FloorDiv(round - 1, 10))
  }

  /** The Beast clock: the limit in seconds, the time left in tenths. */
  datatype Clock = Clock(limit: int, left: int)

  /** `timeRatio`: the share of the time left, clamped to [0, 1]. */
  function TimeRatio(clock: Option<Clock>): real {
    match clock
    case None => 0.0
    case Some(c) => if c.limit > 0 then Clamp01(c.left as real / (10 * c.limit) as real) else 0.0
  }

  /** `gained` of a correct Beast answer. */
  function BeastGain(round: int, streak: int, clock: Option<Clock>): int {
    (100 + Max(0, (round - 1) * 5) + Round(20.0 * TimeRatio(clock))) * (streak + 1)
  }

  /** `Math.floor(score / 3)`: what a Beast miss or time-out costs. */
  function Penalty(score: int): int {
    FloorDiv(score, 3)
  }

  // ---- state ---------------------------------------------------------------

  /** The question on screen. */
  datatype Card = Card(
    current: Option<Json>, guess: string, locked: bool, loadError: bool,
    loading: bool)  // a request for the current round is outstanding

  /** The Beast counters; `advancing` is the auto-advance timeout being pending. */
  datatype BeastState = BeastState(lives: int, streak: int, clock: Option<Clock>, advancing: bool)

  datatype Play = Play(mode: PlayMode, round: int, score: int, wrongGuesses: int, card: Card, beast: BeastState)

  datatype Event =
    | Loaded(animal: Json)   // the `/api/play` request answered
    | LoadFailed             // the request failed
    | Retry                  // the error screen's retry button
    | Type(text: string)     // the country picker changed the guess
    | Submit                 // the submit button
    | Tick                   // the 100 ms Beast interval fired
    | Next                   // the "Next Round" button
    | AutoAdvance            // the Beast 750 ms timeout fired

  function Init(mode: PlayMode): Play {
    Play(mode, 1, 0, 0, Card(None, "", false, false, true), BeastState(BeastMaxLives, 0, None, false))
  }

  /** `gameOver`: all rounds played (Normal, Easy) or all lives lost (Beast). */
  predicate GameOver(p: Play) {
    (p.mode != Beast && p.round > TotalRounds) || (p.mode == Beast && p.beast.lives <= 0)
  }

  /** The question card and its buttons are on screen. */
  predicate Visible(p: Play) {
    !GameOver(p) && !p.card.loadError && p.card.current.Some?
  }

  function LockCard(p: Play): Play {
    p.(card := p.card.(locked := true))
  }

  // ---- handlers ------------------------------------------------------------

  /** A Beast miss: a third of the score (rounded down) and a life are lost, and
      the streak ends. Shared by a wrong answer and the time-out. */
  function BeastMiss(p: Play): Play {
    LockCard(p.(score := Max(0, p.score - Penalty(p.score)),
                beast := p.beast.(lives := Max(0, p.beast.lives - 1), streak := 0)))
  }

  /** `submitGuess()` */
  function SubmitGuess(p: Play): Play {
    if p.card.current.None? || IsBlank(p.card.guess) || p.card.locked then p
    else if IsCorrect(p.card.current.value, p.card.guess) then
      if p.mode == Beast then
        LockCard(p.(score := p.score + BeastGain(p.round, p.beast.streak, p.beast.clock),
                    beast := p.beast.(streak := p.beast.streak + 1)))
      else LockCard(p.(score := p.score + 100))
    else if p.mode == Beast then BeastMiss(p)
    else if p.mode == Easy then
      var next := p.wrongGuesses + 1;
      if next >= 2 then LockCard(p.(wrongGuesses := next)) else p.(wrongGuesses := next)
    else LockCard(p)
  }

  /** The Beast interval is running. */
  predicate Ticking(p: Play) {
    p.mode == Beast && p.card.current.Some? && !p.card.locked && p.beast.clock.Some? && p.beast.clock.value.left > 0
  }

  /** The tick effect's time-out branch would run. */
  predicate TimeUp(p: Play) {
    && p.mode == Beast && p.card.current.Some? && !p.card.locked && p.beast.clock.Some?
    && p.beast.clock.value.left <= 0 && p.beast.lives > 0
  }

  /** `setRound((r) => r + 1)`: the round's request goes out. */
  function NextRound(p: Play): Play {
    p.(round := p.round + 1, card := p.card.(loading := true, loadError := false))
  }

  function Handle(p: Play, e: Event): Play {
    match e
    case Loaded(animal) =>
      if !p.card.loading then p
      else p.(wrongGuesses := 0,
              card := p.card.(current := if Truthy(animal) then Some(animal) else None,
                              guess := "", locked := false, loading := false))
    case LoadFailed =>
      if !p.card.loading then p
      else p.(card := p.card.(current := None, loadError := true, loading := false))
    case Retry => if p.card.loadError && !GameOver(p) then Refetch(p) else p
    case Type(text) => if Visible(p) then p.(card := p.card.(guess := text)) else p
    case Submit => if Visible(p) then SubmitGuess(p) else p
    case Tick =>
      if Ticking(p) then
        var c := p.beast.clock.value;
        p.(beast := p.beast.(clock := Some(c.(left := Max(0, c.left - 1)))))
      else p
    case Next => if p.mode != Beast && Visible(p) && p.card.locked then NextRound(p) else p
    case AutoAdvance => if p.beast.advancing then NextRound(p.(beast := p.beast.(advancing := false))) else p
  }

  /** The request for the current round goes out again. */
  function Refetch(p: Play): Play {
    p.(card := p.card.(loading := true, loadError := false))
  }

  /** The handlers as written: the retry button sets the round to itself, which
      React treats as no change, so no request goes out. */
  function HandleAsWritten(p: Play, e: Event): Play {
    match e
    case Retry => p
    case _ => Handle(p, e)
  }

  /** The clock the reset effect installs for the current round and animal. */
  function FreshClock(p: Play): Option<Clock> {
    if p.mode == Beast && p.card.current.Some? then
      var limit := BeastTimeLimit(p.round);
      Some(Clock(limit, 10 * limit))
    else None
  }

  /** The effects of one render: the clock is reset when the round changed or a
      response replaced the animal (`arrived`; each response is a new object even
      when it is equal to the last), an emptied clock counts as a miss, and the
      auto-advance timeout is (re)registered when the lock or the lives changed. */
  function Settle(before: Play, after: Play, arrived: bool): Play {
    var timed := if arrived || after.round != before.round || after.card.current != before.card.current
                 then after.(beast := after.beast.(clock := FreshClock(after))) else after;
    var checked := if TimeUp(timed) then BeastMiss(timed) else timed;
    if checked.card.locked != before.card.locked || checked.beast.lives != before.beast.lives then
      checked.(beast := checked.beast.(advancing := checked.mode == Beast && checked.card.locked && checked.beast.lives > 0))
    else checked
  }

  /** A response to the outstanding request arrives. */
  predicate Arrives(p: Play, e: Event) {
    e.Loaded? && p.card.loading
  }

  function Step(p: Play, e: Event): Play {
    Settle(p, Handle(p, e), Arrives(p, e))
  }

  function StepAsWritten(p: Play, e: Event): Play {
    Settle(p, HandleAsWritten(p, e), Arrives(p, e))
  }
}
