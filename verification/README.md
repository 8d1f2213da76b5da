# BioGuessr game rules in Dafny

BioGuessr is a browser game: the player sees a photo of an animal and guesses a
country where it lives. This project models the rules of its client
(`bioguessr-client/src`) as pure Dafny functions over immutable records, and
proves what those rules guarantee.

- **Arena** (`ArenaPage.jsx`, `arenaAugments.js`): a run of four stages of four
  questions with 10 HP. After each of the first three stages the player picks one
  of three augments, drawn from a rarity-weighted pool. After stage 4 comes a
  Final Doom trial (bronze, silver or gold, unlocked by score) with a shrinking
  clock. The run is the state machine `Arena.Step(run, event)`, with
  `Arena.StepAsWritten` beside it (see below). The events are
  user actions, network answers, 100 ms ticks and expiring `setTimeout`
  callbacks; the callbacks are kept as a queue of pending `Timeout`s.
  `Math.random()` is an injected function `draw: nat -> nat`.
- **Play page** (`playPage.jsx`): the Normal, Easy and Beast games, as
  `Play.Step`. Normal and Easy have four rounds. Beast has three lives, a per-round
  clock, streak points and an automatic advance.
- **Reusable hooks**: `useGameState` (`GameState`), `useBeastMode` (`BeastHook`)
  and `useEasyMode` (`EasyHook`). Each hook is modelled with the same
  handler-then-effects scheme.
- **Daily challenge** (`dailyPage.jsx`): one round per animal of the day, 100
  points per right answer (`Daily.Step`).
- **Helpers**: hint text (`utils/hints.js`, module `Hints`) and the country-list
  cleaner (`utils/countries.js`, module `Countries`).

**How a step is built.** Every `Step` first applies the event handler and then
the component's effects (fetch, clock reset, time-out check, auto-advance) to
the state after the handler, so one step is one committed render. Effects of one
commit all read the values of that render. Where the source misbehaves (see
"Findings"), there are two machines:
- `StepAsWritten` keeps the component's behaviour.
  - In `Arena` and `BeastHook`, its settle function (`SettleAsWritten`) lets the
    time-out check read the clock of the render, not the one the reset effect
    has just installed.
  - In `Play`, its retry button does nothing.
- `Step` is the corrected machine: the fresh clock is installed first, the Beast
  hook also resets on a new round, and the play page's retry asks again.

The invariants (`ArenaProps.StepAsWrittenValid`, `BeastHook.StepValid`) are
proved for both machines. The per-event lemmas name the machine they are about.

**How values are represented.**
- Multipliers are exact rationals.
- `Math.round(x)` is `floor(x + 1/2)`.
- Clocks count whole tenths of a second.
- Animal records are a small JSON datatype (`Json.Json`).
- `trim` removes the ECMAScript white-space set.
- Case mapping covers the ASCII letters.
- The default sort order is lexicographic by character.

**Module layout.** The modules follow the source files:

| file | module |
|---|---|
| `jsmath.dfy` | `JsMath` |
| `jsstring.dfy` | `JsString` |
| `json.dfy` | `Json` |
| `augments.dfy` | `Augments` |
| `offer.dfy` | `Offer` |
| `doom.dfy` | `Doom` |
| `arena_rules.dfy` | `ArenaRules` |
| `arena.dfy` | `Arena` |
| `arena_props.dfy` | `ArenaProps` |
| `arena_specs.dfy` | `ArenaSpecs` |
| `arena_augment_specs.dfy` | `ArenaAugmentSpecs` |
| `arena_doom_specs.dfy` | `ArenaDoomSpecs` |
| `play.dfy` | `Play` |
| `play_specs.dfy` | `PlaySpecs` |
| `play_props.dfy` | `PlayProps` |
| `game_state.dfy` | `GameState` |
| `beast_hook.dfy` | `BeastHook` |
| `easy_hook.dfy` | `EasyHook` |
| `daily.dfy` | `Daily` |
| `hints.dfy` | `Hints` |
| `countries.dfy` | `Countries` |

All paths below are relative to the repository root.

**Behaviour the model keeps as the source has it.**
- Blood Pact picked at 3 HP or less leaves the run at 0 HP, and the run goes on. `pickAugment` would end a run at 0 HP after stage 4, but the offer opens only after stages 1-3, so that branch is never reached.
- The Easy hook locks a round on the third miss; the play page locks it on the second.
- The Beast hook's time ratio is not capped, and its lives have no floor.
- The daily page does not trim, so " Kenya" is wrong.
- `useGameState` does not trim the stored countries.
- Shielded Shell turns Safety Net's loss of 0 into 1.
- The duel's ×3 stacks on top of the other modifiers.

## Model

| member | source | states |
|---|---|---|
| JsMath.Round | bioguessr-client/src/ArenaPage.jsx:416-418 | `Math.round` gives the integer within half of its argument, halves going up |
| JsMath.RoundMonotone | bioguessr-client/src/ArenaPage.jsx:416-418 | `Math.round` never decreases as its argument grows |
| JsMath.CeilDiv | bioguessr-client/src/ArenaPage.jsx:324 | `Math.ceil(a / b)` is the least n with a ≤ n·b |
| JsMath.FloorDiv | bioguessr-client/src/playPage.jsx:44 | `Math.floor(a / b)` is the greatest n with n·b ≤ a |
| JsMath.FloorDivMonotone | bioguessr-client/src/playPage.jsx:43-47 | flooring division never decreases as the dividend grows |
| JsMath.Clamp01 | bioguessr-client/src/ArenaPage.jsx:411-414 | `max(0, min(1, x))` lies in [0, 1] and is x itself on [0, 1] |
| JsString.Trim | bioguessr-client/src/utils/hints.js:12 | `trim` gives a string that starts and ends with no white space and is no longer than the input |
| JsString.TrimRemovesOnlySpaces | bioguessr-client/src/utils/hints.js:12 | everything `trim` removes, at either end, is white space |
| JsString.TrimIsSlice | bioguessr-client/src/utils/hints.js:12 | `trim` keeps one contiguous slice of the input |
| JsString.TrimIdempotent | bioguessr-client/src/playPage.jsx:439 | trimming twice is trimming once |
| JsString.BlankIffAllSpaces | bioguessr-client/src/ArenaPage.jsx:277 | `guess.trim()` is falsy exactly when the guess is only white space |
| JsString.ToLowerCaseless | bioguessr-client/src/dailyPage.jsx:83 | two strings lower-case to the same string exactly when they agree character by character up to the case of the letters |
| JsString.ToLowerIdempotent | bioguessr-client/src/playPage.jsx:433 | lower-casing twice is lower-casing once |
| JsString.ToLower | bioguessr-client/src/dailyPage.jsx:83 | `toLowerCase` keeps the length, leaves no capital ASCII letter and changes no character that is not one |
| JsString.Split | bioguessr-client/src/utils/hints.js:41-42 | `split` gives at least one part and no part contains a separator |
| JsString.JoinSplit | bioguessr-client/src/utils/hints.js:8-9 | splitting at a character and joining back with it gives back the string |
| JsString.SplitJoin | bioguessr-client/src/utils/hints.js:8-9 | joining parts free of the separator and splitting again gives back the parts |
| JsString.LeqTotal | bioguessr-client/src/utils/countries.js:21 | the default sort order relates every pair of strings |
| JsString.LeqTransitive | bioguessr-client/src/utils/countries.js:21 | the default sort order is transitive |
| JsString.LeqAntisymmetric | bioguessr-client/src/utils/countries.js:21 | strings ordered both ways are equal |
| Json.WalkAppend | bioguessr-client/src/utils/hints.js:8-10 | walking a path is walking its prefix, then the rest |
| Json.MissingStep | bioguessr-client/src/utils/hints.js:10 | a missing or null step makes the whole path lead nowhere |
| Json.SomeLowerStrings | bioguessr-client/src/hooks/useGameState.js:50 | on an array of strings the lower-cased scan never throws, and it matches exactly when some element lower-cases to the target |
| Json.SomeLowerStopsAtMatch | bioguessr-client/src/dailyPage.jsx:83 | the scan stops at the first match: later elements, even ones without `toLowerCase`, are never reached |
| Augments.Weight | bioguessr-client/src/ArenaPage.jsx:79-87 | a rarity weighs between 0 and 1; an unknown rarity weighs 1 |
| Augments.Copies | bioguessr-client/src/ArenaPage.jsx:87-88 | every augment goes into the pool 1 to 10 times |
| Augments.CopiesPerRarity | bioguessr-client/src/ArenaPage.jsx:79-89 | common, rare, epic and legendary get 10, 6, 3 and 1 copies (`Math.round(2.5)` is 3); an unknown rarity gets 10 |
| Augments.CatalogDistinct | bioguessr-client/src/arenaAugments.js:10-97 | the catalog has 11 entries with pairwise distinct ids |
| Augments.CatalogIds | bioguessr-client/src/arenaAugments.js:10-97 | the catalog holds 11 different ids |
| Augments.CatalogRaritiesKnown | bioguessr-client/src/arenaAugments.js:10-97 | every rarity is one of the four the weight table knows |
| Augments.CommonCount | bioguessr-client/src/arenaAugments.js:10-97 | 3 entries are common |
| Augments.RareCount | bioguessr-client/src/arenaAugments.js:10-97 | 3 entries are rare |
| Augments.EpicCount | bioguessr-client/src/arenaAugments.js:10-97 | 2 entries are epic |
| Augments.LegendaryCount | bioguessr-client/src/arenaAugments.js:10-97 | 3 entries are legendary |
| Augments.OtherCount | bioguessr-client/src/arenaAugments.js:10-97 | no entry has a rarity outside the table |
| Augments.PoolLength | bioguessr-client/src/ArenaPage.jsx:86-90 | the pool's size is the copy count summed over the entries, per rarity |
| Augments.PoolMembers | bioguessr-client/src/ArenaPage.jsx:86-90 | every pool entry is a catalog entry, and the pool covers exactly the catalog's ids |
| Augments.PoolSize | bioguessr-client/src/ArenaPage.jsx:86-90 | the pool holds 3·10 + 3·6 + 2·3 + 3·1 = 57 entries covering the 11 ids |
| Augments.IdsIndex | bioguessr-client/src/ArenaPage.jsx:98 | an id is among a list's ids exactly when some entry carries it |
| Augments.DistinctIdsCount | bioguessr-client/src/ArenaPage.jsx:93-100 | a list with distinct ids has as many ids as entries |
| Offer.Remove | bioguessr-client/src/ArenaPage.jsx:97 | `splice(idx, 1)` drops exactly one entry and removes no other id |
| Offer.Draws | bioguessr-client/src/ArenaPage.jsx:92-102 | the loop extends the choices so far, never beyond `count`, only with pool entries |
| Offer.DrawsDistinct | bioguessr-client/src/ArenaPage.jsx:93-100 | the loop never offers an id twice |
| Offer.DrawsSize | bioguessr-client/src/ArenaPage.jsx:94-101 | the loop stops with `min(count, number of distinct ids available)` choices |
| Offer.OfferSpec | bioguessr-client/src/ArenaPage.jsx:78-103 | from a catalog with distinct ids, an offer holds `min(count, catalog size)` catalog entries with distinct ids |
| Offer.PickAugmentChoicesSpec | bioguessr-client/src/ArenaPage.jsx:78-103 | `pickAugmentChoices(n)` returns `min(n, 11)` distinct catalog augments, whatever the random draws |
| Offer.OfferLoop | bioguessr-client/src/ArenaPage.jsx:92-102 | the `while` loop with `usedIds` terminates, since each pass removes one pool entry, and computes the offer |
| Doom.ConfigOf | bioguessr-client/src/ArenaPage.jsx:16-59 | every tier has a positive minimum time no larger than its base time, positive steps and multiplier, and no negative strikes |
| Doom.TierOfId | bioguessr-client/src/ArenaPage.jsx:16-59 | each `DOOM_CONFIGS` entry's id selects that tier and no other, and no other string selects a tier |
| Doom.TimeLimit | bioguessr-client/src/ArenaPage.jsx:199-205 | a Doom question's limit is never below the tier's minimum nor above its base time |
| Doom.TimeLimitNonIncreasing | bioguessr-client/src/ArenaPage.jsx:199-205 | a later Doom question never gets more time |
| Doom.TimeLimitExamples | bioguessr-client/src/ArenaPage.jsx:199-205 | bronze: 12 s at question 1, 11 s at 4, 4 s at 100; silver 8 s at 3; gold 7 s at the unset count 0, 2 s at 9 |
| Doom.Ratio | bioguessr-client/src/ArenaPage.jsx:411-414 | the share of time left lies in [0, 1], and on a clock that has not overrun it is exactly the tenths left over the tenths allowed |
| Doom.AvailableOrder | bioguessr-client/src/ArenaPage.jsx:673-675 | bronze is always open, silver from 600 and gold from 1200; a harder tier is open only when the easier ones are |
| Doom.PointsMonotone | bioguessr-client/src/ArenaPage.jsx:416-418 | a faster correct Doom answer never earns fewer points |
| Doom.SpeedBonusMonotone | bioguessr-client/src/ArenaPage.jsx:417 | the separately rounded speed bonus grows with the ratio |
| Doom.PointsNonNegative | bioguessr-client/src/ArenaPage.jsx:416-418 | Doom points are never negative |
| Doom.PointsExamples | bioguessr-client/src/ArenaPage.jsx:416-418 | full-time answers at multiplier 1 earn 240 in bronze, 320 in silver and 600 in gold; a zero-time bronze answer earns 144 |
| ArenaRules.NormalizedCountries | bioguessr-client/src/ArenaPage.jsx:72-74 | the normalised country list holds no empty string |
| ArenaRules.CountryList | bioguessr-client/src/ArenaPage.jsx:69-75 | the Arena's country list holds no empty string |
| ArenaRules.NormalizedByHas | bioguessr-client/src/ArenaPage.jsx:72-74 | a non-empty string is listed exactly when some string element normalises to it |
| ArenaRules.EvaluateGuessSpec | bioguessr-client/src/ArenaPage.jsx:276-282 | an Arena guess is right exactly when it is not blank and its trimmed, lower-cased form is that of some country string |
| ArenaRules.ClampHp | bioguessr-client/src/ArenaPage.jsx:270-274 | `clampHp` never raises HP; under the oath it caps at 1; it changes the value only under the oath above 1; there is no lower bound |
| ArenaRules.SpentExactlyWhenActive | bioguessr-client/src/ArenaPage.jsx:290-303 | an augment counts for a question exactly when that question spends one of its charges; counters stay non-negative and never grow |
| ArenaRules.HpLoss | bioguessr-client/src/ArenaPage.jsx:306-358 | the wrong-answer loss: 1 with Shielded Shell (even after Safety Net), else 2 with Flurry, else 0 with Safety Net, else 1; an armed duel raises it to at least `ceil(hp/2)` |
| ArenaRules.PointsBeforeDuel | bioguessr-client/src/ArenaPage.jsx:306-330 | before the duel and Leech Vines a question is worth 0 to 120 points |
| ArenaRules.CorrectPoints | bioguessr-client/src/ArenaPage.jsx:306-343 | a correct question is worth 0 to 360 points |
| ArenaRules.DuelTriples | bioguessr-client/src/ArenaPage.jsx:332-335 | without Leech Vines, the duel triples exactly what the other modifiers give |
| ArenaRules.PointsExamples | bioguessr-client/src/ArenaPage.jsx:306-346 | the stacking is rounded step by step: 100 plain, 53 with Safety Net and Shielded, 84 with Safety Net and Flurry, 113 with everything, 360 with Flurry and the duel |
| ArenaRules.Gained | bioguessr-client/src/ArenaPage.jsx:346 | scaling by a non-negative multiplier never makes points negative |
| ArenaProps.InitValid | bioguessr-client/src/ArenaPage.jsx:110-151 | a run starts valid, on a question, with 10 HP, score 0 and the first request out |
| ArenaProps.SubmitQuestionValid | bioguessr-client/src/ArenaPage.jsx:285-403 | `handleSubmitQuestion` keeps the run invariant and never lowers the score |
| ArenaProps.PickAugmentValid | bioguessr-client/src/ArenaPage.jsx:469-543 | `pickAugment` keeps the run invariant and leaves the score alone |
| ArenaProps.DoomScoringValid | bioguessr-client/src/ArenaPage.jsx:406-446 | `doomScoring` keeps the run invariant and never lowers the score |
| ArenaProps.StepValid | bioguessr-client/src/ArenaPage.jsx:156-543 | with the clock installed before the time-out check, every event keeps the invariant: non-negative score, positive multiplier, HP ≤ 1 under the oath, stage and question in range, non-negative charges and strikes, a sane Doom clock and well-formed pending callbacks |
| ArenaProps.ScoreNeverDecreases | bioguessr-client/src/ArenaPage.jsx:285-466 | with the clock installed before the time-out check, no event lowers the Arena score |
| ArenaProps.StepAsWrittenValid | bioguessr-client/src/ArenaPage.jsx:156-543 | with the effects in the component's own order, too, every event keeps the invariant and never lowers the score |
| ArenaSpecs.SubmitRunsHandler | bioguessr-client/src/ArenaPage.jsx:800-803 | on the question screen the submit button runs `handleSubmitQuestion` and no effect changes its result |
| ArenaSpecs.SubmitSpendsCharges | bioguessr-client/src/ArenaPage.jsx:290-304 | a submission, right or wrong, spends one charge of every active counter, disarms the duel, locks, and schedules exactly one callback; the multiplier and the permanent flags stay |
| ArenaSpecs.CorrectAnswer | bioguessr-client/src/ArenaPage.jsx:337-351 | a right answer never costs HP (Leech Vines heals 1 through `clampHp`) and adds the stacked points scaled by the multiplier |
| ArenaSpecs.WrongAnswer | bioguessr-client/src/ArenaPage.jsx:352-386 | a wrong answer scores nothing and costs the composed loss through `clampHp`; the run ends exactly when no HP is left |
| ArenaSpecs.FireRuns | bioguessr-client/src/ArenaPage.jsx:389 | a pending callback leaves the queue when it runs |
| ArenaSpecs.RouteNextQuestion | bioguessr-client/src/ArenaPage.jsx:389-402 | after question q < 4 comes question q + 1 of the same stage, with its request out |
| ArenaSpecs.RouteOffer | bioguessr-client/src/ArenaPage.jsx:391-398 | after question 4 of stages 1-3 comes a fresh offer and no request |
| ArenaSpecs.RouteDoomSelect | bioguessr-client/src/ArenaPage.jsx:393-395 | after question 4 of stage 4 comes the tier choice |
| ArenaSpecs.OfferHasThree | bioguessr-client/src/ArenaPage.jsx:242-245 | an augment offer always holds three distinct augments |
| ArenaSpecs.PickRoutes | bioguessr-client/src/ArenaPage.jsx:532-542 | a pick applies the augment, then opens question 1 of the next stage; the `stage >= 4` branch (the tier choice, or the end at 0 HP) is modelled too, though the offer never opens after stage 4 |
| ArenaSpecs.PickRandomIsAPick | bioguessr-client/src/ArenaPage.jsx:875-887 | "Random Choice" is the pick of one offered card |
| ArenaAugmentSpecs.EffectOfIdOf | bioguessr-client/src/ArenaPage.jsx:472-526 | each `case` of the switch is reached by its own id |
| ArenaAugmentSpecs.IdOfEffectOf | bioguessr-client/src/ArenaPage.jsx:472-530 | and by no other id |
| ArenaAugmentSpecs.CaseInCatalog | bioguessr-client/src/arenaAugments.js:10-97 | every `case` label is a catalog id |
| ArenaAugmentSpecs.CatalogHasCase | bioguessr-client/src/arenaAugments.js:10-97 | every catalog id has its own `case` |
| ArenaAugmentSpecs.UnknownAugmentIgnored | bioguessr-client/src/ArenaPage.jsx:528-529 | an id outside the catalog leaves the run unchanged |
| ArenaAugmentSpecs.ConsumeNCounter | bioguessr-client/src/ArenaPage.jsx:299-303 | after j submissions a counter of n charges holds `max(0, n − j)` |
| ArenaAugmentSpecs.AdvertisedCharges | bioguessr-client/src/ArenaPage.jsx:473-503 | each timed augment adds exactly its advertised duration (4, 4, 4, 4, 3) to the counter its effect reads |
| ArenaAugmentSpecs.LastsAdvertised | bioguessr-client/src/arenaAugments.js:11-62 | a timed augment picked on an empty counter is active for exactly the advertised number of questions |
| ArenaAugmentSpecs.EternalFlurrySets | bioguessr-client/src/ArenaPage.jsx:519-521 | Eternal Flurry sets the Flurry counter to 999 rather than adding |
| ArenaAugmentSpecs.BloodPactCost | bioguessr-client/src/ArenaPage.jsx:476-479 | Blood Pact costs 3 HP, never going below 0, and doubles the multiplier |
| ArenaAugmentSpecs.HeartyOnce | bioguessr-client/src/ArenaPage.jsx:483-489 | Hearty gives +5 HP and ×0.8 once per run; a second pick does nothing |
| ArenaAugmentSpecs.LastLifeLensOath | bioguessr-client/src/ArenaPage.jsx:507-512 | Last Life Lens leaves exactly 1 HP under the oath, with zoom and ×3; no later heal lifts HP above 1 |
| ArenaAugmentSpecs.DuelArmsOnce | bioguessr-client/src/ArenaPage.jsx:524-526 | Duel Flurry arms the duel for the next submission |
| ArenaDoomSpecs.TierRefused | bioguessr-client/src/ArenaPage.jsx:251-253 | an unknown tier id, or a tier the score has not unlocked, changes nothing |
| ArenaDoomSpecs.TierStarts | bioguessr-client/src/ArenaPage.jsx:251-260 | an unlocked tier starts at Doom question 1 with the tier's strikes and its base time on the clock |
| ArenaDoomSpecs.DoomSubmitRunsHandler | bioguessr-client/src/ArenaPage.jsx:448-451 | in the trial the submit button runs `handleDoomSubmit` and no effect changes its result |
| ArenaDoomSpecs.DoomCorrect | bioguessr-client/src/ArenaPage.jsx:448-459 | a right Doom answer adds the tier's points for the time left, locks and schedules the next Doom question |
| ArenaDoomSpecs.DoomRatioExact | bioguessr-client/src/ArenaPage.jsx:411-414 | the paid share of time is in [0, 1] and equals the tenths left over the tenths allowed |
| ArenaDoomSpecs.FasterEarnsMore | bioguessr-client/src/ArenaPage.jsx:410-418 | answering with less time left never earns more |
| ArenaDoomSpecs.RatioMonotone | bioguessr-client/src/ArenaPage.jsx:411-414 | more time left never gives a smaller ratio |
| ArenaDoomSpecs.DoomStrike | bioguessr-client/src/ArenaPage.jsx:426-439 | a miss with a strike in hand costs the strike and 3 HP; the question stays open unless no HP is left, which ends the run |
| ArenaDoomSpecs.DoomFailOnMiss | bioguessr-client/src/ArenaPage.jsx:442-445 | a miss without a strike ends the run |
| ArenaDoomSpecs.IdleTick | bioguessr-client/src/ArenaPage.jsx:211-214 | without a running Doom clock a tick does nothing |
| ArenaDoomSpecs.TickCounts | bioguessr-client/src/ArenaPage.jsx:221-227 | a tick takes one tenth off the clock |
| ArenaDoomSpecs.TickExpires | bioguessr-client/src/ArenaPage.jsx:216-218 | the tick that empties the clock is scored as a wrong answer |
| ArenaDoomSpecs.NextDoomQuestionFresh | bioguessr-client/src/ArenaPage.jsx:455-459 | the next Doom question opens unlocked, with the full limit for its number |
| ArenaDoomSpecs.StaleTimeoutAsWritten | bioguessr-client/src/ArenaPage.jsx:193-231 | with the effects in the component's order, the next Doom question is failed on the old, empty clock; with the clock reset first it opens normally |
| ArenaDoomSpecs.StaleTimeoutReachable | bioguessr-client/src/ArenaPage.jsx:211-231 | a bronze run reaches that state: a time-out spends the strike, then a right answer |
| ArenaDoomSpecs.StaleResponseIgnored | bioguessr-client/src/ArenaPage.jsx:167 | an answer to a cancelled request is dropped |
| ArenaDoomSpecs.LoadedShows | bioguessr-client/src/ArenaPage.jsx:166-172 | a loaded animal becomes the question, with an empty, unlocked guess |
| ArenaDoomSpecs.RetryRefetches | bioguessr-client/src/ArenaPage.jsx:593-597 | a failed request shows the error screen, whose retry sends a new request |
| ArenaDoomSpecs.GameOverIgnoresInput | bioguessr-client/src/ArenaPage.jsx:546-578 | on the game-over screen no user action or tick changes anything |
| ArenaDoomSpecs.EndFires | bioguessr-client/src/ArenaPage.jsx:262-265 | every scheduled end of the run leads to the game-over screen with the score kept |
| Play.ModeOfParam | bioguessr-client/src/playPage.jsx:15-22 | the link for each game opens that game; only the exact values "easy" and "beast" open Easy or Beast, anything else is Normal |
| Play.CountryList | bioguessr-client/src/playPage.jsx:25-32 | the play page's country list holds only non-empty, trimmed strings |
| Play.BeastTimeLimit | bioguessr-client/src/playPage.jsx:43-47 | the Beast limit lies in [4, 7] seconds |
| PlaySpecs.CountryListHas | bioguessr-client/src/playPage.jsx:25-32 | a country is listed exactly when it is the non-empty trimmed text of a string in the `countries` array |
| PlaySpecs.IsCorrectByCountry | bioguessr-client/src/playPage.jsx:433-440 | against a non-empty list, a guess is right exactly when its trimmed, lower-cased form is that of some country |
| PlaySpecs.IsCorrectByName | bioguessr-client/src/playPage.jsx:441-445 | without countries the guess is judged against the name up to spacing and case: the name itself is right, and an animal without a name accepts no guess that can be submitted |
| PlaySpecs.IsCorrectIgnoresSpacing | bioguessr-client/src/playPage.jsx:433 | spacing around the guess and letter case never change the verdict |
| PlaySpecs.FormatCountryAnswerShape | bioguessr-client/src/playPage.jsx:35-40 | the revealed answer is the first three countries joined by ", ", with ", ..." exactly when more were left out |
| PlaySpecs.FormatCountryAnswerExamples | bioguessr-client/src/playPage.jsx:35-40 | nothing for no country, the country for one, a joined list for two, three of four plus ", ..." |
| PlaySpecs.BeastTimeLimitNonIncreasing | bioguessr-client/src/playPage.jsx:43-47 | the Beast limit never grows from round to round |
| PlaySpecs.BeastTimeLimitSteps | bioguessr-client/src/playPage.jsx:43-47 | 7 s for rounds 1-10, 6 s for 11-20, 5 s for 21-30, 4 s from 31 on |
| PlaySpecs.TimeRatioExact | bioguessr-client/src/playPage.jsx:455-458 | the Beast ratio is in [0, 1] and exactly the tenths left over the tenths allowed |
| PlaySpecs.BeastGainBounds | bioguessr-client/src/playPage.jsx:450-462 | a right Beast answer earns between 100 and 120 + 5·(round − 1) per link of the new streak |
| PlaySpecs.PenaltyBounds | bioguessr-client/src/playPage.jsx:487-488 | a Beast miss keeps at least two thirds of the score and never makes it negative |
| PlayProps.InitValid | bioguessr-client/src/playPage.jsx:55-68 | the page starts valid and not over |
| PlayProps.SettleQuiet | bioguessr-client/src/playPage.jsx:194-280 | a render that changes nothing the effects watch runs none of them |
| PlayProps.SettleSettles | bioguessr-client/src/playPage.jsx:211-225 | the effects never leave an expired, unpenalised clock behind |
| PlayProps.SubmitIgnored | bioguessr-client/src/playPage.jsx:431 | without an animal, with a blank guess or once locked, submitting does nothing |
| PlayProps.PlainCorrect | bioguessr-client/src/playPage.jsx:470-479 | outside Beast a right answer adds exactly 100 and locks |
| PlayProps.NormalWrong | bioguessr-client/src/playPage.jsx:516-522 | in Normal a wrong answer scores nothing and locks at once |
| PlayProps.EasyWrong | bioguessr-client/src/playPage.jsx:500-515 | in Easy a miss counts one more, and the round locks exactly on the second miss |
| PlayProps.BeastCorrect | bioguessr-client/src/playPage.jsx:450-469 | a right Beast answer extends the streak, adds the streak-scaled points, locks and makes the auto-advance pending |
| PlayProps.BeastWrong | bioguessr-client/src/playPage.jsx:485-497 | a wrong Beast answer takes `floor(score/3)` and a life, ends the streak and locks; the auto-advance is pending exactly when a life is left |
| PlayProps.TickCounts | bioguessr-client/src/playPage.jsx:228-234 | a tick takes one tenth off the running Beast clock |
| PlayProps.TimeoutIsAMiss | bioguessr-client/src/playPage.jsx:211-225 | the tick that empties the clock costs exactly what a wrong answer costs |
| PlayProps.IdleTick | bioguessr-client/src/playPage.jsx:206-209 | without a running clock a tick does nothing |
| PlayProps.AutoAdvanceNext | bioguessr-client/src/playPage.jsx:270-280 | the auto-advance moves to the next round, requests its animal and restarts the clock at that round's limit |
| PlayProps.LoadedOpens | bioguessr-client/src/playPage.jsx:150-156 | a loaded animal opens an unlocked round with an empty guess, no misses and, in Beast, a full clock |
| PlayProps.StaleResponseIgnored | bioguessr-client/src/playPage.jsx:150 | an answer to a cancelled request is dropped |
| PlayProps.StepValid | bioguessr-client/src/playPage.jsx:140-527 | every event keeps the page invariant: non-negative score, 0-3 lives, a sane clock, at most two Easy misses, no expired clock left |
| PlayProps.GameOverStays | bioguessr-client/src/playPage.jsx:91-93 | once over, a game stays over |
| PlayProps.RetryAsWrittenStuck | bioguessr-client/src/playPage.jsx:413 | as written, the error screen is final: every event, retry included, leaves it as it is |
| PlayProps.RetryRecovers | bioguessr-client/src/playPage.jsx:408-414 | with a retry that asks again, the error screen leads back to a playable question |
| GameState.GameOverMonotone | bioguessr-client/src/hooks/useGameState.js:13 | a game without a round count never ends; once over, later rounds stay over |
| GameState.CheckGuessSpec | bioguessr-client/src/hooks/useGameState.js:47-51 | no verdict without an animal, with a blank guess or once locked; otherwise right exactly when some country, lower-cased but not trimmed, equals the trimmed, lower-cased guess |
| GameState.UntrimmedCountryNeverMatches | bioguessr-client/src/hooks/useGameState.js:50 | a country stored with white space at either end matches no guess |
| GameState.SubmitCorrectAdds | bioguessr-client/src/hooks/useGameState.js:53-57 | `submitCorrect` adds exactly the points, locks and changes nothing else |
| GameState.SubmitWrongPenalty | bioguessr-client/src/hooks/useGameState.js:59-65 | `submitWrong` always locks; a positive penalty comes off the score, stopping at 0; any other penalty leaves it |
| GameState.ArriveOpensRound | bioguessr-client/src/hooks/useGameState.js:27-33 | an answer opens the round afresh with the new animal, a falsy one reading as none |
| GameState.NextRoundIsResetPlusOne | bioguessr-client/src/hooks/useGameState.js:71-82 | `nextRound` is `resetRoundState` plus one round; both clear guess, lock and feedback, and the reset is idempotent |
| BeastHook.TimeLimit | bioguessr-client/src/hooks/useBeastMode.js:15-18 | the hook's limit exists exactly when enabled and then lies in [4, 7] seconds |
| BeastHook.InitValid | bioguessr-client/src/hooks/useBeastMode.js:8-10 | the hook starts valid, alive and without a clock |
| BeastHook.TimeLimitAgrees | bioguessr-client/src/hooks/useBeastMode.js:15-18 | the hook's limit is the play page's Beast limit |
| BeastHook.PointsAgree | bioguessr-client/src/hooks/useBeastMode.js:74-77 | on a clock that has not overrun, the hook's points are the play page's Beast points |
| BeastHook.RatioUncapped | bioguessr-client/src/hooks/useBeastMode.js:76 | unlike the page's, the hook's ratio is not capped at 1: twice the limit gives ratio 2 and a bonus of 40 |
| BeastHook.CorrectAdds | bioguessr-client/src/hooks/useBeastMode.js:74-82 | a right answer adds the points, extends the streak and locks; lives and clock stay |
| BeastHook.WrongCosts | bioguessr-client/src/hooks/useBeastMode.js:84-91 | a wrong answer takes `floor(score/3)` and one life with no floor, ends the streak and locks |
| BeastHook.DisabledInert | bioguessr-client/src/hooks/useBeastMode.js:93-104 | disabled, the hook has no limit, ratio 0, no clock, and its handlers do nothing |
| BeastHook.TickCounts | bioguessr-client/src/hooks/useBeastMode.js:28-32 | a tick takes a tenth off a running clock, never below 0; otherwise it does nothing |
| BeastHook.TimeoutIsAWrongAnswer | bioguessr-client/src/hooks/useBeastMode.js:35-43 | the tick that empties the clock costs what a wrong answer costs |
| BeastHook.TimeoutOnlyWhenDue | bioguessr-client/src/hooks/useBeastMode.js:35-43 | the time-up penalty is taken only when enabled, on an empty clock, an open round and a life left, and takes exactly one life |
| BeastHook.DeadStaysDead | bioguessr-client/src/hooks/useBeastMode.js:99 | a dead hook stays dead and never advances |
| BeastHook.AutoAdvanceNext | bioguessr-client/src/hooks/useBeastMode.js:20-50 | as written, the auto-advance moves to the next round with the same animal; the clock is reset only when the round's limit drops, otherwise it carries over, and an empty clock is charged again |
| BeastHook.AutoAdvanceFullClock | bioguessr-client/src/hooks/useBeastMode.js:46-50 | with the clock reset on every new round, the auto-advance opens the next round on a full clock |
| BeastHook.StepValid | bioguessr-client/src/hooks/useBeastMode.js:20-50 | every event keeps the hook invariant, as written and corrected |
| BeastHook.DoubleTimeoutAsWritten | bioguessr-client/src/hooks/useBeastMode.js:20-43 | as written, one time-out is paid three times: score 90 and 3 lives become 60 and 2, then 40 and 1 on the auto-advance, then 27 and 0 when the next animal arrives |
| BeastHook.SingleTimeout | bioguessr-client/src/hooks/useBeastMode.js:20-25 | with the clock reset on every new round, the same time-out costs once: round 2 opens on a full 7-second clock and the next animal costs nothing |
| BeastHook.NewRoundFullClock | bioguessr-client/src/hooks/useBeastMode.js:20-25 | every new round with an animal opens unlocked on a full clock |
| EasyHook.HintGating | bioguessr-client/src/hooks/useEasyMode.js:14-22 | the feature hint shows exactly when enabled, with an animal and at least one miss; the weight hint with at least two |
| EasyHook.WrongCounts | bioguessr-client/src/hooks/useEasyMode.js:24-35 | each miss counts exactly one; the round locks once the count reaches 3 and nothing else of the round changes |
| EasyHook.ThirdMissLocks | bioguessr-client/src/hooks/useEasyMode.js:24-35 | from a fresh round the first two misses leave it open and the third locks it |
| EasyHook.ResetZero | bioguessr-client/src/hooks/useEasyMode.js:8-12 | a new animal, or `resetWrongGuesses`, sets the count to 0 |
| EasyHook.DisabledInert | bioguessr-client/src/hooks/useEasyMode.js:41-50 | disabled, the hook shows no hint and count 0, and its handlers do nothing |
| EasyHook.LocksLaterThanPage | bioguessr-client/src/hooks/useEasyMode.js:27 | the hook and the play page disagree: the second miss locks the page's round but not the hook's |
| Daily.TotalRounds | bioguessr-client/src/dailyPage.jsx:16 | the daily game always counts at least one round |
| Daily.NextReachesEnd | bioguessr-client/src/dailyPage.jsx:16-18 | "Next Round" after the last animal ends the game; after an earlier one it shows the next animal of the list |
| Daily.SubmitIgnored | bioguessr-client/src/dailyPage.jsx:80 | without an animal, without a guess or once locked, submitting does nothing |
| Daily.SubmitScores | bioguessr-client/src/dailyPage.jsx:83-90 | a daily answer is right exactly when some country equals it up to case, with no trimming; right earns exactly 100, wrong nothing; both lock |
| Daily.NonArrayThrows | bioguessr-client/src/dailyPage.jsx:83 | a `countries` field that is not an array makes the handler throw and change nothing |
| Daily.CaseButNotSpacing | bioguessr-client/src/dailyPage.jsx:83 | with the country "Kenya", "kENYA" is right and " Kenya" is wrong |
| Daily.NextRoundClears | bioguessr-client/src/dailyPage.jsx:93-98 | "Next Round" moves on one round with cleared guess, lock and feedback and the score kept |
| Daily.InitValid | bioguessr-client/src/dailyPage.jsx:4-14 | the page starts valid and loading |
| Daily.StepValid | bioguessr-client/src/dailyPage.jsx:79-98 | every event keeps the score a whole number of answers, no more than the rounds answered |
| Daily.EmptyListWaits | bioguessr-client/src/dailyPage.jsx:16-18 | an empty list of the day leaves the page waiting for good, while the header counts 5 rounds |
| Daily.FinalScoreBound | bioguessr-client/src/dailyPage.jsx:85 | the final score is at most 100 per animal of the day |
| Hints.Get | bioguessr-client/src/utils/hints.js:6-16 | unless the default itself is a string, any string `get` returns is trimmed |
| Hints.GetDottedPath | bioguessr-client/src/utils/hints.js:6-16 | a dotted path visits its keys in order; null gives the default, a string comes back trimmed, anything else unchanged |
| Hints.GetMissingStep | bioguessr-client/src/utils/hints.js:10-11 | a missing or null step anywhere on the path gives the default |
| Hints.GetKey | bioguessr-client/src/utils/hints.js:6-16 | a key without a dot is read as a one-step path |
| Hints.FirstNonBlank | bioguessr-client/src/utils/hints.js:19-25 | the fallback gives "" exactly when every candidate is empty |
| Hints.PickFirst | bioguessr-client/src/utils/hints.js:19-25 | `pickFirst` gives "" exactly when no path holds a non-blank string |
| Hints.PickFirstFirstHit | bioguessr-client/src/utils/hints.js:20-22 | `pickFirst` gives the trimmed value of the first path holding a non-blank string |
| Hints.PickFirstIgnoresLater | bioguessr-client/src/utils/hints.js:20-22 | after a hit, later paths are never consulted |
| Hints.PickFirstTrimmed | bioguessr-client/src/utils/hints.js:22 | the result of `pickFirst` is trimmed |
| Hints.NonBlankStrings | bioguessr-client/src/utils/hints.js:31-33 | the cleaned list holds only non-empty, trimmed strings |
| Hints.NonBlankStringsAppend | bioguessr-client/src/utils/hints.js:31-33 | cleaning keeps the input order |
| Hints.NonBlankStringsHas | bioguessr-client/src/utils/hints.js:31-33 | a string is kept exactly when it is the non-empty trimmed text of some string element |
| Hints.ExtractCountries | bioguessr-client/src/utils/hints.js:145-147 | extracted countries are non-empty and trimmed |
| Hints.ExtractCountriesField | bioguessr-client/src/utils/hints.js:28-34 | an array-valued `countries` field is cleaned; anything else gives [] |
| Hints.ShortenHabitat | bioguessr-client/src/utils/hints.js:39-54 | no part gives "", one part gives itself, two or more give "A and B" of the first two; no separator survives |
| Hints.FeatureHint | bioguessr-client/src/utils/hints.js:58-114 | the feature hint is never empty; no animal gives the "no data" text; a location wins; with no source at all the fixed text |
| Hints.FeatureHintLocationWins | bioguessr-client/src/utils/hints.js:64-71 | records with the same location get the same hint, whatever else they hold |
| Hints.WeightHint | bioguessr-client/src/utils/hints.js:118-141 | the weight hint is never empty; no animal gives the fixed text; a weight wins |
| Countries.Collect | bioguessr-client/src/utils/countries.js:9-19 | the loop keeps no more strings than it reads |
| Countries.Insert | bioguessr-client/src/utils/countries.js:21 | insertion adds exactly the one element |
| Countries.Sort | bioguessr-client/src/utils/countries.js:21 | sorting is a permutation |
| Countries.InsertSorted | bioguessr-client/src/utils/countries.js:21 | inserting into a sorted list keeps it sorted |
| Countries.SortSorted | bioguessr-client/src/utils/countries.js:21 | the sort's output is sorted |
| Countries.SortOfSorted | bioguessr-client/src/utils/countries.js:21 | sorting a sorted list changes nothing |
| Countries.SortMembers | bioguessr-client/src/utils/countries.js:21 | sorting neither adds nor drops a string |
| Countries.SortDistinct | bioguessr-client/src/utils/countries.js:21 | sorting keeps names distinct |
| Countries.CollectAdmissible | bioguessr-client/src/utils/countries.js:10-12 | every kept string is an admitted input string with a new name |
| Countries.CollectDistinct | bioguessr-client/src/utils/countries.js:14-17 | no two kept strings share a lower-cased, trimmed name |
| Countries.CollectKeepsFirst | bioguessr-client/src/utils/countries.js:14-18 | the first spelling of each name is the one kept |
| Countries.CollectCovers | bioguessr-client/src/utils/countries.js:9-19 | every admitted name is represented |
| Countries.CollectOfClean | bioguessr-client/src/utils/countries.js:9-19 | an already clean list passes the loop untouched |
| Countries.CleanCountriesNonArray | bioguessr-client/src/utils/countries.js:2 | anything but an array cleans to [] |
| Countries.CleanCountriesWellFormed | bioguessr-client/src/utils/countries.js:9-21 | the output is sorted, has no excluded entry (empty, 2-3 capital letters, or all capitals longer than 3) and no duplicate name, and consists of input strings, no more than the input |
| Countries.CleanCountriesKeepsFirst | bioguessr-client/src/utils/countries.js:14-18 | every admitted name is represented, by its first spelling |
| Countries.CleanCountriesIdempotent | bioguessr-client/src/utils/countries.js:1-22 | cleaning twice is cleaning once |

## Left out

- Network requests are not modelled. Their outcomes are the events `Loaded` and `LoadFailed`. The Daily page's second request, for the picker's country list, and the country picker itself (`CountryDropdown.jsx`) are not part of this model. Cancellation appears only as "an answer nobody waits for is dropped".
- Timers are explicit events: `Tick` for each 100 ms interval, and `Fire` or `AutoAdvance` for timeouts. Each handler is one atomic transition, followed by the effects of one commit. The effects reading the render's values is modelled only where it matters: the time-out checks in `Arena.SettleAsWritten` and `BeastHook.SettleAsWritten`. Other closure staleness, such as a `setTimeout` callback reading older state, is not modelled. Concurrent interleavings within one commit are not modelled either.
- The heartbeat audio, the feedback texts of the Arena and of the play page, and every derived style value are not modelled: timer colours, zoom, blur and labels.
- Numbers are exact rationals. IEEE-754 effects are not modelled, for example `toFixed(1)` in the Doom tick and `0.1` steps that never land exactly on 0.
- `Math.random()` is an injected function. No statistical property of the offer is stated.
- Case mapping covers ASCII letters only. The default sort compares characters, not UTF-16 code units: the two orders differ only outside the Basic Multilingual Plane.
- Play.NameText: only a string or boolean name is read. The text of a numeric, array or object name is read as "".
- Daily.Step: the list of the day is taken as an array. A non-array response, whose `length` and indexing would differ, is not modelled.
- BeastHook: the feedback texts and `timerColor`/`zoomScale` are not modelled. The 1500 ms advance delay is the `AutoAdvance` event.
- Hints.FeatureHint: its contract pins down the no-data, location and fallback-text branches only. The habitat, feature, diet, lifestyle and slogan branches are given by the definition; `FeatureHintLocationWins` states that a location makes them irrelevant.
- Hints.WeightHint: its contract pins down the no-animal and weight branches only. The size and speed fallbacks are given by the definition.
- Hints.Get: `get` indexing into strings or arrays (e.g. a numeric path step) is not modelled. Only objects have properties here.
- The server, leaderboard, home page, routing and presentation components are not part of this model.

## Findings

| source | as written | input that shows it | evidently intended | confidence | as-written member | corrected member |
|---|---|---|---|---|---|---|
| bioguessr-client/src/ArenaPage.jsx:193-231 | After a Doom question that ended with the clock at 0, the callback at 455-459 unlocks and counts the next question. In that same commit the tick effect still sees the old `doomTimeLeft` of 0 and calls `handleDoomTimeout`. The time-limit effect installs the new clock only alongside it. | Bronze, strike in hand, 0.1 s left: the clock runs out (strike spent, 3 HP lost, question still open), then a right answer. When the next-question callback runs, the run is failed for a time-out on a question never shown. | The next question starts on its fresh limit. | medium, not executed | Arena.StepAsWritten, ArenaDoomSpecs.StaleTimeoutAsWritten, ArenaDoomSpecs.StaleTimeoutReachable | Arena.Step, ArenaDoomSpecs.NextDoomQuestionFresh |
| bioguessr-client/src/playPage.jsx:413 | The error screen's retry sets the round to itself. React skips an update to the same value, so no request is sent and the error screen stays. | Any failed `/api/play` request, then Retry. | Retry sends the request again. | high, not executed | Play.HandleAsWritten, Play.StepAsWritten, PlayProps.RetryAsWrittenStuck | Play.Handle, PlayProps.RetryRecovers |
| bioguessr-client/src/hooks/useBeastMode.js:20-25 | The comment says the clock resets when the round changes, but the effect depends only on `current` and `timeLimit`. After a time-out, `nextRound` unlocks the round with the clock still at 0, since the animal and the limit are unchanged. The time-up effect (35-43) then charges again. When the next animal arrives, the clock is reset in the same commit in which the time-up effect still reads 0, so it charges a third time. | Round 1, score 90, 3 lives, 0.1 s left. The clock runs out: score 60, 2 lives. The auto-advance: round 2 locks at once with score 40 and 1 life. The next animal arrives: score 27, 0 lives, the game is lost. | Each round starts on a full clock, and a time-out costs one life. | medium, not executed | BeastHook.SettleAsWritten, BeastHook.StepAsWritten, BeastHook.DoubleTimeoutAsWritten, BeastHook.AutoAdvanceNext | BeastHook.Settle, BeastHook.Step, BeastHook.SingleTimeout, BeastHook.NewRoundFullClock, BeastHook.AutoAdvanceFullClock |
