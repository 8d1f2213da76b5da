/** The Final Doom trials of the Arena (bioguessr-client/src/ArenaPage.jsx): the
    three tier configurations, the score thresholds that unlock them, the
    per-question time limit and the points for a correct answer. */
module Doom {
  import opened JsMath

  datatype Tier = Bronze | Silver | Gold

  /** The rule-bearing fields of a `DOOM_CONFIGS` entry; times are in seconds. */
  datatype Config = Config(baseTime: int, minTime: int, stepQ: int, stepAmount: int, multiplier: real, strikes: int)

  function ConfigOf(tier: Tier): (cfg: Config)
    ensures 0 < cfg.minTime <= cfg.baseTime && cfg.stepQ > 0 && cfg.stepAmount > 0
    ensures cfg.multiplier > 0.0 && cfg.strikes >= 0
  {
    match tier
    case Bronze => Config(12, 4, 3, 1, 1.2, 1)
    case Silver => Config(10, 3, 2, 2, 1.6, 0)
    case Gold => Config(7, 2, 1, 1, 3.0, 0)
  }

  /** `DOOM_CONFIGS[tierId]` for the ids the tier buttons pass. */
  function TierOf(id: string): (t: Option<Tier>)
    ensures t == Some(Bronze) <==> id == "bronze"
    ensures t == Some(Silver) <==> id == "silver"
    ensures t == Some(Gold) <==> id == "gold"
  {
    if id == "bronze" then Some(Bronze)
    else if id == "silver" then Some(Silver)
    else if id == "gold" then Some(Gold)
    else None
  }

  /** The `id` of a tier's `DOOM_CONFIGS` entry, which its button passes. */
  function Id(tier: Tier): string {
    match tier
    case Bronze => "bronze"
    case Silver => "silver"
    case Gold => "gold"
  }

  /** Each tier's id selects that tier and no other; no other string selects one. */
  lemma TierOfId(tier: Tier, id: string)
    ensures TierOf(Id(tier)) == Some(tier)
    ensures TierOf(id) == Some(tier) ==> id == Id(tier)
    ensures TierOf(id).None? <==> forall t: Tier :: id != Id(t)
  {
    if TierOf(id).None? {
      forall t: Tier ensures id != Id(t) { }
    } else {
      assert id == Id(TierOf(id).value);
    }
  }

  /** `DOOM_THRESHOLDS` */
  function Threshold(tier: Tier): int {
    match tier
    case Bronze => 0
    case Silver => 600
    case Gold => 1200
  }

  /** `bronzeAvailable`, `silverAvailable`, `goldAvailable` */
  predicate Available(tier: Tier, score: int) {
    score >= Threshold(tier)
  }

  /** The time limit of Doom question `count` (`count || 1`), in seconds. */
  function TimeLimit(cfg: Config, count: int): (limit: int)
    requires cfg.stepQ > 0
    ensures limit >= cfg.minTime
    ensures count >= 0 && cfg.stepAmount >= 0 && cfg.minTime <= cfg.baseTime ==> limit <= cfg.baseTime
  {
    var q := if count == 0 then 1 else count;
    var decrements := FloorDiv(q - 1, cfg.stepQ);
    Max(cfg.minTime, cfg.baseTime - decrements * cfg.stepAmount)
  }

  /** The share of the time still left, clamped to [0, 1]; 0 without a positive limit. */
  function Ratio(limit: int, leftTenths: int): (ratio: real)
    ensures 0.0 <= ratio <= 1.0
    ensures limit > 0 && 0 <= leftTenths <= 10 * limit ==> ratio * (10 * limit) as real == leftTenths as real
  {
    if limit > 0 then Clamp01(leftTenths as real / (10 * limit) as real) else 0.0
  }

  /** The points of a correct Doom answer: the speed bonus is rounded on its own
      before the sum is scaled by the run's multiplier `g` and rounded again. */
  function Points(cfg: Config, ratio: real, g: real): int {
    Round((120.0 * cfg.multiplier + SpeedBonus(cfg, ratio) as real) * g)
  }

  function SpeedBonus(cfg: Config, ratio: real): int {
    Round(80.0 * ratio * cfg.multiplier)
  }

  // ---- properties ----------------------------------------------------------

  /** Bronze needs nothing, silver 600 and gold 1200; a harder tier is only open
      when the easier ones are. */
  lemma AvailableOrder(score: int)
    ensures score >= 0 ==> Available(Bronze, score)
    ensures Available(Silver, score) <==> score >= 600
    ensures Available(Gold, score) <==> score >= 1200
    ensures Available(Gold, score) ==> Available(Silver, score)
    ensures Available(Silver, score) ==> Available(Bronze, score)
  {
  }

  /** The limit never grows from one question to a later one. */
  lemma TimeLimitNonIncreasing(cfg: Config, q1: int, q2: int)
    requires cfg.stepQ > 0 && cfg.stepAmount >= 0
    requires 1 <= q1 <= q2
    ensures TimeLimit(cfg, q2) <= TimeLimit(cfg, q1)
  {
    FloorDivMonotone(q1 - 1, q2 - 1, cfg.stepQ);
    MulLe(FloorDiv(q1 - 1, cfg.stepQ), FloorDiv(q2 - 1, cfg.stepQ), cfg.stepAmount);
  }

  /** Bronze: 12 seconds at question 1, 11 at question 4, the 4-second floor at 100. */
  lemma TimeLimitExamples()
    ensures TimeLimit(ConfigOf(Bronze), 1) == 12
    ensures TimeLimit(ConfigOf(Bronze), 4) == 11
    ensures TimeLimit(ConfigOf(Bronze), 100) == 4
    ensures TimeLimit(ConfigOf(Silver), 3) == 8
    ensures TimeLimit(ConfigOf(Gold), 0) == 7 && TimeLimit(ConfigOf(Gold), 9) == 2
  {
  }

  /** A faster answer never earns fewer points. */
  lemma PointsMonotone(cfg: Config, r1: real, r2: real, g: real)
    requires cfg.multiplier >= 0.0 && g >= 0.0 && r1 <= r2
    ensures Points(cfg, r1, g) <= Points(cfg, r2, g)
  {
    SpeedBonusMonotone(cfg, r1, r2);
    ScaledRoundMonotone(120.0 * cfg.multiplier + SpeedBonus(cfg, r1) as real,
                        120.0 * cfg.multiplier + SpeedBonus(cfg, r2) as real, g);
  }

  lemma SpeedBonusMonotone(cfg: Config, r1: real, r2: real)
    requires cfg.multiplier >= 0.0 && r1 <= r2
    ensures SpeedBonus(cfg, r1) <= SpeedBonus(cfg, r2)
  {
    MulRealLe(80.0 * r1, 80.0 * r2, cfg.multiplier);
    RoundMonotone(80.0 * r1 * cfg.multiplier, 80.0 * r2 * cfg.multiplier);
  }

  lemma ScaledRoundMonotone(a: real, b: real, g: real)
    requires a <= b && g >= 0.0
    ensures Round(a * g) <= Round(b * g)
  {
    MulRealLe(a, b, g);
    RoundMonotone(a * g, b * g);
  }

  lemma MulRealLe(a: real, b: real, c: real)
    requires a <= b && c >= 0.0
    ensures a * c <= b * c
  {
  }

  /** Points are never negative while the ratio and the multiplier are not. */
  lemma PointsNonNegative(cfg: Config, ratio: real, g: real)
    requires cfg.multiplier >= 0.0 && ratio >= 0.0 && g >= 0.0
    ensures Points(cfg, ratio, g) >= 0
  {
    PointsMonotone(cfg, 0.0, ratio, g);
  }

  /** A full-time bronze answer at multiplier 1 earns 144 + 96 = 240; silver 320, gold 600. */
  lemma PointsExamples()
    ensures Points(ConfigOf(Bronze), 1.0, 1.0) == 240
    ensures Points(ConfigOf(Silver), 1.0, 1.0) == 320
    ensures Points(ConfigOf(Gold), 1.0, 1.0) == 600
    ensures Points(ConfigOf(Bronze), 0.0, 1.0) == 144
  {
  }
}
