/** The arithmetic of one Arena question (bioguessr-client/src/ArenaPage.jsx):
    answer checking, the HP clamp, charge consumption, the HP a wrong answer
    costs and the points a correct one earns. */
module ArenaRules {
  import opened JsMath
  import opened JsString
  import opened Json

  const StartHp := 10
  const QuestionsPerStage := 4
  const MaxStage := 4

  // ---- answers -------------------------------------------------------------

  /** The string entries of `items` mapped through `norm`, empty results dropped. */
  function NormalizedBy(items: seq<Json>, norm: string -> string): (list: seq<string>)
    ensures forall k :: 0 <= k < |list| ==> list[k] != ""
    decreases |items|
  {
    if |items| == 0 then []
    else
      var rest := NormalizedBy(items[1..], norm);
      match items[0]
      case JStr(c) => if norm(c) != "" then [norm(c)] + rest else rest
      case _ => rest
  }

  /** `countries.map((c) => typeof c === "string" ? c.trim().toLowerCase() : "").filter(Boolean)` */
  function NormalizedCountries(items: seq<Json>): (list: seq<string>)
    ensures forall k :: 0 <= k < |list| ==> list[k] != ""
  {
    NormalizedBy(items, Normalize)
  }

  /** `getCountryList(animal)` */
  function CountryList(animal: Option<Json>): (list: seq<string>)
    ensures forall k :: 0 <= k < |list| ==> list[k] != ""
  {
    match animal
    case None => []
    case Some(a) =>
      var countries := Prop(a, "countries");
      if countries.JArr? then NormalizedCountries(countries.items) else []
  }

  /** `evaluateGuess()`: the trimmed, lower-cased guess is one of the countries. */
  function EvaluateGuess(current: Option<Json>, guess: string): bool {
    if current.None? || IsBlank(guess) then false
    else Normalize(guess) in CountryList(current)
  }

  /** A normalised string occurs in the list exactly when some string entry has it. */
  lemma {:induction false} NormalizedByHas(items: seq<Json>, norm: string -> string, n: string)
    requires n != ""
    ensures n in NormalizedBy(items, norm) <==> exists k :: 0 <= k < |items| && items[k].JStr? && norm(items[k].s) == n
    decreases |items|
  {
    if |items| > 0 {
      NormalizedByHas(items[1..], norm, n);
      if exists k :: 0 <= k < |items[1..]| && items[1..][k].JStr? && norm(items[1..][k].s) == n {
        var k :| 0 <= k < |items[1..]| && items[1..][k].JStr? && norm(items[1..][k].s) == n;
        assert items[k + 1] == items[1..][k];
      }
      if exists k :: 0 <= k < |items| && items[k].JStr? && norm(items[k].s) == n {
        var k :| 0 <= k < |items| && items[k].JStr? && norm(items[k].s) == n;
        if k > 0 {
          assert items[1..][k - 1] == items[k];
        }
      }
    }
  }

  /** A guess is right exactly when it is not blank and its trimmed, lower-cased form
      equals the trimmed, lower-cased form of some string in the animal's `countries`. */
  lemma EvaluateGuessSpec(animal: Json, guess: string)
    ensures EvaluateGuess(Some(animal), guess) <==>
      !IsBlank(guess) && Prop(animal, "countries").JArr?
      && exists k :: 0 <= k < |Prop(animal, "countries").items| && Prop(animal, "countries").items[k].JStr?
                     && Normalize(Prop(animal, "countries").items[k].s) == Normalize(guess)
  {
    if !IsBlank(guess) && Prop(animal, "countries").JArr? {
      assert |Normalize(guess)| == |Trim(guess)|;
      NormalizedByHas(Prop(animal, "countries").items, Normalize, Normalize(guess));
    }
  }

  // ---- HP ------------------------------------------------------------------

  /** `clampHp(value)`: the oath caps HP at 1; there is no lower bound. */
  function ClampHp(v: int, oath: bool): (h: int)
    ensures h <= v
    ensures oath ==> h <= 1
    ensures h == v <==> !oath || v <= 1
    ensures h != v ==> h == 1
  {
    if oath && v > 1 then 1 else v
  }

  // ---- per-question augments -----------------------------------------------

  /** The per-question charge counters. */
  datatype Charges = Charges(safe: int, flurry: int, shield: int, leech: int, foresight: int)

  /** Which per-question augments are active for the question being answered. */
  datatype Active = Active(safe: bool, flurry: bool, shield: bool, leech: bool, foresight: bool, duel: bool)

  const NoCharges := Charges(0, 0, 0, 0, 0)

  /** The snapshot taken at submission. */
  function Snapshot(c: Charges, duelPending: bool): (a: Active)
    ensures a.safe <==> c.safe > 0
    ensures a.flurry <==> c.flurry > 0
    ensures a.shield <==> c.shield > 0
    ensures a.leech <==> c.leech > 0
    ensures a.foresight <==> c.foresight > 0
    ensures a.duel == duelPending
  {
    Active(c.safe > 0, c.flurry > 0, c.shield > 0, c.leech > 0, c.foresight > 0, duelPending)
  }

  /** `setX((n) => Math.max(0, n - 1))` for every counter that was positive. */
  function Tick1(n: int): int {
    if n > 0 then Max(0, n - 1) else n
  }

  /** One charge of every active counter is spent, whether the answer is right or wrong. */
  function Consume(c: Charges): (d: Charges)
    ensures c.safe > 0 ==> d.safe == c.safe - 1
    ensures c.safe <= 0 ==> d.safe == c.safe
    ensures c.flurry > 0 ==> d.flurry == c.flurry - 1
    ensures c.flurry <= 0 ==> d.flurry == c.flurry
    ensures c.shield > 0 ==> d.shield == c.shield - 1
    ensures c.shield <= 0 ==> d.shield == c.shield
    ensures c.leech > 0 ==> d.leech == c.leech - 1
    ensures c.leech <= 0 ==> d.leech == c.leech
    ensures c.foresight > 0 ==> d.foresight == c.foresight - 1
    ensures c.foresight <= 0 ==> d.foresight == c.foresight
  {
    Charges(Tick1(c.safe), Tick1(c.flurry), Tick1(c.shield), Tick1(c.leech), Tick1(c.foresight))
  }

  predicate NonNegative(c: Charges) {
    c.safe >= 0 && c.flurry >= 0 && c.shield >= 0 && c.leech >= 0 && c.foresight >= 0
  }
  /** An augment counts for a question exactly when the question spends one of its
      charges; counters stay non-negative and never grow. */
  lemma SpentExactlyWhenActive(c: Charges, duelPending: bool)
    requires NonNegative(c)
    ensures var a := Snapshot(c, duelPending); var d := Consume(c);
      && NonNegative(d)
      && (a.safe <==> d.safe == c.safe - 1) && (!a.safe ==> d.safe == c.safe)
      && (a.flurry <==> d.flurry == c.flurry - 1) && (!a.flurry ==> d.flurry == c.flurry)
      && (a.shield <==> d.shield == c.shield - 1) && (!a.shield ==> d.shield == c.shield)
      && (a.leech <==> d.leech == c.leech - 1) && (!a.leech ==> d.leech == c.leech)
      && (a.foresight <==> d.foresight == c.foresight - 1) && (!a.foresight ==> d.foresight == c.foresight)
  {
  }


  /** The loss before the duel, read off as a table: Shielded always makes it 1
      (even after Safety Net), otherwise Flurry 2, otherwise Safety Net 0, otherwise 1. */
  function LossTable(a: Active): int {
    if a.shield then 1 else if a.flurry then 2 else if a.safe then 0 else 1
  }

  /** The HP a wrong answer costs, composed in the order the code applies it: base 1,
      Safety Net 0, Flurry 2, Shielded `max(1, ceil(loss / 2))`, then an armed duel
      `max(loss, ceil(hp / 2))`. */
  function HpLoss(a: Active, hp: int): (loss: int)
    ensures loss == (if a.duel then Max(LossTable(a), CeilDiv(hp, 2)) else LossTable(a))
    ensures loss >= 0
  {
    var loss0 := 1;
    var loss1 := if a.safe then 0 else loss0;
    var loss2 := if a.flurry then 2 else loss1;
    var loss3 := if a.shield then Max(1, CeilDiv(loss2, 2)) else loss2;
    if a.duel then Max(loss3, CeilDiv(hp, 2)) else loss3
  }

  // ---- points --------------------------------------------------------------

  /** `basePoints = Math.round(basePoints * f)` */
  function Scale(p: int, f: real): int {
    Round(p as real * f)
  }

  /** The points before the duel and Leech Vines: 100, then ×0.7 (Safety Net),
      ×1.2 (Flurry), ×0.75 (Shielded) and ×0.8 (Clairvoyance), rounding after each. */
  function PointsBeforeDuel(a: Active): (p: int)
    ensures 0 <= p <= 120
  {
    var p0 := 100;
    var p1 := if a.safe then Scale(p0, 0.7) else p0;
    var p2 := if a.flurry then Scale(p1, 1.2) else p1;
    var p3 := if a.shield then Scale(p2, 0.75) else p2;
    if a.foresight then Scale(p3, 0.8) else p3
  }

  /** The points of a correct answer: the duel triples, then Leech Vines takes a quarter. */
  function CorrectPoints(a: Active): (p: int)
    ensures 0 <= p <= 360
  {
    var p4 := PointsBeforeDuel(a);
    var p5 := if a.duel then Scale(p4, 3.0) else p4;
    if a.leech then Scale(p5, 0.75) else p5
  }

  /** The duel's ×3 stacks on top of every other modifier. */
  lemma DuelTriples(a: Active)
    requires a.duel && !a.leech
    ensures CorrectPoints(a) == 3 * CorrectPoints(a.(duel := false))
  {
    RoundInt(PointsBeforeDuel(a) * 3);
  }

  /** Some values of the stacking, each rounded at its own step. */
  lemma PointsExamples()
    ensures CorrectPoints(Active(false, false, false, false, false, false)) == 100
    ensures CorrectPoints(Active(true, false, true, false, false, false)) == 53
    ensures CorrectPoints(Active(true, true, false, false, false, false)) == 84
    ensures CorrectPoints(Active(true, true, true, true, true, true)) == 113
    ensures CorrectPoints(Active(false, true, false, false, false, true)) == 360
  {
  }

  /** `Math.round(basePoints * globalMultiplier)` */
  function Gained(points: int, multiplier: real): (g: int)
    ensures points >= 0 && multiplier >= 0.0 ==> g >= 0
  {
    Round(points as real * multiplier)
  }
}
