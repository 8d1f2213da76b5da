/** The daily challenge of bioguessr-client/src/dailyPage.jsx: a fixed list of
    animals fetched once, one round per animal, 100 points per right answer.

    `Step` applies one event: the answer to the page's one request (the animal
    list; the country list for the picker is not part of the model), a change of
    the picked country, or one of the two buttons. */
module Daily {
  import opened JsMath
  import opened JsString
  import opened Json

  const PointsPerAnswer := 100
  /** The round count shown while the list is empty. */
  const DefaultRounds := 5

  datatype Daily = Daily(
    animals: seq<Json>, round: int, score: int, guess: string, locked: bool, feedback: string,
    loading: bool, error: bool)

  datatype Event =
    | Loaded(list: seq<Json>)  // the request answered with the day's animals
    | LoadFailed               // the request failed
    | Type(text: string)       // the country picker changed
    | Submit                   // "Submit Guess"
    | Next                     // "Next Round"

  const Init := Daily([], 1, 0, "", false, "", true, false)

  /** `totalRounds`: the number of animals, or 5 while there are none. */
  function TotalRounds(d: Daily): (n: int)
    ensures n >= 1
  {
    if |d.animals| == 0 then DefaultRounds else |d.animals|
  }

  predicate GameOver(d: Daily) {
    d.round > TotalRounds(d)
  }

  /** `current`: the animal of the round, read from the list; none when the index
      is past its end or the entry is falsy. */
  function Current(d: Daily): Option<Json> {
    if 1 <= d.round <= |d.animals| && Truthy(d.animals[d.round - 1]) then Some(d.animals[d.round - 1]) else None
  }

  /** The question and its buttons are on screen. */
  predicate Playing(d: Daily) {
    !d.loading && !d.error && !GameOver(d) && Current(d).Some?
  }

  /** The texts of an array of strings. */
  function Texts(items: seq<Json>): (r: seq<string>)
    ensures |r| == |items|
    ensures forall k :: 0 <= k < |items| && items[k].JStr? ==> r[k] == items[k].s
  {
    if |items| == 0 then [] else (if items[0].JStr? then [items[0].s] else [""]) + Texts(items[1..])
  }

  /** `submitGuess()`. The countries are compared as they stand with the guess as
      typed, both lower-cased and neither trimmed. A `countries` field that is not
      an array, or an element without `toLowerCase` reached before a match,
      throws, and the handler then changes nothing. */
  function SubmitGuess(d: Daily): Daily {
    if Current(d).None? || d.guess == "" || d.locked then d
    else
      var countries := Prop(Current(d).value, "countries");
      if !countries.JArr? then d
      else match SomeLower(countries.items, ToLower(d.guess))
        case TypeError => d
        case Match => d.(score := d.score + PointsPerAnswer, locked := true, feedback := "Correct! +100")
        case NoMatch =>
          d.(locked := true,
             feedback := "Not quite. The correct regions are: " + Join(Texts(countries.items), ", ") + ".")
  }

  /** `nextRound()` */
  function NextRound(d: Daily): Daily {
    d.(guess := "", locked := false, feedback := "", round := d.round + 1)
  }

  /** The picker is disabled once locked, "Submit Guess" without a guess or once
      locked, and "Next Round" until locked. */
  function Step(d: Daily, e: Event): Daily {
    match e
    case Loaded(list) => if d.loading then d.(animals := list, loading := false, error := false) else d
    case LoadFailed => if d.loading then d.(loading := false, error := true) else d
    case Type(text) => if Playing(d) && !d.locked then d.(guess := text) else d
    case Submit => if Playing(d) && d.guess != "" && !d.locked then SubmitGuess(d) else d
    case Next => if Playing(d) && d.locked then NextRound(d) else d
  }

  // ---- properties ----------------------------------------------------------

  /** The round count is the list's length, 5 for an empty list; the game is over
      past it; the current animal is the list's entry for the round. */
  lemma RoundsFromList(d: Daily)
    ensures |d.animals| > 0 ==> TotalRounds(d) == |d.animals|
    ensures |d.animals| == 0 ==> TotalRounds(d) == 5 && Current(d).None?
    ensures GameOver(d) <==> d.round > TotalRounds(d)
    ensures Current(d).Some? <==> 1 <= d.round <= |d.animals| && Truthy(d.animals[d.round - 1])
    ensures Current(d).Some? ==> Current(d).value == d.animals[d.round - 1] && !GameOver(d)
  {
  }

  /** "Next Round" after the last animal ends the game, and after any earlier one
      shows the next animal of the list. */
  lemma NextReachesEnd(d: Daily)
    requires Playing(d) && d.locked
    ensures GameOver(Step(d, Next)) <==> d.round == |d.animals|
    ensures d.round < |d.animals| && Truthy(d.animals[d.round]) ==>
      Current(Step(d, Next)) == Some(d.animals[d.round]) && !GameOver(Step(d, Next))
  {
  }

  /** Without an animal, without a guess, or once locked, submitting does nothing. */
  lemma SubmitIgnored(d: Daily)
    requires Current(d).None? || d.guess == "" || d.locked
    ensures SubmitGuess(d) == d && Step(d, Submit) == d
  {
  }

  /** On an array of country strings the answer is right exactly when some country
      equals the guess up to case: it then earns exactly 100, and a wrong answer
      nothing; either way the round locks and nothing else changes. */
  lemma SubmitScores(d: Daily)
    requires Current(d).Some? && d.guess != "" && !d.locked
    requires var c := Prop(Current(d).value, "countries"); c.JArr? && forall k :: 0 <= k < |c.items| ==> c.items[k].JStr?
    ensures var c := Prop(Current(d).value, "countries").items; var s := SubmitGuess(d);
      && s.locked && s.round == d.round && s.guess == d.guess && s.animals == d.animals
      && (s.score == d.score + 100 <==> exists k :: 0 <= k < |c| && ToLower(c[k].s) == ToLower(d.guess))
      && (s.score == d.score <==> !exists k :: 0 <= k < |c| && ToLower(c[k].s) == ToLower(d.guess))
  {
    var c := Prop(Current(d).value, "countries").items;
    SomeLowerStrings(c, ToLower(d.guess));
  }

  /** A `countries` field that is not an array makes the handler throw: nothing
      changes and the round stays open. */
  lemma NonArrayThrows(d: Daily)
    requires Current(d).Some? && !Prop(Current(d).value, "countries").JArr?
    ensures SubmitGuess(d) == d
  {
  }

  /** Case does not matter, spacing does: with the country "Kenya", "kENYA" is
      right and " Kenya" is wrong. */
  lemma CaseButNotSpacing()
    ensures var kenya := JObj(map["countries" := JArr([JStr("Kenya")])]);
      var d := Daily([kenya], 1, 0, "kENYA", false, "", false, false);
      && SubmitGuess(d).score == 100
      && SubmitGuess(d.(guess := " Kenya")).score == 0 && SubmitGuess(d.(guess := " Kenya")).locked
  {
    var kenya := JObj(map["countries" := JArr([JStr("Kenya")])]);
    assert Prop(kenya, "countries") == JArr([JStr("Kenya")]);
    assert ToLower("Kenya") == "kenya" && ToLower("kENYA") == "kenya";
    assert ToLower(" Kenya") == " kenya";
  }

  /** `nextRound` moves on one round with a cleared guess, lock and feedback. */
  lemma NextRoundClears(d: Daily)
    requires Playing(d) && d.locked
    ensures var n := Step(d, Next);
      && n.round == d.round + 1 && n.guess == "" && !n.locked && n.feedback == ""
      && n.score == d.score && n.animals == d.animals
  {
  }

  /** What holds in every state the page can reach: the score is a whole number of
      answers, no more than the rounds answered so far. */
  predicate Valid(d: Daily) {
    && 1 <= d.round
    && (d.loading ==> d.round == 1 && d.score == 0 && !d.locked && d.animals == [])
    && (d.round > 1 ==> d.round <= |d.animals| + 1)
    && d.score % PointsPerAnswer == 0
    && 0 <= d.score <= PointsPerAnswer * (d.round - 1 + (if d.locked then 1 else 0))
    && (d.locked ==> d.round <= |d.animals|)
  }

  lemma InitValid()
    ensures Valid(Init) && Init.loading
  {
  }

  lemma StepValid(d: Daily, e: Event)
    requires Valid(d)
    ensures Valid(Step(d, e))
  {
    if e.Submit? && Playing(d) && d.guess != "" && !d.locked {
      var countries := Prop(Current(d).value, "countries");
      if countries.JArr? {
        var v := SomeLower(countries.items, ToLower(d.guess));
        if v == Match {
          assert SubmitGuess(d).score == d.score + 100;
        }
      }
    }
  }

  /** An empty list of the day leaves the page on its waiting screen for good: no
      event changes anything, though the header counts 5 rounds. */
  lemma EmptyListWaits(d: Daily, e: Event)
    requires !d.loading && d.animals == []
    ensures Step(d, e) == d && TotalRounds(d) == 5
  {
  }

  /** The final score is at most 100 per animal of the day. */
  lemma FinalScoreBound(d: Daily)
    requires Valid(d) && GameOver(d) && |d.animals| > 0
    ensures d.score <= PointsPerAnswer * |d.animals|
  {
  }
}
