/** Properties of the Normal, Easy and Beast games (`Play`): the answer check and
    the Beast arithmetic. */
module PlaySpecs {
  import opened JsMath
  import opened JsString
  import opened Json
  import opened Hints
  import opened Play

  // ---- answers -------------------------------------------------------------

  /** A country is listed exactly when it is the non-empty trimmed text of a string
      in the animal's `countries` array. */
  lemma CountryListHas(animal: Json, c: string)
    ensures var field := Prop(animal, "countries");
      c in CountryList(Some(animal)) <==>
        field.JArr? && c != "" && exists k :: 0 <= k < |field.items| && field.items[k].JStr? && Trim(field.items[k].s) == c
  {
    var field := Prop(animal, "countries");
    if field.JArr? {
      NonBlankStringsHas(field.items, c);
    }
  }

  lemma {:induction false} SomeNormalizesHas(list: seq<string>, n: string)
    ensures SomeNormalizes(list, n) <==> exists c :: c in list && Normalize(c) == n
    decreases |list|
  {
    if |list| > 0 {
      SomeNormalizesHas(list[1..], n);
      assert forall c :: c in list <==> c == list[0] || c in list[1..];
    }
  }

  /** Against a non-empty country list, a guess is right exactly when its trimmed,
      lower-cased form is that of some country string of the animal. */
  lemma IsCorrectByCountry(animal: Json, guess: string)
    requires |CountryList(Some(animal))| > 0
    ensures var items := Prop(animal, "countries").items;
      IsCorrect(animal, guess) <==>
        exists k :: 0 <= k < |items| && items[k].JStr? && Trim(items[k].s) != "" && Normalize(items[k].s) == Normalize(guess)
  {
    var list := CountryList(Some(animal));
    var field := Prop(animal, "countries");
    var n := Normalize(guess);
    SomeNormalizesHas(list, n);
    assert field.JArr?;
    var items := field.items;
    if IsCorrect(animal, guess) {
      var c :| c in list && Normalize(c) == n;
      CountryListHas(animal, c);
      var k :| 0 <= k < |items| && items[k].JStr? && Trim(items[k].s) == c;
      TrimIdempotent(items[k].s);
    }
    if exists k :: 0 <= k < |items| && items[k].JStr? && Trim(items[k].s) != "" && Normalize(items[k].s) == n {
      var k :| 0 <= k < |items| && items[k].JStr? && Trim(items[k].s) != "" && Normalize(items[k].s) == n;
      var c := Trim(items[k].s);
      CountryListHas(animal, c);
      TrimIdempotent(items[k].s);
      assert c in list && Normalize(c) == n;
    }
  }

  /** Without any country, the guess is compared with the animal's name. */
  lemma IsCorrectByName(animal: Json, guess: string)
    requires |CountryList(Some(animal))| == 0
    ensures IsCorrect(animal, guess) <==> Normalize(guess) == Normalize(NameText(animal))
    ensures IsCorrect(animal, NameText(animal))
    ensures Trim(NameText(animal)) == "" ==> (IsCorrect(animal, guess) <==> Trim(guess) == "")
  {
  }

  /** Spaces around the guess and the case of its letters never matter. */
  lemma IsCorrectIgnoresSpacing(animal: Json, g1: string, g2: string)
    requires Normalize(g1) == Normalize(g2)
    ensures IsCorrect(animal, g1) == IsCorrect(animal, g2)
  {
  }

  // ---- formatting ----------------------------------------------------------

  /** The revealed answer lists the first three countries (all of them when there
      are at most three), separated by ", ", and ends in ", ..." exactly when
      some were left out. */
  lemma FormatCountryAnswerShape(countries: seq<string>)
    ensures FormatCountryAnswer(countries)
         == Join(countries[..Min(3, |countries|)], ", ") + (if |countries| > 3 then ", ..." else "")
  {
    if |countries| <= 3 {
      assert countries[..Min(3, |countries|)] == countries;
    }
  }

  lemma FormatCountryAnswerExamples()
    ensures FormatCountryAnswer([]) == ""
    ensures FormatCountryAnswer(["Kenya"]) == "Kenya"
    ensures FormatCountryAnswer(["Chad", "Mali"]) == "Chad, Mali"
    ensures FormatCountryAnswer(["Chad", "Mali", "Niger", "Peru"]) == "Chad, Mali, Niger, ..."
  {
    assert ["Chad", "Mali", "Niger", "Peru"][..3] == ["Chad", "Mali", "Niger"];
  }

  // ---- Beast arithmetic ----------------------------------------------------

  /** The limit never grows as the rounds go on. */
  lemma BeastTimeLimitNonIncreasing(r1: int, r2: int)
    requires r1 <= r2
    ensures BeastTimeLimit(r2) <= BeastTimeLimit(r1)
  {
    FloorDivMonotone(r1 - 1, r2 - 1, 10);
  }

  /** 7 seconds for rounds 1-10, 6 for 11-20, 5 for 21-30, 4 from round 31 on. */
  lemma BeastTimeLimitSteps(round: int)
    requires round >= 1
    ensures round <= 10 ==> BeastTimeLimit(round) == 7
    ensures 11 <= round <= 20 ==> BeastTimeLimit(round) == 6
    ensures 21 <= round <= 30 ==> BeastTimeLimit(round) == 5
    ensures round >= 31 ==> BeastTimeLimit(round) == 4
  {
    if round >= 31 {
      FloorDivMonotone(30, round - 1, 10);
    }
  }

  /** The share of time left is in [0, 1], and exactly `left / (10 · limit)` on a
      clock that has not overrun. */
  lemma TimeRatioExact(c: Clock)
    requires c.limit > 0 && 0 <= c.left <= 10 * c.limit
    ensures TimeRatio(Some(c)) * (10 * c.limit) as real == c.left as real
    ensures 0.0 <= TimeRatio(Some(c)) <= 1.0
  {
  }

  /** A correct Beast answer earns between 100 and 120 + 5·(round − 1) points per
      link of the new streak, the time bonus being at most 20. */
  lemma BeastGainBounds(round: int, streak: int, clock: Option<Clock>)
    requires round >= 1 && streak >= 0
    ensures 100 * (streak + 1) <= BeastGain(round, streak, clock)
    ensures BeastGain(round, streak, clock) <= (120 + 5 * (round - 1)) * (streak + 1)
  {
    var ratio := TimeRatio(clock);
    assert 0.0 <= ratio <= 1.0;
    var bonus := Round(20.0 * ratio);
    assert 0 <= bonus <= 20;
    var per := 100 + Max(0, (round - 1) * 5) + bonus;
    assert 100 <= per <= 120 + 5 * (round - 1);
    MulLe(100, per, streak + 1);
    MulLe(per, 120 + 5 * (round - 1), streak + 1);
  }

  /** A miss keeps at least two thirds of a non-negative score and never leaves it
      negative. */
  lemma PenaltyBounds(score: int)
    requires score >= 0
    ensures 0 <= Penalty(score) <= score
    ensures Max(0, score - Penalty(score)) == score - Penalty(score)
    ensures 3 * (score - Penalty(score)) >= 2 * score
  {
  }
}
