/** Hint text derived from an animal record (bioguessr-client/src/utils/hints.js):
    a safe dotted-path getter, a first-non-blank fallback chain, the country list
    cleaner and the habitat shortener. */
module Hints {
  import opened JsString
  import opened Json

  /** `get(obj, path, dflt)`: follow `path` split at dots; the default when any step
      is missing or null; string results come back trimmed. */
  function Get(obj: Json, path: string, dflt: Json): (v: Json)
    ensures v.JStr? && !dflt.JStr? ==> IsTrimmed(v.s)
  {
    var out := Walk(obj, Split(path, {'.'}));
    if out.JNull? then dflt
    else if out.JStr? then JStr(Trim(out.s))
    else out
  }

  /** A dotted path written as its dot-free keys joined by '.' visits exactly those keys. */
  lemma GetDottedPath(obj: Json, keys: seq<string>, dflt: Json)
    requires |keys| >= 1
    requires forall k :: 0 <= k < |keys| ==> '.' !in keys[k]
    ensures Walk(obj, keys).JNull? ==> Get(obj, Join(keys, "."), dflt) == dflt
    ensures Walk(obj, keys).JStr? ==> Get(obj, Join(keys, "."), dflt) == JStr(Trim(Walk(obj, keys).s))
    ensures !Walk(obj, keys).JNull? && !Walk(obj, keys).JStr? ==> Get(obj, Join(keys, "."), dflt) == Walk(obj, keys)
  {
    SplitJoin(keys, '.');
  }

  /** When any step of the path is missing or null, `get` returns the default. */
  lemma GetMissingStep(obj: Json, keys: seq<string>, i: nat, dflt: Json)
    requires |keys| >= 1 && i < |keys|
    requires forall k :: 0 <= k < |keys| ==> '.' !in keys[k]
    requires Prop(Walk(obj, keys[..i]), keys[i]).JNull?
    ensures Get(obj, Join(keys, "."), dflt) == dflt
  {
    SplitJoin(keys, '.');
    MissingStep(obj, keys, i);
  }

  /** What `pickFirst` sees at one path: the trimmed string there, or "". */
  function Candidate(obj: Json, path: string): string {
    match Get(obj, path, JStr(""))
    case JStr(s) => Trim(s)
    case _ => ""
  }

  /** What `pickFirst` sees at each path, in order. */
  function Candidates(obj: Json, paths: seq<string>): (c: seq<string>)
    ensures |c| == |paths|
    decreases |paths|
  {
    if |paths| == 0 then [] else [Candidate(obj, paths[0])] + Candidates(obj, paths[1..])
  }

  lemma {:induction false} CandidatesAt(obj: Json, paths: seq<string>)
    ensures forall i :: 0 <= i < |paths| ==> Candidates(obj, paths)[i] == Candidate(obj, paths[i])
    decreases |paths|
  {
    if |paths| > 0 {
      CandidatesAt(obj, paths[1..]);
    }
  }

  /** Looking at the paths of `a + b` is looking at those of `a`, then those of `b`. */
  lemma {:induction false} CandidatesAppend(obj: Json, a: seq<string>, b: seq<string>)
    ensures Candidates(obj, a + b) == Candidates(obj, a) + Candidates(obj, b)
    decreases |a|
  {
    if |a| == 0 {
      assert a + b == b;
    } else {
      assert (a + b)[0] == a[0] && (a + b)[1..] == a[1..] + b;
      CandidatesAppend(obj, a[1..], b);
    }
  }

  /** The first non-blank value of a list, or "" when there is none. */
  function FirstNonBlank(vals: seq<string>): (r: string)
    ensures r == "" <==> forall i :: 0 <= i < |vals| ==> vals[i] == ""
    decreases |vals|
  {
    if |vals| == 0 then ""
    else if vals[0] != "" then vals[0]
    else FirstNonBlank(vals[1..])
  }

  /** `pickFirst(obj, paths)`: the value at the first path holding a non-blank string.
      `get` has no side effects, so looking at every path and then choosing the first
      hit gives what the early-returning loop gives. */
  function PickFirst(obj: Json, paths: seq<string>): (r: string)
    ensures r == "" <==> forall i :: 0 <= i < |paths| ==> Candidate(obj, paths[i]) == ""
  {
    CandidatesAt(obj, paths);
    FirstNonBlank(Candidates(obj, paths))
  }

  /** The answer is the value of the first path that holds a non-blank string. */
  lemma {:induction false} FirstNonBlankFirstHit(vals: seq<string>, i: nat)
    requires i < |vals| && vals[i] != ""
    requires forall j :: 0 <= j < i ==> vals[j] == ""
    ensures FirstNonBlank(vals) == vals[i]
    decreases i
  {
    if i > 0 {
      FirstNonBlankFirstHit(vals[1..], i - 1);
    }
  }

  lemma PickFirstFirstHit(obj: Json, paths: seq<string>, i: nat)
    requires i < |paths| && Candidate(obj, paths[i]) != ""
    requires forall j :: 0 <= j < i ==> Candidate(obj, paths[j]) == ""
    ensures PickFirst(obj, paths) == Candidate(obj, paths[i])
  {
    CandidatesAt(obj, paths);
    FirstNonBlankFirstHit(Candidates(obj, paths), i);
  }

  /** Once a value is found, the values after it are never consulted. */
  lemma {:induction false} FirstNonBlankIgnoresLater(a: seq<string>, b: seq<string>)
    requires FirstNonBlank(a) != ""
    ensures FirstNonBlank(a + b) == FirstNonBlank(a)
    decreases |a|
  {
    assert (a + b)[0] == a[0];
    if a[0] == "" {
      assert (a + b)[1..] == a[1..] + b;
      FirstNonBlankIgnoresLater(a[1..], b);
    }
  }

  lemma PickFirstIgnoresLater(obj: Json, a: seq<string>, b: seq<string>)
    requires PickFirst(obj, a) != ""
    ensures PickFirst(obj, a + b) == PickFirst(obj, a)
  {
    CandidatesAppend(obj, a, b);
    FirstNonBlankIgnoresLater(Candidates(obj, a), Candidates(obj, b));
  }

  /** The answer of `pickFirst` is already trimmed. */
  lemma PickFirstTrimmed(obj: Json, paths: seq<string>)
    ensures IsTrimmed(PickFirst(obj, paths))
  {
    var c := Candidates(obj, paths);
    CandidatesAt(obj, paths);
    assert forall i :: 0 <= i < |c| ==> IsTrimmed(c[i]);
    FirstNonBlankIn(c);
  }

  lemma {:induction false} FirstNonBlankIn(vals: seq<string>)
    ensures FirstNonBlank(vals) == "" || FirstNonBlank(vals) in vals
    decreases |vals|
  {
    if |vals| > 0 && vals[0] == "" {
      FirstNonBlankIn(vals[1..]);
    }
  }

  /** `.map(c => typeof c === "string" ? c.trim() : "").filter(c => c.length > 0)` */
  function NonBlankStrings(items: seq<Json>): (r: seq<string>)
    ensures forall k :: 0 <= k < |r| ==> r[k] != "" && IsTrimmed(r[k])
    decreases |items|
  {
    if |items| == 0 then []
    else
      Head(items[0]) + NonBlankStrings(items[1..])
  }

  /** The contribution of one array element: its trimmed text when that is non-empty. */
  function Head(item: Json): (r: seq<string>)
    ensures forall k :: 0 <= k < |r| ==> r[k] != "" && IsTrimmed(r[k])
  {
    match item
    case JStr(s) => if Trim(s) != "" then [Trim(s)] else []
    case _ => []
  }

  /** The cleaned list keeps the input order: cleaning distributes over concatenation. */
  lemma {:induction false} NonBlankStringsAppend(a: seq<Json>, b: seq<Json>)
    ensures NonBlankStrings(a + b) == NonBlankStrings(a) + NonBlankStrings(b)
    decreases |a|
  {
    if |a| == 0 {
      assert a + b == b;
    } else {
      assert (a + b)[0] == a[0] && (a + b)[1..] == a[1..] + b;
      NonBlankStringsAppend(a[1..], b);
    }
  }

  /** A string is in the cleaned list exactly when it is the non-empty trimmed
      text of some string element. */
  lemma {:induction false} NonBlankStringsHas(items: seq<Json>, c: string)
    ensures c in NonBlankStrings(items) <==> c != "" && exists k :: 0 <= k < |items| && items[k].JStr? && Trim(items[k].s) == c
    decreases |items|
  {
    if |items| > 0 {
      NonBlankStringsHas(items[1..], c);
      if exists k :: 0 <= k < |items[1..]| && items[1..][k].JStr? && Trim(items[1..][k].s) == c {
        var k :| 0 <= k < |items[1..]| && items[1..][k].JStr? && Trim(items[1..][k].s) == c;
        assert items[k + 1] == items[1..][k];
      }
      if exists k :: 0 <= k < |items| && items[k].JStr? && Trim(items[k].s) == c {
        var k :| 0 <= k < |items| && items[k].JStr? && Trim(items[k].s) == c;
        if k > 0 {
          assert items[1..][k - 1] == items[k];
        }
      }
    }
  }

  /** `normalizeCountries(animal)` / `extractCountries(animal)`. */
  function ExtractCountries(animal: Json): (r: seq<string>)
    ensures forall k :: 0 <= k < |r| ==> r[k] != "" && IsTrimmed(r[k])
  {
    match Get(animal, "countries", JArr([]))
    case JArr(items) => NonBlankStrings(items)
    case _ => []
  }

  /** The countries field decides the result: an array is cleaned, anything else gives []. */
  lemma ExtractCountriesField(animal: Json)
    ensures Prop(animal, "countries").JArr? ==> ExtractCountries(animal) == NonBlankStrings(Prop(animal, "countries").items)
    ensures !Prop(animal, "countries").JArr? ==> ExtractCountries(animal) == []
  {
    assert '.' !in "countries";
    GetKey(animal, "countries", JArr([]));
  }

  /** A key without a dot is a path of one step. */
  lemma GetKey(obj: Json, key: string, dflt: Json)
    requires '.' !in key
    ensures var v := Prop(obj, key);
      Get(obj, key, dflt) == if v.JNull? then dflt else if v.JStr? then JStr(Trim(v.s)) else v
  {
    SplitNoSeparator(key, '.');
    assert [key][1..] == [];
    assert Walk(obj, [key]) == Walk(Prop(obj, key), []) == Prop(obj, key);
  }

  /** Trimmed, non-empty pieces of a habitat text split at ',' and ';'. */
  function TrimmedParts(parts: seq<string>): (r: seq<string>)
    ensures forall k :: 0 <= k < |r| ==> r[k] != "" && IsTrimmed(r[k])
    decreases |parts|
  {
    if |parts| == 0 then []
    else
      var t := Trim(parts[0]);
      var tail := TrimmedParts(parts[1..]);
      if t != "" then [t] + tail else tail
  }

  function HabitatParts(habitat: string): seq<string> {
    TrimmedParts(Split(habitat, {';', ','}))
  }

  /** `shortenHabitat(habitat)` with its default of two items. */
  function ShortenHabitat(habitat: string): (r: string)
    ensures r == "" <==> |HabitatParts(habitat)| == 0
    ensures ',' !in r && ';' !in r
    ensures |HabitatParts(habitat)| == 1 ==> r == HabitatParts(habitat)[0]
    ensures |HabitatParts(habitat)| >= 2 ==> r == HabitatParts(habitat)[0] + " and " + HabitatParts(habitat)[1]
  {
    var parts := HabitatParts(habitat);
    SeparatorFree(Split(habitat, {';', ','}));
    if habitat == "" then ""
    else if |parts| == 0 then ""
    else if |parts| == 1 then parts[0]
    else parts[0] + " and " + parts[1]
  }

  lemma {:induction false} SeparatorFree(parts: seq<string>)
    requires forall k :: 0 <= k < |parts| ==> ',' !in parts[k] && ';' !in parts[k]
    ensures forall k :: 0 <= k < |TrimmedParts(parts)| ==> ',' !in TrimmedParts(parts)[k] && ';' !in TrimmedParts(parts)[k]
    decreases |parts|
  {
    if |parts| > 0 {
      SeparatorFree(parts[1..]);
      var t := Trim(parts[0]);
      TrimChars(parts[0]);
    }
  }

  const NoData := "No data for this animal yet."
  const NoDescription := "No descriptive information available."
  const NoExtra := "Extra info unavailable."

  function Region(animal: Json): string {
    PickFirst(animal, ["characteristics.location", "location", "region"])
  }

  function Habitat(animal: Json): string {
    ShortenHabitat(PickFirst(animal, ["characteristics.habitat", "habitat"]))
  }

  function Feature(animal: Json): string {
    PickFirst(animal, ["characteristics.most_distinctive_feature", "characteristics.distinctive_feature",
                       "most_distinctive_feature", "distinctive_feature"])
  }

  function Diet(animal: Json): string {
    PickFirst(animal, ["characteristics.diet", "diet"])
  }

  function Lifestyle(animal: Json): string {
    PickFirst(animal, ["characteristics.lifestyle", "lifestyle"])
  }

  function Slogan(animal: Json): string {
    PickFirst(animal, ["characteristics.slogan", "slogan"])
  }

  /** `getFeatureHint(animal)`: location, else habitat, else distinctive feature,
      else diet, else lifestyle, else slogan, else a fixed text. */
  function FeatureHint(animal: Json): (r: string)
    ensures r != ""
    ensures !Truthy(animal) ==> r == NoData
    ensures Truthy(animal) && Region(animal) != "" ==> r == "Location \U{2013} " + Region(animal) + "."
    ensures (Truthy(animal) && Region(animal) == "" && Habitat(animal) == "" && Feature(animal) == ""
             && Diet(animal) == "" && Lifestyle(animal) == "" && Slogan(animal) == "") ==> r == NoDescription
  {
    if !Truthy(animal) then NoData
    else if Region(animal) != "" then "Location \U{2013} " + Region(animal) + "."
    else if Habitat(animal) != "" then "Habitat \U{2013} " + Habitat(animal) + "."
    else if Feature(animal) != "" then "Most distinctive feature \U{2013} " + Feature(animal) + "."
    else if Diet(animal) != "" then "Diet \U{2013} " + Diet(animal) + "."
    else if Lifestyle(animal) != "" then "Lifestyle \U{2013} " + Lifestyle(animal) + "."
    else if Slogan(animal) != "" then Slogan(animal)
    else NoDescription
  }

  /** Two records with the same non-blank location get the same hint, whatever
      their other fields hold: later sources are never consulted. */
  lemma FeatureHintLocationWins(a: Json, b: Json)
    requires Truthy(a) && Truthy(b)
    requires Region(a) != "" && Region(a) == Region(b)
    ensures FeatureHint(a) == FeatureHint(b)
  {
  }

  /** `getWeightHint(animal)`: weight, else length/size, else top speed, else a fixed text. */
  function WeightHint(animal: Json): (r: string)
    ensures r != ""
    ensures !Truthy(animal) ==> r == NoExtra
    ensures Truthy(animal) && PickFirst(animal, ["characteristics.weight", "weight"]) != ""
            ==> r == "Typical weight: " + PickFirst(animal, ["characteristics.weight", "weight"]) + "."
  {
    var weight := PickFirst(animal, ["characteristics.weight", "weight"]);
    var length := PickFirst(animal, ["characteristics.length", "length", "size"]);
    var speed := PickFirst(animal, ["characteristics.top_speed", "top_speed", "speed"]);
    if !Truthy(animal) then NoExtra
    else if weight != "" then "Typical weight: " + weight + "."
    else if length != "" then "Typical size: " + length + "."
    else if speed != "" then "Top speed: " + speed + "."
    else NoExtra
  }
}
