/** The animal records the question provider returns, as JSON values. JavaScript's
    `undefined` and `null` are both `JNull`; a key absent from an object is missing. */
module Json {
  import opened JsString

  datatype Json =
    | JNull
    | JBool(b: bool)
    | JNum(n: real)
    | JStr(s: string)
    | JArr(items: seq<Json>)
    | JObj(fields: map<string, Json>)

  /** JavaScript truthiness (NaN is not a value of this model). */
  predicate Truthy(v: Json) {
    match v
    case JNull => false
    case JBool(b) => b
    case JNum(n) => n != 0.0
    case JStr(s) => s != ""
    case JArr(_) => true
    case JObj(_) => true
  }

  /** `o && o[k] != null ? o[k] : undefined`: one step of a property path.
      Only objects have properties here; indexing strings and arrays is not modelled. */
  function Prop(o: Json, k: string): (v: Json)
    ensures !v.JNull? <==> o.JObj? && k in o.fields && !o.fields[k].JNull?
    ensures !v.JNull? ==> v == o.fields[k]
  {
    match o
    case JObj(m) => if k in m && !m[k].JNull? then m[k] else JNull
    case _ => JNull
  }

  /** The value at the end of a property path, `JNull` when any step is missing. */
  function Walk(o: Json, keys: seq<string>): Json
    decreases |keys|
  {
    if |keys| == 0 then o else Walk(Prop(o, keys[0]), keys[1..])
  }

  lemma {:induction false} WalkFromNull(keys: seq<string>)
    ensures Walk(JNull, keys) == JNull
    decreases |keys|
  {
    if |keys| > 0 {
      WalkFromNull(keys[1..]);
    }
  }

  /** Walking a path is walking its prefix and then the rest. */
  lemma {:induction false} WalkAppend(o: Json, a: seq<string>, b: seq<string>)
    ensures Walk(o, a + b) == Walk(Walk(o, a), b)
    decreases |a|
  {
    if |a| > 0 {
      assert (a + b)[0] == a[0] && (a + b)[1..] == a[1..] + b;
      WalkAppend(Prop(o, a[0]), a[1..], b);
      assert Walk(o, a + b) == Walk(Prop(o, a[0]), a[1..] + b);
      assert Walk(o, a) == Walk(Prop(o, a[0]), a[1..]);
    } else {
      assert a + b == b;
    }
  }

  /** A path with a missing step leads nowhere, whatever follows it. */
  lemma MissingStep(o: Json, keys: seq<string>, i: nat)
    requires i < |keys|
    requires Prop(Walk(o, keys[..i]), keys[i]).JNull?
    ensures Walk(o, keys).JNull?
  {
    assert keys == keys[..i] + [keys[i]] + keys[i + 1..];
    WalkAppend(o, keys[..i] + [keys[i]], keys[i + 1..]);
    WalkAppend(o, keys[..i], [keys[i]]);
    WalkFromNull(keys[i + 1..]);
  }

  // ---- `items.some((c) => c.toLowerCase() === target)` ------------------------

  /** How the scan ends: a match, none, or a `TypeError` from an element without
      `toLowerCase` reached before any match. */
  datatype Verdict = Match | NoMatch | TypeError

  function SomeLower(items: seq<Json>, target: string): Verdict
    decreases |items|
  {
    if |items| == 0 then NoMatch
    else match items[0]
      case JStr(c) => if ToLower(c) == target then Match else SomeLower(items[1..], target)
      case _ => TypeError
  }

  /** On an array of strings the scan never throws, and it matches exactly when
      some element lower-cases to the target. */
  lemma {:induction false} SomeLowerStrings(items: seq<Json>, target: string)
    requires forall k :: 0 <= k < |items| ==> items[k].JStr?
    ensures SomeLower(items, target) != TypeError
    ensures SomeLower(items, target) == Match <==> exists k :: 0 <= k < |items| && ToLower(items[k].s) == target
    decreases |items|
  {
    if |items| > 0 {
      SomeLowerStrings(items[1..], target);
      if exists k :: 0 <= k < |items[1..]| && ToLower(items[1..][k].s) == target {
        var k :| 0 <= k < |items[1..]| && ToLower(items[1..][k].s) == target;
        assert items[k + 1] == items[1..][k];
      }
      if exists k :: 0 <= k < |items| && ToLower(items[k].s) == target {
        var k :| 0 <= k < |items| && ToLower(items[k].s) == target;
        if k > 0 {
          assert items[1..][k - 1] == items[k];
        }
      }
    }
  }

  /** The scan stops at the first match: what follows it is never looked at, so a
      later element without `toLowerCase` does not throw. */
  lemma {:induction false} SomeLowerStopsAtMatch(a: seq<Json>, b: seq<Json>, target: string)
    requires SomeLower(a, target) == Match
    ensures SomeLower(a + b, target) == Match
    decreases |a|
  {
    assert |a| > 0;
    assert (a + b)[0] == a[0];
    if a[0].JStr? && ToLower(a[0].s) != target {
      assert (a + b)[1..] == a[1..] + b;
      SomeLowerStopsAtMatch(a[1..], b, target);
    }
  }
}
