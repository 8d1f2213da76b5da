/** `cleanCountries` (bioguessr-client/src/utils/countries.js): drop non-strings,
    empty strings, bare country codes and all-capital labels, keep the first
    spelling of each case-insensitive name, and sort the result. */
module Countries {
  import opened JsString
  import opened Json

  /** `/^[A-Z]{2,3}$/.test(s)` */
  predicate IsCountryCode(s: string) {
    (|s| == 2 || |s| == 3) && forall i :: 0 <= i < |s| ==> 'A' <= s[i] <= 'Z'
  }

  /** The entries the loop skips before looking at duplicates. */
  predicate Excluded(s: string) {
    s == "" || IsCountryCode(s) || (s == ToUpper(s) && |s| > 3)
  }

  /** The duplicate key: `country.toLowerCase().trim()`. */
  function Key(s: string): string {
    Trim(ToLower(s))
  }

  /** The `for … of` loop, given the filter `skip` and the duplicate key `key`:
      keep each string that is not skipped and whose key is not yet `seen`. */
  function Collect(items: seq<Json>, seen: set<string>, skip: string -> bool, key: string -> string): (r: seq<string>)
    ensures |r| <= |items|
    decreases |items|
  {
    if |items| == 0 then []
    else
      var rest := items[1..];
      match items[0]
      case JStr(c) =>
        if skip(c) || key(c) in seen then Collect(rest, seen, skip, key)
        else [c] + Collect(rest, seen + {key(c)}, skip, key)
      case _ => Collect(rest, seen, skip, key)
  }

  /** No two elements of `s` share a key under `key`. */
  predicate DistinctBy(s: seq<string>, key: string -> string) {
    forall i, j :: 0 <= i < j < |s| ==> key(s[i]) != key(s[j])
  }

  /** No two elements share a case-insensitive name. */
  predicate DistinctKeys(s: seq<string>) {
    DistinctBy(s, Key)
  }

  /** Insert `x` before the first element it does not follow. */
  function Insert(x: string, s: seq<string>): (r: seq<string>)
    ensures multiset(r) == multiset(s) + multiset{x}
    ensures |r| == |s| + 1
    ensures r[0] == x || (|s| > 0 && r[0] == s[0])
    decreases |s|
  {
    if |s| == 0 || Leq(x, s[0]) then [x] + s
    else
      assert s == [s[0]] + s[1..];
      [s[0]] + Insert(x, s[1..])
  }

  /** `Array.prototype.sort()` with the default comparator, as an insertion sort. */
  function Sort(s: seq<string>): (r: seq<string>)
    ensures multiset(r) == multiset(s)
    ensures |r| == |s|
    decreases |s|
  {
    if |s| == 0 then []
    else
      assert s == [s[0]] + s[1..];
      Insert(s[0], Sort(s[1..]))
  }

  predicate Sorted(s: seq<string>) {
    forall i :: 0 <= i < |s| - 1 ==> Leq(s[i], s[i + 1])
  }

  /** `cleanCountries(countries)` */
  function CleanCountries(countries: Json): seq<string> {
    if !Truthy(countries) || !countries.JArr? then []
    else Sort(Collect(countries.items, {}, Excluded, Key))
  }

  /** The input shape the function accepts back: an array of strings. */
  function ToJson(ss: seq<string>): (j: Json)
    ensures j.JArr? && |j.items| == |ss|
    ensures forall k :: 0 <= k < |ss| ==> j.items[k] == JStr(ss[k])
  {
    JArr(seq(|ss|, k requires 0 <= k < |ss| => JStr(ss[k])))
  }

  // ---- sorting -------------------------------------------------------------

  lemma {:induction false} InsertSorted(x: string, s: seq<string>)
    requires Sorted(s)
    ensures Sorted(Insert(x, s))
    decreases |s|
  {
    if |s| > 0 && !Leq(x, s[0]) {
      LeqTotal(x, s[0]);
      InsertSorted(x, s[1..]);
      var t := Insert(x, s[1..]);
      assert Leq(s[0], t[0]);
      assert Insert(x, s) == [s[0]] + t;
    }
  }

  lemma {:induction false} SortSorted(s: seq<string>)
    ensures Sorted(Sort(s))
    decreases |s|
  {
    if |s| > 0 {
      SortSorted(s[1..]);
      InsertSorted(s[0], Sort(s[1..]));
    }
  }

  /** Sorting an already sorted list returns it unchanged. */
  lemma {:induction false} SortOfSorted(s: seq<string>)
    requires Sorted(s)
    ensures Sort(s) == s
    decreases |s|
  {
    if |s| > 0 {
      SortOfSorted(s[1..]);
      assert Sort(s[1..]) == s[1..];
      assert s == [s[0]] + s[1..];
    }
  }

  /** Adjacent order extends to every pair, since `Leq` is transitive. */
  lemma {:induction false} SortedPairs(s: seq<string>, i: nat, j: nat)
    requires Sorted(s) && i <= j < |s|
    ensures Leq(s[i], s[j])
    decreases j - i
  {
    if i == j {
      LeqReflexive(s[i]);
    } else {
      SortedPairs(s, i + 1, j);
      LeqTransitive(s[i], s[i + 1], s[j]);
    }
  }

  lemma {:induction false} LeqReflexive(a: string)
    ensures Leq(a, a)
    decreases |a|
  {
    if |a| > 0 {
      LeqReflexive(a[1..]);
    }
  }

  /** No element of `s` has key `k` under `key`. */
  predicate FreshBy(k: string, s: seq<string>, key: string -> string) {
    forall i :: 0 <= i < |s| ==> key(s[i]) != k
  }

  lemma {:induction false} InsertDistinct(x: string, s: seq<string>, key: string -> string)
    requires DistinctBy(s, key) && FreshBy(key(x), s, key)
    ensures DistinctBy(Insert(x, s), key)
    decreases |s|
  {
    if |s| == 0 || Leq(x, s[0]) {
      ConsDistinct(x, s, key);
    } else {
      var s' := s[1..];
      assert DistinctBy(s', key) by {
        forall i, j | 0 <= i < j < |s'| ensures key(s'[i]) != key(s'[j]) {
          assert s'[i] == s[i + 1] && s'[j] == s[j + 1];
        }
      }
      assert FreshBy(key(x), s', key) by {
        forall i | 0 <= i < |s'| ensures key(s'[i]) != key(x) {
          assert s'[i] == s[i + 1];
        }
      }
      InsertDistinct(x, s', key);
      var t := Insert(x, s');
      forall i | 0 <= i < |t|
        ensures key(t[i]) != key(s[0])
      {
        assert t[i] in multiset(t);
        if t[i] != x {
          assert t[i] in multiset(s');
          var k :| 0 <= k < |s'| && s'[k] == t[i];
          assert s[k + 1] == t[i];
        }
      }
      ConsDistinct(s[0], t, key);
    }
  }

  lemma ConsDistinct(x: string, t: seq<string>, key: string -> string)
    requires DistinctBy(t, key) && FreshBy(key(x), t, key)
    ensures DistinctBy([x] + t, key)
  {
    var s := [x] + t;
    forall i, j | 0 <= i < j < |s|
      ensures key(s[i]) != key(s[j])
    {
      assert s[j] == t[j - 1];
      if i > 0 {
        assert s[i] == t[i - 1];
      }
    }
  }

  /** Sorting neither adds nor drops a string. */
  lemma SortMembers(s: seq<string>, x: string)
    ensures x in Sort(s) <==> x in s
  {
    assert x in Sort(s) <==> x in multiset(Sort(s));
    assert x in s <==> x in multiset(s);
  }

  /** Sorting keeps keys distinct. */
  lemma {:induction false} SortDistinct(s: seq<string>, key: string -> string)
    requires DistinctBy(s, key)
    ensures DistinctBy(Sort(s), key)
    decreases |s|
  {
    if |s| > 0 {
      var s' := s[1..];
      assert DistinctBy(s', key) by {
        forall i, j | 0 <= i < j < |s'| ensures key(s'[i]) != key(s'[j]) {
          assert s'[i] == s[i + 1] && s'[j] == s[j + 1];
        }
      }
      SortDistinct(s', key);
      var t := Sort(s');
      forall i | 0 <= i < |t|
        ensures key(t[i]) != key(s[0])
      {
        assert t[i] in multiset(s');
        var k :| 0 <= k < |s'| && s'[k] == t[i];
        assert s[k + 1] == t[i];
      }
      InsertDistinct(s[0], t, key);
    }
  }

  // ---- the loop ------------------------------------------------------------

  /** Every kept string is an unskipped string of the input with a new key. */
  lemma {:induction false} CollectAdmissible(items: seq<Json>, seen: set<string>, skip: string -> bool, key: string -> string)
    ensures forall k :: 0 <= k < |Collect(items, seen, skip, key)| ==>
      !skip(Collect(items, seen, skip, key)[k]) && key(Collect(items, seen, skip, key)[k]) !in seen
      && JStr(Collect(items, seen, skip, key)[k]) in items
    decreases |items|
  {
    if |items| > 0 {
      var rest := items[1..];
      assert forall y :: y in rest ==> y in items;
      match items[0]
      case JStr(c) =>
        if skip(c) || key(c) in seen {
          CollectAdmissible(rest, seen, skip, key);
        } else {
          CollectAdmissible(rest, seen + {key(c)}, skip, key);
        }
      case _ =>
        CollectAdmissible(rest, seen, skip, key);
    }
  }

  /** The kept strings have pairwise distinct keys. */
  lemma {:induction false} CollectDistinct(items: seq<Json>, seen: set<string>, skip: string -> bool, key: string -> string)
    ensures DistinctBy(Collect(items, seen, skip, key), key)
    decreases |items|
  {
    if |items| > 0 {
      var rest := items[1..];
      match items[0]
      case JStr(c) =>
        if skip(c) || key(c) in seen {
          CollectDistinct(rest, seen, skip, key);
        } else {
          var seen' := seen + {key(c)};
          CollectDistinct(rest, seen', skip, key);
          CollectAdmissible(rest, seen', skip, key);
          var t := Collect(rest, seen', skip, key);
          assert FreshBy(key(c), t, key);
          ConsDistinct(c, t, key);
        }
      case _ =>
        CollectDistinct(rest, seen, skip, key);
    }
  }

  /** A string with a new key, which no earlier unskipped string shares a key with,
      is kept with its own spelling. */
  lemma {:induction false} CollectKeepsFirst(items: seq<Json>, seen: set<string>, skip: string -> bool, key: string -> string, i: nat, c: string)
    requires i < |items| && items[i] == JStr(c) && !skip(c) && key(c) !in seen
    requires forall j :: 0 <= j < i && items[j].JStr? && !skip(items[j].s) ==> key(items[j].s) != key(c)
    ensures c in Collect(items, seen, skip, key)
    decreases i
  {
    if i > 0 {
      var rest := items[1..];
      assert rest[i - 1] == items[i];
      forall j | 0 <= j < i - 1 && rest[j].JStr? && !skip(rest[j].s)
        ensures key(rest[j].s) != key(c)
      {
        assert rest[j] == items[j + 1];
      }
      match items[0]
      case JStr(d) =>
        if skip(d) || key(d) in seen {
          CollectKeepsFirst(rest, seen, skip, key, i - 1, c);
        } else {
          CollectKeepsFirst(rest, seen + {key(d)}, skip, key, i - 1, c);
        }
      case _ =>
        CollectKeepsFirst(rest, seen, skip, key, i - 1, c);
    }
  }

  /** Every unskipped input string with a new key is represented in the output by a
      string with the same key. */
  lemma {:induction false} CollectCovers(items: seq<Json>, seen: set<string>, skip: string -> bool, key: string -> string, i: nat, c: string)
    requires i < |items| && items[i] == JStr(c) && !skip(c) && key(c) !in seen
    ensures exists x :: x in Collect(items, seen, skip, key) && key(x) == key(c)
    decreases i
  {
    var rest := items[1..];
    if i == 0 {
      assert c in Collect(items, seen, skip, key);
    } else {
      assert rest[i - 1] == items[i];
      match items[0]
      case JStr(d) =>
        if skip(d) || key(d) in seen {
          CollectCovers(rest, seen, skip, key, i - 1, c);
        } else if key(d) == key(c) {
          assert d in Collect(items, seen, skip, key);
        } else {
          CollectCovers(rest, seen + {key(d)}, skip, key, i - 1, c);
          var x :| x in Collect(rest, seen + {key(d)}, skip, key) && key(x) == key(c);
          assert x in Collect(items, seen, skip, key);
        }
      case _ =>
        CollectCovers(rest, seen, skip, key, i - 1, c);
    }
  }

  /** A list of unskipped strings with distinct new keys goes through the loop untouched. */
  lemma {:induction false} CollectOfClean(s: seq<string>, seen: set<string>, skip: string -> bool, key: string -> string)
    requires DistinctBy(s, key)
    requires forall k :: 0 <= k < |s| ==> !skip(s[k]) && key(s[k]) !in seen
    ensures Collect(ToJson(s).items, seen, skip, key) == s
    decreases |s|
  {
    if |s| > 0 {
      var items := ToJson(s).items;
      var s' := s[1..];
      assert items[1..] == ToJson(s').items;
      assert DistinctBy(s', key) by {
        forall i, j | 0 <= i < j < |s'| ensures key(s'[i]) != key(s'[j]) {
          assert s'[i] == s[i + 1] && s'[j] == s[j + 1];
        }
      }
      forall k | 0 <= k < |s'|
        ensures !skip(s'[k]) && key(s'[k]) !in seen + {key(s[0])}
      {
        assert s'[k] == s[k + 1];
      }
      CollectOfClean(s', seen + {key(s[0])}, skip, key);
      assert s == [s[0]] + s';
    }
  }

  // ---- the properties of cleanCountries ------------------------------------

  /** Anything that is not a truthy array cleans to the empty list. */
  lemma CleanCountriesNonArray(countries: Json)
    requires !countries.JArr?
    ensures CleanCountries(countries) == []
  {
  }

  /** The output is sorted, free of excluded entries and of case-insensitive
      duplicates, no longer than the input, and every element is a string of the input. */
  lemma CleanCountriesWellFormed(countries: Json)
    ensures Sorted(CleanCountries(countries))
    ensures DistinctKeys(CleanCountries(countries))
    ensures forall k :: 0 <= k < |CleanCountries(countries)| ==> !Excluded(CleanCountries(countries)[k])
    ensures countries.JArr? ==> |CleanCountries(countries)| <= |countries.items|
    ensures countries.JArr? ==> forall k :: 0 <= k < |CleanCountries(countries)| ==> JStr(CleanCountries(countries)[k]) in countries.items
  {
    if countries.JArr? {
      var c := Collect(countries.items, {}, Excluded, Key);
      var r := Sort(c);
      SortSorted(c);
      CollectDistinct(countries.items, {}, Excluded, Key);
      CollectAdmissible(countries.items, {}, Excluded, Key);
      SortDistinct(c, Key);
      forall k | 0 <= k < |r|
        ensures !Excluded(r[k]) && JStr(r[k]) in countries.items
      {
        assert r[k] in multiset(c);
      }
    }
  }

  /** Every admissible name is represented, and the first spelling of each
      case-insensitive name is the one kept. */
  lemma CleanCountriesKeepsFirst(items: seq<Json>, i: nat, c: string)
    requires i < |items| && items[i] == JStr(c) && !Excluded(c)
    ensures exists x :: x in CleanCountries(JArr(items)) && Key(x) == Key(c)
    ensures (forall j :: 0 <= j < i && items[j].JStr? && !Excluded(items[j].s) ==> Key(items[j].s) != Key(c))
            ==> c in CleanCountries(JArr(items))
  {
    var col := Collect(items, {}, Excluded, Key);
    assert CleanCountries(JArr(items)) == Sort(col);
    CollectCovers(items, {}, Excluded, Key, i, c);
    var x :| x in col && Key(x) == Key(c);
    SortMembers(col, x);
    if forall j :: 0 <= j < i && items[j].JStr? && !Excluded(items[j].s) ==> Key(items[j].s) != Key(c) {
      CollectKeepsFirst(items, {}, Excluded, Key, i, c);
      SortMembers(col, c);
    }
  }

  /** Cleaning twice is cleaning once. */
  lemma CleanCountriesIdempotent(countries: Json)
    ensures CleanCountries(ToJson(CleanCountries(countries))) == CleanCountries(countries)
  {
    var r := CleanCountries(countries);
    CleanCountriesWellFormed(countries);
    CollectOfClean(r, {}, Excluded, Key);
    SortOfSorted(r);
  }
}
