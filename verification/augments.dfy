/** The Arena augment catalog (bioguessr-client/src/arenaAugments.js) and the
    rarity weights that decide how often each augment is offered. */
module Augments {
  import opened JsMath

  /** The rarity label of an entry; `Other` is any label the weight table lacks. */
  datatype Rarity = Common | Rare | Epic | Legendary | Other(tag: string)

  /** One catalog entry. `charges` is the number of questions the description
      promises the effect lasts for; `None` for one-off or permanent effects. */
  datatype Augment = Augment(id: string, name: string, rarity: Rarity, charges: Option<nat>)

  const Catalog: seq<Augment> := [
    Augment("safe_guard", "Safety Net", Common, Some(4)),
    Augment("blood_pact", "Blood Pact", Rare, None),
    Augment("flurry_gambit", "Flurry Gambit", Rare, Some(4)),
    Augment("hearty", "Hearty", Common, None),
    Augment("shielded_shell", "Shielded Shell", Common, Some(4)),
    Augment("leech_vines", "Leech Vines", Rare, Some(4)),
    Augment("clairvoyance", "Clairvoyance", Epic, Some(3)),
    Augment("last_life_lens", "Last Life Lens", Legendary, None),
    Augment("phantom_shroud", "Phantom Shroud", Legendary, None),
    Augment("eternal_flurry", "Eternal Flurry", Legendary, None),
    Augment("duel_flurry", "Duel Flurry", Epic, None)
  ]

  /** The ids of a list of augments. */
  function Ids(augs: seq<Augment>): set<string>
    decreases |augs|
  {
    if |augs| == 0 then {} else {augs[0].id} + Ids(augs[1..])
  }

  /** No two augments of the list share an id. */
  predicate DistinctIds(augs: seq<Augment>) {
    forall i, j :: 0 <= i < j < |augs| ==> augs[i].id != augs[j].id
  }

  /** The offer weight of a rarity; `?? 1` gives an unknown rarity the common weight. */
  function Weight(rarity: Rarity): (w: real)
    ensures 0.0 < w <= 1.0
    ensures rarity.Other? ==> w == 1.0
  {
    match rarity
    case Common => 1.0
    case Rare => 0.6
    case Epic => 0.25
    case Legendary => 0.1
    case Other(_) => 1.0
  }

  /** How many copies of an augment go into the offer pool: `Math.round(w * 10)`. */
  function Copies(rarity: Rarity): (n: nat)
    ensures 1 <= n <= 10
  {
    Round(Weight(rarity) * 10.0)
  }

  /** `Array(copies).fill(a)` */
  function Repeat(a: Augment, n: nat): (r: seq<Augment>)
    ensures |r| == n && forall k :: 0 <= k < n ==> r[k] == a
  {
    seq(n, _ => a)
  }

  /** `AUGMENTS.flatMap(...)`: every augment, repeated by its rarity's copy count. */
  function Pool(augs: seq<Augment>): (pool: seq<Augment>)
    decreases |augs|
  {
    if |augs| == 0 then [] else Repeat(augs[0], Copies(augs[0].rarity)) + Pool(augs[1..])
  }

  function CountRarity(augs: seq<Augment>, rarity: Rarity): nat
    decreases |augs|
  {
    if |augs| == 0 then 0
    else (if augs[0].rarity == rarity then 1 else 0) + CountRarity(augs[1..], rarity)
  }

  // ---- ids -----------------------------------------------------------------

  lemma {:induction false} IdsAppend(a: seq<Augment>, b: seq<Augment>)
    ensures Ids(a + b) == Ids(a) + Ids(b)
    decreases |a|
  {
    if |a| == 0 {
      assert a + b == b;
    } else {
      assert (a + b)[1..] == a[1..] + b;
      IdsAppend(a[1..], b);
    }
  }

  /** An id is in `Ids(augs)` exactly when some entry carries it. */
  lemma {:induction false} IdsIndex(augs: seq<Augment>, x: string)
    ensures x in Ids(augs) <==> exists k :: 0 <= k < |augs| && augs[k].id == x
    decreases |augs|
  {
    if |augs| > 0 {
      IdsIndex(augs[1..], x);
      if exists k :: 0 <= k < |augs[1..]| && augs[1..][k].id == x {
        var k :| 0 <= k < |augs[1..]| && augs[1..][k].id == x;
        assert augs[k + 1].id == x;
      }
      if exists k :: 0 <= k < |augs| && augs[k].id == x {
        var k :| 0 <= k < |augs| && augs[k].id == x;
        if k > 0 {
          assert augs[1..][k - 1].id == x;
        }
      }
    }
  }

  /** A list with distinct ids has as many ids as entries. */
  lemma {:induction false} DistinctIdsCount(augs: seq<Augment>)
    requires DistinctIds(augs)
    ensures |Ids(augs)| == |augs|
    decreases |augs|
  {
    if |augs| > 0 {
      var tail := augs[1..];
      assert DistinctIds(tail) by {
        forall i, j | 0 <= i < j < |tail| ensures tail[i].id != tail[j].id {
          assert tail[i] == augs[i + 1] && tail[j] == augs[j + 1];
        }
      }
      DistinctIdsCount(tail);
      IdsIndex(tail, augs[0].id);
    }
  }

  // ---- properties of the catalog -------------------------------------------

  /** The catalog has eleven entries with pairwise distinct ids. */
  lemma CatalogDistinct()
    ensures |Catalog| == 11
    ensures DistinctIds(Catalog)
  {
  }

  lemma CatalogIds()
    ensures |Ids(Catalog)| == 11
  {
    CatalogDistinct();
    DistinctIdsCount(Catalog);
  }

  /** No entry has a rarity outside the weight table. */
  lemma CatalogRaritiesKnown()
    ensures forall k :: 0 <= k < |Catalog| ==> !Catalog[k].rarity.Other?
  {
  }

  /** 3 common, 3 rare, 2 epic and 3 legendary entries, and none of another rarity. */
  lemma CommonCount() ensures CountRarity(Catalog, Common) == 3 {}
  lemma RareCount() ensures CountRarity(Catalog, Rare) == 3 {}
  lemma EpicCount() ensures CountRarity(Catalog, Epic) == 2 {}
  lemma LegendaryCount() ensures CountRarity(Catalog, Legendary) == 3 {}
  lemma OtherCount() ensures CountOther(Catalog) == 0 {}

  /** Entries with a rarity outside the weight table. */
  function CountOther(augs: seq<Augment>): nat
    decreases |augs|
  {
    if |augs| == 0 then 0
    else (if augs[0].rarity.Other? then 1 else 0) + CountOther(augs[1..])
  }

  /** The pool size is the copy count summed over the entries. */
  lemma {:induction false} PoolLength(augs: seq<Augment>)
    ensures |Pool(augs)| == 10 * CountRarity(augs, Common) + 6 * CountRarity(augs, Rare)
      + 3 * CountRarity(augs, Epic) + CountRarity(augs, Legendary) + 10 * CountOther(augs)
    decreases |augs|
  {
    if |augs| > 0 {
      PoolLength(augs[1..]);
      CopiesPerRarity(augs[0].rarity);
    }
  }

  /** Common, rare, epic and legendary entries get 10, 6, 3 and 1 copies
      (`Math.round(2.5)` is 3); an unknown rarity gets 10. */
  lemma CopiesPerRarity(rarity: Rarity)
    ensures Copies(Common) == 10 && Copies(Rare) == 6
    ensures Copies(Epic) == 3 && Copies(Legendary) == 1
    ensures rarity.Other? ==> Copies(rarity) == 10
  {
  }

  /** Every pool entry is a catalog entry, and every catalog id is in the pool. */
  lemma {:induction false} PoolMembers(augs: seq<Augment>)
    ensures forall k :: 0 <= k < |Pool(augs)| ==> Pool(augs)[k] in augs
    ensures Ids(Pool(augs)) == Ids(augs)
    decreases |augs|
  {
    if |augs| > 0 {
      PoolMembers(augs[1..]);
      var head := Repeat(augs[0], Copies(augs[0].rarity));
      var tail := Pool(augs[1..]);
      assert Pool(augs) == head + tail;
      forall k | 0 <= k < |head + tail|
        ensures (head + tail)[k] in augs
      {
        if k >= |head| {
          assert (head + tail)[k] == tail[k - |head|];
        }
      }
      IdsAppend(head, tail);
      assert Ids(head) == {augs[0].id} by {
        RepeatIds(augs[0], Copies(augs[0].rarity));
      }
    }
  }

  lemma {:induction false} RepeatIds(a: Augment, n: nat)
    requires n >= 1
    ensures Ids(Repeat(a, n)) == {a.id}
    decreases n
  {
    if n > 1 {
      RepeatIds(a, n - 1);
      assert Repeat(a, n)[1..] == Repeat(a, n - 1);
    }
  }

  /** The pool holds 3·10 + 3·6 + 2·3 + 3·1 = 57 entries covering the eleven ids. */
  lemma PoolSize()
    ensures |Pool(Catalog)| == 57
    ensures |Ids(Pool(Catalog))| == 11
  {
    PoolLength(Catalog);
    CommonCount();
    RareCount();
    EpicCount();
    LegendaryCount();
    OtherCount();
    PoolMembers(Catalog);
    CatalogIds();
  }
}
