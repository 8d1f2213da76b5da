/** `pickAugmentChoices` (bioguessr-client/src/ArenaPage.jsx): expand the catalog
    into a weighted pool, then draw entries without replacement, skipping ids
    already offered, until `count` augments are chosen or the pool is empty.
    `Math.random()` is replaced by `draw`: the index taken at step `k` is
    `draw(k) % |pool|`, which is `Math.floor(Math.random() * pool.length)` for
    some random number. */
module Offer {
  import opened JsMath
  import opened Augments

  /** `pool.splice(idx, 1)` */
  function Remove(pool: seq<Augment>, idx: nat): (rest: seq<Augment>)
    requires idx < |pool|
    ensures |rest| == |pool| - 1
    ensures forall k :: 0 <= k < |rest| ==> rest[k] in pool
    ensures Ids(rest) + {pool[idx].id} == Ids(pool)
  {
    var rest := pool[..idx] + pool[idx + 1..];
    assert pool == pool[..idx] + [pool[idx]] + pool[idx + 1..];
    IdsAppend(pool[..idx], pool[idx + 1..]);
    IdsAppend(pool[..idx] + [pool[idx]], pool[idx + 1..]);
    IdsAppend(pool[..idx], [pool[idx]]);
    rest
  }

  /** The draw loop, from a pool and the choices made so far. */
  function Draws(pool: seq<Augment>, count: nat, chosen: seq<Augment>, draw: nat -> nat, step: nat): (r: seq<Augment>)
    ensures |chosen| <= |r| && r[..|chosen|] == chosen
    ensures forall k :: |chosen| <= k < |r| ==> r[k] in pool
    ensures |chosen| <= count ==> |r| <= count
    decreases |pool|
  {
    if |chosen| >= count || |pool| == 0 then chosen
    else
      var idx := draw(step) % |pool|;
      var aug := pool[idx];
      var rest := Remove(pool, idx);
      if aug.id in Ids(chosen) then Draws(rest, count, chosen, draw, step + 1)
      else
        var r := Draws(rest, count, chosen + [aug], draw, step + 1);
        assert r[..|chosen| + 1] == chosen + [aug];
        assert r[..|chosen|] == (chosen + [aug])[..|chosen|];
        r
  }

  /** An offer of `count` augments from the pool of `augs`. */
  function Offer(augs: seq<Augment>, count: nat, draw: nat -> nat): seq<Augment> {
    Draws(Pool(augs), count, [], draw, 0)
  }

  /** `pickAugmentChoices(count)` */
  function PickAugmentChoices(count: nat, draw: nat -> nat): seq<Augment> {
    Offer(Catalog, count, draw)
  }

  // ---- properties ----------------------------------------------------------

  /** Choosing never repeats an id. */
  lemma {:induction false} DrawsDistinct(pool: seq<Augment>, count: nat, chosen: seq<Augment>, draw: nat -> nat, step: nat)
    requires DistinctIds(chosen)
    ensures DistinctIds(Draws(pool, count, chosen, draw, step))
    decreases |pool|
  {
    if |chosen| < count && |pool| > 0 {
      var idx := draw(step) % |pool|;
      var aug := pool[idx];
      var rest := Remove(pool, idx);
      if aug.id in Ids(chosen) {
        DrawsDistinct(rest, count, chosen, draw, step + 1);
      } else {
        IdsIndex(chosen, aug.id);
        DrawsDistinct(rest, count, chosen + [aug], draw, step + 1);
      }
    }
  }

  /** The ids chosen so far together with those still in the pool never change, so
      the loop stops with `count` choices or with one choice per id. */
  lemma {:induction false} DrawsSize(pool: seq<Augment>, count: nat, chosen: seq<Augment>, draw: nat -> nat, step: nat)
    requires DistinctIds(chosen) && |chosen| <= count
    ensures |Draws(pool, count, chosen, draw, step)| == Min(count, |Ids(chosen) + Ids(pool)|)
    decreases |pool|
  {
    DistinctIdsCount(chosen);
    if |chosen| >= count {
      SubsetCard(Ids(chosen), Ids(chosen) + Ids(pool));
    } else if |pool| == 0 {
      assert Ids(pool) == {};
      assert Ids(chosen) + Ids(pool) == Ids(chosen);
    } else {
      var idx := draw(step) % |pool|;
      var aug := pool[idx];
      var rest := Remove(pool, idx);
      DrawStep(pool, idx, chosen);
      if aug.id in Ids(chosen) {
        DrawsSize(rest, count, chosen, draw, step + 1);
      } else {
        IdsIndex(chosen, aug.id);
        DrawsSize(rest, count, chosen + [aug], draw, step + 1);
      }
    }
  }

  /** One draw keeps the ids of the choices and the pool together. */
  lemma DrawStep(pool: seq<Augment>, idx: nat, chosen: seq<Augment>)
    requires idx < |pool|
    ensures pool[idx].id in Ids(chosen) ==> Ids(chosen) + Ids(Remove(pool, idx)) == Ids(chosen) + Ids(pool)
    ensures pool[idx].id !in Ids(chosen) ==> Ids(chosen + [pool[idx]]) + Ids(Remove(pool, idx)) == Ids(chosen) + Ids(pool)
  {
    IdsAppend(chosen, [pool[idx]]);
  }

  lemma {:induction false} SubsetCard(a: set<string>, b: set<string>)
    requires a <= b
    ensures |a| <= |b|
    decreases |a|
  {
    if a != {} {
      var x :| x in a;
      SubsetCard(a - {x}, b - {x});
    }
  }

  /** An offer from a catalog with distinct ids holds `min(count, |augs|)` entries of
      the catalog with pairwise distinct ids. */
  lemma OfferSpec(augs: seq<Augment>, count: nat, draw: nat -> nat)
    requires DistinctIds(augs)
    ensures |Offer(augs, count, draw)| == Min(count, |augs|)
    ensures DistinctIds(Offer(augs, count, draw))
    ensures forall k :: 0 <= k < |Offer(augs, count, draw)| ==> Offer(augs, count, draw)[k] in augs
  {
    var pool := Pool(augs);
    DrawsDistinct(pool, count, [], draw, 0);
    DrawsSize(pool, count, [], draw, 0);
    assert Ids([]) + Ids(pool) == Ids(pool);
    PoolMembers(augs);
    DistinctIdsCount(augs);
  }

  /** An offer of `count` augments holds `min(count, 11)` catalog entries with
      pairwise distinct ids; in particular an offer of three always has three. */
  lemma PickAugmentChoicesSpec(count: nat, draw: nat -> nat)
    ensures |PickAugmentChoices(count, draw)| == Min(count, 11)
    ensures DistinctIds(PickAugmentChoices(count, draw))
    ensures forall k :: 0 <= k < |PickAugmentChoices(count, draw)| ==> PickAugmentChoices(count, draw)[k] in Catalog
  {
    CatalogDistinct();
    OfferSpec(Catalog, count, draw);
  }

  /** The loop as written: each pass removes one pool entry, so it terminates. */
  method OfferLoop(augs: seq<Augment>, count: nat, draw: nat -> nat) returns (choices: seq<Augment>)
    ensures choices == Offer(augs, count, draw)
    ensures DistinctIds(augs) ==> |choices| == Min(count, |augs|) && DistinctIds(choices)
    ensures forall k :: 0 <= k < |choices| ==> choices[k] in augs
  {
    var pool := Pool(augs);
    var usedIds: set<string> := {};
    var step := 0;
    choices := [];
    while |choices| < count && |pool| > 0
      invariant Draws(pool, count, choices, draw, step) == Offer(augs, count, draw)
      invariant usedIds == Ids(choices)
      decreases |pool|
    {
      var idx := draw(step) % |pool|;
      var aug := pool[idx];
      pool := Remove(pool, idx);
      step := step + 1;
      if aug.id in usedIds {
        continue;
      }
      IdsAppend(choices, [aug]);
      usedIds := usedIds + {aug.id};
      choices := choices + [aug];
    }
    PoolMembers(augs);
    if DistinctIds(augs) {
      OfferSpec(augs, count, draw);
    }
  }
}
