/** What picking an augment does to an Arena run, and how the `pickAugment`
    switch lines up with the catalog. */
module ArenaAugmentSpecs {
  import opened JsMath
  import opened Augments
  import opened ArenaRules
  import opened Arena
  import opened ArenaProps

  /** The id whose `case` runs a given effect. */
  function IdOf(e: Effect): string {
    match e
    case SafeGuard => "safe_guard"
    case BloodPact => "blood_pact"
    case FlurryGambit => "flurry_gambit"
    case Hearty => "hearty"
    case ShieldedShell => "shielded_shell"
    case LeechVines => "leech_vines"
    case Clairvoyance => "clairvoyance"
    case LastLifeLens => "last_life_lens"
    case PhantomShroud => "phantom_shroud"
    case EternalFlurry => "eternal_flurry"
    case DuelFlurry => "duel_flurry"
  }

  /** Each `case` label is selected by its own id ... */
  lemma EffectOfIdOf(e: Effect)
    ensures EffectOf(IdOf(e)) == Some(e)
  {
  }

  /** ... and by no other. */
  lemma IdOfEffectOf(id: string)
    ensures EffectOf(id).Some? ==> IdOf(EffectOf(id).value) == id
  {
    if id == "safe_guard" {}
    else if id == "blood_pact" {}
    else if id == "flurry_gambit" {}
    else if id == "hearty" {}
    else if id == "shielded_shell" {}
    else if id == "leech_vines" {}
    else if id == "clairvoyance" {}
    else if id == "last_life_lens" {}
    else if id == "phantom_shroud" {}
    else if id == "eternal_flurry" {}
    else if id == "duel_flurry" {}
    else { assert EffectOf(id).None?; }
  }

  /** Every `case` label is the id of a catalog entry. */
  lemma CaseInCatalog(e: Effect)
    ensures exists k :: 0 <= k < |Catalog| && Catalog[k].id == IdOf(e)
  {
    var k := match e
      case SafeGuard => 0
      case BloodPact => 1
      case FlurryGambit => 2
      case Hearty => 3
      case ShieldedShell => 4
      case LeechVines => 5
      case Clairvoyance => 6
      case LastLifeLens => 7
      case PhantomShroud => 8
      case EternalFlurry => 9
      case DuelFlurry => 10;
    assert Catalog[k].id == IdOf(e);
  }

  /** Every catalog entry has its own `case`: the switch and the catalog list the
      same eleven augments. */
  lemma CatalogHasCase(k: nat)
    requires k < |Catalog|
    ensures EffectOf(Catalog[k].id).Some?
    ensures IdOf(EffectOf(Catalog[k].id).value) == Catalog[k].id
  {
    var id := Catalog[k].id;
    if k == 0 { assert id == "safe_guard"; }
    else if k == 1 { assert id == "blood_pact"; }
    else if k == 2 { assert id == "flurry_gambit"; }
    else if k == 3 { assert id == "hearty"; }
    else if k == 4 { assert id == "shielded_shell"; }
    else if k == 5 { assert id == "leech_vines"; }
    else if k == 6 { assert id == "clairvoyance"; }
    else if k == 7 { assert id == "last_life_lens"; }
    else if k == 8 { assert id == "phantom_shroud"; }
    else if k == 9 { assert id == "eternal_flurry"; }
    else { assert id == "duel_flurry"; }
  }

  /** An id that is not in the catalog falls to the `default` branch and leaves
      the run as it was. */
  lemma UnknownAugmentIgnored(r: Run, id: string)
    ensures id !in Ids(Catalog) ==> ApplyAugment(r, id) == r
    ensures id in Ids(Catalog) ==> EffectOf(id).Some?
  {
    IdsIndex(Catalog, id);
    if EffectOf(id).Some? {
      IdOfEffectOf(id);
      CaseInCatalog(EffectOf(id).value);
    }
    if id in Ids(Catalog) {
      var k :| 0 <= k < |Catalog| && Catalog[k].id == id;
      CatalogHasCase(k);
    }
  }

  // ---- charges -------------------------------------------------------------

  /** The five per-question counters. */
  datatype Slot = SafeSlot | FlurrySlot | ShieldSlot | LeechSlot | ForesightSlot

  function CounterOf(c: Charges, s: Slot): int {
    match s
    case SafeSlot => c.safe
    case FlurrySlot => c.flurry
    case ShieldSlot => c.shield
    case LeechSlot => c.leech
    case ForesightSlot => c.foresight
  }

  function FlagOf(a: Active, s: Slot): bool {
    match s
    case SafeSlot => a.safe
    case FlurrySlot => a.flurry
    case ShieldSlot => a.shield
    case LeechSlot => a.leech
    case ForesightSlot => a.foresight
  }

  /** The counter a timed augment feeds. */
  function SlotOf(e: Effect): Option<Slot> {
    match e
    case SafeGuard => Some(SafeSlot)
    case FlurryGambit => Some(FlurrySlot)
    case ShieldedShell => Some(ShieldSlot)
    case LeechVines => Some(LeechSlot)
    case Clairvoyance => Some(ForesightSlot)
    case _ => None
  }

  /** The counters after `j` submissions. */
  function ConsumeN(c: Charges, j: nat): Charges
    decreases j
  {
    if j == 0 then c else Consume(ConsumeN(c, j - 1))
  }

  /** A counter of `n` charges loses one per submission until it reaches zero. */
  lemma {:induction false} ConsumeNCounter(c: Charges, s: Slot, j: nat)
    requires CounterOf(c, s) >= 0
    ensures CounterOf(ConsumeN(c, j), s) == Max(0, CounterOf(c, s) - j)
    decreases j
  {
    if j > 0 {
      ConsumeNCounter(c, s, j - 1);
    }
  }

  /** The catalog's advertised durations are the charges the switch adds: picking
      a timed augment adds exactly `charges` to the counter its effect reads. */
  lemma AdvertisedCharges(r: Run, k: nat)
    requires k < |Catalog| && Catalog[k].charges.Some?
    ensures EffectOf(Catalog[k].id).Some? && SlotOf(EffectOf(Catalog[k].id).value).Some?
    ensures var s := SlotOf(EffectOf(Catalog[k].id).value).value;
      CounterOf(ApplyAugment(r, Catalog[k].id).buffs.charges, s)
        == CounterOf(r.buffs.charges, s) + Catalog[k].charges.value
  {
    if k == 0 { assert Catalog[k].id == "safe_guard"; }
    else if k == 2 { assert Catalog[k].id == "flurry_gambit"; }
    else if k == 4 { assert Catalog[k].id == "shielded_shell"; }
    else if k == 5 { assert Catalog[k].id == "leech_vines"; }
    else if k == 6 { assert Catalog[k].id == "clairvoyance"; }
    else { assert false; }
  }

  /** So a timed augment picked with its counter empty is active for exactly the
      number of questions its entry advertises, and not for the one after. */
  lemma LastsAdvertised(r: Run, k: nat, j: nat)
    requires k < |Catalog| && Catalog[k].charges.Some?
    requires NonNegative(r.buffs.charges)
    ensures EffectOf(Catalog[k].id).Some? && SlotOf(EffectOf(Catalog[k].id).value).Some?
    ensures var s := SlotOf(EffectOf(Catalog[k].id).value).value;
      var c := ApplyAugment(r, Catalog[k].id).buffs.charges;
      && (j < Catalog[k].charges.value ==> FlagOf(Snapshot(ConsumeN(c, j), false), s))
      && ((CounterOf(r.buffs.charges, s) == 0 && j >= Catalog[k].charges.value)
        ==> !FlagOf(Snapshot(ConsumeN(c, j), false), s))
  {
    AdvertisedCharges(r, k);
    var s := SlotOf(EffectOf(Catalog[k].id).value).value;
    var c := ApplyAugment(r, Catalog[k].id).buffs.charges;
    assert CounterOf(r.buffs.charges, s) >= 0 by {
      match s
      case SafeSlot => case FlurrySlot => case ShieldSlot => case LeechSlot => case ForesightSlot =>
    }
    ConsumeNCounter(c, s, j);
    SnapshotFlag(ConsumeN(c, j), s);
  }

  lemma SnapshotFlag(c: Charges, s: Slot)
    ensures FlagOf(Snapshot(c, false), s) <==> CounterOf(c, s) > 0
  {
    match s
    case SafeSlot => case FlurrySlot => case ShieldSlot => case LeechSlot => case ForesightSlot =>
  }

  /** Eternal Flurry sets the Flurry counter to 999, whatever it held. */
  lemma EternalFlurrySets(r: Run)
    ensures ApplyAugment(r, "eternal_flurry").buffs.charges.flurry == 999
    ensures ApplyAugment(r, "eternal_flurry").hp == r.hp
  {
  }

  // ---- one-off effects -----------------------------------------------------

  /** Blood Pact costs 3 HP but never takes HP below zero, and doubles the multiplier. */
  lemma BloodPactCost(r: Run)
    requires Valid(r)
    ensures ApplyAugment(r, "blood_pact").hp == Max(0, r.hp - 3)
    ensures ApplyAugment(r, "blood_pact").multiplier == 2.0 * r.multiplier
  {
  }

  /** Hearty works once per run: +5 HP (capped by the oath) and ×0.8 the first
      time, nothing at all on a second pick. */
  lemma HeartyOnce(r: Run)
    ensures var once := ApplyAugment(r, "hearty");
      && ApplyAugment(once, "hearty") == once
      && once.buffs.heartyApplied
      && (!r.buffs.heartyApplied && !r.buffs.oath ==> once.hp == r.hp + 5 && once.multiplier == 0.8 * r.multiplier)
      && (r.buffs.heartyApplied ==> once == r)
  {
  }

  /** Last Life Lens leaves exactly 1 HP under a permanent oath, turns on the zoom
      curse and triples the multiplier; from then on no heal can raise HP above 1. */
  lemma LastLifeLensOath(r: Run, gain: int)
    ensures var lens := ApplyAugment(r, "last_life_lens");
      && lens.hp == 1 && lens.buffs.oath && lens.buffs.zoomCurse
      && lens.multiplier == 3.0 * r.multiplier
      && ClampHp(lens.hp + gain, lens.buffs.oath) <= 1
  {
  }

  /** Duel Flurry arms the duel for the next question only: that question's
      snapshot has the duel on, and the submission disarms it. */
  lemma DuelArmsOnce(r: Run)
    ensures ApplyAugment(r, "duel_flurry").buffs.duelPending
    ensures Snapshot(r.buffs.charges, ApplyAugment(r, "duel_flurry").buffs.duelPending).duel
  {
  }
}
