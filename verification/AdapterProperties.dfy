/** What the adapter guarantees about the snapshots it accepts. */
module AdapterProperties {
  import opened Common
  import opened RawData
  import opened JccTables
  import opened RawStore
  import opened Validation
  import opened Structured
  import opened TraitTables
  import opened TraitProperties
  import opened Adapter

  // ---- Heroes ----------------------------------------------------------------------------

  /** The hero record names this trait at this position of its field for the kind. */
  predicate LinkedBy(entry: (string, HeroRecord), r: Relation) {
    r.hero == entry.0
    && var ids := RelatedIds(entry.1, r.key.kind); ids.Some? && r.position < |ids.value| && ids.value[r.position] == r.key.id
  }

  predicate Linked(records: seq<(string, HeroRecord)>, r: Relation) {
    exists i :: 0 <= i < |records| && LinkedBy(records[i], r)
  }

  predicate KnownKey(bases: seq<BaseTrait>, key: TraitKey) { FindBase(bases, key).Some? }

  /** What one hero record contributes: its own relations, all known, none twice. */
  ghost predicate EntryOk(bases: seq<BaseTrait>, entry: (string, HeroRecord), h: HeroEntry) {
    && h.hero.externalId == entry.0
    && DistinctRelations(h.relations)
    && (forall r {:trigger LinkedBy(entry, r)} :: r in h.relations <==> LinkedBy(entry, r))
    && (forall r :: r in h.relations ==> KnownKey(bases, r.key))
  }

  lemma RelatedIdsAreDistinct(record: HeroRecord, kind: Kind)
    requires RelatedIds(record, kind).Some?
    ensures Distinct(RelatedIds(record, kind).value)
  {
    AcceptedIds(if kind == Job then record.classes else record.species, RELATION_SENTINELS);
  }

  lemma RelationsToMembers(hero: string, kind: Kind, ids: seq<string>, r: Relation)
    ensures r in RelationsTo(hero, kind, ids) <==>
              r.hero == hero && r.key.kind == kind && r.position < |ids| && ids[r.position] == r.key.id
  {
    if r.hero == hero && r.key.kind == kind && r.position < |ids| && ids[r.position] == r.key.id {
      assert RelationsTo(hero, kind, ids)[r.position] == r;
    }
  }

  lemma OneKind(bases: seq<BaseTrait>, hero: string, record: HeroRecord, kind: Kind)
    requires RelationsOf(hero, record, bases, kind).Some?
    ensures var rs := RelationsOf(hero, record, bases, kind).value;
            && DistinctRelations(rs)
            && (forall r {:trigger LinkedBy((hero, record), r)} ::
                  r in rs <==> r.key.kind == kind && LinkedBy((hero, record), r))
            && (forall r :: r in rs ==> KnownKey(bases, r.key))
  {
    RelatedIdsAreDistinct(record, kind);
    var ids := RelatedIds(record, kind).value;
    var rs := RelationsTo(hero, kind, ids);
    forall r ensures r in rs <==> r.key.kind == kind && LinkedBy((hero, record), r) {
      RelationsToMembers(hero, kind, ids, r);
    }
  }

  lemma ReadHeroOk(bases: seq<BaseTrait>, key: string, record: HeroRecord)
    requires ReadHero(key, record, bases).Some?
    ensures EntryOk(bases, (key, record), ReadHero(key, record, bases).value)
  {
    var h := ReadHero(key, record, bases).value;
    OneKind(bases, key, record, Job);
    OneKind(bases, key, record, Race);
    var classes, species := RelationsOf(key, record, bases, Job).value, RelationsOf(key, record, bases, Race).value;
    JoinKinds(bases, (key, record), classes, species);
    assert h.relations == classes + species;
  }

  lemma JoinKinds(bases: seq<BaseTrait>, entry: (string, HeroRecord), classes: seq<Relation>, species: seq<Relation>)
    requires DistinctRelations(classes) && DistinctRelations(species)
    requires forall r {:trigger LinkedBy(entry, r)} :: r in classes <==> r.key.kind == Job && LinkedBy(entry, r)
    requires forall r {:trigger LinkedBy(entry, r)} :: r in species <==> r.key.kind == Race && LinkedBy(entry, r)
    ensures DistinctRelations(classes + species)
    ensures forall r {:trigger LinkedBy(entry, r)} :: r in classes + species <==> LinkedBy(entry, r)
  {
    var all := classes + species;
    forall i, j | 0 <= i < j < |all| ensures all[i].hero != all[j].hero || all[i].key != all[j].key {
      if i < |classes| <= j {
        assert all[i] in classes && all[j] in species;
        assert LinkedBy(entry, all[i]) || true;
        assert LinkedBy(entry, all[j]) || true;
      }
    }
  }

  /** Heroes follow the records; the relations are exactly those the records name, all known, none twice. */
  ghost predicate HeroPartOk(bases: seq<BaseTrait>, records: seq<(string, HeroRecord)>, p: HeroPart) {
    && |p.heroes| == |records| && (forall i :: 0 <= i < |records| ==> p.heroes[i].externalId == records[i].0)
    && DistinctRelations(p.relations)
    && (forall r {:trigger Linked(records, r)} :: r in p.relations <==> Linked(records, r))
    && (forall r :: r in p.relations ==> KnownKey(bases, r.key))
  }

  lemma LinkedByInitOrLast(records: seq<(string, HeroRecord)>, r: Relation)
    requires records != []
    ensures Linked(records, r) <==> Linked(records[..|records| - 1], r) || LinkedBy(records[|records| - 1], r)
  {
    hide LinkedBy;
    var init := records[..|records| - 1];
    if Linked(init, r) {
      var i :| 0 <= i < |init| && LinkedBy(init[i], r);
      assert LinkedBy(records[i], r);
    }
    if Linked(records, r) {
      var i :| 0 <= i < |records| && LinkedBy(records[i], r);
      if i < |init| { assert LinkedBy(init[i], r); }
    }
  }

  lemma AddHero(bases: seq<BaseTrait>, records: seq<(string, HeroRecord)>, before: HeroPart, last: HeroEntry)
    requires records != [] && DistinctKeys(records)
    requires HeroPartOk(bases, records[..|records| - 1], before) && EntryOk(bases, records[|records| - 1], last)
    ensures HeroPartOk(bases, records, HeroPart(before.heroes + [last.hero], before.relations + last.relations))
  {
    var n := |records| - 1;
    var init := records[..n];
    var all := before.relations + last.relations;
    forall r ensures r in all <==> Linked(records, r) {
      LinkedByInitOrLast(records, r);
      assert r in before.relations <==> Linked(init, r);
      assert r in last.relations <==> LinkedBy(records[n], r);
    }
    forall i, j | 0 <= i < j < |all| ensures all[i].hero != all[j].hero || all[i].key != all[j].key {
      if i < |before.relations| <= j {
        assert all[i] in before.relations && all[j] in last.relations;
        HeroIsEarlier(init, all[i]);
        assert LinkedBy(records[n], all[j]);
      }
    }
  }

  lemma HeroIsEarlier(records: seq<(string, HeroRecord)>, r: Relation)
    requires Linked(records, r)
    ensures exists i :: 0 <= i < |records| && records[i].0 == r.hero
  {
    var i :| 0 <= i < |records| && LinkedBy(records[i], r);
  }

  lemma {:induction false} HeroesOk(bases: seq<BaseTrait>, records: seq<(string, HeroRecord)>)
    requires HeroesOf(records, bases).Some? && DistinctKeys(records)
    ensures HeroPartOk(bases, records, HeroesOf(records, bases).value)
  {
    if records != [] {
      var n := |records| - 1;
      HeroesOk(bases, records[..n]);
      ReadHeroOk(bases, records[n].0, records[n].1);
      AddHero(bases, records, HeroesOf(records[..n], bases).value, ReadHero(records[n].0, records[n].1, bases).value);
    } else {
      assert forall r :: !Linked(records, r);
    }
  }

  // ---- Equipment -------------------------------------------------------------------------

  lemma {:induction false} EquipmentFollowsRecords(records: seq<(string, EquipmentRecord)>)
    requires EquipmentOf(records).Some?
    ensures |EquipmentOf(records).value| == |records|
    ensures forall i :: 0 <= i < |records| ==> EquipmentOf(records).value[i].externalId == records[i].0
  {
    if records != [] { EquipmentFollowsRecords(records[..|records| - 1]); }
  }

  /** The record names exactly this recipe. */
  predicate Makes(entry: (string, EquipmentRecord), r: RecipeData) {
    r.equipment == entry.0 && ComponentsOf(entry.1) == [r.first, r.second]
  }

  predicate MadeBySome(records: seq<(string, EquipmentRecord)>, r: RecipeData) {
    exists i :: 0 <= i < |records| && Makes(records[i], r)
  }

  lemma MadeByInitOrLast(records: seq<(string, EquipmentRecord)>, r: RecipeData)
    requires records != []
    ensures MadeBySome(records, r) <==> MadeBySome(records[..|records| - 1], r) || Makes(records[|records| - 1], r)
  {
    var init := records[..|records| - 1];
    if MadeBySome(init, r) {
      var i :| 0 <= i < |init| && Makes(init[i], r);
      assert Makes(records[i], r);
    }
    if MadeBySome(records, r) {
      var i :| 0 <= i < |records| && Makes(records[i], r);
      if i < |init| { assert Makes(init[i], r); }
    }
  }

  /** One recipe per record that names components, in order, over known equipment, none twice. */
  lemma {:induction false} RecipesOk(records: seq<(string, EquipmentRecord)>, ids: set<string>)
    requires RecipesOf(records, ids).Some? && DistinctKeys(records)
    ensures var rs := RecipesOf(records, ids).value;
            && DistinctRecipes(rs)
            && (forall r {:trigger MadeBySome(records, r)} :: r in rs <==> MadeBySome(records, r))
            && (forall r :: r in rs ==> r.first in ids && r.second in ids && exists i :: 0 <= i < |records| && records[i].0 == r.equipment)
  {
    if records != [] {
      var n := |records| - 1;
      var init := records[..n];
      RecipesOk(init, ids);
      var before, last := RecipesOf(init, ids).value, RecipeOf(records[n].0, records[n].1, ids).value;
      forall r ensures r in before + last <==> MadeBySome(records, r) {
        MadeByInitOrLast(records, r);
        assert r in before <==> MadeBySome(init, r);
        LastRecipe(records[n], ids, r);
      }
      forall i, j | 0 <= i < j < |before + last| ensures (before + last)[i].equipment != (before + last)[j].equipment {
        if i < |before| <= j { assert (before + last)[i] in before; }
      }
      forall r: RecipeData | r in before + last
        ensures r.first in ids && r.second in ids && exists i :: 0 <= i < |records| && records[i].0 == r.equipment
      {
        if r in before {
          var i :| 0 <= i < |init| && init[i].0 == r.equipment;
          assert records[i].0 == r.equipment;
        } else {
          assert records[n].0 == r.equipment;
        }
      }
    } else {
      assert forall r :: !MadeBySome(records, r);
    }
  }

  lemma LastRecipe(entry: (string, EquipmentRecord), ids: set<string>, r: RecipeData)
    requires RecipeOf(entry.0, entry.1, ids).Some?
    ensures r in RecipeOf(entry.0, entry.1, ids).value <==> Makes(entry, r)
  {
    var cs := ComponentsOf(entry.1);
    if |cs| == 2 { assert cs == [cs[0], cs[1]]; }
  }

  // ---- Adapter closure -------------------------------------------------------------------

  lemma TraitOkHasDistinctLevels(t: TraitData)
    requires TraitOk(t)
    ensures DistinctLevels(t.tiers)
  {
  }

  /** The ids that the adventure records give themselves are pairwise distinct. */
  predicate DistinctAdventureIds(records: seq<(string, AdventureRecord)>) {
    forall i, j :: 0 <= i < j < |records| ==>
      RequiredString(records[i].1.adventureId) != RequiredString(records[j].1.adventureId)
  }

  lemma AugmentsAreDistinct(records: Dict<AugmentRecord>)
    requires Collected(AugmentReadings(records)).Some?
    ensures DistinctEntities(Collected(AugmentReadings(records)).value)
  {
    hide ReadAugment;
    CollectedAre(AugmentReadings(records));
    var es := Collected(AugmentReadings(records)).value;
    assert forall i :: 0 <= i < |es| ==> Some(es[i]) == ReadAugment(records[i].0, records[i].1);
  }

  lemma GalaxiesAreDistinct(records: Dict<GalaxyRecord>)
    requires Collected(GalaxyReadings(records)).Some?
    ensures DistinctEntities(Collected(GalaxyReadings(records)).value)
  {
    hide ReadGalaxy;
    CollectedAre(GalaxyReadings(records));
    var es := Collected(GalaxyReadings(records)).value;
    assert forall i :: 0 <= i < |es| ==> Some(es[i]) == ReadGalaxy(records[i].0, records[i].1);
  }

  lemma AdventuresDistinctIff(records: seq<(string, AdventureRecord)>)
    requires Collected(AdventureReadings(records)).Some?
    ensures DistinctEntities(Collected(AdventureReadings(records)).value) <==> DistinctAdventureIds(records)
  {
    hide ReadAdventure, RequiredString;
    CollectedAre(AdventureReadings(records));
    var es := Collected(AdventureReadings(records)).value;
    assert forall i :: 0 <= i < |es| ==> Some(es[i]) == ReadAdventure(records[i].1);
    assert forall i :: 0 <= i < |es| ==> RequiredString(records[i].1.adventureId) == Some(es[i].externalId);
  }

  /** What the adapter always guarantees: everything an import needs but column sizes and distinct adventure ids. */
  predicate ImportableButAdventures(s: StructuredSnapshot) {
    && DistinctHeroes(s.heroes) && DistinctTraits(s.traits)
    && (forall i :: 0 <= i < |s.traits| ==> DistinctLevels(s.traits[i].tiers))
    && (forall r :: r in s.relations ==> HasHero(s, r.hero) && HasTrait(s, r.key))
    && DistinctRelations(s.relations)
    && DistinctEquipment(s.equipment)
    && (forall r :: r in s.recipes ==> HasEquipment(s, r.equipment) && HasEquipment(s, r.first) && HasEquipment(s, r.second))
    && DistinctRecipes(s.recipes)
    && DistinctEntities(s.augments) && DistinctEntities(s.galaxies)
  }

  lemma TraitsAndHeroesFit(raw: RawSnapshot)
    requires StructuredOf(raw).Some?
    ensures var s := StructuredOf(raw).value;
            && DistinctHeroes(s.heroes) && DistinctTraits(s.traits)
            && (forall i :: 0 <= i < |s.traits| ==> DistinctLevels(s.traits[i].tiers))
            && (forall r :: r in s.relations ==> HasHero(s, r.hero) && HasTrait(s, r.key))
            && DistinctRelations(s.relations)
  {
    hide Bases, TraitOk, Collected, EquipmentPartOf;
    var p, s := raw.payloads, StructuredOf(raw).value;
    var bases := Bases(p.race.data, p.job.data).value;
    AcceptedTraits(p.race.data, p.job.data, p.tiers.data);
    HeroesOk(bases, p.chess.data);
    forall i | 0 <= i < |s.traits| ensures DistinctLevels(s.traits[i].tiers) { TraitOkHasDistinctLevels(s.traits[i]); }
    forall r | r in s.relations ensures HasHero(s, r.hero) && HasTrait(s, r.key) {
      assert Linked(p.chess.data, r);
      HeroIsEarlier(p.chess.data, r);
      var i :| 0 <= i < |p.chess.data| && p.chess.data[i].0 == r.hero;
      assert s.heroes[i].externalId == r.hero;
      assert KnownKey(bases, r.key);
      var k :| 0 <= k < |bases| && bases[k] == FindBase(bases, r.key).value;
      assert s.traits[k].base.key == r.key;
    }
  }

  /**
   A snapshot the adapter accepts has every import lookup defined and every uniqueness constraint
   met, except that it can be imported exactly when the adventure records' own ids are distinct and
   every value is within the size of its column.
   */
  lemma AcceptedIsImportableIff(raw: RawSnapshot)
    requires StructuredOf(raw).Some?
    ensures ImportableButAdventures(StructuredOf(raw).value)
    ensures Importable(StructuredOf(raw).value)
            <==> DistinctAdventureIds(raw.payloads.adventure.data) && Storable(StructuredOf(raw).value)
  {
    hide TraitsOf, HeroesOf, EquipmentPartOf, Collected, DistinctAdventureIds, DistinctEntities, DistinctHeroes,
         Storable, DistinctTraits, DistinctLevels, HasHero, HasTrait, HasEquipment, DistinctRelations, DistinctEquipment, DistinctRecipes;
    TraitsAndHeroesFit(raw);
    GearIsImportable(StructuredOf(raw).value, raw.payloads.equip.data);
    AugmentsAreDistinct(raw.payloads.hex.data);
    GalaxiesAreDistinct(raw.payloads.galaxy.data);
    AdventuresDistinctIff(raw.payloads.adventure.data);
  }

  lemma GearIsImportable(s: StructuredSnapshot, records: Dict<EquipmentRecord>)
    requires EquipmentPartOf(records) == Some(EquipmentPart(s.equipment, s.recipes))
    ensures DistinctEquipment(s.equipment) && DistinctRecipes(s.recipes)
    ensures forall r :: r in s.recipes ==> HasEquipment(s, r.equipment) && HasEquipment(s, r.first) && HasEquipment(s, r.second)
  {
    EquipmentFollowsRecords(records);
    var ids := EquipmentIds(s.equipment);
    RecipesOk(records, ids);
    forall r | r in s.recipes ensures HasEquipment(s, r.equipment) && HasEquipment(s, r.first) && HasEquipment(s, r.second) {
      var i :| 0 <= i < |records| && records[i].0 == r.equipment;
      assert s.equipment[i].externalId == r.equipment;
    }
  }
}
