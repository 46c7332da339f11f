/** The database-neutral snapshot that the adapter builds and the store imports. */
module Structured {
  import opened Common
  import opened JccTables

  datatype TraitKey = TraitKey(kind: Kind, id: string)

  datatype Tier = Tier(
    externalId: string, tierOrder: int, activationCount: int, level: int,
    description: Option<string>, realDescription: Option<string>)

  datatype BaseTrait = BaseTrait(
    key: TraitKey, name: string, maxLevel: Option<int>, activation: seq<int>, mapId: Option<int>)

  datatype TraitData = TraitData(base: BaseTrait, tiers: seq<Tier>)

  /** `numbers` are the integer statistics that are present. */
  datatype HeroData = HeroData(externalId: string, name: string, numbers: seq<int>)

  datatype Relation = Relation(hero: string, key: TraitKey, position: nat)

  datatype EquipmentData = EquipmentData(externalId: string, name: string)

  datatype RecipeData = RecipeData(equipment: string, first: string, second: string)

  /** An augment, adventure or galaxy; an augment's level or an adventure's price is its number. */
  datatype EntityData = EntityData(externalId: string, name: string, number: Option<int>)

  datatype StructuredSnapshot = StructuredSnapshot(
    metadata: SnapshotRow, heroes: seq<HeroData>, traits: seq<TraitData>, relations: seq<Relation>,
    equipment: seq<EquipmentData>, recipes: seq<RecipeData>,
    augments: seq<EntityData>, adventures: seq<EntityData>, galaxies: seq<EntityData>)

  // ---- What an import needs --------------------------------------------------------------

  predicate HasHero(s: StructuredSnapshot, id: string) { exists i :: 0 <= i < |s.heroes| && s.heroes[i].externalId == id }

  predicate HasTrait(s: StructuredSnapshot, key: TraitKey) { exists i :: 0 <= i < |s.traits| && s.traits[i].base.key == key }

  predicate HasEquipment(s: StructuredSnapshot, id: string) {
    exists i :: 0 <= i < |s.equipment| && s.equipment[i].externalId == id
  }

  predicate DistinctHeroes(heroes: seq<HeroData>) {
    forall i, j :: 0 <= i < j < |heroes| ==> heroes[i].externalId != heroes[j].externalId
  }

  predicate DistinctTraits(traits: seq<TraitData>) {
    forall i, j :: 0 <= i < j < |traits| ==> traits[i].base.key != traits[j].base.key
  }

  predicate DistinctLevels(tiers: seq<Tier>) {
    forall i, j :: 0 <= i < j < |tiers| ==> tiers[i].level != tiers[j].level && tiers[i].tierOrder != tiers[j].tierOrder
  }

  predicate DistinctRelations(relations: seq<Relation>) {
    forall i, j :: 0 <= i < j < |relations| ==>
      relations[i].hero != relations[j].hero || relations[i].key != relations[j].key
  }

  predicate DistinctEquipment(equipment: seq<EquipmentData>) {
    forall i, j :: 0 <= i < j < |equipment| ==> equipment[i].externalId != equipment[j].externalId
  }

  predicate DistinctRecipes(recipes: seq<RecipeData>) {
    forall i, j :: 0 <= i < j < |recipes| ==> recipes[i].equipment != recipes[j].equipment
  }

  predicate DistinctEntities(entities: seq<EntityData>) {
    forall i, j :: 0 <= i < j < |entities| ==> entities[i].externalId != entities[j].externalId
  }

  // ---- Column sizes ----------------------------------------------------------------------

  predicate FitsInteger(n: int) { -0x8000_0000 <= n < 0x8000_0000 }

  predicate FitsOptional(n: Option<int>) { n.None? || FitsInteger(n.value) }

  /** An external id and a name. */
  predicate NamesFit(id: string, name: string) { |id| <= 64 && |name| <= 255 }

  predicate MetadataFits(m: SnapshotRow) {
    |m.mode| <= 32 && |m.season| <= 32 && |m.version| <= 64 && |m.rawDirectoryName| <= 160 && FitsInteger(m.revision)
  }

  predicate HeroFits(h: HeroData) { NamesFit(h.externalId, h.name) && forall n :: n in h.numbers ==> FitsInteger(n) }

  predicate TierFits(t: Tier) {
    |t.externalId| <= 64 && FitsInteger(t.tierOrder) && FitsInteger(t.activationCount) && FitsInteger(t.level)
  }

  predicate TraitFits(t: TraitData) {
    && NamesFit(t.base.key.id, t.base.name) && FitsOptional(t.base.maxLevel) && FitsOptional(t.base.mapId)
    && forall i :: 0 <= i < |t.tiers| ==> TierFits(t.tiers[i])
  }

  predicate EntitiesFit(entities: seq<EntityData>) {
    forall i :: 0 <= i < |entities| ==> NamesFit(entities[i].externalId, entities[i].name) && FitsOptional(entities[i].number)
  }

  /** Every value is within the size of its column. */
  predicate Storable(s: StructuredSnapshot) {
    && MetadataFits(s.metadata)
    && (forall i :: 0 <= i < |s.heroes| ==> HeroFits(s.heroes[i]))
    && (forall i :: 0 <= i < |s.traits| ==> TraitFits(s.traits[i]))
    && (forall i :: 0 <= i < |s.relations| ==> FitsInteger(s.relations[i].position))
    && (forall i :: 0 <= i < |s.equipment| ==> NamesFit(s.equipment[i].externalId, s.equipment[i].name))
    && EntitiesFit(s.augments) && EntitiesFit(s.adventures) && EntitiesFit(s.galaxies)
  }

  /** Every value fits, every lookup of the import is defined and no uniqueness constraint is violated. */
  predicate Importable(s: StructuredSnapshot) {
    && Storable(s)
    && DistinctHeroes(s.heroes) && DistinctTraits(s.traits)
    && (forall i :: 0 <= i < |s.traits| ==> DistinctLevels(s.traits[i].tiers))
    && (forall r :: r in s.relations ==> HasHero(s, r.hero) && HasTrait(s, r.key))
    && DistinctRelations(s.relations)
    && DistinctEquipment(s.equipment)
    && (forall r :: r in s.recipes ==> HasEquipment(s, r.equipment) && HasEquipment(s, r.first) && HasEquipment(s, r.second))
    && DistinctRecipes(s.recipes)
    && DistinctEntities(s.augments) && DistinctEntities(s.adventures) && DistinctEntities(s.galaxies)
  }
}
