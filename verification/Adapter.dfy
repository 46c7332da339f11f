/** Heroes, their relations, equipment and recipes; and the whole structured snapshot. */
module Adapter {
  import opened Common
  import opened RawData
  import opened JccTables
  import opened RawStore
  import opened Validation
  import opened Structured
  import opened TraitTables
  import opened TraitProperties

  // ---- Heroes ----------------------------------------------------------------------------

  /** The ids a hero record gives for one kind of relation. */
  function RelatedIds(record: HeroRecord, kind: Kind): Option<seq<string>> {
    SplitIds(if kind == Job then record.classes else record.species, RELATION_SENTINELS)
  }

  predicate AllKnown(bases: seq<BaseTrait>, kind: Kind, ids: seq<string>) {
    forall p :: 0 <= p < |ids| ==> FindBase(bases, TraitKey(kind, ids[p])).Some?
  }

  function RelationsTo(hero: string, kind: Kind, ids: seq<string>): (rs: seq<Relation>)
    ensures |rs| == |ids|
  {
    seq(|ids|, p requires 0 <= p < |ids| => Relation(hero, TraitKey(kind, ids[p]), p))
  }

  function RelationsOf(hero: string, record: HeroRecord, bases: seq<BaseTrait>, kind: Kind): Option<seq<Relation>> {
    var ids := RelatedIds(record, kind);
    if ids.None? || !AllKnown(bases, kind, ids.value) then None else Some(RelationsTo(hero, kind, ids.value))
  }

  /** The numeric fields that are present are numbers. */
  predicate NumbersOk(record: HeroRecord) {
    DecimalOk(record.attackSpeed)
    && forall i :: 0 <= i < |record.numbers| ==> OptionalInt(record.numbers[i]).Some?
  }

  /** The integers among optional fields, in order. */
  function Present(fields: seq<Scalar>): seq<int> {
    if fields == [] then []
    else
      var last := OptionalInt(fields[|fields| - 1]);
      Present(fields[..|fields| - 1]) + (if last.Some? && last.value.Some? then [last.value.value] else [])
  }

  datatype HeroEntry = HeroEntry(hero: HeroData, relations: seq<Relation>)

  function ReadHero(key: string, record: HeroRecord, bases: seq<BaseTrait>): (h: Option<HeroEntry>)
    ensures h.Some? ==> h.value.hero.externalId == key
  {
    var id := KeyMatchingId(key, record.id);
    var name := RequiredString(record.name);
    if id.None? || name.None? || !NumbersOk(record) then None
    else
      var classes, species := RelationsOf(id.value, record, bases, Job), RelationsOf(id.value, record, bases, Race);
      if classes.None? || species.None? then None
      else Some(HeroEntry(HeroData(id.value, name.value, Present(record.numbers)), classes.value + species.value))
  }

  datatype HeroPart = HeroPart(heroes: seq<HeroData>, relations: seq<Relation>)

  function HeroesOf(records: seq<(string, HeroRecord)>, bases: seq<BaseTrait>): Option<HeroPart> {
    if records == [] then Some(HeroPart([], []))
    else
      var n := |records| - 1;
      var before := HeroesOf(records[..n], bases);
      var last := ReadHero(records[n].0, records[n].1, bases);
      if before.None? || last.None? then None
      else Some(HeroPart(before.value.heroes + [last.value.hero], before.value.relations + last.value.relations))
  }

  /** The inner loop of `_build_heroes` for one kind of relation. */
  method CollectRelations(hero: string, record: HeroRecord, bases: seq<BaseTrait>, kind: Kind)
    returns (r: Option<seq<Relation>>)
    ensures r == RelationsOf(hero, record, bases, kind)
  {
    var ids := CollectIds(if kind == Job then record.classes else record.species, RELATION_SENTINELS);
    if ids.None? {
      return None;
    }
    r := LinkAll(hero, kind, ids.value, bases);
  }

  method LinkAll(hero: string, kind: Kind, ids: seq<string>, bases: seq<BaseTrait>) returns (r: Option<seq<Relation>>)
    ensures r == if AllKnown(bases, kind, ids) then Some(RelationsTo(hero, kind, ids)) else None
  {
    var relations: seq<Relation> := [];
    for p := 0 to |ids|
      invariant relations == RelationsTo(hero, kind, ids[..p])
      invariant forall q :: 0 <= q < p ==> FindBase(bases, TraitKey(kind, ids[q])).Some?
    {
      if FindBase(bases, TraitKey(kind, ids[p])).None? {
        return None;
      }
      relations := relations + [Relation(hero, TraitKey(kind, ids[p]), p)];
    }
    assert ids[..|ids|] == ids;
    r := Some(relations);
  }

  method CollectHero(key: string, record: HeroRecord, bases: seq<BaseTrait>) returns (r: Option<HeroEntry>)
    ensures r == ReadHero(key, record, bases)
  {
    var id := KeyMatchingId(key, record.id);
    var name := RequiredString(record.name);
    if id.None? || name.None? || !NumbersOk(record) {
      return None;
    }
    var classes := CollectRelations(id.value, record, bases, Job);
    if classes.None? {
      return None;
    }
    var species := CollectRelations(id.value, record, bases, Race);
    if species.None? {
      return None;
    }
    r := Some(HeroEntry(HeroData(id.value, name.value, Present(record.numbers)), classes.value + species.value));
  }

  /** `_build_heroes`. */
  method BuildHeroes(records: Dict<HeroRecord>, bases: seq<BaseTrait>) returns (r: Option<HeroPart>)
    ensures r == HeroesOf(records, bases)
  {
    var part := HeroPart([], []);
    for i := 0 to |records|
      invariant HeroesOf(records[..i], bases) == Some(part)
    {
      assert records[..i + 1][..i] == records[..i];
      var h := CollectHero(records[i].0, records[i].1, bases);
      if h.None? {
        BadHeroRejects(records, bases, i);
        return None;
      }
      part := HeroPart(part.heroes + [h.value.hero], part.relations + h.value.relations);
    }
    assert records[..|records|] == records;
    r := Some(part);
  }

  lemma {:induction false} BadHeroRejects(records: seq<(string, HeroRecord)>, bases: seq<BaseTrait>, i: nat)
    requires i < |records| && ReadHero(records[i].0, records[i].1, bases).None?
    ensures HeroesOf(records, bases).None?
  {
    if i < |records| - 1 { BadHeroRejects(records[..|records| - 1], bases, i); }
  }

  // ---- Equipment -------------------------------------------------------------------------

  function ReadEquipment(key: string, record: EquipmentRecord): (e: Option<EquipmentData>)
    ensures e.Some? ==> e.value.externalId == key
  {
    var id := KeyMatchingId(key, record.id);
    var name := RequiredString(record.name);
    if id.None? || name.None? then None else Some(EquipmentData(id.value, name.value))
  }

  function EquipmentOf(records: seq<(string, EquipmentRecord)>): Option<seq<EquipmentData>> {
    if records == [] then Some([])
    else
      var n := |records| - 1;
      var before := EquipmentOf(records[..n]);
      var last := ReadEquipment(records[n].0, records[n].1);
      if before.None? || last.None? then None else Some(before.value + [last.value])
  }

  function Component(value: Scalar): seq<string> {
    var c := OptionalString(value);
    if c.None? || c.value == "0" then [] else [c.value]
  }

  /** The components a recipe names: none, or both. */
  function ComponentsOf(record: EquipmentRecord): seq<string> { Component(record.synthesis1) + Component(record.synthesis2) }

  /** None rejects the record; an empty list is equipment without a recipe. */
  function RecipeOf(key: string, record: EquipmentRecord, ids: set<string>): Option<seq<RecipeData>> {
    var cs := ComponentsOf(record);
    if cs == [] then Some([])
    else if |cs| != 2 || cs[0] !in ids || cs[1] !in ids then None
    else Some([RecipeData(key, cs[0], cs[1])])
  }

  function RecipesOf(records: seq<(string, EquipmentRecord)>, ids: set<string>): Option<seq<RecipeData>> {
    if records == [] then Some([])
    else
      var n := |records| - 1;
      var before := RecipesOf(records[..n], ids);
      var last := RecipeOf(records[n].0, records[n].1, ids);
      if before.None? || last.None? then None else Some(before.value + last.value)
  }

  function EquipmentIds(equipment: seq<EquipmentData>): set<string> {
    set i | 0 <= i < |equipment| :: equipment[i].externalId
  }

  datatype EquipmentPart = EquipmentPart(equipment: seq<EquipmentData>, recipes: seq<RecipeData>)

  function EquipmentPartOf(records: seq<(string, EquipmentRecord)>): Option<EquipmentPart> {
    var equipment := EquipmentOf(records);
    if equipment.None? then None
    else
      var recipes := RecipesOf(records, EquipmentIds(equipment.value));
      if recipes.None? then None else Some(EquipmentPart(equipment.value, recipes.value))
  }

  method CollectEquipment(records: Dict<EquipmentRecord>) returns (r: Option<seq<EquipmentData>>)
    ensures r == EquipmentOf(records)
  {
    var result: seq<EquipmentData> := [];
    for i := 0 to |records|
      invariant EquipmentOf(records[..i]) == Some(result)
    {
      assert records[..i + 1][..i] == records[..i];
      var e := ReadEquipment(records[i].0, records[i].1);
      if e.None? {
        BadEquipmentRejects(records, i);
        return None;
      }
      result := result + [e.value];
    }
    assert records[..|records|] == records;
    r := Some(result);
  }

  lemma {:induction false} BadEquipmentRejects(records: seq<(string, EquipmentRecord)>, i: nat)
    requires i < |records| && ReadEquipment(records[i].0, records[i].1).None?
    ensures EquipmentOf(records).None?
  {
    if i < |records| - 1 { BadEquipmentRejects(records[..|records| - 1], i); }
  }

  method CollectRecipes(records: Dict<EquipmentRecord>, ids: set<string>) returns (r: Option<seq<RecipeData>>)
    ensures r == RecipesOf(records, ids)
  {
    var recipes: seq<RecipeData> := [];
    for i := 0 to |records|
      invariant RecipesOf(records[..i], ids) == Some(recipes)
    {
      assert records[..i + 1][..i] == records[..i];
      var recipe := RecipeOf(records[i].0, records[i].1, ids);
      if recipe.None? {
        BadRecipeRejects(records, ids, i);
        return None;
      }
      recipes := recipes + recipe.value;
    }
    assert records[..|records|] == records;
    r := Some(recipes);
  }

  lemma {:induction false} BadRecipeRejects(records: seq<(string, EquipmentRecord)>, ids: set<string>, i: nat)
    requires i < |records| && RecipeOf(records[i].0, records[i].1, ids).None?
    ensures RecipesOf(records, ids).None?
  {
    if i < |records| - 1 { BadRecipeRejects(records[..|records| - 1], ids, i); }
  }

  /** `_build_equipment`. */
  method BuildEquipment(records: Dict<EquipmentRecord>) returns (r: Option<EquipmentPart>)
    ensures r == EquipmentPartOf(records)
  {
    var equipment := CollectEquipment(records);
    if equipment.None? {
      return None;
    }
    var recipes := CollectRecipes(records, EquipmentIds(equipment.value));
    r := if recipes.None? then None else Some(EquipmentPart(equipment.value, recipes.value));
  }

  // ---- Augments, adventures and galaxies -------------------------------------------------

  function ReadAugment(key: string, record: AugmentRecord): (e: Option<EntityData>)
    ensures e.Some? ==> e.value.externalId == key
  {
    var id := KeyMatchingId(key, record.id);
    var name := RequiredString(record.name);
    var level := OptionalInt(record.level);
    if id.None? || name.None? || level.None? then None else Some(EntityData(id.value, name.value, level.value))
  }

  /** An adventure takes its id from its own field, whatever its object key is. */
  function ReadAdventure(record: AdventureRecord): (e: Option<EntityData>)
    ensures e.Some? ==> RequiredString(record.adventureId) == Some(e.value.externalId)
  {
    var id := EntityId(record.adventureId);
    var title := RequiredString(record.title);
    var price := OptionalInt(record.price);
    if id.None? || title.None? || price.None? then None else Some(EntityData(id.value, title.value, price.value))
  }

  function ReadGalaxy(key: string, record: GalaxyRecord): (e: Option<EntityData>)
    ensures e.Some? ==> e.value.externalId == key
  {
    var id := KeyMatchingId(key, record.id);
    var name := RequiredString(record.name);
    if id.None? || name.None? then None else Some(EntityData(id.value, name.value, None))
  }

  /** All readings, when every record could be read. */
  function Collected(readings: seq<Option<EntityData>>): Option<seq<EntityData>> {
    if readings == [] then Some([])
    else
      var n := |readings| - 1;
      var before := Collected(readings[..n]);
      if before.None? || readings[n].None? then None else Some(before.value + [readings[n].value])
  }

  lemma {:induction false} CollectedAre(readings: seq<Option<EntityData>>)
    ensures Collected(readings).Some? <==> forall i :: 0 <= i < |readings| ==> readings[i].Some?
    ensures Collected(readings).Some? ==>
              |Collected(readings).value| == |readings|
              && forall i :: 0 <= i < |readings| ==> Some(Collected(readings).value[i]) == readings[i]
  {
    if readings != [] {
      var n := |readings| - 1;
      CollectedAre(readings[..n]);
      assert forall i :: 0 <= i < n ==> readings[..n][i] == readings[i];
    }
  }

  lemma MissingRejects(readings: seq<Option<EntityData>>, i: nat)
    requires i < |readings| && readings[i].None?
    ensures Collected(readings).None?
  {
    CollectedAre(readings);
  }

  function AugmentReadings(records: seq<(string, AugmentRecord)>): (r: seq<Option<EntityData>>)
    ensures |r| == |records|
  {
    seq(|records|, i requires 0 <= i < |records| => ReadAugment(records[i].0, records[i].1))
  }

  function AdventureReadings(records: seq<(string, AdventureRecord)>): (r: seq<Option<EntityData>>)
    ensures |r| == |records|
  {
    seq(|records|, i requires 0 <= i < |records| => ReadAdventure(records[i].1))
  }

  function GalaxyReadings(records: seq<(string, GalaxyRecord)>): (r: seq<Option<EntityData>>)
    ensures |r| == |records|
  {
    seq(|records|, i requires 0 <= i < |records| => ReadGalaxy(records[i].0, records[i].1))
  }

  /** `_build_augments`. */
  method BuildAugments(records: Dict<AugmentRecord>) returns (r: Option<seq<EntityData>>)
    ensures r == Collected(AugmentReadings(records))
  {
    hide ReadAugment;
    ghost var readings := AugmentReadings(records);
    var result: seq<EntityData> := [];
    for i := 0 to |records|
      invariant Collected(readings[..i]) == Some(result)
    {
      assert readings[..i + 1][..i] == readings[..i];
      var e := ReadAugment(records[i].0, records[i].1);
      if e.None? {
        MissingRejects(readings, i);
        return None;
      }
      result := result + [e.value];
    }
    assert readings[..|records|] == readings;
    r := Some(result);
  }

  /** `_build_adventures`. */
  method BuildAdventures(records: Dict<AdventureRecord>) returns (r: Option<seq<EntityData>>)
    ensures r == Collected(AdventureReadings(records))
  {
    hide ReadAdventure;
    ghost var readings := AdventureReadings(records);
    var result: seq<EntityData> := [];
    for i := 0 to |records|
      invariant Collected(readings[..i]) == Some(result)
    {
      assert readings[..i + 1][..i] == readings[..i];
      var e := ReadAdventure(records[i].1);
      if e.None? {
        MissingRejects(readings, i);
        return None;
      }
      result := result + [e.value];
    }
    assert readings[..|records|] == readings;
    r := Some(result);
  }

  /** `_build_galaxies`. */
  method BuildGalaxies(records: Dict<GalaxyRecord>) returns (r: Option<seq<EntityData>>)
    ensures r == Collected(GalaxyReadings(records))
  {
    hide ReadGalaxy;
    ghost var readings := GalaxyReadings(records);
    var result: seq<EntityData> := [];
    for i := 0 to |records|
      invariant Collected(readings[..i]) == Some(result)
    {
      assert readings[..i + 1][..i] == readings[..i];
      var e := ReadGalaxy(records[i].0, records[i].1);
      if e.None? {
        MissingRejects(readings, i);
        return None;
      }
      result := result + [e.value];
    }
    assert readings[..|records|] == readings;
    r := Some(result);
  }

  // ---- The whole snapshot ----------------------------------------------------------------

  function MetadataOf(raw: RawSnapshot): SnapshotRow {
    SnapshotRow(raw.spec.mode, raw.spec.season, raw.spec.version, raw.revision, raw.name, raw.contentHash)
  }

  function StructuredOf(raw: RawSnapshot): Option<StructuredSnapshot> {
    var p := raw.payloads;
    var traits := TraitsOf(p.race.data, p.job.data, p.tiers.data);
    if traits.None? then None
    else
      var heroes := HeroesOf(p.chess.data, Bases(p.race.data, p.job.data).value);
      var gear := EquipmentPartOf(p.equip.data);
      var augments := Collected(AugmentReadings(p.hex.data));
      var adventures := Collected(AdventureReadings(p.adventure.data));
      var galaxies := Collected(GalaxyReadings(p.galaxy.data));
      if heroes.None? || gear.None? || augments.None? || adventures.None? || galaxies.None? then None
      else Some(StructuredSnapshot(MetadataOf(raw), heroes.value.heroes, traits.value, heroes.value.relations,
                                   gear.value.equipment, gear.value.recipes,
                                   augments.value, adventures.value, galaxies.value))
  }

  /** `build_structured_snapshot`. */
  method BuildStructured(raw: RawSnapshot) returns (r: Option<StructuredSnapshot>)
    ensures r == StructuredOf(raw)
  {
    hide TraitsOf, HeroesOf, EquipmentPartOf, Collected;
    var p := raw.payloads;
    var traits := BuildTraits(p.race.data, p.job.data, p.tiers.data);
    if traits.None? {
      return None;
    }
    var heroes := BuildHeroes(p.chess.data, traits.value.1);
    if heroes.None? {
      return None;
    }
    var gear := BuildEquipment(p.equip.data);
    if gear.None? {
      return None;
    }
    var augments := BuildAugments(p.hex.data);
    if augments.None? {
      return None;
    }
    var adventures := BuildAdventures(p.adventure.data);
    if adventures.None? {
      return None;
    }
    var galaxies := BuildGalaxies(p.galaxy.data);
    if galaxies.None? {
      return None;
    }
    r := Some(StructuredSnapshot(MetadataOf(raw), heroes.value.heroes, traits.value.0, heroes.value.relations,
                                 gear.value.equipment, gear.value.recipes,
                                 augments.value, adventures.value, galaxies.value));
  }
}
