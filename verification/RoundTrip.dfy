/** From source records through the adapter, the import and the loaders, and back to the records. */
module RoundTrip {
  import opened Common
  import opened RawData
  import opened JccTables
  import opened RawStore
  import opened Validation
  import opened Structured
  import opened Rows
  import opened JccStore
  import opened JccDatabase
  import opened Publication
  import opened Loaders
  import opened TierLoader
  import opened GearLoader
  import TraitTables
  import TraitProperties
  import opened Adapter
  import opened AdapterProperties
  import opened RecordMeaning
  import opened StoredRows

  // ---- Heroes ----------------------------------------------------------------------------

  lemma {:induction false} EveryHeroIsRead(records: seq<(string, HeroRecord)>, bases: seq<BaseTrait>, i: nat)
    requires HeroesOf(records, bases).Some? && i < |records|
    ensures ReadHero(records[i].0, records[i].1, bases).Some?
  {
    if i < |records| - 1 { EveryHeroIsRead(records[..|records| - 1], bases, i); }
  }

  lemma ReadHeroHasIds(key: string, record: HeroRecord, bases: seq<BaseTrait>, kind: Kind)
    requires ReadHero(key, record, bases).Some?
    ensures RelatedIds(record, kind).Some?
  {
    var classes, species := RelationsOf(key, record, bases, Job), RelationsOf(key, record, bases, Race);
    assert classes.Some? && species.Some?;
  }

  lemma LinkedOnlyByOwnRecord(records: seq<(string, HeroRecord)>, i: nat, r: Relation)
    requires DistinctKeys(records) && i < |records| && r.hero == records[i].0
    ensures Linked(records, r) <==> LinkedBy(records[i], r)
  {
    if Linked(records, r) {
      var k :| 0 <= k < |records| && LinkedBy(records[k], r);
      assert records[k].0 == records[i].0;
    }
  }

  lemma AdaptedLinks(s: StructuredSnapshot, records: Dict<HeroRecord>, bases: seq<BaseTrait>, i: nat, kind: Kind)
    requires HeroesOf(records, bases) == Some(HeroPart(s.heroes, s.relations)) && i < |records|
    ensures |s.heroes| == |records| && s.heroes[i].externalId == records[i].0
    ensures RelatedIds(records[i].1, kind).Some?
    ensures LinksAre(s, records[i].0, kind, RelatedIds(records[i].1, kind).value)
  {
    HeroesOk(bases, records);
    EveryHeroIsRead(records, bases, i);
    ReadHeroHasIds(records[i].0, records[i].1, bases, kind);
    var names := RelatedIds(records[i].1, kind).value;
    forall r ensures r in s.relations && r.hero == records[i].0 && r.key.kind == kind
                     <==> r.hero == records[i].0 && r.key.kind == kind && r.position < |names| && r.key.id == names[r.position]
    {
      assert r in s.relations <==> Linked(records, r);
      if r.hero == records[i].0 { LinkedOnlyByOwnRecord(records, i, r); }
    }
  }

  predicate TraitsExist(t: Tables, rows: seq<HeroTraitRow>) { forall k :: 0 <= k < |rows| ==> rows[k].traitId < |t.traits| }

  /** The trait ids in the expected rows are the names again. */
  lemma ExpectedNames(t: Tables, sid: nat, at: Offsets, s: StructuredSnapshot, hero: string, kind: Kind, names: seq<string>)
    requires RelationsStored(t, sid, at, s) && LinksAre(s, hero, kind, names)
    ensures TraitsExist(t, ExpectedRows(sid, at, s, hero, kind, names))
    ensures ExternalIds(t, ExpectedRows(sid, at, s, hero, kind, names)) == names
  {
    var rows := ExpectedRows(sid, at, s, hero, kind, names);
    forall p | 0 <= p < |names| ensures rows[p].traitId < |t.traits| && t.traits[rows[p].traitId].externalId == names[p] {
      var r := Relation(hero, TraitKey(kind, names[p]), p);
      assert r in s.relations && r.hero == hero && r.key.kind == kind;
      var k :| 0 <= k < |s.relations| && s.relations[k] == r;
      RelationRowIsWanted(t, sid, at, s, [], r);
    }
  }

  /** The parts of an adapted snapshot come from the parts of its payloads. */
  lemma AdaptedParts(raw: RawSnapshot, s: StructuredSnapshot)
    requires StructuredOf(raw) == Some(s)
    ensures TraitTables.Bases(raw.payloads.race.data, raw.payloads.job.data).Some?
    ensures HeroesOf(raw.payloads.chess.data, TraitTables.Bases(raw.payloads.race.data, raw.payloads.job.data).value)
            == Some(HeroPart(s.heroes, s.relations))
    ensures EquipmentPartOf(raw.payloads.equip.data) == Some(EquipmentPart(s.equipment, s.recipes))
  {
  }

  /** The loaded relations of a hero are the ids of its record's field for the kind, in order. */
  predicate LoadsIdsOf(t: Tables, rows: seq<HeroTraitRow>, hero: nat, kind: Kind, record: HeroRecord) {
    var found := RelatedTo(rows, hero, kind);
    TraitsExist(t, found) && Some(ExternalIds(t, found)) == RelatedIds(record, kind)
  }

  /** Stored relations load as the ids of the source fields. */
  lemma LoadedLinks(t: Tables, sid: nat, at: Offsets, s: StructuredSnapshot, records: Dict<HeroRecord>, bases: seq<BaseTrait>,
                    i: nat, kind: Kind, ids: seq<nat>, rows: seq<HeroTraitRow>)
    requires RelationsStored(t, sid, at, s) && HeroesOf(records, bases) == Some(HeroPart(s.heroes, s.relations))
    requires i < |records| && RelationListing(t, sid, ids, rows) && at.heroes + i in ids
    ensures LoadsIdsOf(t, rows, at.heroes + i, kind, records[i].1)
    ensures RelatedIds(records[i].1, kind).Some?
    ensures RelatedTo(rows, at.heroes + i, kind) == ExpectedRows(sid, at, s, records[i].0, kind, RelatedIds(records[i].1, kind).value)
  {
    AdaptedLinks(s, records, bases, i, kind);
    var names := RelatedIds(records[i].1, kind).value;
    LoadedInOrder(t, sid, at, s, ids, rows, i, kind, names);
    ExpectedNames(t, sid, at, s, records[i].0, kind, names);
  }

  /** The loaded relations name the traits of the record's own field: classes for jobs, species for races. */
  ghost predicate LoadsNamesOf(t: Tables, found: seq<HeroTraitRow>, kind: Kind, record: HeroRecord) {
    TraitsExist(t, found) && NamesRelated(record, kind, ExternalIds(t, found))
  }

  /**
   After importing an adapted snapshot, in whatever state the database is later, the loader gives
   for each asked hero the traits named by the source record's class and species fields: the stripped
   parts other than "0" and "-1", in source order. The asked id is that of the hero's own row.
   */
  lemma HeroRelationsRoundTrip(t: Tables, published: seq<StructuredSnapshot>, sid: nat, raw: RawSnapshot,
                               i: nat, kind: Kind, ids: seq<nat>, rows: seq<HeroTraitRow>)
    requires DatabaseOk(t, published) && sid < |published| && StructuredOf(raw) == Some(published[sid])
    requires i < |raw.payloads.chess.data| && RelationListing(t, sid, ids, rows)
    requires OffsetsAt(published, sid).heroes + i in ids
    ensures LoadsNamesOf(t, RelatedTo(rows, OffsetsAt(published, sid).heroes + i, kind), kind, raw.payloads.chess.data[i].1)
    ensures HeroRowOf(t, OffsetsAt(published, sid).heroes + i, sid, raw.payloads.chess.data[i])
  {
    hide *;
    var record := raw.payloads.chess.data[i].1;
    HeroRowIsOfRecord(t, published, sid, raw, i);
    RelatedIdsAreNamed(record, kind);
    PublishedIsStored(t, published, sid);
    AdaptedParts(raw, published[sid]);
    LoadedLinks(t, sid, OffsetsAt(published, sid), published[sid], raw.payloads.chess.data,
                TraitTables.Bases(raw.payloads.race.data, raw.payloads.job.data).value, i, kind, ids, rows);
    LoadedNames(t, rows, OffsetsAt(published, sid).heroes + i, kind, record);
  }

  lemma LoadedNames(t: Tables, rows: seq<HeroTraitRow>, hero: nat, kind: Kind, record: HeroRecord)
    requires LoadsIdsOf(t, rows, hero, kind, record)
    requires RelatedIds(record, kind).Some? ==> NamesRelated(record, kind, RelatedIds(record, kind).value)
    ensures LoadsNamesOf(t, RelatedTo(rows, hero, kind), kind, record)
  {
    hide RelatedIds, NamesRelated, RelatedTo;
  }

  /** The row of a hero carries its record's key and name. */
  predicate HeroRowOf(t: Tables, id: nat, sid: nat, entry: (string, HeroRecord)) {
    id < |t.heroes| && t.heroes[id].snapshotId == sid && t.heroes[id].externalId == entry.0 && Says(entry.1.name, t.heroes[id].name)
  }

  lemma HeroRowIsOfRecord(t: Tables, published: seq<StructuredSnapshot>, sid: nat, raw: RawSnapshot, i: nat)
    requires DatabaseOk(t, published) && sid < |published| && StructuredOf(raw) == Some(published[sid])
    requires i < |raw.payloads.chess.data|
    ensures HeroRowOf(t, OffsetsAt(published, sid).heroes + i, sid, raw.payloads.chess.data[i])
  {
    hide DatabaseOk, StructuredOf, OffsetsAt, ReadHero, Says;
    ListsFollowRecords(raw);
    EntitiesStand(t, published, sid);
    var entry := raw.payloads.chess.data[i];
    var bases := TraitTables.Bases(raw.payloads.race.data, raw.payloads.job.data).value;
    var classes, species := HeroReads(entry.0, entry.1, bases);
    assert HeroStands(t, OffsetsAt(published, sid).heroes + i, sid, published[sid].heroes[i]);
  }

  /**
   The same for what the grouping loop returns: the races of an asked hero are those its species field
   names, and the jobs those its class field names.
   */
  lemma HeroFieldsRoundTrip(t: Tables, published: seq<StructuredSnapshot>, sid: nat, raw: RawSnapshot,
                            i: nat, ids: seq<nat>, rows: seq<HeroTraitRow>, grouped: map<nat, Loaded>)
    requires DatabaseOk(t, published) && sid < |published| && StructuredOf(raw) == Some(published[sid])
    requires i < |raw.payloads.chess.data| && RelationListing(t, sid, ids, rows)
    requires OffsetsAt(published, sid).heroes + i in ids && GroupedBy(grouped, rows, OffsetsAt(published, sid).heroes + i)
    ensures OffsetsAt(published, sid).heroes + i in grouped
    ensures GivesFields(t, grouped[OffsetsAt(published, sid).heroes + i], raw.payloads.chess.data[i].1)
  {
    hide *;
    HeroRelationsRoundTrip(t, published, sid, raw, i, Race, ids, rows);
    HeroRelationsRoundTrip(t, published, sid, raw, i, Job, ids, rows);
    GroupsGiveFields(t, grouped, rows, OffsetsAt(published, sid).heroes + i, raw.payloads.chess.data[i].1);
  }

  ghost predicate GivesFields(t: Tables, found: Loaded, record: HeroRecord) {
    && TraitsExist(t, found.races) && TraitsExist(t, found.jobs)
    && NamesIds(record.species, ExternalIds(t, found.races))
    && NamesIds(record.classes, ExternalIds(t, found.jobs))
  }

  lemma GroupsGiveFields(t: Tables, grouped: map<nat, Loaded>, rows: seq<HeroTraitRow>, id: nat, record: HeroRecord)
    requires GroupedBy(grouped, rows, id)
    requires LoadsNamesOf(t, RelatedTo(rows, id, Race), Race, record) && LoadsNamesOf(t, RelatedTo(rows, id, Job), Job, record)
    ensures id in grouped && GivesFields(t, grouped[id], record)
  {
    hide RelatedTo, NamesIds, ExternalIds;
  }

  /** Loading many heroes at once gives each of them what a query for it alone gives. */
  lemma BatchEqualsSingle(t: Tables, published: seq<StructuredSnapshot>, sid: nat, raw: RawSnapshot, i: nat, kind: Kind,
                          ids: seq<nat>, rows: seq<HeroTraitRow>, single: seq<HeroTraitRow>)
    requires DatabaseOk(t, published) && sid < |published| && StructuredOf(raw) == Some(published[sid])
    requires i < |raw.payloads.chess.data| && OffsetsAt(published, sid).heroes + i in ids
    requires RelationListing(t, sid, ids, rows) && RelationListing(t, sid, [OffsetsAt(published, sid).heroes + i], single)
    ensures RelatedTo(rows, OffsetsAt(published, sid).heroes + i, kind) == RelatedTo(single, OffsetsAt(published, sid).heroes + i, kind)
  {
    hide *;
    PublishedIsStored(t, published, sid);
    AdaptedParts(raw, published[sid]);
    var at, records := OffsetsAt(published, sid), raw.payloads.chess.data;
    var bases := TraitTables.Bases(raw.payloads.race.data, raw.payloads.job.data).value;
    LoadedLinks(t, sid, at, published[sid], records, bases, i, kind, ids, rows);
    LoadedLinks(t, sid, at, published[sid], records, bases, i, kind, [at.heroes + i], single);
  }

  // ---- Traits ----------------------------------------------------------------------------

  /** The source record of the j-th trait: races first, then jobs. */
  function TraitRecord(p: Payloads, j: nat): BaseTraitRecord
    requires j < |p.race.data| + |p.job.data|
  {
    if j < |p.race.data| then p.race.data[j].1 else p.job.data[j - |p.race.data|].1
  }

  function ActivationCounts(rows: seq<TierRow>): (r: seq<int>)
    ensures |r| == |rows|
  {
    seq(|rows|, k requires 0 <= k < |rows| => rows[k].activationCount)
  }

  lemma {:induction false} EveryBaseIsRead(kind: Kind, records: seq<(string, BaseTraitRecord)>, j: nat)
    requires TraitTables.BasesOfKind(kind, records).Some? && j < |records|
    ensures |TraitTables.BasesOfKind(kind, records).value| == |records|
    ensures Some(TraitTables.BasesOfKind(kind, records).value[j].activation) == SplitInts(records[j].1.numList)
  {
    hide TraitTables.BaseOk, SplitInts;
    TraitTables.BasesAreRecords(kind, records);
    if j < |records| - 1 {
      TraitTables.BasesAreRecords(kind, records[..|records| - 1]);
      EveryBaseIsRead(kind, records[..|records| - 1], j);
    }
  }

  lemma BaseActivation(p: Payloads, j: nat)
    requires TraitTables.Bases(p.race.data, p.job.data).Some? && j < |p.race.data| + |p.job.data|
    ensures |TraitTables.Bases(p.race.data, p.job.data).value| == |p.race.data| + |p.job.data|
    ensures Some(TraitTables.Bases(p.race.data, p.job.data).value[j].activation) == SplitInts(TraitRecord(p, j).numList)
  {
    hide TraitTables.BasesOfKind, TraitTables.BaseOk, SplitInts;
    TraitTables.BasesAreRecords(Race, p.race.data);
    TraitTables.BasesAreRecords(Job, p.job.data);
    if j < |p.race.data| { EveryBaseIsRead(Race, p.race.data, j); } else { EveryBaseIsRead(Job, p.job.data, j - |p.race.data|); }
  }

  /** The loader gives each asked trait its tiers in order 1..n, with the counts of its numList. */
  lemma TraitTiersRoundTrip(t: Tables, published: seq<StructuredSnapshot>, sid: nat, raw: RawSnapshot,
                            j: nat, ids: seq<nat>, rows: seq<TierRow>)
    requires DatabaseOk(t, published) && sid < |published| && StructuredOf(raw) == Some(published[sid])
    requires j < |raw.payloads.race.data| + |raw.payloads.job.data|
    requires TierListing(t, ids, rows) && OffsetsAt(published, sid).traits + j in ids
    ensures var found := TiersOf(rows, OffsetsAt(published, sid).traits + j);
            && Some(ActivationCounts(found)) == SplitInts(TraitRecord(raw.payloads, j).numList)
            && forall k :: 0 <= k < |found| ==> found[k].tierOrder == k + 1 && found[k].level == k + 1
  {
    var p, s := raw.payloads, published[sid];
    TraitProperties.AcceptedTraits(p.race.data, p.job.data, p.tiers.data);
    BaseActivation(p, j);
    assert TraitProperties.TraitOk(s.traits[j]);
    LoadedTiers(t, published, sid, j, ids, rows);
    var tiers := s.traits[j].tiers;
    assert ActivationCounts(TierRowsOf(OffsetsAt(published, sid).traits + j, tiers)) == s.traits[j].base.activation;
  }

  // ---- Equipment -------------------------------------------------------------------------

  lemma {:induction false} EveryRecipeIsRead(records: seq<(string, EquipmentRecord)>, ids: set<string>, i: nat)
    requires RecipesOf(records, ids).Some? && i < |records|
    ensures RecipeOf(records[i].0, records[i].1, ids).Some?
  {
    if i < |records| - 1 { EveryRecipeIsRead(records[..|records| - 1], ids, i); }
  }

  lemma MadeOnlyByOwnRecord(records: seq<(string, EquipmentRecord)>, i: nat, r: RecipeData)
    requires DistinctKeys(records) && i < |records| && r.equipment == records[i].0
    ensures MadeBySome(records, r) <==> Makes(records[i], r)
  {
    if MadeBySome(records, r) {
      var k :| 0 <= k < |records| && Makes(records[k], r);
      assert records[k].0 == records[i].0;
    }
  }

  lemma AdaptedRecipe(s: StructuredSnapshot, records: Dict<EquipmentRecord>, i: nat)
    requires EquipmentPartOf(records) == Some(EquipmentPart(s.equipment, s.recipes)) && i < |records|
    ensures |s.equipment| == |records| && s.equipment[i].externalId == records[i].0
    ensures RecipeNames(s.recipes, records[i].0) == ComponentsOf(records[i].1)
  {
    var ids := EquipmentIds(s.equipment);
    EquipmentFollowsRecords(records);
    RecipesOk(records, ids);
    EveryRecipeIsRead(records, ids, i);
    NamedRecipe(s.recipes, records[i].0);
    var cs := ComponentsOf(records[i].1);
    if cs != [] {
      var r := RecipeData(records[i].0, cs[0], cs[1]);
      assert cs == [r.first, r.second];
      MadeOnlyByOwnRecord(records, i, r);
      assert MadeBySome(records, r);
      assert r in s.recipes;
    } else {
      forall r | r in s.recipes ensures r.equipment != records[i].0 {
        assert MadeBySome(records, r);
        if r.equipment == records[i].0 { MadeOnlyByOwnRecord(records, i, r); }
      }
    }
  }

  /** The loaded components are those of the record, in order. */
  predicate LoadsComponentsOf(t: Tables, rows: seq<RecipeRow>, id: nat, record: EquipmentRecord) {
    var found := ComponentsIn(rows, id);
    AllIn(t, found) && ExternalNames(t, found) == ComponentsOf(record)
  }

  /** Stored recipes load as the components of the source records. */
  lemma LoadedGear(t: Tables, sid: nat, at: Offsets, s: StructuredSnapshot, records: Dict<EquipmentRecord>,
                   i: nat, ids: seq<nat>, rows: seq<RecipeRow>)
    requires RecipesStored(t, sid, at, s) && EquipmentPartOf(records) == Some(EquipmentPart(s.equipment, s.recipes))
    requires i < |records| && RecipeListing(t, sid, ids, rows) && at.equipment + i in ids
    ensures LoadsComponentsOf(t, rows, at.equipment + i, records[i].1)
  {
    AdaptedRecipe(s, records, i);
    LoadedComponents(t, sid, at, s, i, ids, rows);
  }

  /** The loaded components are those the record names: first its first field's, then its second's. */
  predicate LoadsNamedComponents(t: Tables, found: seq<nat>, record: EquipmentRecord) {
    AllIn(t, found) && NamesComponents(record, ExternalNames(t, found))
  }

  /** The loader gives each asked piece of equipment the components of its source record, in order. */
  lemma ComponentsRoundTrip(t: Tables, published: seq<StructuredSnapshot>, sid: nat, raw: RawSnapshot,
                            i: nat, ids: seq<nat>, rows: seq<RecipeRow>)
    requires DatabaseOk(t, published) && sid < |published| && StructuredOf(raw) == Some(published[sid])
    requires i < |raw.payloads.equip.data| && RecipeListing(t, sid, ids, rows)
    requires OffsetsAt(published, sid).equipment + i in ids
    ensures LoadsNamedComponents(t, ComponentsIn(rows, OffsetsAt(published, sid).equipment + i), raw.payloads.equip.data[i].1)
  {
    hide *;
    ComponentsAreNamed(raw.payloads.equip.data[i].1);
    PublishedIsStored(t, published, sid);
    AdaptedParts(raw, published[sid]);
    LoadedGear(t, sid, OffsetsAt(published, sid), published[sid], raw.payloads.equip.data, i, ids, rows);
    LoadedComponentNames(t, rows, OffsetsAt(published, sid).equipment + i, raw.payloads.equip.data[i].1);
  }

  lemma LoadedComponentNames(t: Tables, rows: seq<RecipeRow>, id: nat, record: EquipmentRecord)
    requires LoadsComponentsOf(t, rows, id, record) && NamesComponents(record, ComponentsOf(record))
    ensures LoadsNamedComponents(t, ComponentsIn(rows, id), record)
  {
  }
}
