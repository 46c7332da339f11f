/**
 What the fields of source records come to mean.

 The adapter's results are compared here with the records' own fields, one field at a time: which
 field feeds which column, which forms are accepted, and in which order lists are kept.
 */
module RecordMeaning {
  import opened Common
  import opened RawData
  import opened JccTables
  import opened Decimal
  import opened Text
  import opened RawStore
  import opened Validation
  import opened Descriptions
  import opened Structured
  import opened TraitTables
  import opened Adapter

  /** The field holds this text, which is not empty. */
  predicate Says(field: Scalar, text: string) { text != "" && AsText(field) == Some(text) }

  /** The field is absent or empty. */
  predicate SaysNothing(field: Scalar) { field == Null || field == Scalar.Text("") }

  lemma SaysIff(field: Scalar, text: string)
    ensures RequiredString(field) == Some(text) <==> Says(field, text)
    ensures OptionalString(field) == Some(text) <==> Says(field, text)
    ensures OptionalString(field) == None <==> SaysNothing(field)
    ensures RequiredString(field) == None <==> SaysNothing(field)
  {
    if field.Number? { PrintedIsText(field.n); }
  }

  /** The record's id field repeats its key, which is none of the source's sentinels. */
  predicate NamesItself(key: string, id: Scalar) { Says(id, key) && key != "0" && key != "-1" }

  lemma NamesItselfIff(key: string, id: Scalar)
    ensures KeyMatchingId(key, id) == if NamesItself(key, id) then Some(key) else None
  {
    hide AsText;
    SaysIff(id, key);
  }

  /** The field names these ids: its stripped parts other than "0" and "-1", in their order. */
  ghost predicate NamesIds(field: Scalar, ids: seq<string>) {
    AsText(field).Some? && KeptInOrder(Stripped(SplitBars(AsText(field).value)), {"0", "-1"}, ids)
  }

  /** The field can be split into ids: it is present, and its stripped parts are distinct and not empty. */
  ghost predicate Splits(field: Scalar) {
    AsText(field).Some?
    && var parts := Stripped(SplitBars(AsText(field).value)); "" !in parts && Distinct(parts)
  }

  // ---- Heroes ----------------------------------------------------------------------------

  /** Classes come from the class field, species from the species field. */
  ghost predicate NamesRelated(record: HeroRecord, kind: Kind, ids: seq<string>) {
    match kind
    case Job => NamesIds(record.classes, ids)
    case Race => NamesIds(record.species, ids)
  }

  lemma RelatedIdsAreNamed(record: HeroRecord, kind: Kind)
    ensures RelatedIds(record, kind).Some? <==> match kind case Job => Splits(record.classes) case Race => Splits(record.species)
    ensures RelatedIds(record, kind).Some? ==> NamesRelated(record, kind, RelatedIds(record, kind).value)
  {
    hide SplitIds, Stripped, SplitBars, AsText;
    SplitIdsIff(record.classes, {"0", "-1"});
    SplitIdsIff(record.species, {"0", "-1"});
  }

  predicate Known(bases: seq<BaseTrait>, kind: Kind, id: string) {
    exists i :: 0 <= i < |bases| && bases[i].key == TraitKey(kind, id)
  }

  lemma KnownIff(bases: seq<BaseTrait>, kind: Kind, id: string)
    ensures FindBase(bases, TraitKey(kind, id)).Some? <==> Known(bases, kind, id)
  {
    var found := FindBase(bases, TraitKey(kind, id));
    if found.Some? { var i :| 0 <= i < |bases| && bases[i] == found.value; }
  }

  /** A hero's row and relations: its own fields, then its classes and its species by position. */
  lemma HeroReads(key: string, record: HeroRecord, bases: seq<BaseTrait>) returns (classes: seq<string>, species: seq<string>)
    requires ReadHero(key, record, bases).Some?
    ensures NamesItself(key, record.id) && NamesIds(record.classes, classes) && NamesIds(record.species, species)
    ensures var h := ReadHero(key, record, bases).value; var n := |classes|;
            && h.hero.externalId == key && Says(record.name, h.hero.name)
            && |h.relations| == n + |species|
            && (forall p :: 0 <= p < n ==> h.relations[p] == Relation(key, TraitKey(Job, classes[p]), p) && Known(bases, Job, classes[p]))
            && (forall p :: 0 <= p < |species| ==>
                  h.relations[n + p] == Relation(key, TraitKey(Race, species[p]), p) && Known(bases, Race, species[p]))
  {
    hide KeptInOrder, SplitIds, AsText, Stripped, SplitBars, Present;
    NamesItselfIff(key, record.id);
    SaysIff(record.name, RequiredString(record.name).value);
    RelatedIdsAreNamed(record, Job);
    RelatedIdsAreNamed(record, Race);
    classes, species := RelatedIds(record, Job).value, RelatedIds(record, Race).value;
    forall p | 0 <= p < |classes| ensures Known(bases, Job, classes[p]) { KnownIff(bases, Job, classes[p]); }
    forall p | 0 <= p < |species| ensures Known(bases, Race, species[p]) { KnownIff(bases, Race, species[p]); }
  }

  /** Exactly which hero records are accepted. */
  lemma HeroAcceptedIff(key: string, record: HeroRecord, bases: seq<BaseTrait>)
    ensures ReadHero(key, record, bases).Some? <==>
              && NamesItself(key, record.id) && !SaysNothing(record.name)
              && DecimalOk(record.attackSpeed) && (forall i :: 0 <= i < |record.numbers| ==> OptionalInt(record.numbers[i]).Some?)
              && Splits(record.classes) && Splits(record.species)
              && (forall id :: id in RelatedIds(record, Job).value ==> Known(bases, Job, id))
              && (forall id :: id in RelatedIds(record, Race).value ==> Known(bases, Race, id))
  {
    hide KeptInOrder, SplitIds, AsText, Stripped, SplitBars, Present, DecimalOk, OptionalInt, FindBase;
    NamesItselfIff(key, record.id);
    SaysIff(record.name, key);
    RelatedIdsAreNamed(record, Job);
    RelatedIdsAreNamed(record, Race);
    forall kind, id ensures FindBase(bases, TraitKey(kind, id)).Some? <==> Known(bases, kind, id) { KnownIff(bases, kind, id); }
  }

  // ---- Equipment -------------------------------------------------------------------------

  lemma EquipmentReads(key: string, record: EquipmentRecord)
    ensures ReadEquipment(key, record).Some? <==> NamesItself(key, record.id) && !SaysNothing(record.name)
    ensures ReadEquipment(key, record).Some? ==>
              ReadEquipment(key, record).value.externalId == key && Says(record.name, ReadEquipment(key, record).value.name)
  {
    hide AsText;
    NamesItselfIff(key, record.id);
    SaysIff(record.name, OrElse(RequiredString(record.name), ""));
  }

  /** The field names no component. */
  predicate NamesNoComponent(field: Scalar) { SaysNothing(field) || AsText(field) == Some("0") }

  /** These are the components the record names: those of its first and its second field, in this order. */
  predicate NamesComponents(record: EquipmentRecord, cs: seq<string>) {
    if NamesNoComponent(record.synthesis1) then
      if NamesNoComponent(record.synthesis2) then cs == []
      else |cs| == 1 && Says(record.synthesis2, cs[0])
    else if NamesNoComponent(record.synthesis2) then |cs| == 1 && Says(record.synthesis1, cs[0])
    else |cs| == 2 && Says(record.synthesis1, cs[0]) && Says(record.synthesis2, cs[1])
  }

  lemma ComponentsAreNamed(record: EquipmentRecord)
    ensures NamesComponents(record, ComponentsOf(record))
  {
    OneComponent(record.synthesis1);
    OneComponent(record.synthesis2);
  }

  lemma OneComponent(field: Scalar)
    ensures NamesNoComponent(field) ==> Component(field) == []
    ensures !NamesNoComponent(field) ==> |Component(field)| == 1 && Says(field, Component(field)[0])
  {
    hide PrintInt;
    SaysIff(field, OrElse(OptionalString(field), ""));
  }

  /** A record's recipe: none, or its two named components, both of them known. */
  lemma RecipeReads(key: string, record: EquipmentRecord, ids: set<string>)
    ensures RecipeOf(key, record, ids).Some? <==>
              || (NamesNoComponent(record.synthesis1) && NamesNoComponent(record.synthesis2))
              || (exists a, b :: NamesKnownPair(record, ids, a, b))
    ensures forall r :: RecipeOf(key, record, ids).Some? && r in RecipeOf(key, record, ids).value ==>
              r.equipment == key && NamesComponents(record, [r.first, r.second])
  {
    hide Component, Says, AsText;
    ComponentsAreNamed(record);
    OneComponent(record.synthesis1);
    OneComponent(record.synthesis2);
    var cs := ComponentsOf(record);
    if |cs| == 2 {
      assert cs == [cs[0], cs[1]];
      assert NamesKnownPair(record, ids, cs[0], cs[1]) <==> cs[0] in ids && cs[1] in ids;
    }
    if a, b :| NamesKnownPair(record, ids, a, b) { SameNames(record, [a, b], cs); }
  }

  predicate NamesKnownPair(record: EquipmentRecord, ids: set<string>, a: string, b: string) {
    NamesComponents(record, [a, b]) && a in ids && b in ids
  }

  lemma SameNames(record: EquipmentRecord, a: seq<string>, b: seq<string>)
    requires NamesComponents(record, a) && NamesComponents(record, b)
    ensures a == b
  {
  }

  // ---- Augments, adventures and galaxies -------------------------------------------------

  /** An augment or galaxy is named by its key, an adventure by its own id field. */
  lemma EntitiesRead(key: string, augment: AugmentRecord, adventure: AdventureRecord, galaxy: GalaxyRecord, e: EntityData)
    ensures ReadAugment(key, augment) == Some(e) <==>
              NamesItself(key, augment.id) && e.externalId == key && Says(augment.name, e.name) && OptionalInt(augment.level) == Some(e.number)
    ensures ReadAdventure(adventure) == Some(e) <==>
              && Says(adventure.adventureId, e.externalId) && e.externalId != "0" && e.externalId != "-1"
              && Says(adventure.title, e.name) && OptionalInt(adventure.price) == Some(e.number)
    ensures ReadGalaxy(key, galaxy) == Some(e) <==>
              NamesItself(key, galaxy.id) && e.externalId == key && Says(galaxy.name, e.name) && e.number == None
  {
    hide AsText, OptionalInt;
    NamesItselfIff(key, augment.id);
    NamesItselfIff(key, galaxy.id);
    SaysIff(augment.name, e.name);
    SaysIff(adventure.adventureId, e.externalId);
    SaysIff(adventure.title, e.name);
    SaysIff(galaxy.name, e.name);
  }

  // ---- Traits ----------------------------------------------------------------------------

  /** A base trait is its record's own fields, and its levels are the numbers of numList. */
  lemma BaseReads(kind: Kind, key: string, record: BaseTraitRecord, b: BaseTrait)
    ensures ReadBase(kind, key, record) == Some(b) <==>
              && NamesItself(key, record.id) && b.key == TraitKey(kind, key) && Says(record.name, b.name)
              && SplitInts(record.numList) == Some(b.activation)
              && OptionalInt(record.maxLevel) == Some(b.maxLevel) && (b.maxLevel == None || b.maxLevel == Some(|b.activation|))
              && OptionalInt(record.mapId) == Some(b.mapId)
  {
    hide AsText, OptionalInt, SplitInts;
    NamesItselfIff(key, record.id);
    SaysIff(record.name, b.name);
    if SplitInts(record.numList).Some? { AcceptedIntsNonEmpty(record.numList); }
  }

  /** Base traits are those of the race records and then those of the job records, in record order. */
  lemma BasesFollowRecords(race: Dict<BaseTraitRecord>, job: Dict<BaseTraitRecord>)
    ensures Bases(race, job).Some? <==>
              (forall i :: 0 <= i < |race| ==> ReadBase(Race, race[i].0, race[i].1).Some?)
              && (forall i :: 0 <= i < |job| ==> ReadBase(Job, job[i].0, job[i].1).Some?)
    ensures Bases(race, job).Some? ==>
              var bs := Bases(race, job).value;
              && |bs| == |race| + |job|
              && (forall i :: 0 <= i < |race| ==> ReadBase(Race, race[i].0, race[i].1) == Some(bs[i]))
              && (forall i :: 0 <= i < |job| ==> ReadBase(Job, job[i].0, job[i].1) == Some(bs[|race| + i]))
  {
    hide ReadBase;
    KindFollowsRecords(Race, race);
    KindFollowsRecords(Job, job);
  }

  lemma {:induction false} KindFollowsRecords(kind: Kind, records: seq<(string, BaseTraitRecord)>)
    ensures BasesOfKind(kind, records).Some? <==> forall i :: 0 <= i < |records| ==> ReadBase(kind, records[i].0, records[i].1).Some?
    ensures BasesOfKind(kind, records).Some? ==>
              && |BasesOfKind(kind, records).value| == |records|
              && forall i :: 0 <= i < |records| ==> ReadBase(kind, records[i].0, records[i].1) == Some(BasesOfKind(kind, records).value[i])
  {
    hide ReadBase;
    if records != [] {
      var n := |records| - 1;
      KindFollowsRecords(kind, records[..n]);
      assert forall i :: 0 <= i < n ==> records[..n][i] == records[i];
    }
  }

  /** The kind field: 0 is a race, 1 is a job. */
  predicate NamesKind(field: Scalar, kind: Kind) { RequiredInt(field) == Some(match kind case Race => 0 case Job => 1) }

  /** A single-level record is one tier, made of its own fields. */
  predicate IsLevel(key: string, record: TierRecord, tiers: seq<Tier>) {
    && |tiers| == 1 && tiers[0].externalId == key
    && RequiredInt(record.level) == Some(tiers[0].level) && tiers[0].tierOrder == tiers[0].level
    && RequiredInt(record.num) == Some(tiers[0].activationCount)
    && Describes(record.desc, tiers[0].description) && Describes(record.realDesc, tiers[0].realDescription)
  }

  predicate Describes(field: Scalar, text: Option<string>) {
    if text == None then SaysNothing(field) else Says(field, text.value)
  }

  /** The n-th level of an aggregate record, its description starting with its count in brackets. */
  predicate IsLevelOf(key: string, record: TierRecord, n: nat, count: int, tier: Tier) {
    && tier.externalId == key + ":" + Print(n) && tier.tierOrder == n && tier.level == n && tier.activationCount == count
    && Describes(record.desc, tier.description)
    && (tier.realDescription == None <==> SaysNothing(record.realDesc))
    && (tier.realDescription.Some? ==> count > 0 && "(" + Print(count) + ")" <= tier.realDescription.value)
  }

  /** What an aggregate record gives: one tier per count of the base trait, in order. */
  predicate AreLevels(key: string, record: TierRecord, counts: seq<int>, tiers: seq<Tier>) {
    |tiers| == |counts| && forall k :: 0 <= k < |tiers| ==> IsLevelOf(key, record, k + 1, counts[k], tiers[k])
  }

  lemma DescribesIff(field: Scalar)
    ensures Describes(field, OptionalString(field))
  {
    SaysIff(field, OrElse(OptionalString(field), ""));
  }

  lemma AggregateReads(record: TierRecord, key: string, counts: seq<int>)
    requires AggregateTiers(record, key, counts).Some?
    ensures AreLevels(key, record, counts, AggregateTiers(record, key, counts).value)
  {
    hide SplitInts, AgreesWith, OptionalInt, AsText, Print, SplitDescriptions;
    var desc := OptionalString(record.realDesc);
    DescribesIff(record.desc);
    SaysIff(record.realDesc, OrElse(desc, ""));
    PiecesPerCount(desc, counts);
    forall k | 0 <= k < |counts|
      ensures var piece := SplitDescriptions(desc, counts).value[k];
              && (piece == None <==> desc == None)
              && (piece.Some? ==> counts[k] > 0 && "(" + Print(counts[k]) + ")" <= piece.value)
    {
      PieceReads(desc, counts, k);
    }
  }

  lemma PieceReads(desc: Option<string>, counts: seq<int>, k: nat)
    requires SplitDescriptions(desc, counts).Some? && k < |counts|
    ensures |SplitDescriptions(desc, counts).value| == |counts|
    ensures var piece := SplitDescriptions(desc, counts).value[k];
            && (piece == None <==> desc == None)
            && (piece.Some? ==> counts[k] > 0 && "(" + Print(counts[k]) + ")" <= piece.value)
  {
    PiecesPerCount(desc, counts);
    if desc.Some? {
      PiecesStartWithTheirCount(desc.value, counts, k);
      StripKeepsMarker(RawPiece(desc.value, Scan(desc.value, 0), k), counts[k]);
    }
  }

  /** What a tier record gives: its trait, by kind and id, and its level or its levels. */
  lemma ContributionReads(bases: seq<BaseTrait>, key: string, record: TierRecord)
    requires ReadTiers(bases, key, record).Some?
    ensures var c := ReadTiers(bases, key, record).value;
            && NamesItself(key, record.id) && Says(record.checkId, c.key.id) && NamesKind(record.kindCode, c.key.kind)
            && Known(bases, c.key.kind, c.key.id)
            && if record.num.Text? && (exists i :: 0 <= i < |record.num.s| && (record.num.s[i] == '|' || record.num.s[i] == '\U{FF5C}'))
               then exists b :: b in bases && b.key == c.key && AreLevels(key, record, b.activation, c.tiers)
               else IsLevel(key, record, c.tiers)
  {
    hide SplitInts, OptionalInt, AsText, AggregateTiers, FindBase, RequiredInt, AreLevels;
    var c := ReadTiers(bases, key, record).value;
    NamesItselfIff(key, record.id);
    SaysIff(record.checkId, c.key.id);
    KnownIff(bases, c.key.kind, c.key.id);
    var b := FindBase(bases, c.key).value;
    DescribesIff(record.desc);
    DescribesIff(record.realDesc);
    if IsAggregate(record) {
      AggregateReads(record, key, b.activation);
      assert b in bases && b.key == c.key && AreLevels(key, record, b.activation, c.tiers);
    }
  }

  /** Exactly which tier records can be read. */
  lemma ContributionIff(bases: seq<BaseTrait>, key: string, record: TierRecord)
    ensures ReadTiers(bases, key, record).Some? <==>
              && NamesItself(key, record.id) && !SaysNothing(record.checkId)
              && (NamesKind(record.kindCode, Race) || NamesKind(record.kindCode, Job))
              && var kind := if NamesKind(record.kindCode, Race) then Race else Job; var id := OrElse(AsText(record.checkId), "");
                 && Known(bases, kind, id)
                 && if IsAggregate(record)
                    then AggregateFits(record, FindBase(bases, TraitKey(kind, id)).value.activation)
                    else RequiredInt(record.level).Some? && RequiredInt(record.num).Some?
  {
    hide SplitInts, OptionalInt, AsText, AggregateTiers, FindBase, RequiredInt, AggregateFits, IsAggregate;
    var id := OrElse(AsText(record.checkId), "");
    NamesItselfIff(key, record.id);
    SaysIff(record.checkId, id);
    KnownIff(bases, Race, id);
    KnownIff(bases, Job, id);
    forall counts ensures AggregateTiers(record, key, counts).Some? <==> AggregateFits(record, counts) {
      AggregateFitsIff(record, key, counts);
    }
  }

  /** An aggregate record agrees with its base trait in every list it repeats, and with its description. */
  predicate AggregateFits(record: TierRecord, counts: seq<int>) {
    && SplitInts(record.num) == Some(counts)
    && (record.numList == None || SplitInts(record.numList.value) == Some(counts))
    && (record.values == None || SplitInts(record.values.value) == Some(counts))
    && (OptionalInt(record.maxLevel) == Some(None) || OptionalInt(record.maxLevel) == Some(Some(|counts|)))
    && (SaysNothing(record.realDesc) || Counts(Scan(OrElse(AsText(record.realDesc), ""), 0)) == counts)
  }

  lemma AggregateFitsIff(record: TierRecord, key: string, counts: seq<int>)
    ensures AggregateTiers(record, key, counts).Some? <==> AggregateFits(record, counts)
  {
    hide SplitInts, OptionalInt, AsText, Scan, Counts, LevelId, SplitDescriptions, OptionalString;
    var text := OrElse(AsText(record.realDesc), "");
    var desc := OptionalString(record.realDesc);
    SaysIff(record.realDesc, text);
    SaysIff(record.realDesc, OrElse(desc, ""));
    DescriptionSplitsIff(desc, counts);
    assert desc == None || desc == Some(text);
    var maxLevel := OptionalInt(record.maxLevel);
    assert maxLevel.None? || (maxLevel.value.Some? && maxLevel.value.value != |counts|)
           <==> !(maxLevel == Some(None) || maxLevel == Some(Some(|counts|)));
  }

  lemma DescriptionSplitsIff(desc: Option<string>, counts: seq<int>)
    ensures SplitDescriptions(desc, counts).Some? <==> desc == None || Counts(Scan(desc.value, 0)) == counts
  {
  }

  // ---- The whole snapshot ----------------------------------------------------------------

  /** A snapshot describes its raw revision. */
  lemma MetadataReads(raw: RawSnapshot)
    requires StructuredOf(raw).Some?
    ensures var m := StructuredOf(raw).value.metadata;
            && m.mode == raw.spec.mode && m.season == raw.spec.season && m.version == raw.spec.version
            && m.revision == raw.revision && m.rawDirectoryName == raw.name && m.contentHash == raw.contentHash
  {
  }

  /** Each list of a snapshot follows the records of its own file, entry by entry. */
  lemma ListsFollowRecords(raw: RawSnapshot)
    requires StructuredOf(raw).Some?
    ensures var s := StructuredOf(raw).value; var p := raw.payloads;
            && Bases(p.race.data, p.job.data).Some?
            && var bases := Bases(p.race.data, p.job.data).value;
               && TraitsOf(p.race.data, p.job.data, p.tiers.data) == Some(s.traits)
               && |s.heroes| == |p.chess.data|
               && (forall i :: 0 <= i < |s.heroes| ==>
                     ReadHero(p.chess.data[i].0, p.chess.data[i].1, bases).Some?
                     && ReadHero(p.chess.data[i].0, p.chess.data[i].1, bases).value.hero == s.heroes[i])
               && |s.equipment| == |p.equip.data|
               && (forall i :: 0 <= i < |s.equipment| ==> ReadEquipment(p.equip.data[i].0, p.equip.data[i].1) == Some(s.equipment[i]))
               && |s.augments| == |p.hex.data|
               && (forall i :: 0 <= i < |s.augments| ==> ReadAugment(p.hex.data[i].0, p.hex.data[i].1) == Some(s.augments[i]))
               && |s.adventures| == |p.adventure.data|
               && (forall i :: 0 <= i < |s.adventures| ==> ReadAdventure(p.adventure.data[i].1) == Some(s.adventures[i]))
               && |s.galaxies| == |p.galaxy.data|
               && (forall i :: 0 <= i < |s.galaxies| ==> ReadGalaxy(p.galaxy.data[i].0, p.galaxy.data[i].1) == Some(s.galaxies[i]))
  {
    hide TraitsOf, ReadHero, ReadEquipment, ReadAugment, ReadAdventure, ReadGalaxy, Collected, HeroesOf, EquipmentOf, RecipesOf;
    var p := raw.payloads;
    HasBases(p);
    HeroesFollowRecords(p.chess.data, Bases(p.race.data, p.job.data).value);
    GearFollowsRecords(p.equip.data);
    CollectedAre(AugmentReadings(p.hex.data));
    CollectedAre(AdventureReadings(p.adventure.data));
    CollectedAre(GalaxyReadings(p.galaxy.data));
  }

  /** Every record of these lists can be read; a recipe may name equipment of any record of its list. */
  predicate AllReadable(p: Payloads, bases: seq<BaseTrait>) {
    var keys := set i | 0 <= i < |p.equip.data| :: p.equip.data[i].0;
    && (forall i :: 0 <= i < |p.chess.data| ==> ReadHero(p.chess.data[i].0, p.chess.data[i].1, bases).Some?)
    && (forall i :: 0 <= i < |p.equip.data| ==>
          ReadEquipment(p.equip.data[i].0, p.equip.data[i].1).Some?
          && RecipeOf(p.equip.data[i].0, p.equip.data[i].1, keys).Some?)
    && (forall i :: 0 <= i < |p.hex.data| ==> ReadAugment(p.hex.data[i].0, p.hex.data[i].1).Some?)
    && (forall i :: 0 <= i < |p.adventure.data| ==> ReadAdventure(p.adventure.data[i].1).Some?)
    && (forall i :: 0 <= i < |p.galaxy.data| ==> ReadGalaxy(p.galaxy.data[i].0, p.galaxy.data[i].1).Some?)
  }

  /** A snapshot is accepted exactly when its traits are and every single record of the other files can be read. */
  lemma SnapshotAcceptedIff(raw: RawSnapshot)
    ensures var p := raw.payloads;
            StructuredOf(raw).Some? <==>
              && TraitsOf(p.race.data, p.job.data, p.tiers.data).Some? && Bases(p.race.data, p.job.data).Some?
              && AllReadable(p, Bases(p.race.data, p.job.data).value)
  {
    hide TraitsOf, ReadHero, ReadEquipment, RecipeOf, ReadAugment, ReadAdventure, ReadGalaxy, Collected, HeroesOf, EquipmentOf, RecipesOf;
    hide Bases, EquipmentIds;
    var p := raw.payloads;
    HasBases(p);
    if Bases(p.race.data, p.job.data).Some? { HeroesReadableIff(p.chess.data, Bases(p.race.data, p.job.data).value); }
    GearReadableIff(p.equip.data);
    EntitiesReadableIff(p);
  }

  lemma EntitiesReadableIff(p: Payloads)
    ensures Collected(AugmentReadings(p.hex.data)).Some? <==>
              forall i :: 0 <= i < |p.hex.data| ==> ReadAugment(p.hex.data[i].0, p.hex.data[i].1).Some?
    ensures Collected(AdventureReadings(p.adventure.data)).Some? <==>
              forall i :: 0 <= i < |p.adventure.data| ==> ReadAdventure(p.adventure.data[i].1).Some?
    ensures Collected(GalaxyReadings(p.galaxy.data)).Some? <==>
              forall i :: 0 <= i < |p.galaxy.data| ==> ReadGalaxy(p.galaxy.data[i].0, p.galaxy.data[i].1).Some?
  {
    hide ReadAugment, ReadAdventure, ReadGalaxy, Collected;
    var augments, adventures, galaxies :=
      AugmentReadings(p.hex.data), AdventureReadings(p.adventure.data), GalaxyReadings(p.galaxy.data);
    CollectedAre(augments);
    CollectedAre(adventures);
    CollectedAre(galaxies);
    assert forall i :: 0 <= i < |p.hex.data| ==> augments[i] == ReadAugment(p.hex.data[i].0, p.hex.data[i].1);
    assert forall i :: 0 <= i < |p.adventure.data| ==> adventures[i] == ReadAdventure(p.adventure.data[i].1);
    assert forall i :: 0 <= i < |p.galaxy.data| ==> galaxies[i] == ReadGalaxy(p.galaxy.data[i].0, p.galaxy.data[i].1);
  }

  lemma {:induction false} HeroesReadableIff(records: seq<(string, HeroRecord)>, bases: seq<BaseTrait>)
    ensures HeroesOf(records, bases).Some? <==>
              forall i :: 0 <= i < |records| ==> ReadHero(records[i].0, records[i].1, bases).Some?
  {
    hide ReadHero;
    if records != [] { HeroesReadableIff(records[..|records| - 1], bases); }
  }

  lemma {:induction false} EquipmentReadableIff(records: seq<(string, EquipmentRecord)>)
    ensures EquipmentOf(records).Some? <==> forall i :: 0 <= i < |records| ==> ReadEquipment(records[i].0, records[i].1).Some?
  {
    hide ReadEquipment;
    if records != [] { EquipmentReadableIff(records[..|records| - 1]); }
  }

  lemma {:induction false} RecipesReadableIff(records: seq<(string, EquipmentRecord)>, ids: set<string>)
    ensures RecipesOf(records, ids).Some? <==> forall i :: 0 <= i < |records| ==> RecipeOf(records[i].0, records[i].1, ids).Some?
  {
    hide RecipeOf;
    if records != [] { RecipesReadableIff(records[..|records| - 1], ids); }
  }

  lemma GearReadableIff(records: seq<(string, EquipmentRecord)>)
    ensures var keys := set i | 0 <= i < |records| :: records[i].0;
            EquipmentPartOf(records).Some? <==>
              forall i :: 0 <= i < |records| ==>
                ReadEquipment(records[i].0, records[i].1).Some? && RecipeOf(records[i].0, records[i].1, keys).Some?
  {
    hide ReadEquipment, RecipeOf, EquipmentOf, RecipesOf, EquipmentIds;
    var keys := set i | 0 <= i < |records| :: records[i].0;
    EquipmentReadableIff(records);
    RecipesReadableIff(records, keys);
    if EquipmentOf(records).Some? { KeysAreIds(records); }
  }

  /** The ids that recipes may name are the keys of the records. */
  lemma KeysAreIds(records: seq<(string, EquipmentRecord)>)
    requires EquipmentOf(records).Some?
    ensures EquipmentIds(EquipmentOf(records).value) == set i | 0 <= i < |records| :: records[i].0
  {
    GearFollowsRecords(records);
    hide ReadEquipment, EquipmentOf;
    var e := EquipmentOf(records).value;
    assert forall i :: 0 <= i < |records| ==> e[i].externalId == records[i].0;
  }

  lemma HasBases(p: Payloads)
    ensures TraitsOf(p.race.data, p.job.data, p.tiers.data).Some? ==> Bases(p.race.data, p.job.data).Some?
  {
  }

  lemma {:induction false} HeroesFollowRecords(records: seq<(string, HeroRecord)>, bases: seq<BaseTrait>)
    requires HeroesOf(records, bases).Some?
    ensures |HeroesOf(records, bases).value.heroes| == |records|
    ensures forall i :: 0 <= i < |records| ==>
              ReadHero(records[i].0, records[i].1, bases).Some?
              && ReadHero(records[i].0, records[i].1, bases).value.hero == HeroesOf(records, bases).value.heroes[i]
  {
    hide ReadHero;
    if records != [] { HeroesFollowRecords(records[..|records| - 1], bases); }
  }

  lemma {:induction false} GearFollowsRecords(records: seq<(string, EquipmentRecord)>)
    requires EquipmentOf(records).Some?
    ensures |EquipmentOf(records).value| == |records|
    ensures forall i :: 0 <= i < |records| ==> ReadEquipment(records[i].0, records[i].1) == Some(EquipmentOf(records).value[i])
  {
    hide ReadEquipment;
    if records != [] { GearFollowsRecords(records[..|records| - 1]); }
  }
}
