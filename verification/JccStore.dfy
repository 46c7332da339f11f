/** Transactional import of structured snapshots and the current pointer of each mode. */
module JccStore {
  import opened Common
  import opened RawData
  import opened JccTables
  import opened Structured

  // ---- Looking up the ids an import has handed out ---------------------------------------

  function HeroIndex(heroes: seq<HeroData>, id: string): (i: Option<nat>)
    ensures i.Some? ==> i.value < |heroes| && heroes[i.value].externalId == id
    ensures i.None? ==> forall k :: 0 <= k < |heroes| ==> heroes[k].externalId != id
  {
    if heroes == [] then None
    else if heroes[|heroes| - 1].externalId == id then Some(|heroes| - 1)
    else HeroIndex(heroes[..|heroes| - 1], id)
  }

  function TraitIndex(traits: seq<TraitData>, key: TraitKey): (i: Option<nat>)
    ensures i.Some? ==> i.value < |traits| && traits[i.value].base.key == key
    ensures i.None? ==> forall k :: 0 <= k < |traits| ==> traits[k].base.key != key
  {
    if traits == [] then None
    else if traits[|traits| - 1].base.key == key then Some(|traits| - 1)
    else TraitIndex(traits[..|traits| - 1], key)
  }

  function EquipmentIndex(equipment: seq<EquipmentData>, id: string): (i: Option<nat>)
    ensures i.Some? ==> i.value < |equipment| && equipment[i.value].externalId == id
    ensures i.None? ==> forall k :: 0 <= k < |equipment| ==> equipment[k].externalId != id
  {
    if equipment == [] then None
    else if equipment[|equipment| - 1].externalId == id then Some(|equipment| - 1)
    else EquipmentIndex(equipment[..|equipment| - 1], id)
  }

  // ---- The rows of a snapshot ------------------------------------------------------------

  function HeroRows(sid: nat, heroes: seq<HeroData>): (rows: seq<HeroRow>)
    ensures |rows| == |heroes|
  {
    seq(|heroes|, i requires 0 <= i < |heroes| => HeroRow(sid, heroes[i].externalId, heroes[i].name))
  }

  function TraitRows(sid: nat, traits: seq<TraitData>): (rows: seq<TraitRow>)
    ensures |rows| == |traits|
  {
    seq(|traits|, i requires 0 <= i < |traits| => RowOfTrait(sid, traits[i].base))
  }

  function RowOfTrait(sid: nat, b: BaseTrait): TraitRow {
    TraitRow(sid, b.key.kind, b.key.id, b.name, b.maxLevel, b.activation)
  }

  function RowOfTier(traitId: nat, t: Tier): TierRow {
    TierRow(traitId, t.externalId, t.tierOrder, t.activationCount, t.level, t.description, t.realDescription)
  }

  function TierRowsOf(traitId: nat, tiers: seq<Tier>): (rows: seq<TierRow>)
    ensures |rows| == |tiers|
  {
    seq(|tiers|, i requires 0 <= i < |tiers| => RowOfTier(traitId, tiers[i]))
  }

  function TierRows(first: nat, traits: seq<TraitData>): seq<TierRow> {
    if traits == [] then []
    else
      var n := |traits| - 1;
      TierRows(first, traits[..n]) + TierRowsOf(first + n, traits[n].tiers)
  }

  /** The id of a hero (trait, equipment) of the snapshot, when its rows start at `first`. */
  function HeroId(first: nat, heroes: seq<HeroData>, id: string): nat {
    first + OrElse(HeroIndex(heroes, id), 0)
  }

  function TraitId(first: nat, traits: seq<TraitData>, key: TraitKey): nat {
    first + OrElse(TraitIndex(traits, key), 0)
  }

  function EquipmentId(first: nat, equipment: seq<EquipmentData>, id: string): nat {
    first + OrElse(EquipmentIndex(equipment, id), 0)
  }

  /** Where the rows of a snapshot start in each table. */
  datatype Offsets = Offsets(heroes: nat, traits: nat, equipment: nat)

  function RowOfRelation(sid: nat, at: Offsets, s: StructuredSnapshot, r: Relation): HeroTraitRow {
    HeroTraitRow(sid, HeroId(at.heroes, s.heroes, r.hero), TraitId(at.traits, s.traits, r.key), r.key.kind, r.position)
  }

  function RelationRows(sid: nat, at: Offsets, s: StructuredSnapshot, relations: seq<Relation>): (rows: seq<HeroTraitRow>)
    ensures |rows| == |relations|
  {
    seq(|relations|, i requires 0 <= i < |relations| => RowOfRelation(sid, at, s, relations[i]))
  }

  function EquipmentRows(sid: nat, equipment: seq<EquipmentData>): (rows: seq<EquipmentRow>)
    ensures |rows| == |equipment|
  {
    seq(|equipment|, i requires 0 <= i < |equipment| => EquipmentRow(sid, equipment[i].externalId, equipment[i].name))
  }

  function RowOfRecipe(sid: nat, first: nat, equipment: seq<EquipmentData>, r: RecipeData): RecipeRow {
    RecipeRow(sid, EquipmentId(first, equipment, r.equipment), EquipmentId(first, equipment, r.first),
              EquipmentId(first, equipment, r.second))
  }

  function RecipeRows(sid: nat, first: nat, equipment: seq<EquipmentData>, recipes: seq<RecipeData>): (rows: seq<RecipeRow>)
    ensures |rows| == |recipes|
  {
    seq(|recipes|, i requires 0 <= i < |recipes| => RowOfRecipe(sid, first, equipment, recipes[i]))
  }

  function EntityRows(sid: nat, entities: seq<EntityData>): (rows: seq<EntityRow>)
    ensures |rows| == |entities|
  {
    seq(|entities|, i requires 0 <= i < |entities| => EntityRow(sid, entities[i].externalId, entities[i].name))
  }

  function OffsetsOf(t: Tables): Offsets { Offsets(|t.heroes|, |t.traits|, |t.equipment|) }

  /** All rows of a snapshot appended, the pointers untouched. */
  function Appended(t: Tables, s: StructuredSnapshot): Tables {
    var sid := |t.snapshots|;
    Tables(t.snapshots + [s.metadata], t.current,
           t.heroes + HeroRows(sid, s.heroes), t.traits + TraitRows(sid, s.traits), t.tiers + TierRows(|t.traits|, s.traits),
           t.heroTraits + RelationRows(sid, OffsetsOf(t), s, s.relations),
           t.equipment + EquipmentRows(sid, s.equipment), t.recipes + RecipeRows(sid, |t.equipment|, s.equipment, s.recipes),
           t.augments + EntityRows(sid, s.augments), t.adventures + EntityRows(sid, s.adventures),
           t.galaxies + EntityRows(sid, s.galaxies))
  }

  function PointTo(t: Tables, mode: string, sid: nat): Tables { t.(current := t.current[mode := sid]) }

  // ---- Constraints, over whole tables ----------------------------------------------------

  predicate HeroTaken(rows: seq<HeroRow>, sid: nat, id: string) {
    exists k :: 0 <= k < |rows| && rows[k].snapshotId == sid && rows[k].externalId == id
  }

  predicate TraitTaken(rows: seq<TraitRow>, sid: nat, key: TraitKey) {
    exists k :: 0 <= k < |rows| && rows[k].snapshotId == sid && rows[k].kind == key.kind && rows[k].externalId == key.id
  }

  predicate TierTaken(rows: seq<TierRow>, traitId: nat, t: Tier) {
    exists k :: 0 <= k < |rows| && rows[k].traitId == traitId && (rows[k].tierOrder == t.tierOrder || rows[k].level == t.level)
  }

  predicate RelationTaken(rows: seq<HeroTraitRow>, row: HeroTraitRow) {
    exists k :: 0 <= k < |rows| && rows[k].snapshotId == row.snapshotId && rows[k].heroId == row.heroId && rows[k].traitId == row.traitId
  }

  predicate EquipmentTaken(rows: seq<EquipmentRow>, sid: nat, id: string) {
    exists k :: 0 <= k < |rows| && rows[k].snapshotId == sid && rows[k].externalId == id
  }

  predicate RecipeTaken(rows: seq<RecipeRow>, sid: nat, equipmentId: nat) {
    exists k :: 0 <= k < |rows| && rows[k].snapshotId == sid && rows[k].equipmentId == equipmentId
  }

  predicate EntityTaken(rows: seq<EntityRow>, sid: nat, id: string) {
    exists k :: 0 <= k < |rows| && rows[k].snapshotId == sid && rows[k].externalId == id
  }

  /** Foreign keys: a row names an existing snapshot, a tier an existing trait. */
  predicate RowsBelong(t: Tables) {
    && (forall k :: 0 <= k < |t.heroes| ==> t.heroes[k].snapshotId < |t.snapshots|)
    && (forall k :: 0 <= k < |t.traits| ==> t.traits[k].snapshotId < |t.snapshots|)
    && (forall k :: 0 <= k < |t.tiers| ==> t.tiers[k].traitId < |t.traits|)
    && (forall k :: 0 <= k < |t.heroTraits| ==> t.heroTraits[k].snapshotId < |t.snapshots|)
    && (forall k :: 0 <= k < |t.equipment| ==> t.equipment[k].snapshotId < |t.snapshots|)
    && (forall k :: 0 <= k < |t.recipes| ==> t.recipes[k].snapshotId < |t.snapshots|)
    && (forall k :: 0 <= k < |t.augments| ==> t.augments[k].snapshotId < |t.snapshots|)
    && (forall k :: 0 <= k < |t.adventures| ==> t.adventures[k].snapshotId < |t.snapshots|)
    && (forall k :: 0 <= k < |t.galaxies| ==> t.galaxies[k].snapshotId < |t.snapshots|)
  }

  // ---- The loops of an import ------------------------------------------------------------

  method AddHeroes(table: seq<HeroRow>, sid: nat, heroes: seq<HeroData>)
    returns (ok: bool, after: seq<HeroRow>, ids: map<string, nat>)
    requires forall k :: 0 <= k < |table| ==> table[k].snapshotId < sid
    ensures ok <==> DistinctHeroes(heroes)
    ensures ok ==> after == table + HeroRows(sid, heroes)
    ensures ok ==> forall id :: (id in ids <==> HeroIndex(heroes, id).Some?) && (id in ids ==> ids[id] == HeroId(|table|, heroes, id))
  {
    after, ids := table, map[];
    for i := 0 to |heroes|
      invariant after == table + HeroRows(sid, heroes[..i])
      invariant DistinctHeroes(heroes[..i])
      invariant forall id :: (id in ids <==> HeroIndex(heroes[..i], id).Some?)
                             && (id in ids ==> ids[id] == HeroId(|table|, heroes[..i], id))
    {
      var id := heroes[i].externalId;
      HeroTakenIff(table, sid, heroes[..i], id);
      if HeroTaken(after, sid, id) {
        return false, after, ids;
      }
      ids := ids[id := |after|];
      after := after + [HeroRow(sid, id, heroes[i].name)];
      assert heroes[..i + 1][..i] == heroes[..i];
      assert HeroRows(sid, heroes[..i + 1]) == HeroRows(sid, heroes[..i]) + [HeroRow(sid, id, heroes[i].name)];
    }
    assert heroes[..|heroes|] == heroes;
    ok := true;
  }

  lemma HeroTakenIff(table: seq<HeroRow>, sid: nat, heroes: seq<HeroData>, id: string)
    requires forall k :: 0 <= k < |table| ==> table[k].snapshotId < sid
    ensures HeroTaken(table + HeroRows(sid, heroes), sid, id) <==> exists k :: 0 <= k < |heroes| && heroes[k].externalId == id
  {
    var all := table + HeroRows(sid, heroes);
    if k :| 0 <= k < |heroes| && heroes[k].externalId == id {
      assert all[|table| + k].externalId == id;
    }
    if HeroTaken(all, sid, id) {
      var k :| 0 <= k < |all| && all[k].snapshotId == sid && all[k].externalId == id;
      assert heroes[k - |table|].externalId == id;
    }
  }

  method AddTiers(table: seq<TierRow>, traitId: nat, tiers: seq<Tier>) returns (ok: bool, after: seq<TierRow>)
    requires forall k :: 0 <= k < |table| ==> table[k].traitId < traitId
    ensures ok <==> DistinctLevels(tiers)
    ensures ok ==> after == table + TierRowsOf(traitId, tiers)
  {
    after := table;
    for i := 0 to |tiers|
      invariant after == table + TierRowsOf(traitId, tiers[..i])
      invariant DistinctLevels(tiers[..i])
    {
      TierTakenIff(table, traitId, tiers[..i], tiers[i]);
      if TierTaken(after, traitId, tiers[i]) {
        return false, after;
      }
      after := after + [RowOfTier(traitId, tiers[i])];
      assert tiers[..i + 1] == tiers[..i] + [tiers[i]];
      assert TierRowsOf(traitId, tiers[..i + 1]) == TierRowsOf(traitId, tiers[..i]) + [RowOfTier(traitId, tiers[i])];
    }
    assert tiers[..|tiers|] == tiers;
    ok := true;
  }

  lemma TierTakenIff(table: seq<TierRow>, traitId: nat, tiers: seq<Tier>, t: Tier)
    requires forall k :: 0 <= k < |table| ==> table[k].traitId < traitId
    ensures TierTaken(table + TierRowsOf(traitId, tiers), traitId, t)
            <==> exists k :: 0 <= k < |tiers| && (tiers[k].tierOrder == t.tierOrder || tiers[k].level == t.level)
  {
    var all := table + TierRowsOf(traitId, tiers);
    if k :| 0 <= k < |tiers| && (tiers[k].tierOrder == t.tierOrder || tiers[k].level == t.level) {
      assert all[|table| + k] == RowOfTier(traitId, tiers[k]);
    }
    if TierTaken(all, traitId, t) {
      var k :| 0 <= k < |all| && all[k].traitId == traitId && (all[k].tierOrder == t.tierOrder || all[k].level == t.level);
      assert all[k] == RowOfTier(traitId, tiers[k - |table|]);
    }
  }

  predicate TraitsFit(traits: seq<TraitData>) {
    DistinctTraits(traits) && forall i :: 0 <= i < |traits| ==> DistinctLevels(traits[i].tiers)
  }

  lemma {:induction false} TierRowsBelong(first: nat, traits: seq<TraitData>)
    ensures forall k :: 0 <= k < |TierRows(first, traits)| ==> first <= TierRows(first, traits)[k].traitId < first + |traits|
  {
    if traits != [] { TierRowsBelong(first, traits[..|traits| - 1]); }
  }

  lemma TraitTakenIff(table: seq<TraitRow>, sid: nat, traits: seq<TraitData>, key: TraitKey)
    requires forall k :: 0 <= k < |table| ==> table[k].snapshotId < sid
    ensures TraitTaken(table + TraitRows(sid, traits), sid, key) <==> exists k :: 0 <= k < |traits| && traits[k].base.key == key
  {
    var all := table + TraitRows(sid, traits);
    if k :| 0 <= k < |traits| && traits[k].base.key == key {
      assert all[|table| + k] == RowOfTrait(sid, traits[k].base);
    }
    if TraitTaken(all, sid, key) {
      var k :| 0 <= k < |all| && all[k].snapshotId == sid && all[k].kind == key.kind && all[k].externalId == key.id;
      assert all[k] == RowOfTrait(sid, traits[k - |table|].base);
    }
  }

  ghost predicate TraitIdsOf(ids: map<TraitKey, nat>, first: nat, traits: seq<TraitData>) {
    forall key :: (key in ids <==> TraitIndex(traits, key).Some?) && (key in ids ==> ids[key] == TraitId(first, traits, key))
  }

  lemma OneMoreTraitId(ids: map<TraitKey, nat>, first: nat, traits: seq<TraitData>, i: nat)
    requires i < |traits| && TraitIdsOf(ids, first, traits[..i])
    ensures TraitIdsOf(ids[traits[i].base.key := first + i], first, traits[..i + 1])
  {
    assert traits[..i + 1][..i] == traits[..i];
  }

  method AddTraits(table: seq<TraitRow>, tierTable: seq<TierRow>, sid: nat, traits: seq<TraitData>)
    returns (ok: bool, after: seq<TraitRow>, tiers: seq<TierRow>, ids: map<TraitKey, nat>)
    requires forall k :: 0 <= k < |table| ==> table[k].snapshotId < sid
    requires forall k :: 0 <= k < |tierTable| ==> tierTable[k].traitId < |table|
    ensures ok <==> TraitsFit(traits)
    ensures ok ==> after == table + TraitRows(sid, traits) && tiers == tierTable + TierRows(|table|, traits)
    ensures ok ==> TraitIdsOf(ids, |table|, traits)
  {
    after, tiers, ids := table, tierTable, map[];
    for i := 0 to |traits|
      invariant after == table + TraitRows(sid, traits[..i])
      invariant tiers == tierTable + TierRows(|table|, traits[..i])
      invariant TraitsFit(traits[..i])
      invariant TraitIdsOf(ids, |table|, traits[..i])
    {
      var key := traits[i].base.key;
      TraitTakenIff(table, sid, traits[..i], key);
      if TraitTaken(after, sid, key) {
        return false, after, tiers, ids;
      }
      TierRowsBelong(|table|, traits[..i]);
      OneMoreTraitId(ids, |table|, traits, i);
      assert traits[..i + 1][..i] == traits[..i];
      var id := |after|;
      after := after + [RowOfTrait(sid, traits[i].base)];
      assert TraitRows(sid, traits[..i + 1]) == TraitRows(sid, traits[..i]) + [RowOfTrait(sid, traits[i].base)];
      ids := ids[key := id];
      var fit: bool;
      fit, tiers := AddTiers(tiers, id, traits[i].tiers);
      if !fit {
        return false, after, tiers, ids;
      }
      FitOneMore(traits, i);
    }
    assert traits[..|traits|] == traits;
    ok := true;
  }

  lemma FitOneMore(traits: seq<TraitData>, i: nat)
    requires i < |traits| && TraitsFit(traits[..i]) && DistinctLevels(traits[i].tiers)
    requires !exists k :: 0 <= k < i && traits[..i][k].base.key == traits[i].base.key
    ensures TraitsFit(traits[..i + 1])
  {
    var more := traits[..i + 1];
    forall a, b | 0 <= a < b < |more| ensures more[a].base.key != more[b].base.key {
      assert more[a] == traits[..i][a];
    }
    forall a | 0 <= a < |more| ensures DistinctLevels(more[a].tiers) {
      if a < i { assert more[a] == traits[..i][a]; }
    }
  }

  method AddEquipment(table: seq<EquipmentRow>, sid: nat, equipment: seq<EquipmentData>)
    returns (ok: bool, after: seq<EquipmentRow>, ids: map<string, nat>)
    requires forall k :: 0 <= k < |table| ==> table[k].snapshotId < sid
    ensures ok <==> DistinctEquipment(equipment)
    ensures ok ==> after == table + EquipmentRows(sid, equipment)
    ensures ok ==> forall id :: (id in ids <==> EquipmentIndex(equipment, id).Some?)
                                && (id in ids ==> ids[id] == EquipmentId(|table|, equipment, id))
  {
    after, ids := table, map[];
    for i := 0 to |equipment|
      invariant after == table + EquipmentRows(sid, equipment[..i])
      invariant DistinctEquipment(equipment[..i])
      invariant forall id :: (id in ids <==> EquipmentIndex(equipment[..i], id).Some?)
                             && (id in ids ==> ids[id] == EquipmentId(|table|, equipment[..i], id))
    {
      var id := equipment[i].externalId;
      EquipmentTakenIff(table, sid, equipment[..i], id);
      if EquipmentTaken(after, sid, id) {
        return false, after, ids;
      }
      ids := ids[id := |after|];
      var row := EquipmentRow(sid, id, equipment[i].name);
      after := after + [row];
      assert equipment[..i + 1][..i] == equipment[..i];
      assert EquipmentRows(sid, equipment[..i + 1]) == EquipmentRows(sid, equipment[..i]) + [row];
    }
    assert equipment[..|equipment|] == equipment;
    ok := true;
  }

  lemma EquipmentTakenIff(table: seq<EquipmentRow>, sid: nat, equipment: seq<EquipmentData>, id: string)
    requires forall k :: 0 <= k < |table| ==> table[k].snapshotId < sid
    ensures EquipmentTaken(table + EquipmentRows(sid, equipment), sid, id)
            <==> exists k :: 0 <= k < |equipment| && equipment[k].externalId == id
  {
    var all := table + EquipmentRows(sid, equipment);
    if k :| 0 <= k < |equipment| && equipment[k].externalId == id {
      assert all[|table| + k].externalId == id;
    }
    if EquipmentTaken(all, sid, id) {
      var k :| 0 <= k < |all| && all[k].snapshotId == sid && all[k].externalId == id;
      assert equipment[k - |table|].externalId == id;
    }
  }

  predicate RelationKnown(s: StructuredSnapshot, r: Relation) {
    HeroIndex(s.heroes, r.hero).Some? && TraitIndex(s.traits, r.key).Some?
  }

  predicate RelationsFit(s: StructuredSnapshot, relations: seq<Relation>) {
    DistinctRelations(relations) && forall i :: 0 <= i < |relations| ==> RelationKnown(s, relations[i])
  }

  /** Relation rows coincide on (hero, trait) only when the relations do. */
  lemma RelationTakenIff(table: seq<HeroTraitRow>, sid: nat, at: Offsets, s: StructuredSnapshot, relations: seq<Relation>, r: Relation)
    requires forall k :: 0 <= k < |table| ==> table[k].snapshotId < sid
    requires RelationKnown(s, r) && forall i :: 0 <= i < |relations| ==> RelationKnown(s, relations[i])
    ensures RelationTaken(table + RelationRows(sid, at, s, relations), RowOfRelation(sid, at, s, r))
            <==> exists k :: 0 <= k < |relations| && relations[k].hero == r.hero && relations[k].key == r.key
  {
    hide HeroIndex, TraitIndex;
    var all := table + RelationRows(sid, at, s, relations);
    var row := RowOfRelation(sid, at, s, r);
    if k :| 0 <= k < |relations| && relations[k].hero == r.hero && relations[k].key == r.key {
      assert all[|table| + k] == RowOfRelation(sid, at, s, relations[k]);
      SameRelationIff(sid, at, s, relations[k], r);
    }
    if RelationTaken(all, row) {
      var k :| 0 <= k < |all| && all[k].snapshotId == row.snapshotId && all[k].heroId == row.heroId && all[k].traitId == row.traitId;
      var other := relations[k - |table|];
      assert all[k] == RowOfRelation(sid, at, s, other);
      SameRelationIff(sid, at, s, other, r);
    }
  }

  lemma SameRelationIff(sid: nat, at: Offsets, s: StructuredSnapshot, a: Relation, b: Relation)
    requires RelationKnown(s, a) && RelationKnown(s, b)
    ensures var x, y := RowOfRelation(sid, at, s, a), RowOfRelation(sid, at, s, b);
            x.snapshotId == sid && (x.heroId == y.heroId && x.traitId == y.traitId <==> a.hero == b.hero && a.key == b.key)
  {
    assert HeroIndex(s.heroes, a.hero) == HeroIndex(s.heroes, b.hero) <==> a.hero == b.hero;
    assert TraitIndex(s.traits, a.key) == TraitIndex(s.traits, b.key) <==> a.key == b.key;
  }

  method AddRelations(table: seq<HeroTraitRow>, sid: nat, at: Offsets, s: StructuredSnapshot,
                      heroIds: map<string, nat>, traitIds: map<TraitKey, nat>)
    returns (ok: bool, after: seq<HeroTraitRow>)
    requires forall k :: 0 <= k < |table| ==> table[k].snapshotId < sid
    requires forall id :: (id in heroIds <==> HeroIndex(s.heroes, id).Some?)
                          && (id in heroIds ==> heroIds[id] == HeroId(at.heroes, s.heroes, id))
    requires TraitIdsOf(traitIds, at.traits, s.traits)
    ensures ok <==> RelationsFit(s, s.relations)
    ensures ok ==> after == table + RelationRows(sid, at, s, s.relations)
  {
    after := table;
    for i := 0 to |s.relations|
      invariant after == table + RelationRows(sid, at, s, s.relations[..i])
      invariant RelationsFit(s, s.relations[..i])
    {
      var r := s.relations[i];
      if r.hero !in heroIds || r.key !in traitIds {
        assert !RelationKnown(s, r);
        return false, after;
      }
      var row := HeroTraitRow(sid, heroIds[r.hero], traitIds[r.key], r.key.kind, r.position);
      assert row == RowOfRelation(sid, at, s, r);
      RelationTakenIff(table, sid, at, s, s.relations[..i], r);
      if RelationTaken(after, row) {
        return false, after;
      }
      after := after + [row];
      assert RelationRows(sid, at, s, s.relations[..i + 1]) == RelationRows(sid, at, s, s.relations[..i]) + [row];
      OneMoreRelation(s, i);
    }
    assert s.relations[..|s.relations|] == s.relations;
    ok := true;
  }

  lemma OneMoreRelation(s: StructuredSnapshot, i: nat)
    requires i < |s.relations| && RelationsFit(s, s.relations[..i]) && RelationKnown(s, s.relations[i])
    requires !exists k :: 0 <= k < i && s.relations[..i][k].hero == s.relations[i].hero && s.relations[..i][k].key == s.relations[i].key
    ensures RelationsFit(s, s.relations[..i + 1])
  {
    var more := s.relations[..i + 1];
    forall a, b | 0 <= a < b < |more| ensures more[a].hero != more[b].hero || more[a].key != more[b].key {
      assert more[a] == s.relations[..i][a];
      if b < i { assert more[b] == s.relations[..i][b]; }
    }
    forall a | 0 <= a < |more| ensures RelationKnown(s, more[a]) {
      if a < i { assert more[a] == s.relations[..i][a]; }
    }
  }

  predicate RecipeKnown(equipment: seq<EquipmentData>, r: RecipeData) {
    EquipmentIndex(equipment, r.equipment).Some? && EquipmentIndex(equipment, r.first).Some?
    && EquipmentIndex(equipment, r.second).Some?
  }

  predicate RecipesFit(equipment: seq<EquipmentData>, recipes: seq<RecipeData>) {
    DistinctRecipes(recipes) && forall i :: 0 <= i < |recipes| ==> RecipeKnown(equipment, recipes[i])
  }

  lemma SameEquipmentId(first: nat, equipment: seq<EquipmentData>, a: string, b: string)
    requires EquipmentIndex(equipment, a).Some? && EquipmentIndex(equipment, b).Some?
    requires EquipmentId(first, equipment, a) == EquipmentId(first, equipment, b)
    ensures a == b
  {
  }

  lemma RecipeTakenIff(table: seq<RecipeRow>, sid: nat, first: nat, equipment: seq<EquipmentData>, recipes: seq<RecipeData>, r: RecipeData)
    requires forall k :: 0 <= k < |table| ==> table[k].snapshotId < sid
    requires RecipeKnown(equipment, r) && forall i :: 0 <= i < |recipes| ==> RecipeKnown(equipment, recipes[i])
    ensures RecipeTaken(table + RecipeRows(sid, first, equipment, recipes), sid, EquipmentId(first, equipment, r.equipment))
            <==> exists k :: 0 <= k < |recipes| && recipes[k].equipment == r.equipment
  {
    var all := table + RecipeRows(sid, first, equipment, recipes);
    var id := EquipmentId(first, equipment, r.equipment);
    if k :| 0 <= k < |recipes| && recipes[k].equipment == r.equipment {
      assert all[|table| + k] == RowOfRecipe(sid, first, equipment, recipes[k]);
    }
    if RecipeTaken(all, sid, id) {
      var k :| 0 <= k < |all| && all[k].snapshotId == sid && all[k].equipmentId == id;
      assert k >= |table|;
      assert all[k] == RowOfRecipe(sid, first, equipment, recipes[k - |table|]);
      assert RecipeKnown(equipment, recipes[k - |table|]);
      SameEquipmentId(first, equipment, recipes[k - |table|].equipment, r.equipment);
    }
  }

  method AddRecipes(table: seq<RecipeRow>, sid: nat, first: nat, equipment: seq<EquipmentData>, recipes: seq<RecipeData>,
                    ids: map<string, nat>)
    returns (ok: bool, after: seq<RecipeRow>)
    requires forall k :: 0 <= k < |table| ==> table[k].snapshotId < sid
    requires forall id :: (id in ids <==> EquipmentIndex(equipment, id).Some?)
                          && (id in ids ==> ids[id] == EquipmentId(first, equipment, id))
    ensures ok <==> RecipesFit(equipment, recipes)
    ensures ok ==> after == table + RecipeRows(sid, first, equipment, recipes)
  {
    after := table;
    for i := 0 to |recipes|
      invariant after == table + RecipeRows(sid, first, equipment, recipes[..i])
      invariant RecipesFit(equipment, recipes[..i])
    {
      var r := recipes[i];
      if r.equipment !in ids || r.first !in ids || r.second !in ids {
        assert !RecipeKnown(equipment, r);
        return false, after;
      }
      var row := RecipeRow(sid, ids[r.equipment], ids[r.first], ids[r.second]);
      assert row == RowOfRecipe(sid, first, equipment, r);
      RecipeTakenIff(table, sid, first, equipment, recipes[..i], r);
      if RecipeTaken(after, sid, row.equipmentId) {
        return false, after;
      }
      after := after + [row];
      assert RecipeRows(sid, first, equipment, recipes[..i + 1]) == RecipeRows(sid, first, equipment, recipes[..i]) + [row];
      OneMoreRecipe(equipment, recipes, i);
    }
    assert recipes[..|recipes|] == recipes;
    ok := true;
  }

  lemma OneMoreRecipe(equipment: seq<EquipmentData>, recipes: seq<RecipeData>, i: nat)
    requires i < |recipes| && RecipesFit(equipment, recipes[..i]) && RecipeKnown(equipment, recipes[i])
    requires !exists k :: 0 <= k < i && recipes[..i][k].equipment == recipes[i].equipment
    ensures RecipesFit(equipment, recipes[..i + 1])
  {
    var more := recipes[..i + 1];
    forall a, b | 0 <= a < b < |more| ensures more[a].equipment != more[b].equipment {
      assert more[a] == recipes[..i][a];
      if b < i { assert more[b] == recipes[..i][b]; }
    }
    forall a | 0 <= a < |more| ensures RecipeKnown(equipment, more[a]) {
      if a < i { assert more[a] == recipes[..i][a]; }
    }
  }

  /** The inserts into the augment, adventure or galaxy table. */
  method AddEntities(table: seq<EntityRow>, sid: nat, entities: seq<EntityData>) returns (ok: bool, after: seq<EntityRow>)
    requires forall k :: 0 <= k < |table| ==> table[k].snapshotId < sid
    ensures ok <==> DistinctEntities(entities)
    ensures ok ==> after == table + EntityRows(sid, entities)
  {
    after := table;
    for i := 0 to |entities|
      invariant after == table + EntityRows(sid, entities[..i])
      invariant DistinctEntities(entities[..i])
    {
      var id := entities[i].externalId;
      EntityTakenIff(table, sid, entities[..i], id);
      if EntityTaken(after, sid, id) {
        return false, after;
      }
      var row := EntityRow(sid, id, entities[i].name);
      after := after + [row];
      assert forall k :: 0 <= k < i ==> entities[..i][k] == entities[k] == entities[..i + 1][k];
      assert EntityRows(sid, entities[..i + 1]) == EntityRows(sid, entities[..i]) + [row];
    }
    assert entities[..|entities|] == entities;
    ok := true;
  }

  lemma EntityTakenIff(table: seq<EntityRow>, sid: nat, entities: seq<EntityData>, id: string)
    requires forall k :: 0 <= k < |table| ==> table[k].snapshotId < sid
    ensures EntityTaken(table + EntityRows(sid, entities), sid, id)
            <==> exists k :: 0 <= k < |entities| && entities[k].externalId == id
  {
    var all := table + EntityRows(sid, entities);
    if k :| 0 <= k < |entities| && entities[k].externalId == id {
      assert all[|table| + k].externalId == id;
    }
    if EntityTaken(all, sid, id) {
      var k :| 0 <= k < |all| && all[k].snapshotId == sid && all[k].externalId == id;
      assert entities[k - |table|].externalId == id;
    }
  }

  /** The loops of the import succeed exactly on importable snapshots. */
  lemma LoopsAcceptImportable(s: StructuredSnapshot)
    ensures Importable(s) <==>
              Storable(s) && DistinctHeroes(s.heroes) && TraitsFit(s.traits) && RelationsFit(s, s.relations)
              && DistinctEquipment(s.equipment) && RecipesFit(s.equipment, s.recipes)
              && DistinctEntities(s.augments) && DistinctEntities(s.adventures) && DistinctEntities(s.galaxies)
  {
    hide Storable;
    forall id ensures HasHero(s, id) <==> HeroIndex(s.heroes, id).Some? {}
    forall key ensures HasTrait(s, key) <==> TraitIndex(s.traits, key).Some? {}
    forall id ensures HasEquipment(s, id) <==> EquipmentIndex(s.equipment, id).Some? {}
    if RelationsFit(s, s.relations) {
      forall r | r in s.relations ensures RelationKnown(s, r) {}
    }
    if forall r :: r in s.relations ==> HasHero(s, r.hero) && HasTrait(s, r.key) {
      forall i | 0 <= i < |s.relations| ensures RelationKnown(s, s.relations[i]) {
        assert s.relations[i] in s.relations;
      }
    }
    if RecipesFit(s.equipment, s.recipes) {
      forall r | r in s.recipes ensures RecipeKnown(s.equipment, r) {}
    }
    if forall r :: r in s.recipes ==> HasEquipment(s, r.equipment) && HasEquipment(s, r.first) && HasEquipment(s, r.second) {
      forall i | 0 <= i < |s.recipes| ensures RecipeKnown(s.equipment, s.recipes[i]) {
        assert s.recipes[i] in s.recipes;
      }
    }
  }
}
