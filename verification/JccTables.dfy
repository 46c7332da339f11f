/**
 Tables of the structured snapshot store.

 A table is a sequence of rows and a row's primary key is its index: rows are only ever
 appended, and an aborted transaction takes its rows away again.
 */
module JccTables {
  import opened Common
  import opened RawData

  datatype Kind = Race | Job

  datatype SnapshotRow = SnapshotRow(
    mode: string, season: string, version: string, revision: nat, rawDirectoryName: string, contentHash: ContentHash)

  datatype HeroRow = HeroRow(snapshotId: nat, externalId: string, name: string)
  datatype TraitRow = TraitRow(
    snapshotId: nat, kind: Kind, externalId: string, name: string, maxLevel: Option<int>, activation: seq<int>)
  datatype TierRow = TierRow(
    traitId: nat, externalId: string, tierOrder: int, activationCount: int, level: int,
    description: Option<string>, realDescription: Option<string>)
  datatype HeroTraitRow = HeroTraitRow(snapshotId: nat, heroId: nat, traitId: nat, kind: Kind, position: nat)
  datatype EquipmentRow = EquipmentRow(snapshotId: nat, externalId: string, name: string)
  datatype RecipeRow = RecipeRow(snapshotId: nat, equipmentId: nat, firstId: nat, secondId: nat)

  /** A row of the augment, adventure or galaxy table. */
  datatype EntityRow = EntityRow(snapshotId: nat, externalId: string, name: string)

  datatype Tables = Tables(
    snapshots: seq<SnapshotRow>, current: map<string, nat>,
    heroes: seq<HeroRow>, traits: seq<TraitRow>, tiers: seq<TierRow>, heroTraits: seq<HeroTraitRow>,
    equipment: seq<EquipmentRow>, recipes: seq<RecipeRow>,
    augments: seq<EntityRow>, adventures: seq<EntityRow>, galaxies: seq<EntityRow>)

  const NO_TABLES := Tables([], map[], [], [], [], [], [], [], [], [], [])

  /** The immutable description of a snapshot that an agent run is pinned to. */
  datatype SnapshotContext = SnapshotContext(
    snapshotId: nat, mode: string, season: string, version: string, revision: nat, contentHash: ContentHash)

  function FindSnapshot(jcc: Tables, mode: string, id: nat): Option<nat> {
    if id < |jcc.snapshots| && jcc.snapshots[id].mode == mode then Some(id) else None
  }

  function CurrentSnapshot(jcc: Tables, mode: string): Option<nat> {
    if mode in jcc.current && jcc.current[mode] < |jcc.snapshots| then Some(jcc.current[mode]) else None
  }

  function ContextOf(jcc: Tables, id: Option<nat>): Option<SnapshotContext>
    requires id.Some? ==> id.value < |jcc.snapshots|
  {
    if id.None? then None
    else
      var s := jcc.snapshots[id.value];
      Some(SnapshotContext(id.value, s.mode, s.season, s.version, s.revision, s.contentHash))
  }
}
