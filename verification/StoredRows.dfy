/** The columns of the stored rows of a published snapshot, compared with the data that was imported. */
module StoredRows {
  import opened Common
  import opened RawData
  import opened JccTables
  import opened Structured
  import opened Rows
  import opened JccStore
  import opened JccDatabase
  import opened Publication
  import opened Loaders
  import opened TierLoader

  lemma {:induction false} HeroSlot(published: seq<StructuredSnapshot>, sid: nat, i: nat)
    requires sid < |published| && i < |published[sid].heroes|
    ensures var id := OffsetsAt(published, sid).heroes + i; var h := published[sid].heroes[i];
            id < |Build(published).heroes| && Build(published).heroes[id] == HeroRow(sid, h.externalId, h.name)
  {
    hide RowsBelong;
    var n := |published| - 1;
    var init := published[..n];
    RowsBelongToBuilt(init);
    assert init[..sid] == published[..sid];
    assert Build(published).heroes == Build(init).heroes + HeroRows(n, published[n].heroes);
    if sid < n {
      HeroSlot(init, sid, i);
      assert OffsetsAt(init, sid) == OffsetsAt(published, sid);
    }
  }

  /** A hero of the snapshot stands at this id, with these columns. */
  predicate HeroStands(t: Tables, id: nat, sid: nat, h: HeroData) {
    id < |t.heroes| && t.heroes[id].snapshotId == sid && t.heroes[id].externalId == h.externalId && t.heroes[id].name == h.name
  }

  predicate TraitStands(t: Tables, id: nat, sid: nat, b: BaseTrait) {
    && id < |t.traits|
    && var row := t.traits[id];
       && row.snapshotId == sid && row.kind == b.key.kind && row.externalId == b.key.id && row.name == b.name
       && row.maxLevel == b.maxLevel && row.activation == b.activation
  }

  predicate GearStands(t: Tables, id: nat, sid: nat, e: EquipmentData) {
    && id < |t.equipment| && t.equipment[id].snapshotId == sid
    && t.equipment[id].externalId == e.externalId && t.equipment[id].name == e.name
  }

  /** Heroes, traits and equipment of a published snapshot stand in its order from its offsets on. */
  lemma EntitiesStand(t: Tables, published: seq<StructuredSnapshot>, sid: nat)
    requires DatabaseOk(t, published) && sid < |published|
    ensures var at := OffsetsAt(published, sid); var s := published[sid];
            && (forall i :: 0 <= i < |s.heroes| ==> HeroStands(t, at.heroes + i, sid, s.heroes[i]))
            && (forall j :: 0 <= j < |s.traits| ==> TraitStands(t, at.traits + j, sid, s.traits[j].base))
            && (forall j :: 0 <= j < |s.equipment| ==> GearStands(t, at.equipment + j, sid, s.equipment[j]))
  {
    hide DistinctSnapshots, AllImportable, PointsWell, Build, OffsetsAt;
    var at, s := OffsetsAt(published, sid), published[sid];
    SameTables(t, published);
    forall i | 0 <= i < |s.heroes| ensures HeroStands(t, at.heroes + i, sid, s.heroes[i]) { HeroSlot(published, sid, i); }
    forall j | 0 <= j < |s.traits| ensures TraitStands(t, at.traits + j, sid, s.traits[j].base) { TraitSlot(published, sid, j); }
    forall j | 0 <= j < |s.equipment| ensures GearStands(t, at.equipment + j, sid, s.equipment[j]) { EquipmentSlot(published, sid, j); }
  }

  lemma SameTables(t: Tables, published: seq<StructuredSnapshot>)
    requires DatabaseOk(t, published)
    ensures var b := Build(published); t.heroes == b.heroes && t.traits == b.traits && t.equipment == b.equipment
  {
    var bare := t.(current := map[]);
    assert bare.heroes == t.heroes && bare.traits == t.traits && bare.equipment == t.equipment;
  }

  /** A relation row links the stored hero and the stored trait that the relation names, with its kind and position. */
  predicate Links(t: Tables, row: HeroTraitRow, sid: nat, r: Relation) {
    && row.snapshotId == sid && row.kind == r.key.kind && row.position == r.position
    && row.heroId < |t.heroes| && t.heroes[row.heroId].snapshotId == sid && t.heroes[row.heroId].externalId == r.hero
    && row.traitId < |t.traits| && t.traits[row.traitId].snapshotId == sid
    && t.traits[row.traitId].kind == r.key.kind && t.traits[row.traitId].externalId == r.key.id
  }

  predicate GearNamed(t: Tables, id: nat, sid: nat, name: string) {
    id < |t.equipment| && t.equipment[id].snapshotId == sid && t.equipment[id].externalId == name
  }

  /** A recipe row joins the stored pieces of equipment that the recipe names. */
  predicate Joins(t: Tables, row: RecipeRow, sid: nat, r: RecipeData) {
    && row.snapshotId == sid && GearNamed(t, row.equipmentId, sid, r.equipment)
    && GearNamed(t, row.firstId, sid, r.first) && GearNamed(t, row.secondId, sid, r.second)
  }

  /** The relation and recipe rows of a published snapshot are those of its relations and recipes, one by one. */
  lemma LinksStand(t: Tables, published: seq<StructuredSnapshot>, sid: nat)
    requires DatabaseOk(t, published) && sid < |published|
    ensures var s := published[sid]; var c := ContentOf(t, sid);
            && |c.relations| == |s.relations| && (forall k :: 0 <= k < |s.relations| ==> Links(t, c.relations[k], sid, s.relations[k]))
            && |c.recipes| == |s.recipes| && (forall k :: 0 <= k < |s.recipes| ==> Joins(t, c.recipes[k], sid, s.recipes[k]))
  {
    hide DatabaseOk, OffsetsAt, ContentOf;
    var at, s := OffsetsAt(published, sid), published[sid];
    EntitiesStand(t, published, sid);
    PublishedIsStored(t, published, sid);
    var c := ContentOf(t, sid);
    forall k | 0 <= k < |s.relations| ensures Links(t, c.relations[k], sid, s.relations[k]) {
      var r := s.relations[k];
      assert RelationKnown(s, r);
      var i, j := HeroIndex(s.heroes, r.hero).value, TraitIndex(s.traits, r.key).value;
      assert HeroStands(t, at.heroes + i, sid, s.heroes[i]) && TraitStands(t, at.traits + j, sid, s.traits[j].base);
    }
    forall k | 0 <= k < |s.recipes| ensures Joins(t, c.recipes[k], sid, s.recipes[k]) {
      var r := s.recipes[k];
      assert RecipeKnown(s.equipment, r);
      GearIsNamed(t, at, s, sid, r.equipment);
      GearIsNamed(t, at, s, sid, r.first);
      GearIsNamed(t, at, s, sid, r.second);
    }
  }

  lemma GearIsNamed(t: Tables, at: Offsets, s: StructuredSnapshot, sid: nat, name: string)
    requires forall j :: 0 <= j < |s.equipment| ==> GearStands(t, at.equipment + j, sid, s.equipment[j])
    requires EquipmentIndex(s.equipment, name).Some?
    ensures GearNamed(t, EquipmentId(at.equipment, s.equipment, name), sid, name)
  {
    var j := EquipmentIndex(s.equipment, name).value;
    assert GearStands(t, at.equipment + j, sid, s.equipment[j]);
  }

  predicate EntitiesMatch(rows: seq<EntityRow>, sid: nat, entities: seq<EntityData>) {
    |rows| == |entities|
    && forall i :: 0 <= i < |rows| ==>
         rows[i].snapshotId == sid && rows[i].externalId == entities[i].externalId && rows[i].name == entities[i].name
  }

  /** The augment, adventure and galaxy rows of a published snapshot are those of its lists, one by one. */
  lemma ListsStand(t: Tables, published: seq<StructuredSnapshot>, sid: nat)
    requires DatabaseOk(t, published) && sid < |published|
    ensures var s := published[sid]; var c := ContentOf(t, sid);
            && EntitiesMatch(c.augments, sid, s.augments) && EntitiesMatch(c.adventures, sid, s.adventures)
            && EntitiesMatch(c.galaxies, sid, s.galaxies)
  {
    hide DatabaseOk, OffsetsAt, ContentOf;
    PublishedContent(t, published, sid);
  }

  /** A tier row carries its tier's columns. */
  lemma TierRowReads(traitId: nat, tiers: seq<Tier>, k: nat)
    requires k < |tiers|
    ensures |TierRowsOf(traitId, tiers)| == |tiers|
    ensures var row := TierRowsOf(traitId, tiers)[k];
            && row.traitId == traitId && row.externalId == tiers[k].externalId && row.tierOrder == tiers[k].tierOrder
            && row.activationCount == tiers[k].activationCount && row.level == tiers[k].level
            && row.description == tiers[k].description && row.realDescription == tiers[k].realDescription
  {
  }

  // ---- How an import ends ----------------------------------------------------------------

  /** A stored snapshot of the same mode, season, version and content. */
  predicate SameContentRow(t: Tables, m: SnapshotRow, sid: nat) {
    && sid < |t.snapshots| && t.snapshots[sid].mode == m.mode && t.snapshots[sid].season == m.season
    && t.snapshots[sid].version == m.version && t.snapshots[sid].contentHash == m.contentHash
  }

  predicate SameNumberRow(t: Tables, m: SnapshotRow, sid: nat) {
    && sid < |t.snapshots| && t.snapshots[sid].mode == m.mode && t.snapshots[sid].season == m.season
    && t.snapshots[sid].version == m.version && t.snapshots[sid].revision == m.revision
  }

  /** The two snapshots have equally many rows for every table. */
  predicate SameSizes(a: StructuredSnapshot, b: StructuredSnapshot) {
    && |a.heroes| == |b.heroes| && |a.traits| == |b.traits| && TotalTiers(a.traits) == TotalTiers(b.traits)
    && |a.relations| == |b.relations| && |a.equipment| == |b.equipment| && |a.recipes| == |b.recipes|
    && |a.augments| == |b.augments| && |a.adventures| == |b.adventures| && |a.galaxies| == |b.galaxies|
  }

  lemma {:induction false} TiersAddUp(a: seq<TraitData>, b: seq<TraitData>)
    ensures TotalTiers(a + b) == TotalTiers(a) + TotalTiers(b)
    ensures |a| == 1 ==> TotalTiers(a) == |a[0].tiers|
  {
    if |a| == 1 { assert a[..0] == []; }
    if b == [] {
      assert a + b == a;
    } else {
      var n := |b| - 1;
      TiersAddUp(a, b[..n]);
      assert (a + b)[..|a + b| - 1] == a + b[..n];
    }
  }

  /**
   How an import ends and what it leaves, in every case: a snapshot with this content exists, and then
   it is skipped, pointed to or found incomplete; or it is new, and then it is inserted or rejected.
   */
  lemma ImportEnds(t: Tables, published: seq<StructuredSnapshot>, s: StructuredSnapshot)
    requires DatabaseOk(t, published)
    ensures forall sid: nat :: SameContentRow(t, s.metadata, sid) ==>
              sid < |published| && Import(t, s) ==
                (if !SameSizes(s, published[sid]) then ImportOutcome(t, Err(Incomplete))
                 else if s.metadata.mode in t.current && t.current[s.metadata.mode] == sid
                 then ImportOutcome(t, Ok((ImportSkipped, sid)))
                 else ImportOutcome(t.(current := t.current[s.metadata.mode := sid]), Ok((ImportMatched, sid))))
    ensures (forall sid: nat :: !SameContentRow(t, s.metadata, sid)) ==>
              if s.metadata.revision >= 1 && Importable(s) && (forall sid: nat :: !SameNumberRow(t, s.metadata, sid))
              then
                && Import(t, s).result == Ok((ImportUpdated, |t.snapshots|))
                && Import(t, s).after.snapshots == t.snapshots + [s.metadata]
                && Import(t, s).after.current == t.current[s.metadata.mode := |t.snapshots|]
              else Import(t, s) == ImportOutcome(t, Err(Violation))
  {
    hide Importable, Complete, Build, AllImportable;
    var m := s.metadata;
    PublishedCount(t, published);
    var found := FindSame(t.snapshots, m);
    forall sid: nat | SameContentRow(t, m, sid) ensures found == Some(sid) && (Complete(t, sid, s) <==> SameSizes(s, published[sid])) {
      assert SameSnapshot(t.snapshots[sid], m);
      assert found.Some? && SameSnapshot(t.snapshots[found.value], t.snapshots[sid]) && SameSnapshot(t.snapshots[sid], t.snapshots[found.value]);
      CompleteIff(t, published, sid, s);
    }
    if found.Some? { assert SameContentRow(t, m, found.value); }
    assert RevisionTaken(t.snapshots, m) <==> exists sid: nat :: SameNumberRow(t, m, sid) by {
      if k :| 0 <= k < |t.snapshots| && SameRevision(t.snapshots[k], m) { assert SameNumberRow(t, m, k); }
      if sid: nat :| SameNumberRow(t, m, sid) { assert SameRevision(t.snapshots[sid], m); }
    }
  }

  predicate InColumn(n: int) { -2147483648 <= n <= 2147483647 }

  predicate EntityInColumns(e: EntityData) {
    |e.externalId| <= 64 && |e.name| <= 255 && (e.number.None? || InColumn(e.number.value))
  }

  predicate TraitInColumns(t: TraitData) {
    && |t.base.key.id| <= 64 && |t.base.name| <= 255
    && (t.base.maxLevel.None? || InColumn(t.base.maxLevel.value)) && (t.base.mapId.None? || InColumn(t.base.mapId.value))
    && forall tier :: tier in t.tiers ==>
         |tier.externalId| <= 64 && InColumn(tier.tierOrder) && InColumn(tier.activationCount) && InColumn(tier.level)
  }

  /** No value is longer than its column or outside the range of its integer column. */
  ghost predicate InColumns(s: StructuredSnapshot) {
    var m := s.metadata;
    && |m.mode| <= 32 && |m.season| <= 32 && |m.version| <= 64 && |m.rawDirectoryName| <= 160 && InColumn(m.revision)
    && (forall h :: h in s.heroes ==> |h.externalId| <= 64 && |h.name| <= 255 && forall n :: n in h.numbers ==> InColumn(n))
    && (forall t :: t in s.traits ==> TraitInColumns(t))
    && (forall r :: r in s.relations ==> InColumn(r.position))
    && (forall e :: e in s.equipment ==> |e.externalId| <= 64 && |e.name| <= 255)
    && (forall e :: e in s.augments || e in s.adventures || e in s.galaxies ==> EntityInColumns(e))
  }

  lemma TraitFitsIff(t: TraitData)
    ensures TraitFits(t) <==> TraitInColumns(t)
  {
    if TraitFits(t) {
      forall tier | tier in t.tiers ensures TierFits(tier) {
        var i :| 0 <= i < |t.tiers| && t.tiers[i] == tier;
      }
    }
  }

  lemma EntitiesFitIff(es: seq<EntityData>)
    ensures EntitiesFit(es) <==> forall e :: e in es ==> EntityInColumns(e)
  {
    if EntitiesFit(es) {
      forall e | e in es ensures EntityInColumns(e) {
        var i :| 0 <= i < |es| && es[i] == e;
      }
    } else {
      var i :| 0 <= i < |es| && !(NamesFit(es[i].externalId, es[i].name) && FitsOptional(es[i].number));
      assert es[i] in es && !EntityInColumns(es[i]);
    }
  }

  /** The size condition of an import, value by value; a new snapshot that breaks it is rejected whole. */
  lemma SizesDecide(t: Tables, published: seq<StructuredSnapshot>, s: StructuredSnapshot)
    requires DatabaseOk(t, published)
    ensures Storable(s) <==> InColumns(s)
    ensures (forall sid: nat :: !SameContentRow(t, s.metadata, sid)) && !InColumns(s) ==>
              Import(t, s) == ImportOutcome(t, Err(Violation))
  {
    StorableIff(s);
    hide DatabaseOk, Import, Storable, InColumns;
    ImportEnds(t, published, s);
  }

  lemma StorableIff(s: StructuredSnapshot)
    ensures Storable(s) <==> InColumns(s)
  {
    hide TraitFits, TraitInColumns, EntitiesFit, EntityInColumns;
    forall t ensures TraitFits(t) <==> TraitInColumns(t) { TraitFitsIff(t); }
    EntitiesFitIff(s.augments);
    EntitiesFitIff(s.adventures);
    EntitiesFitIff(s.galaxies);
  }

  lemma PublishedCount(t: Tables, published: seq<StructuredSnapshot>)
    requires DatabaseOk(t, published)
    ensures |t.snapshots| == |published|
  {
    RowsBelongToBuilt(published);
    assert t.(current := map[]).snapshots == t.snapshots;
  }

  /** Switching moves one pointer, and only to a snapshot of its mode. */
  lemma SwitchEnds(t: Tables, mode: string, sid: nat)
    ensures Switch(t, mode, sid) ==
            if sid < |t.snapshots| && t.snapshots[sid].mode == mode then t.(current := t.current[mode := sid]) else t
  {
  }
}
