/** Publication safety: what is published stays as it was imported, whatever runs later. */
module Publication {
  import opened Common
  import opened RawData
  import opened JccTables
  import opened Structured
  import opened Rows
  import opened JccStore
  import opened JccDatabase

  // ---- The rows of a published snapshot --------------------------------------------------

  lemma HeroesAfter(rows: seq<HeroRow>, n: nat, heroes: seq<HeroData>, sid: nat)
    requires sid <= n && forall k :: 0 <= k < |rows| ==> rows[k].snapshotId < n
    ensures Select(rows + HeroRows(n, heroes), HeroKeys(rows + HeroRows(n, heroes)), sid)
            == if sid == n then HeroRows(n, heroes) else Select(rows, HeroKeys(rows), sid)
  {
    var more := HeroRows(n, heroes);
    assert HeroKeys(rows + more) == HeroKeys(rows) + HeroKeys(more);
    SelectAppended(rows, HeroKeys(rows), more, HeroKeys(more), sid, sid == n);
  }

  lemma TraitsAfter(rows: seq<TraitRow>, n: nat, traits: seq<TraitData>, sid: nat)
    requires sid <= n && forall k :: 0 <= k < |rows| ==> rows[k].snapshotId < n
    ensures Select(rows + TraitRows(n, traits), TraitKeys(rows + TraitRows(n, traits)), sid)
            == if sid == n then TraitRows(n, traits) else Select(rows, TraitKeys(rows), sid)
  {
    var more := TraitRows(n, traits);
    assert TraitKeys(rows + more) == TraitKeys(rows) + TraitKeys(more);
    SelectAppended(rows, TraitKeys(rows), more, TraitKeys(more), sid, sid == n);
  }

  lemma RelationsAfter(rows: seq<HeroTraitRow>, n: nat, at: Offsets, s: StructuredSnapshot, sid: nat)
    requires sid <= n && forall k :: 0 <= k < |rows| ==> rows[k].snapshotId < n
    ensures Select(rows + RelationRows(n, at, s, s.relations), RelationKeys(rows + RelationRows(n, at, s, s.relations)), sid)
            == if sid == n then RelationRows(n, at, s, s.relations) else Select(rows, RelationKeys(rows), sid)
  {
    var more := RelationRows(n, at, s, s.relations);
    assert RelationKeys(rows + more) == RelationKeys(rows) + RelationKeys(more);
    SelectAppended(rows, RelationKeys(rows), more, RelationKeys(more), sid, sid == n);
  }

  lemma EquipmentAfter(rows: seq<EquipmentRow>, n: nat, equipment: seq<EquipmentData>, sid: nat)
    requires sid <= n && forall k :: 0 <= k < |rows| ==> rows[k].snapshotId < n
    ensures Select(rows + EquipmentRows(n, equipment), EquipmentKeys(rows + EquipmentRows(n, equipment)), sid)
            == if sid == n then EquipmentRows(n, equipment) else Select(rows, EquipmentKeys(rows), sid)
  {
    var more := EquipmentRows(n, equipment);
    assert EquipmentKeys(rows + more) == EquipmentKeys(rows) + EquipmentKeys(more);
    SelectAppended(rows, EquipmentKeys(rows), more, EquipmentKeys(more), sid, sid == n);
  }

  lemma RecipesAfter(rows: seq<RecipeRow>, n: nat, first: nat, s: StructuredSnapshot, sid: nat)
    requires sid <= n && forall k :: 0 <= k < |rows| ==> rows[k].snapshotId < n
    ensures Select(rows + RecipeRows(n, first, s.equipment, s.recipes), RecipeKeys(rows + RecipeRows(n, first, s.equipment, s.recipes)), sid)
            == if sid == n then RecipeRows(n, first, s.equipment, s.recipes) else Select(rows, RecipeKeys(rows), sid)
  {
    var more := RecipeRows(n, first, s.equipment, s.recipes);
    assert RecipeKeys(rows + more) == RecipeKeys(rows) + RecipeKeys(more);
    SelectAppended(rows, RecipeKeys(rows), more, RecipeKeys(more), sid, sid == n);
  }

  lemma EntitiesAfter(rows: seq<EntityRow>, n: nat, entities: seq<EntityData>, sid: nat)
    requires sid <= n && forall k :: 0 <= k < |rows| ==> rows[k].snapshotId < n
    ensures Select(rows + EntityRows(n, entities), EntityKeys(rows + EntityRows(n, entities)), sid)
            == if sid == n then EntityRows(n, entities) else Select(rows, EntityKeys(rows), sid)
  {
    var more := EntityRows(n, entities);
    assert EntityKeys(rows + more) == EntityKeys(rows) + EntityKeys(more);
    SelectAppended(rows, EntityKeys(rows), more, EntityKeys(more), sid, sid == n);
  }

  lemma NewTierKeys(table: seq<TraitRow>, n: nat, traits: seq<TraitData>)
    ensures var more := TierRows(|table|, traits); var keys := TierKeys(more, table + TraitRows(n, traits));
            forall k :: 0 <= k < |more| ==> keys[k] == Some(n)
  {
    TierRowsBelong(|table|, traits);
    var after, more := table + TraitRows(n, traits), TierRows(|table|, traits);
    forall k | 0 <= k < |more| ensures TierKeys(more, after)[k] == Some(n) {
      assert after[more[k].traitId] == RowOfTrait(n, traits[more[k].traitId - |table|].base);
    }
  }

  lemma TierKeysSplit(rows: seq<TierRow>, more: seq<TierRow>, table: seq<TraitRow>, added: seq<TraitRow>)
    requires forall k :: 0 <= k < |rows| ==> rows[k].traitId < |table|
    ensures TierKeys(rows + more, table + added) == TierKeys(rows, table) + TierKeys(more, table + added)
    ensures forall k :: 0 <= k < |rows| ==> TierKeys(rows, table)[k] == Some(table[rows[k].traitId].snapshotId)
  {
  }

  lemma TiersAfter(rows: seq<TierRow>, table: seq<TraitRow>, n: nat, traits: seq<TraitData>, sid: nat)
    requires sid <= n && forall k :: 0 <= k < |table| ==> table[k].snapshotId < n
    requires forall k :: 0 <= k < |rows| ==> rows[k].traitId < |table|
    ensures var more := TierRows(|table|, traits);
            Select(rows + more, TierKeys(rows + more, table + TraitRows(n, traits)), Some(sid))
            == if sid == n then more else Select(rows, TierKeys(rows, table), Some(sid))
  {
    var after, more := table + TraitRows(n, traits), TierRows(|table|, traits);
    TierKeysSplit(rows, more, table, TraitRows(n, traits));
    NewTierKeys(table, n, traits);
    SelectAppended(rows, TierKeys(rows, table), more, TierKeys(more, after), Some(sid), sid == n);
  }

  /** An import adds exactly the new snapshot's rows, and none to any older snapshot. */
  lemma ContentAfter(t: Tables, s: StructuredSnapshot, sid: nat)
    requires RowsBelong(t) && sid <= |t.snapshots|
    ensures ContentOf(Appended(t, s), sid)
            == if sid == |t.snapshots| then ContentFor(sid, OffsetsOf(t), s) else ContentOf(t, sid)
  {
    var n := |t.snapshots|;
    HeroesAfter(t.heroes, n, s.heroes, sid);
    TraitsAfter(t.traits, n, s.traits, sid);
    TiersAfter(t.tiers, t.traits, n, s.traits, sid);
    RelationsAfter(t.heroTraits, n, OffsetsOf(t), s, sid);
    EquipmentAfter(t.equipment, n, s.equipment, sid);
    RecipesAfter(t.recipes, n, |t.equipment|, s, sid);
    EntitiesAfter(t.augments, n, s.augments, sid);
    EntitiesAfter(t.adventures, n, s.adventures, sid);
    EntitiesAfter(t.galaxies, n, s.galaxies, sid);
  }

  /** Where the rows of the sid-th import start. */
  function OffsetsAt(published: seq<StructuredSnapshot>, sid: nat): Offsets
    requires sid <= |published|
  {
    OffsetsOf(Build(published[..sid]))
  }

  lemma {:induction false} BuiltContent(published: seq<StructuredSnapshot>, sid: nat)
    requires sid < |published|
    ensures ContentOf(Build(published), sid) == ContentFor(sid, OffsetsAt(published, sid), published[sid])
  {
    hide ContentOf, ContentFor, RowsBelong;
    var n := |published| - 1;
    var init := published[..n];
    RowsBelongToBuilt(init);
    ContentAfter(Build(init), published[n], sid);
    assert Build(published) == Appended(Build(init), published[n]);
    assert init[..sid] == published[..sid];
    if sid < n {
      BuiltContent(init, sid);
      assert OffsetsAt(init, sid) == OffsetsAt(published, sid) && init[sid] == published[sid];
    } else {
      assert OffsetsAt(published, sid) == OffsetsOf(Build(init));
    }
  }

  /** In every state, the rows of a published snapshot are exactly those of the data imported as it. */
  lemma PublishedContent(t: Tables, published: seq<StructuredSnapshot>, sid: nat)
    requires DatabaseOk(t, published) && sid < |published|
    ensures |t.snapshots| == |published| && t.snapshots[sid] == published[sid].metadata
    ensures ContentOf(t, sid) == ContentFor(sid, OffsetsAt(published, sid), published[sid])
  {
    RowsBelongToBuilt(published);
    BuiltContent(published, sid);
    var bare := t.(current := map[]);
    assert bare.snapshots == t.snapshots && ContentOf(bare, sid) == ContentOf(t, sid);
  }

  /** The current pointer of a mode names a snapshot of that mode, whose rows are its import's. */
  lemma PointerNamesPublished(t: Tables, published: seq<StructuredSnapshot>, mode: string)
    requires DatabaseOk(t, published) && mode in t.current
    ensures var sid := t.current[mode];
            && sid < |published| && CurrentSnapshot(t, mode) == Some(sid) && published[sid].metadata.mode == mode
            && ContentOf(t, sid) == ContentFor(sid, OffsetsAt(published, sid), published[sid])
  {
    RowsBelongToBuilt(published);
    var bare := t.(current := map[]);
    assert bare.snapshots == t.snapshots;
    PublishedContent(t, published, t.current[mode]);
  }

  // ---- Completeness and importing again --------------------------------------------------

  lemma {:induction false} TierRowsTotal(first: nat, traits: seq<TraitData>)
    ensures |TierRows(first, traits)| == TotalTiers(traits)
  {
    if traits != [] { TierRowsTotal(first, traits[..|traits| - 1]); }
  }

  /** The completeness check compares the incoming data with what was imported. */
  lemma CompleteIff(t: Tables, published: seq<StructuredSnapshot>, sid: nat, s: StructuredSnapshot)
    requires DatabaseOk(t, published) && sid < |published|
    ensures Complete(t, sid, s) <==> ExpectedCounts(s) == ExpectedCounts(published[sid])
  {
    PublishedContent(t, published, sid);
    TierRowsTotal(OffsetsAt(published, sid).traits, published[sid].traits);
  }

  lemma FoundIsUnique(t: Tables, published: seq<StructuredSnapshot>, sid: nat)
    requires DatabaseOk(t, published) && sid < |published|
    ensures FindSame(t.snapshots, published[sid].metadata) == Some(sid)
  {
    PublishedContent(t, published, sid);
    assert SameSnapshot(t.snapshots[sid], published[sid].metadata);
    var other := FindSame(t.snapshots, published[sid].metadata).value;
    assert SameSnapshot(t.snapshots[other], t.snapshots[sid]) && SameSnapshot(t.snapshots[sid], t.snapshots[other]);
  }

  /**
   Importing a published snapshot again writes no rows: it is skipped when its mode already points
   to it, which leaves the whole state unchanged, and otherwise only the pointer moves.
   */
  lemma ImportingAgain(t: Tables, published: seq<StructuredSnapshot>, sid: nat)
    requires DatabaseOk(t, published) && sid < |published|
    ensures var mode := published[sid].metadata.mode;
            Import(t, published[sid])
            == if mode in t.current && t.current[mode] == sid then ImportOutcome(t, Ok((ImportSkipped, sid)))
               else ImportOutcome(PointTo(t, mode, sid), Ok((ImportMatched, sid)))
  {
    FoundIsUnique(t, published, sid);
    CompleteIff(t, published, sid, published[sid]);
  }

  /** After a successful import the mode's pointer names a snapshot with the incoming content hash. */
  lemma SuccessPointsToImported(t: Tables, published: seq<StructuredSnapshot>, s: StructuredSnapshot)
    requires DatabaseOk(t, published) && Import(t, s).result.Ok?
    ensures var after := Import(t, s).after;
            && s.metadata.mode in after.current && after.current[s.metadata.mode] == Import(t, s).result.value.1 < |after.snapshots|
            && SameSnapshot(after.snapshots[after.current[s.metadata.mode]], s.metadata)
  {
    hide Build, AllImportable, DistinctSnapshots, Importable, Complete;
  }

  // ---- Every run of imports and switches -------------------------------------------------

  datatype Operation = DoImport(data: StructuredSnapshot) | DoSwitch(mode: string, sid: nat)

  function Perform(t: Tables, op: Operation): Tables {
    match op
    case DoImport(data) => Import(t, data).after
    case DoSwitch(mode, sid) => Switch(t, mode, sid)
  }

  function PublishedAfter(t: Tables, published: seq<StructuredSnapshot>, op: Operation): seq<StructuredSnapshot> {
    match op
    case DoImport(data) => AfterImport(t, published, data)
    case DoSwitch(_, _) => published
  }

  /** A state of the database together with the imports that made it. */
  datatype History = History(tables: Tables, published: seq<StructuredSnapshot>)

  function PerformAll(h: History, ops: seq<Operation>): History
    decreases |ops|
  {
    if ops == [] then h
    else PerformAll(History(Perform(h.tables, ops[0]), PublishedAfter(h.tables, h.published, ops[0])), ops[1..])
  }

  /** One operation keeps every published snapshot: its row, its context and all its content. */
  lemma OperationKeepsPublished(t: Tables, published: seq<StructuredSnapshot>, op: Operation, sid: nat)
    requires DatabaseOk(t, published) && sid < |published|
    ensures var after := Perform(t, op); var next := PublishedAfter(t, published, op);
            && DatabaseOk(after, next) && published <= next
            && ContentOf(after, sid) == ContentOf(t, sid)
            && sid < |t.snapshots| && sid < |after.snapshots| && after.snapshots[sid] == t.snapshots[sid]
  {
    hide ContentOf, ContentFor, DatabaseOk, Import;
    var after, next := Perform(t, op), PublishedAfter(t, published, op);
    match op {
      case DoImport(data) => ImportKeepsDatabase(t, published, data);
      case DoSwitch(mode, target) => SwitchKeepsDatabase(t, published, mode, target);
    }
    assert published <= next;
    PublishedContent(t, published, sid);
    PublishedContent(after, next, sid);
    assert next[..sid] == published[..sid];
  }

  /**
   No run of imports and switches, failing or not, alters a published snapshot, and what a pinned
   snapshot id resolves to stays the same.
   */
  lemma {:induction false} PublishedNeverChanges(h: History, ops: seq<Operation>, sid: nat)
    requires DatabaseOk(h.tables, h.published) && sid < |h.published|
    ensures var after := PerformAll(h, ops);
            && DatabaseOk(after.tables, after.published) && h.published <= after.published
            && ContentOf(after.tables, sid) == ContentOf(h.tables, sid)
            && sid < |h.tables.snapshots| && sid < |after.tables.snapshots|
            && after.tables.snapshots[sid] == h.tables.snapshots[sid]
    decreases |ops|
  {
    PublishedContent(h.tables, h.published, sid);
    if ops != [] {
      OperationKeepsPublished(h.tables, h.published, ops[0], sid);
      var next := History(Perform(h.tables, ops[0]), PublishedAfter(h.tables, h.published, ops[0]));
      assert sid < |next.published|;
      PublishedNeverChanges(next, ops[1..], sid);
    }
  }
}
