/** The snapshot database: importing, switching, and what no operation ever breaks. */
module JccDatabase {
  import opened Common
  import opened RawData
  import opened JccTables
  import opened Structured
  import opened Rows
  import opened JccStore

  // ---- The rows of one snapshot ----------------------------------------------------------

  function HeroKeys(rows: seq<HeroRow>): seq<nat> { seq(|rows|, i requires 0 <= i < |rows| => rows[i].snapshotId) }

  function TraitKeys(rows: seq<TraitRow>): seq<nat> { seq(|rows|, i requires 0 <= i < |rows| => rows[i].snapshotId) }

  function RelationKeys(rows: seq<HeroTraitRow>): seq<nat> { seq(|rows|, i requires 0 <= i < |rows| => rows[i].snapshotId) }

  function EquipmentKeys(rows: seq<EquipmentRow>): seq<nat> { seq(|rows|, i requires 0 <= i < |rows| => rows[i].snapshotId) }

  function RecipeKeys(rows: seq<RecipeRow>): seq<nat> { seq(|rows|, i requires 0 <= i < |rows| => rows[i].snapshotId) }

  /** A tier reaches its snapshot through its trait. */
  function SnapshotOfTier(traits: seq<TraitRow>, r: TierRow): Option<nat> {
    if r.traitId < |traits| then Some(traits[r.traitId].snapshotId) else None
  }

  function TierKeys(rows: seq<TierRow>, traits: seq<TraitRow>): seq<Option<nat>> {
    seq(|rows|, i requires 0 <= i < |rows| => SnapshotOfTier(traits, rows[i]))
  }

  function EntityKeys(rows: seq<EntityRow>): seq<nat> { seq(|rows|, i requires 0 <= i < |rows| => rows[i].snapshotId) }

  datatype Content = Content(
    heroes: seq<HeroRow>, traits: seq<TraitRow>, tiers: seq<TierRow>, relations: seq<HeroTraitRow>,
    equipment: seq<EquipmentRow>, recipes: seq<RecipeRow>,
    augments: seq<EntityRow>, adventures: seq<EntityRow>, galaxies: seq<EntityRow>)

  /** All rows that belong to one snapshot. */
  function ContentOf(t: Tables, sid: nat): Content {
    Content(Select(t.heroes, HeroKeys(t.heroes), sid), Select(t.traits, TraitKeys(t.traits), sid),
            Select(t.tiers, TierKeys(t.tiers, t.traits), Some(sid)), Select(t.heroTraits, RelationKeys(t.heroTraits), sid),
            Select(t.equipment, EquipmentKeys(t.equipment), sid), Select(t.recipes, RecipeKeys(t.recipes), sid),
            Select(t.augments, EntityKeys(t.augments), sid), Select(t.adventures, EntityKeys(t.adventures), sid),
            Select(t.galaxies, EntityKeys(t.galaxies), sid))
  }

  /** The rows that a snapshot imported as `sid`, with its tables starting at `at`, consists of. */
  function ContentFor(sid: nat, at: Offsets, s: StructuredSnapshot): Content {
    Content(HeroRows(sid, s.heroes), TraitRows(sid, s.traits), TierRows(at.traits, s.traits),
            RelationRows(sid, at, s, s.relations), EquipmentRows(sid, s.equipment),
            RecipeRows(sid, at.equipment, s.equipment, s.recipes),
            EntityRows(sid, s.augments), EntityRows(sid, s.adventures), EntityRows(sid, s.galaxies))
  }

  datatype Counts = Counts(
    heroes: nat, traits: nat, tiers: nat, relations: nat, equipment: nat, recipes: nat,
    augments: nat, adventures: nat, galaxies: nat)

  function CountsOf(c: Content): Counts {
    Counts(|c.heroes|, |c.traits|, |c.tiers|, |c.relations|, |c.equipment|, |c.recipes|,
           |c.augments|, |c.adventures|, |c.galaxies|)
  }

  function TotalTiers(traits: seq<TraitData>): nat {
    if traits == [] then 0 else TotalTiers(traits[..|traits| - 1]) + |traits[|traits| - 1].tiers|
  }

  function ExpectedCounts(s: StructuredSnapshot): Counts {
    Counts(|s.heroes|, |s.traits|, TotalTiers(s.traits), |s.relations|, |s.equipment|, |s.recipes|,
           |s.augments|, |s.adventures|, |s.galaxies|)
  }

  /** `_snapshot_is_complete`. */
  predicate Complete(t: Tables, sid: nat, s: StructuredSnapshot) { CountsOf(ContentOf(t, sid)) == ExpectedCounts(s) }

  // ---- Importing and switching -----------------------------------------------------------

  predicate SameSnapshot(a: SnapshotRow, b: SnapshotRow) {
    a.mode == b.mode && a.season == b.season && a.version == b.version && a.contentHash == b.contentHash
  }

  predicate SameRevision(a: SnapshotRow, b: SnapshotRow) {
    a.mode == b.mode && a.season == b.season && a.version == b.version && a.revision == b.revision
  }

  function FindSame(rows: seq<SnapshotRow>, m: SnapshotRow): (i: Option<nat>)
    ensures i.Some? ==> i.value < |rows| && SameSnapshot(rows[i.value], m)
    ensures i.None? ==> forall k :: 0 <= k < |rows| ==> !SameSnapshot(rows[k], m)
  {
    if rows == [] then None
    else if SameSnapshot(rows[|rows| - 1], m) then Some(|rows| - 1)
    else FindSame(rows[..|rows| - 1], m)
  }

  predicate RevisionTaken(rows: seq<SnapshotRow>, m: SnapshotRow) {
    exists k :: 0 <= k < |rows| && SameRevision(rows[k], m)
  }

  datatype ImportStatus = ImportUpdated | ImportMatched | ImportSkipped

  /** Incomplete: an existing snapshot with other row counts. Violation: a constraint or a lookup failed. */
  datatype ImportError = Incomplete | Violation

  datatype ImportOutcome = ImportOutcome(after: Tables, result: Result<(ImportStatus, nat), ImportError>)

  /** What one import transaction does to the tables. */
  function Import(t: Tables, s: StructuredSnapshot): ImportOutcome {
    var m := s.metadata;
    var existing := FindSame(t.snapshots, m);
    if existing.Some? then
      var sid := existing.value;
      if !Complete(t, sid, s) then ImportOutcome(t, Err(Incomplete))
      else if m.mode in t.current && t.current[m.mode] == sid then ImportOutcome(t, Ok((ImportSkipped, sid)))
      else ImportOutcome(PointTo(t, m.mode, sid), Ok((ImportMatched, sid)))
    else if m.revision < 1 || RevisionTaken(t.snapshots, m) || !Importable(s) then ImportOutcome(t, Err(Violation))
    else ImportOutcome(PointTo(Appended(t, s), m.mode, |t.snapshots|), Ok((ImportUpdated, |t.snapshots|)))
  }

  function Switch(t: Tables, mode: string, sid: nat): Tables {
    if FindSnapshot(t, mode, sid).Some? then PointTo(t, mode, sid) else t
  }

  // ---- Invariant -------------------------------------------------------------------------

  /** The tables that importing these snapshots one after the other leaves, without pointers. */
  function Build(published: seq<StructuredSnapshot>): Tables {
    if published == [] then NO_TABLES else Appended(Build(published[..|published| - 1]), published[|published| - 1])
  }

  /** Each mode's pointer names an existing snapshot of that mode. */
  predicate PointsWell(snapshots: seq<SnapshotRow>, current: map<string, nat>) {
    forall mode :: mode in current ==> current[mode] < |snapshots| && snapshots[current[mode]].mode == mode
  }

  predicate DistinctSnapshots(rows: seq<SnapshotRow>) {
    forall i, j :: 0 <= i < j < |rows| ==> !SameSnapshot(rows[i], rows[j]) && !SameRevision(rows[i], rows[j])
  }

  predicate AllImportable(published: seq<StructuredSnapshot>) {
    forall i :: 0 <= i < |published| ==> Importable(published[i])
  }

  predicate DatabaseOk(t: Tables, published: seq<StructuredSnapshot>) {
    && t.(current := map[]) == Build(published)
    && AllImportable(published)
    && DistinctSnapshots(t.snapshots)
    && PointsWell(t.snapshots, t.current)
  }

  /** The imported snapshots after one more import: a new one is added only when it is stored. */
  function AfterImport(t: Tables, published: seq<StructuredSnapshot>, s: StructuredSnapshot): seq<StructuredSnapshot> {
    var r := Import(t, s).result;
    if r.Ok? && r.value.0 == ImportUpdated then published + [s] else published
  }

  class JccDatabase {
    var tables: Tables
    ghost var published: seq<StructuredSnapshot>

    ghost predicate Valid()
      reads this
    {
      DatabaseOk(tables, published)
    }

    constructor ()
      ensures Valid() && tables == NO_TABLES && published == []
    {
      tables, published := NO_TABLES, [];
    }

    /**
     Inserts all rows of a snapshot, one table after the other; false when any insert or lookup
     fails. The column sizes are checked once, at the start.
     */
    method InsertRows(s: StructuredSnapshot) returns (ok: bool)
      requires RowsBelong(tables)
      modifies this`tables
      ensures ok <==> Importable(s)
      ensures ok ==> tables == Appended(old(tables), s)
    {
      LoopsAcceptImportable(s);
      if !Storable(s) { return false; }
      var sid, at := |tables.snapshots|, OffsetsOf(tables);
      tables := tables.(snapshots := tables.snapshots + [s.metadata]);
      var fit, heroes, heroIds := AddHeroes(tables.heroes, sid, s.heroes);
      if !fit { return false; }
      tables := tables.(heroes := heroes);
      var traitsFit, traits, tiers, traitIds := AddTraits(tables.traits, tables.tiers, sid, s.traits);
      if !traitsFit { return false; }
      tables := tables.(traits := traits, tiers := tiers);
      var relationsFit, relations := AddRelations(tables.heroTraits, sid, at, s, heroIds, traitIds);
      if !relationsFit { return false; }
      tables := tables.(heroTraits := relations);
      var equipmentFit, equipment, equipmentIds := AddEquipment(tables.equipment, sid, s.equipment);
      if !equipmentFit { return false; }
      tables := tables.(equipment := equipment);
      var recipesFit, recipes := AddRecipes(tables.recipes, sid, at.equipment, s.equipment, s.recipes, equipmentIds);
      if !recipesFit { return false; }
      tables := tables.(recipes := recipes);
      var augmentsFit, augments := AddEntities(tables.augments, sid, s.augments);
      if !augmentsFit { return false; }
      tables := tables.(augments := augments);
      var adventuresFit, adventures := AddEntities(tables.adventures, sid, s.adventures);
      if !adventuresFit { return false; }
      tables := tables.(adventures := adventures);
      var galaxiesFit, galaxies := AddEntities(tables.galaxies, sid, s.galaxies);
      if !galaxiesFit { return false; }
      tables := tables.(galaxies := galaxies);
      ok := true;
    }

    /** The body of the import transaction, with its rollback. */
    method RunImport(s: StructuredSnapshot) returns (r: Result<(ImportStatus, nat), ImportError>)
      requires RowsBelong(tables)
      modifies this`tables
      ensures ImportOutcome(tables, r) == Import(old(tables), s)
    {
      var before := tables;
      var m := s.metadata;
      var existing := FindSame(tables.snapshots, m);
      if existing.Some? {
        var sid := existing.value;
        if !Complete(tables, sid, s) {
          return Err(Incomplete);
        }
        if m.mode in tables.current && tables.current[m.mode] == sid {
          return Ok((ImportSkipped, sid));
        }
        tables := PointTo(tables, m.mode, sid);
        return Ok((ImportMatched, sid));
      }
      if m.revision < 1 || RevisionTaken(tables.snapshots, m) {
        return Err(Violation);
      }
      var sid := |tables.snapshots|;
      var inserted := InsertRows(s);
      if !inserted {
        tables := before;
        return Err(Violation);
      }
      tables := PointTo(tables, m.mode, sid);
      r := Ok((ImportUpdated, sid));
    }

    /** `import_snapshot`: all of it happens, or nothing does. */
    method ImportSnapshot(s: StructuredSnapshot) returns (r: Result<(ImportStatus, nat), ImportError>)
      requires Valid()
      modifies this
      ensures Valid()
      ensures ImportOutcome(tables, r) == Import(old(tables), s)
      ensures published == AfterImport(old(tables), old(published), s)
    {
      hide Import;
      RowsBelongToBuilt(published);
      ImportKeepsDatabase(tables, published, s);
      ghost var next := AfterImport(tables, published, s);
      r := RunImport(s);
      published := next;
    }

    /** `switch_current_snapshot`: only to a snapshot of the requested mode. */
    method SwitchCurrentSnapshot(mode: string, sid: nat) returns (ok: bool)
      requires Valid()
      modifies this`tables
      ensures Valid()
      ensures ok <==> FindSnapshot(old(tables), mode, sid).Some?
      ensures tables == Switch(old(tables), mode, sid)
    {
      ok := FindSnapshot(tables, mode, sid).Some?;
      SwitchKeepsDatabase(tables, published, mode, sid);
      if ok {
        tables := PointTo(tables, mode, sid);
      }
    }
  }

  lemma {:induction false} RowsBelongToBuilt(published: seq<StructuredSnapshot>)
    ensures RowsBelong(Build(published))
    ensures |Build(published).snapshots| == |published| && Build(published).current == map[]
    ensures forall i :: 0 <= i < |published| ==> Build(published).snapshots[i] == published[i].metadata
  {
    if published != [] {
      var n := |published| - 1;
      RowsBelongToBuilt(published[..n]);
      AppendedBelong(Build(published[..n]), published[n]);
    }
  }

  lemma AppendedBelong(t: Tables, s: StructuredSnapshot)
    requires RowsBelong(t)
    ensures RowsBelong(Appended(t, s))
  {
    TierRowsBelong(|t.traits|, s.traits);
  }

  /** Every import keeps the database well formed. */
  lemma ImportKeepsDatabase(t: Tables, published: seq<StructuredSnapshot>, s: StructuredSnapshot)
    requires DatabaseOk(t, published)
    ensures DatabaseOk(Import(t, s).after, AfterImport(t, published, s))
  {
    var existing := FindSame(t.snapshots, s.metadata);
    var after, next := Import(t, s).after, AfterImport(t, published, s);
    if existing.Some? {
      PointKeepsDatabase(t, published, s.metadata.mode, existing.value);
      assert next == published && (after == t || after == PointTo(t, s.metadata.mode, existing.value));
    } else if Import(t, s).result.Ok? {
      AppendKeepsDatabase(t, published, s);
      assert next == published + [s] && after == PointTo(Appended(t, s), s.metadata.mode, |t.snapshots|);
    } else {
      assert next == published && after == t;
    }
  }

  lemma PointingWell(snapshots: seq<SnapshotRow>, more: seq<SnapshotRow>, current: map<string, nat>, mode: string, sid: nat)
    requires PointsWell(snapshots, current) && snapshots <= more && sid < |more| && more[sid].mode == mode
    ensures PointsWell(more, current[mode := sid])
  {
  }

  lemma PointKeepsDatabase(t: Tables, published: seq<StructuredSnapshot>, mode: string, sid: nat)
    requires DatabaseOk(t, published) && FindSnapshot(t, mode, sid).Some?
    ensures DatabaseOk(PointTo(t, mode, sid), published)
  {
    PointingWell(t.snapshots, t.snapshots, t.current, mode, sid);
    assert PointTo(t, mode, sid).(current := map[]) == t.(current := map[]);
  }

  lemma DistinctWithOneMore(rows: seq<SnapshotRow>, m: SnapshotRow)
    requires DistinctSnapshots(rows) && FindSame(rows, m).None? && !RevisionTaken(rows, m)
    ensures DistinctSnapshots(rows + [m])
  {
    assert forall k :: 0 <= k < |rows| ==> !SameSnapshot(rows[k], m) && !SameRevision(rows[k], m);
  }

  lemma AppendKeepsDatabase(t: Tables, published: seq<StructuredSnapshot>, s: StructuredSnapshot)
    requires DatabaseOk(t, published) && Importable(s)
    requires FindSame(t.snapshots, s.metadata).None? && !RevisionTaken(t.snapshots, s.metadata)
    ensures DatabaseOk(PointTo(Appended(t, s), s.metadata.mode, |t.snapshots|), published + [s])
  {
    var more := published + [s];
    var after := PointTo(Appended(t, s), s.metadata.mode, |t.snapshots|);
    assert more[..|more| - 1] == published;
    assert after.(current := map[]) == Appended(t.(current := map[]), s) == Build(more);
    DistinctWithOneMore(t.snapshots, s.metadata);
    PointingWell(t.snapshots, after.snapshots, t.current, s.metadata.mode, |t.snapshots|);
    assert AllImportable(more) by { assert forall i :: 0 <= i < |more| ==> more[i] == s || more[i] == published[i]; }
  }

  lemma SwitchKeepsDatabase(t: Tables, published: seq<StructuredSnapshot>, mode: string, sid: nat)
    requires DatabaseOk(t, published)
    ensures DatabaseOk(Switch(t, mode, sid), published)
  {
    if FindSnapshot(t, mode, sid).Some? { PointKeepsDatabase(t, published, mode, sid); }
  }
}
