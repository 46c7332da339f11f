/**
 The update job over both stores: sync the raw revisions, read the selected directory back, adapt
 it and import it. The invariant ties every imported snapshot to the directory it came from.
 */
module Pipeline {
  import opened Common
  import opened RawData
  import opened JccTables
  import opened RawStore
  import opened RawSync
  import opened RawHistory
  import opened Structured
  import opened JccDatabase
  import Publication
  import opened Adapter
  import AdapterProperties

  /** A stored directory as reading it back gives it. */
  function RawOf(dirs: Directories, name: string): RawSnapshot
    requires name in dirs
  {
    RawSnapshot(name, dirs[name].payloads, RevisionOf(dirs[name]), HashOf(dirs[name].payloads), SpecOf(dirs[name]))
  }

  /** The imported snapshot is what adapting its raw directory gives. */
  predicate CameFrom(dirs: Directories, s: StructuredSnapshot) {
    s.metadata.rawDirectoryName in dirs && StructuredOf(RawOf(dirs, s.metadata.rawDirectoryName)) == Some(s)
  }

  predicate AllCameFrom(dirs: Directories, published: seq<StructuredSnapshot>) {
    forall i :: 0 <= i < |published| ==> CameFrom(dirs, published[i])
  }

  ghost predicate StoresOk(dirs: Directories, t: Tables, published: seq<StructuredSnapshot>) {
    StoreInv(dirs) && DatabaseOk(t, published) && AllCameFrom(dirs, published)
  }

  lemma AdaptedMetadata(raw: RawSnapshot)
    requires StructuredOf(raw).Some?
    ensures StructuredOf(raw).value.metadata == MetadataOf(raw)
  {
  }

  /** Two stored directories of one mode, season and version with the same hash, or revision, are one. */
  lemma SameDirectory(dirs: Directories, a: string, b: string)
    requires StoreInv(dirs) && a in dirs && b in dirs
    requires SameSnapshot(MetadataOf(RawOf(dirs, a)), MetadataOf(RawOf(dirs, b)))
             || SameRevision(MetadataOf(RawOf(dirs, a)), MetadataOf(RawOf(dirs, b)))
    ensures a == b
  {
    assert DirectoryOk(dirs, a) && DirectoryOk(dirs, b);
    assert SameBase(dirs, a, b);
    assert RevisionOf(dirs[a]) == RevisionOf(dirs[b]) ==> a == b;
  }

  predicate Adaptable(dirs: Directories, name: string) { name in dirs && StructuredOf(RawOf(dirs, name)).Some? }

  /** The adventure records of a directory carry pairwise distinct ids, as the raw file shows. */
  predicate AdventuresDistinct(dirs: Directories, name: string)
    requires name in dirs
  {
    AdapterProperties.DistinctAdventureIds(dirs[name].payloads.adventure.data)
  }

  /** What an adapted directory may still lack: distinct adventure ids and values within their column sizes. */
  predicate FitsDatabase(dirs: Directories, name: string)
    requires Adaptable(dirs, name)
  {
    AdventuresDistinct(dirs, name) && Storable(StructuredOf(RawOf(dirs, name)).value)
  }

  /**
   Importing a stored, adaptable directory succeeds exactly when its adventure ids are distinct and
   its values fit their columns; otherwise it is rejected and changes nothing. The uniqueness of revisions never rejects it, an
   existing snapshot is never found incomplete, and no other insert or lookup fails.
   */
  lemma StoredImportIff(dirs: Directories, t: Tables, published: seq<StructuredSnapshot>, name: string)
    requires StoresOk(dirs, t, published) && Adaptable(dirs, name)
    ensures var o := Import(t, StructuredOf(RawOf(dirs, name)).value);
            && (o.result.Ok? <==> FitsDatabase(dirs, name))
            && (o.result.Err? ==> o == ImportOutcome(t, Err(Violation)))
  {
    hide DatabaseOk, StructuredOf, StoreInv, Importable, Complete, FitsDatabase;
    var s := StructuredOf(RawOf(dirs, name)).value;
    AdaptedMetadata(RawOf(dirs, name));
    ImportableIff(dirs, name);
    SnapshotRowsArePublished(t, published);
    var existing := FindSame(t.snapshots, s.metadata);
    if existing.Some? {
      OriginIsUnique(dirs, published, existing.value, name);
      Publication.CompleteIff(t, published, existing.value, s);
      PublishedIsImportable(t, published, existing.value);
    } else {
      StoredRevisionPositive(dirs, name);
      forall k | 0 <= k < |t.snapshots| ensures !SameRevision(t.snapshots[k], s.metadata) {
        if SameRevision(t.snapshots[k], s.metadata) { OriginIsUnique(dirs, published, k, name); }
      }
    }
  }

  lemma ImportableIff(dirs: Directories, name: string)
    requires Adaptable(dirs, name)
    ensures Importable(StructuredOf(RawOf(dirs, name)).value) <==> FitsDatabase(dirs, name)
  {
    hide StructuredOf, Importable, Storable, AdapterProperties.ImportableButAdventures;
    AdapterProperties.AcceptedIsImportableIff(RawOf(dirs, name));
  }

  lemma PublishedIsImportable(t: Tables, published: seq<StructuredSnapshot>, k: nat)
    requires DatabaseOk(t, published) && k < |published|
    ensures Importable(published[k])
  {
    hide Build, Importable;
  }

  lemma SnapshotRowsArePublished(t: Tables, published: seq<StructuredSnapshot>)
    requires DatabaseOk(t, published)
    ensures |t.snapshots| == |published|
    ensures forall k :: 0 <= k < |published| ==> t.snapshots[k] == published[k].metadata
  {
    RowsBelongToBuilt(published);
    assert t.(current := map[]).snapshots == t.snapshots;
  }

  lemma StoredRevisionPositive(dirs: Directories, name: string)
    requires StoreInv(dirs) && name in dirs
    ensures RevisionOf(dirs[name]) >= 1
  {
    assert DirectoryOk(dirs, name);
  }

  /** A published snapshot that agrees with a stored directory on hash or revision came from it. */
  lemma OriginIsUnique(dirs: Directories, published: seq<StructuredSnapshot>, k: nat, name: string)
    requires StoreInv(dirs) && AllCameFrom(dirs, published) && k < |published| && name in dirs
    requires StructuredOf(RawOf(dirs, name)).Some?
    requires var m := StructuredOf(RawOf(dirs, name)).value.metadata;
             SameSnapshot(published[k].metadata, m) || SameRevision(published[k].metadata, m)
    ensures StructuredOf(RawOf(dirs, name)) == Some(published[k])
  {
    hide StoreInv, StructuredOf;
    assert CameFrom(dirs, published[k]);
    var origin := published[k].metadata.rawDirectoryName;
    AdaptedMetadata(RawOf(dirs, origin));
    AdaptedMetadata(RawOf(dirs, name));
    SameDirectory(dirs, origin, name);
  }

  /** Importing a stored directory keeps both stores tied together. */
  lemma ImportKeepsStores(dirs: Directories, t: Tables, published: seq<StructuredSnapshot>, name: string)
    requires StoresOk(dirs, t, published) && name in dirs && StructuredOf(RawOf(dirs, name)).Some?
    ensures var s := StructuredOf(RawOf(dirs, name)).value;
            StoresOk(dirs, Import(t, s).after, AfterImport(t, published, s))
  {
    hide DatabaseOk, StructuredOf, StoreInv, Import;
    var s := StructuredOf(RawOf(dirs, name)).value;
    ImportKeepsDatabase(t, published, s);
    AdaptedMetadata(RawOf(dirs, name));
    assert CameFrom(dirs, s);
  }

  /** Publishing more directories changes nothing about the imported ones. */
  lemma MoreDirectoriesKeepOrigins(dirs: Directories, after: Directories, published: seq<StructuredSnapshot>)
    requires AllCameFrom(dirs, published) && forall n :: n in dirs ==> n in after && after[n] == dirs[n]
    ensures AllCameFrom(after, published)
  {
    hide StructuredOf;
    forall i | 0 <= i < |published| ensures CameFrom(after, published[i]) {
      assert CameFrom(dirs, published[i]);
      assert RawOf(after, published[i].metadata.rawDirectoryName) == RawOf(dirs, published[i].metadata.rawDirectoryName);
    }
  }

  /** A stored directory of this mode. */
  predicate Selectable(dirs: Directories, name: string, mode: string, modeName: string) {
    name in dirs && SpecOf(dirs[name]).mode == mode && SpecOf(dirs[name]).modeName == modeName
  }

  lemma SelectableIff(dirs: Directories, name: string, mode: string, modeName: string)
    requires StoreInv(dirs) && name in dirs
    ensures ReadSnapshot(name, dirs[name], mode, modeName)
            == if Selectable(dirs, name, mode, modeName) then Some(RawOf(dirs, name)) else None
  {
    hide ReadSnapshot, StoreInv, HashOf;
    ReadBack(dirs, name, mode, modeName);
  }

  /** The mode's pointer names this snapshot, which exists. */
  predicate PointsAt(t: Tables, mode: string, sid: nat) {
    mode in t.current && t.current[mode] == sid && sid < |t.snapshots|
  }

  /** After an import the mode points at a snapshot with the directory's version and hash. */
  lemma ImportedIsCurrent(dirs: Directories, t: Tables, published: seq<StructuredSnapshot>, name: string)
    requires DatabaseOk(t, published) && Adaptable(dirs, name)
    requires Import(t, StructuredOf(RawOf(dirs, name)).value).result.Ok?
    ensures var o := Import(t, StructuredOf(RawOf(dirs, name)).value);
            PointsAt(o.after, SpecOf(dirs[name]).mode, o.result.value.1)
            && SameSnapshot(o.after.snapshots[o.result.value.1], MetadataOf(RawOf(dirs, name)))
  {
    hide DatabaseOk, StructuredOf, Import;
    AdaptedMetadata(RawOf(dirs, name));
    Publication.SuccessPointsToImported(t, published, StructuredOf(RawOf(dirs, name)).value);
  }

  // ---- The job ---------------------------------------------------------------------------

  datatype JobError = SyncFailed(cause: SyncError) | Unreadable | NotAdaptable | ImportFailed(reason: ImportError)

  type JobResult = Result<(ImportStatus, nat), JobError>

  function AsJobResult(r: Result<(ImportStatus, nat), ImportError>): JobResult {
    match r
    case Ok(value) => Ok(value)
    case Err(reason) => Err(ImportFailed(reason))
  }

  /** How importing one directory ends, told from the directory alone. */
  predicate EndsAs(dirs: Directories, name: string, mode: string, modeName: string, r: JobResult) {
    if !Selectable(dirs, name, mode, modeName) then r == Err(Unreadable)
    else if !Adaptable(dirs, name) then r == Err(NotAdaptable)
    else if !FitsDatabase(dirs, name) then r == Err(ImportFailed(Violation))
    else r.Ok?
  }

  /** The row is a snapshot of this version. */
  predicate OfVersion(row: SnapshotRow, spec: VersionSpec) {
    row.mode == spec.mode && row.season == spec.season && row.version == spec.version
  }

  /** `import_raw_snapshot` and the command around it, over the two stores. */
  class UpdateJob {
    const store: RawRevisionStore
    const db: JccDatabase

    ghost predicate Valid()
      reads this, store, db
    {
      StoresOk(store.directories, db.tables, db.published)
    }

    constructor ()
      ensures Valid() && fresh(store) && fresh(db)
      ensures store.directories == map[] && db.tables == NO_TABLES && db.published == []
    {
      store := new RawRevisionStore();
      db := new JccDatabase();
    }

    /** Reads one stored directory, adapts it and imports it. */
    method ImportDirectory(name: string, mode: string, modeName: string) returns (r: JobResult)
      requires Valid()
      modifies db
      ensures Valid()
      ensures EndsAs(store.directories, name, mode, modeName, r)
      ensures r.Ok? ==>
                && Adaptable(store.directories, name)
                && var s := StructuredOf(RawOf(store.directories, name)).value;
                   ImportOutcome(db.tables, Ok(r.value)) == Import(old(db.tables), s)
                   && db.published == AfterImport(old(db.tables), old(db.published), s)
      ensures r.Err? ==> db.tables == old(db.tables) && db.published == old(db.published)
    {
      hide DatabaseOk, StructuredOf, StoreInv, Import, FitsDatabase, ReadSnapshot;
      if name !in store.directories {
        return Err(Unreadable);
      }
      SelectableIff(store.directories, name, mode, modeName);
      var raw := ReadSnapshot(name, store.directories[name], mode, modeName);
      if raw.None? {
        return Err(Unreadable);
      }
      var s := BuildStructured(raw.value);
      if s.None? {
        return Err(NotAdaptable);
      }
      StoredImportIff(store.directories, db.tables, db.published, name);
      ImportKeepsStores(store.directories, db.tables, db.published, name);
      var imported := db.ImportSnapshot(s.value);
      r := AsJobResult(imported);
    }

    /** One run of the update command. */
    method Run(d: Download, force: bool, mode: string, modeName: string)
      returns (synced: Result<SyncResult, SyncError>, r: JobResult)
      requires Valid()
      modifies store, db
      ensures Valid()
      ensures Synced(old(store.directories), d, force, mode, modeName, store.directories, synced)
      ensures forall n :: n in old(store.directories) ==> n in store.directories && store.directories[n] == old(store.directories[n])
      ensures synced.Err? ==> r == Err(SyncFailed(synced.error)) && store.directories == old(store.directories)
      ensures synced.Ok? ==>
                Selectable(store.directories, synced.value.directory, mode, modeName)
                && EndsAs(store.directories, synced.value.directory, mode, modeName, r)
      ensures r.Err? ==> db.tables == old(db.tables) && db.published == old(db.published)
      ensures r.Ok? ==>
                && synced.Ok? && PointsAt(db.tables, mode, r.value.1)
                && var row := db.tables.snapshots[r.value.1];
                   && row.contentHash == synced.value.contentHash
                   && (OfVersion(row, synced.value.spec) <==> Own(store.directories, synced.value.spec, synced.value.directory))
                   && (force ==> d.rest.Some? && row.contentHash == HashOf(Downloaded(d)) && OfVersion(row, synced.value.spec))
    {
      hide DatabaseOk, StructuredOf, StoreInv, Import, Synced, FitsDatabase, HashOf;
      ghost var before := store.directories;
      synced := store.Sync(d, force, mode, modeName);
      SyncKeepsStore(before, d, force, mode, modeName, store.directories, synced);
      MoreDirectoriesKeepOrigins(before, store.directories, db.published);
      if synced.Err? {
        FailedSyncChangesNothing(before, d, force, mode, modeName, store.directories, synced);
        return synced, Err(SyncFailed(synced.error));
      }
      AnswerCarriesMode(before, d, force, mode, modeName, store.directories, synced);
      var name := synced.value.directory;
      ghost var t, published := db.tables, db.published;
      r := ImportDirectory(name, mode, modeName);
      if r.Ok? {
        ImportedIsCurrent(store.directories, t, published, name);
      }
    }
  }

  lemma FailedSyncChangesNothing(dirs: Directories, d: Download, force: bool, mode: string, modeName: string,
                                 after: Directories, r: Result<SyncResult, SyncError>)
    requires Synced(dirs, d, force, mode, modeName, after, r) && r.Err?
    ensures after == dirs
  {
  }

  lemma AnswerCarriesMode(dirs: Directories, d: Download, force: bool, mode: string, modeName: string,
                          after: Directories, r: Result<SyncResult, SyncError>)
    requires Synced(dirs, d, force, mode, modeName, after, r) && r.Ok?
    ensures r.value.spec.mode == mode && r.value.spec.modeName == modeName
  {
    SpecCarriesKey(d.config, mode, modeName);
  }

  // ---- Every run of syncs, imports and switches ------------------------------------------

  datatype Stores = Stores(dirs: Directories, tables: Tables, published: seq<StructuredSnapshot>)

  const EMPTY_STORES := Stores(map[], NO_TABLES, [])

  /** A sync carries what it answered; an import names any directory, a switch any snapshot. */
  datatype Event =
    | SyncRan(d: Download, force: bool, mode: string, modeName: string, after: Directories, result: Result<SyncResult, SyncError>)
    | ImportRan(directory: string)
    | SwitchRan(pointerMode: string, sid: nat)

  ghost predicate Happens(s: Stores, e: Event) {
    e.SyncRan? ==> Synced(s.dirs, e.d, e.force, e.mode, e.modeName, e.after, e.result)
  }

  function After(s: Stores, e: Event): Stores {
    match e
    case SyncRan(_, _, _, _, after, _) => s.(dirs := after)
    case ImportRan(name) =>
      if !Adaptable(s.dirs, name) then s
      else
        var data := StructuredOf(RawOf(s.dirs, name)).value;
        Stores(s.dirs, Import(s.tables, data).after, AfterImport(s.tables, s.published, data))
    case SwitchRan(mode, sid) => s.(tables := Switch(s.tables, mode, sid))
  }

  ghost predicate AllHappen(s: Stores, es: seq<Event>)
    decreases |es|
  {
    es != [] ==> Happens(s, es[0]) && AllHappen(After(s, es[0]), es[1..])
  }

  function AfterAll(s: Stores, es: seq<Event>): Stores
    decreases |es|
  {
    if es == [] then s else AfterAll(After(s, es[0]), es[1..])
  }

  ghost predicate Consistent(s: Stores) { StoresOk(s.dirs, s.tables, s.published) }

  /** Directories and imported snapshots are only ever added. */
  predicate Extends(a: Stores, b: Stores) {
    (forall n :: n in a.dirs ==> n in b.dirs && b.dirs[n] == a.dirs[n]) && a.published <= b.published
  }

  lemma EventKeepsStores(s: Stores, e: Event)
    requires Consistent(s) && Happens(s, e)
    ensures Consistent(After(s, e)) && Extends(s, After(s, e))
  {
    hide DatabaseOk, StructuredOf, StoreInv, Import, Synced;
    match e {
      case SyncRan(d, force, mode, modeName, after, result) =>
        SyncKeepsStore(s.dirs, d, force, mode, modeName, after, result);
        MoreDirectoriesKeepOrigins(s.dirs, after, s.published);
      case ImportRan(name) =>
        if Adaptable(s.dirs, name) { ImportKeepsStores(s.dirs, s.tables, s.published, name); }
      case SwitchRan(mode, sid) =>
        SwitchKeepsDatabase(s.tables, s.published, mode, sid);
    }
  }

  /** Every run keeps both stores consistent and loses nothing. */
  lemma {:induction false} RunKeepsStores(s: Stores, es: seq<Event>)
    requires Consistent(s) && AllHappen(s, es)
    ensures Consistent(AfterAll(s, es)) && Extends(s, AfterAll(s, es))
    decreases |es|
  {
    hide Consistent, After, Happens;
    if es != [] {
      EventKeepsStores(s, es[0]);
      RunKeepsStores(After(s, es[0]), es[1..]);
    }
  }

  lemma StartsConsistent()
    ensures Consistent(EMPTY_STORES)
  {
  }

  /**
   Starting empty, after any run of syncs (forced or not), imports and switches: importing an
   adaptable directory succeeds exactly when its adventure ids are distinct and its values fit, and then its mode
   points at a snapshot with that directory's version and hash; otherwise it changes nothing.
   */
  lemma ImportsSucceedIff(es: seq<Event>, name: string)
    requires AllHappen(EMPTY_STORES, es) && Adaptable(AfterAll(EMPTY_STORES, es).dirs, name)
    ensures var s := AfterAll(EMPTY_STORES, es);
            var o := Import(s.tables, StructuredOf(RawOf(s.dirs, name)).value);
            && (o.result.Ok? <==> FitsDatabase(s.dirs, name))
            && (o.result.Err? ==> o == ImportOutcome(s.tables, Err(Violation)))
            && (o.result.Ok? ==> PointsAt(o.after, SpecOf(s.dirs[name]).mode, o.result.value.1)
                                 && SameSnapshot(o.after.snapshots[o.result.value.1], MetadataOf(RawOf(s.dirs, name))))
  {
    hide StructuredOf, StoreInv, DatabaseOk, Import, AllHappen, AfterAll, FitsDatabase;
    StartsConsistent();
    RunKeepsStores(EMPTY_STORES, es);
    var s := AfterAll(EMPTY_STORES, es);
    StoredImportIff(s.dirs, s.tables, s.published, name);
    if Import(s.tables, StructuredOf(RawOf(s.dirs, name)).value).result.Ok? {
      ImportedIsCurrent(s.dirs, s.tables, s.published, name);
    }
  }

  /** Starting empty, after any run: two directories of a version with the same content are one. */
  lemma ContentsAlwaysDiffer(es: seq<Event>, a: string, b: string)
    requires AllHappen(EMPTY_STORES, es)
    requires a in AfterAll(EMPTY_STORES, es).dirs && b in AfterAll(EMPTY_STORES, es).dirs
    requires var dirs := AfterAll(EMPTY_STORES, es).dirs;
             SpecOf(dirs[a]) == SpecOf(dirs[b]) && HashOf(dirs[a].payloads) == HashOf(dirs[b].payloads)
    ensures a == b
  {
    hide DatabaseOk, AllHappen, AfterAll, HashOf;
    StartsConsistent();
    RunKeepsStores(EMPTY_STORES, es);
    assert SameBase(AfterAll(EMPTY_STORES, es).dirs, a, b);
  }

  // ---- Whether revisions stay numbered ---------------------------------------------------

  /** Every publication of the run follows an own revision. */
  ghost predicate AllLeaveNoGap(s: Stores, es: seq<Event>)
    decreases |es|
  {
    es != [] ==> (es[0].SyncRan? ==> LeavesNoGap(s.dirs, es[0].result)) && AllLeaveNoGap(After(s, es[0]), es[1..])
  }

  lemma {:induction false} RunIsGaplessIff(s: Stores, es: seq<Event>)
    requires Consistent(s) && AllHappen(s, es)
    ensures Gapless(AfterAll(s, es).dirs) <==> Gapless(s.dirs) && AllLeaveNoGap(s, es)
    decreases |es|
  {
    hide Consistent, Happens, Gapless, LeavesNoGap;
    if es != [] {
      EventKeepsStores(s, es[0]);
      EventIsGaplessIff(s, es[0]);
      RunIsGaplessIff(After(s, es[0]), es[1..]);
    }
  }

  lemma EventIsGaplessIff(s: Stores, e: Event)
    requires Consistent(s) && Happens(s, e)
    ensures Gapless(After(s, e).dirs) <==> Gapless(s.dirs) && (e.SyncRan? ==> LeavesNoGap(s.dirs, e.result))
  {
    hide DatabaseOk, StructuredOf, StoreInv, Import, Synced, Gapless, LeavesNoGap;
    if e.SyncRan? { SyncIsGaplessIff(s.dirs, e.d, e.force, e.mode, e.modeName, e.after, e.result); }
  }

  /** The revisions of each stored version are exactly 1..n. */
  predicate Numbered(dirs: Directories) {
    forall n, k {:trigger RevisionName(Base(SpecOf(dirs[n])), k)} ::
      n in dirs && 1 <= k <= RevisionOf(dirs[n]) ==> RevisionName(Base(SpecOf(dirs[n])), k) in dirs
  }

  lemma NumberedIffGapless(dirs: Directories)
    requires StoreInv(dirs)
    ensures Numbered(dirs) <==> Gapless(dirs)
  {
    hide StoreInv, RevisionName, Base;
    if Gapless(dirs) {
      forall n, k | n in dirs && 1 <= k <= RevisionOf(dirs[n]) ensures RevisionName(Base(SpecOf(dirs[n])), k) in dirs {
        RevisionsAreInterval(dirs, n, k);
      }
    }
    if Numbered(dirs) {
      forall n | n in dirs ensures HasPredecessor(dirs, n) {
        if RevisionOf(dirs[n]) > 1 { assert RevisionName(Base(SpecOf(dirs[n])), RevisionOf(dirs[n]) - 1) in dirs; }
      }
    }
  }

  /**
   Starting empty, the revisions of every version are exactly 1..n after a run if and only if each
   publication in it found its version unstored or the highest matched revision to be its own.
   */
  lemma RevisionsNumberedIff(es: seq<Event>)
    requires AllHappen(EMPTY_STORES, es)
    ensures Numbered(AfterAll(EMPTY_STORES, es).dirs) <==> AllLeaveNoGap(EMPTY_STORES, es)
  {
    hide DatabaseOk, AllHappen, AllLeaveNoGap, AfterAll, StoreInv, Numbered;
    StartsConsistent();
    RunKeepsStores(EMPTY_STORES, es);
    RunIsGaplessIff(EMPTY_STORES, es);
    NumberedIffGapless(AfterAll(EMPTY_STORES, es).dirs);
  }

  /** The version named by a sync's configuration has no hyphen. */
  predicate PlainEvent(e: Event) { e.SyncRan? ==> PlainConfig(e.d.config, e.mode, e.modeName) }

  predicate AnswersOwn(e: Event) {
    e.SyncRan? && e.result.Ok? ==> Own(e.after, e.result.value.spec, e.result.value.directory)
  }

  /** Where no configuration names a version with a hyphen, runs number without gaps and answer for their own version. */
  lemma {:induction false} PlainRuns(s: Stores, es: seq<Event>)
    requires Consistent(s) && PlainStore(s.dirs) && AllHappen(s, es) && forall e :: e in es ==> PlainEvent(e)
    ensures AllLeaveNoGap(s, es) && PlainStore(AfterAll(s, es).dirs)
    ensures forall e :: e in es ==> AnswersOwn(e)
    decreases |es|
  {
    hide Consistent, Happens, PlainStore, LeavesNoGap, PlainEvent, AnswersOwn, After;
    if es != [] {
      EventKeepsStores(s, es[0]);
      PlainEventLeavesNoGap(s, es[0]);
      PlainRuns(After(s, es[0]), es[1..]);
      assert forall e :: e in es ==> e == es[0] || e in es[1..];
    }
  }

  lemma PlainEventLeavesNoGap(s: Stores, e: Event)
    requires Consistent(s) && Happens(s, e) && PlainStore(s.dirs) && PlainEvent(e)
    ensures PlainStore(After(s, e).dirs) && (e.SyncRan? ==> LeavesNoGap(s.dirs, e.result)) && AnswersOwn(e)
  {
    hide DatabaseOk, StructuredOf, StoreInv, Import, Synced, PlainStore, LeavesNoGap, PlainConfig;
    if e.SyncRan? { PlainSync(s.dirs, e.d, e.force, e.mode, e.modeName, e.after, e.result); }
  }

  // ---- What a repeated adventure id does -------------------------------------------------

  const ADVENTURE := AdventureRecord(Text("7"), Text("x"), Null)

  /** Two adventure records under different keys give themselves the same id. */
  function RepeatedAdventure(): Payloads {
    EmptyPayloads("a", "S1").(adventure := ResourceFile("a", "S1", "18", [("1", ADVENTURE), ("2", ADVENTURE)]))
  }

  lemma RepeatedIsValid()
    ensures ValidPayloads(RepeatedAdventure(), CURRENT) && RepeatedAdventure().config == EmptyPayloads("a", "S1").config
    ensures BuildVersionSpec(RepeatedAdventure().config, "18", "n") == Some(CURRENT)
  {
    hide BuildVersionSpec;
    SpecsOfEmptyPayloads();
  }

  lemma RepeatedReadings()
    ensures Collected(AdventureReadings([("1", ADVENTURE), ("2", ADVENTURE)])).Some?
    ensures Collected([]) == Some([])
    ensures !AdapterProperties.DistinctAdventureIds([("1", ADVENTURE), ("2", ADVENTURE)])
  {
    var records := [("1", ADVENTURE), ("2", ADVENTURE)];
    var readings := AdventureReadings(records);
    assert ReadAdventure(ADVENTURE).Some?;
    CollectedAre(readings);
    assert records[0].1 == records[1].1;
  }

  lemma RepeatedIsAccepted(raw: RawSnapshot)
    requires raw.payloads == RepeatedAdventure()
    ensures StructuredOf(raw).Some? && !Importable(StructuredOf(raw).value)
  {
    hide Collected, AdventureReadings, Importable, AdapterProperties.ImportableButAdventures, AdapterProperties.DistinctAdventureIds;
    RepeatedReadings();
    AdapterProperties.AcceptedIsImportableIff(raw);
  }

  lemma FirstSyncPublishes(p: Payloads, after: Directories, r: Result<SyncResult, SyncError>)
    requires BuildVersionSpec(p.config, "18", "n") == Some(CURRENT) && ValidPayloads(p, CURRENT)
    requires Synced(map[], Download(p.config, Some(p)), false, "18", "n", after, r)
    ensures r.Ok? && r.value.directory in after && after[r.value.directory].payloads == p
  {
    hide BuildVersionSpec, ValidPayloads, HashOf, RevisionName, Base;
    assert MatchedNames(map[], Base(CURRENT)) == {};
    assert Downloaded(Download(p.config, Some(p))) == p;
  }

  /** The sync publishes it, the adapter accepts it, and its import is rejected, changing nothing. */
  lemma RepeatedAdventureFails(after: Directories, r: Result<SyncResult, SyncError>)
    requires Synced(map[], Download(RepeatedAdventure().config, Some(RepeatedAdventure())), false, "18", "n", after, r)
    ensures r.Ok? && Adaptable(after, r.value.directory)
    ensures Import(NO_TABLES, StructuredOf(RawOf(after, r.value.directory)).value) == ImportOutcome(NO_TABLES, Err(Violation))
  {
    hide StructuredOf, Importable, Synced, RepeatedAdventure, BuildVersionSpec, ValidPayloads, HashOf;
    RepeatedIsValid();
    FirstSyncPublishes(RepeatedAdventure(), after, r);
    RepeatedIsAccepted(RawOf(after, r.value.directory));
  }
}
