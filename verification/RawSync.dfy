/** One sync: read what is stored for the current version, download, and publish at most one new revision. */
module RawSync {
  import opened Common
  import opened RawData
  import opened Decimal
  import opened Text
  import opened RawStore

  /** Directories that the filter of a version selects. */
  function MatchedNames(dirs: Directories, base: string): set<string> {
    set n | n in dirs && Matches(n, base)
  }

  function Read(dirs: Directories, n: string, spec: VersionSpec): Option<RawSnapshot> {
    if n in dirs then ReadSnapshot(n, dirs[n], spec.mode, spec.modeName) else None
  }

  predicate AllReadable(dirs: Directories, spec: VersionSpec) {
    forall n :: n in MatchedNames(dirs, Base(spec)) ==> Read(dirs, n, spec).Some?
  }

  /** Revisions read back from the matched directories. */
  function UsedRevisions(dirs: Directories, spec: VersionSpec): set<nat>
    requires AllReadable(dirs, spec)
  {
    set n | n in MatchedNames(dirs, Base(spec)) :: Read(dirs, n, spec).value.revision
  }

  predicate HashStored(dirs: Directories, spec: VersionSpec, h: ContentHash)
    requires AllReadable(dirs, spec)
  {
    exists n :: n in MatchedNames(dirs, Base(spec)) && Read(dirs, n, spec).value.contentHash == h
  }

  /** The result reports a matched directory as it reads back. */
  predicate Reports(dirs: Directories, spec: VersionSpec, r: SyncResult)
    requires AllReadable(dirs, spec)
  {
    r.directory in MatchedNames(dirs, Base(spec)) && r.spec == spec
    && r.revision == Read(dirs, r.directory, spec).value.revision
    && r.contentHash == Read(dirs, r.directory, spec).value.contentHash
  }

  /** The order in which the matched directories are read: the base name first, then by name. */
  predicate Earlier(base: string, a: string, b: string) {
    if a == base then b != base else b != base && Less(a, b)
  }

  /** The first, in that order, of the matched directories with the highest revision. */
  ghost predicate FirstNewest(dirs: Directories, spec: VersionSpec, n: string)
    requires AllReadable(dirs, spec)
  {
    && n in MatchedNames(dirs, Base(spec)) && Read(dirs, n, spec).value.revision == MaxOf(UsedRevisions(dirs, spec))
    && forall m :: m in MatchedNames(dirs, Base(spec)) && m != n ==>
         Read(dirs, m, spec).value.revision == MaxOf(UsedRevisions(dirs, spec)) ==> Earlier(Base(spec), n, m)
  }

  lemma EarlierIsOrder(base: string, a: string, b: string, c: string)
    ensures a == b || Earlier(base, a, b) || Earlier(base, b, a)
    ensures !(Earlier(base, a, b) && Earlier(base, b, a)) && !Earlier(base, a, a)
    ensures Earlier(base, a, b) && Earlier(base, b, c) ==> Earlier(base, a, c)
  {
    LessIsTotal(a, b);
    if Less(a, b) && Less(b, c) { LessIsTransitive(a, b, c); }
  }

  predicate IsFirst(base: string, names: set<string>, n: string) {
    n in names && forall m :: m in names && m != n ==> Earlier(base, n, m)
  }

  lemma {:induction false} HasFirst(base: string, names: set<string>)
    requires names != {}
    ensures exists n :: IsFirst(base, names, n)
  {
    var x :| x in names;
    var rest := names - {x};
    if rest == {} {
      assert names == {x};
      assert IsFirst(base, names, x);
    } else {
      HasFirst(base, rest);
      var n :| IsFirst(base, rest, n);
      var first := if Earlier(base, x, n) then x else n;
      forall m | m in names && m != first ensures Earlier(base, first, m) {
        EarlierIsOrder(base, x, n, m);
        assert m == x || m in rest;
      }
      assert IsFirst(base, names, first);
    }
  }

  /** What a download contributes: the configuration already fetched, and the remaining files if they arrive. */
  datatype Download = Download(config: seq<VersionEntry>, rest: Option<Payloads>)

  function Downloaded(d: Download): Payloads
    requires d.rest.Some?
  {
    d.rest.value.(config := d.config)
  }

  /** The store that publishing the download as the next revision leaves behind. */
  function Publish(dirs: Directories, spec: VersionSpec, p: Payloads, revision: nat): Directories {
    var name := RevisionName(Base(spec), revision);
    dirs[name := RawDirectory(p, WrittenManifest(spec, name, revision, p))]
  }

  /** Everything one sync may answer and do, error by error and branch by branch. */
  ghost predicate Synced(dirs: Directories, d: Download, force: bool, mode: string, modeName: string,
                         after: Directories, r: Result<SyncResult, SyncError>)
  {
    match BuildVersionSpec(d.config, mode, modeName)
    case None => r == Err(BadConfig) && after == dirs
    case Some(spec) =>
      if !AllReadable(dirs, spec) then r == Err(IncompleteExisting) && after == dirs
      else if MatchedNames(dirs, Base(spec)) != {} && !force then
        after == dirs && r.Ok? && r.value.status == Skipped && Reports(dirs, spec, r.value)
        && FirstNewest(dirs, spec, r.value.directory)
      else if d.rest.None? || !ValidPayloads(Downloaded(d), spec) then r == Err(BadDownload) && after == dirs
      else if HashStored(dirs, spec, HashOf(Downloaded(d))) then
        after == dirs && r.Ok? && r.value.status == Matched && Reports(dirs, spec, r.value)
        && r.value.contentHash == HashOf(Downloaded(d))
      else
        var revision := MaxOf(UsedRevisions(dirs, spec)) + 1;
        var name := RevisionName(Base(spec), revision);
        if name in dirs then r == Err(AlreadyPublished) && after == dirs
        else
          after == Publish(dirs, spec, Downloaded(d), revision)
          && r == Ok(SyncResult(Updated, spec, name, revision, HashOf(Downloaded(d))))
  }

  class RawRevisionStore {
    var directories: Directories

    constructor ()
      ensures directories == map[]
    {
      directories := map[];
    }

    /** All snapshots of the matched directories, in order, or None when one of them cannot be read. */
    method ReadExisting(spec: VersionSpec) returns (existing: Option<seq<RawSnapshot>>)
      ensures existing.Some? <==> AllReadable(directories, spec)
      ensures existing.Some? ==> Lists(directories, spec, existing.value)
    {
      hide ReadSnapshot;
      var todo := set n | n in directories && Matches(n, Base(spec));
      ghost var done: set<string> := {};
      var snapshots: seq<RawSnapshot> := [];
      while todo != {}
        invariant todo + done == MatchedNames(directories, Base(spec)) && todo !! done
        invariant forall s :: s in snapshots ==> s.name in done && Read(directories, s.name, spec) == Some(s)
        invariant forall n :: n in done ==> Read(directories, n, spec).Some? && Read(directories, n, spec).value in snapshots
        invariant forall i, n :: 0 <= i < |snapshots| && n in todo ==> Earlier(Base(spec), snapshots[i].name, n)
        invariant forall i, j :: 0 <= i < j < |snapshots| ==> Earlier(Base(spec), snapshots[i].name, snapshots[j].name)
        decreases todo
      {
        HasFirst(Base(spec), todo);
        var n :| IsFirst(Base(spec), todo, n);
        var snapshot := ReadSnapshot(n, directories[n], spec.mode, spec.modeName);
        if snapshot.None? {
          assert n in MatchedNames(directories, Base(spec)) && Read(directories, n, spec).None?;
          return None;
        }
        ReadKeepsName(n, directories[n], spec.mode, spec.modeName);
        snapshots := snapshots + [snapshot.value];
        todo := todo - {n};
        done := done + {n};
      }
      existing := Some(snapshots);
    }

    /** The place of the first snapshot with the highest revision. */
    method Newest(existing: seq<RawSnapshot>) returns (best: nat)
      requires existing != []
      ensures best < |existing|
      ensures forall i :: 0 <= i < |existing| ==> existing[i].revision <= existing[best].revision
      ensures forall i :: 0 <= i < best ==> existing[i].revision < existing[best].revision
    {
      best := 0;
      for i := 1 to |existing|
        invariant best < i
        invariant forall k :: 0 <= k < i ==> existing[k].revision <= existing[best].revision
        invariant forall k :: 0 <= k < best ==> existing[k].revision < existing[best].revision
      {
        if existing[i].revision > existing[best].revision { best := i; }
      }
    }

    method WithHash(existing: seq<RawSnapshot>, h: ContentHash) returns (found: Option<RawSnapshot>)
      ensures found.None? ==> forall s :: s in existing ==> s.contentHash != h
      ensures found.Some? ==> found.value in existing && found.value.contentHash == h
    {
      for i := 0 to |existing|
        invariant forall k :: 0 <= k < i ==> existing[k].contentHash != h
      {
        if existing[i].contentHash == h { return Some(existing[i]); }
      }
      found := None;
    }

    method Sync(d: Download, force: bool, mode: string, modeName: string) returns (r: Result<SyncResult, SyncError>)
      modifies this
      ensures Synced(old(directories), d, force, mode, modeName, directories, r)
    {
      hide BuildVersionSpec, ValidPayloads, HashOf, Read, RevisionName, WrittenManifest, FirstNewest;
      var built := BuildVersionSpec(d.config, mode, modeName);
      if built.None? {
        return Err(BadConfig);
      }
      var spec := built.value;
      SpecCarriesKey(d.config, mode, modeName);
      var reading := ReadExisting(spec);
      if reading.None? {
        return Err(IncompleteExisting);
      }
      var existing := reading.value;
      RevisionsRead(directories, spec, existing);
      if existing != [] && !force {
        var best := Newest(existing);
        var selected := existing[best];
        NewestIsFirst(directories, spec, existing, best);
        return Ok(SyncResult(Skipped, spec, selected.name, selected.revision, selected.contentHash));
      }
      if d.rest.None? || !ValidPayloads(Downloaded(d), spec) {
        return Err(BadDownload);
      }
      var p := Downloaded(d);
      var h := HashOf(p);
      var matching := WithHash(existing, h);
      if matching.Some? {
        assert HashStored(directories, spec, h);
        return Ok(SyncResult(Matched, spec, matching.value.name, matching.value.revision, h));
      }
      assert !HashStored(directories, spec, h);
      var revision := MaxOf(set i | 0 <= i < |existing| :: existing[i].revision) + 1;
      var name := RevisionName(Base(spec), revision);
      if name in directories {
        return Err(AlreadyPublished);
      }
      directories := directories[name := RawDirectory(p, WrittenManifest(spec, name, revision, p))];
      r := Ok(SyncResult(Updated, spec, name, revision, h));
    }
  }

  lemma SpecCarriesKey(config: seq<VersionEntry>, mode: string, modeName: string)
    requires BuildVersionSpec(config, mode, modeName).Some?
    ensures var spec := BuildVersionSpec(config, mode, modeName).value;
            spec.mode == mode && spec.modeName == modeName && IsSeason(spec.season)
  {
    CandidatesCarryKey(config, mode, modeName);
  }

  /** The readings of exactly the matched directories, in order. */
  ghost predicate Lists(dirs: Directories, spec: VersionSpec, existing: seq<RawSnapshot>) {
    && (forall s :: s in existing ==> s.name in MatchedNames(dirs, Base(spec)) && Read(dirs, s.name, spec) == Some(s))
    && (forall n :: n in MatchedNames(dirs, Base(spec)) ==> Read(dirs, n, spec).Some? && Read(dirs, n, spec).value in existing)
    && forall i, j :: 0 <= i < j < |existing| ==> Earlier(Base(spec), existing[i].name, existing[j].name)
  }

  lemma ReadKeepsName(name: string, d: RawDirectory, mode: string, modeName: string)
    requires ReadSnapshot(name, d, mode, modeName).Some?
    ensures ReadSnapshot(name, d, mode, modeName).value.name == name
  {
  }

  lemma RevisionsRead(dirs: Directories, spec: VersionSpec, existing: seq<RawSnapshot>)
    requires AllReadable(dirs, spec) && Lists(dirs, spec, existing)
    ensures (set i | 0 <= i < |existing| :: existing[i].revision) == UsedRevisions(dirs, spec)
    ensures existing == [] <==> MatchedNames(dirs, Base(spec)) == {}
  {
    hide Read, Matches, Earlier;
    var revisions := set i | 0 <= i < |existing| :: existing[i].revision;
    forall x | x in revisions ensures x in UsedRevisions(dirs, spec) {
      var i :| 0 <= i < |existing| && existing[i].revision == x;
      assert existing[i] in existing;
    }
    forall x | x in UsedRevisions(dirs, spec) ensures x in revisions {
      var n :| n in MatchedNames(dirs, Base(spec)) && Read(dirs, n, spec).value.revision == x;
      var i :| 0 <= i < |existing| && existing[i] == Read(dirs, n, spec).value;
    }
    if existing != [] { assert existing[0] in existing; }
    if MatchedNames(dirs, Base(spec)) != {} {
      var n :| n in MatchedNames(dirs, Base(spec));
      assert Read(dirs, n, spec).value in existing;
    }
  }

  lemma NewestIsFirst(dirs: Directories, spec: VersionSpec, existing: seq<RawSnapshot>, best: nat)
    requires AllReadable(dirs, spec) && Lists(dirs, spec, existing) && best < |existing|
    requires forall i :: 0 <= i < |existing| ==> existing[i].revision <= existing[best].revision
    requires forall i :: 0 <= i < best ==> existing[i].revision < existing[best].revision
    ensures FirstNewest(dirs, spec, existing[best].name) && Reads(dirs, spec, existing[best])
  {
    hide Read, Matches, Earlier;
    RevisionsRead(dirs, spec, existing);
    var top := existing[best];
    assert top in existing;
    assert top.revision in UsedRevisions(dirs, spec);
    assert MaxOf(UsedRevisions(dirs, spec)) == top.revision;
    forall m | m in MatchedNames(dirs, Base(spec)) && m != top.name && Read(dirs, m, spec).value.revision == top.revision
      ensures Earlier(Base(spec), top.name, m)
    {
      var i :| 0 <= i < |existing| && existing[i] == Read(dirs, m, spec).value;
      ReadingHasName(dirs, spec, m);
    }
  }

  predicate Reads(dirs: Directories, spec: VersionSpec, s: RawSnapshot) {
    s.name in MatchedNames(dirs, Base(spec)) && Read(dirs, s.name, spec) == Some(s)
  }

  lemma ReadingHasName(dirs: Directories, spec: VersionSpec, m: string)
    requires Read(dirs, m, spec).Some?
    ensures Read(dirs, m, spec).value.name == m
  {
  }
}
