/**
 The append-only store of raw revisions and the sync step that publishes into it.
 */
module RawStore {
  import opened Common
  import opened RawData
  import opened Decimal

  // ---- Versions and directory names ------------------------------------------------------

  datatype VersionSpec = VersionSpec(version: string, season: string, mode: string, modeName: string)

  function BaseVersion(version: string, season: string): string { version + "-" + season }

  function Base(spec: VersionSpec): string { BaseVersion(spec.version, spec.season) }

  predicate SafeComponent(s: string) {
    s != "." && s != ".." && forall i :: 0 <= i < |s| ==> s[i] != '/' && s[i] != '\\' && s[i] != '\U{0000}'
  }

  function SeasonNumber(season: string): string {
    if season != "" && season[0] == 'S' then season[1..] else season
  }

  predicate IsSeason(season: string) { SeasonNumber(season) != "" && AllDigits(SeasonNumber(season)) }

  function Candidates(config: seq<VersionEntry>, mode: string, name: string): seq<VersionEntry> {
    if config == [] then []
    else (if config[0].mode == mode && config[0].name == name && config[0].newest then [config[0]] else [])
         + Candidates(config[1..], mode, name)
  }

  /** The one current version of a mode, when it is well formed. */
  function BuildVersionSpec(config: seq<VersionEntry>, mode: string, name: string): Option<VersionSpec> {
    var found := Candidates(config, mode, name);
    if |found| != 1 then None
    else
      var e := found[0];
      if e.version == "" || e.season == "" || e.mode == "" || e.name == "" then None
      else if !SafeComponent(e.version) || !SafeComponent(e.season) || !SafeComponent(e.mode) then None
      else if !IsSeason(e.season) then None
      else Some(VersionSpec(e.version, e.season, e.mode, e.name))
  }

  function RevisionName(base: string, revision: nat): string {
    if revision == 1 then base else base + "-r" + Print(revision)
  }

  /** The revision a directory name stands for; revision 1 must use the bare base name. */
  function DirectoryRevision(name: string, base: string): Option<nat> {
    if name == base then Some(1)
    else if base + "-r" <= name && IsPositiveNumeral(name[|base| + 2..]) then
      var revision := Value(name[|base| + 2..]);
      if revision == 1 then None else Some(revision)
    else None
  }

  /** Naming a revision and reading the name back are inverse. */
  lemma NamesAndRevisions(base: string, name: string, revision: nat)
    requires revision >= 1
    ensures DirectoryRevision(name, base) == Some(revision) <==> name == RevisionName(base, revision)
  {
    ValueOfPrint(revision);
    if name == RevisionName(base, revision) && revision != 1 {
      assert name[|base| + 2..] == Print(revision);
    }
    if DirectoryRevision(name, base) == Some(revision) && revision != 1 {
      PrintOfValue(name[|base| + 2..]);
      assert name == (base + "-r") + name[|base| + 2..];
    }
  }

  predicate HyphenFree(s: string) { forall i :: 0 <= i < |s| ==> s[i] != '-' }

  function FirstHyphen(s: string): (n: nat)
    ensures n <= |s|
  {
    if s == "" || s[0] == '-' then 0 else 1 + FirstHyphen(s[1..])
  }

  lemma {:induction false} FirstHyphenAfter(a: string, b: string)
    requires HyphenFree(a) && (b == "" || b[0] == '-')
    ensures FirstHyphen(a + b) == |a|
  {
    if a == "" {
      assert a + b == b;
    } else {
      assert (a + b)[1..] == a[1..] + b;
      FirstHyphenAfter(a[1..], b);
    }
  }

  /** Number of characters after the last hyphen. */
  function TailLength(s: string): nat { if s == "" || s[|s| - 1] == '-' then 0 else 1 + TailLength(s[..|s| - 1]) }

  lemma {:induction false} TailLengthOf(a: string, b: string)
    requires HyphenFree(b)
    ensures TailLength(a + "-" + b) == |b|
  {
    if b != "" {
      assert (a + "-" + b)[..|a| + |b|] == a + "-" + b[..|b| - 1];
      TailLengthOf(a, b[..|b| - 1]);
    }
  }

  lemma SeasonIsHyphenFree(season: string)
    requires IsSeason(season)
    ensures HyphenFree(season)
  {
    if season[0] == 'S' {
      forall i | 0 <= i < |season| ensures season[i] != '-' {
        if i > 0 { assert season[i] == season[1..][i - 1]; }
      }
    }
  }

  /** A base name determines its version and season. */
  lemma BaseIsInjective(v: string, s: string, v2: string, s2: string)
    requires IsSeason(s) && IsSeason(s2) && BaseVersion(v, s) == BaseVersion(v2, s2)
    ensures v == v2 && s == s2
  {
    SeasonIsHyphenFree(s);
    SeasonIsHyphenFree(s2);
    TailLengthOf(v, s);
    TailLengthOf(v2, s2);
    var b := BaseVersion(v, s);
    assert v == b[..|b| - |s| - 1] && v2 == b[..|b| - |s2| - 1];
    assert s == b[|b| - |s|..] && s2 == b[|b| - |s2|..];
  }

  /** A name that starts like a revision of (v, s), for a version without hyphens, shows v and s. */
  lemma SplitName(v: string, s: string, name: string)
    requires IsSeason(s) && HyphenFree(v)
    requires name == BaseVersion(v, s) || BaseVersion(v, s) + "-r" <= name
    ensures var rest := if FirstHyphen(name) < |name| then name[FirstHyphen(name) + 1..] else "";
            v == name[..FirstHyphen(name)] && s == rest[..FirstHyphen(rest)]
  {
    SeasonIsHyphenFree(s);
    var b := BaseVersion(v, s);
    var more := name[|b|..];
    assert name == v + ("-" + s + more);
    FirstHyphenAfter(v, "-" + s + more);
    assert name[|v| + 1..] == s + more;
    assert more == "" || more[0] == '-' by {
      if name != b { assert more[0] == (b + "-r")[|b|]; }
    }
    FirstHyphenAfter(s, more);
  }

  /** The directory filter of one version: its base name, or its base name followed by "-r". */
  predicate Matches(name: string, base: string) { name == base || base + "-r" <= name }

  /** One base name continues another with "-r". */
  predicate Shadows(base: string, other: string) { base + "-r" <= other }

  /** A revision name of one version fits the filter of another, told apart by lengths. */
  lemma LaterRevisionMatch(b: string, c: string, digits: string)
    requires AllDigits(digits) && b + "-r" <= c + "-r" + digits
    ensures b == c || Shadows(b, c)
  {
    var name := c + "-r" + digits;
    assert name[..|b|] == b && name[|b|] == '-' && name[|b| + 1] == 'r' by {
      assert (b + "-r")[|b|] == '-' && (b + "-r")[|b| + 1] == 'r';
      assert name[..|b|] == (b + "-r")[..|b|];
    }
    assert name[..|c|] == c && name[|c|] == '-' && name[|c| + 1] == 'r';
    assert forall i :: |c| + 2 <= i < |name| ==> IsDigit(name[i]) by {
      assert forall i :: |c| + 2 <= i < |name| ==> name[i] == digits[i - |c| - 2];
    }
    if |b| + 2 <= |c| {
      assert c == name[..|c|] && b + "-r" == name[..|b| + 2];
    }
  }

  lemma NumberedNameIsNoBase(v: string, s: string, c: string, digits: string)
    requires IsSeason(s) && AllDigits(digits)
    ensures BaseVersion(v, s) != c + "-r" + digits
  {
    SeasonIsHyphenFree(s);
    TailLengthOf(v, s);
    var tail := "r" + digits;
    assert forall i :: 0 < i < |tail| ==> tail[i] == digits[i - 1];
    TailLengthOf(c, tail);
    assert c + "-" + tail == c + "-r" + digits;
    assert BaseVersion(v, s)[|v| + 1..] == s && (c + "-" + tail)[|c| + 1..] == tail;
    assert !IsSeason(tail) by { assert SeasonNumber(tail)[0] == 'r'; }
  }

  /**
   The filter of a version selects a directory of another version exactly when that version's base
   name continues its own with "-r"; the revision plays no part.
   */
  lemma ForeignMatchIff(v: string, s: string, v2: string, s2: string, revision: nat)
    requires IsSeason(s) && IsSeason(s2) && revision >= 1
    ensures Matches(RevisionName(BaseVersion(v2, s2), revision), BaseVersion(v, s))
            <==> (v == v2 && s == s2) || Shadows(BaseVersion(v, s), BaseVersion(v2, s2))
  {
    var b, c := BaseVersion(v, s), BaseVersion(v2, s2);
    var name := RevisionName(c, revision);
    if Matches(name, b) {
      if revision > 1 {
        NumberedNameIsNoBase(v, s, c, Print(revision));
        LaterRevisionMatch(b, c, Print(revision));
      }
      if b == c { BaseIsInjective(v, s, v2, s2); }
    }
    if Shadows(b, c) { assert b + "-r" <= c <= name; }
  }

  /** A revision name belongs to one version only. */
  lemma RevisionNameIsInjective(v: string, s: string, v2: string, s2: string, k: nat, m: nat)
    requires IsSeason(s) && IsSeason(s2) && k >= 1 && m >= 1
    requires RevisionName(BaseVersion(v, s), k) == RevisionName(BaseVersion(v2, s2), m)
    ensures v == v2 && s == s2
  {
    ForeignMatchIff(v, s, v2, s2, m);
    ForeignMatchIff(v2, s2, v, s, k);
    assert Matches(RevisionName(BaseVersion(v, s), k), BaseVersion(v, s));
    assert Matches(RevisionName(BaseVersion(v2, s2), m), BaseVersion(v2, s2));
  }

  /** Versions without hyphens never shadow each other. */
  lemma PlainVersionsDoNotShadow(v: string, s: string, v2: string, s2: string)
    requires IsSeason(s) && IsSeason(s2) && HyphenFree(v) && HyphenFree(v2)
    ensures !Shadows(BaseVersion(v, s), BaseVersion(v2, s2))
  {
    if Shadows(BaseVersion(v, s), BaseVersion(v2, s2)) {
      SplitName(v, s, BaseVersion(v2, s2));
      SplitName(v2, s2, BaseVersion(v2, s2));
    }
  }

  // ---- Stored revisions ------------------------------------------------------------------

  /** Absent optional fields are those of manifests written before they existed. */
  datatype Manifest = Manifest(
    mode: string, modeName: string, season: string, version: string, setId: string,
    baseVersion: Option<string>, revision: Option<nat>, directoryName: Option<string>, contentHash: Option<ContentHash>)

  datatype RawDirectory = RawDirectory(payloads: Payloads, manifest: Manifest)

  datatype RawSnapshot = RawSnapshot(name: string, payloads: Payloads, revision: nat, contentHash: ContentHash, spec: VersionSpec)

  type Directories = map<string, RawDirectory>

  predicate FileMatches<R>(f: ResourceFile<R>, spec: VersionSpec) {
    f.version == spec.version && f.season == spec.season && f.setId == spec.mode
  }

  predicate ValidPayloads(p: Payloads, spec: VersionSpec) {
    BuildVersionSpec(p.config, spec.mode, spec.modeName) == Some(spec)
    && FileMatches(p.chess, spec) && FileMatches(p.race, spec) && FileMatches(p.job, spec)
    && FileMatches(p.tiers, spec) && FileMatches(p.equip, spec)
    && FileMatches(p.hex, spec) && FileMatches(p.adventure, spec) && FileMatches(p.galaxy, spec)
  }

  predicate ManifestMatches(m: Manifest, name: string, p: Payloads, spec: VersionSpec, revision: nat) {
    && m.mode == spec.mode && m.modeName == spec.modeName && m.season == spec.season && m.version == spec.version
    && m.setId == spec.mode
    && revision >= 1 && OrElse(m.revision, revision) == revision
    && OrElse(m.contentHash, HashOf(p)) == HashOf(p)
    && OrElse(m.baseVersion, Base(spec)) == Base(spec)
    && OrElse(m.directoryName, name) == name
  }

  /** `read_snapshot`: a directory is read back only when all its parts agree. */
  function ReadSnapshot(name: string, d: RawDirectory, mode: string, modeName: string): Option<RawSnapshot> {
    match BuildVersionSpec(d.payloads.config, mode, modeName)
    case None => None
    case Some(spec) =>
      match DirectoryRevision(name, Base(spec))
      case None => None
      case Some(revision) =>
        if ValidPayloads(d.payloads, spec) && ManifestMatches(d.manifest, name, d.payloads, spec, revision)
        then Some(RawSnapshot(name, d.payloads, revision, HashOf(d.payloads), spec))
        else None
  }

  function WrittenManifest(spec: VersionSpec, name: string, revision: nat, p: Payloads): Manifest {
    Manifest(spec.mode, spec.modeName, spec.season, spec.version, spec.mode,
             Some(Base(spec)), Some(revision), Some(name), Some(HashOf(p)))
  }

  datatype SyncStatus = Skipped | Matched | Updated

  datatype SyncResult = SyncResult(status: SyncStatus, spec: VersionSpec, directory: string, revision: nat, contentHash: ContentHash)

  datatype SyncError = BadConfig | IncompleteExisting | BadDownload | AlreadyPublished

  // ---- Invariant of the store ------------------------------------------------------------

  /** A stored directory as its own publication left it. */
  predicate Written(name: string, d: RawDirectory, spec: VersionSpec, revision: nat) {
    ValidPayloads(d.payloads, spec) && revision >= 1 && name == RevisionName(Base(spec), revision)
    && d.manifest == WrittenManifest(spec, name, revision, d.payloads)
  }

  /** The spec and revision a written directory carries. */
  function SpecOf(d: RawDirectory): VersionSpec {
    VersionSpec(d.manifest.version, d.manifest.season, d.manifest.mode, d.manifest.modeName)
  }

  function RevisionOf(d: RawDirectory): nat { OrElse(d.manifest.revision, 0) }

  ghost predicate DirectoryOk(dirs: Directories, name: string)
    requires name in dirs
  {
    Written(name, dirs[name], SpecOf(dirs[name]), RevisionOf(dirs[name]))
  }

  predicate SameBase(dirs: Directories, n: string, m: string) {
    n in dirs && m in dirs && Base(SpecOf(dirs[n])) == Base(SpecOf(dirs[m]))
  }

  /** Directories are as published; those of one base name share their version and differ in content. */
  ghost predicate StoreInv(dirs: Directories) {
    && (forall n {:trigger DirectoryOk(dirs, n)} :: n in dirs ==> DirectoryOk(dirs, n))
    && (forall n, m {:trigger SameBase(dirs, n, m)} :: SameBase(dirs, n, m) ==>
          SpecOf(dirs[n]) == SpecOf(dirs[m])
          && (HashOf(dirs[n].payloads) == HashOf(dirs[m].payloads) ==> n == m))
  }

  /** What reading a stored directory back gives: exactly what was published, or nothing for another mode. */
  lemma ReadBack(dirs: Directories, name: string, mode: string, modeName: string)
    requires StoreInv(dirs) && name in dirs
    ensures var d := dirs[name];
            mode == SpecOf(d).mode && modeName == SpecOf(d).modeName ==>
              ReadSnapshot(name, d, mode, modeName)
              == Some(RawSnapshot(name, d.payloads, RevisionOf(d), HashOf(d.payloads), SpecOf(d)))
    ensures ReadSnapshot(name, dirs[name], mode, modeName).Some? ==>
              mode == SpecOf(dirs[name]).mode && modeName == SpecOf(dirs[name]).modeName
  {
    var d := dirs[name];
    assert DirectoryOk(dirs, name);
    NamesAndRevisions(Base(SpecOf(d)), name, RevisionOf(d));
    CandidatesCarryKey(d.payloads.config, mode, modeName);
  }

  lemma {:induction false} CandidatesCarryKey(config: seq<VersionEntry>, mode: string, name: string)
    ensures forall e :: e in Candidates(config, mode, name) ==> e.mode == mode && e.name == name && e.newest && e in config
  {
    if config != [] { CandidatesCarryKey(config[1..], mode, name); }
  }
}
