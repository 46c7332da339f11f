/** What a raw revision's files must say to be published and read back, spelled out field by field. */
module RawMeaning {
  import opened Common
  import opened RawData
  import opened Decimal
  import opened Text
  import opened RawStore
  import opened RawSync

  // ---- The current version ---------------------------------------------------------------

  /** The entry is the newest one of this mode. */
  predicate Current(e: VersionEntry, mode: string, name: string) { e.mode == mode && e.name == name && e.newest }

  predicate NoPathCharacters(s: string) { s != "." && s != ".." && '/' !in s && '\\' !in s && '\U{0000}' !in s }

  /** Decimal digits, with or without a leading S. */
  ghost predicate SeasonText(s: string) {
    exists digits: string :: digits != "" && AllDigits(digits) && (s == digits || s == "S" + digits)
  }

  lemma SeasonTextIff(s: string)
    ensures IsSeason(s) <==> SeasonText(s)
  {
    if IsSeason(s) {
      var digits := SeasonNumber(s);
      assert s == digits || s == "S" + digits;
    }
    if digits: string :| digits != "" && AllDigits(digits) && (s == digits || s == "S" + digits) {
      if s == digits { assert IsDigit(s[0]); } else { assert s[1..] == digits; }
    }
  }

  predicate OnlyAt(config: seq<VersionEntry>, mode: string, name: string, k: nat) {
    k < |config| && Current(config[k], mode, name) && forall j :: 0 <= j < |config| && j != k ==> !Current(config[j], mode, name)
  }

  lemma {:induction false} NoneIsCurrent(config: seq<VersionEntry>, mode: string, name: string)
    ensures Candidates(config, mode, name) == [] <==> forall j :: 0 <= j < |config| ==> !Current(config[j], mode, name)
  {
    if config != [] {
      var rest := config[1..];
      NoneIsCurrent(rest, mode, name);
      assert forall j :: 0 <= j < |rest| ==> rest[j] == config[j + 1];
      if forall j :: 0 <= j < |rest| ==> !Current(rest[j], mode, name) {
        forall j | 0 < j < |config| ensures !Current(config[j], mode, name) { assert rest[j - 1] == config[j]; }
      } else {
        var j :| 0 <= j < |rest| && Current(rest[j], mode, name);
        assert Current(config[j + 1], mode, name);
      }
    }
  }

  lemma {:induction false} OnlyOneIsCurrent(config: seq<VersionEntry>, mode: string, name: string, k: nat)
    requires k < |config|
    ensures OnlyAt(config, mode, name, k) ==> Candidates(config, mode, name) == [config[k]]
  {
    if OnlyAt(config, mode, name, k) {
      var rest := config[1..];
      forall j | 0 <= j < |rest| && j != k - 1 ensures !Current(rest[j], mode, name) { assert rest[j] == config[j + 1]; }
      if k > 0 {
        assert rest[k - 1] == config[k];
        OnlyOneIsCurrent(rest, mode, name, k - 1);
      } else {
        NoneIsCurrent(rest, mode, name);
      }
    }
  }

  lemma {:induction false} OneIsCurrent(config: seq<VersionEntry>, mode: string, name: string) returns (k: nat)
    requires |Candidates(config, mode, name)| == 1
    ensures OnlyAt(config, mode, name, k)
  {
    var rest := config[1..];
    if Current(config[0], mode, name) {
      NoneIsCurrent(rest, mode, name);
      k := 0;
      forall j | 0 < j < |config| ensures !Current(config[j], mode, name) { assert rest[j - 1] == config[j]; }
    } else {
      var i := OneIsCurrent(rest, mode, name);
      k := i + 1;
      forall j | 0 <= j < |config| && j != k ensures !Current(config[j], mode, name) {
        if j > 0 { assert rest[j - 1] == config[j]; }
      }
    }
  }

  /** A mode has a version exactly when one entry alone is its newest, and that entry is complete and safe. */
  lemma CurrentVersionIff(config: seq<VersionEntry>, mode: string, name: string, spec: VersionSpec)
    ensures BuildVersionSpec(config, mode, name) == Some(spec) <==>
              exists k: nat :: OnlyAt(config, mode, name, k) && IsVersionOf(config[k], spec)
  {
    hide Candidates, IsSeason;
    if |Candidates(config, mode, name)| == 1 { var k := OneIsCurrent(config, mode, name); }
    forall k: nat | k < |config|
      ensures SafeComponent(config[k].version) <==> NoPathCharacters(config[k].version)
      ensures SafeComponent(config[k].season) <==> NoPathCharacters(config[k].season)
      ensures SafeComponent(config[k].mode) <==> NoPathCharacters(config[k].mode)
      ensures IsSeason(config[k].season) <==> SeasonText(config[k].season)
    {
      SafeIff(config[k].version);
      SafeIff(config[k].season);
      SafeIff(config[k].mode);
      SeasonTextIff(config[k].season);
    }
    if k: nat :| OnlyAt(config, mode, name, k) {
      OnlyOneIsCurrent(config, mode, name, k);
      assert forall j: nat :: OnlyAt(config, mode, name, j) ==> j == k;
    }
  }

  lemma SafeIff(s: string)
    ensures SafeComponent(s) <==> NoPathCharacters(s)
  {
  }

  ghost predicate IsVersionOf(e: VersionEntry, spec: VersionSpec) {
    && spec == VersionSpec(e.version, e.season, e.mode, e.name)
    && e.version != "" && e.season != "" && e.mode != "" && e.name != ""
    && NoPathCharacters(e.version) && NoPathCharacters(e.season) && NoPathCharacters(e.mode) && SeasonText(e.season)
  }

  // ---- Directory names and their order ---------------------------------------------------

  /** The first revision bears the base name, the k-th one the base name, "-r" and k. */
  lemma RevisionNames(version: string, season: string, k: nat)
    requires k >= 1
    ensures RevisionName(BaseVersion(version, season), k) ==
            if k == 1 then version + "-" + season else version + "-" + season + "-r" + Print(k)
    ensures Value(Print(k)) == k && Print(k)[0] != '0'
  {
    ValueOfPrint(k);
  }

  /** The base name is read first, then the other names by their characters, so "-r10" comes before "-r2". */
  lemma NamesInOrder(base: string, a: string, b: string)
    requires a != base && b != base
    ensures Earlier(base, base, a) && !Earlier(base, a, base)
    ensures Earlier(base, a, b) <==> Less(a, b)
    ensures Earlier("a-S1", "a-S1-r10", "a-S1-r2")
  {
    LessIff("a-S1-r10", "a-S1-r2", 6);
  }

  // ---- What reading demands --------------------------------------------------------------

  predicate FileSays<R>(f: ResourceFile<R>, spec: VersionSpec) {
    f.version == spec.version && f.season == spec.season && f.setId == spec.mode
  }

  /** An optional field of a manifest is missing or holds this value. */
  predicate MayHold<T(==)>(field: Option<T>, value: T) { field == None || field == Some(value) }

  /** The manifest repeats what the files, the directory name and the contents say. */
  predicate ManifestSays(m: Manifest, name: string, spec: VersionSpec, revision: nat, h: ContentHash) {
    && m.mode == spec.mode && m.modeName == spec.modeName && m.season == spec.season && m.version == spec.version
    && m.setId == spec.mode
    && MayHold(m.baseVersion, spec.version + "-" + spec.season) && MayHold(m.revision, revision)
    && MayHold(m.directoryName, name) && MayHold(m.contentHash, h)
  }

  predicate FilesSay(p: Payloads, spec: VersionSpec) {
    && FileSays(p.chess, spec) && FileSays(p.race, spec) && FileSays(p.job, spec) && FileSays(p.tiers, spec)
    && FileSays(p.equip, spec) && FileSays(p.hex, spec) && FileSays(p.adventure, spec) && FileSays(p.galaxy, spec)
  }

  /** Exactly which directories read back, and as what: every part must agree with every other. */
  lemma ReadableIff(name: string, d: RawDirectory, mode: string, modeName: string, s: RawSnapshot)
    ensures ReadSnapshot(name, d, mode, modeName) == Some(s) <==>
              && BuildVersionSpec(d.payloads.config, mode, modeName) == Some(s.spec)
              && FilesSay(d.payloads, s.spec)
              && s.revision >= 1 && name == RevisionName(Base(s.spec), s.revision)
              && ManifestSays(d.manifest, name, s.spec, s.revision, HashOf(d.payloads))
              && s.name == name && s.payloads == d.payloads && s.contentHash == HashOf(d.payloads)
  {
    hide BuildVersionSpec, HashOf, RevisionName, DirectoryRevision;
    var built := BuildVersionSpec(d.payloads.config, mode, modeName);
    SpecHasMode(d.payloads.config, mode, modeName);
    if built.Some? {
      var read := DirectoryRevision(name, Base(built.value));
      RevisionIsPositive(name, Base(built.value));
      if s.revision >= 1 { NamesAndRevisions(Base(built.value), name, s.revision); }
      if read.Some? { NamesAndRevisions(Base(built.value), name, read.value); }
    }
  }

  lemma SpecHasMode(config: seq<VersionEntry>, mode: string, modeName: string)
    ensures BuildVersionSpec(config, mode, modeName).Some? ==>
              BuildVersionSpec(config, mode, modeName).value.mode == mode && BuildVersionSpec(config, mode, modeName).value.modeName == modeName
  {
    CandidatesCarryKey(config, mode, modeName);
  }

  lemma RevisionIsPositive(name: string, base: string)
    ensures DirectoryRevision(name, base).Some? ==> DirectoryRevision(name, base).value >= 1
  {
    if name != base && DirectoryRevision(name, base).Some? { PrintOfValue(name[|base| + 2..]); }
  }

  /** What a publication writes can be read back at once, and its manifest leaves nothing out. */
  lemma PublicationReads(dirs: Directories, spec: VersionSpec, p: Payloads, revision: nat)
    requires ValidPayloads(p, spec) && revision >= 1
    ensures var name := RevisionName(Base(spec), revision); var after := Publish(dirs, spec, p, revision);
            && after.Keys == dirs.Keys + {name} && (forall n :: n in dirs && n != name ==> after[n] == dirs[n])
            && ReadSnapshot(name, after[name], spec.mode, spec.modeName) == Some(RawSnapshot(name, p, revision, HashOf(p), spec))
            && var m := after[name].manifest;
               m.baseVersion.Some? && m.revision.Some? && m.directoryName.Some? && m.contentHash.Some?
  {
    hide BuildVersionSpec, HashOf, RevisionName, DirectoryRevision, ReadSnapshot;
    var name := RevisionName(Base(spec), revision);
    var after := Publish(dirs, spec, p, revision);
    ReadableIff(name, after[name], spec.mode, spec.modeName, RawSnapshot(name, p, revision, HashOf(p), spec));
  }
}
