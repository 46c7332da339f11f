/**
 What runs of syncs keep: the store of raw revisions stays sound in every run, its revisions stay
 numbered without gaps exactly while each publication follows an own revision, and an unforced
 sync answers for its own version exactly when no other version's directory comes first.
 */
module RawHistory {
  import opened Common
  import opened RawData
  import opened Decimal
  import opened RawStore
  import opened RawSync

  // ---- Which directories a sync selects --------------------------------------------------

  /** A stored directory of this very version. */
  predicate Own(dirs: Directories, spec: VersionSpec, n: string) { n in dirs && SpecOf(dirs[n]) == spec }

  lemma StoredSeason(dirs: Directories, n: string)
    requires StoreInv(dirs) && n in dirs
    ensures IsSeason(SpecOf(dirs[n]).season)
  {
    assert DirectoryOk(dirs, n);
  }

  /** No stored version's base name continues this one's with "-r". */
  predicate Unshadowed(dirs: Directories, spec: VersionSpec) {
    forall n :: n in dirs ==> !Shadows(Base(spec), Base(SpecOf(dirs[n])))
  }

  lemma SelectedIff(dirs: Directories, spec: VersionSpec, n: string)
    requires StoreInv(dirs) && IsSeason(spec.season) && n in dirs
    ensures n in MatchedNames(dirs, Base(spec))
            <==> Base(SpecOf(dirs[n])) == Base(spec) || Shadows(Base(spec), Base(SpecOf(dirs[n])))
  {
    var own := SpecOf(dirs[n]);
    assert DirectoryOk(dirs, n);
    StoredSeason(dirs, n);
    ForeignMatchIff(spec.version, spec.season, own.version, own.season, RevisionOf(dirs[n]));
    if Base(own) == Base(spec) { BaseIsInjective(spec.version, spec.season, own.version, own.season); }
  }

  /** The filter selects only the version's own directories exactly when no stored version shadows it. */
  lemma OnlyOwnSelectedIff(dirs: Directories, spec: VersionSpec)
    requires StoreInv(dirs) && IsSeason(spec.season)
    ensures (forall n :: n in MatchedNames(dirs, Base(spec)) ==> Base(SpecOf(dirs[n])) == Base(spec))
            <==> Unshadowed(dirs, spec)
  {
    forall n | n in dirs
      ensures n in MatchedNames(dirs, Base(spec))
              <==> Base(SpecOf(dirs[n])) == Base(spec) || Shadows(Base(spec), Base(SpecOf(dirs[n])))
    {
      SelectedIff(dirs, spec, n);
    }
  }

  /** What a matched directory reads as, whichever version it belongs to. */
  lemma MatchedReading(dirs: Directories, spec: VersionSpec, n: string)
    requires StoreInv(dirs) && Read(dirs, n, spec).Some?
    ensures SpecOf(dirs[n]).mode == spec.mode && SpecOf(dirs[n]).modeName == spec.modeName
    ensures Read(dirs, n, spec).value
            == RawSnapshot(n, dirs[n].payloads, RevisionOf(dirs[n]), HashOf(dirs[n].payloads), SpecOf(dirs[n]))
    ensures RevisionOf(dirs[n]) >= 1
  {
    assert DirectoryOk(dirs, n);
    ReadBack(dirs, n, spec.mode, spec.modeName);
  }

  /** Directories with the version's base name are its own, selected, and named by their revision. */
  lemma SharesBase(dirs: Directories, spec: VersionSpec, n: string)
    requires StoreInv(dirs) && IsSeason(spec.season) && AllReadable(dirs, spec)
    requires n in dirs && Base(SpecOf(dirs[n])) == Base(spec)
    ensures n in MatchedNames(dirs, Base(spec)) && SpecOf(dirs[n]) == spec
    ensures n == RevisionName(Base(spec), RevisionOf(dirs[n])) && RevisionOf(dirs[n]) in UsedRevisions(dirs, spec)
  {
    hide Read;
    assert DirectoryOk(dirs, n);
    SelectedIff(dirs, spec, n);
    MatchedReading(dirs, spec, n);
    StoredSeason(dirs, n);
    var own := SpecOf(dirs[n]);
    BaseIsInjective(spec.version, spec.season, own.version, own.season);
  }

  /** A stored directory that bears the name of a version's revision is that revision. */
  lemma NamedRevision(dirs: Directories, spec: VersionSpec, k: nat)
    requires StoreInv(dirs) && IsSeason(spec.season) && k >= 1 && RevisionName(Base(spec), k) in dirs
    ensures var d := dirs[RevisionName(Base(spec), k)]; Base(SpecOf(d)) == Base(spec) && RevisionOf(d) == k
  {
    var name := RevisionName(Base(spec), k);
    var own := SpecOf(dirs[name]);
    assert DirectoryOk(dirs, name);
    StoredSeason(dirs, name);
    RevisionNameIsInjective(spec.version, spec.season, own.version, own.season, k, RevisionOf(dirs[name]));
    NamesAndRevisions(Base(spec), name, k);
    NamesAndRevisions(Base(spec), name, RevisionOf(dirs[name]));
  }

  // ---- Publishing ------------------------------------------------------------------------

  /** The next revision's directory is free, whatever else is stored: publishing never collides. */
  lemma NextNameIsFree(dirs: Directories, spec: VersionSpec)
    requires StoreInv(dirs) && IsSeason(spec.season) && AllReadable(dirs, spec)
    ensures RevisionName(Base(spec), MaxOf(UsedRevisions(dirs, spec)) + 1) !in dirs
  {
    var revision := MaxOf(UsedRevisions(dirs, spec)) + 1;
    var name := RevisionName(Base(spec), revision);
    if name in dirs {
      NamedRevision(dirs, spec, revision);
      SharesBase(dirs, spec, name);
    }
  }

  lemma OwnHashIsNew(dirs: Directories, spec: VersionSpec, p: Payloads, n: string)
    requires StoreInv(dirs) && IsSeason(spec.season) && AllReadable(dirs, spec)
    requires !HashStored(dirs, spec, HashOf(p)) && n in dirs && Base(SpecOf(dirs[n])) == Base(spec)
    ensures SpecOf(dirs[n]) == spec && HashOf(dirs[n].payloads) != HashOf(p)
  {
    SharesBase(dirs, spec, n);
    MatchedReading(dirs, spec, n);
  }

  /** Every publication keeps the store sound. */
  lemma PublishKeepsStore(dirs: Directories, spec: VersionSpec, p: Payloads)
    requires StoreInv(dirs) && IsSeason(spec.season) && AllReadable(dirs, spec)
    requires ValidPayloads(p, spec) && !HashStored(dirs, spec, HashOf(p))
    ensures StoreInv(Publish(dirs, spec, p, MaxOf(UsedRevisions(dirs, spec)) + 1))
  {
    hide ValidPayloads, HashOf, Base, RevisionName, Read;
    var revision := MaxOf(UsedRevisions(dirs, spec)) + 1;
    var name := RevisionName(Base(spec), revision);
    var after := Publish(dirs, spec, p, revision);
    NextNameIsFree(dirs, spec);
    assert SpecOf(after[name]) == spec && RevisionOf(after[name]) == revision && after[name].payloads == p;
    forall n | n in after ensures DirectoryOk(after, n) {
      if n != name { assert DirectoryOk(dirs, n); }
    }
    forall n, m | SameBase(after, n, m)
      ensures SpecOf(after[n]) == SpecOf(after[m])
      ensures HashOf(after[n].payloads) == HashOf(after[m].payloads) ==> n == m
    {
      if n != name && m != name {
        assert SameBase(dirs, n, m);
      } else if n != m {
        OwnHashIsNew(dirs, spec, p, if n == name then m else n);
      }
    }
  }

  /** Revisions are numbered without gaps: each but the first follows a stored one. */
  predicate HasPredecessor(dirs: Directories, n: string)
    requires n in dirs
  {
    RevisionOf(dirs[n]) > 1 ==> RevisionName(Base(SpecOf(dirs[n])), RevisionOf(dirs[n]) - 1) in dirs
  }

  predicate Gapless(dirs: Directories) { forall n :: n in dirs ==> HasPredecessor(dirs, n) }

  /** Nothing matches the version, or the highest matched revision is one of its own. */
  predicate HighestIsOwn(dirs: Directories, spec: VersionSpec)
    requires AllReadable(dirs, spec)
  {
    var max := MaxOf(UsedRevisions(dirs, spec));
    max == 0 || RevisionName(Base(spec), max) in dirs
  }

  /** Publishing leaves no gap exactly when there was none and it follows an own revision. */
  lemma PublishIsGaplessIff(dirs: Directories, spec: VersionSpec, p: Payloads)
    requires StoreInv(dirs) && IsSeason(spec.season) && AllReadable(dirs, spec)
    ensures Gapless(Publish(dirs, spec, p, MaxOf(UsedRevisions(dirs, spec)) + 1))
            <==> Gapless(dirs) && HighestIsOwn(dirs, spec)
  {
    hide StoreInv, Read, RevisionName, Base;
    var max := MaxOf(UsedRevisions(dirs, spec));
    var name := RevisionName(Base(spec), max + 1);
    var after := Publish(dirs, spec, p, max + 1);
    NextNameIsFree(dirs, spec);
    assert SpecOf(after[name]) == spec && RevisionOf(after[name]) == max + 1;
    PredecessorIsOther(spec, max);
    assert HasPredecessor(after, name) <==> HighestIsOwn(dirs, spec);
    forall n | n in dirs ensures HasPredecessor(after, n) <==> HasPredecessor(dirs, n) {
      if RevisionOf(dirs[n]) > 1 { NewIsNoPredecessor(dirs, spec, n); }
    }
    assert forall n :: n in after <==> n == name || n in dirs;
  }

  lemma PredecessorIsOther(spec: VersionSpec, max: nat)
    ensures max > 0 ==> RevisionName(Base(spec), max) != RevisionName(Base(spec), max + 1)
  {
    if max > 0 {
      NamesAndRevisions(Base(spec), RevisionName(Base(spec), max), max);
      NamesAndRevisions(Base(spec), RevisionName(Base(spec), max + 1), max + 1);
    }
  }

  /** The published revision is above all own ones, so it precedes none of them. */
  lemma NewIsNoPredecessor(dirs: Directories, spec: VersionSpec, n: string)
    requires StoreInv(dirs) && IsSeason(spec.season) && AllReadable(dirs, spec)
    requires n in dirs && RevisionOf(dirs[n]) > 1
    ensures RevisionName(Base(SpecOf(dirs[n])), RevisionOf(dirs[n]) - 1)
            != RevisionName(Base(spec), MaxOf(UsedRevisions(dirs, spec)) + 1)
  {
    var own, k, next := SpecOf(dirs[n]), RevisionOf(dirs[n]) - 1, MaxOf(UsedRevisions(dirs, spec)) + 1;
    var name := RevisionName(Base(spec), next);
    if RevisionName(Base(own), k) == name {
      StoredSeason(dirs, n);
      RevisionNameIsInjective(own.version, own.season, spec.version, spec.season, k, next);
      SharesBase(dirs, spec, n);
      NamesAndRevisions(Base(spec), name, k);
      NamesAndRevisions(Base(spec), name, next);
    }
  }

  /** In a store without gaps the revisions of a version are exactly 1..n, each under its own name. */
  lemma {:induction false} RevisionsAreInterval(dirs: Directories, n: string, k: nat)
    requires StoreInv(dirs) && Gapless(dirs) && n in dirs && 1 <= k <= RevisionOf(dirs[n])
    ensures var name := RevisionName(Base(SpecOf(dirs[n])), k);
            name in dirs && RevisionOf(dirs[name]) == k && SpecOf(dirs[name]) == SpecOf(dirs[n])
    decreases RevisionOf(dirs[n]) - k
  {
    var spec := SpecOf(dirs[n]);
    assert DirectoryOk(dirs, n);
    StoredSeason(dirs, n);
    if k < RevisionOf(dirs[n]) {
      RevisionsAreInterval(dirs, n, k + 1);
      assert HasPredecessor(dirs, RevisionName(Base(spec), k + 1));
      var name := RevisionName(Base(spec), k);
      NamedRevision(dirs, spec, k);
      assert SameBase(dirs, n, name);
    }
  }

  // ---- One sync --------------------------------------------------------------------------

  /**
   Every sync, whatever is stored, keeps the store sound, changes no published directory, never
   collides when publishing, and reports a stored directory of its mode; a forced one reports a
   directory of its own version with the downloaded content.
   */
  lemma SyncKeepsStore(dirs: Directories, d: Download, force: bool, mode: string, modeName: string,
                       after: Directories, r: Result<SyncResult, SyncError>)
    requires StoreInv(dirs) && Synced(dirs, d, force, mode, modeName, after, r)
    ensures StoreInv(after)
    ensures forall n :: n in dirs ==> n in after && after[n] == dirs[n]
    ensures r != Err(AlreadyPublished)
    ensures r.Ok? ==> Some(r.value.spec) == BuildVersionSpec(d.config, mode, modeName)
    ensures r.Ok? ==> Answered(after, r.value, mode, modeName)
    ensures r.Ok? && force ==>
              Own(after, r.value.spec, r.value.directory) && d.rest.Some? && r.value.contentHash == HashOf(Downloaded(d))
  {
    hide BuildVersionSpec, ValidPayloads, HashOf, Read, StoreInv, FirstNewest, RevisionName;
    if BuildVersionSpec(d.config, mode, modeName).Some? {
      var spec := BuildVersionSpec(d.config, mode, modeName).value;
      SpecCarriesKey(d.config, mode, modeName);
      if AllReadable(dirs, spec) {
        NextNameIsFree(dirs, spec);
        if r.Ok? && r.value.status != Updated {
          MatchedReading(dirs, spec, r.value.directory);
          if force { SameContentSameVersion(dirs, spec, Downloaded(d), r.value.directory); }
        }
        if r.Ok? && r.value.status == Updated { PublishKeepsStore(dirs, spec, Downloaded(d)); }
      }
    }
  }

  /** The answer describes a stored directory of the mode. */
  predicate Answered(dirs: Directories, r: SyncResult, mode: string, modeName: string) {
    && r.directory in dirs
    && SpecOf(dirs[r.directory]).mode == mode && SpecOf(dirs[r.directory]).modeName == modeName
    && RevisionOf(dirs[r.directory]) == r.revision && HashOf(dirs[r.directory].payloads) == r.contentHash
  }

  /** The configuration is part of the hashed content, so equal content means the same version. */
  lemma SameContentSameVersion(dirs: Directories, spec: VersionSpec, p: Payloads, n: string)
    requires StoreInv(dirs) && n in dirs && ValidPayloads(p, spec) && HashOf(dirs[n].payloads) == HashOf(p)
    requires SpecOf(dirs[n]).mode == spec.mode && SpecOf(dirs[n]).modeName == spec.modeName
    ensures SpecOf(dirs[n]) == spec
  {
    hide BuildVersionSpec;
    assert DirectoryOk(dirs, n);
    assert HashOf(dirs[n].payloads).config == HashOf(p).config;
  }

  /**
   A sync that comes to compare contents finds a match exactly when some selected directory holds
   the very records that were downloaded; otherwise it publishes them under the next revision.
   */
  lemma MatchedIff(dirs: Directories, d: Download, force: bool, mode: string, modeName: string,
                   after: Directories, r: Result<SyncResult, SyncError>)
    requires StoreInv(dirs) && Synced(dirs, d, force, mode, modeName, after, r) && r.Ok? && r.value.status != Skipped
    ensures r.value.status == Matched
            <==> exists n :: n in dirs && Matches(n, Base(r.value.spec)) && SameContents(dirs[n].payloads, Downloaded(d))
    ensures r.value.status == Matched ==> after == dirs && SameContents(dirs[r.value.directory].payloads, Downloaded(d))
    ensures r.value.status == Updated ==>
              && r.value.directory !in dirs && after.Keys == dirs.Keys + {r.value.directory}
              && after[r.value.directory].payloads == Downloaded(d)
  {
    hide BuildVersionSpec, ValidPayloads, HashOf, Read, StoreInv, FirstNewest, RevisionName, SameContents, Matches;
    var spec := r.value.spec;
    SpecCarriesKey(d.config, mode, modeName);
    forall n | n in MatchedNames(dirs, Base(spec))
      ensures Read(dirs, n, spec).value.contentHash == HashOf(Downloaded(d)) <==> SameContents(dirs[n].payloads, Downloaded(d))
    {
      MatchedReading(dirs, spec, n);
      HashesAgreeIff(dirs[n].payloads, Downloaded(d));
    }
  }

  /** A publishing answer follows an own revision; every other answer adds nothing. */
  predicate LeavesNoGap(dirs: Directories, r: Result<SyncResult, SyncError>) {
    r.Ok? && r.value.status == Updated && AllReadable(dirs, r.value.spec) ==> HighestIsOwn(dirs, r.value.spec)
  }

  /** After a sync the revisions are gapless exactly when they were before and it left no gap. */
  lemma SyncIsGaplessIff(dirs: Directories, d: Download, force: bool, mode: string, modeName: string,
                         after: Directories, r: Result<SyncResult, SyncError>)
    requires StoreInv(dirs) && Synced(dirs, d, force, mode, modeName, after, r)
    ensures Gapless(after) <==> Gapless(dirs) && LeavesNoGap(dirs, r)
  {
    hide BuildVersionSpec, ValidPayloads, HashOf, Read, StoreInv, FirstNewest, RevisionName, Gapless, HighestIsOwn;
    if r.Ok? && r.value.status == Updated {
      SpecCarriesKey(d.config, mode, modeName);
      PublishIsGaplessIff(dirs, r.value.spec, Downloaded(d));
    }
  }

  /** No directory of another version has the highest matched revision and comes before this one. */
  predicate ComesFirst(dirs: Directories, spec: VersionSpec, name: string)
    requires AllReadable(dirs, spec)
  {
    forall m :: m in MatchedNames(dirs, Base(spec)) && m != name && !Own(dirs, spec, m) ==>
      Read(dirs, m, spec).value.revision == MaxOf(UsedRevisions(dirs, spec)) ==> Earlier(Base(spec), name, m)
  }

  /**
   An unforced answer belongs to its own version exactly when the highest matched revision is one of
   its own and no other version's directory of that revision comes before it.
   */
  lemma SkipAnswersOwnIff(dirs: Directories, d: Download, mode: string, modeName: string,
                          after: Directories, r: Result<SyncResult, SyncError>)
    requires StoreInv(dirs) && Synced(dirs, d, false, mode, modeName, after, r) && r.Ok? && r.value.status == Skipped
    ensures AllReadable(dirs, r.value.spec)
    ensures Own(after, r.value.spec, r.value.directory)
            <==> HighestIsOwn(dirs, r.value.spec)
                 && ComesFirst(dirs, r.value.spec, RevisionName(Base(r.value.spec), MaxOf(UsedRevisions(dirs, r.value.spec))))
  {
    hide BuildVersionSpec, ValidPayloads, HashOf, Read, RevisionName, Earlier;
    var spec, n := r.value.spec, r.value.directory;
    SpecCarriesKey(d.config, mode, modeName);
    var max := MaxOf(UsedRevisions(dirs, spec));
    var name := RevisionName(Base(spec), max);
    MatchedReading(dirs, spec, n);
    if Own(dirs, spec, n) {
      SharesBase(dirs, spec, n);
      assert n == name;
    } else if HighestIsOwn(dirs, spec) && ComesFirst(dirs, spec, name) {
      OwnHighest(dirs, spec);
      EarlierIsOrder(Base(spec), n, name, n);
    }
  }

  lemma OwnHighest(dirs: Directories, spec: VersionSpec)
    requires StoreInv(dirs) && IsSeason(spec.season) && AllReadable(dirs, spec)
    requires MaxOf(UsedRevisions(dirs, spec)) > 0 && HighestIsOwn(dirs, spec)
    ensures var max := MaxOf(UsedRevisions(dirs, spec)); var name := RevisionName(Base(spec), max);
            && Own(dirs, spec, name) && name in MatchedNames(dirs, Base(spec))
            && Read(dirs, name, spec).value.revision == max
  {
    hide Read, RevisionName, Base;
    var max := MaxOf(UsedRevisions(dirs, spec));
    var name := RevisionName(Base(spec), max);
    NamedRevision(dirs, spec, max);
    SharesBase(dirs, spec, name);
    MatchedReading(dirs, spec, name);
  }

  /** A selected directory of another mode makes every sync of the version fail, changing nothing. */
  lemma OtherModeBlocks(dirs: Directories, spec: VersionSpec, n: string, d: Download, force: bool, mode: string, modeName: string,
                        after: Directories, r: Result<SyncResult, SyncError>)
    requires StoreInv(dirs) && n in MatchedNames(dirs, Base(spec))
    requires SpecOf(dirs[n]).mode != mode || SpecOf(dirs[n]).modeName != modeName
    requires BuildVersionSpec(d.config, mode, modeName) == Some(spec) && Synced(dirs, d, force, mode, modeName, after, r)
    ensures r == Err(IncompleteExisting) && after == dirs
  {
    hide BuildVersionSpec, ReadSnapshot, StoreInv;
    SpecCarriesKey(d.config, mode, modeName);
    ReadBack(dirs, n, mode, modeName);
    assert Read(dirs, n, spec).None?;
  }

  // ---- Versions without hyphens ----------------------------------------------------------

  predicate PlainStore(dirs: Directories) { forall n :: n in dirs ==> HyphenFree(SpecOf(dirs[n]).version) }

  predicate PlainConfig(config: seq<VersionEntry>, mode: string, modeName: string) {
    var built := BuildVersionSpec(config, mode, modeName);
    built.Some? ==> HyphenFree(built.value.version)
  }

  lemma PlainIsUnshadowed(dirs: Directories, spec: VersionSpec)
    requires StoreInv(dirs) && PlainStore(dirs) && HyphenFree(spec.version) && IsSeason(spec.season)
    ensures Unshadowed(dirs, spec)
  {
    forall n | n in dirs ensures !Shadows(Base(spec), Base(SpecOf(dirs[n]))) {
      StoredSeason(dirs, n);
      var own := SpecOf(dirs[n]);
      PlainVersionsDoNotShadow(spec.version, spec.season, own.version, own.season);
    }
  }

  lemma UnshadowedIsOwn(dirs: Directories, spec: VersionSpec, n: string)
    requires StoreInv(dirs) && IsSeason(spec.season) && AllReadable(dirs, spec) && Unshadowed(dirs, spec)
    requires n in MatchedNames(dirs, Base(spec))
    ensures Own(dirs, spec, n)
  {
    SelectedIff(dirs, spec, n);
    SharesBase(dirs, spec, n);
  }

  lemma UnshadowedHighest(dirs: Directories, spec: VersionSpec)
    requires StoreInv(dirs) && IsSeason(spec.season) && AllReadable(dirs, spec) && Unshadowed(dirs, spec)
    ensures HighestIsOwn(dirs, spec)
  {
    hide Read, RevisionName, Base, StoreInv;
    var max := MaxOf(UsedRevisions(dirs, spec));
    if max > 0 {
      assert max in UsedRevisions(dirs, spec);
      var n :| n in MatchedNames(dirs, Base(spec)) && Read(dirs, n, spec).value.revision == max;
      UnshadowedIsOwn(dirs, spec, n);
      MatchedReading(dirs, spec, n);
      SharesBase(dirs, spec, n);
    }
  }

  /** Among versions without hyphens every sync leaves no gap, answers for its own version, and keeps it so. */
  lemma PlainSync(dirs: Directories, d: Download, force: bool, mode: string, modeName: string,
                  after: Directories, r: Result<SyncResult, SyncError>)
    requires StoreInv(dirs) && PlainStore(dirs) && PlainConfig(d.config, mode, modeName)
    requires Synced(dirs, d, force, mode, modeName, after, r)
    ensures PlainStore(after) && LeavesNoGap(dirs, r)
    ensures r.Ok? ==> Own(after, r.value.spec, r.value.directory)
  {
    hide BuildVersionSpec, ValidPayloads, HashOf, Read, StoreInv, FirstNewest, RevisionName, HighestIsOwn;
    SyncKeepsStore(dirs, d, force, mode, modeName, after, r);
    if r.Ok? {
      var spec := r.value.spec;
      SpecCarriesKey(d.config, mode, modeName);
      PlainIsUnshadowed(dirs, spec);
      UnshadowedHighest(dirs, spec);
      if r.value.status != Updated { UnshadowedIsOwn(dirs, spec, r.value.directory); }
    }
  }

  // ---- What a shadowing version does -----------------------------------------------------

  function EmptyFile<R>(version: string, season: string, mode: string): ResourceFile<R> {
    ResourceFile(version, season, mode, [])
  }

  function EmptyPayloads(version: string, season: string): Payloads {
    Payloads([VersionEntry("18", "n", true, version, season)],
             EmptyFile(version, season, "18"), EmptyFile(version, season, "18"), EmptyFile(version, season, "18"),
             EmptyFile(version, season, "18"), EmptyFile(version, season, "18"),
             EmptyFile(version, season, "18"), EmptyFile(version, season, "18"), EmptyFile(version, season, "18"), "")
  }

  const CURRENT := VersionSpec("a", "S1", "18", "n")
  const FOREIGN := VersionSpec("a-S1-r", "2", "18", "n")
  const FOREIGN_NAME := "a-S1-r-2"

  lemma SpecsOfEmptyPayloads()
    ensures BuildVersionSpec(EmptyPayloads("a", "S1").config, "18", "n") == Some(CURRENT)
    ensures BuildVersionSpec(EmptyPayloads("a-S1-r", "2").config, "18", "n") == Some(FOREIGN)
    ensures Base(FOREIGN) == FOREIGN_NAME && Base(CURRENT) == "a-S1"
    ensures ValidPayloads(EmptyPayloads("a", "S1"), CURRENT) && ValidPayloads(EmptyPayloads("a-S1-r", "2"), FOREIGN)
  {
    assert AllDigits("1") && AllDigits("2");
    assert "S1"[1..] == "1";
    var c, f := EmptyPayloads("a", "S1").config, EmptyPayloads("a-S1-r", "2").config;
    assert Candidates(c[1..], "18", "n") == [] && Candidates(f[1..], "18", "n") == [];
  }

  const FOREIGN_STORE := Publish(map[], FOREIGN, EmptyPayloads("a-S1-r", "2"), 1)

  lemma ForeignIsMatched()
    ensures MatchedNames(FOREIGN_STORE, Base(CURRENT)) == {FOREIGN_NAME} == FOREIGN_STORE.Keys
    ensures SpecOf(FOREIGN_STORE[FOREIGN_NAME]) == FOREIGN
    ensures Read(FOREIGN_STORE, FOREIGN_NAME, CURRENT).Some?
    ensures var read := Read(FOREIGN_STORE, FOREIGN_NAME, CURRENT).value;
            read.revision == 1 && read.contentHash == HashOf(EmptyPayloads("a-S1-r", "2"))
  {
    hide BuildVersionSpec, ValidPayloads, HashOf, EmptyPayloads;
    SpecsOfEmptyPayloads();
    assert FOREIGN_STORE.Keys == {FOREIGN_NAME};
    assert FOREIGN_NAME[..6] == "a-S1-r" && Base(CURRENT) + "-r" == "a-S1-r";
  }

  lemma HashesDiffer()
    ensures HashOf(EmptyPayloads("a", "S1")) != HashOf(EmptyPayloads("a-S1-r", "2"))
  {
    var p, q := EmptyPayloads("a", "S1"), EmptyPayloads("a-S1-r", "2");
    assert HashOf(p).config[0].version != HashOf(q).config[0].version;
  }

  /**
   When an older version shadows the current one, the filter selects the older one's directory: an
   unforced sync then answers with the wrong version, and a forced one starts at revision 2.
   */
  lemma HyphenatedVersionMisleads(force: bool, after: Directories, r: Result<SyncResult, SyncError>)
    requires var p := EmptyPayloads("a", "S1");
             Synced(FOREIGN_STORE, Download(p.config, Some(p)), force, "18", "n", after, r)
    ensures r.Ok? && r.value.spec == CURRENT
    ensures !force ==> r.value.directory == FOREIGN_NAME && SpecOf(after[FOREIGN_NAME]) == FOREIGN
    ensures force ==> r.value.status == Updated && r.value.revision == 2 && RevisionName(Base(CURRENT), 1) !in after
  {
    hide BuildVersionSpec, ValidPayloads, HashOf, EmptyPayloads, Read, MatchedNames, FirstNewest;
    SpecsOfEmptyPayloads();
    ForeignIsMatched();
    HashesDiffer();
    var p := EmptyPayloads("a", "S1");
    assert Downloaded(Download(p.config, Some(p))) == p;
    assert UsedRevisions(FOREIGN_STORE, CURRENT) == {1};
    assert !HashStored(FOREIGN_STORE, CURRENT, HashOf(p));
    assert RevisionName(Base(CURRENT), 2) == "a-S1-r2" by { assert Print(2) == "2"; }
  }
}
