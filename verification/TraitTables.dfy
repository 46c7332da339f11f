/**
 Building the traits of a snapshot: base records give the traits, and two encodings of tier
 records (one aggregate record, or one record per level) fill one table of tiers.

 None stands for a DataValidationError throughout.
 */
module TraitTables {
  import opened Common
  import opened RawData
  import opened JccTables
  import opened Validation
  import opened Descriptions
  import opened Decimal
  import opened Text
  import opened Structured

  // ---- Base records ----------------------------------------------------------------------

  /** A base trait names at least one level, and its maxLevel, if any, is their number. */
  predicate BaseOk(b: BaseTrait) {
    b.activation != [] && (b.maxLevel.Some? ==> b.maxLevel.value == |b.activation|)
  }

  function ReadBase(kind: Kind, key: string, record: BaseTraitRecord): (b: Option<BaseTrait>)
    ensures b.Some? ==> BaseOk(b.value) && b.value.key == TraitKey(kind, key)
  {
    var id := KeyMatchingId(key, record.id);
    var activation := SplitInts(record.numList);
    var maxLevel := OptionalInt(record.maxLevel);
    var name := RequiredString(record.name);
    if id.None? || activation.None? || maxLevel.None? || name.None? || OptionalInt(record.mapId).None? then None
    else if maxLevel.value.Some? && maxLevel.value.value != |activation.value| then None
    else
      AcceptedIntsNonEmpty(record.numList);
      Some(BaseTrait(TraitKey(kind, id.value), name.value, maxLevel.value, activation.value, OptionalInt(record.mapId).value))
  }

  function BasesOfKind(kind: Kind, records: seq<(string, BaseTraitRecord)>): Option<seq<BaseTrait>> {
    if records == [] then Some([])
    else
      var n := |records| - 1;
      var before := BasesOfKind(kind, records[..n]);
      var last := ReadBase(kind, records[n].0, records[n].1);
      if before.None? || last.None? then None else Some(before.value + [last.value])
  }

  function Bases(race: Dict<BaseTraitRecord>, job: Dict<BaseTraitRecord>): Option<seq<BaseTrait>> {
    var races := BasesOfKind(Race, race);
    var jobs := BasesOfKind(Job, job);
    if races.None? || jobs.None? then None else Some(races.value + jobs.value)
  }

  predicate DistinctBases(bases: seq<BaseTrait>) {
    forall i, j :: 0 <= i < j < |bases| ==> bases[i].key != bases[j].key
  }

  function FindBase(bases: seq<BaseTrait>, key: TraitKey): (b: Option<BaseTrait>)
    ensures b.Some? ==> b.value in bases && b.value.key == key
    ensures b.None? ==> forall x :: x in bases ==> x.key != key
  {
    if bases == [] then None
    else if bases[|bases| - 1].key == key then Some(bases[|bases| - 1])
    else FindBase(bases[..|bases| - 1], key)
  }

  method CollectBases(kind: Kind, records: Dict<BaseTraitRecord>) returns (r: Option<seq<BaseTrait>>)
    ensures r == BasesOfKind(kind, records)
  {
    var bases: seq<BaseTrait> := [];
    for i := 0 to |records|
      invariant BasesOfKind(kind, records[..i]) == Some(bases)
    {
      assert records[..i + 1][..i] == records[..i];
      var b := ReadBase(kind, records[i].0, records[i].1);
      if b.None? {
        BadBaseRejects(kind, records, i);
        return None;
      }
      bases := bases + [b.value];
    }
    assert records[..|records|] == records;
    r := Some(bases);
  }

  lemma {:induction false} BadBaseRejects(kind: Kind, records: seq<(string, BaseTraitRecord)>, i: nat)
    requires i < |records| && ReadBase(kind, records[i].0, records[i].1).None?
    ensures BasesOfKind(kind, records).None?
  {
    if i < |records| - 1 { BadBaseRejects(kind, records[..|records| - 1], i); }
  }

  lemma {:induction false} BasesAreRecords(kind: Kind, records: seq<(string, BaseTraitRecord)>)
    requires BasesOfKind(kind, records).Some?
    ensures var bs := BasesOfKind(kind, records).value;
            |bs| == |records|
            && forall i :: 0 <= i < |records| ==> BaseOk(bs[i]) && bs[i].key == TraitKey(kind, records[i].0)
  {
    hide ReadBase, BaseOk;
    if records != [] { BasesAreRecords(kind, records[..|records| - 1]); }
  }

  /** No two base traits share kind and id. */
  lemma BasesAreDistinct(race: Dict<BaseTraitRecord>, job: Dict<BaseTraitRecord>)
    requires Bases(race, job).Some?
    ensures DistinctBases(Bases(race, job).value)
    ensures forall b :: b in Bases(race, job).value ==> BaseOk(b)
  {
    BasesAreRecords(Race, race);
    BasesAreRecords(Job, job);
  }

  // ---- Tier records ----------------------------------------------------------------------

  /** What one tier record contributes: tiers of one base trait. */
  datatype Contribution = Contribution(key: TraitKey, tiers: seq<Tier>)

  predicate IsAggregate(record: TierRecord) { record.num.Text? && HasBar(record.num.s) }

  predicate AgreesWith(value: Option<Scalar>, activation: seq<int>) {
    value.None? || SplitInts(value.value) == Some(activation)
  }

  /** `_aggregate_trait_tiers` for a record that is an aggregate. */
  function AggregateTiers(record: TierRecord, id: string, activation: seq<int>): Option<seq<Tier>> {
    var maxLevel := OptionalInt(record.maxLevel);
    var pieces := SplitDescriptions(OptionalString(record.realDesc), activation);
    if SplitInts(record.num) != Some(activation) then None
    else if !AgreesWith(record.numList, activation) || !AgreesWith(record.values, activation) then None
    else if maxLevel.None? || (maxLevel.value.Some? && maxLevel.value.value != |activation|) then None
    else if pieces.None? then None
    else
      PiecesPerCount(OptionalString(record.realDesc), activation);
      Some(seq(|activation|, i requires 0 <= i < |activation| =>
        Tier(LevelId(id, i + 1), i + 1, activation[i], i + 1, OptionalString(record.desc), pieces.value[i])))
  }

  function LevelId(id: string, level: nat): string { id + ":" + Print(level) }

  lemma PiecesPerCount(value: Option<string>, activation: seq<int>)
    requires SplitDescriptions(value, activation).Some?
    ensures |SplitDescriptions(value, activation).value| == |activation|
  {
    if value.Some? { assert |Counts(Scan(value.value, 0))| == |activation|; }
  }

  function SingleTier(record: TierRecord, id: string): Option<seq<Tier>> {
    var level := RequiredInt(record.level);
    var count := RequiredInt(record.num);
    if level.None? || count.None? then None
    else Some([Tier(id, level.value, count.value, level.value, OptionalString(record.desc), OptionalString(record.realDesc))])
  }

  function KindOfCode(code: Scalar): Option<Kind> {
    var n := RequiredInt(code);
    if n == Some(0) then Some(Race) else if n == Some(1) then Some(Job) else None
  }

  /** One tier record, read against the base traits. */
  function ReadTiers(bases: seq<BaseTrait>, key: string, record: TierRecord): Option<Contribution> {
    var id := KeyMatchingId(key, record.id);
    var checkId := RequiredString(record.checkId);
    var kind := KindOfCode(record.kindCode);
    if id.None? || checkId.None? || kind.None? then None
    else
      var base := FindBase(bases, TraitKey(kind.value, checkId.value));
      if base.None? then None
      else
        var tiers := if IsAggregate(record) then AggregateTiers(record, id.value, base.value.activation)
                     else SingleTier(record, id.value);
        if tiers.None? then None else Some(Contribution(base.value.key, tiers.value))
  }

  // ---- The table of tiers ----------------------------------------------------------------

  datatype Slot = Slot(key: TraitKey, level: int)

  type TierTable = map<Slot, Tier>

  /** Two contributions combine when no slot is filled twice. */
  function Combine(a: Option<TierTable>, b: Option<TierTable>): Option<TierTable> {
    if a.None? || b.None? || !(a.value.Keys !! b.value.Keys) then None else Some(a.value + b.value)
  }

  lemma CombineAssociates(a: Option<TierTable>, b: Option<TierTable>, c: Option<TierTable>)
    ensures Combine(Combine(a, b), c) == Combine(a, Combine(b, c))
  {
    if a.Some? && b.Some? && c.Some? {
      assert (a.value + b.value).Keys == a.value.Keys + b.value.Keys;
      assert (b.value + c.value).Keys == b.value.Keys + c.value.Keys;
      if Combine(Combine(a, b), c).Some? {
        assert (a.value + b.value) + c.value == a.value + (b.value + c.value);
      }
    }
  }

  lemma CombineCommutes(a: Option<TierTable>, b: Option<TierTable>)
    ensures Combine(a, b) == Combine(b, a)
  {
    if a.Some? && b.Some? && a.value.Keys !! b.value.Keys {
      assert a.value + b.value == b.value + a.value;
    }
  }

  lemma CombineEmpty(a: Option<TierTable>)
    ensures Combine(Some(map[]), a) == a && Combine(a, Some(map[])) == a
  {
    if a.Some? { assert map[] + a.value == a.value && a.value + map[] == a.value; }
  }

  function OneSlot(key: TraitKey, tier: Tier): Option<TierTable> { Some(map[Slot(key, tier.level) := tier]) }

  function TableOfTiers(key: TraitKey, tiers: seq<Tier>): Option<TierTable> {
    if tiers == [] then Some(map[])
    else Combine(TableOfTiers(key, tiers[..|tiers| - 1]), OneSlot(key, tiers[|tiers| - 1]))
  }

  function TableOfOne(c: Option<Contribution>): Option<TierTable> {
    if c.None? then None else TableOfTiers(c.value.key, c.value.tiers)
  }

  function TableOf(cs: seq<Option<Contribution>>): Option<TierTable> {
    if cs == [] then Some(map[])
    else Combine(TableOf(cs[..|cs| - 1]), TableOfOne(cs[|cs| - 1]))
  }

  lemma {:induction false} TableOfConcat(a: seq<Option<Contribution>>, b: seq<Option<Contribution>>)
    ensures TableOf(a + b) == Combine(TableOf(a), TableOf(b))
  {
    if b == [] {
      assert a + b == a;
      CombineEmpty(TableOf(a));
    } else {
      var init, last := b[..|b| - 1], b[|b| - 1];
      assert (a + b)[..|a + b| - 1] == a + init;
      TableOfConcat(a, init);
      CombineAssociates(TableOf(a), TableOf(init), TableOfOne(last));
    }
  }

  function ReadAll(bases: seq<BaseTrait>, records: seq<(string, TierRecord)>): (cs: seq<Option<Contribution>>)
    ensures |cs| == |records|
  {
    seq(|records|, i requires 0 <= i < |records| => ReadTiers(bases, records[i].0, records[i].1))
  }

  /** Adding the tiers of one record to the table, one at a time. */
  method PlaceTiers(table: TierTable, c: Contribution) returns (r: Option<TierTable>)
    ensures r == Combine(Some(table), TableOfTiers(c.key, c.tiers))
  {
    var byLevel := table;
    CombineEmpty(Some(table));
    for i := 0 to |c.tiers|
      invariant Combine(Some(table), TableOfTiers(c.key, c.tiers[..i])) == Some(byLevel)
    {
      var tier := c.tiers[i];
      var next := c.tiers[..i + 1];
      assert next[..i] == c.tiers[..i];
      CombineAssociates(Some(table), TableOfTiers(c.key, c.tiers[..i]), OneSlot(c.key, tier));
      if Slot(c.key, tier.level) in byLevel {
        assert Combine(Some(table), TableOfTiers(c.key, next)).None?;
        PlacingFails(Some(table), c, i + 1);
        return None;
      }
      byLevel := byLevel[Slot(c.key, tier.level) := tier];
      assert byLevel == Combine(Some(table), TableOfTiers(c.key, next)).value;
    }
    assert c.tiers[..|c.tiers|] == c.tiers;
    r := Some(byLevel);
  }

  lemma {:induction false} PlacingFails(table: Option<TierTable>, c: Contribution, i: nat)
    requires i <= |c.tiers| && Combine(table, TableOfTiers(c.key, c.tiers[..i])).None?
    ensures Combine(table, TableOfTiers(c.key, c.tiers)).None?
    decreases |c.tiers| - i
  {
    if i == |c.tiers| {
      assert c.tiers[..i] == c.tiers;
    } else {
      assert c.tiers[..i + 1][..i] == c.tiers[..i];
      CombineAssociates(table, TableOfTiers(c.key, c.tiers[..i]), OneSlot(c.key, c.tiers[i]));
      PlacingFails(table, c, i + 1);
    }
  }

  method CollectTiers(bases: seq<BaseTrait>, records: Dict<TierRecord>) returns (r: Option<TierTable>)
    ensures r == TableOf(ReadAll(bases, records))
  {
    hide ReadTiers;
    var table: TierTable := map[];
    ghost var cs := ReadAll(bases, records);
    for i := 0 to |records|
      invariant TableOf(cs[..i]) == Some(table)
    {
      assert cs[..i + 1][..i] == cs[..i];
      var c := ReadTiers(bases, records[i].0, records[i].1);
      assert c == cs[i];
      if c.None? {
        TableFails(cs, i + 1);
        return None;
      }
      var placed := PlaceTiers(table, c.value);
      if placed.None? {
        TableFails(cs, i + 1);
        return None;
      }
      table := placed.value;
    }
    assert cs[..|cs|] == cs;
    r := Some(table);
  }

  lemma TableFails(cs: seq<Option<Contribution>>, i: nat)
    requires i <= |cs| && TableOf(cs[..i]).None?
    ensures TableOf(cs).None?
  {
    TableOfConcat(cs[..i], cs[i..]);
    assert cs[..i] + cs[i..] == cs;
  }

  // ---- Finishing each trait --------------------------------------------------------------

  function LevelsOf(table: TierTable, key: TraitKey): set<int> {
    set s | s in table && s.key == key :: s.level
  }

  function UpTo(n: nat): (s: set<int>)
    ensures |s| == n && forall l :: l in s <==> 1 <= l <= n
  {
    if n == 0 then {} else UpTo(n - 1) + {n}
  }

  function TiersUpTo(table: TierTable, key: TraitKey, n: nat): (tiers: seq<Tier>)
    requires forall l :: 1 <= l <= n ==> Slot(key, l) in table
    ensures |tiers| == n && forall i :: 0 <= i < n ==> tiers[i] == table[Slot(key, i + 1)]
  {
    seq(n, i requires 0 <= i < n => table[Slot(key, i + 1)])
  }

  function CountsOf(tiers: seq<Tier>): (r: seq<int>)
    ensures |r| == |tiers| && forall i :: 0 <= i < |r| ==> r[i] == tiers[i].activationCount
  {
    seq(|tiers|, i requires 0 <= i < |tiers| => tiers[i].activationCount)
  }

  function Finish(base: BaseTrait, table: TierTable): Option<TraitData> {
    var levels := LevelsOf(table, base.key);
    var n := |levels|;
    if n == 0 || levels != UpTo(n) then None
    else
      assert forall l :: 1 <= l <= n ==> Slot(base.key, l) in table by {
        forall l | 1 <= l <= n ensures Slot(base.key, l) in table { assert l in levels; }
      }
      var tiers := TiersUpTo(table, base.key, n);
      if base.maxLevel.Some? && base.maxLevel.value != n then None
      else if CountsOf(tiers) != base.activation then None
      else Some(TraitData(base, tiers))
  }

  function FinishAll(bases: seq<BaseTrait>, table: TierTable): Option<seq<TraitData>> {
    if bases == [] then Some([])
    else
      var before := FinishAll(bases[..|bases| - 1], table);
      var last := Finish(bases[|bases| - 1], table);
      if before.None? || last.None? then None else Some(before.value + [last.value])
  }

  function TraitsOf(race: Dict<BaseTraitRecord>, job: Dict<BaseTraitRecord>, records: seq<(string, TierRecord)>):
    Option<seq<TraitData>>
  {
    var bases := Bases(race, job);
    if bases.None? then None
    else
      var table := TableOf(ReadAll(bases.value, records));
      if table.None? then None else FinishAll(bases.value, table.value)
  }

  method FinishTraits(bases: seq<BaseTrait>, table: TierTable) returns (r: Option<seq<TraitData>>)
    ensures r == FinishAll(bases, table)
  {
    var finalized: seq<TraitData> := [];
    for i := 0 to |bases|
      invariant FinishAll(bases[..i], table) == Some(finalized)
    {
      assert bases[..i + 1][..i] == bases[..i];
      var t := Finish(bases[i], table);
      if t.None? {
        UnfinishedRejects(bases, table, i);
        return None;
      }
      finalized := finalized + [t.value];
    }
    assert bases[..|bases|] == bases;
    r := Some(finalized);
  }

  lemma {:induction false} UnfinishedRejects(bases: seq<BaseTrait>, table: TierTable, i: nat)
    requires i < |bases| && Finish(bases[i], table).None?
    ensures FinishAll(bases, table).None?
  {
    if i < |bases| - 1 { UnfinishedRejects(bases[..|bases| - 1], table, i); }
  }

  /** `_build_traits`: the finished traits and the base traits the heroes are checked against. */
  method BuildTraits(race: Dict<BaseTraitRecord>, job: Dict<BaseTraitRecord>, records: Dict<TierRecord>)
    returns (r: Option<(seq<TraitData>, seq<BaseTrait>)>)
    ensures r.Some? <==> TraitsOf(race, job, records).Some?
    ensures r.Some? ==> Some(r.value.0) == TraitsOf(race, job, records) && Some(r.value.1) == Bases(race, job)
  {
    var races := CollectBases(Race, race);
    if races.None? {
      return None;
    }
    var jobs := CollectBases(Job, job);
    if jobs.None? {
      return None;
    }
    var bases := races.value + jobs.value;
    var table := CollectTiers(bases, records);
    if table.None? {
      return None;
    }
    var finished := FinishTraits(bases, table.value);
    r := if finished.None? then None else Some((finished.value, bases));
  }

  // ---- Order independence ----------------------------------------------------------------

  function Without<T>(s: seq<T>, i: nat): seq<T>
    requires i < |s|
  {
    s[..i] + s[i + 1..]
  }

  lemma TableOfOneMore(cs: seq<Option<Contribution>>, c: Option<Contribution>)
    ensures TableOf(cs + [c]) == Combine(TableOf(cs), TableOfOne(c))
  {
    hide Combine, TableOfOne;
    assert (cs + [c])[..|cs|] == cs;
  }

  lemma CombineLastTwo(a: Option<TierTable>, b: Option<TierTable>, c: Option<TierTable>)
    ensures Combine(Combine(a, b), c) == Combine(Combine(a, c), b)
  {
    hide Combine;
    CombineAssociates(a, b, c);
    CombineCommutes(b, c);
    CombineAssociates(a, c, b);
  }

  lemma TakeOut(cs: seq<Option<Contribution>>, i: nat)
    requires i < |cs|
    ensures TableOf(cs) == Combine(TableOf(Without(cs, i)), TableOfOne(cs[i]))
  {
    hide Combine, TableOfOne, TableOf;
    var a, b := cs[..i], cs[i + 1..];
    assert cs == (a + [cs[i]]) + b;
    TableOfOneMore(a, cs[i]);
    TableOfConcat(a + [cs[i]], b);
    TableOfConcat(a, b);
    CombineLastTwo(TableOf(a), TableOfOne(cs[i]), TableOf(b));
  }

  lemma RemoveCommon<T>(a: seq<T>, b: seq<T>) returns (i: nat)
    requires multiset(a) == multiset(b) && b != []
    ensures i < |a| && a[i] == b[|b| - 1] && multiset(Without(a, i)) == multiset(b[..|b| - 1])
  {
    var last := b[|b| - 1];
    assert b == b[..|b| - 1] + [last];
    assert last in multiset(a);
    i :| 0 <= i < |a| && a[i] == last;
    assert a == a[..i] + [last] + a[i + 1..];
    var rest, init := multiset(Without(a, i)), multiset(b[..|b| - 1]);
    assert multiset(a) == multiset(a[..i]) + multiset{last} + multiset(a[i + 1..]);
    assert rest + multiset{last} == multiset(a) == init + multiset{last};
    assert rest == (rest + multiset{last}) - multiset{last};
    assert init == (init + multiset{last}) - multiset{last};
  }

  lemma {:induction false} TableIsOrderFree(bases: seq<BaseTrait>, a: seq<(string, TierRecord)>, b: seq<(string, TierRecord)>)
    requires multiset(a) == multiset(b)
    ensures TableOf(ReadAll(bases, a)) == TableOf(ReadAll(bases, b))
    decreases |b|
  {
    hide ReadTiers, Combine, TableOfOne;
    if b == [] {
      assert |multiset(a)| == |multiset(b)|;
    } else {
      var i := RemoveCommon(a, b);
      TakeOut(ReadAll(bases, a), i);
      assert ReadAll(bases, Without(a, i)) == Without(ReadAll(bases, a), i);
      assert ReadAll(bases, b[..|b| - 1]) == ReadAll(bases, b)[..|b| - 1];
      TableIsOrderFree(bases, Without(a, i), b[..|b| - 1]);
    }
  }

  /** The order of tier records changes neither acceptance nor the result. */
  lemma TraitsAreOrderFree(race: Dict<BaseTraitRecord>, job: Dict<BaseTraitRecord>,
                           a: Dict<TierRecord>, b: Dict<TierRecord>)
    requires multiset(a) == multiset(b)
    ensures TraitsOf(race, job, a) == TraitsOf(race, job, b)
  {
    if Bases(race, job).Some? { TableIsOrderFree(Bases(race, job).value, a, b); }
  }
}
