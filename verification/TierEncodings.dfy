/** An aggregate tier record and the records of its single levels describe the same traits. */
module TierEncodings {
  import opened Common
  import opened RawData
  import opened Decimal
  import opened Text
  import opened Validation
  import opened Descriptions
  import opened Structured
  import opened TraitTables
  import opened TraitProperties

  function AsScalar(s: Option<string>): Scalar {
    match s case None => Null case Some(text) => Scalar.Text(text)
  }

  /** The per-level record of one tier of an aggregate record. */
  function LevelRecord(record: TierRecord, tier: Tier): (string, TierRecord) {
    (tier.externalId,
     TierRecord(Scalar.Text(tier.externalId), record.checkId, record.kindCode, Number(tier.activationCount), None, None,
                Null, Number(tier.level), record.desc, AsScalar(tier.realDescription)))
  }

  function LevelRecords(record: TierRecord, tiers: seq<Tier>): (rs: seq<(string, TierRecord)>)
    ensures |rs| == |tiers|
  {
    seq(|tiers|, i requires 0 <= i < |tiers| => LevelRecord(record, tiers[i]))
  }

  /** A cut description is never empty: it starts with its marker. */
  lemma PieceIsNotEmpty(value: Option<string>, activation: seq<int>, k: nat)
    requires value != Some("") && k < |activation|
    requires SplitDescriptions(value, activation).Some?
    ensures |SplitDescriptions(value, activation).value| == |activation|
    ensures SplitDescriptions(value, activation).value[k] != Some("")
  {
    PiecesPerCount(value, activation);
    if value.Some? {
      PiecesStartWithTheirCount(value.value, activation, k);
      var markers := Scan(value.value, 0);
      StripKeepsMarker(RawPiece(value.value, markers, k), activation[k]);
    }
  }

  lemma LevelIdIsNoSentinel(id: string, level: nat)
    ensures LevelId(id, level) != "" && LevelId(id, level) != "0" && LevelId(id, level) != "-1"
  {
    assert ':' in LevelId(id, level) by { assert LevelId(id, level)[|id|] == ':'; }
  }

  predicate FromAggregate(record: TierRecord, tier: Tier) {
    && tier.externalId != "" && tier.externalId != "0" && tier.externalId != "-1"
    && tier.tierOrder == tier.level && tier.description == OptionalString(record.desc)
    && tier.realDescription != Some("")
  }

  lemma TextIsNotEmpty(value: Scalar)
    ensures OptionalString(value) != Some("")
  {
  }

  lemma AggregateTiersAreSeparable(record: TierRecord, id: string, activation: seq<int>, k: nat)
    requires AggregateTiers(record, id, activation).Some? && k < |activation|
    ensures |AggregateTiers(record, id, activation).value| == |activation|
    ensures FromAggregate(record, AggregateTiers(record, id, activation).value[k])
  {
    hide SplitInts, AgreesWith, OptionalInt, LevelId, SplitDescriptions, OptionalString;
    LevelIdIsNoSentinel(id, k + 1);
    TextIsNotEmpty(record.realDesc);
    PieceIsNotEmpty(OptionalString(record.realDesc), activation, k);
  }

  /** A single level's record contributes exactly the tier it was made from. */
  lemma LevelRecordGivesItsTier(bases: seq<BaseTrait>, record: TierRecord, key: TraitKey, tier: Tier)
    requires FromAggregate(record, tier)
    requires KindOfCode(record.kindCode).Some? && RequiredString(record.checkId).Some?
    requires key == TraitKey(KindOfCode(record.kindCode).value, RequiredString(record.checkId).value)
    requires FindBase(bases, key).Some?
    ensures var e := LevelRecord(record, tier); ReadTiers(bases, e.0, e.1) == Some(Contribution(key, [tier]))
  {
    var e := LevelRecord(record, tier);
    assert KeyMatchingId(e.0, e.1.id) == Some(tier.externalId);
    assert OptionalString(e.1.realDesc) == tier.realDescription;
    assert SingleTier(e.1, tier.externalId) == Some([tier]);
  }

  function Singles(key: TraitKey, tiers: seq<Tier>): (cs: seq<Option<Contribution>>)
    ensures |cs| == |tiers|
  {
    seq(|tiers|, i requires 0 <= i < |tiers| => Some(Contribution(key, [tiers[i]])))
  }

  lemma {:induction false} SinglesMakeTheSameTable(key: TraitKey, tiers: seq<Tier>)
    ensures TableOf(Singles(key, tiers)) == TableOfTiers(key, tiers)
  {
    if tiers != [] {
      var n := |tiers| - 1;
      SinglesMakeTheSameTable(key, tiers[..n]);
      assert Singles(key, tiers)[..n] == Singles(key, tiers[..n]);
      var one := [tiers[n]];
      assert one[..|one| - 1] == [];
      assert TableOfTiers(key, one) == Combine(Some(map[]), OneSlot(key, tiers[n]));
      CombineEmpty(OneSlot(key, tiers[n]));
    }
  }

  lemma LevelRecordsAreSingles(bases: seq<BaseTrait>, id: string, record: TierRecord)
    requires ReadTiers(bases, id, record).Some? && IsAggregate(record)
    ensures var c := ReadTiers(bases, id, record).value;
            ReadAll(bases, LevelRecords(record, c.tiers)) == Singles(c.key, c.tiers)
  {
    var c := ReadTiers(bases, id, record).value;
    var activation := FindBase(bases, c.key).value.activation;
    var rs := LevelRecords(record, c.tiers);
    assert AggregateTiers(record, id, activation) == Some(c.tiers);
    forall i | 0 <= i < |rs| ensures ReadAll(bases, rs)[i] == Singles(c.key, c.tiers)[i] {
      AggregateTiersAreSeparable(record, id, activation, i);
      LevelRecordGivesItsTier(bases, record, c.key, c.tiers[i]);
    }
  }

  lemma ExchangeInTable(a: seq<Option<Contribution>>, c: Option<Contribution>, ms: seq<Option<Contribution>>,
                        b: seq<Option<Contribution>>)
    requires TableOfOne(c) == TableOf(ms)
    ensures TableOf(a + [c] + b) == TableOf(a + ms + b)
  {
    TableOfConcat(a + [c], b);
    TableOfConcat(a + ms, b);
    TableOfConcat(a, ms);
    assert (a + [c])[..|a|] == a;
  }

  lemma ReadAllConcat(bases: seq<BaseTrait>, a: seq<(string, TierRecord)>, b: seq<(string, TierRecord)>)
    ensures ReadAll(bases, a + b) == ReadAll(bases, a) + ReadAll(bases, b)
  {
    hide ReadTiers;
  }

  /**
   Replacing an aggregate record, anywhere among the tier records, by the records of its levels
   gives the same traits: the same tiers with the same ids, counts and descriptions, or the same
   rejection.
   */
  lemma AggregateEqualsItsLevels(race: Dict<BaseTraitRecord>, job: Dict<BaseTraitRecord>,
                                 before: seq<(string, TierRecord)>, id: string, record: TierRecord,
                                 after: seq<(string, TierRecord)>)
    requires Bases(race, job).Some? && IsAggregate(record)
    requires ReadTiers(Bases(race, job).value, id, record).Some?
    ensures var tiers := ReadTiers(Bases(race, job).value, id, record).value.tiers;
            TraitsOf(race, job, before + [(id, record)] + after)
            == TraitsOf(race, job, before + LevelRecords(record, tiers) + after)
  {
    var bases := Bases(race, job).value;
    var c := ReadTiers(bases, id, record);
    var levels := LevelRecords(record, c.value.tiers);
    LevelRecordsAreSingles(bases, id, record);
    SinglesMakeTheSameTable(c.value.key, c.value.tiers);
    ReadAllConcat(bases, before + [(id, record)], after);
    ReadAllConcat(bases, before, [(id, record)]);
    ReadAllConcat(bases, before + levels, after);
    ReadAllConcat(bases, before, levels);
    assert ReadAll(bases, [(id, record)]) == [c];
    ExchangeInTable(ReadAll(bases, before), c, ReadAll(bases, levels), ReadAll(bases, after));
  }
}
