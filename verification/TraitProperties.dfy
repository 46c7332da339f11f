/** What an accepted set of trait records guarantees, and exactly when one is accepted. */
module TraitProperties {
  import opened Common
  import opened RawData
  import opened JccTables
  import opened Decimal
  import opened Text
  import opened Validation
  import opened Descriptions
  import opened Structured
  import opened TraitTables

  // ---- What each record contributes ------------------------------------------------------

  predicate LevelsAreOrders(tiers: seq<Tier>) {
    && (forall i :: 0 <= i < |tiers| ==> tiers[i].tierOrder == tiers[i].level)
    && (forall i, j :: 0 <= i < j < |tiers| ==> tiers[i].level != tiers[j].level)
  }

  predicate ContributionOk(bases: seq<BaseTrait>, c: Option<Contribution>) {
    c.Some? ==> LevelsAreOrders(c.value.tiers) && FindBase(bases, c.value.key).Some?
  }

  lemma ContributionShape(bases: seq<BaseTrait>, key: string, record: TierRecord)
    ensures ContributionOk(bases, ReadTiers(bases, key, record))
  {
  }

  predicate AllOk(bases: seq<BaseTrait>, cs: seq<Option<Contribution>>) {
    forall r :: 0 <= r < |cs| ==> ContributionOk(bases, cs[r])
  }

  lemma AllContributionsOk(bases: seq<BaseTrait>, records: seq<(string, TierRecord)>)
    ensures AllOk(bases, ReadAll(bases, records))
  {
    forall r | 0 <= r < |records| ensures ContributionOk(bases, ReadAll(bases, records)[r]) {
      ContributionShape(bases, records[r].0, records[r].1);
    }
  }

  /** The contribution fills this slot with this tier. */
  predicate Puts(c: Option<Contribution>, s: Slot, t: Tier) {
    c.Some? && c.value.key == s.key && t in c.value.tiers && t.level == s.level
  }

  predicate Holds(table: TierTable, s: Slot, t: Tier) { s in table && table[s] == t }

  lemma {:induction false} TiersInTable(key: TraitKey, tiers: seq<Tier>)
    requires LevelsAreOrders(tiers)
    ensures TableOfTiers(key, tiers).Some?
    ensures forall s, t :: Holds(TableOfTiers(key, tiers).value, s, t) <==> s.key == key && t in tiers && t.level == s.level
  {
    if tiers != [] {
      var n := |tiers| - 1;
      var init := tiers[..n];
      TiersInTable(key, init);
      assert tiers == init + [tiers[n]];
      var before := TableOfTiers(key, init).value;
      var slot := Slot(key, tiers[n].level);
      assert slot in before ==> Holds(before, slot, before[slot]);
      assert slot !in before;
      forall s, t ensures Holds(TableOfTiers(key, tiers).value, s, t) <==> s.key == key && t in tiers && t.level == s.level {
        assert Holds(before, s, t) <==> s.key == key && t in init && t.level == s.level;
      }
    }
  }

  lemma TableOfOneHolds(bases: seq<BaseTrait>, c: Option<Contribution>, s: Slot, t: Tier)
    requires ContributionOk(bases, c)
    ensures TableOfOne(c).Some? <==> c.Some?
    ensures c.Some? ==> (Holds(TableOfOne(c).value, s, t) <==> Puts(c, s, t))
  {
    if c.Some? { TiersInTable(c.value.key, c.value.tiers); }
  }

  predicate PutBySome(cs: seq<Option<Contribution>>, s: Slot, t: Tier) { exists r :: 0 <= r < |cs| && Puts(cs[r], s, t) }

  lemma PutByInitOrLast(cs: seq<Option<Contribution>>, s: Slot, t: Tier)
    requires cs != []
    ensures PutBySome(cs, s, t) <==> PutBySome(cs[..|cs| - 1], s, t) || Puts(cs[|cs| - 1], s, t)
  {
    var init := cs[..|cs| - 1];
    if PutBySome(init, s, t) {
      var r :| 0 <= r < |init| && Puts(init[r], s, t);
      assert Puts(cs[r], s, t);
    }
    if PutBySome(cs, s, t) {
      var r :| 0 <= r < |cs| && Puts(cs[r], s, t);
      if r < |init| { assert Puts(init[r], s, t); }
    }
  }

  /** The table holds exactly what the records put into it. */
  lemma {:induction false} TableMembers(bases: seq<BaseTrait>, cs: seq<Option<Contribution>>, s: Slot, t: Tier)
    requires AllOk(bases, cs) && TableOf(cs).Some?
    ensures Holds(TableOf(cs).value, s, t) <==> PutBySome(cs, s, t)
  {
    if cs != [] {
      var n := |cs| - 1;
      TableMembers(bases, cs[..n], s, t);
      TableOfOneHolds(bases, cs[n], s, t);
      PutByInitOrLast(cs, s, t);
    }
  }

  /** Two records give the same level of the same trait. */
  predicate Clash(a: Option<Contribution>, b: Option<Contribution>) {
    a.Some? && b.Some? && a.value.key == b.value.key
    && exists x, y :: x in a.value.tiers && y in b.value.tiers && x.level == y.level
  }

  predicate AllReadable(cs: seq<Option<Contribution>>) { forall r :: 0 <= r < |cs| ==> cs[r].Some? }

  predicate NoClash(cs: seq<Option<Contribution>>) {
    forall q, r :: 0 <= q < r < |cs| ==> !Clash(cs[q], cs[r])
  }

  /** The table is built exactly when every record is readable and no level of a trait is given twice. */
  lemma {:induction false} TableIff(bases: seq<BaseTrait>, cs: seq<Option<Contribution>>)
    requires AllOk(bases, cs)
    ensures TableOf(cs).Some? <==> AllReadable(cs) && NoClash(cs)
  {
    if cs != [] {
      var n := |cs| - 1;
      var init := cs[..n];
      TableIff(bases, init);
      assert forall r :: 0 <= r < n ==> init[r] == cs[r];
      assert AllReadable(cs) <==> AllReadable(init) && cs[n].Some?;
      assert NoClash(cs) <==> NoClash(init) && forall q :: 0 <= q < n ==> !Clash(init[q], cs[n]);
      if TableOf(init).Some? && cs[n].Some? {
        LastIsFree(bases, init, cs[n]);
      }
    }
  }

  lemma LastIsFree(bases: seq<BaseTrait>, init: seq<Option<Contribution>>, last: Option<Contribution>)
    requires AllOk(bases, init) && ContributionOk(bases, last) && TableOf(init).Some? && last.Some?
    ensures Combine(TableOf(init), TableOfOne(last)).Some? <==> forall q :: 0 <= q < |init| ==> !Clash(init[q], last)
    ensures TableOfOne(last).Some?
  {
    var before := TableOf(init).value;
    TiersInTable(last.value.key, last.value.tiers);
    var own := TableOfOne(last).value;
    if s :| s in before.Keys && s in own.Keys {
      TableMembers(bases, init, s, before[s]);
      assert Holds(before, s, before[s]) && Holds(own, s, own[s]);
      var q :| 0 <= q < |init| && Puts(init[q], s, before[s]);
      assert Clash(init[q], last);
    }
    forall q | 0 <= q < |init| && Clash(init[q], last) ensures !(before.Keys !! own.Keys) {
      var x, y :| x in init[q].value.tiers && y in last.value.tiers && x.level == y.level;
      var s := Slot(last.value.key, x.level);
      assert Puts(init[q], s, x);
      TableMembers(bases, init, s, x);
      assert Holds(own, s, y);
      assert s in before.Keys && s in own.Keys;
    }
  }

  // ---- Accepted traits -------------------------------------------------------------------

  /** Levels are exactly 1..n in order, with the activation counts of the base record. */
  predicate TraitOk(t: TraitData) {
    && t.tiers != [] && |t.tiers| == |t.base.activation|
    && (t.base.maxLevel.Some? ==> t.base.maxLevel.value == |t.tiers|)
    && forall i :: 0 <= i < |t.tiers| ==>
         t.tiers[i].level == i + 1 && t.tiers[i].tierOrder == i + 1 && t.tiers[i].activationCount == t.base.activation[i]
  }

  lemma {:induction false} FinishedInOrder(bases: seq<BaseTrait>, table: TierTable)
    requires FinishAll(bases, table).Some?
    ensures var ts := FinishAll(bases, table).value;
            |ts| == |bases| && forall i :: 0 <= i < |bases| ==> Some(ts[i]) == Finish(bases[i], table)
  {
    hide Finish;
    if bases != [] { FinishedInOrder(bases[..|bases| - 1], table); }
  }

  /** A finished trait holds the table's tiers of its own key, level by level. */
  lemma FinishedTiers(base: BaseTrait, table: TierTable, s: Slot)
    requires Finish(base, table).Some? && s.key == base.key
    ensures var t := Finish(base, table).value;
            t.base == base && (s in table <==> 1 <= s.level <= |t.tiers|) && (s in table ==> t.tiers[s.level - 1] == table[s])
  {
    assert s in table <==> s.level in LevelsOf(table, base.key);
  }

  lemma TierSitsAtItsLevel(bases: seq<BaseTrait>, cs: seq<Option<Contribution>>, s: Slot)
    requires AllOk(bases, cs) && TableOf(cs).Some? && s in TableOf(cs).value
    ensures var t := TableOf(cs).value[s]; t.level == s.level && t.tierOrder == s.level
  {
    var t := TableOf(cs).value[s];
    TableMembers(bases, cs, s, t);
    var r :| 0 <= r < |cs| && Puts(cs[r], s, t);
    assert ContributionOk(bases, cs[r]);
  }

  lemma FinishedTraitOk(bases: seq<BaseTrait>, cs: seq<Option<Contribution>>, b: BaseTrait)
    requires AllOk(bases, cs) && TableOf(cs).Some? && Finish(b, TableOf(cs).value).Some?
    ensures TraitOk(Finish(b, TableOf(cs).value).value)
  {
    var table := TableOf(cs).value;
    var t := Finish(b, table).value;
    assert CountsOf(t.tiers) == b.activation;
    forall i | 0 <= i < |t.tiers| ensures t.tiers[i].level == i + 1 && t.tiers[i].tierOrder == i + 1 {
      FinishedTiers(b, table, Slot(b.key, i + 1));
      TierSitsAtItsLevel(bases, cs, Slot(b.key, i + 1));
    }
  }

  /**
   Every accepted trait has levels exactly 1..n whose counts are its activation list; the traits
   are those of the race and job records, in that order.
   */
  lemma AcceptedTraits(race: Dict<BaseTraitRecord>, job: Dict<BaseTraitRecord>, records: seq<(string, TierRecord)>)
    requires TraitsOf(race, job, records).Some?
    ensures var ts := TraitsOf(race, job, records).value; var bases := Bases(race, job).value;
            && |ts| == |bases|
            && (forall i :: 0 <= i < |ts| ==> ts[i].base == bases[i] && TraitOk(ts[i]))
            && (forall i, j :: 0 <= i < j < |ts| ==> ts[i].base.key != ts[j].base.key)
  {
    var bases := Bases(race, job).value;
    var cs := ReadAll(bases, records);
    BasesAreDistinct(race, job);
    AllContributionsOk(bases, records);
    var ts := TraitsOf(race, job, records).value;
    FinishedInOrder(bases, TableOf(cs).value);
    forall i | 0 <= i < |ts| ensures ts[i].base == bases[i] && TraitOk(ts[i]) {
      FinishedTraitOk(bases, cs, bases[i]);
    }
  }

  /** No tier is lost: each tier of each record stands, unchanged, at its level in the trait it names. */
  lemma NoTierLost(race: Dict<BaseTraitRecord>, job: Dict<BaseTraitRecord>, records: seq<(string, TierRecord)>,
                   r: nat) returns (i: nat)
    requires TraitsOf(race, job, records).Some? && r < |records|
    ensures var c := ReadTiers(Bases(race, job).value, records[r].0, records[r].1);
            var ts := TraitsOf(race, job, records).value;
            && c.Some? && i < |ts| && ts[i].base.key == c.value.key
            && forall tier :: tier in c.value.tiers ==>
                 1 <= tier.level <= |ts[i].tiers| && ts[i].tiers[tier.level - 1] == tier
  {
    var bases := Bases(race, job).value;
    var cs := ReadAll(bases, records);
    var table := TableOf(cs).value;
    AllContributionsOk(bases, records);
    TableIff(bases, cs);
    assert cs[r].Some? && ContributionOk(bases, cs[r]);
    var c := cs[r].value;
    i :| 0 <= i < |bases| && bases[i] == FindBase(bases, c.key).value;
    FinishedInOrder(bases, table);
    forall tier | tier in c.tiers
      ensures var t := Finish(bases[i], table).value; 1 <= tier.level <= |t.tiers| && t.tiers[tier.level - 1] == tier
    {
      var s := Slot(c.key, tier.level);
      assert Puts(cs[r], s, tier);
      TableMembers(bases, cs, s, tier);
      FinishedTiers(bases[i], table, s);
    }
  }

  /** No tier is invented: each tier of each trait comes from exactly one record, which names that trait. */
  lemma NoTierInvented(race: Dict<BaseTraitRecord>, job: Dict<BaseTraitRecord>, records: seq<(string, TierRecord)>,
                       i: nat, k: nat) returns (r: nat)
    requires TraitsOf(race, job, records).Some?
    requires i < |TraitsOf(race, job, records).value| && k < |TraitsOf(race, job, records).value[i].tiers|
    ensures var t := TraitsOf(race, job, records).value[i]; var cs := ReadAll(Bases(race, job).value, records);
            && r < |records| && Puts(cs[r], Slot(t.base.key, k + 1), t.tiers[k])
            && forall q :: 0 <= q < |records| && Puts(cs[q], Slot(t.base.key, k + 1), t.tiers[k]) ==> q == r
  {
    var bases := Bases(race, job).value;
    var cs := ReadAll(bases, records);
    var table := TableOf(cs).value;
    AllContributionsOk(bases, records);
    FinishedInOrder(bases, table);
    var t := TraitsOf(race, job, records).value[i];
    var s := Slot(t.base.key, k + 1);
    FinishedTiers(bases[i], table, s);
    TableMembers(bases, cs, s, t.tiers[k]);
    r :| 0 <= r < |cs| && Puts(cs[r], s, t.tiers[k]);
    TableIff(bases, cs);
    forall q | 0 <= q < |records| && Puts(cs[q], s, t.tiers[k]) ensures q == r {
      assert Clash(cs[q], cs[r]) && Clash(cs[r], cs[q]);
    }
  }

  // ---- Exactly when traits are accepted --------------------------------------------------

  /** The records give a base trait each of its levels, with its count, and no other level. */
  ghost predicate Covered(cs: seq<Option<Contribution>>, b: BaseTrait) {
    && (forall l :: 1 <= l <= |b.activation| ==> GivenAt(cs, b, l))
    && (forall r, t :: 0 <= r < |cs| && cs[r].Some? && cs[r].value.key == b.key && t in cs[r].value.tiers
                       ==> 1 <= t.level <= |b.activation|)
  }

  ghost predicate GivenAt(cs: seq<Option<Contribution>>, b: BaseTrait, l: int)
    requires 1 <= l <= |b.activation|
  {
    exists r, t :: 0 <= r < |cs| && Puts(cs[r], Slot(b.key, l), t) && t.activationCount == b.activation[l - 1]
  }

  lemma CoveredIsFinished(bases: seq<BaseTrait>, cs: seq<Option<Contribution>>, b: BaseTrait)
    requires AllOk(bases, cs) && TableOf(cs).Some? && BaseOk(b) && Covered(cs, b)
    ensures Finish(b, TableOf(cs).value).Some?
  {
    hide TableOf;
    var table := TableOf(cs).value;
    var n := |b.activation|;
    forall l | 1 <= l <= n ensures Slot(b.key, l) in table && table[Slot(b.key, l)].activationCount == b.activation[l - 1] {
      assert GivenAt(cs, b, l);
      var r, t :| 0 <= r < |cs| && Puts(cs[r], Slot(b.key, l), t) && t.activationCount == b.activation[l - 1];
      TableMembers(bases, cs, Slot(b.key, l), t);
    }
    CoveredLevels(bases, cs, b);
  }

  lemma FinishedIsCovered(bases: seq<BaseTrait>, cs: seq<Option<Contribution>>, b: BaseTrait)
    requires AllOk(bases, cs) && TableOf(cs).Some? && BaseOk(b) && Finish(b, TableOf(cs).value).Some?
    ensures Covered(cs, b)
  {
    hide TableOf;
    var table := TableOf(cs).value;
    var n, tr := |b.activation|, Finish(b, table).value;
    assert CountsOf(tr.tiers) == b.activation;
    forall l | 1 <= l <= n ensures GivenAt(cs, b, l) {
      var s := Slot(b.key, l);
      FinishedTiers(b, table, s);
      TableMembers(bases, cs, s, table[s]);
      var r :| 0 <= r < |cs| && Puts(cs[r], s, table[s]);
      assert CountsOf(tr.tiers)[l - 1] == table[s].activationCount;
    }
    forall r, t | 0 <= r < |cs| && cs[r].Some? && cs[r].value.key == b.key && t in cs[r].value.tiers
      ensures 1 <= t.level <= n
    {
      var s := Slot(b.key, t.level);
      assert Puts(cs[r], s, t);
      TableMembers(bases, cs, s, t);
      FinishedTiers(b, table, s);
    }
  }

  lemma FinishIff(bases: seq<BaseTrait>, cs: seq<Option<Contribution>>, b: BaseTrait)
    requires AllOk(bases, cs) && TableOf(cs).Some? && BaseOk(b)
    ensures Finish(b, TableOf(cs).value).Some? <==> Covered(cs, b)
  {
    hide *;
    if Covered(cs, b) { CoveredIsFinished(bases, cs, b); }
    if Finish(b, TableOf(cs).value).Some? { FinishedIsCovered(bases, cs, b); }
  }

  lemma CoveredLevels(bases: seq<BaseTrait>, cs: seq<Option<Contribution>>, b: BaseTrait)
    requires AllOk(bases, cs) && TableOf(cs).Some? && BaseOk(b) && Covered(cs, b)
    requires forall l :: 1 <= l <= |b.activation| ==> Slot(b.key, l) in TableOf(cs).value
    ensures LevelsOf(TableOf(cs).value, b.key) == UpTo(|b.activation|)
  {
    var table := TableOf(cs).value;
    forall l | l in LevelsOf(table, b.key) ensures l in UpTo(|b.activation|) {
      var s := Slot(b.key, l);
      TableMembers(bases, cs, s, table[s]);
      var r :| 0 <= r < |cs| && Puts(cs[r], s, table[s]);
    }
    forall l | l in UpTo(|b.activation|) ensures l in LevelsOf(table, b.key) {
      assert Slot(b.key, l) in table;
    }
  }

  lemma {:induction false} FinishAllIff(bases: seq<BaseTrait>, table: TierTable)
    ensures FinishAll(bases, table).Some? <==> forall b :: b in bases ==> Finish(b, table).Some?
  {
    if bases != [] {
      var n := |bases| - 1;
      FinishAllIff(bases[..n], table);
      assert bases == bases[..n] + [bases[n]];
    }
  }

  /**
   The trait records are accepted exactly when the base records are, every tier record is readable,
   no level is given twice, and each base trait is given exactly its levels with their counts.
   */
  lemma AcceptedIff(race: Dict<BaseTraitRecord>, job: Dict<BaseTraitRecord>, records: seq<(string, TierRecord)>)
    ensures TraitsOf(race, job, records).Some? <==>
              && Bases(race, job).Some?
              && var cs := ReadAll(Bases(race, job).value, records);
                 AllReadable(cs) && NoClash(cs) && forall b :: b in Bases(race, job).value ==> Covered(cs, b)
  {
    if Bases(race, job).Some? {
      var bases := Bases(race, job).value;
      var cs := ReadAll(bases, records);
      AllContributionsOk(bases, records);
      TableIff(bases, cs);
      BasesAreDistinct(race, job);
      if TableOf(cs).Some? {
        FinishAllIff(bases, TableOf(cs).value);
        forall b | b in bases ensures Finish(b, TableOf(cs).value).Some? <==> Covered(cs, b) { FinishIff(bases, cs, b); }
      }
    }
  }
}
