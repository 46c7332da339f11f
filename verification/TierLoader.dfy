/** The batched loader of trait tiers. */
module TierLoader {
  import opened Common
  import opened RawData
  import opened JccTables
  import opened Structured
  import opened Rows
  import opened JccStore
  import opened JccDatabase
  import opened Publication

  function TraitIdsOf(rows: seq<TierRow>): (r: seq<nat>)
    ensures |r| == |rows|
  {
    seq(|rows|, i requires 0 <= i < |rows| => rows[i].traitId)
  }

  function TierOrders(rows: seq<TierRow>): (r: seq<int>)
    ensures |r| == |rows|
  {
    seq(|rows|, i requires 0 <= i < |rows| => rows[i].tierOrder)
  }

  function TierFlags(ids: seq<nat>, rows: seq<TierRow>): (r: seq<bool>)
    ensures |r| == |rows|
  {
    seq(|rows|, i requires 0 <= i < |rows| => rows[i].traitId in ids)
  }

  function QueryTiers(t: Tables, ids: seq<nat>): seq<TierRow> { Select(t.tiers, TierFlags(ids, t.tiers), true) }

  predicate OrderedTiers(rows: seq<TierRow>) {
    forall i, j :: 0 <= i < j < |rows| ==>
      rows[i].traitId < rows[j].traitId || (rows[i].traitId == rows[j].traitId && rows[i].tierOrder <= rows[j].tierOrder)
  }

  predicate TierListing(t: Tables, ids: seq<nat>, rows: seq<TierRow>) {
    multiset(rows) == multiset(QueryTiers(t, ids)) && OrderedTiers(rows)
  }

  function TiersOf(rows: seq<TierRow>, id: nat): seq<TierRow> { Select(rows, TraitIdsOf(rows), id) }

  lemma TiersStep(rows: seq<TierRow>, i: nat, id: nat)
    requires i < |rows|
    ensures TiersOf(rows[..i + 1], id) == TiersOf(rows[..i], id) + (if rows[i].traitId == id then [rows[i]] else [])
  {
    var more := rows[..i + 1];
    assert more[..i] == rows[..i];
    assert TraitIdsOf(more)[..i] == TraitIdsOf(rows[..i]);
  }

  predicate HasTiers(grouped: map<nat, seq<TierRow>>, rows: seq<TierRow>, id: nat) {
    id in grouped && grouped[id] == TiersOf(rows, id)
  }

  /** `_load_trait_tiers`. */
  method LoadTraitTiers(rows: seq<TierRow>, ids: seq<nat>) returns (grouped: map<nat, seq<TierRow>>)
    requires forall i :: 0 <= i < |rows| ==> rows[i].traitId in ids
    ensures forall id :: id in grouped <==> id in ids
    ensures forall id :: id in ids ==> HasTiers(grouped, rows, id)
  {
    grouped := map id | id in ids :: [];
    for i := 0 to |rows|
      invariant forall id :: id in grouped <==> id in ids
      invariant forall id :: id in ids ==> HasTiers(grouped, rows[..i], id)
    {
      var id := rows[i].traitId;
      ghost var before := grouped;
      grouped := grouped[id := grouped[id] + [rows[i]]];
      forall other | other in ids ensures HasTiers(grouped, rows[..i + 1], other) {
        assert HasTiers(before, rows[..i], other);
        TiersStep(rows, i, other);
      }
    }
    assert rows[..|rows|] == rows;
  }

  // ---- Tiers in the table ----------------------------------------------------------------

  lemma TiersAppended(rows: seq<TierRow>, more: seq<TierRow>, id: nat)
    ensures TiersOf(rows + more, id) == TiersOf(rows, id) + TiersOf(more, id)
  {
    assert TraitIdsOf(rows + more) == TraitIdsOf(rows) + TraitIdsOf(more);
    SelectConcat(rows, TraitIdsOf(rows), more, TraitIdsOf(more), id);
  }

  lemma NoTiersOf(rows: seq<TierRow>, id: nat)
    requires forall k :: 0 <= k < |rows| ==> rows[k].traitId != id
    ensures TiersOf(rows, id) == []
  {
    SelectNone(rows, TraitIdsOf(rows), id);
  }

  lemma TiersOfFirst(before: seq<TierRow>, last: seq<TierRow>, id: nat)
    requires forall k :: 0 <= k < |last| ==> last[k].traitId != id
    ensures TiersOf(before + last, id) == TiersOf(before, id)
  {
    TiersAppended(before, last, id);
    NoTiersOf(last, id);
  }

  lemma TiersOfLast(before: seq<TierRow>, last: seq<TierRow>, id: nat)
    requires forall k :: 0 <= k < |before| ==> before[k].traitId != id
    requires forall k :: 0 <= k < |last| ==> last[k].traitId == id
    ensures TiersOf(before + last, id) == last
  {
    TiersAppended(before, last, id);
    NoTiersOf(before, id);
    SelectAll(last, TraitIdsOf(last), id);
  }

  lemma {:induction false} OwnTiers(first: nat, traits: seq<TraitData>, j: nat)
    requires j < |traits|
    ensures TiersOf(TierRows(first, traits), first + j) == TierRowsOf(first + j, traits[j].tiers)
  {
    var n := |traits| - 1;
    var before, last := TierRows(first, traits[..n]), TierRowsOf(first + n, traits[n].tiers);
    if j < n {
      OwnTiers(first, traits[..n], j);
      TiersOfFirst(before, last, first + j);
    } else {
      TierRowsBelong(first, traits[..n]);
      TiersOfLast(before, last, first + j);
    }
  }

  /** What the newest import adds to the tier table: rows of its own traits only. */
  lemma NewestTiers(published: seq<StructuredSnapshot>)
    requires published != []
    ensures var before := Build(published[..|published| - 1]); var s := published[|published| - 1];
            && Build(published).tiers == before.tiers + TierRows(|before.traits|, s.traits)
            && |Build(published).traits| == |before.traits| + |s.traits|
            && (forall k :: 0 <= k < |before.tiers| ==> before.tiers[k].traitId < |before.traits|)
            && forall k :: 0 <= k < |TierRows(|before.traits|, s.traits)| ==>
                 TierRows(|before.traits|, s.traits)[k].traitId >= |before.traits|
  {
    var init := published[..|published| - 1];
    RowsBelongToBuilt(init);
    TierRowsBelong(|Build(init).traits|, published[|published| - 1].traits);
  }

  /** In every later state, the rows of a trait's tiers are its imported tiers, in order. */
  lemma {:induction false} TableTiers(published: seq<StructuredSnapshot>, sid: nat, j: nat)
    requires sid < |published| && j < |published[sid].traits|
    ensures var id := OffsetsAt(published, sid).traits + j;
            id < |Build(published).traits|
            && TiersOf(Build(published).tiers, id) == TierRowsOf(id, published[sid].traits[j].tiers)
  {
    hide Build, TiersOf, TierRows, TierRowsOf;
    var n := |published| - 1;
    var init := published[..n];
    var before := Build(init);
    NewestTiers(published);
    assert init[..sid] == published[..sid];
    var id := OffsetsAt(published, sid).traits + j;
    var more := TierRows(|before.traits|, published[n].traits);
    if sid < n {
      TableTiers(init, sid, j);
      assert OffsetsAt(init, sid) == OffsetsAt(published, sid);
      TiersOfFirst(before.tiers, more, id);
    } else {
      assert id == |before.traits| + j;
      TiersAppended(before.tiers, more, id);
      NoTiersOf(before.tiers, id);
      OwnTiers(|before.traits|, published[n].traits, j);
    }
  }

  lemma {:induction false} TierRowsDistinct(first: nat, traits: seq<TraitData>)
    requires forall i :: 0 <= i < |traits| ==> DistinctLevels(traits[i].tiers)
    ensures Distinct(TierRows(first, traits))
  {
    if traits != [] {
      var n := |traits| - 1;
      TierRowsDistinct(first, traits[..n]);
      TierRowsBelong(first, traits[..n]);
      var last := TierRowsOf(first + n, traits[n].tiers);
      assert DistinctLevels(traits[n].tiers);
      assert forall k :: 0 <= k < |last| ==> last[k].traitId == first + n && last[k].level == traits[n].tiers[k].level;
    }
  }

  lemma {:induction false} TableTiersDistinct(published: seq<StructuredSnapshot>)
    requires AllImportable(published)
    ensures Distinct(Build(published).tiers)
  {
    if published != [] {
      var n := |published| - 1;
      var init := published[..n];
      assert AllImportable(init);
      assert Importable(published[n]);
      TableTiersDistinct(init);
      RowsBelongToBuilt(init);
      TierRowsDistinct(|Build(init).traits|, published[n].traits);
      TierRowsBelong(|Build(init).traits|, published[n].traits);
    }
  }

  // ---- What the tier loader gives back ---------------------------------------------------

  /** Orders that grow from tier to tier, as the adapter's 1..n do. */
  predicate OrdersGrow(tiers: seq<Tier>) { forall i, j :: 0 <= i < j < |tiers| ==> tiers[i].tierOrder < tiers[j].tierOrder }

  lemma {:induction false} OrdersOfTiers(rows: seq<TierRow>, id: nat)
    ensures Select(TierOrders(rows), TraitIdsOf(rows), id) == TierOrders(TiersOf(rows, id))
  {
    if rows != [] {
      var n := |rows| - 1;
      OrdersOfTiers(rows[..n], id);
      assert TierOrders(rows)[..n] == TierOrders(rows[..n]);
      assert TraitIdsOf(rows)[..n] == TraitIdsOf(rows[..n]);
    }
  }

  lemma ListedTiers(all: seq<TierRow>, ids: seq<nat>, rows: seq<TierRow>, id: nat)
    requires multiset(rows) == multiset(Select(all, TierFlags(ids, all), true)) && Distinct(all) && id in ids
    ensures Distinct(TiersOf(rows, id)) && SameMembers(TiersOf(rows, id), TiersOf(all, id))
  {
    SelectIsDistinct(all, TierFlags(ids, all), true);
    SameElements(rows, Select(all, TierFlags(ids, all), true));
    SelectIsDistinct(rows, TraitIdsOf(rows), id);
    forall x ensures x in TiersOf(rows, id) <==> x in TiersOf(all, id) {
      SelectMembers(rows, TraitIdsOf(rows), id, x);
      SelectMembers(all, TraitIdsOf(all), id, x);
      SelectMembers(all, TierFlags(ids, all), true, x);
    }
  }

  lemma OnlyTierOrder(id: nat, tiers: seq<Tier>, found: seq<TierRow>)
    requires Distinct(found) && Ascending(TierOrders(found)) && SameMembers(found, TierRowsOf(id, tiers)) && OrdersGrow(tiers)
    ensures found == TierRowsOf(id, tiers)
  {
    var expected := TierRowsOf(id, tiers);
    SortedListing(found, TierOrders(found), expected, TierOrders(expected));
  }

  /** For each asked trait the loader returns exactly its imported tiers in their order. */
  lemma LoadedTiers(t: Tables, published: seq<StructuredSnapshot>, sid: nat, j: nat, ids: seq<nat>, rows: seq<TierRow>)
    requires DatabaseOk(t, published) && sid < |published| && j < |published[sid].traits|
    requires OrdersGrow(published[sid].traits[j].tiers)
    requires TierListing(t, ids, rows) && OffsetsAt(published, sid).traits + j in ids
    ensures TiersOf(rows, OffsetsAt(published, sid).traits + j)
            == TierRowsOf(OffsetsAt(published, sid).traits + j, published[sid].traits[j].tiers)
  {
    hide Build, OffsetsAt, AllImportable, DistinctSnapshots, PointsWell, TiersOf, OrdersGrow;
    var id := OffsetsAt(published, sid).traits + j;
    TableTiers(published, sid, j);
    TableTiersDistinct(published);
    assert t.(current := map[]).tiers == t.tiers;
    ListedTiers(t.tiers, ids, rows, id);
    TiersAscend(rows, id);
    OnlyTierOrder(id, published[sid].traits[j].tiers, TiersOf(rows, id));
  }

  lemma TiersAscend(rows: seq<TierRow>, id: nat)
    requires OrderedTiers(rows)
    ensures Ascending(TierOrders(TiersOf(rows, id)))
  {
    SelectAscends(TierOrders(rows), TraitIdsOf(rows), id);
    OrdersOfTiers(rows, id);
  }
}
