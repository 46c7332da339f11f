/**
 The batched loaders: one query for many heroes, traits or pieces of equipment, grouped in a loop.

 A query result is any list with the rows the WHERE clause selects, in an order that respects
 the leading ORDER BY columns.
 */
module Loaders {
  import opened Common
  import opened RawData
  import opened JccTables
  import opened Structured
  import opened Rows
  import opened JccStore
  import opened JccDatabase
  import opened Publication

  // ---- Relations of heroes ---------------------------------------------------------------

  datatype HeroKind = HeroKind(hero: nat, kind: Kind)

  function HeroKinds(rows: seq<HeroTraitRow>): (r: seq<HeroKind>)
    ensures |r| == |rows|
  {
    seq(|rows|, i requires 0 <= i < |rows| => HeroKind(rows[i].heroId, rows[i].kind))
  }

  function Positions(rows: seq<HeroTraitRow>): (r: seq<int>)
    ensures |r| == |rows|
  {
    seq(|rows|, i requires 0 <= i < |rows| => rows[i].position)
  }

  predicate RelationWanted(traits: seq<TraitRow>, sid: nat, ids: seq<nat>, r: HeroTraitRow) {
    r.heroId in ids && r.traitId < |traits| && traits[r.traitId].snapshotId == sid
  }

  function RelationFlags(traits: seq<TraitRow>, sid: nat, ids: seq<nat>, rows: seq<HeroTraitRow>): (r: seq<bool>)
    ensures |r| == |rows|
  {
    seq(|rows|, i requires 0 <= i < |rows| => RelationWanted(traits, sid, ids, rows[i]))
  }

  function QueryRelations(t: Tables, sid: nat, ids: seq<nat>): seq<HeroTraitRow> {
    var rows := ContentOf(t, sid).relations;
    Select(rows, RelationFlags(t.traits, sid, ids, rows), true)
  }

  predicate OrderedRelations(rows: seq<HeroTraitRow>) {
    forall i, j :: 0 <= i < j < |rows| ==>
      rows[i].heroId < rows[j].heroId || (rows[i].heroId == rows[j].heroId && rows[i].position <= rows[j].position)
  }

  predicate RelationListing(t: Tables, sid: nat, ids: seq<nat>, rows: seq<HeroTraitRow>) {
    multiset(rows) == multiset(QueryRelations(t, sid, ids)) && OrderedRelations(rows)
  }

  function RelatedTo(rows: seq<HeroTraitRow>, hero: nat, kind: Kind): seq<HeroTraitRow> {
    Select(rows, HeroKinds(rows), HeroKind(hero, kind))
  }

  lemma RelatedStep(rows: seq<HeroTraitRow>, i: nat, hero: nat, kind: Kind)
    requires i < |rows|
    ensures RelatedTo(rows[..i + 1], hero, kind)
            == RelatedTo(rows[..i], hero, kind) + (if rows[i].heroId == hero && rows[i].kind == kind then [rows[i]] else [])
  {
    var more := rows[..i + 1];
    assert more[..i] == rows[..i];
    assert HeroKinds(more)[..i] == HeroKinds(rows[..i]);
  }

  datatype Loaded = Loaded(races: seq<HeroTraitRow>, jobs: seq<HeroTraitRow>)

  predicate GroupedBy(grouped: map<nat, Loaded>, rows: seq<HeroTraitRow>, hero: nat) {
    hero in grouped && grouped[hero] == Loaded(RelatedTo(rows, hero, Race), RelatedTo(rows, hero, Job))
  }

  lemma GroupStep(grouped: map<nat, Loaded>, rows: seq<HeroTraitRow>, i: nat, hero: nat)
    requires i < |rows| && GroupedBy(grouped, rows[..i], hero) && rows[i].heroId in grouped
    ensures GroupedBy(AddRelation(grouped, rows[i]), rows[..i + 1], hero)
  {
    RelatedStep(rows, i, hero, Race);
    RelatedStep(rows, i, hero, Job);
  }

  /** A race row goes to the traits of its hero, any other to the classes. */
  function AddRelation(grouped: map<nat, Loaded>, r: HeroTraitRow): map<nat, Loaded>
    requires r.heroId in grouped
  {
    var g := grouped[r.heroId];
    grouped[r.heroId := if r.kind == Race then Loaded(g.races + [r], g.jobs) else Loaded(g.races, g.jobs + [r])]
  }

  /** `_load_hero_traits`. */
  method LoadHeroTraits(rows: seq<HeroTraitRow>, ids: seq<nat>) returns (grouped: map<nat, Loaded>)
    requires forall i :: 0 <= i < |rows| ==> rows[i].heroId in ids
    ensures forall hero :: hero in grouped <==> hero in ids
    ensures forall hero :: hero in ids ==> GroupedBy(grouped, rows, hero)
  {
    grouped := map hero | hero in ids :: Loaded([], []);
    for i := 0 to |rows|
      invariant forall hero :: hero in grouped <==> hero in ids
      invariant forall hero :: hero in ids ==> GroupedBy(grouped, rows[..i], hero)
    {
      ghost var before := grouped;
      grouped := AddRelation(grouped, rows[i]);
      forall hero | hero in ids ensures GroupedBy(grouped, rows[..i + 1], hero) { GroupStep(before, rows, i, hero); }
    }
    assert rows[..|rows|] == rows;
  }

  // ---- Rows of the tables that belong to a snapshot --------------------------------------

  /** The j-th trait of the sid-th import sits at its place in the table, in every later state. */
  lemma {:induction false} TraitSlot(published: seq<StructuredSnapshot>, sid: nat, j: nat)
    requires sid < |published| && j < |published[sid].traits|
    ensures var id := OffsetsAt(published, sid).traits + j;
            id < |Build(published).traits| && Build(published).traits[id] == RowOfTrait(sid, published[sid].traits[j].base)
  {
    hide RowsBelong;
    var n := |published| - 1;
    var init := published[..n];
    RowsBelongToBuilt(init);
    assert init[..sid] == published[..sid];
    assert Build(published).traits == Build(init).traits + TraitRows(n, published[n].traits);
    if sid < n {
      TraitSlot(init, sid, j);
      assert OffsetsAt(init, sid) == OffsetsAt(published, sid);
    }
  }

  lemma {:induction false} EquipmentSlot(published: seq<StructuredSnapshot>, sid: nat, j: nat)
    requires sid < |published| && j < |published[sid].equipment|
    ensures var id := OffsetsAt(published, sid).equipment + j; var e := published[sid].equipment[j];
            id < |Build(published).equipment| && Build(published).equipment[id] == EquipmentRow(sid, e.externalId, e.name)
  {
    hide RowsBelong;
    var n := |published| - 1;
    var init := published[..n];
    RowsBelongToBuilt(init);
    assert init[..sid] == published[..sid];
    assert Build(published).equipment == Build(init).equipment + EquipmentRows(n, published[n].equipment);
    if sid < n {
      EquipmentSlot(init, sid, j);
      assert OffsetsAt(init, sid) == OffsetsAt(published, sid);
    }
  }

  predicate TraitAt(t: Tables, sid: nat, at: Offsets, s: StructuredSnapshot, j: nat)
    requires j < |s.traits|
  {
    at.traits + j < |t.traits| && t.traits[at.traits + j] == RowOfTrait(sid, s.traits[j].base)
  }

  predicate EquipmentAt(t: Tables, sid: nat, at: Offsets, s: StructuredSnapshot, j: nat)
    requires j < |s.equipment|
  {
    at.equipment + j < |t.equipment|
    && t.equipment[at.equipment + j] == EquipmentRow(sid, s.equipment[j].externalId, s.equipment[j].name)
  }

  /** The traits and relation rows of a snapshot, as its import stored them. */
  ghost predicate RelationsStored(t: Tables, sid: nat, at: Offsets, s: StructuredSnapshot) {
    && ContentOf(t, sid).relations == RelationRows(sid, at, s, s.relations)
    && (forall j :: 0 <= j < |s.traits| ==> TraitAt(t, sid, at, s, j))
    && RelationsFit(s, s.relations) && DistinctHeroes(s.heroes)
  }

  /** The equipment and recipe rows of a snapshot, as its import stored them. */
  ghost predicate RecipesStored(t: Tables, sid: nat, at: Offsets, s: StructuredSnapshot) {
    && ContentOf(t, sid).recipes == RecipeRows(sid, at.equipment, s.equipment, s.recipes)
    && (forall j :: 0 <= j < |s.equipment| ==> EquipmentAt(t, sid, at, s, j))
    && RecipesFit(s.equipment, s.recipes) && DistinctEquipment(s.equipment)
  }

  /** In every state, a published snapshot is stored. */
  lemma PublishedIsStored(t: Tables, published: seq<StructuredSnapshot>, sid: nat)
    requires DatabaseOk(t, published) && sid < |published|
    ensures RelationsStored(t, sid, OffsetsAt(published, sid), published[sid])
    ensures RecipesStored(t, sid, OffsetsAt(published, sid), published[sid])
  {
    var at, s := OffsetsAt(published, sid), published[sid];
    PublishedContent(t, published, sid);
    assert Importable(s);
    LoopsAcceptImportable(s);
    var bare := t.(current := map[]);
    assert bare.traits == t.traits && bare.equipment == t.equipment;
    forall j | 0 <= j < |s.traits| ensures TraitAt(t, sid, at, s, j) { TraitSlot(published, sid, j); }
    forall j | 0 <= j < |s.equipment| ensures EquipmentAt(t, sid, at, s, j) { EquipmentSlot(published, sid, j); }
  }

  lemma HeroIndexOf(heroes: seq<HeroData>, i: nat)
    requires i < |heroes| && DistinctHeroes(heroes)
    ensures HeroIndex(heroes, heroes[i].externalId) == Some(i)
  {
  }

  lemma EquipmentIndexOf(equipment: seq<EquipmentData>, i: nat)
    requires i < |equipment| && DistinctEquipment(equipment)
    ensures EquipmentIndex(equipment, equipment[i].externalId) == Some(i)
  {
  }

  /** Rows of different relations differ, so the relation rows of a snapshot have no duplicates. */
  lemma RelationRowsDistinct(sid: nat, at: Offsets, s: StructuredSnapshot)
    requires RelationsFit(s, s.relations)
    ensures Distinct(RelationRows(sid, at, s, s.relations))
  {
    var rows := RelationRows(sid, at, s, s.relations);
    forall i, j | 0 <= i < j < |rows| ensures rows[i] != rows[j] {
      RelationRowsDiffer(sid, at, s, s.relations[i], s.relations[j]);
    }
  }

  lemma RelationRowsDiffer(sid: nat, at: Offsets, s: StructuredSnapshot, a: Relation, b: Relation)
    requires RelationKnown(s, a) && RelationKnown(s, b) && (a.hero != b.hero || a.key != b.key)
    ensures RowOfRelation(sid, at, s, a) != RowOfRelation(sid, at, s, b)
  {
  }

  // ---- What the relation loader gives back -----------------------------------------------

  /** The relations of one hero and kind are exactly these ids at positions 0, 1, ... */
  ghost predicate LinksAre(s: StructuredSnapshot, hero: string, kind: Kind, names: seq<string>) {
    forall r :: r in s.relations && r.hero == hero && r.key.kind == kind
                <==> r.hero == hero && r.key.kind == kind && r.position < |names| && r.key.id == names[r.position]
  }

  function ExternalIds(t: Tables, rows: seq<HeroTraitRow>): (r: seq<string>)
    requires forall i :: 0 <= i < |rows| ==> rows[i].traitId < |t.traits|
    ensures |r| == |rows|
  {
    seq(|rows|, i requires 0 <= i < |rows| => t.traits[rows[i].traitId].externalId)
  }

  /** The rows a hero's relations of one kind have, in position order. */
  function ExpectedRows(sid: nat, at: Offsets, s: StructuredSnapshot, hero: string, kind: Kind, names: seq<string>):
    (rows: seq<HeroTraitRow>)
    ensures |rows| == |names|
  {
    seq(|names|, p requires 0 <= p < |names| => RowOfRelation(sid, at, s, Relation(hero, TraitKey(kind, names[p]), p)))
  }

  /** One relation row belongs to the i-th hero exactly when its relation does. */
  lemma RowOfHero(sid: nat, at: Offsets, s: StructuredSnapshot, i: nat, r: Relation)
    requires i < |s.heroes| && DistinctHeroes(s.heroes) && RelationKnown(s, r)
    ensures RowOfRelation(sid, at, s, r).heroId == at.heroes + i <==> r.hero == s.heroes[i].externalId
  {
    HeroIndexOf(s.heroes, i);
    HeroIndexOf(s.heroes, HeroIndex(s.heroes, r.hero).value);
  }

  /** Among a snapshot's relation rows, those of one hero and kind are exactly the expected ones. */
  lemma ExpectedMembers(sid: nat, at: Offsets, s: StructuredSnapshot, i: nat, kind: Kind, names: seq<string>, x: HeroTraitRow)
    requires i < |s.heroes| && DistinctHeroes(s.heroes) && RelationsFit(s, s.relations)
    requires LinksAre(s, s.heroes[i].externalId, kind, names)
    ensures x in RelationRows(sid, at, s, s.relations) && x.heroId == at.heroes + i && x.kind == kind
            <==> x in ExpectedRows(sid, at, s, s.heroes[i].externalId, kind, names)
  {
    var hero := s.heroes[i].externalId;
    var rows, expected := RelationRows(sid, at, s, s.relations), ExpectedRows(sid, at, s, hero, kind, names);
    if x in rows && x.heroId == at.heroes + i && x.kind == kind {
      var k :| 0 <= k < |rows| && rows[k] == x;
      var r := s.relations[k];
      RowOfHero(sid, at, s, i, r);
      assert r in s.relations && r.hero == hero && r.key.kind == kind;
      assert r == Relation(hero, TraitKey(kind, names[r.position]), r.position);
      assert expected[r.position] == x;
    }
    if x in expected {
      var p :| 0 <= p < |expected| && expected[p] == x;
      var r := Relation(hero, TraitKey(kind, names[p]), p);
      assert r in s.relations && r.hero == hero && r.key.kind == kind;
      var k :| 0 <= k < |s.relations| && s.relations[k] == r;
      assert RelationKnown(s, r) && rows[k] == x;
      RowOfHero(sid, at, s, i, r);
    }
  }

  lemma RelationRowIsWanted(t: Tables, sid: nat, at: Offsets, s: StructuredSnapshot, ids: seq<nat>, r: Relation)
    requires RelationsStored(t, sid, at, s) && RelationKnown(s, r)
    ensures var row := RowOfRelation(sid, at, s, r);
            && (RelationWanted(t.traits, sid, ids, row) <==> row.heroId in ids)
            && row.traitId < |t.traits| && t.traits[row.traitId].externalId == r.key.id
  {
    var j := TraitIndex(s.traits, r.key).value;
    assert TraitAt(t, sid, at, s, j);
  }

  lemma FlaggedMembers(traits: seq<TraitRow>, sid: nat, ids: seq<nat>, rows: seq<HeroTraitRow>, x: HeroTraitRow)
    ensures x in Select(rows, RelationFlags(traits, sid, ids, rows), true) <==> x in rows && RelationWanted(traits, sid, ids, x)
  {
    SelectMembers(rows, RelationFlags(traits, sid, ids, rows), true, x);
  }

  /** A listing has each relation row of the asked heroes once, and nothing else. */
  lemma ListingMembers(t: Tables, sid: nat, at: Offsets, s: StructuredSnapshot, ids: seq<nat>, rows: seq<HeroTraitRow>, x: HeroTraitRow)
    requires RelationsStored(t, sid, at, s) && RelationListing(t, sid, ids, rows)
    ensures Distinct(rows)
    ensures x in rows <==>
              x in RelationRows(sid, at, s, s.relations) && x.heroId in ids
  {
    var all := RelationRows(sid, at, s, s.relations);
    assert ContentOf(t, sid).relations == all;
    RelationRowsDistinct(sid, at, s);
    SelectIsDistinct(all, RelationFlags(t.traits, sid, ids, all), true);
    SameElements(rows, QueryRelations(t, sid, ids));
    FlaggedMembers(t.traits, sid, ids, all, x);
    if x in all {
      var k :| 0 <= k < |all| && all[k] == x;
      RelationRowIsWanted(t, sid, at, s, ids, s.relations[k]);
    }
  }

  function UpFromZero(n: nat): seq<int> { seq(n, i => i) }

  lemma OrdersOfRelated(rows: seq<HeroTraitRow>, hero: nat, kind: Kind)
    requires OrderedRelations(rows)
    ensures var orders := Select(Positions(rows), HeroKinds(rows), HeroKind(hero, kind));
            orders == Positions(RelatedTo(rows, hero, kind)) && Ascending(orders)
  {
    SelectAscends(Positions(rows), HeroKinds(rows), HeroKind(hero, kind));
    PositionsOfRelated(rows, hero, kind);
  }

  lemma {:induction false} PositionsOfRelated(rows: seq<HeroTraitRow>, hero: nat, kind: Kind)
    ensures Select(Positions(rows), HeroKinds(rows), HeroKind(hero, kind)) == Positions(RelatedTo(rows, hero, kind))
  {
    if rows != [] {
      var n := |rows| - 1;
      PositionsOfRelated(rows[..n], hero, kind);
      assert Positions(rows)[..n] == Positions(rows[..n]);
      assert HeroKinds(rows)[..n] == HeroKinds(rows[..n]);
    }
  }

  lemma RelatedMembers(rows: seq<HeroTraitRow>, hero: nat, kind: Kind, x: HeroTraitRow)
    ensures x in RelatedTo(rows, hero, kind) <==> x in rows && x.heroId == hero && x.kind == kind
  {
    SelectMembers(rows, HeroKinds(rows), HeroKind(hero, kind), x);
  }

  /** For each asked hero the loader returns exactly the relations of the imported data, in position order. */
  lemma LoadedInOrder(t: Tables, sid: nat, at: Offsets, s: StructuredSnapshot, ids: seq<nat>, rows: seq<HeroTraitRow>,
                      i: nat, kind: Kind, names: seq<string>)
    requires RelationsStored(t, sid, at, s) && RelationListing(t, sid, ids, rows)
    requires i < |s.heroes| && LinksAre(s, s.heroes[i].externalId, kind, names)
    requires at.heroes + i in ids
    ensures RelatedTo(rows, at.heroes + i, kind)
            == ExpectedRows(sid, at, s, s.heroes[i].externalId, kind, names)
  {
    var id := at.heroes + i;
    RelatedIsExpected(t, sid, at, s, ids, rows, i, kind, names);
    RelatedInOrder(sid, at, s, s.heroes[i].externalId, kind, names, rows, id);
  }

  lemma RelatedInOrder(sid: nat, at: Offsets, s: StructuredSnapshot, hero: string, kind: Kind, names: seq<string>,
                       rows: seq<HeroTraitRow>, id: nat)
    requires OrderedRelations(rows) && Distinct(RelatedTo(rows, id, kind))
    requires SameMembers(RelatedTo(rows, id, kind), ExpectedRows(sid, at, s, hero, kind, names))
    ensures RelatedTo(rows, id, kind) == ExpectedRows(sid, at, s, hero, kind, names)
  {
    OrdersOfRelated(rows, id, kind);
    OnlyOneOrder(sid, at, s, hero, kind, names, RelatedTo(rows, id, kind));
  }

  lemma OnlyOneOrder(sid: nat, at: Offsets, s: StructuredSnapshot, hero: string, kind: Kind, names: seq<string>, found: seq<HeroTraitRow>)
    requires Distinct(found) && Ascending(Positions(found))
    requires SameMembers(found, ExpectedRows(sid, at, s, hero, kind, names))
    ensures found == ExpectedRows(sid, at, s, hero, kind, names)
  {
    var expected := ExpectedRows(sid, at, s, hero, kind, names);
    SortedListing(found, Positions(found), expected, UpFromZero(|expected|));
  }

  lemma RelatedIsExpected(t: Tables, sid: nat, at: Offsets, s: StructuredSnapshot, ids: seq<nat>, rows: seq<HeroTraitRow>,
                          i: nat, kind: Kind, names: seq<string>)
    requires RelationsStored(t, sid, at, s) && RelationListing(t, sid, ids, rows)
    requires i < |s.heroes| && LinksAre(s, s.heroes[i].externalId, kind, names)
    requires at.heroes + i in ids
    ensures var found := RelatedTo(rows, at.heroes + i, kind);
            Distinct(found)
            && SameMembers(found, ExpectedRows(sid, at, s, s.heroes[i].externalId, kind, names))
  {
    var id := at.heroes + i;
    var expected := ExpectedRows(sid, at, s, s.heroes[i].externalId, kind, names);
    forall x ensures Distinct(rows) && (x in RelatedTo(rows, id, kind) <==> x in expected) {
      ListingMembers(t, sid, at, s, ids, rows, x);
      RelatedMembers(rows, id, kind, x);
      ExpectedMembers(sid, at, s, i, kind, names, x);
    }
    var any := HeroTraitRow(0, 0, 0, kind, 0);
    assert any in RelatedTo(rows, id, kind) <==> any in expected;
    SelectIsDistinct(rows, HeroKinds(rows), HeroKind(id, kind));
  }
}
