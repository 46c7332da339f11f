/** The batched loader of equipment components. */
module GearLoader {
  import opened Common
  import opened RawData
  import opened JccTables
  import opened Structured
  import opened Rows
  import opened JccStore
  import opened JccDatabase
  import opened Publication
  import opened Loaders

  predicate InSnapshot(equipment: seq<EquipmentRow>, sid: nat, id: nat) {
    id < |equipment| && equipment[id].snapshotId == sid
  }

  /** The joins on both components and the WHERE clause. */
  predicate RecipeWanted(equipment: seq<EquipmentRow>, sid: nat, ids: seq<nat>, r: RecipeRow) {
    r.equipmentId in ids && InSnapshot(equipment, sid, r.firstId) && InSnapshot(equipment, sid, r.secondId)
  }

  function RecipeFlags(equipment: seq<EquipmentRow>, sid: nat, ids: seq<nat>, rows: seq<RecipeRow>): (r: seq<bool>)
    ensures |r| == |rows|
  {
    seq(|rows|, i requires 0 <= i < |rows| => RecipeWanted(equipment, sid, ids, rows[i]))
  }

  function QueryRecipes(t: Tables, sid: nat, ids: seq<nat>): seq<RecipeRow> {
    var rows := ContentOf(t, sid).recipes;
    Select(rows, RecipeFlags(t.equipment, sid, ids, rows), true)
  }

  predicate RecipeListing(t: Tables, sid: nat, ids: seq<nat>, rows: seq<RecipeRow>) {
    multiset(rows) == multiset(QueryRecipes(t, sid, ids))
    && forall i, j :: 0 <= i < j < |rows| ==> rows[i].equipmentId <= rows[j].equipmentId
  }

  /** The components of a piece of equipment: those of the last row that names it, or none. */
  function ComponentsIn(rows: seq<RecipeRow>, id: nat): seq<nat> {
    if rows == [] then []
    else if rows[|rows| - 1].equipmentId == id then [rows[|rows| - 1].firstId, rows[|rows| - 1].secondId]
    else ComponentsIn(rows[..|rows| - 1], id)
  }

  /** `_load_equipment_components`. */
  method LoadEquipmentComponents(rows: seq<RecipeRow>, ids: seq<nat>) returns (grouped: map<nat, seq<nat>>)
    requires forall i :: 0 <= i < |rows| ==> rows[i].equipmentId in ids
    ensures forall id :: id in grouped <==> id in ids
    ensures forall id :: id in ids ==> grouped[id] == ComponentsIn(rows, id)
  {
    grouped := map id | id in ids :: [];
    for i := 0 to |rows|
      invariant forall id :: id in grouped <==> id in ids
      invariant forall id :: id in ids ==> grouped[id] == ComponentsIn(rows[..i], id)
    {
      grouped := grouped[rows[i].equipmentId := [rows[i].firstId, rows[i].secondId]];
      assert rows[..i + 1][..i] == rows[..i];
    }
    assert rows[..|rows|] == rows;
  }

  /** When a piece of equipment has at most one row, its components are that row's. */
  lemma {:induction false} ComponentsOfOnlyRow(rows: seq<RecipeRow>, id: nat, row: RecipeRow)
    requires forall x :: x in rows && x.equipmentId == id ==> x == row
    ensures ComponentsIn(rows, id) == if row in rows && row.equipmentId == id then [row.firstId, row.secondId] else []
  {
    if rows != [] {
      var n := |rows| - 1;
      assert rows == rows[..n] + [rows[n]];
      assert rows[n] in rows;
      ComponentsOfOnlyRow(rows[..n], id, row);
    }
  }

  lemma RecipeRowIsWanted(t: Tables, sid: nat, at: Offsets, s: StructuredSnapshot, ids: seq<nat>, r: RecipeData)
    requires RecipesStored(t, sid, at, s) && RecipeKnown(s.equipment, r)
    ensures var row := RowOfRecipe(sid, at.equipment, s.equipment, r);
            && (RecipeWanted(t.equipment, sid, ids, row) <==> row.equipmentId in ids)
            && row.firstId < |t.equipment| && t.equipment[row.firstId].externalId == r.first
            && row.secondId < |t.equipment| && t.equipment[row.secondId].externalId == r.second
  {
    var i, j := EquipmentIndex(s.equipment, r.first).value, EquipmentIndex(s.equipment, r.second).value;
    assert EquipmentAt(t, sid, at, s, i) && EquipmentAt(t, sid, at, s, j);
  }

  /** A listing has exactly the recipe rows of the asked equipment. */
  lemma RecipesListed(t: Tables, sid: nat, at: Offsets, s: StructuredSnapshot, ids: seq<nat>, rows: seq<RecipeRow>, x: RecipeRow)
    requires RecipesStored(t, sid, at, s) && RecipeListing(t, sid, ids, rows)
    ensures x in rows <==>
              x in RecipeRows(sid, at.equipment, s.equipment, s.recipes)
              && x.equipmentId in ids
  {
    var all := RecipeRows(sid, at.equipment, s.equipment, s.recipes);
    assert ContentOf(t, sid).recipes == all;
    assert x in rows <==> x in multiset(rows);
    SelectMembers(all, RecipeFlags(t.equipment, sid, ids, all), true, x);
    if x in all {
      var k :| 0 <= k < |all| && all[k] == x;
      RecipeRowIsWanted(t, sid, at, s, ids, s.recipes[k]);
    }
  }

  /** The row of a recipe carries the id of the i-th piece of equipment exactly when it makes that piece. */
  lemma RowOfEquipment(sid: nat, first: nat, equipment: seq<EquipmentData>, i: nat, r: RecipeData)
    requires i < |equipment| && DistinctEquipment(equipment) && RecipeKnown(equipment, r)
    ensures RowOfRecipe(sid, first, equipment, r).equipmentId == first + i <==> r.equipment == equipment[i].externalId
  {
    EquipmentIndexOf(equipment, i);
    EquipmentIndexOf(equipment, EquipmentIndex(equipment, r.equipment).value);
  }

  function ExternalNames(t: Tables, ids: seq<nat>): (r: seq<string>)
    requires forall i :: 0 <= i < |ids| ==> ids[i] < |t.equipment|
    ensures |r| == |ids|
  {
    seq(|ids|, i requires 0 <= i < |ids| => t.equipment[ids[i]].externalId)
  }

  /** The recipe of a piece of equipment in the imported data: its two components, or nothing. */
  function RecipeNames(recipes: seq<RecipeData>, equipment: string): seq<string> {
    if recipes == [] then []
    else if recipes[|recipes| - 1].equipment == equipment then [recipes[|recipes| - 1].first, recipes[|recipes| - 1].second]
    else RecipeNames(recipes[..|recipes| - 1], equipment)
  }

  lemma {:induction false} NamedRecipe(recipes: seq<RecipeData>, equipment: string)
    requires DistinctRecipes(recipes)
    ensures (forall r :: r in recipes && r.equipment == equipment ==> RecipeNames(recipes, equipment) == [r.first, r.second])
    ensures (forall r :: r in recipes ==> r.equipment != equipment) ==> RecipeNames(recipes, equipment) == []
  {
    if recipes != [] {
      var n := |recipes| - 1;
      assert recipes == recipes[..n] + [recipes[n]];
      NamedRecipe(recipes[..n], equipment);
      assert recipes[n] in recipes;
    }
  }

  predicate AllIn(t: Tables, ids: seq<nat>) { forall i :: 0 <= i < |ids| ==> ids[i] < |t.equipment| }

  lemma NamesOfPair(t: Tables, a: nat, b: nat)
    requires a < |t.equipment| && b < |t.equipment|
    ensures AllIn(t, [a, b]) && ExternalNames(t, [a, b]) == [t.equipment[a].externalId, t.equipment[b].externalId]
  {
  }

  /** For each asked piece of equipment the loader returns exactly its two components in order, or none. */
  lemma LoadedComponents(t: Tables, sid: nat, at: Offsets, s: StructuredSnapshot, i: nat, ids: seq<nat>, rows: seq<RecipeRow>)
    requires RecipesStored(t, sid, at, s) && RecipeListing(t, sid, ids, rows)
    requires i < |s.equipment| && at.equipment + i in ids
    ensures var found := ComponentsIn(rows, at.equipment + i);
            AllIn(t, found)
            && ExternalNames(t, found) == RecipeNames(s.recipes, s.equipment[i].externalId)
  {
    var first := at.equipment;
    NamedRecipe(s.recipes, s.equipment[i].externalId);
    if k :| 0 <= k < |s.recipes| && s.recipes[k].equipment == s.equipment[i].externalId {
      var r := s.recipes[k];
      var row := FoundRow(t, sid, at, s, i, ids, rows, k);
      assert r in s.recipes;
      NamesOfPair(t, row.firstId, row.secondId);
    } else {
      NoRecipe(t, sid, at, s, i, ids, rows);
      ComponentsOfOnlyRow(rows, first + i, RecipeRow(0, first + i + 1, 0, 0));
    }
  }

  lemma FoundRow(t: Tables, sid: nat, at: Offsets, s: StructuredSnapshot, i: nat, ids: seq<nat>, rows: seq<RecipeRow>, k: nat)
    returns (row: RecipeRow)
    requires RecipesStored(t, sid, at, s) && RecipeListing(t, sid, ids, rows)
    requires i < |s.equipment| && at.equipment + i in ids && k < |s.recipes|
    requires s.recipes[k].equipment == s.equipment[i].externalId
    ensures ComponentsIn(rows, at.equipment + i) == [row.firstId, row.secondId]
    ensures row.firstId < |t.equipment| && t.equipment[row.firstId].externalId == s.recipes[k].first
    ensures row.secondId < |t.equipment| && t.equipment[row.secondId].externalId == s.recipes[k].second
  {
    var first := at.equipment;
    row := RowOfRecipe(sid, first, s.equipment, s.recipes[k]);
    assert RecipeKnown(s.equipment, s.recipes[k]);
    assert row in rows by {
      assert RecipeRows(sid, first, s.equipment, s.recipes)[k] == row;
      RowOfEquipment(sid, first, s.equipment, i, s.recipes[k]);
      RecipesListed(t, sid, at, s, ids, rows, row);
    }
    assert row.equipmentId == first + i by { RowOfEquipment(sid, first, s.equipment, i, s.recipes[k]); }
    RecipeRowIsWanted(t, sid, at, s, ids, s.recipes[k]);
    OnlyRecipe(t, sid, at, s, i, ids, rows, k);
    ComponentsOfOnlyRow(rows, first + i, row);
  }

  lemma OnlyRecipe(t: Tables, sid: nat, at: Offsets, s: StructuredSnapshot, i: nat, ids: seq<nat>, rows: seq<RecipeRow>, k: nat)
    requires RecipesStored(t, sid, at, s) && RecipeListing(t, sid, ids, rows)
    requires i < |s.equipment| && k < |s.recipes|
    requires s.recipes[k].equipment == s.equipment[i].externalId
    ensures var first := at.equipment;
            forall x :: x in rows && x.equipmentId == first + i ==> x == RowOfRecipe(sid, first, s.equipment, s.recipes[k])
  {
    var first := at.equipment;
    var all := RecipeRows(sid, first, s.equipment, s.recipes);
    forall x | x in rows && x.equipmentId == first + i ensures x == RowOfRecipe(sid, first, s.equipment, s.recipes[k]) {
      RecipesListed(t, sid, at, s, ids, rows, x);
      var j :| 0 <= j < |all| && all[j] == x;
      RowOfEquipment(sid, first, s.equipment, i, s.recipes[j]);
      assert j == k;
    }
  }

  lemma NoRecipe(t: Tables, sid: nat, at: Offsets, s: StructuredSnapshot, i: nat, ids: seq<nat>, rows: seq<RecipeRow>)
    requires RecipesStored(t, sid, at, s) && RecipeListing(t, sid, ids, rows)
    requires i < |s.equipment|
    requires forall k :: 0 <= k < |s.recipes| ==>
               s.recipes[k].equipment != s.equipment[i].externalId
    ensures forall x :: x in rows ==> x.equipmentId != at.equipment + i
  {
    var first := at.equipment;
    var all := RecipeRows(sid, first, s.equipment, s.recipes);
    forall x | x in rows ensures x.equipmentId != first + i {
      RecipesListed(t, sid, at, s, ids, rows, x);
      var j :| 0 <= j < |all| && all[j] == x;
      RowOfEquipment(sid, first, s.equipment, i, s.recipes[j]);
    }
  }
}
